/** A custom table field by field: its settings, what booting adds, and what each request becomes. */
module CustomFacts {
  import opened Basics
  import opened Entities
  import opened Resize
  import opened Mounts
  import opened Directories
  import opened DirectorySizes
  import opened Layout
  import opened LayoutNumbers
  import opened LayoutSpace
  import opened ResizeExact
  import opened Extents
  import opened Names
  import opened Volumes
  import opened Wrapping
  import opened NewTable
  import opened CustomTable
  import opened CustomMounts

  // ---------- settings ----------

  /** Main result: the table is of the requested kind, or of the default kind, or GPT; offset, sector
      size and policy are the given ones, and nothing else is set. */
  lemma CustomTableSettings(r: DiskRequest, o: CustomOptions, policy: Option<Policy>, d': Disk)
    requires AllRootRequests(r.partitions) <= 1 && forall x :: x in o.requiredMinSizes ==> Rooted(x)
    requires MakesCustom(r, o, policy, d')
    ensures r.tableType in {"dos", "gpt", ""}
    ensures r.tableType == "dos" ==> d'.config.tableType == Dos
    ensures r.tableType == "gpt" ==> d'.config.tableType == Gpt
    ensures r.tableType == "" && o.tableType == NoType ==> d'.config.tableType == Gpt
    ensures r.tableType == "" && o.tableType != NoType ==> d'.config.tableType == o.tableType
    ensures d'.config.startOffset == r.startOffset && d'.config.sectorSize == r.sectorSize
    ensures d'.config.policy == if policy.None? then Some(Policy(true, None)) else policy
    ensures d'.config.grainSize == 0 && d'.config.extraPadding == 0 && !d'.config.absoluteStartOffset
    ensures d'.config.tableType == Dos ==> |d'.tree.children| <= 4
  {
    ReadyCanLayOut(PrepareCustom(r, o, policy).value);
  }

  lemma TableTypeRefused(r: DiskRequest, o: CustomOptions, policy: Option<Policy>)
    requires AllRootRequests(r.partitions) <= 1 && forall x :: x in o.requiredMinSizes ==> Rooted(x)
    requires r.tableType !in {"dos", "gpt", ""}
    ensures PrepareCustom(r, o, policy) == Err(InvalidTableType)
  {
  }

  // ---------- what booting needs ----------

  function Bios(t: TableType): Entity {
    Entity(Partition(0, if t == Dos then "00" else "21686148-6449-6E6F-744E-656564454649"), 1048576, [])
  }

  function Prep(t: TableType): Entity {
    Entity(Partition(0, if t == Dos then "41" else "9E1A2D38-C612-4316-AA26-8B49521E5A8B"), 4194304, [])
  }

  function Esp(t: TableType, size: nat): Entity {
    Entity(Partition(0, if t == Dos then "ef" else "C12A7328-F81F-11D2-BA4B-00A0C93EC93B"),
           if size == 0 then 209715200 else size,
           [Entity(Filesystem("vfat", "/boot/efi", "ESP", "defaults"), 0, [])])
  }

  function Boot(t: TableType, fs: string): Entity {
    Entity(Partition(0, if t == Dos then "83" else "BC13C2FF-59E6-4262-A352-B275FD6F7172"), 1073741824,
           [Entity(Filesystem(fs, "/boot", "boot", "defaults"), 0, [])])
  }

  predicate KnownPlatform(o: CustomOptions) {
    o.bootMode == NoBoot || (o.arch != Unset && (o.arch == X86_64 ==> o.bootMode != OtherBoot))
  }

  /** A platform gets the partitions it boots from, or is refused. */
  lemma BootModeExact(t: TableType, r: DiskRequest, o: CustomOptions)
    requires t != NoType
    ensures !KnownPlatform(o) ==> BootModePartitions(t, r, o) == Err(InvalidPlatform)
    ensures KnownPlatform(o) ==>
              && BootModePartitions(t, r, o).Ok?
              && BootModePartitions(t, r, o).value ==
                 (if o.bootMode != NoBoot && o.arch == Ppc64le then [Prep(t)] else [])
                 + (if o.arch == X86_64 && (o.bootMode == Legacy || o.bootMode == Hybrid) then [Bios(t)] else [])
                 + (if BootsFromEsp(o) && !PlainAt(r, "/boot/efi") then [Esp(t, o.espSize)] else [])
  {
    if o.arch == X86_64 { BootModeX86(t, r, o); } else { BootModeOther(t, r, o); }
  }

  lemma BootModeX86(t: TableType, r: DiskRequest, o: CustomOptions)
    requires t != NoType && o.arch == X86_64
    ensures o.bootMode == OtherBoot ==> BootModePartitions(t, r, o) == Err(InvalidPlatform)
    ensures o.bootMode != OtherBoot ==>
              && BootModePartitions(t, r, o).Ok?
              && BootModePartitions(t, r, o).value ==
                 (if o.bootMode == Legacy || o.bootMode == Hybrid then [Bios(t)] else [])
                 + (if BootsFromEsp(o) && !PlainAt(r, "/boot/efi") then [Esp(t, o.espSize)] else [])
  {
    BootPartsExact(t, o);
    assert HasEsp(r) <==> PlainAt(r, "/boot/efi");
    match o.bootMode {
      case Hybrid => assert [Bios(t)] + [Esp(t, o.espSize)] == [Bios(t), Esp(t, o.espSize)];
      case _ =>
    }
  }

  lemma BootModeOther(t: TableType, r: DiskRequest, o: CustomOptions)
    requires t != NoType && o.arch != X86_64
    ensures o.bootMode != NoBoot && o.arch == Unset ==> BootModePartitions(t, r, o) == Err(InvalidPlatform)
    ensures o.bootMode == NoBoot || o.arch != Unset ==>
              && BootModePartitions(t, r, o).Ok?
              && BootModePartitions(t, r, o).value ==
                 (if o.bootMode != NoBoot && o.arch == Ppc64le then [Prep(t)] else [])
                 + (if BootsFromEsp(o) && !PlainAt(r, "/boot/efi") then [Esp(t, o.espSize)] else [])
  {
    assert HasEsp(r) <==> PlainAt(r, "/boot/efi");
    BootPartsExact(t, o);
  }

  lemma BootPartsExact(t: TableType, o: CustomOptions)
    requires t != NoType
    ensures MakeEsp(t, o) == Ok(Esp(t, o.espSize))
    ensures Single(NewPartition(t, "bios", "", Unset, MIB, [])) == Ok([Bios(t)])
    ensures Single(NewPartition(t, "ppc_prep", "", Unset, 4 * MIB, [])) == Ok([Prep(t)])
  {
  }

  /** Main result: booting adds nothing else than the platform's partitions and, where the policy and
      the requested volumes ask for it, a "/boot" of a GiB behind them. */
  lemma ForBootingExact(t: TableType, r: DiskRequest, o: CustomOptions, policy: Policy)
    requires t != NoType && KnownPlatform(o)
    ensures BootModePartitions(t, r, o).Ok?
    ensures ForBooting(t, r, o, policy) ==
            Ok(BootModePartitions(t, r, o).value
               + (if policy.ensureXBootldr && NeedsBoot(r) then [Boot(t, if o.defaultFs == Ext4 then "ext4" else "xfs")] else []))
  {
    BootLabelFree(t, r, o);
    var boot, fs := BootModePartitions(t, r, o).value, if o.defaultFs == Ext4 then "ext4" else "xfs";
    BootExact(t, boot, o);
    assert boot + [] == boot;
  }

  lemma BootExact(t: TableType, ps: seq<Entity>, o: CustomOptions)
    requires t != NoType && "boot" !in LabelsOf(ps)
    ensures BootPartition(t, ps, o) == Ok(Boot(t, if o.defaultFs == Ext4 then "ext4" else "xfs"))
  {
  }

  lemma BootLabelFree(t: TableType, r: DiskRequest, o: CustomOptions)
    requires t != NoType && KnownPlatform(o)
    ensures BootModePartitions(t, r, o).Ok? && "boot" !in LabelsOf(BootModePartitions(t, r, o).value)
  {
    BootModeExact(t, r, o);
    LabelsOfFew(t, o.espSize);
  }

  lemma LabelsOfFew(t: TableType, size: nat)
    ensures LabelsOf([]) == {} && LabelsOf([Prep(t)]) == {} && LabelsOf([Bios(t)]) == {}
    ensures LabelsOf([Esp(t, size)]) == {"ESP"} && LabelsOf([Bios(t), Esp(t, size)]) == {"ESP"}
  {
    assert LabelsOf(Prep(t).children) == {} && LabelsOf(Bios(t).children) == {};
    var fs := Esp(t, size).children[0];
    assert LabelsOf([fs]) == Labels(fs) + LabelsOf([]);
    assert LabelsOf([Esp(t, size)]) == Labels(Esp(t, size)) + LabelsOf([]);
    assert [Bios(t), Esp(t, size)][1..] == [Esp(t, size)];
  }

  // ---------- requests ----------

  /** The type of filesystem: the given one or the default one. */
  predicate FsChosen(given: string, o: CustomOptions, fstype: string) {
    if given != "" then fstype == given
    else
      && (o.defaultFs == Vfat ==> fstype == "vfat") && (o.defaultFs == Ext4 ==> fstype == "ext4")
      && (o.defaultFs == Xfs ==> fstype == "xfs") && (o.defaultFs == BtrfsFs ==> fstype == "btrfs")
      && o.defaultFs != NoFs
  }

  /** The payload for a type of filesystem. */
  predicate Holds(children: seq<Entity>, fstype: string, m: string, fsLabel: string) {
    if fstype == "swap" then children == [Entity(Swap, 0, [])]
    else children == [Entity(Filesystem(fstype, m, fsLabel, "defaults"), 0, [])]
  }

  /** The partition types by name on DOS: only boot partitions, swap space and LVM have their own. */
  predicate DosType(p: PartitionRequest, fstype: string, id: string) {
    && (p.kind == "lvm" ==> id == "8e")
    && (p.kind == "btrfs" ==> id == "83")
    && (p.Plain() && p.mountpoint == "/boot/efi" ==> id == "ef")
    && (p.Plain() && p.mountpoint in {"/", "/usr", "/boot"} ==> id == "83")
    && (p.Plain() && p.mountpoint !in {"/", "/usr", "/boot", "/boot/efi"} ==> id == if fstype == "swap" then "82" else "83")
  }

  /** On GPT the root and "/usr" partitions have a type for each architecture. */
  predicate GptType(p: PartitionRequest, arch: Arch, fstype: string, id: string) {
    && (p.kind == "lvm" ==> id == "E6D6D379-F507-44C2-A23C-238F2A3DF928")
    && (p.kind == "btrfs" ==> id == "0FC63DAF-8483-4772-8E79-3D69D8477DE4")
    && (p.Plain() && p.mountpoint == "/" ==> GptRootType(arch, id))
    && (p.Plain() && p.mountpoint == "/usr" ==> GptUsrType(arch, id))
    && (p.Plain() && p.mountpoint == "/boot" ==> id == "BC13C2FF-59E6-4262-A352-B275FD6F7172")
    && (p.Plain() && p.mountpoint == "/boot/efi" ==> id == "C12A7328-F81F-11D2-BA4B-00A0C93EC93B")
    && (p.Plain() && p.mountpoint !in {"/", "/usr", "/boot", "/boot/efi"} ==>
          id == if fstype == "swap" then "0657FD6D-A4AB-43C4-84E5-0933C84B4F4F" else "0FC63DAF-8483-4772-8E79-3D69D8477DE4")
  }

  predicate GptRootType(arch: Arch, id: string) {
    && (arch == X86_64 ==> id == "4F68BCE3-E8CD-4DB1-96E7-FBCAF984B709")
    && (arch == Aarch64 ==> id == "B921B045-1DF0-41C3-AF44-4C6F280D3FAE")
    && (arch == Ppc64le ==> id == "C31C45E6-3F39-412E-80FB-4809C4980599")
    && (arch == S390x ==> id == "5EEAD9A9-FE09-4A1E-A1D7-520D00531306")
    && arch != Riscv64 && arch != Unset
  }

  predicate GptUsrType(arch: Arch, id: string) {
    && (arch == X86_64 ==> id == "8484680C-9521-48C6-9C11-B0720656F69E")
    && (arch == Aarch64 ==> id == "B0E01050-EE5F-4390-949A-9101B17104E9")
    && (arch == Ppc64le ==> id == "15BB03AF-77E7-4D4A-B12B-C0D084F7491C")
    && (arch == S390x ==> id == "8A4F5770-50AA-4ED3-874A-99B710DB6FEA")
    && arch != Riscv64 && arch != Unset
  }

  /** The given type, or the one for what the partition is. */
  predicate TypeMet(t: TableType, p: PartitionRequest, arch: Arch, fstype: string, id: string) {
    if p.partType != "" then id == p.partType
    else (t == Dos && DosType(p, fstype, id)) || (t == Gpt && GptType(p, arch, fstype, id))
  }

  /** A plain partition with the filesystem asked for, or empty, or swap space. */
  predicate PlainMet(t: TableType, p: PartitionRequest, o: CustomOptions, e: Entity)
    requires e.kind.Partition?
  {
    exists fstype: string | fstype in {p.fstype, "vfat", "ext4", "xfs", "btrfs"} ::
      && FsChosen(p.fstype, o, fstype)
      && (if fstype == "none" then e.children == [] else Holds(e.children, fstype, p.mountpoint, p.fsLabel))
      && TypeMet(t, p, o.arch, fstype, e.kind.ptype)
  }

  /** A logical volume of whole extents with what was asked for. */
  predicate VolumeMet(v: VolumeRequest, o: CustomOptions, lv: Entity) {
    && lv.kind.LogicalVolume?
    && (v.name != "" ==> lv.kind.name == v.name)
    && LeastMultiple(lv.size, v.minSize, 4194304)
    && exists fstype: string | fstype in {v.fstype, "vfat", "ext4", "xfs", "btrfs"} ::
         FsChosen(v.fstype, o, fstype) && Holds(lv.children, fstype, v.mountpoint, v.fsLabel)
  }

  predicate GroupMet(t: TableType, p: PartitionRequest, o: CustomOptions, e: Entity)
    requires e.kind.Partition?
  {
    && |e.children| == 1 && e.children[0].kind.VolumeGroup?
    && (if p.name != "" then e.children[0].kind.name == p.name
        else exists k | 0 <= k < 100 :: e.children[0].kind.name == "vg" + TwoDigits(k))
    && |e.children[0].children| == |p.volumes|
    && (forall j :: 0 <= j < |p.volumes| ==> VolumeMet(p.volumes[j], o, e.children[0].children[j]))
    && TypeMet(t, p, o.arch, "", e.kind.ptype)
  }

  predicate BtrfsMet(t: TableType, p: PartitionRequest, o: CustomOptions, e: Entity)
    requires e.kind.Partition?
  {
    && |e.children| == 1 && e.children[0].kind == Btrfs
    && |e.children[0].children| == |p.subvolumes|
    && (forall j :: 0 <= j < |p.subvolumes| ==>
          e.children[0].children[j] == Entity(Subvolume(p.subvolumes[j].name, p.subvolumes[j].mountpoint, false), 0, []))
    && TypeMet(t, p, o.arch, "", e.kind.ptype)
  }

  /** The partition that a request becomes before the table is grown and laid out. */
  predicate RequestMet(t: TableType, p: PartitionRequest, o: CustomOptions, e: Entity) {
    && e.kind.Partition? && e.size == p.minSize
    && (p.partType != "" ==> p.idsAccepted)
    && p.kind in {"plain", "", "lvm", "btrfs"}
    && (p.kind in {"plain", ""} ==> PlainMet(t, p, o, e))
    && (p.kind == "lvm" ==> GroupMet(t, p, o, e))
    && (p.kind == "btrfs" ==> BtrfsMet(t, p, o, e))
  }

  lemma PlainIsMet(t: TableType, p: PartitionRequest, o: CustomOptions)
    requires t != NoType && p.Plain() && PlainPartition(t, p, o).Ok?
    ensures PlainMet(t, p, o, PlainPartition(t, p, o).value) && PlainPartition(t, p, o).value.size == p.minSize
  {
    var fstype := FsTypeOr(p.fstype, o).value;
    assert FsChosen(p.fstype, o, fstype);
    PlainTypeMet(t, p, o);
  }

  lemma PlainTypeMet(t: TableType, p: PartitionRequest, o: CustomOptions)
    requires t != NoType && p.Plain() && PlainPartition(t, p, o).Ok?
    ensures PlainPartition(t, p, o).value.kind.Partition?
    ensures TypeMet(t, p, o.arch, FsTypeOr(p.fstype, o).value, PlainPartition(t, p, o).value.kind.ptype)
  {
    if p.partType == "" { NamedTypeMet(t, p, o.arch, FsTypeOr(p.fstype, o).value); }
  }

  lemma NamedTypeMet(t: TableType, p: PartitionRequest, arch: Arch, fstype: string)
    requires t != NoType && p.Plain() && TypeIdFor(t, PlainTypeName(p.mountpoint, fstype), arch).Ok?
    ensures var id := TypeIdFor(t, PlainTypeName(p.mountpoint, fstype), arch).value;
            (t == Dos ==> DosType(p, fstype, id)) && (t == Gpt ==> GptType(p, arch, fstype, id))
  {
    if p.mountpoint == "/" || p.mountpoint == "/usr" {
      SystemTypeMet(t, p.mountpoint, arch);
    }
  }

  lemma SystemTypeMet(t: TableType, m: string, arch: Arch)
    requires t != NoType && m in {"/", "/usr"} && TypeIdFor(t, PlainTypeName(m, ""), arch).Ok?
    ensures var id := TypeIdFor(t, PlainTypeName(m, ""), arch).value;
            && (t == Dos ==> id == "83")
            && (t == Gpt ==> if m == "/" then GptRootType(arch, id) else GptUsrType(arch, id))
  {
  }

  lemma VolumeIsMet(before: Entity, v: VolumeRequest, o: CustomOptions)
    requires AddVolume(before, v, o).Ok?
    ensures var r := AddVolume(before, v, o).value;
            && |r.children| == |before.children| + 1 && r.children[..|before.children|] == before.children
            && r.kind == before.kind && VolumeMet(v, o, r.children[|before.children|])
  {
    assert FsChosen(v.fstype, o, FsTypeOr(v.fstype, o).value);
  }

  lemma {:induction false} VolumesAreMet(vg: Entity, vs: seq<VolumeRequest>, o: CustomOptions)
    requires vg.children == [] && WithVolumes(vg, vs, o).Ok?
    ensures var r := WithVolumes(vg, vs, o).value;
            && r.kind == vg.kind && |r.children| == |vs|
            && forall j :: 0 <= j < |vs| ==> VolumeMet(vs[j], o, r.children[j])
    decreases |vs|
  {
    if vs != [] {
      var n := |vs| - 1;
      var before := WithVolumes(vg, vs[..n], o).value;
      VolumesAreMet(vg, vs[..n], o);
      VolumeIsMet(before, vs[n], o);
      var r := WithVolumes(vg, vs, o).value;
      forall j | 0 <= j < |vs| ensures VolumeMet(vs[j], o, r.children[j]) {
        if j < n { assert r.children[j] == r.children[..n][j] && vs[..n][j] == vs[j]; }
      }
    }
  }

  lemma RequestIsMet(t: TableType, ps: seq<Entity>, p: PartitionRequest, o: CustomOptions)
    requires t != NoType && RequestedPartition(t, ps, p, o).Ok?
    ensures RequestMet(t, p, o, RequestedPartition(t, ps, p, o).value)
  {
    if p.Plain() {
      PlainIsMet(t, p, o);
    } else if p.kind == "lvm" {
      VolumesAreMet(EmptyGroup(GroupName(ps, p).value), p.volumes, o);
    }
  }

  /** The partitions from `first` on are what was requested. */
  predicate MetFrom(t: TableType, ps: seq<Entity>, first: nat, rs: seq<PartitionRequest>, o: CustomOptions) {
    && |ps| == first + |rs|
    && forall i :: 0 <= i < |rs| ==> RequestMet(t, rs[i], o, ps[first + i])
  }

  lemma MetSnoc(t: TableType, ps: seq<Entity>, p: Entity, first: nat, rs: seq<PartitionRequest>, o: CustomOptions)
    requires rs != [] && MetFrom(t, ps, first, rs[..|rs| - 1], o) && RequestMet(t, rs[|rs| - 1], o, p)
    ensures MetFrom(t, ps + [p], first, rs, o)
  {
    var n := |rs| - 1;
    forall i | 0 <= i < |rs| ensures RequestMet(t, rs[i], o, (ps + [p])[first + i]) {
      if i < n { assert rs[..n][i] == rs[i] && (ps + [p])[first + i] == ps[first + i]; }
    }
  }

  lemma {:induction false} RequestsAreMet(t: TableType, ps: seq<Entity>, rs: seq<PartitionRequest>, o: CustomOptions)
    requires t != NoType && WithRequested(t, ps, rs, o).Ok?
    ensures MetFrom(t, WithRequested(t, ps, rs, o).value, |ps|, rs, o)
    ensures WithRequested(t, ps, rs, o).value[..|ps|] == ps
    decreases |rs|
  {
    if rs != [] {
      var n := |rs| - 1;
      var before := WithRequested(t, ps, rs[..n], o).value;
      RequestsAreMet(t, ps, rs[..n], o);
      RequestIsMet(t, before, rs[n], o);
      MetSnoc(t, before, RequestedPartition(t, before, rs[n], o).value, |ps|, rs, o);
    }
  }

  // ---------- labels ----------

  /** A label: of a filesystem, or the name of a subvolume. */
  predicate HasLabel(k: Kind, x: string) {
    (k.Filesystem? && k.fsLabel == x) || (k.Subvolume? && k.name == x)
  }

  ghost predicate LabelIn(e: Entity, x: string) {
    exists p: Path :: ValidPath(e, p) && HasLabel(At(e, p).kind, x)
  }

  /** The labels of a tree are those of all filesystems and subvolumes in it. */
  lemma {:induction false} LabelsAre(e: Entity, x: string)
    requires WellTyped(e)
    ensures x in Labels(e) <==> LabelIn(e, x)
    decreases e, 1
  {
    ChildrenShape(e);
    if e.kind.Filesystem? || e.kind.Subvolume? {
      if x in Labels(e) { assert ValidPath(e, []) && HasLabel(At(e, []).kind, x); }
      if LabelIn(e, x) {
        var p: Path :| ValidPath(e, p) && HasLabel(At(e, p).kind, x);
        assert p == [];
      }
    } else {
      LabelsOfAre(e.children, x);
      if LabelIn(e, x) {
        var p: Path :| ValidPath(e, p) && HasLabel(At(e, p).kind, x);
        assert LabelIn(e.children[p[0]], x) by { assert ValidPath(e.children[p[0]], p[1..]); }
      }
      if i :| 0 <= i < |e.children| && LabelIn(e.children[i], x) {
        var p: Path :| ValidPath(e.children[i], p) && HasLabel(At(e.children[i], p).kind, x);
        LabelBelow(e, i, p, x);
      }
    }
  }

  lemma LabelBelow(e: Entity, i: nat, p: Path, x: string)
    requires i < |e.children| && ValidPath(e.children[i], p) && HasLabel(At(e.children[i], p).kind, x)
    ensures LabelIn(e, x)
  {
    assert ([i] + p)[1..] == p;
    assert ValidPath(e, [i] + p) && At(e, [i] + p) == At(e.children[i], p);
  }

  lemma {:induction false} LabelsOfAre(cs: seq<Entity>, x: string)
    requires forall i :: 0 <= i < |cs| ==> WellTyped(cs[i])
    ensures x in LabelsOf(cs) <==> exists i :: 0 <= i < |cs| && LabelIn(cs[i], x)
    decreases cs, 0
  {
    if cs != [] {
      LabelsAre(cs[0], x);
      LabelsOfAre(cs[1..], x);
      if i :| 0 <= i < |cs[1..]| && LabelIn(cs[1..][i], x) { assert LabelIn(cs[i + 1], x); }
      if i :| 0 <= i < |cs| && LabelIn(cs[i], x) {
        if i != 0 { assert LabelIn(cs[1..][i - 1], x); }
      }
    }
  }

  ghost predicate SubvolumeIn(e: Entity, x: string) {
    exists p: Path :: ValidPath(e, p) && At(e, p).kind.Subvolume? && At(e, p).kind.name == x
  }

  /** The names of all subvolumes. */
  lemma {:induction false} SubvolumeNamesAre(cs: seq<Entity>, x: string)
    requires forall i :: 0 <= i < |cs| ==> WellTyped(cs[i])
    ensures x in SubvolumeNames(cs) <==> exists i :: 0 <= i < |cs| && SubvolumeIn(cs[i], x)
    decreases cs
  {
    if cs != [] {
      SubvolumeNamesAre(cs[1..], x);
      SubvolumeNameIs(cs[0], x);
      if i :| 0 <= i < |cs[1..]| && SubvolumeIn(cs[1..][i], x) { assert SubvolumeIn(cs[i + 1], x); }
      if i :| 0 <= i < |cs| && SubvolumeIn(cs[i], x) {
        if i != 0 { assert SubvolumeIn(cs[1..][i - 1], x); }
      }
    }
  }

  lemma {:induction false} SubvolumeNameIs(e: Entity, x: string)
    requires WellTyped(e)
    ensures SubvolumeIn(e, x) <==> if e.kind.Subvolume? then e.kind.name == x else x in SubvolumeNames(e.children)
    decreases e
  {
    ChildrenShape(e);
    if e.kind.Subvolume? {
      if e.kind.name == x { assert ValidPath(e, []) && At(e, []) == e; }
    } else {
      SubvolumeNamesAre(e.children, x);
      if SubvolumeIn(e, x) {
        var p: Path :| ValidPath(e, p) && At(e, p).kind.Subvolume? && At(e, p).kind.name == x;
        assert SubvolumeIn(e.children[p[0]], x) by { assert ValidPath(e.children[p[0]], p[1..]); }
      }
      if i :| 0 <= i < |e.children| && SubvolumeIn(e.children[i], x) {
        var p: Path :| ValidPath(e.children[i], p) && At(e.children[i], p).kind.Subvolume? && At(e.children[i], p).kind.name == x;
        assert ([i] + p)[1..] == p;
        assert ValidPath(e, [i] + p) && At(e, [i] + p) == At(e.children[i], p);
      }
    }
  }

  // ---------- the root ----------

  /** A generated name: the base, or the base with two digits, and none of those taken. */
  predicate Fresh(name: string, base: string, taken: set<string>) {
    name !in taken && (name == base || exists k | 0 <= k < 100 :: name == base + TwoDigits(k))
  }

  /** A filesystem for "/" of the default type with a new label. */
  predicate NewRoot(fs: Entity, ps: seq<Entity>, o: CustomOptions) {
    && fs.kind.Filesystem? && fs.kind.mountpoint == "/" && fs.kind.options == "defaults" && fs.children == []
    && FsChosen("", o, fs.kind.fstype)
    && Fresh(fs.kind.fsLabel, "root", LabelsOf(ps))
  }

  /** The volume container with one more child for "/": a volume of size 0 with a new name, or a
      subvolume. */
  predicate RootInside(v: Entity, v': Entity, ps: seq<Entity>, o: CustomOptions) {
    && v'.kind == v.kind && v'.size == v.size
    && |v'.children| == |v.children| + 1 && v'.children[..|v.children|] == v.children
    && var last := v'.children[|v.children|];
       if v.kind.VolumeGroup? then
         && last.kind.LogicalVolume? && last.size == 0 && Fresh(last.kind.name, "rootlv", LvNames(v))
         && |last.children| == 1 && NewRoot(last.children[0], ps, o)
       else
         && last.kind.Subvolume? && last.size == 0 && last.children == []
         && last.kind.mountpoint == "/" && !last.kind.readOnly && Fresh(last.kind.name, "root", SubvolumeNames(ps))
  }

  /** A partition of size 0 for "/". */
  predicate RootPartitionMet(t: TableType, p: Entity, ps: seq<Entity>, o: CustomOptions) {
    && p.kind.Partition? && p.kind.start == 0 && p.size == 0
    && (t == Dos ==> p.kind.ptype == "83") && (t == Gpt ==> GptRootType(o.arch, p.kind.ptype))
    && |p.children| == 1 && NewRoot(p.children[0], ps, o)
  }

  /** Where "/" goes: nowhere when it is there; into the first partition with a volume group or a
      Btrfs volume; otherwise into a partition behind all others. */
  predicate RootPlaced(t: TableType, ps: seq<Entity>, ps': seq<Entity>, o: CustomOptions) {
    || ("/" in MountSets(ps) && ps' == ps)
    || ("/" !in MountSets(ps) && RootInExisting(ps, ps', o))
    || ("/" !in MountSets(ps) && (forall i :: 0 <= i < |ps| ==> !HasVolumes(ps[i]))
        && |ps'| == |ps| + 1 && ps'[..|ps|] == ps && RootPartitionMet(t, ps'[|ps|], ps, o))
  }

  predicate HasVolumes(p: Entity) {
    p.children != [] && (p.children[0].kind.VolumeGroup? || p.children[0].kind.Btrfs?)
  }

  predicate RootInExisting(ps: seq<Entity>, ps': seq<Entity>, o: CustomOptions) {
    && |ps'| == |ps|
    && exists i | 0 <= i < |ps| ::
         && HasVolumes(ps[i]) && (forall k :: 0 <= k < i ==> !HasVolumes(ps[k]))
         && (forall k :: 0 <= k < |ps| && k != i ==> ps'[k] == ps[k])
         && |ps'[i].children| == |ps[i].children| && ps'[i] == ps[i].(children := ps'[i].children)
         && ps'[i].children[1..] == ps[i].children[1..]
         && RootInside(ps[i].children[0], ps'[i].children[0], ps, o)
  }

  lemma RootInsideMet(v: Entity, ps: seq<Entity>, o: CustomOptions)
    requires (v.kind.VolumeGroup? || v.kind.Btrfs?) && RootInVolumes(v, ps, o).Ok?
    ensures RootInside(v, RootInVolumes(v, ps, o).value, ps, o)
  {
    if v.kind.VolumeGroup? {
      AlignUpLeast(0, 0, EXTENT);
      var last := RootInVolumes(v, ps, o).value.children[|v.children|];
      assert BaseName(last.children[0]) == "rootlv";
      assert FsChosen("", o, FsName(o.defaultFs));
    }
  }

  lemma RootIsPlaced(t: TableType, ps: seq<Entity>, o: CustomOptions)
    requires t != NoType && EnsureRoot(t, ps, o).Ok?
    ensures RootPlaced(t, ps, EnsureRoot(t, ps, o).value, o)
  {
    var ps' := EnsureRoot(t, ps, o).value;
    if "/" !in MountSets(ps) {
      match FirstWithVolumes(ps, 0) {
        case Some(i) =>
          RootInsideMet(ps[i].children[0], ps, o);
          assert HasVolumes(ps[i]);
          forall k | 0 <= k < i ensures !HasVolumes(ps[k]) { assert !HoldsVolumes(ps[k]); }
          assert RootInExisting(ps, ps', o);
        case None =>
          forall k | 0 <= k < |ps| ensures !HasVolumes(ps[k]) { assert !HoldsVolumes(ps[k]); }
          PlainRootMet(t, ps, o);
      }
    }
  }

  lemma PlainRootMet(t: TableType, ps: seq<Entity>, o: CustomOptions)
    requires t != NoType && PlainRoot(t, ps, o).Ok?
    ensures RootPartitionMet(t, PlainRoot(t, ps, o).value, ps, o)
  {
    assert FsChosen("", o, FsName(o.defaultFs));
  }

  // ---------- the finished table ----------

  /** What growing and laying out leave of a partition: its type, and inside nothing but sizes changes. */
  predicate Became(p: Entity, p': Entity) {
    && p.kind.Partition? && p'.kind.Partition? && p'.kind.ptype == p.kind.ptype
    && p.size <= p'.size
    && |p'.children| == |p.children|
    && forall i :: 0 <= i < |p.children| ==> Grown(p.children[i], p'.children[i])
  }

  predicate AllBecame(ps: seq<Entity>, ps': seq<Entity>) {
    |ps'| == |ps| && forall i :: 0 <= i < |ps| ==> Became(ps[i], ps'[i])
  }

  lemma LaidBecame(e: Entity, d: Disk, size: nat, d': Disk) returns (laid: seq<Entity>)
    requires Grown(e, d.tree) && CanLayOut(d) && Relayout(d, size, d')
    ensures multiset(laid) == multiset(d'.tree.children) && AllBecame(e.children, laid)
  {
    laid := RelayoutNeverShrinks(d, size, d');
    forall i | 0 <= i < |laid| ensures Became(e.children[i], laid[i]) {
      assert Grown(e.children[i], d.tree.children[i]) && Moved(d.tree.children[i], laid[i]);
    }
  }

  /** The partitions a table starts from: what booting needs, then one for each request. */
  predicate StartsWith(t: TableType, r: DiskRequest, o: CustomOptions, policy: Policy, ps: seq<Entity>) {
    && ForBooting(t, r, o, policy).Ok?
    && var boot := ForBooting(t, r, o, policy).value;
       MetFrom(t, ps, |boot|, r.partitions, o) && ps[..|boot|] == boot
  }

  lemma AssembledContent(t: TableType, r: DiskRequest, o: CustomOptions, policy: Policy) returns (ps: seq<Entity>)
    requires t != NoType && Assembled(t, r, o, policy).Ok?
    ensures StartsWith(t, r, o, policy, ps) && RootPlaced(t, ps, Assembled(t, r, o, policy).value, o)
  {
    var first := ForBooting(t, r, o, policy).value;
    ps := WithRequested(t, first, r.partitions, o).value;
    RequestsAreMet(t, first, r.partitions, o);
    RootIsPlaced(t, ps, o);
  }

  /** Main result: up to sizes and starts, the partitions of the table are those for booting, those
      that were requested, each as it was requested, and the root where it belongs. */
  lemma CustomTableContent(r: DiskRequest, o: CustomOptions, policy: Option<Policy>, d': Disk)
    returns (ps: seq<Entity>, ps': seq<Entity>, laid: seq<Entity>)
    requires AllRootRequests(r.partitions) <= 1 && forall x :: x in o.requiredMinSizes ==> Rooted(x)
    requires MakesCustom(r, o, policy, d')
    ensures StartsWith(d'.config.tableType, r, o, UsedPolicy(policy), ps)
    ensures RootPlaced(d'.config.tableType, ps, ps', o)
    ensures AllBecame(ps', laid) && multiset(laid) == multiset(d'.tree.children)
  {
    var t := MakesFinishes(r, o, policy, d');
    var d0 := AssembledDisk(t, r, o, UsedPolicy(policy));
    CustomTableSettings(r, o, policy, d');
    ps := AssembledContent(t, r, o, UsedPolicy(policy));
    ps' := d0.tree.children;
    laid := LaidBecame(d0.tree, Disk(d0.config, EnsureDirectories(d0.tree, o.requiredMinSizes)), r.minSize, d');
  }

  // ---------- whole extents ----------

  lemma PayloadExtents(children: seq<Entity>, fstype: string, m: string, fsLabel: string)
    requires Holds(children, fstype, m, fsLabel)
    ensures forall i :: 0 <= i < |children| ==> WholeExtents(children[i])
  {
  }

  lemma VolumeExtents(v: VolumeRequest, o: CustomOptions, lv: Entity)
    requires VolumeMet(v, o, lv)
    ensures WholeExtents(lv)
  {
    var fstype: string :| fstype in {v.fstype, "vfat", "ext4", "xfs", "btrfs"} && FsChosen(v.fstype, o, fstype)
                          && Holds(lv.children, fstype, v.mountpoint, v.fsLabel);
    PayloadExtents(lv.children, fstype, v.mountpoint, v.fsLabel);
  }

  lemma GroupExtents(t: TableType, p: PartitionRequest, o: CustomOptions, e: Entity)
    requires e.kind.Partition? && GroupMet(t, p, o, e)
    ensures WholeExtents(e)
  {
    var vg := e.children[0];
    forall j | 0 <= j < |vg.children| ensures WholeExtents(vg.children[j]) { VolumeExtents(p.volumes[j], o, vg.children[j]); }
  }

  lemma BtrfsExtents(t: TableType, p: PartitionRequest, o: CustomOptions, e: Entity)
    requires e.kind.Partition? && BtrfsMet(t, p, o, e)
    ensures WholeExtents(e)
  {
    assert forall j :: 0 <= j < |p.subvolumes| ==> WholeExtents(e.children[0].children[j]);
  }

  lemma PlainExtents(t: TableType, p: PartitionRequest, o: CustomOptions, e: Entity)
    requires e.kind.Partition? && PlainMet(t, p, o, e)
    ensures WholeExtents(e)
  {
  }

  lemma RequestExtents(t: TableType, p: PartitionRequest, o: CustomOptions, e: Entity)
    requires RequestMet(t, p, o, e)
    ensures WholeExtents(e)
  {
    if p.kind == "lvm" {
      GroupExtents(t, p, o, e);
    } else if p.kind == "btrfs" {
      BtrfsExtents(t, p, o, e);
    } else {
      PlainExtents(t, p, o, e);
    }
  }

  lemma RootInsideExtents(v: Entity, v': Entity, ps: seq<Entity>, o: CustomOptions)
    requires WholeExtents(v) && (v.kind.VolumeGroup? || v.kind.Btrfs?) && RootInside(v, v', ps, o)
    ensures WholeExtents(v')
  {
    AppendedExtents(v, v');
  }

  predicate AllExtents(ps: seq<Entity>) {
    forall i :: 0 <= i < |ps| ==> WholeExtents(ps[i])
  }

  lemma StartExtents(t: TableType, r: DiskRequest, o: CustomOptions, policy: Policy, ps: seq<Entity>)
    requires t != NoType && StartsWith(t, r, o, policy, ps)
    ensures AllExtents(ps)
  {
    var boot := ForBooting(t, r, o, policy).value;
    BootingExtents(t, r, o, policy);
    forall i | 0 <= i < |ps| ensures WholeExtents(ps[i]) {
      if i < |boot| {
        assert ps[i] == ps[..|boot|][i];
      } else {
        RequestExtents(t, r.partitions[i - |boot|], o, ps[|boot| + (i - |boot|)]);
      }
    }
  }

  lemma BootModeExtents(t: TableType, r: DiskRequest, o: CustomOptions)
    requires t != NoType && BootModePartitions(t, r, o).Ok?
    ensures AllExtents(BootModePartitions(t, r, o).value)
  {
    BootModeExact(t, r, o);
    NoVolumes(t, o.espSize, "");
  }

  lemma BootingExtents(t: TableType, r: DiskRequest, o: CustomOptions, policy: Policy)
    requires t != NoType && ForBooting(t, r, o, policy).Ok?
    ensures AllExtents(ForBooting(t, r, o, policy).value)
  {
    var boot := BootModePartitions(t, r, o).value;
    BootModeExtents(t, r, o);
    if policy.ensureXBootldr && NeedsBoot(r) {
      var p := BootPartition(t, boot, o).value;
      assert WholeExtents(p.children[0]);
    }
  }

  lemma NoVolumes(t: TableType, size: nat, fs: string)
    ensures WholeExtents(Prep(t)) && WholeExtents(Bios(t)) && WholeExtents(Esp(t, size)) && WholeExtents(Boot(t, fs))
  {
    assert WholeExtents(Esp(t, size).children[0]) && WholeExtents(Boot(t, fs).children[0]);
  }

  lemma RestExtents(p: Entity, p': Entity)
    requires WholeExtents(p) && p.children != [] && |p'.children| == |p.children| && p'.children[1..] == p.children[1..]
    requires WholeExtents(p'.children[0]) && p' == p.(children := p'.children)
    ensures WholeExtents(p')
  {
    forall j | 0 <= j < |p'.children| ensures WholeExtents(p'.children[j]) {
      if 0 < j { assert p'.children[j] == p'.children[1..][j - 1] && p.children[j] == p.children[1..][j - 1]; }
    }
  }

  lemma PlacedExtents(t: TableType, ps: seq<Entity>, ps': seq<Entity>, o: CustomOptions)
    requires AllExtents(ps) && RootPlaced(t, ps, ps', o)
    ensures AllExtents(ps')
  {
    if ps' != ps {
      if |ps'| == |ps| {
        var i :| 0 <= i < |ps| && HasVolumes(ps[i]) && ps'[i] == ps[i].(children := ps'[i].children)
                 && |ps'[i].children| == |ps[i].children| && ps'[i].children[1..] == ps[i].children[1..]
                 && RootInside(ps[i].children[0], ps'[i].children[0], ps, o)
                 && forall k :: 0 <= k < |ps| && k != i ==> ps'[k] == ps[k];
        RootInsideExtents(ps[i].children[0], ps'[i].children[0], ps, o);
        assert WholeExtents(ps[i]);
        RestExtents(ps[i], ps'[i]);
      } else {
        assert WholeExtents(ps'[|ps|].children[0]);
        forall i | 0 <= i < |ps'| ensures WholeExtents(ps'[i]) {
          if i < |ps| { assert ps'[i] == ps'[..|ps|][i]; }
        }
      }
    }
  }

  /** Main result: every logical volume of a custom table has whole extents. */
  lemma CustomTableExtents(r: DiskRequest, o: CustomOptions, policy: Option<Policy>, d': Disk)
    requires AllRootRequests(r.partitions) <= 1 && forall x :: x in o.requiredMinSizes ==> Rooted(x)
    requires MakesCustom(r, o, policy, d')
    ensures WholeExtents(d'.tree)
  {
    var t := MakesFinishes(r, o, policy, d');
    var d0 := AssembledDisk(t, r, o, UsedPolicy(policy));
    CustomTableSettings(r, o, policy, d');
    var ps := AssembledContent(t, r, o, UsedPolicy(policy));
    StartExtents(t, r, o, UsedPolicy(policy), ps);
    PlacedExtents(t, ps, d0.tree.children, o);
    DirectoriesKeepExtents(d0.tree, o.requiredMinSizes);
    RelayoutKeepsExtents(Disk(d0.config, EnsureDirectories(d0.tree, o.requiredMinSizes)), r.minSize, d');
  }

  // ---------- refusals ----------

  predicate NoSystemType(t: TableType, arch: Arch) {
    t == Gpt && arch in {Riscv64, Unset}
  }

  /** A plain request is refused when no type of filesystem is known, or when it is for "/" or "/usr"
      on GPT without a type for the architecture. */
  lemma PlainRefused(t: TableType, ps: seq<Entity>, p: PartitionRequest, o: CustomOptions)
    requires t != NoType && p.kind in {"plain", ""} && (p.partType != "" ==> p.idsAccepted)
    ensures var r := RequestedPartition(t, ps, p, o);
            if p.fstype == "" && o.defaultFs == NoFs then r == Err(NoFilesystemType)
            else if p.partType == "" && p.mountpoint in {"/", "/usr"} && NoSystemType(t, o.arch) then r == Err(NoPartitionType)
            else r.Ok?
  {
  }

  /** Unknown kinds of partitions and types that were not accepted are refused, Btrfs never is. */
  lemma RequestRefused(t: TableType, ps: seq<Entity>, p: PartitionRequest, o: CustomOptions)
    requires t != NoType
    ensures (p.partType != "" && !p.idsAccepted) || p.kind !in {"plain", "", "lvm", "btrfs"} ==>
              RequestedPartition(t, ps, p, o) == Err(InvalidPartitionType)
    ensures p.kind == "btrfs" && (p.partType != "" ==> p.idsAccepted) ==> RequestedPartition(t, ps, p, o).Ok?
  {
  }

  /** A volume is refused when no type of filesystem is known, or when no name is given and none is left. */
  lemma VolumeRefused(before: Entity, v: VolumeRequest, o: CustomOptions)
    ensures var r := AddVolume(before, v, o);
            if v.fstype == "" && o.defaultFs == NoFs then r == Err(NoFilesystemType)
            else if v.name == "" && AllTaken(LvName(if v.fstype == "swap" then "swap" else v.mountpoint), LvNames(before))
            then r == Err(NameCollision)
            else r.Ok?
  {
  }

  /** When a root that has to be made is refused. */
  lemma RootRefused(t: TableType, ps: seq<Entity>, o: CustomOptions)
    requires t != NoType && "/" !in MountSets(ps)
    ensures var r, i := EnsureRoot(t, ps, o), FirstWithVolumes(ps, 0);
            if i.Some? && ps[i.value].children[0].kind.Btrfs? then
              if AllTaken("root", SubvolumeNames(ps)) then r == Err(NameCollision) else r.Ok?
            else if o.defaultFs == NoFs then r == Err(NoFilesystemType)
            else if AllTaken("root", LabelsOf(ps)) then r == Err(NameCollision)
            else if i.Some? then
              if AllTaken("rootlv", LvNames(ps[i.value].children[0])) then r == Err(NameCollision) else r.Ok?
            else if NoSystemType(t, o.arch) then r == Err(NoPartitionType) else r.Ok?
  {
    assert BaseName(NewFilesystem(FsName(o.defaultFs), "/", "")) == "rootlv";
  }
}
