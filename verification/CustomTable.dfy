/** Making a partition table from disk customizations alone. */
module CustomTable {
  import opened Basics
  import opened Entities
  import opened ResizeOrder
  import opened Mounts
  import opened Directories
  import opened DirectorySizes
  import opened Layout
  import opened LayoutFacts
  import opened LayoutSpace
  import opened Names
  import opened Volumes
  import opened Growth
  import opened Creation
  import opened Wrapping
  import opened NewTable

  // ---------- customizations and options ----------

  datatype VolumeRequest = VolumeRequest(name: string, mountpoint: string, fstype: string, fsLabel: string, minSize: nat)

  datatype SubvolumeRequest = SubvolumeRequest(name: string, mountpoint: string)

  /** `idsAccepted` stands for the checks of a given partition type, ID and label. */
  datatype PartitionRequest = PartitionRequest(
    kind: string,
    partType: string,
    idsAccepted: bool,
    name: string,
    mountpoint: string,
    fstype: string,
    fsLabel: string,
    minSize: nat,
    volumes: seq<VolumeRequest>,
    subvolumes: seq<SubvolumeRequest>)
  {
    predicate Plain() {
      kind == "plain" || kind == ""
    }
  }

  datatype DiskRequest = DiskRequest(
    tableType: string,
    minSize: nat,
    startOffset: nat,
    sectorSize: nat,
    partitions: seq<PartitionRequest>)

  datatype BootMode = NoBoot | Legacy | Uefi | Hybrid | OtherBoot

  datatype FsType = NoFs | Vfat | Ext4 | Xfs | BtrfsFs

  datatype CustomOptions = CustomOptions(
    tableType: TableType,
    bootMode: BootMode,
    defaultFs: FsType,
    requiredMinSizes: map<string, nat>,
    arch: Arch,
    espSize: nat)

  function FsName(f: FsType): string {
    match f
    case NoFs => ""
    case Vfat => "vfat"
    case Ext4 => "ext4"
    case Xfs => "xfs"
    case BtrfsFs => "btrfs"
  }

  function FsTypeOr(given: string, o: CustomOptions): Result<string, Failure> {
    if given != "" then Ok(given) else if o.defaultFs.NoFs? then Err(NoFilesystemType) else Ok(FsName(o.defaultFs))
  }

  // ---------- partition types ----------

  function TypeIdFor(t: TableType, name: string, arch: Arch): Result<string, Failure> {
    if name == "root" then
      match RootPartitionType(t, arch)
      case Some(id) => Ok(id)
      case None => Err(NoPartitionType)
    else if t.NoType? then Err(NoPartitionType)
    else if name == "bios" then Ok(if t.Dos? then "00" else "21686148-6449-6E6F-744E-656564454649")
    else if name == "boot" then Ok(if t.Dos? then "83" else XBOOTLDR_GUID)
    else if name == "data" then Ok(if t.Dos? then "83" else FILESYSTEM_DATA_GUID)
    else if name == "esp" then Ok(if t.Dos? then "ef" else "C12A7328-F81F-11D2-BA4B-00A0C93EC93B")
    else if name == "lvm" then Ok(if t.Dos? then LVM_DOS_ID else LVM_GUID)
    else if name == "ppc_prep" then Ok(if t.Dos? then "41" else "9E1A2D38-C612-4316-AA26-8B49521E5A8B")
    else if name == "swap" then Ok(if t.Dos? then "82" else "0657FD6D-A4AB-43C4-84E5-0933C84B4F4F")
    else if name == "usr" then
      if t.Dos? then Ok("83")
      else
        match arch
        case X86_64 => Ok("8484680C-9521-48C6-9C11-B0720656F69E")
        case Aarch64 => Ok("B0E01050-EE5F-4390-949A-9101B17104E9")
        case Ppc64le => Ok("15BB03AF-77E7-4D4A-B12B-C0D084F7491C")
        case S390x => Ok("8A4F5770-50AA-4ED3-874A-99B710DB6FEA")
        case _ => Err(NoPartitionType)
    else Err(NoPartitionType)
  }

  /** A partition without content, or with one payload. */
  function NewPartition(t: TableType, typeName: string, given: string, arch: Arch, size: nat, payload: seq<Entity>)
    : Result<Entity, Failure>
  {
    match if given != "" then Ok(given) else TypeIdFor(t, typeName, arch)
    case Err(f) => Err(f)
    case Ok(id) => Ok(Entity(Partition(0, id), size, payload))
  }

  // ---------- boot partitions ----------

  predicate HasEsp(r: DiskRequest) {
    exists i :: 0 <= i < |r.partitions| && r.partitions[i].Plain() && r.partitions[i].mountpoint == "/boot/efi"
  }

  function MakeEsp(t: TableType, o: CustomOptions): Result<Entity, Failure> {
    NewPartition(t, "esp", "", Unset, if o.espSize == 0 then 200 * MIB else o.espSize,
                 [NewFilesystem("vfat", "/boot/efi", "ESP")])
  }

  /** The partitions for the boot mode. */
  function BootModePartitions(t: TableType, r: DiskRequest, o: CustomOptions): Result<seq<Entity>, Failure> {
    if o.bootMode.NoBoot? then Ok([])
    else
      match o.arch
      case Ppc64le => Single(NewPartition(t, "ppc_prep", "", Unset, 4 * MIB, []))
      case S390x => Ok([])
      case Aarch64 => if HasEsp(r) then Ok([]) else Single(MakeEsp(t, o))
      case Riscv64 => if HasEsp(r) then Ok([]) else Single(MakeEsp(t, o))
      case X86_64 =>
        var bios := Single(NewPartition(t, "bios", "", Unset, MIB, []));
        (match o.bootMode
         case Legacy => bios
         case Uefi => if HasEsp(r) then Ok([]) else Single(MakeEsp(t, o))
         case Hybrid =>
           if bios.Err? || HasEsp(r) then bios
           else
             (match MakeEsp(t, o)
              case Err(f) => Err(f)
              case Ok(esp) => Ok(bios.value + [esp]))
         case _ => Err(InvalidPlatform))
      case Unset => Err(InvalidPlatform)
  }

  function Single(p: Result<Entity, Failure>): Result<seq<Entity>, Failure> {
    match p
    case Err(f) => Err(f)
    case Ok(e) => Ok([e])
  }

  // ---------- is a boot partition needed ----------

  predicate PlainAt(r: DiskRequest, m: string) {
    exists i :: 0 <= i < |r.partitions| && r.partitions[i].Plain() && r.partitions[i].mountpoint == m
  }

  predicate MountsSubvolume(p: PartitionRequest, m: string) {
    exists j :: 0 <= j < |p.subvolumes| && p.subvolumes[j].mountpoint == m
  }

  predicate BtrfsWithBoot(p: PartitionRequest) {
    p.kind == "btrfs" && MountsSubvolume(p, "/") && MountsSubvolume(p, "/boot")
  }

  predicate NeedsBoot(r: DiskRequest) {
    && !PlainAt(r, "/") && !PlainAt(r, "/boot")
    && !(exists i :: 0 <= i < |r.partitions| && BtrfsWithBoot(r.partitions[i]))
    && exists i :: 0 <= i < |r.partitions| && (r.partitions[i].kind == "lvm" || r.partitions[i].kind == "btrfs")
  }

  /** The loop over all partitions with its flags.  Whether "/" itself was seen on LVM or Btrfs
      makes no difference to the answer. */
  method ComputeNeedsBoot(r: DiskRequest) returns (needed: bool)
    ensures needed == NeedsBoot(r)
  {
    var foundVolumes, plainRoot, plainBoot, volumeRoot, rootWithBoot := false, false, false, false, false;
    for i := 0 to |r.partitions|
      invariant foundVolumes <==> exists k :: 0 <= k < i && (r.partitions[k].kind == "lvm" || r.partitions[k].kind == "btrfs")
      invariant plainRoot <==> exists k :: 0 <= k < i && r.partitions[k].Plain() && r.partitions[k].mountpoint == "/"
      invariant plainBoot <==> exists k :: 0 <= k < i && r.partitions[k].Plain() && r.partitions[k].mountpoint == "/boot"
      invariant rootWithBoot <==> exists k :: 0 <= k < i && BtrfsWithBoot(r.partitions[k])
      invariant volumeRoot ==> foundVolumes
    {
      var p := r.partitions[i];
      if p.Plain() {
        if p.mountpoint == "/" { plainRoot := true; }
        else if p.mountpoint == "/boot" { plainBoot := true; }
      } else if p.kind == "lvm" {
        foundVolumes := true;
        for j := 0 to |p.volumes|
          invariant volumeRoot ==> foundVolumes
        {
          if p.volumes[j].mountpoint == "/" { volumeRoot := true; }
        }
      } else if p.kind == "btrfs" {
        foundVolumes := true;
        var hasRoot, hasBoot := false, false;
        for j := 0 to |p.subvolumes|
          invariant hasRoot <==> exists k :: 0 <= k < j && p.subvolumes[k].mountpoint == "/"
          invariant hasBoot <==> exists k :: 0 <= k < j && p.subvolumes[k].mountpoint == "/boot"
        {
          if p.subvolumes[j].mountpoint == "/" { hasRoot := true; }
          if p.subvolumes[j].mountpoint == "/boot" { hasBoot := true; }
        }
        if hasRoot && hasBoot { rootWithBoot := true; } else if hasRoot { volumeRoot := true; }
      }
    }
    if plainRoot || plainBoot || rootWithBoot { return false; }
    if volumeRoot { return true; }
    return foundVolumes;
  }

  /** The mountpoint is requested on LVM or Btrfs. */
  predicate OnVolume(p: PartitionRequest, m: string) {
    || (p.kind == "lvm" && exists j :: 0 <= j < |p.volumes| && p.volumes[j].mountpoint == m)
    || (p.kind == "btrfs" && MountsSubvolume(p, m))
  }

  predicate OnVolumes(r: DiskRequest, m: string) {
    exists i :: 0 <= i < |r.partitions| && OnVolume(r.partitions[i], m)
  }

  predicate HasVolumes(r: DiskRequest) {
    exists i :: 0 <= i < |r.partitions| && (r.partitions[i].kind == "lvm" || r.partitions[i].kind == "btrfs")
  }

  /** The documented condition: "/" is on LVM or Btrfs and "/boot" is not defined, or "/" is not
      defined and there are LVM or Btrfs volumes. */
  predicate DocumentedNeedsBoot(r: DiskRequest) {
    || (OnVolumes(r, "/") && !PlainAt(r, "/boot") && !OnVolumes(r, "/boot"))
    || (!PlainAt(r, "/") && !OnVolumes(r, "/") && HasVolumes(r))
  }

  /** "/" and "/boot" are both on volumes, but not together on one Btrfs volume. */
  predicate BootOnOtherVolume(r: DiskRequest) {
    && OnVolumes(r, "/") && OnVolumes(r, "/boot") && !PlainAt(r, "/boot")
    && !exists i :: 0 <= i < |r.partitions| && BtrfsWithBoot(r.partitions[i])
  }

  /** The code follows its documentation except in two cases: "/boot" on a volume apart from "/"
      does not count as defined, and a plain "/boot" also counts when "/" is not defined. */
  lemma NeedsBootAsDocumentedIff(r: DiskRequest)
    requires !(PlainAt(r, "/") && OnVolumes(r, "/"))
    ensures (NeedsBoot(r) <==> DocumentedNeedsBoot(r)) <==>
            && !BootOnOtherVolume(r)
            && !(PlainAt(r, "/boot") && HasVolumes(r) && !PlainAt(r, "/") && !OnVolumes(r, "/"))
  {
    if OnVolumes(r, "/") {
      var i :| 0 <= i < |r.partitions| && OnVolume(r.partitions[i], "/");
      assert HasVolumes(r);
    }
    if i :| 0 <= i < |r.partitions| && BtrfsWithBoot(r.partitions[i]) {
      assert OnVolume(r.partitions[i], "/") && OnVolume(r.partitions[i], "/boot");
    }
  }

  // ---------- labels ----------

  /** The labels of everything mountable; a subvolume's label is its name. */
  function Labels(e: Entity): set<string>
    decreases e, 1
  {
    if e.kind.Filesystem? then {e.kind.fsLabel} else if e.kind.Subvolume? then {e.kind.name} else LabelsOf(e.children)
  }

  function LabelsOf(cs: seq<Entity>): set<string>
    decreases cs
  {
    if cs == [] then {} else Labels(cs[0]) + LabelsOf(cs[1..])
  }

  function SubvolumeNames(cs: seq<Entity>): set<string>
    decreases cs
  {
    if cs == [] then {}
    else (if cs[0].kind.Subvolume? then {cs[0].kind.name} else SubvolumeNames(cs[0].children)) + SubvolumeNames(cs[1..])
  }

  /** The "/boot" partition, with a label that is new. */
  function BootPartition(t: TableType, ps: seq<Entity>, o: CustomOptions): Result<Entity, Failure> {
    var fs := if o.defaultFs.Ext4? then "ext4" else "xfs";
    match GenUniqueString("boot", LabelsOf(ps))
    case None => Err(NameCollision)
    case Some(bootLabel) => NewPartition(t, "boot", "", Unset, GIB, [NewFilesystem(fs, "/boot", bootLabel)])
  }

  // ---------- requested partitions ----------

  function PlainTypeName(m: string, fstype: string): string {
    if m == "/" then "root"
    else if m == "/usr" then "usr"
    else if m == "/boot" then "boot"
    else if m == "/boot/efi" then "esp"
    else if fstype == "swap" then "swap"
    else "data"
  }

  function PlainPartition(t: TableType, p: PartitionRequest, o: CustomOptions): Result<Entity, Failure> {
    match FsTypeOr(p.fstype, o)
    case Err(f) => Err(f)
    case Ok(fstype) =>
      var payload :=
        if fstype == "none" then []
        else if fstype == "swap" then [Entity(Swap, 0, [])]
        else [NewFilesystem(fstype, p.mountpoint, p.fsLabel)];
      NewPartition(t, PlainTypeName(p.mountpoint, fstype), p.partType, o.arch, p.minSize, payload)
  }

  function VolumePayload(v: VolumeRequest, fstype: string): Entity {
    if fstype == "swap" then Entity(Swap, 0, []) else NewFilesystem(fstype, v.mountpoint, v.fsLabel)
  }

  function AddVolume(before: Entity, v: VolumeRequest, o: CustomOptions): Result<Entity, Failure> {
    match FsTypeOr(v.fstype, o)
    case Err(f) => Err(f)
    case Ok(fstype) => CreateLogicalVolume(before, v.name, v.minSize, VolumePayload(v, fstype))
  }

  /** The volume group with the requested volumes appended in order. */
  function WithVolumes(vg: Entity, vs: seq<VolumeRequest>, o: CustomOptions): Result<Entity, Failure> {
    if vs == [] then Ok(vg)
    else
      match WithVolumes(vg, vs[..|vs| - 1], o)
      case Err(f) => Err(f)
      case Ok(before) => AddVolume(before, vs[|vs| - 1], o)
  }

  function GroupNames(ps: seq<Entity>): set<string> {
    set i | 0 <= i < |ps| && ps[i].children != [] && ps[i].children[0].kind.VolumeGroup? :: ps[i].children[0].kind.name
  }

  /** An unnamed group is called vg00, vg01 and so on. */
  function GroupName(ps: seq<Entity>, p: PartitionRequest): Option<string> {
    if p.name != "" then Some(p.name) else GenUniqueString("vg", GroupNames(ps) + {"vg"})
  }

  function EmptyGroup(name: string): Entity {
    Entity(VolumeGroup(name), 0, [])
  }

  function LvmPartition(t: TableType, ps: seq<Entity>, p: PartitionRequest, o: CustomOptions): Result<Entity, Failure> {
    match GroupName(ps, p)
    case None => Err(NameCollision)
    case Some(name) =>
      match WithVolumes(EmptyGroup(name), p.volumes, o)
      case Err(f) => Err(f)
      case Ok(vg) => NewPartition(t, "lvm", p.partType, o.arch, p.minSize, [vg])
  }

  function BtrfsPartition(t: TableType, p: PartitionRequest): Result<Entity, Failure> {
    var subvolumes := seq(|p.subvolumes|, i requires 0 <= i < |p.subvolumes| =>
      Entity(Subvolume(p.subvolumes[i].name, p.subvolumes[i].mountpoint, false), 0, []));
    NewPartition(t, "data", p.partType, Unset, p.minSize, [Entity(Btrfs, 0, subvolumes)])
  }

  function RequestedPartition(t: TableType, ps: seq<Entity>, p: PartitionRequest, o: CustomOptions): Result<Entity, Failure> {
    if p.partType != "" && !p.idsAccepted then Err(InvalidPartitionType)
    else if p.Plain() then PlainPartition(t, p, o)
    else if p.kind == "lvm" then LvmPartition(t, ps, p, o)
    else if p.kind == "btrfs" then BtrfsPartition(t, p)
    else Err(InvalidPartitionType)
  }

  /** `ps` with the requested partitions appended in order. */
  function WithRequested(t: TableType, ps: seq<Entity>, rs: seq<PartitionRequest>, o: CustomOptions): Result<seq<Entity>, Failure> {
    if rs == [] then Ok(ps)
    else
      match WithRequested(t, ps, rs[..|rs| - 1], o)
      case Err(f) => Err(f)
      case Ok(before) =>
        match RequestedPartition(t, before, rs[|rs| - 1], o)
        case Err(f) => Err(f)
        case Ok(p) => Ok(before + [p])
  }

  // ---------- how often "/" is mounted ----------

  function VolumeRoots(vs: seq<VolumeRequest>): nat {
    if vs == [] then 0 else VolumeRoots(vs[..|vs| - 1]) + (if vs[|vs| - 1].mountpoint == "/" then 1 else 0)
  }

  function SubvolumeRoots(ss: seq<SubvolumeRequest>): nat {
    if ss == [] then 0 else SubvolumeRoots(ss[..|ss| - 1]) + (if ss[|ss| - 1].mountpoint == "/" then 1 else 0)
  }

  function RootRequests(p: PartitionRequest): nat {
    if p.Plain() then if p.mountpoint == "/" then 1 else 0
    else if p.kind == "lvm" then VolumeRoots(p.volumes)
    else SubvolumeRoots(p.subvolumes)
  }

  function AllRootRequests(rs: seq<PartitionRequest>): nat {
    if rs == [] then 0 else AllRootRequests(rs[..|rs| - 1]) + RootRequests(rs[|rs| - 1])
  }

  /** A new partition: typed, its inside fits, and it mounts "/" at most `n` times. */
  predicate Sound(p: Entity, n: nat) {
    && p.kind.Partition? && WellTyped(p) && MountSet(p)["/"] <= n
    && forall i :: 0 <= i < |p.children| ==> Fits(p.children[i])
  }

  lemma SoundHolder(k: Kind, size: nat, payload: seq<Entity>, n: nat)
    requires k.Partition? && |payload| <= 1
    requires payload != [] ==> payload[0].kind.Payload() && WellTyped(payload[0]) && Fits(payload[0]) && MountSet(payload[0])["/"] <= n
    ensures Sound(Entity(k, size, payload), n)
  {
    if payload != [] { OnlyChildMounts(Entity(k, size, payload)); }
  }

  lemma LeafSound(fstype: string, m: string, fsLabel: string)
    ensures var f := NewFilesystem(fstype, m, fsLabel);
            f.kind.Payload() && WellTyped(f) && Fits(f) && MountSet(f)["/"] == if m == "/" then 1 else 0
  {
    LeafFits(fstype, m, fsLabel);
  }

  lemma PlainSound(t: TableType, p: PartitionRequest, o: CustomOptions)
    requires p.Plain() && PlainPartition(t, p, o).Ok?
    ensures Sound(PlainPartition(t, p, o).value, RootRequests(p))
  {
    var e := PlainPartition(t, p, o).value;
    LeafSound(FsTypeOr(p.fstype, o).value, p.mountpoint, p.fsLabel);
    assert Content(Entity(Swap, 0, [])) == SumNeeds([]);
    SoundHolder(e.kind, e.size, e.children, RootRequests(p));
  }

  /** A volume group or Btrfs volume with one more sound child. */
  lemma GroupGrows(v: Entity, last: Entity)
    requires (v.kind.VolumeGroup? || v.kind.Btrfs?) && WellTyped(v) && Fits(v)
    requires v.kind.Admits(last.kind) && WellTyped(last) && Fits(last)
    ensures var v' := v.(children := v.children + [last]);
            WellTyped(v') && Fits(v') && MountSet(v') == MountSet(v) + MountSet(last)
  {
    var n, v' := |v.children|, v.(children := v.children + [last]);
    forall i | 0 <= i < n + 1
      ensures v.kind.Admits(v'.children[i].kind) && WellTyped(v'.children[i]) && Fits(v'.children[i])
    {
      if i < n { assert v'.children[i] == v.children[i]; } else { assert v'.children[i] == last; }
    }
    MountSetsConcat(v.children, [last]);
    assert MountSets([last]) == MountSet(last) + MountSets([]);
  }

  lemma VolumeSound(name: string, size: nat, payload: Entity)
    requires payload.kind.Payload() && WellTyped(payload) && Fits(payload) && Need(payload) == 0
    ensures var lv := Entity(LogicalVolume(name), size, [payload]);
            WellTyped(lv) && Fits(lv) && MountSet(lv) == MountSet(payload)
  {
    var lv := Entity(LogicalVolume(name), size, [payload]);
    OnlyChildMounts(lv);
    assert SumNeeds(lv.children) == Need(payload) + SumNeeds([]);
  }

  /** The volume group after one volume was created in it. */
  lemma VolumeAdded(before: Entity, name: string, size: nat, payload: Entity)
    requires before.kind.VolumeGroup? && WellTyped(before) && Fits(before)
    requires payload.kind.Payload() && WellTyped(payload) && Fits(payload) && Need(payload) == 0
    requires CreateLogicalVolume(before, name, size, payload).Ok?
    ensures var r := CreateLogicalVolume(before, name, size, payload).value;
            r.kind == before.kind && WellTyped(r) && Fits(r) && MountSet(r) == MountSet(before) + MountSet(payload)
  {
    var lv := CreateLogicalVolume(before, name, size, payload).value.children[|before.children|];
    VolumeSound(lv.kind.name, lv.size, payload);
    GroupGrows(before, lv);
  }

  lemma VolumePayloadSound(v: VolumeRequest, fstype: string)
    ensures var e := VolumePayload(v, fstype);
            && e.kind.Payload() && WellTyped(e) && Fits(e) && Need(e) == 0
            && MountSet(e)["/"] <= (if v.mountpoint == "/" then 1 else 0)
  {
    if fstype == "swap" {
      assert Content(VolumePayload(v, fstype)) == SumNeeds([]);
      assert MountSet(VolumePayload(v, fstype)) == MountSets([]);
    } else {
      LeafFits(fstype, v.mountpoint, v.fsLabel);
    }
  }

  lemma AddVolumeSound(before: Entity, v: VolumeRequest, o: CustomOptions)
    requires before.kind.VolumeGroup? && WellTyped(before) && Fits(before) && AddVolume(before, v, o).Ok?
    ensures var r := AddVolume(before, v, o).value;
            && r.kind == before.kind && WellTyped(r) && Fits(r)
            && MountSet(r)["/"] <= MountSet(before)["/"] + (if v.mountpoint == "/" then 1 else 0)
  {
    var fstype := FsTypeOr(v.fstype, o).value;
    VolumePayloadSound(v, fstype);
    VolumeAdded(before, v.name, v.minSize, VolumePayload(v, fstype));
  }

  lemma {:induction false} VolumesSound(vg: Entity, vs: seq<VolumeRequest>, o: CustomOptions)
    requires vg.kind.VolumeGroup? && vg.children == [] && WithVolumes(vg, vs, o).Ok?
    ensures var r := WithVolumes(vg, vs, o).value;
            r.kind == vg.kind && WellTyped(r) && Fits(r) && MountSet(r)["/"] <= VolumeRoots(vs)
    decreases |vs|
  {
    if vs != [] {
      VolumesSound(vg, vs[..|vs| - 1], o);
      AddVolumeSound(WithVolumes(vg, vs[..|vs| - 1], o).value, vs[|vs| - 1], o);
    }
  }

  lemma {:induction false} SubvolumesSound(ss: seq<SubvolumeRequest>, cs: seq<Entity>)
    requires |cs| == |ss|
    requires forall i :: 0 <= i < |ss| ==> cs[i] == Entity(Subvolume(ss[i].name, ss[i].mountpoint, false), 0, [])
    ensures MountSets(cs)["/"] == SubvolumeRoots(ss)
    ensures forall i :: 0 <= i < |cs| ==> WellTyped(cs[i]) && Fits(cs[i])
    decreases |ss|
  {
    if ss != [] {
      var n := |ss| - 1;
      SubvolumesSound(ss[..n], cs[..n]);
      assert cs == cs[..n] + [cs[n]];
      MountSetsConcat(cs[..n], [cs[n]]);
      assert MountSets([cs[n]]) == MountSet(cs[n]) + MountSets([]);
      assert Content(cs[n]) == SumNeeds([]);
      assert forall i :: 0 <= i < n ==> cs[i] == cs[..n][i];
    }
  }

  lemma LvmSound(t: TableType, ps: seq<Entity>, p: PartitionRequest, o: CustomOptions)
    requires LvmPartition(t, ps, p, o).Ok?
    ensures Sound(LvmPartition(t, ps, p, o).value, VolumeRoots(p.volumes))
  {
    var e := LvmPartition(t, ps, p, o).value;
    VolumesSound(EmptyGroup(GroupName(ps, p).value), p.volumes, o);
    SoundHolder(e.kind, e.size, e.children, VolumeRoots(p.volumes));
  }

  lemma BtrfsSound(t: TableType, p: PartitionRequest)
    requires BtrfsPartition(t, p).Ok?
    ensures Sound(BtrfsPartition(t, p).value, SubvolumeRoots(p.subvolumes))
  {
    var e := BtrfsPartition(t, p).value;
    SubvolumesSound(p.subvolumes, e.children[0].children);
    SoundHolder(e.kind, e.size, e.children, SubvolumeRoots(p.subvolumes));
  }

  lemma RequestedSound(t: TableType, ps: seq<Entity>, p: PartitionRequest, o: CustomOptions)
    requires RequestedPartition(t, ps, p, o).Ok?
    ensures Sound(RequestedPartition(t, ps, p, o).value, RootRequests(p))
  {
    if p.Plain() {
      PlainSound(t, p, o);
    } else if p.kind == "lvm" {
      LvmSound(t, ps, p, o);
    } else {
      BtrfsSound(t, p);
    }
  }

  /** All partitions of a table are sound and together mount "/" at most `n` times. */
  predicate AllSound(ps: seq<Entity>, n: nat) {
    && MountSets(ps)["/"] <= n
    && forall i :: 0 <= i < |ps| ==> Sound(ps[i], n)
  }

  lemma SoundSnoc(ps: seq<Entity>, n: nat, p: Entity, k: nat)
    requires AllSound(ps, n) && Sound(p, k)
    ensures AllSound(ps + [p], n + k)
  {
    MountSetsConcat(ps, [p]);
    assert MountSets([p]) == MountSet(p) + MountSets([]);
  }

  lemma {:induction false} AllRequestedSound(t: TableType, ps: seq<Entity>, rs: seq<PartitionRequest>, o: CustomOptions)
    requires AllSound(ps, 0) && WithRequested(t, ps, rs, o).Ok?
    ensures AllSound(WithRequested(t, ps, rs, o).value, AllRootRequests(rs))
    decreases |rs|
  {
    if rs != [] {
      var n := |rs| - 1;
      AllRequestedSound(t, ps, rs[..n], o);
      var before := WithRequested(t, ps, rs[..n], o).value;
      RequestedSound(t, before, rs[n], o);
      SoundSnoc(before, AllRootRequests(rs[..n]), RequestedPartition(t, before, rs[n], o).value, RootRequests(rs[n]));
    }
  }

  lemma NoneSound()
    ensures AllSound([], 0)
  {
  }

  lemma SingleSound(p: Entity)
    requires Sound(p, 0)
    ensures AllSound([p], 0)
  {
    NoneSound();
    SoundSnoc([], 0, p, 0);
    assert [] + [p] == [p];
  }

  lemma NewPartitionSound(t: TableType, typeName: string, size: nat, payload: seq<Entity>)
    requires |payload| <= 1 && NewPartition(t, typeName, "", Unset, size, payload).Ok?
    requires payload != [] ==> payload[0].kind.Filesystem? && WellTyped(payload[0]) && Fits(payload[0]) && payload[0].kind.mountpoint != "/"
    ensures Sound(NewPartition(t, typeName, "", Unset, size, payload).value, 0)
  {
    var p := NewPartition(t, typeName, "", Unset, size, payload).value;
    SoundHolder(p.kind, p.size, p.children, 0);
  }

  lemma EspSound(t: TableType, o: CustomOptions)
    requires MakeEsp(t, o).Ok?
    ensures Sound(MakeEsp(t, o).value, 0)
  {
    LeafSound("vfat", "/boot/efi", "ESP");
    NewPartitionSound(t, "esp", if o.espSize == 0 then 200 * MIB else o.espSize, [NewFilesystem("vfat", "/boot/efi", "ESP")]);
  }

  lemma BiosSound(t: TableType, name: string, size: nat)
    requires NewPartition(t, name, "", Unset, size, []).Ok?
    ensures AllSound(Single(NewPartition(t, name, "", Unset, size, [])).value, 0)
    ensures Sound(NewPartition(t, name, "", Unset, size, []).value, 0)
  {
    NewPartitionSound(t, name, size, []);
    SingleSound(NewPartition(t, name, "", Unset, size, []).value);
  }

  lemma UefiSound(t: TableType, r: DiskRequest, o: CustomOptions)
    requires MakeEsp(t, o).Ok?
    ensures AllSound(Single(MakeEsp(t, o)).value, 0)
  {
    EspSound(t, o);
    SingleSound(MakeEsp(t, o).value);
  }

  lemma HybridSound(t: TableType, o: CustomOptions)
    requires NewPartition(t, "bios", "", Unset, MIB, []).Ok? && MakeEsp(t, o).Ok?
    ensures AllSound(Single(NewPartition(t, "bios", "", Unset, MIB, [])).value + [MakeEsp(t, o).value], 0)
  {
    BiosSound(t, "bios", MIB);
    EspSound(t, o);
    SoundSnoc(Single(NewPartition(t, "bios", "", Unset, MIB, [])).value, 0, MakeEsp(t, o).value, 0);
  }

  lemma BootSound(t: TableType, r: DiskRequest, o: CustomOptions)
    requires BootModePartitions(t, r, o).Ok?
    ensures AllSound(BootModePartitions(t, r, o).value, 0)
  {
    NoneSound();
    if MakeEsp(t, o).Ok? { UefiSound(t, r, o); }
    match o.arch {
      case Ppc64le => if !o.bootMode.NoBoot? { BiosSound(t, "ppc_prep", 4 * MIB); }
      case X86_64 =>
        if o.bootMode.Legacy? || o.bootMode.Hybrid? { BiosSound(t, "bios", MIB); }
        if o.bootMode.Hybrid? && !HasEsp(r) { HybridSound(t, o); }
      case _ =>
    }
  }

  // ---------- the root filesystem ----------

  predicate HoldsVolumes(p: Entity) {
    HoldsGroup(p) || HoldsBtrfs(p)
  }

  predicate HoldsBtrfs(p: Entity) {
    p.children != [] && p.children[0].kind.Btrfs?
  }

  function FirstWithVolumes(ps: seq<Entity>, i: nat): (r: Option<nat>)
    requires i <= |ps|
    ensures r.Some? ==> i <= r.value < |ps| && HoldsVolumes(ps[r.value])
    ensures forall k :: i <= k < (if r.Some? then r.value else |ps|) ==> !HoldsVolumes(ps[k])
    decreases |ps| - i
  {
    if i == |ps| then None else if HoldsVolumes(ps[i]) then Some(i) else FirstWithVolumes(ps, i + 1)
  }

  function FirstGroup(ps: seq<Entity>, i: nat): (r: Option<nat>)
    requires i <= |ps|
    ensures r.Some? ==> i <= r.value < |ps| && HoldsGroup(ps[r.value])
    ensures forall k :: i <= k < (if r.Some? then r.value else |ps|) ==> !HoldsGroup(ps[k])
    decreases |ps| - i
  {
    if i == |ps| then None else if HoldsGroup(ps[i]) then Some(i) else FirstGroup(ps, i + 1)
  }

  /** The documented place of the root: the first volume group if there is one, otherwise the
      first Btrfs volume. */
  function DocumentedPlace(ps: seq<Entity>): Option<nat> {
    if FirstGroup(ps, 0).Some? then FirstGroup(ps, 0) else FirstWithVolumes(ps, 0)
  }

  /** Partition `i` holds a Btrfs volume, and the first volume group comes later, in `j`. */
  predicate BtrfsBefore(ps: seq<Entity>, i: nat, j: nat) {
    && i < j < |ps| && HoldsBtrfs(ps[i]) && HoldsGroup(ps[j])
    && forall k :: 0 <= k < j ==> !HoldsGroup(ps[k])
  }

  /** The code takes the documented place exactly when no Btrfs volume comes before the first
      volume group. */
  lemma RootPlaceAsDocumentedIff(ps: seq<Entity>)
    ensures FirstWithVolumes(ps, 0) == DocumentedPlace(ps) <==> !exists i: nat, j: nat :: BtrfsBefore(ps, i, j)
  {
    var first, group := FirstWithVolumes(ps, 0), FirstGroup(ps, 0);
    if first != DocumentedPlace(ps) {
      OtherPlace(ps);
      assert BtrfsBefore(ps, first.value, group.value);
    }
    if i: nat, j: nat :| BtrfsBefore(ps, i, j) { GroupAfter(ps, i, j); }
  }

  lemma OtherPlace(ps: seq<Entity>)
    requires FirstWithVolumes(ps, 0) != DocumentedPlace(ps)
    ensures FirstWithVolumes(ps, 0).Some? && FirstGroup(ps, 0).Some?
    ensures BtrfsBefore(ps, FirstWithVolumes(ps, 0).value, FirstGroup(ps, 0).value)
  {
    var group := FirstGroup(ps, 0).value;
    assert HoldsVolumes(ps[group]);
  }

  lemma GroupAfter(ps: seq<Entity>, i: nat, j: nat)
    requires BtrfsBefore(ps, i, j)
    ensures FirstGroup(ps, 0) == Some(j)
    ensures FirstWithVolumes(ps, 0).Some? && FirstWithVolumes(ps, 0).value <= i
  {
    assert HoldsVolumes(ps[i]);
  }

  /** The first volume group or Btrfs volume with one more child for "/". */
  function RootInVolumes(v: Entity, ps: seq<Entity>, o: CustomOptions): Result<Entity, Failure> {
    if v.kind.VolumeGroup? then
      if o.defaultFs.NoFs? then Err(NoFilesystemType)
      else
        match GenUniqueString("root", LabelsOf(ps))
        case None => Err(NameCollision)
        case Some(rootLabel) => CreateLogicalVolume(v, "", 0, NewFilesystem(FsName(o.defaultFs), "/", rootLabel))
    else
      match GenUniqueString("root", SubvolumeNames(ps))
      case None => Err(NameCollision)
      case Some(name) => Ok(v.(children := v.children + [Entity(Subvolume(name, "/", false), 0, [])]))
  }

  function PlainRoot(t: TableType, ps: seq<Entity>, o: CustomOptions): Result<Entity, Failure> {
    if o.defaultFs.NoFs? then Err(NoFilesystemType)
    else
      match GenUniqueString("root", LabelsOf(ps))
      case None => Err(NameCollision)
      case Some(rootLabel) =>
        NewPartition(t, "root", "", o.arch, 0, [NewFilesystem(FsName(o.defaultFs), "/", rootLabel)])
  }

  function EnsureRoot(t: TableType, ps: seq<Entity>, o: CustomOptions): Result<seq<Entity>, Failure> {
    if "/" in MountSets(ps) then Ok(ps)
    else
      match FirstWithVolumes(ps, 0)
      case Some(i) =>
        (match RootInVolumes(ps[i].children[0], ps, o)
         case Err(f) => Err(f)
         case Ok(v) => Ok(ps[i := ps[i].(children := ps[i].children[0 := v])]))
      case None =>
        (match PlainRoot(t, ps, o)
         case Err(f) => Err(f)
         case Ok(p) => Ok(ps + [p]))
  }

  lemma RootChildSound(v: Entity, ps: seq<Entity>, o: CustomOptions)
    requires (v.kind.VolumeGroup? || v.kind.Btrfs?) && WellTyped(v) && Fits(v) && RootInVolumes(v, ps, o).Ok?
    ensures var v' := RootInVolumes(v, ps, o).value;
            v'.kind == v.kind && WellTyped(v') && Fits(v') && MountSet(v') == MountSet(v) + multiset{"/"}
  {
    var v' := RootInVolumes(v, ps, o).value;
    var last := v'.children[|v.children|];
    if v.kind.VolumeGroup? {
      var fs := last.children[0];
      LeafFits(fs.kind.fstype, "/", fs.kind.fsLabel);
      VolumeSound(last.kind.name, last.size, fs);
    } else {
      assert Content(last) == SumNeeds([]);
    }
    GroupGrows(v, last);
  }

  /** `p` with "/" added to its payload. */
  predicate RootAdded(p: Entity, p': Entity) {
    Sound(p', 1) && MountSet(p') == MountSet(p) + multiset{"/"}
  }

  lemma RootInVolumesOnce(p: Entity, v': Entity)
    requires Sound(p, 1) && |p.children| == 1 && "/" !in MountSet(p)
    requires v'.kind.Payload() && WellTyped(v') && Fits(v') && MountSet(v') == MountSet(p.children[0]) + multiset{"/"}
    ensures RootAdded(p, p.(children := p.children[0 := v']))
  {
    var p' := p.(children := p.children[0 := v']);
    OnlyChildMounts(p);
    OnlyChildMounts(p');
    SoundHolder(p'.kind, p'.size, p'.children, 1);
  }

  lemma RootReplacedOnce(ps: seq<Entity>, i: nat, p': Entity)
    requires AllSound(ps, 1) && i < |ps| && RootAdded(ps[i], p') && "/" !in MountSets(ps)
    ensures MountSets(ps[i := p']) == MountSets(ps) + multiset{"/"} && AllSound(ps[i := p'], 1)
  {
    MountSetsUpdate(ps, i, p');
    CancelPart(MountSets(ps[i := p']), MountSet(ps[i]), MountSets(ps), multiset{"/"});
  }

  lemma PlainRootOnce(t: TableType, ps: seq<Entity>, o: CustomOptions)
    requires AllSound(ps, 1) && "/" !in MountSets(ps) && PlainRoot(t, ps, o).Ok?
    ensures var ps' := ps + [PlainRoot(t, ps, o).value];
            MountSets(ps') == MountSets(ps) + multiset{"/"} && AllSound(ps', 1)
  {
    var p := PlainRoot(t, ps, o).value;
    var fs := p.children[0];
    LeafFits(fs.kind.fstype, "/", fs.kind.fsLabel);
    SoundHolder(p.kind, p.size, p.children, 1);
    OnlyChildMounts(p);
    MountSetsConcat(ps, [p]);
    assert MountSets([p]) == MountSet(p) + MountSets([]);
  }

  /** After a success "/" is mounted exactly once, and it is all that was added. */
  lemma EnsureRootOnce(t: TableType, ps: seq<Entity>, o: CustomOptions)
    requires AllSound(ps, 1) && EnsureRoot(t, ps, o).Ok?
    ensures var ps' := EnsureRoot(t, ps, o).value;
            MountSets(ps')["/"] == 1 && AllSound(ps', 1)
    ensures "/" in MountSets(ps) ==> EnsureRoot(t, ps, o).value == ps
    ensures "/" !in MountSets(ps) ==> MountSets(EnsureRoot(t, ps, o).value) == MountSets(ps) + multiset{"/"}
  {
    if "/" !in MountSets(ps) {
      match FirstWithVolumes(ps, 0) {
        case Some(i) =>
          assert Sound(ps[i], 1);
          ChildTyped(ps[i], 0);
          RootChildSound(ps[i].children[0], ps, o);
          MountSetsMember(ps, i, "/");
          var v' := RootInVolumes(ps[i].children[0], ps, o).value;
          RootInVolumesOnce(ps[i], v');
          RootReplacedOnce(ps, i, ps[i].(children := ps[i].children[0 := v']));
        case None => PlainRootOnce(t, ps, o);
      }
    }
  }

  // ---------- the table ----------

  function TableTypeOf(r: DiskRequest, o: CustomOptions): Result<TableType, Failure> {
    if r.tableType == "dos" then Ok(Dos)
    else if r.tableType == "gpt" then Ok(Gpt)
    else if r.tableType == "" then Ok(if o.tableType.NoType? then Gpt else o.tableType)
    else Err(InvalidTableType)
  }

  /** The partitions that booting needs, before any requested one. */
  function ForBooting(t: TableType, r: DiskRequest, o: CustomOptions, policy: Policy): Result<seq<Entity>, Failure> {
    match BootModePartitions(t, r, o)
    case Err(f) => Err(f)
    case Ok(boot) =>
      if !(policy.ensureXBootldr && NeedsBoot(r)) then Ok(boot)
      else
        match BootPartition(t, boot, o)
        case Err(f) => Err(f)
        case Ok(p) => Ok(boot + [p])
  }

  /** The partitions before any directory size is looked at. */
  function Assembled(t: TableType, r: DiskRequest, o: CustomOptions, policy: Policy): Result<seq<Entity>, Failure> {
    match ForBooting(t, r, o, policy)
    case Err(f) => Err(f)
    case Ok(first) =>
      match WithRequested(t, first, r.partitions, o)
      case Err(f) => Err(f)
      case Ok(ps) => EnsureRoot(t, ps, o)
  }

  lemma ForBootingSound(t: TableType, r: DiskRequest, o: CustomOptions, policy: Policy)
    requires ForBooting(t, r, o, policy).Ok?
    ensures AllSound(ForBooting(t, r, o, policy).value, 0)
  {
    var boot := BootModePartitions(t, r, o).value;
    BootSound(t, r, o);
    if policy.ensureXBootldr && NeedsBoot(r) {
      var p := BootPartition(t, boot, o).value;
      LeafSound(p.children[0].kind.fstype, "/boot", p.children[0].kind.fsLabel);
      SoundHolder(p.kind, p.size, p.children, 0);
      SoundSnoc(boot, 0, p, 0);
    }
  }

  /** Firmware that boots from an EFI system partition. */
  predicate BootsFromEsp(o: CustomOptions) {
    match o.arch
    case X86_64 => o.bootMode.Uefi? || o.bootMode.Hybrid?
    case Aarch64 => !o.bootMode.NoBoot?
    case Riscv64 => !o.bootMode.NoBoot?
    case _ => false
  }

  lemma OnePartitionMounts(p: Entity)
    requires p.kind.Partition?
    ensures MountSets([p]) == MountSet(p)
    ensures p.children == [] ==> MountSet(p) == multiset{}
    ensures |p.children| == 1 && p.children[0].kind.Filesystem? ==> MountSet(p) == multiset{p.children[0].kind.mountpoint}
  {
    assert MountSets([p]) == MountSet(p) + MountSets([]);
    if |p.children| == 1 { OnlyChildMounts(p); }
  }

  lemma EmptyMounts(t: TableType, name: string, size: nat)
    requires NewPartition(t, name, "", Unset, size, []).Ok?
    ensures MountSets(Single(NewPartition(t, name, "", Unset, size, [])).value) == multiset{}
  {
    OnePartitionMounts(NewPartition(t, name, "", Unset, size, []).value);
  }

  lemma EspMounts(t: TableType, o: CustomOptions)
    requires MakeEsp(t, o).Ok?
    ensures MountSets([MakeEsp(t, o).value]) == multiset{"/boot/efi"}
  {
    OnePartitionMounts(MakeEsp(t, o).value);
  }

  lemma HybridMounts(t: TableType, o: CustomOptions)
    requires NewPartition(t, "bios", "", Unset, MIB, []).Ok? && MakeEsp(t, o).Ok?
    ensures MountSets(Single(NewPartition(t, "bios", "", Unset, MIB, [])).value + [MakeEsp(t, o).value]) ==
            multiset{"/boot/efi"}
  {
    EmptyMounts(t, "bios", MIB);
    EspMounts(t, o);
    MountSetsConcat(Single(NewPartition(t, "bios", "", Unset, MIB, [])).value, [MakeEsp(t, o).value]);
  }

  lemma BootModeMounts(t: TableType, r: DiskRequest, o: CustomOptions)
    requires BootModePartitions(t, r, o).Ok?
    ensures MountSets(BootModePartitions(t, r, o).value) ==
            if BootsFromEsp(o) && !HasEsp(r) then multiset{"/boot/efi"} else multiset{}
  {
    if MakeEsp(t, o).Ok? { EspMounts(t, o); }
    match o.arch {
      case Ppc64le => if !o.bootMode.NoBoot? { EmptyMounts(t, "ppc_prep", 4 * MIB); }
      case X86_64 =>
        if o.bootMode.Legacy? || o.bootMode.Hybrid? { EmptyMounts(t, "bios", MIB); }
        if o.bootMode.Hybrid? && !HasEsp(r) { HybridMounts(t, o); }
      case _ =>
    }
  }

  /** Booting gets exactly what it needs: an EFI system partition unless one is requested, and
      "/boot" when the policy allows it and the requested volumes need it. */
  lemma ForBootingMounts(t: TableType, r: DiskRequest, o: CustomOptions, policy: Policy)
    requires ForBooting(t, r, o, policy).Ok?
    ensures MountSets(ForBooting(t, r, o, policy).value) ==
            (if BootsFromEsp(o) && !HasEsp(r) then multiset{"/boot/efi"} else multiset{}) +
            (if policy.ensureXBootldr && NeedsBoot(r) then multiset{"/boot"} else multiset{})
  {
    var boot := BootModePartitions(t, r, o).value;
    BootModeMounts(t, r, o);
    if policy.ensureXBootldr && NeedsBoot(r) {
      var p := BootPartition(t, boot, o).value;
      MountSetsConcat(boot, [p]);
      OnePartitionMounts(p);
    }
  }

  lemma AssembledOnce(t: TableType, r: DiskRequest, o: CustomOptions, policy: Policy)
    requires AllRootRequests(r.partitions) <= 1 && Assembled(t, r, o, policy).Ok?
    ensures var ps := Assembled(t, r, o, policy).value;
            MountSets(ps)["/"] == 1 && AllSound(ps, 1)
  {
    var first := ForBooting(t, r, o, policy).value;
    ForBootingSound(t, r, o, policy);
    AllRequestedSound(t, first, r.partitions, o);
    EnsureRootOnce(t, WithRequested(t, first, r.partitions, o).value, o);
  }

  function ConfigOf(t: TableType, policy: Policy, r: DiskRequest): Config {
    Config(t, 0, r.sectorSize, 0, r.startOffset, false, Some(policy))
  }

  lemma AssembledReady(t: TableType, r: DiskRequest, o: CustomOptions, policy: Policy)
    requires AllRootRequests(r.partitions) <= 1 && Assembled(t, r, o, policy).Ok?
    ensures var d := Disk(ConfigOf(t, policy, r), Entity(Table, 0, Assembled(t, r, o, policy).value));
            Ready(d) && MountSet(d.tree)["/"] == 1 && InnerFits(d.tree)
  {
    AssembledOnce(t, r, o, policy);
    var ps := Assembled(t, r, o, policy).value;
    forall i | 0 <= i < |ps| ensures WellTyped(ps[i]) && ps[i].kind.Partition? { assert Sound(ps[i], 1); }
    forall i, j | 0 <= i < |ps| && 0 <= j < |ps[i].children| ensures Fits(ps[i].children[j]) { assert Sound(ps[i], 1); }
  }

  /** The table before it is laid out. */
  ghost function PrepareCustom(r: DiskRequest, o: CustomOptions, policy: Option<Policy>): (d: Result<Disk, Failure>)
    requires AllRootRequests(r.partitions) <= 1 && forall x :: x in o.requiredMinSizes ==> Rooted(x)
    ensures d.Ok? ==> Ready(d.value)
  {
    match TableTypeOf(r, o)
    case Err(f) => Err(f)
    case Ok(t) =>
      var used := if policy.Some? then policy.value else Policy(true, None);
      match Assembled(t, r, o, used)
      case Err(f) => Err(f)
      case Ok(ps) =>
        AssembledReady(t, r, o, used);
        var d0 := Disk(ConfigOf(t, used, r), Entity(Table, 0, ps));
        RootedAllFound(d0, o.requiredMinSizes);
        EnsureDirectoriesKeeps(d0, o.requiredMinSizes);
        Ok(Disk(d0.config, EnsureDirectories(d0.tree, o.requiredMinSizes)))
  }

  /** `d'` is a possible result.  DOS tables with more than four partitions are refused. */
  ghost predicate MakesCustom(r: DiskRequest, o: CustomOptions, policy: Option<Policy>, d': Disk)
    requires AllRootRequests(r.partitions) <= 1 && forall x :: x in o.requiredMinSizes ==> Rooted(x)
  {
    match PrepareCustom(r, o, policy)
    case Err(_) => false
    case Ok(d) =>
      ReadyCanLayOut(d);
      Relayout(d, r.minSize, d') && !(d'.config.tableType.Dos? && 4 < |d'.tree.children|)
  }

  // ---------- the disk has no slack ----------

  /** The disk is not larger than its partitions together. */
  predicate NoSlack(e: Entity) {
    e.size <= SumNeeds(e.children)
  }

  lemma ResizeNoSlack(e: Entity, q: Request)
    requires WellTyped(e) && e.kind.Table? && NoSlack(e) && ValidPath(e, q.path) && q.path != []
    ensures NoSlack(ResizeTo(e, q))
  {
    var p := q.path;
    ChildTyped(e, p[0]);
    assert !Bare(e.children[p[0]], p[1..]);
    OneStep(e, p, q.size);
  }

  lemma {:induction false} ResizeAllNoSlack(e: Entity, rs: seq<Request>)
    requires WellTyped(e) && e.kind.Table? && NoSlack(e) && Addressed(e, rs)
    requires forall r :: r in rs ==> r.path != []
    ensures NoSlack(ResizeAll(e, rs))
    decreases rs
  {
    if rs != [] {
      ResizeNoSlack(e, rs[0]);
      StillAddressed(e, ResizeTo(e, rs[0]), rs[1..]);
      ResizeAllNoSlack(ResizeTo(e, rs[0]), rs[1..]);
    }
  }

  lemma EnsuredNoSlack(d: Disk, sizes: map<string, nat>)
    requires Ready(d) && NoSlack(d.tree) && AllFound(d.tree, sizes)
    ensures NoSlack(EnsureDirectories(d.tree, sizes))
  {
    var ms := SomeListing(d.tree, sizes);
    var rs := Requests(d.tree, sizes, ms);
    forall q | q in rs ensures q.path != [] {
      var m := RequestFor(d.tree, sizes, ms, q);
      EntityPathMounted(d.tree, m);
    }
    ResizeAllNoSlack(d.tree, rs);
  }

  /** What the layout puts on the disk: the aligned end of the root partition and the footer. */
  function ContentEnd(d: Disk, size: nat): nat
    requires Partitions(d.tree.children) && 0 <= RootIndex(d.tree.children)
  {
    var plan := PlanOf(d, size);
    d.config.Align(plan.rootStart + d.config.Footer(|d.tree.children|) + plan.rootNeed)
  }

  lemma WithoutAt(ps: seq<Entity>, k: nat)
    requires k < |ps|
    ensures forall i :: 0 <= i < |ps| - 1 ==> Without(ps, k)[i] == ps[if i < k then i else i + 1]
  {
  }

  lemma SumNeedsMiddle(a: seq<Entity>, x: Entity, b: seq<Entity>)
    ensures SumNeeds(a + [x] + b) == SumNeeds(a + b) + Need(x)
  {
    SumNeedsConcat(a + [x], b);
    SumNeedsConcat(a, [x]);
    SumNeedsConcat(a, b);
    assert SumNeeds([x]) == Need(x) + SumNeeds([]);
  }

  lemma SumNeedsWithout(ps: seq<Entity>, k: nat)
    requires k < |ps|
    ensures SumNeeds(ps) == SumNeeds(Without(ps, k)) + Need(ps[k])
  {
    AroundIndex(ps, k);
    SumNeedsMiddle(ps[..k], ps[k], ps[k + 1..]);
  }

  lemma NoSlackBelowEnd(d: Disk, size: nat)
    requires CanLayOut(d) && OneRoot(d.tree.children) && NoSlack(d.tree)
    ensures d.tree.size <= ContentEnd(d, size)
  {
    OneRootIndex(d.tree.children);
    var c, ps, k := d.config, d.tree.children, RootIndex(d.tree.children);
    var start := c.FirstStart(|ps|);
    var others := Without(ps, k);
    RootSkipped(c, ps, start, k);
    WithoutAt(ps, k);
    OthersGrow(c, others, start);
    SumNeedsWithout(ps, k);
    FitToCovers(ps[k], ps[k].size);
  }

  lemma {:induction false} OthersGrow(c: Config, ps: seq<Entity>, start: nat)
    requires Partitions(ps) && (forall i :: 0 <= i < |ps| ==> !HoldsRoot(ps[i]) && WellTyped(ps[i]))
    ensures start + SumNeeds(ps) <= EndOfOthers(c, ps, start)
    decreases |ps|
  {
    if ps != [] {
      var n := |ps| - 1;
      OthersGrow(c, ps[..n], start);
      assert ps == ps[..n] + [ps[n]];
      SumNeedsConcat(ps[..n], [ps[n]]);
      assert SumNeeds([ps[n]]) == Need(ps[n]) + SumNeeds([]);
      FitToCovers(ps[n], ps[n].size);
    }
  }

  lemma PreparedCustom(r: DiskRequest, o: CustomOptions, policy: Option<Policy>)
    requires AllRootRequests(r.partitions) <= 1 && forall x :: x in o.requiredMinSizes ==> Rooted(x)
    requires PrepareCustom(r, o, policy).Ok?
    ensures var d := PrepareCustom(r, o, policy).value;
            && CanLayOut(d) && OneRoot(d.tree.children) && MountSet(d.tree)["/"] == 1
            && InnerFits(d.tree) && NoSlack(d.tree)
  {
    var t := TableTypeOf(r, o).value;
    var used := if policy.Some? then policy.value else Policy(true, None);
    var d0 := Disk(ConfigOf(t, used, r), Entity(Table, 0, Assembled(t, r, o, used).value));
    AssembledReady(t, r, o, used);
    RootedAllFound(d0, o.requiredMinSizes);
    EnsureDirectoriesKeeps(d0, o.requiredMinSizes);
    EnsuredNoSlack(d0, o.requiredMinSizes);
    ReadyCanLayOut(PrepareCustom(r, o, policy).value);
    SingleRoot(PrepareCustom(r, o, policy).value);
  }

  /** Main result: with at most one "/" requested, a table that is made mounts "/" exactly once,
      so that no panic for a missing root is reached, and everything in it fits. */
  lemma CustomTableCorrect(r: DiskRequest, o: CustomOptions, policy: Option<Policy>, d': Disk)
    requires AllRootRequests(r.partitions) <= 1 && forall x :: x in o.requiredMinSizes ==> Rooted(x)
    requires MakesCustom(r, o, policy, d')
    ensures ValidDisk(d') && MountSet(d'.tree)["/"] == 1
    ensures Fits(d'.tree)
  {
    PreparedCustom(r, o, policy);
    var d := PrepareCustom(r, o, policy).value;
    RelayoutValid(d, r.minSize, d');
    RelayoutKeepsMounts(d, r.minSize, d');
    RelayoutFits(d, r.minSize, d');
  }

  lemma PlannedSize(d: Disk, size: nat)
    requires CanLayOut(d)
    ensures PlanOf(d, size).diskSize == Max(d.tree.size, Max(d.config.Align(size), ContentEnd(d, size)))
  {
  }

  /** The disk is exactly as large as the aligned minimum or the aligned end of its content,
      and when all partitions but the root's have a size the table is well laid. */
  lemma CustomTableLayout(r: DiskRequest, o: CustomOptions, policy: Option<Policy>, d': Disk)
    requires AllRootRequests(r.partitions) <= 1 && forall x :: x in o.requiredMinSizes ==> Rooted(x)
    requires MakesCustom(r, o, policy, d')
    ensures var d := PrepareCustom(r, o, policy).value;
            && CanLayOut(d)
            && d'.tree.size == Max(d.config.Align(r.minSize), ContentEnd(d, r.minSize))
            && (OthersPositive(d.tree.children) ==> WellLaid(d'))
  {
    PreparedCustom(r, o, policy);
    var d := PrepareCustom(r, o, policy).value;
    NoSlackBelowEnd(d, r.minSize);
    PlannedSize(d, r.minSize);
    if OthersPositive(d.tree.children) { RelayoutWellLaid(d, r.minSize, d'); }
  }
}
