/** What a custom table mounts, and how much room each mountpoint has. */
module CustomMounts {
  import opened Basics
  import opened Entities
  import opened Mounts
  import opened Directories
  import opened DirectorySizes
  import opened Layout
  import opened LayoutSpace
  import opened Growth
  import opened Wrapping
  import opened NewTable
  import opened CustomTable

  // ---------- what is asked for ----------

  predicate IsSwap(given: string, o: CustomOptions) {
    FsTypeOr(given, o) == Ok("swap")
  }

  predicate MakesFilesystem(p: PartitionRequest, o: CustomOptions) {
    !IsSwap(p.fstype, o) && p.fstype != "none"
  }

  function VolumeMounts(vs: seq<VolumeRequest>, o: CustomOptions): multiset<string> {
    if vs == [] then multiset{}
    else
      var before, v := VolumeMounts(vs[..|vs| - 1], o), vs[|vs| - 1];
      if IsSwap(v.fstype, o) then before else before + multiset{v.mountpoint}
  }

  function SubvolumeMounts(ss: seq<SubvolumeRequest>): multiset<string> {
    if ss == [] then multiset{} else SubvolumeMounts(ss[..|ss| - 1]) + multiset{ss[|ss| - 1].mountpoint}
  }

  /** The mountpoints a requested partition is to have. */
  function RequestMounts(p: PartitionRequest, o: CustomOptions): multiset<string> {
    if p.Plain() then if MakesFilesystem(p, o) then multiset{p.mountpoint} else multiset{}
    else if p.kind == "lvm" then VolumeMounts(p.volumes, o)
    else SubvolumeMounts(p.subvolumes)
  }

  function AllRequestMounts(rs: seq<PartitionRequest>, o: CustomOptions): multiset<string> {
    if rs == [] then multiset{} else AllRequestMounts(rs[..|rs| - 1], o) + RequestMounts(rs[|rs| - 1], o)
  }

  /** What booting needs and what is requested, and a root when that is not among them. */
  function CustomMountSet(r: DiskRequest, o: CustomOptions, policy: Policy): multiset<string> {
    var given := (if BootsFromEsp(o) && !HasEsp(r) then multiset{"/boot/efi"} else multiset{})
               + (if policy.ensureXBootldr && NeedsBoot(r) then multiset{"/boot"} else multiset{})
               + AllRequestMounts(r.partitions, o);
    if "/" in given then given else given + multiset{"/"}
  }

  /** The request asks for at least `s` bytes for `m`. */
  predicate Demands(p: PartitionRequest, o: CustomOptions, m: string, s: nat) {
    || (p.Plain() && MakesFilesystem(p, o) && p.mountpoint == m && p.minSize == s)
    || (p.kind == "lvm" && VolumeDemands(p.volumes, o, m, s))
  }

  predicate VolumeDemands(vs: seq<VolumeRequest>, o: CustomOptions, m: string, s: nat) {
    exists j :: 0 <= j < |vs| && !IsSwap(vs[j].fstype, o) && vs[j].mountpoint == m && vs[j].minSize == s
  }

  predicate Demanded(rs: seq<PartitionRequest>, o: CustomOptions, m: string, s: nat) {
    exists i :: 0 <= i < |rs| && Demands(rs[i], o, m, s)
  }

  // ---------- mountpoints ----------

  lemma PlainMountSet(t: TableType, p: PartitionRequest, o: CustomOptions)
    requires p.Plain() && PlainPartition(t, p, o).Ok?
    ensures MountSet(PlainPartition(t, p, o).value) == RequestMounts(p, o)
    ensures PlainPartition(t, p, o).value.size == p.minSize
  {
    var e := PlainPartition(t, p, o).value;
    if e.children == [] {
      assert MountSet(e) == MountSets([]);
    } else {
      OnlyChildMounts(e);
      if e.children[0].kind.Swap? { assert MountSet(e.children[0]) == MountSets([]); }
      NotNamedNone(p, o);
    }
  }

  /** A default filesystem is never called "none" or "swap". */
  lemma NotNamedNone(p: PartitionRequest, o: CustomOptions)
    requires FsTypeOr(p.fstype, o).Ok?
    ensures FsTypeOr(p.fstype, o).value == "none" <==> p.fstype == "none"
  {
  }

  lemma VolumePayloadMounts(v: VolumeRequest, o: CustomOptions)
    requires FsTypeOr(v.fstype, o).Ok?
    ensures MountSet(VolumePayload(v, FsTypeOr(v.fstype, o).value)) ==
            if IsSwap(v.fstype, o) then multiset{} else multiset{v.mountpoint}
  {
    var e := VolumePayload(v, FsTypeOr(v.fstype, o).value);
    if e.kind.Swap? { assert MountSet(e) == MountSets([]); }
  }

  lemma {:induction false} VolumesMountSet(vg: Entity, vs: seq<VolumeRequest>, o: CustomOptions)
    requires vg.kind.VolumeGroup? && vg.children == [] && WithVolumes(vg, vs, o).Ok?
    ensures MountSet(WithVolumes(vg, vs, o).value) == VolumeMounts(vs, o)
    decreases |vs|
  {
    if vs == [] {
      assert MountSet(vg) == MountSets([]);
    } else {
      var n := |vs| - 1;
      var before := WithVolumes(vg, vs[..n], o).value;
      var fstype := FsTypeOr(vs[n].fstype, o).value;
      VolumesMountSet(vg, vs[..n], o);
      VolumesSound(vg, vs[..n], o);
      VolumePayloadSound(vs[n], fstype);
      VolumePayloadMounts(vs[n], o);
      VolumeAdded(before, vs[n].name, vs[n].minSize, VolumePayload(vs[n], fstype));
    }
  }

  lemma {:induction false} SubvolumesMountSet(ss: seq<SubvolumeRequest>, cs: seq<Entity>)
    requires |cs| == |ss|
    requires forall i :: 0 <= i < |ss| ==> cs[i] == Entity(Subvolume(ss[i].name, ss[i].mountpoint, false), 0, [])
    ensures MountSets(cs) == SubvolumeMounts(ss)
    decreases |ss|
  {
    if ss != [] {
      var n := |ss| - 1;
      SubvolumesMountSet(ss[..n], cs[..n]);
      assert cs == cs[..n] + [cs[n]];
      MountSetsConcat(cs[..n], [cs[n]]);
      assert MountSets([cs[n]]) == MountSet(cs[n]) + MountSets([]);
    }
  }

  lemma RequestMountSet(t: TableType, ps: seq<Entity>, p: PartitionRequest, o: CustomOptions)
    requires RequestedPartition(t, ps, p, o).Ok?
    ensures MountSet(RequestedPartition(t, ps, p, o).value) == RequestMounts(p, o)
  {
    var e := RequestedPartition(t, ps, p, o).value;
    if p.Plain() {
      PlainMountSet(t, p, o);
    } else {
      OnlyChildMounts(e);
      if p.kind == "lvm" {
        VolumesMountSet(EmptyGroup(GroupName(ps, p).value), p.volumes, o);
      } else {
        SubvolumesMountSet(p.subvolumes, e.children[0].children);
      }
    }
  }

  lemma {:induction false} AllRequestMountSet(t: TableType, ps: seq<Entity>, rs: seq<PartitionRequest>, o: CustomOptions)
    requires WithRequested(t, ps, rs, o).Ok?
    ensures MountSets(WithRequested(t, ps, rs, o).value) == MountSets(ps) + AllRequestMounts(rs, o)
    decreases |rs|
  {
    if rs != [] {
      var n := |rs| - 1;
      var before := WithRequested(t, ps, rs[..n], o).value;
      var p := RequestedPartition(t, before, rs[n], o).value;
      AllRequestMountSet(t, ps, rs[..n], o);
      RequestMountSet(t, before, rs[n], o);
      MountSetsConcat(before, [p]);
      assert MountSets([p]) == MountSet(p) + MountSets([]);
    }
  }

  lemma AssembledMountSet(t: TableType, r: DiskRequest, o: CustomOptions, policy: Policy)
    requires AllRootRequests(r.partitions) <= 1 && Assembled(t, r, o, policy).Ok?
    ensures MountSets(Assembled(t, r, o, policy).value) == CustomMountSet(r, o, policy)
  {
    var first := ForBooting(t, r, o, policy).value;
    ForBootingMounts(t, r, o, policy);
    ForBootingSound(t, r, o, policy);
    AllRequestMountSet(t, first, r.partitions, o);
    AllRequestedSound(t, first, r.partitions, o);
    EnsureRootOnce(t, WithRequested(t, first, r.partitions, o).value, o);
  }

  // ---------- room ----------

  /** Some child mounts `m`; if it is the only one, it gives `m` the room. */
  predicate RoomOnce(cs: seq<Entity>, m: string, s: nat) {
    && m in MountSets(cs)
    && (MountSets(cs)[m] == 1 ==> forall i :: 0 <= i < |cs| ==> Room(cs[i], m, s, 0))
  }

  lemma RoomOnceAppended(cs: seq<Entity>, x: Entity, m: string, s: nat)
    requires RoomOnce(cs, m, s)
    ensures RoomOnce(cs + [x], m, s)
  {
    MountSetsConcat(cs, [x]);
    assert MountSets([x]) == MountSet(x) + MountSets([]);
    if m !in MountSet(x) { RoomIfAbsent(x, m, s, 0); }
  }

  lemma RoomOnceNew(cs: seq<Entity>, x: Entity, m: string, s: nat)
    requires m in MountSet(x) && (MountSet(x)[m] == 1 ==> Room(x, m, s, 0))
    ensures RoomOnce(cs + [x], m, s)
  {
    MountSetsConcat(cs, [x]);
    assert MountSets([x]) == MountSet(x) + MountSets([]);
    if MountSets(cs + [x])[m] == 1 {
      forall i | 0 <= i < |cs| ensures Room(cs[i], m, s, 0) {
        MountSetsMember(cs, i, m);
        RoomIfAbsent(cs[i], m, s, 0);
      }
    }
  }

  lemma VolumeRoom(before: Entity, v: VolumeRequest, o: CustomOptions)
    requires before.kind.VolumeGroup? && AddVolume(before, v, o).Ok? && !IsSwap(v.fstype, o)
    ensures RoomOnce(AddVolume(before, v, o).value.children, v.mountpoint, v.minSize)
  {
    var lv := AddVolume(before, v, o).value.children[|before.children|];
    VolumePayloadMounts(v, o);
    OnlyChildMounts(lv);
    assert Room(lv, v.mountpoint, v.minSize, 0);
    RoomOnceNew(before.children, lv, v.mountpoint, v.minSize);
  }

  lemma {:induction false} VolumesRoom(vg: Entity, vs: seq<VolumeRequest>, o: CustomOptions, m: string, s: nat)
    requires vg.kind.VolumeGroup? && vg.children == [] && WithVolumes(vg, vs, o).Ok? && VolumeDemands(vs, o, m, s)
    ensures RoomOnce(WithVolumes(vg, vs, o).value.children, m, s)
    decreases |vs|
  {
    var n := |vs| - 1;
    var before := WithVolumes(vg, vs[..n], o).value;
    VolumesSound(vg, vs[..n], o);
    var j :| 0 <= j < |vs| && !IsSwap(vs[j].fstype, o) && vs[j].mountpoint == m && vs[j].minSize == s;
    if j == n {
      VolumeRoom(before, vs[n], o);
    } else {
      assert vs[..n][j] == vs[j];
      VolumesRoom(vg, vs[..n], o, m, s);
      RoomOnceAppended(before.children, AddVolume(before, vs[n], o).value.children[|before.children|], m, s);
    }
  }

  /** A partition whose payload holds sized children. */
  lemma PartitionRoom(e: Entity, m: string, s: nat)
    requires e.kind.Partition? && |e.children| == 1 && !e.children[0].kind.Sizeable() && !e.children[0].kind.Mountable()
    requires RoomOnce(e.children[0].children, m, s)
    requires forall i :: 0 <= i < |e.children[0].children| ==> e.children[0].children[i].kind.Sizeable()
    ensures m in MountSet(e) && (MountSet(e)[m] == 1 ==> Room(e, m, s, 0))
  {
    OnlyChildMounts(e);
    var v := e.children[0];
    if MountSet(e)[m] == 1 {
      forall i | 0 <= i < |v.children| ensures Room(v.children[i], m, s, e.size) {
        SmallerRoom(v.children[i], m, s, s, 0, e.size);
      }
    }
  }

  lemma RequestRoom(t: TableType, ps: seq<Entity>, p: PartitionRequest, o: CustomOptions, m: string, s: nat)
    requires RequestedPartition(t, ps, p, o).Ok? && Demands(p, o, m, s)
    ensures var e := RequestedPartition(t, ps, p, o).value;
            m in MountSet(e) && (MountSet(e)[m] == 1 ==> Room(e, m, s, 0))
  {
    var e := RequestedPartition(t, ps, p, o).value;
    if p.Plain() {
      PlainMountSet(t, p, o);
    } else {
      var vg := EmptyGroup(GroupName(ps, p).value);
      VolumesRoom(vg, p.volumes, o, m, s);
      VolumesSound(vg, p.volumes, o);
      var group := e.children[0];
      forall i | 0 <= i < |group.children| ensures group.children[i].kind.Sizeable() { ChildTyped(group, i); }
      PartitionRoom(e, m, s);
    }
  }

  lemma {:induction false} AllRequestsRoom(t: TableType, ps: seq<Entity>, rs: seq<PartitionRequest>, o: CustomOptions,
                                           m: string, s: nat)
    requires WithRequested(t, ps, rs, o).Ok? && Demanded(rs, o, m, s)
    ensures RoomOnce(WithRequested(t, ps, rs, o).value, m, s)
    decreases |rs|
  {
    var n := |rs| - 1;
    var before := WithRequested(t, ps, rs[..n], o).value;
    var p := RequestedPartition(t, before, rs[n], o).value;
    var i :| 0 <= i < |rs| && Demands(rs[i], o, m, s);
    if i == n {
      RequestRoom(t, before, rs[n], o, m, s);
      RoomOnceNew(before, p, m, s);
    } else {
      assert rs[..n][i] == rs[i];
      AllRequestsRoom(t, ps, rs[..n], o, m, s);
      RoomOnceAppended(before, p, m, s);
    }
  }

  /** Adding the root to a volume container leaves the room of the others. */
  lemma RootChildRoom(p: Entity, v': Entity, m: string, s: nat)
    requires |p.children| == 1 && !p.kind.Mountable() && !p.children[0].kind.Sizeable() && !p.children[0].kind.Mountable()
    requires v'.kind == p.children[0].kind && |v'.children| == |p.children[0].children| + 1
    requires v'.children[..|p.children[0].children|] == p.children[0].children
    requires m !in MountSet(v'.children[|p.children[0].children|]) && Room(p, m, s, 0)
    ensures Room(p.(children := [v']), m, s, 0)
  {
    var v := p.children[0];
    var here := if p.kind.Sizeable() then p.size else 0;
    assert Room(v, m, s, here);
    forall i | 0 <= i < |v'.children| ensures Room(v'.children[i], m, s, here) {
      if i < |v.children| {
        assert v'.children[i] == v'.children[..|v.children|][i];
      } else {
        RoomIfAbsent(v'.children[i], m, s, here);
      }
    }
  }

  lemma EnsureRootRoom(t: TableType, ps: seq<Entity>, o: CustomOptions, m: string, s: nat)
    requires AllSound(ps, 1) && EnsureRoot(t, ps, o).Ok? && RoomOnce(ps, m, s)
    ensures RoomOnce(EnsureRoot(t, ps, o).value, m, s)
  {
    if "/" !in MountSets(ps) {
      match FirstWithVolumes(ps, 0) {
        case Some(i) =>
          var v, v' := ps[i].children[0], RootInVolumes(ps[i].children[0], ps, o).value;
          assert Sound(ps[i], 1);
          ChildTyped(ps[i], 0);
          EnsureRootOnce(t, ps, o);
          RootIsLast(v, ps, o);
          assert ps[i].children[0 := v'] == [v'];
          if MountSets(ps)[m] == 1 { RootChildRoom(ps[i], v', m, s); }
        case None => RoomOnceAppended(ps, PlainRoot(t, ps, o).value, m, s);
      }
    }
  }

  lemma RootIsLast(v: Entity, ps: seq<Entity>, o: CustomOptions)
    requires (v.kind.VolumeGroup? || v.kind.Btrfs?) && RootInVolumes(v, ps, o).Ok?
    ensures var v' := RootInVolumes(v, ps, o).value;
            && v'.kind == v.kind && |v'.children| == |v.children| + 1
            && v'.children[..|v.children|] == v.children
            && MountSet(v'.children[|v.children|]) == multiset{"/"}
  {
    var last := RootInVolumes(v, ps, o).value.children[|v.children|];
    if v.kind.VolumeGroup? { OnlyChildMounts(last); }
  }

  lemma AssembledRoom(t: TableType, r: DiskRequest, o: CustomOptions, policy: Policy, m: string, s: nat)
    requires AllRootRequests(r.partitions) <= 1 && Assembled(t, r, o, policy).Ok? && Demanded(r.partitions, o, m, s)
    ensures RoomOnce(Assembled(t, r, o, policy).value, m, s)
  {
    var first := ForBooting(t, r, o, policy).value;
    ForBootingSound(t, r, o, policy);
    AllRequestedSound(t, first, r.partitions, o);
    AllRequestsRoom(t, first, r.partitions, o, m, s);
    SoundMore(WithRequested(t, first, r.partitions, o).value, AllRootRequests(r.partitions));
    EnsureRootRoom(t, WithRequested(t, first, r.partitions, o).value, o, m, s);
  }

  lemma SoundMore(ps: seq<Entity>, n: nat)
    requires AllSound(ps, n) && n <= 1
    ensures AllSound(ps, 1)
  {
    forall i | 0 <= i < |ps| ensures Sound(ps[i], 1) { assert Sound(ps[i], n); }
  }

  lemma TableRoom(d: Disk, m: string, s: nat)
    requires ValidDisk(d) && RoomOnce(d.tree.children, m, s) && MountSet(d.tree)[m] == 1
    ensures Room(d.tree, m, s, 0)
  {
    forall i | 0 <= i < |d.tree.children| ensures Room(d.tree.children[i], m, s, d.tree.size) {
      ChildTyped(d.tree, i);
      SmallerRoom(d.tree.children[i], m, s, s, 0, d.tree.size);
    }
  }

  // ---------- main results ----------

  function UsedPolicy(policy: Option<Policy>): Policy {
    if policy.Some? then policy.value else Policy(true, None)
  }

  /** `d'` is `d0` grown for the directories and laid out. */
  ghost predicate Finishes(r: DiskRequest, o: CustomOptions, d0: Disk, d': Disk) {
    && Ready(d0) && AllFound(d0.tree, o.requiredMinSizes)
    && var d := Disk(d0.config, EnsureDirectories(d0.tree, o.requiredMinSizes));
       CanLayOut(d) && Relayout(d, r.minSize, d')
  }

  lemma FinishedMounts(r: DiskRequest, o: CustomOptions, d0: Disk, d': Disk)
    requires Finishes(r, o, d0, d')
    ensures ValidDisk(d') && MountSet(d'.tree) == MountSet(d0.tree)
  {
    var d := Disk(d0.config, EnsureDirectories(d0.tree, o.requiredMinSizes));
    GrownMounts(d0.tree, d.tree);
    RelayoutValid(d, r.minSize, d');
    RelayoutKeepsMounts(d, r.minSize, d');
  }

  lemma FinishedRoom(r: DiskRequest, o: CustomOptions, d0: Disk, d': Disk, m: string, s: nat)
    requires Finishes(r, o, d0, d') && Room(d0.tree, m, s, 0)
    ensures Room(d'.tree, m, s, 0)
  {
    var d := Disk(d0.config, EnsureDirectories(d0.tree, o.requiredMinSizes));
    RoomGrows(d0.tree, d.tree, m, s, 0, 0);
    RelayoutKeepsRoom(d, r.minSize, d', m, s);
  }

  lemma FinishedDirectory(r: DiskRequest, o: CustomOptions, d0: Disk, d': Disk, m: string)
    requires Finishes(r, o, d0, d') && MountSet(d'.tree)[m] == 1 && Under(d'.tree, o.requiredMinSizes, m) != {}
    requires DirectoriesRoomy(EnsureDirectories(d0.tree, o.requiredMinSizes), o.requiredMinSizes)
    ensures Room(d'.tree, m, Total(d'.tree, o.requiredMinSizes, m), 0)
  {
    var d := Disk(d0.config, EnsureDirectories(d0.tree, o.requiredMinSizes));
    FinishedMounts(r, o, d0, d');
    GrownMounts(d0.tree, d.tree);
    SameTotals(d.tree, d'.tree, o.requiredMinSizes, m);
    RelayoutKeepsRoom(d, r.minSize, d', m, Total(d.tree, o.requiredMinSizes, m));
  }

  lemma FinishedDirectories(r: DiskRequest, o: CustomOptions, d0: Disk, d': Disk)
    requires Finishes(r, o, d0, d')
    ensures DirectoriesRoomy(d'.tree, o.requiredMinSizes)
  {
    EnsuredRoomy(d0, o.requiredMinSizes);
    forall m | MountSet(d'.tree)[m] == 1 && Under(d'.tree, o.requiredMinSizes, m) != {}
      ensures Room(d'.tree, m, Total(d'.tree, o.requiredMinSizes, m), 0)
    {
      FinishedDirectory(r, o, d0, d', m);
    }
  }

  /** The table before any directory size is looked at. */
  function AssembledDisk(t: TableType, r: DiskRequest, o: CustomOptions, policy: Policy): Disk
    requires Assembled(t, r, o, policy).Ok?
  {
    Disk(ConfigOf(t, policy, r), Entity(Table, 0, Assembled(t, r, o, policy).value))
  }

  lemma MakesFinishes(r: DiskRequest, o: CustomOptions, policy: Option<Policy>, d': Disk) returns (t: TableType)
    requires AllRootRequests(r.partitions) <= 1 && forall x :: x in o.requiredMinSizes ==> Rooted(x)
    requires MakesCustom(r, o, policy, d')
    ensures Assembled(t, r, o, UsedPolicy(policy)).Ok?
    ensures Finishes(r, o, AssembledDisk(t, r, o, UsedPolicy(policy)), d')
  {
    t := TableTypeOf(r, o).value;
    AssembledReady(t, r, o, UsedPolicy(policy));
    RootedAllFound(AssembledDisk(t, r, o, UsedPolicy(policy)), o.requiredMinSizes);
    ReadyCanLayOut(PrepareCustom(r, o, policy).value);
  }

  /** Main result: a table that is made mounts exactly what booting needs, what is requested and
      one root, and every mountpoint that occurs once has room for the directories below it and
      at least the size that was asked for. */
  lemma CustomTableMountpoints(r: DiskRequest, o: CustomOptions, policy: Option<Policy>, d': Disk)
    requires AllRootRequests(r.partitions) <= 1 && forall x :: x in o.requiredMinSizes ==> Rooted(x)
    requires MakesCustom(r, o, policy, d')
    ensures ValidDisk(d') && MountSet(d'.tree) == CustomMountSet(r, o, UsedPolicy(policy))
    ensures DirectoriesRoomy(d'.tree, o.requiredMinSizes)
    ensures forall m, s: nat :: Demanded(r.partitions, o, m, s) && MountSet(d'.tree)[m] == 1 ==> Room(d'.tree, m, s, 0)
  {
    var t := MakesFinishes(r, o, policy, d');
    var d0 := AssembledDisk(t, r, o, UsedPolicy(policy));
    AssembledMountSet(t, r, o, UsedPolicy(policy));
    FinishedMounts(r, o, d0, d');
    FinishedDirectories(r, o, d0, d');
    forall m, s: nat | Demanded(r.partitions, o, m, s) && MountSet(d'.tree)[m] == 1 ensures Room(d'.tree, m, s, 0) {
      AssembledRoom(t, r, o, UsedPolicy(policy), m, s);
      TableRoom(d0, m, s);
      FinishedRoom(r, o, d0, d', m, s);
    }
  }
}
