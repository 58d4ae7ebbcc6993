/** Moving the root filesystem onto a logical volume or a Btrfs subvolume. */
module Wrapping {
  import opened Basics
  import opened Strings
  import opened Entities
  import opened Mounts
  import opened Layout
  import opened LayoutSpace
  import opened Volumes
  import opened Growth
  import opened Creation

  datatype Arch = X86_64 | Aarch64 | Ppc64le | S390x | Riscv64 | Unset

  /** The table a step leaves behind, also when it fails. */
  datatype Step = Step(disk: Disk, failure: Option<Failure>)

  // ---------- what is wrapped ----------

  function RootPath(d: Disk): (p: Path)
    requires Ready(d)
    ensures MountedAt(d.tree, p, "/") && 2 <= |p| && ValidPath(d.tree, p[..|p| - 1])
    ensures EntityPath(d.tree, "/") == Some(p)
  {
    ReadyHasRoot(d);
    var p := EntityPath(d.tree, "/").value;
    assert p != [];
    ChildTyped(d.tree, p[0]);
    assert MountedAt(d.tree.children[p[0]], p[1..], "/");
    assert p[1..] != [];
    PrefixValid(d.tree, p[..|p| - 1], p);
    p
  }

  function RootParent(d: Disk): Entity
    requires Ready(d)
  {
    At(d.tree, RootPath(d)[..|RootPath(d)| - 1])
  }

  lemma {:induction false} PartitionsAreOnTop(e: Entity, p: Path)
    requires WellTyped(e) && ValidPath(e, p) && At(e, p).kind.Partition?
    ensures e.kind.Table? ==> |p| == 1
    ensures !e.kind.Table? ==> p == []
    decreases p
  {
    if p != [] {
      ChildTyped(e, p[0]);
      PartitionsAreOnTop(e.children[p[0]], p[1..]);
    }
  }

  /** When the root filesystem lies directly on a partition, this is the partition's index. */
  function RootSlot(d: Disk): (i: nat)
    requires Ready(d) && RootParent(d).kind.Partition?
    ensures RootPath(d) == [i, 0] && i < |d.tree.children| && d.tree.children[i] == RootParent(d)
    ensures RootParent(d).children == [At(d.tree, RootPath(d))]
    ensures MountedAt(RootParent(d).children[0], [], "/") && RootParent(d).children[0].kind.Filesystem?
  {
    var p := RootPath(d);
    PartitionsAreOnTop(d.tree, p[..|p| - 1]);
    assert p[..1] == [p[0]] && [p[0]][1..] == [];
    var part := d.tree.children[p[0]];
    ChildTyped(d.tree, p[0]);
    assert ValidPath(part, p[1..]) && p[1..][1..] == [];
    ChildTyped(part, 0);
    assert At(part, p[1..]) == part.children[0];
    p[0]
  }

  /** The table with the root partition's payload replaced and its size reset to 0. */
  function Rewrapped(d: Disk, payload: Entity, ptype: string): Disk
    requires Ready(d) && RootParent(d).kind.Partition?
  {
    var i := RootSlot(d);
    var part := d.tree.children[i];
    var part' := Entity(part.kind.(ptype := ptype), 0, [payload]);
    Disk(d.config, d.tree.(children := d.tree.children[i := part']))
  }

  // ---------- LVM ----------

  /** The panic for a volume that cannot be created is unreachable: the name is given. */
  function RootVolumeGroup(fs: Entity, size: nat): (vg: Entity)
    ensures vg == Entity(VolumeGroup("rootvg"), 0, [Entity(LogicalVolume("rootlv"), AlignUp(size, EXTENT), [fs])])
  {
    var made := CreateLogicalVolume(Entity(VolumeGroup("rootvg"), 0, []), "rootlv", size, fs);
    made.value
  }

  /** A new volume group with the old root filesystem on a volume of the old partition's size. */
  function LvmPayload(d: Disk): Entity
    requires Ready(d) && RootParent(d).kind.Partition?
  {
    var part := d.tree.children[RootSlot(d)];
    RootVolumeGroup(part.children[0], part.size)
  }

  function WrapLvm(d: Disk): Step
    requires Ready(d)
  {
    var parent := RootParent(d);
    if parent.kind.LogicalVolume? then Step(d, None)
    else if !parent.kind.Partition? then Step(d, Some(UnsupportedParent))
    else Step(Rewrapped(d, LvmPayload(d), if d.config.tableType.Gpt? then LVM_GUID else LVM_DOS_ID), None)
  }

  function AddBoot(d: Disk, fstype: string): (r: Result<Disk, Failure>)
    requires Ready(d)
    ensures r.Ok? ==> Ready(r.value)
  {
    match CreateMountpoint(d.config, d.tree, "/boot", fstype, GIB)
    case Err(f) => Err(f)
    case Ok(tree) =>
      CreateMountpointAppends(d.config, d.tree, "/boot", fstype, GIB);
      AppendKeepsTyped(d.tree, [], tree, "/boot");
      AppendAddsMount(d.tree, [], tree, "/boot");
      Ok(Disk(d.config, tree))
  }

  function EnsureLvm(d: Disk, fstype: string): Step
    requires Ready(d) && d.config.policy.Some?
  {
    if EntityPath(d.tree, "/boot").Some? then WrapLvm(d)
    else if !d.config.policy.value.ensureXBootldr then Step(d, Some(NoBootAllowed))
    else
      match AddBoot(d, fstype)
      case Err(f) => Step(d, Some(f))
      case Ok(d') => WrapLvm(d')
  }

  // ---------- Btrfs ----------

  /** Read-only unless "rw" overrides "ro". */
  predicate ReadOnly(options: string) {
    var opts := Split(options, ',');
    "ro" in opts && "rw" !in opts
  }

  function RootPartitionType(t: TableType, arch: Arch): Option<string> {
    match t
    case NoType => None
    case Dos => Some("83")
    case Gpt =>
      match arch
      case X86_64 => Some("4F68BCE3-E8CD-4DB1-96E7-FBCAF984B709")
      case Aarch64 => Some("B921B045-1DF0-41C3-AF44-4C6F280D3FAE")
      case Ppc64le => Some("C31C45E6-3F39-412E-80FB-4809C4980599")
      case S390x => Some("5EEAD9A9-FE09-4A1E-A1D7-520D00531306")
      case _ => None
  }

  function RootBtrfs(fs: Entity, size: nat): Entity
    requires fs.kind.Filesystem?
  {
    Entity(Btrfs, 0, [Entity(Subvolume("root", "/", ReadOnly(fs.kind.options)), size, [])])
  }

  function BtrfsPayload(d: Disk): Entity
    requires Ready(d) && RootParent(d).kind.Partition?
  {
    var part := d.tree.children[RootSlot(d)];
    RootBtrfs(part.children[0], part.size)
  }

  function WrapBtrfs(d: Disk, arch: Arch): Step
    requires Ready(d)
  {
    var parent := RootParent(d);
    if parent.kind.Btrfs? then Step(d, None)
    else if !parent.kind.Partition? then Step(d, Some(UnsupportedParent))
    else
      match RootPartitionType(d.config.tableType, arch)
      case Some(ptype) => Step(Rewrapped(d, BtrfsPayload(d), ptype), None)
      case None => Step(Rewrapped(d, BtrfsPayload(d), ""), Some(NoPartitionType))
  }

  function EnsureBtrfs(d: Disk, fstype: string, arch: Arch): Step
    requires Ready(d) && d.config.policy.Some?
  {
    if EntityPath(d.tree, "/boot").None? && d.config.policy.value.ensureXBootldr then
      match AddBoot(d, fstype)
      case Err(f) => Step(d, Some(f))
      case Ok(d') => WrapBtrfs(d', arch)
    else WrapBtrfs(d, arch)
  }

  // ---------- what wrapping keeps ----------

  lemma AddBootKeeps(d: Disk, fstype: string)
    requires Ready(d) && "/boot" !in MountSet(d.tree) && AddBoot(d, fstype).Ok?
    ensures var d' := AddBoot(d, fstype).value;
            && Keeps(d, d')
            && MountSet(d'.tree) == MountSet(d.tree) + multiset{"/boot"}
            && d'.tree.size == d.tree.size
            && |d'.tree.children| == |d.tree.children| + 1 && SamePartitions(d, d')
  {
    var d' := AddBoot(d, fstype).value;
    CreateMountpointAppends(d.config, d.tree, "/boot", fstype, GIB);
    ReadyHasRoot(d);
    AppendKeeps(d, [], d'.tree, "/boot");
    var n := |d.tree.children|;
    assert d'.tree.children[n] == MountpointPartition(d.config.tableType, "/boot", fstype, GIB);
  }

  /** A payload may replace the root filesystem when it is sound and gives "/" the old room. */
  predicate GoodPayload(payload: Entity, size: nat) {
    && payload.kind.Payload() && WellTyped(payload) && Fits(payload) && NamesDistinct(payload)
    && MountSet(payload) == multiset{"/"} && Room(payload, "/", size, 0)
  }

  lemma SameRoomInside(v: Entity, m: string, s: nat, size: nat, outer: nat)
    requires GoodPayload(v, size) && (m == "/" ==> s <= size) && !v.kind.Sizeable() && !v.kind.Mountable()
    requires forall i :: 0 <= i < |v.children| ==> v.children[i].kind.Sizeable()
    ensures Room(v, m, s, outer)
  {
    if m == "/" {
      forall i | 0 <= i < |v.children| ensures Room(v.children[i], m, s, outer) {
        SmallerRoom(v.children[i], m, s, size, 0, outer);
      }
    } else {
      RoomIfAbsent(v, m, s, outer);
    }
  }

  lemma {:induction false} SmallerRoom(e: Entity, m: string, s: nat, s': nat, outer: nat, outer': nat)
    requires Room(e, m, s', outer) && s <= s' && (outer <= outer' || e.kind.Sizeable())
    ensures Room(e, m, s, outer')
  {
    if !e.kind.Mountable() {
      var here := if e.kind.Sizeable() then e.size else outer;
      var here' := if e.kind.Sizeable() then e.size else outer';
      forall i | 0 <= i < |e.children| ensures Room(e.children[i], m, s, here') {
        SmallerRoom(e.children[i], m, s, s', here, here');
      }
    }
  }

  lemma RewrappedKeeps(d: Disk, payload: Entity, ptype: string)
    requires Ready(d) && RootParent(d).kind.Partition? && GoodPayload(payload, RootParent(d).size)
    requires !payload.kind.Sizeable() && !payload.kind.Mountable()
    requires forall i :: 0 <= i < |payload.children| ==> payload.children[i].kind.Sizeable()
    ensures Keeps(d, Rewrapped(d, payload, ptype)) && Ready(Rewrapped(d, payload, ptype))
    ensures MountSet(Rewrapped(d, payload, ptype).tree) == MountSet(d.tree)
  {
    var d' := Rewrapped(d, payload, ptype);
    var i := RootSlot(d);
    var part, part' := d.tree.children[i], d'.tree.children[i];
    OnlyChildMounts(part');
    OnlyChildMounts(part);
    MountSetsUpdate(d.tree.children, i, part');
    CancelSame(MountSets(d'.tree.children), MountSet(part), MountSets(d.tree.children));
    forall m | m in MountSet(d.tree) ensures RoomKept(d.tree, d'.tree, m) {
      RewrappedRoom(d, payload, ptype, m);
    }
    assert forall j :: 0 <= j < |d.tree.children| ==> d'.tree.children[j] == if j == i then part' else d.tree.children[j];
    ChildTyped(d.tree, i);
    assert WellTyped(part');
    RewrappedInside(d, payload, ptype);
    assert ValidDisk(d');
  }

  lemma OnlyChildMounts(e: Entity)
    requires |e.children| == 1 && !e.kind.Mountable()
    ensures MountSet(e) == MountSet(e.children[0])
  {
    assert e.children[1..] == [];
    assert MountSets(e.children) == MountSet(e.children[0]) + MountSets([]);
  }

  lemma CancelSame(whole': multiset<string>, part: multiset<string>, whole: multiset<string>)
    requires whole' + part == whole + part
    ensures whole' == whole
  {
    forall m: string ensures whole'[m] == whole[m] {
      assert (whole' + part)[m] == (whole + part)[m];
    }
  }

  lemma RewrappedInside(d: Disk, payload: Entity, ptype: string)
    requires Ready(d) && RootParent(d).kind.Partition? && GoodPayload(payload, RootParent(d).size)
    ensures var d' := Rewrapped(d, payload, ptype);
            && (InnerFits(d.tree) ==> InnerFits(d'.tree))
            && (NamesDistinct(d.tree) ==> NamesDistinct(d'.tree))
            && (AllPositive(d.tree) ==> AllPositive(d'.tree))
  {
    var d' := Rewrapped(d, payload, ptype);
    var i := RootSlot(d);
    var part' := d'.tree.children[i];
    OnlyChildMounts(part');
    assert forall j :: 0 <= j < |d.tree.children| && j != i ==> d'.tree.children[j] == d.tree.children[j];
    assert NamesDistinct(part');
  }

  lemma RewrappedRoom(d: Disk, payload: Entity, ptype: string, m: string)
    requires Ready(d) && RootParent(d).kind.Partition? && GoodPayload(payload, RootParent(d).size)
    requires !payload.kind.Sizeable() && !payload.kind.Mountable()
    requires forall i :: 0 <= i < |payload.children| ==> payload.children[i].kind.Sizeable()
    ensures RoomKept(d.tree, Rewrapped(d, payload, ptype).tree, m)
  {
    var d' := Rewrapped(d, payload, ptype);
    var i := RootSlot(d);
    var part := d.tree.children[i];
    forall s: nat | Room(d.tree, m, s, 0) ensures Room(d'.tree, m, s, 0) {
      assert Room(part, m, s, d.tree.size);
      assert Room(part.children[0], m, s, part.size);
      forall j | 0 <= j < |d'.tree.children| ensures Room(d'.tree.children[j], m, s, d'.tree.size) {
        if j == i {
          SameRoomInside(payload, m, s, part.size, 0);
        } else {
          assert Room(d.tree.children[j], m, s, d.tree.size);
        }
      }
    }
  }

  lemma VolumeGroupGood(fs: Entity, size: nat)
    requires fs.kind.Filesystem? && fs.kind.mountpoint == "/" && fs.children == []
    ensures GoodPayload(RootVolumeGroup(fs, size), size)
  {
    var vg := RootVolumeGroup(fs, size);
    var lv := vg.children[0];
    assert Content(fs) == SumNeeds([]);
    assert NamesDistinct(fs);
    HolderFits(lv.kind, lv.size, fs);
    assert vg.children[1..] == [];
    assert MountSets(vg.children) == MountSet(lv) + MountSets([]);
    assert Room(lv, "/", size, 0);
  }

  lemma BtrfsGood(fs: Entity, size: nat)
    requires fs.kind.Filesystem?
    ensures GoodPayload(RootBtrfs(fs, size), size)
  {
    var volume := RootBtrfs(fs, size);
    var sub := volume.children[0];
    assert Content(sub) == SumNeeds([]);
    assert volume.children[1..] == [];
    assert MountSets(volume.children) == MountSet(sub) + MountSets([]);
  }

  lemma RootFilesystemLeaf(d: Disk)
    requires Ready(d) && RootParent(d).kind.Partition?
    ensures var fs := d.tree.children[RootSlot(d)].children[0]; fs.kind.mountpoint == "/" && fs.children == []
  {
    var i := RootSlot(d);
    ChildTyped(d.tree, i);
    ChildTyped(d.tree.children[i], 0);
    ChildrenShape(d.tree.children[i].children[0]);
  }

  /** Only the root partition is replaced: it has the new payload and type, and size 0. */
  predicate SlotReplaced(d: Disk, d': Disk, payload: Entity, ptype: string)
    requires Ready(d) && RootParent(d).kind.Partition?
  {
    var i, n := RootSlot(d), |d.tree.children|;
    && n <= |d'.tree.children|
    && d'.tree.children[i] == Entity(Partition(d.tree.children[i].kind.start, ptype), 0, [payload])
    && forall j :: 0 <= j < n && j != i ==> d'.tree.children[j] == d.tree.children[j]
  }

  predicate SamePartitions(d: Disk, d': Disk) {
    d.tree.children <= d'.tree.children
  }

  /** A partition after "/" was moved to LVM: a group with one volume, which holds what the partition
      held and has the partition's old size rounded up to a whole extent of 4 MiB. */
  predicate OnVolume(t: TableType, part: Entity, part': Entity) {
    && part.kind.Partition?
    && part'.kind == Partition(part.kind.start,
                               if t == Gpt then "E6D6D379-F507-44C2-A23C-238F2A3DF928" else "8e")
    && part'.size == 0
    && |part'.children| == 1
    && var vg := part'.children[0];
       && vg.kind == VolumeGroup("rootvg")
       && |vg.children| == 1
       && vg.children[0].kind == LogicalVolume("rootlv")
       && vg.children[0].children == part.children
       && vg.children[0].size % 4194304 == 0
       && part.size <= vg.children[0].size < part.size + 4194304
  }

  /** A partition after "/" was moved to Btrfs: a volume with one subvolume of the partition's old
      size, read-only when the filesystem's options were. */
  predicate OnSubvolume(t: TableType, arch: Arch, part: Entity, part': Entity) {
    && part.kind.Partition? && |part.children| == 1 && part.children[0].kind.Filesystem?
    && part'.kind.Partition? && part'.kind.start == part.kind.start
    && (t == Dos ==> part'.kind.ptype == "83")
    && (t == Gpt && arch == X86_64 ==> part'.kind.ptype == "4F68BCE3-E8CD-4DB1-96E7-FBCAF984B709")
    && (t == Gpt && arch == Aarch64 ==> part'.kind.ptype == "B921B045-1DF0-41C3-AF44-4C6F280D3FAE")
    && (t == Gpt && arch == Ppc64le ==> part'.kind.ptype == "C31C45E6-3F39-412E-80FB-4809C4980599")
    && (t == Gpt && arch == S390x ==> part'.kind.ptype == "5EEAD9A9-FE09-4A1E-A1D7-520D00531306")
    && part'.size == 0
    && |part'.children| == 1
    && part'.children[0].kind == Btrfs
    && part'.children[0].children ==
       [Entity(Subvolume("root", "/", ReadOnly(part.children[0].kind.options)), part.size, [])]
  }

  /** Only the partition of "/" is replaced, and every other one stays as it is. */
  predicate RootMovedToVolume(d: Disk, d': Disk)
    requires Ready(d)
  {
    var ps, qs := d.tree.children, d'.tree.children;
    exists i | 0 <= i < |ps| ::
      && |ps| <= |qs| && HoldsRoot(ps[i]) && OnVolume(d.config.tableType, ps[i], qs[i])
      && forall j :: 0 <= j < |ps| && j != i ==> qs[j] == ps[j]
  }

  predicate RootMovedToSubvolume(d: Disk, d': Disk, arch: Arch)
    requires Ready(d)
  {
    var ps, qs := d.tree.children, d'.tree.children;
    exists i | 0 <= i < |ps| ::
      && |ps| <= |qs| && HoldsRoot(ps[i]) && OnSubvolume(d.config.tableType, arch, ps[i], qs[i])
      && forall j :: 0 <= j < |ps| && j != i ==> qs[j] == ps[j]
  }

  /** When "/boot" was missing, its partition of a GiB comes last. */
  predicate BootIsLast(d: Disk, d': Disk, fstype: string) {
    var ptype := if d.config.tableType == Gpt then "BC13C2FF-59E6-4262-A352-B275FD6F7172" else "";
    && |d'.tree.children| == |d.tree.children| + 1
    && d'.tree.children[|d.tree.children|] ==
       Entity(Partition(0, ptype), 1073741824, [Entity(Filesystem(fstype, "/boot", "", "defaults"), 0, [])])
  }

  lemma ReplacedOnVolume(d: Disk, d': Disk, ptype: string)
    requires Ready(d) && RootParent(d).kind.Partition? && SlotReplaced(d, d', LvmPayload(d), ptype)
    requires ptype == if d.config.tableType.Gpt? then LVM_GUID else LVM_DOS_ID
    ensures RootMovedToVolume(d, d')
  {
    var i := RootSlot(d);
    OnlyChildPath(d.tree.children[i], "/", []);
    assert OnVolume(d.config.tableType, d.tree.children[i], d'.tree.children[i]);
  }

  lemma ReplacedOnSubvolume(d: Disk, d': Disk, arch: Arch)
    requires Ready(d) && RootParent(d).kind.Partition? && RootPartitionType(d.config.tableType, arch).Some?
    requires SlotReplaced(d, d', BtrfsPayload(d), RootPartitionType(d.config.tableType, arch).value)
    ensures RootMovedToSubvolume(d, d', arch)
  {
    var i := RootSlot(d);
    OnlyChildPath(d.tree.children[i], "/", []);
    assert OnSubvolume(d.config.tableType, arch, d.tree.children[i], d'.tree.children[i]);
  }

  /** Main result: moving "/" to LVM keeps every mountpoint with its room, adds at most "/boot"
      as one more partition, and touches only the root partition, whose old size the new logical
      volume carries rounded up to an extent. */
  lemma EnsureLvmCorrect(d: Disk, fstype: string)
    requires Ready(d) && d.config.policy.Some? && EnsureLvm(d, fstype).failure.None?
    ensures var d' := EnsureLvm(d, fstype).disk;
            var addBoot := "/boot" !in MountSet(d.tree);
            && Keeps(d, d') && Ready(d')
            && MountSet(d'.tree) == MountSet(d.tree) + (if addBoot then multiset{"/boot"} else multiset{})
            && |d'.tree.children| == |d.tree.children| + (if addBoot then 1 else 0)
            && (addBoot ==> BootIsLast(d, d', fstype))
            && (if RootParent(d).kind.LogicalVolume? then SamePartitions(d, d')
                else RootParent(d).kind.Partition? && RootMovedToVolume(d, d'))
  {
    var ptype := if d.config.tableType.Gpt? then LVM_GUID else LVM_DOS_ID;
    FoundIffMounted(d.tree, "/boot");
    if "/boot" in MountSet(d.tree) {
      WrapLvmCorrect(d);
      if RootParent(d).kind.Partition? { ReplacedOnVolume(d, WrapLvm(d).disk, ptype); }
    } else {
      var d1 := AddBoot(d, fstype).value;
      AddBootKeeps(d, fstype);
      SameRootPath(d, d1);
      WrapLvmCorrect(d1);
      KeepsTransitive(d, d1, WrapLvm(d1).disk);
      if RootParent(d).kind.Partition? {
        ReplacedAfterBoot(d, d1, WrapLvm(d1).disk, LvmPayload(d1), ptype);
        ReplacedOnVolume(d, WrapLvm(d1).disk, ptype);
      }
    }
  }

  lemma ReplacedAfterBoot(d: Disk, d1: Disk, d': Disk, payload: Entity, ptype: string)
    requires Ready(d) && Ready(d1) && RootParent(d).kind.Partition? && RootParent(d1) == RootParent(d)
    requires RootPath(d1) == RootPath(d) && SlotReplaced(d1, d', payload, ptype) && SamePartitions(d, d1)
    ensures SlotReplaced(d, d', payload, ptype) && LvmPayload(d1) == LvmPayload(d) && BtrfsPayload(d1) == BtrfsPayload(d)
  {
    assert RootSlot(d) == RootPath(d)[0] && RootSlot(d1) == RootPath(d1)[0];
    assert forall j :: 0 <= j < |d.tree.children| ==> d1.tree.children[j] == d.tree.children[j];
  }

  lemma WrapLvmCorrect(d: Disk)
    requires Ready(d) && WrapLvm(d).failure.None?
    ensures var d' := WrapLvm(d).disk;
            && Keeps(d, d') && Ready(d') && MountSet(d'.tree) == MountSet(d.tree)
            && |d'.tree.children| == |d.tree.children|
            && (if RootParent(d).kind.LogicalVolume? then d' == d
                else RootParent(d).kind.Partition? && SlotReplaced(d, d', LvmPayload(d), if d.config.tableType.Gpt? then LVM_GUID else LVM_DOS_ID))
  {
    KeepsReflexive(d);
    if RootParent(d).kind.Partition? {
      var part := d.tree.children[RootSlot(d)];
      RootFilesystemLeaf(d);
      VolumeGroupGood(part.children[0], part.size);
      RewrappedKeeps(d, LvmPayload(d), if d.config.tableType.Gpt? then LVM_GUID else LVM_DOS_ID);
    }
  }

  /** The same for Btrfs; "/boot" is added only when the policy asks for it. */
  lemma EnsureBtrfsCorrect(d: Disk, fstype: string, arch: Arch)
    requires Ready(d) && d.config.policy.Some? && EnsureBtrfs(d, fstype, arch).failure.None?
    ensures var d' := EnsureBtrfs(d, fstype, arch).disk;
            var addBoot := "/boot" !in MountSet(d.tree) && d.config.policy.value.ensureXBootldr;
            && Keeps(d, d') && Ready(d')
            && MountSet(d'.tree) == MountSet(d.tree) + (if addBoot then multiset{"/boot"} else multiset{})
            && |d'.tree.children| == |d.tree.children| + (if addBoot then 1 else 0)
            && (addBoot ==> BootIsLast(d, d', fstype))
            && (if RootParent(d).kind.Btrfs? then SamePartitions(d, d')
                else RootParent(d).kind.Partition? && RootMovedToSubvolume(d, d', arch))
  {
    FoundIffMounted(d.tree, "/boot");
    if "/boot" in MountSet(d.tree) || !d.config.policy.value.ensureXBootldr {
      WrapBtrfsCorrect(d, arch);
      if RootParent(d).kind.Partition? { ReplacedOnSubvolume(d, WrapBtrfs(d, arch).disk, arch); }
    } else {
      var d1 := AddBoot(d, fstype).value;
      AddBootKeeps(d, fstype);
      SameRootPath(d, d1);
      WrapBtrfsCorrect(d1, arch);
      KeepsTransitive(d, d1, WrapBtrfs(d1, arch).disk);
      if RootParent(d).kind.Partition? {
        SubvolumeAfterBoot(d, d1, WrapBtrfs(d1, arch).disk, arch);
      }
    }
  }

  lemma SubvolumeAfterBoot(d: Disk, d1: Disk, d': Disk, arch: Arch)
    requires Ready(d) && Ready(d1) && RootParent(d).kind.Partition? && RootParent(d1) == RootParent(d)
    requires RootPath(d1) == RootPath(d) && SamePartitions(d, d1)
    requires RootPartitionType(d.config.tableType, arch).Some?
    requires SlotReplaced(d1, d', BtrfsPayload(d1), RootPartitionType(d.config.tableType, arch).value)
    ensures RootMovedToSubvolume(d, d', arch)
  {
    ReplacedAfterBoot(d, d1, d', BtrfsPayload(d1), RootPartitionType(d.config.tableType, arch).value);
    ReplacedOnSubvolume(d, d', arch);
  }

  lemma WrapBtrfsCorrect(d: Disk, arch: Arch)
    requires Ready(d) && WrapBtrfs(d, arch).failure.None?
    ensures var d' := WrapBtrfs(d, arch).disk;
            && Keeps(d, d') && Ready(d') && MountSet(d'.tree) == MountSet(d.tree)
            && |d'.tree.children| == |d.tree.children|
            && (if RootParent(d).kind.Btrfs? then d' == d
                else RootParent(d).kind.Partition? && RootPartitionType(d.config.tableType, arch).Some?
                     && SlotReplaced(d, d', BtrfsPayload(d), RootPartitionType(d.config.tableType, arch).value))
  {
    KeepsReflexive(d);
    if RootParent(d).kind.Partition? {
      var part := d.tree.children[RootSlot(d)];
      BtrfsGood(part.children[0], part.size);
      RewrappedKeeps(d, BtrfsPayload(d), RootPartitionType(d.config.tableType, arch).value);
    }
  }

  // ---------- when the steps fail ----------

  predicate BootMissing(d: Disk) {
    "/boot" !in MountSet(d.tree)
  }

  /** Moving "/" to LVM fails when "/boot" is missing and either the policy forbids it or the table
      is full, and when "/" lies on something else than a partition or a logical volume. */
  lemma EnsureLvmFails(d: Disk, fstype: string)
    requires Ready(d) && d.config.policy.Some?
    ensures EnsureLvm(d, fstype).failure ==
            if BootMissing(d) && !d.config.policy.value.ensureXBootldr then Some(NoBootAllowed)
            else if BootMissing(d) && |d.tree.children| == (if d.config.tableType == Gpt then 128 else 4) then Some(TooManyPartitions)
            else if RootParent(d).kind.Partition? || RootParent(d).kind.LogicalVolume? then None
            else Some(UnsupportedParent)
  {
    FoundIffMounted(d.tree, "/boot");
    if BootMissing(d) && AddBoot(d, fstype).Ok? {
      AddBootKeeps(d, fstype);
      SameRootPath(d, AddBoot(d, fstype).value);
    }
  }

  lemma RootTypeKnown(t: TableType, arch: Arch)
    ensures RootPartitionType(t, arch).None? <==>
            t == NoType || (t == Gpt && arch !in {X86_64, Aarch64, Ppc64le, S390x})
  {
  }

  lemma WrapBtrfsFails(d: Disk, arch: Arch)
    requires Ready(d)
    ensures WrapBtrfs(d, arch).failure ==
            if RootParent(d).kind.Btrfs? then None
            else if !RootParent(d).kind.Partition? then Some(UnsupportedParent)
            else if RootPartitionType(d.config.tableType, arch).None? then Some(NoPartitionType)
            else None
  {
  }

  /** Moving "/" to Btrfs fails when a "/boot" that the policy asks for does not find room in the
      table, when "/" lies on something else than a partition or a Btrfs volume, and when there is no
      type for a root partition: none without a kind of table, and on GPT only four architectures. */
  lemma EnsureBtrfsFails(d: Disk, fstype: string, arch: Arch)
    requires Ready(d) && d.config.policy.Some?
    ensures EnsureBtrfs(d, fstype, arch).failure ==
            if BootMissing(d) && d.config.policy.value.ensureXBootldr
               && |d.tree.children| == (if d.config.tableType == Gpt then 128 else 4) then Some(TooManyPartitions)
            else if RootParent(d).kind.Btrfs? then None
            else if !RootParent(d).kind.Partition? then Some(UnsupportedParent)
            else if d.config.tableType == NoType
                    || (d.config.tableType == Gpt && arch !in {X86_64, Aarch64, Ppc64le, S390x}) then Some(NoPartitionType)
            else None
  {
    FoundIffMounted(d.tree, "/boot");
    RootTypeKnown(d.config.tableType, arch);
    WrapBtrfsFails(d, arch);
    if BootMissing(d) && AddBoot(d, fstype).Ok? {
      AddBootKeeps(d, fstype);
      SameRootPath(d, AddBoot(d, fstype).value);
      WrapBtrfsFails(AddBoot(d, fstype).value, arch);
    }
  }

  /** Of a list of options "ro" counts when "rw" is not among them. */
  lemma ReadOnlyIff(options: seq<string>)
    requires options != [] && forall i :: 0 <= i < |options| ==> ',' !in options[i]
    ensures ReadOnly(Join(options, ',')) <==> "ro" in options && "rw" !in options
  {
    SplitJoin(options, ',');
  }

  // ---------- where "/" is afterwards ----------

  /** The search finds the same child first when nothing before that child changes. */
  lemma {:induction false} ChildPathThrough(e: Entity, e': Entity, i: nat, target: string, p: Path, q: Path)
    requires i <= |e.children| && ChildPath(e, i, target) == Some(p) && p != []
    requires i <= p[0] < |e'.children| && p[0] < |e.children|
    requires forall j :: i <= j < p[0] ==> e'.children[j] == e.children[j]
    requires EntityPath(e'.children[p[0]], target) == Some(q)
    ensures ChildPath(e', i, target) == Some([p[0]] + q)
    decreases p[0] - i
  {
    if i < p[0] {
      assert EntityPath(e.children[i], target).None?;
      ChildPathThrough(e, e', i + 1, target, p, q);
    }
  }

  lemma {:induction false} ChildPathBounds(e: Entity, i: nat, target: string)
    requires i <= |e.children| && ChildPath(e, i, target).Some?
    ensures var p := ChildPath(e, i, target).value;
            p != [] && i <= p[0] < |e.children| && EntityPath(e.children[p[0]], target) == Some(p[1..])
    decreases |e.children| - i
  {
    if EntityPath(e.children[i], target).None? { ChildPathBounds(e, i + 1, target); }
  }

  lemma SameRootPath(d: Disk, d': Disk)
    requires Ready(d) && Ready(d') && SamePartitions(d, d')
    ensures RootPath(d') == RootPath(d) && RootParent(d') == RootParent(d)
  {
    var p := RootPath(d);
    ChildPathBounds(d.tree, 0, "/");
    ChildPathThrough(d.tree, d'.tree, 0, "/", p, p[1..]);
    assert [p[0]] + p[1..] == p;
  }

  lemma OnlyChildPath(e: Entity, target: string, q: Path)
    requires e.kind.Container() && |e.children| == 1 && EntityPath(e.children[0], target) == Some(q)
    ensures EntityPath(e, target) == Some([0] + q)
  {
  }

  lemma RewrappedRootPath(d: Disk, payload: Entity, ptype: string, q: Path)
    requires Ready(d) && RootParent(d).kind.Partition? && Ready(Rewrapped(d, payload, ptype))
    requires EntityPath(payload, "/") == Some(q)
    ensures RootPath(Rewrapped(d, payload, ptype)) == [RootSlot(d), 0] + q
  {
    var d' := Rewrapped(d, payload, ptype);
    var i := RootSlot(d);
    OnlyChildPath(d'.tree.children[i], "/", q);
    ChildPathThrough(d.tree, d'.tree, 0, "/", RootPath(d), [0] + q);
    assert [i] + ([0] + q) == [i, 0] + q;
  }

  /** Applied a second time, the step changes nothing. */
  lemma EnsureLvmTwice(d: Disk, fstype: string, fstype': string)
    requires Ready(d) && d.config.policy.Some? && EnsureLvm(d, fstype).failure.None?
    ensures var d' := EnsureLvm(d, fstype).disk;
            Ready(d') && d'.config.policy.Some? && EnsureLvm(d', fstype') == Step(d', None)
  {
    var d' := EnsureLvm(d, fstype).disk;
    EnsureLvmCorrect(d, fstype);
    FoundIffMounted(d'.tree, "/boot");
    FoundIffMounted(d.tree, "/boot");
    if EntityPath(d.tree, "/boot").Some? {
      WrappedInLvm(d);
    } else {
      WrappedInLvm(AddBoot(d, fstype).value);
    }
  }

  lemma WrappedInLvm(d: Disk)
    requires Ready(d) && WrapLvm(d).failure.None? && Ready(WrapLvm(d).disk)
    ensures RootParent(WrapLvm(d).disk).kind.LogicalVolume?
  {
    if RootParent(d).kind.Partition? {
      var d' := WrapLvm(d).disk;
      var i, vg := RootSlot(d), LvmPayload(d);
      OnlyChildPath(vg.children[0], "/", []);
      OnlyChildPath(vg, "/", [0] + []);
      assert [0] + ([0] + []) == [0, 0];
      RewrappedRootPath(d, vg, if d.config.tableType.Gpt? then LVM_GUID else LVM_DOS_ID, [0, 0]);
      assert RootPath(d')[..3] == [i, 0, 0];
      assert [i, 0, 0][1..] == [0, 0] && [0, 0][1..] == [0] && [0][1..] == [];
      assert At(d'.tree, [i, 0, 0]) == At(d'.tree.children[i], [0, 0]);
      assert At(d'.tree.children[i], [0, 0]) == At(vg, [0]);
      assert At(vg, [0]) == At(vg.children[0], []);
    }
  }

  lemma EnsureBtrfsTwice(d: Disk, fstype: string, fstype': string, arch: Arch, arch': Arch)
    requires Ready(d) && d.config.policy.Some? && EnsureBtrfs(d, fstype, arch).failure.None?
    ensures var d' := EnsureBtrfs(d, fstype, arch).disk;
            Ready(d') && d'.config.policy.Some? && EnsureBtrfs(d', fstype', arch') == Step(d', None)
  {
    var d' := EnsureBtrfs(d, fstype, arch).disk;
    EnsureBtrfsCorrect(d, fstype, arch);
    FoundIffMounted(d'.tree, "/boot");
    FoundIffMounted(d.tree, "/boot");
    if EntityPath(d.tree, "/boot").None? && d.config.policy.value.ensureXBootldr {
      WrappedInBtrfs(AddBoot(d, fstype).value, arch);
    } else {
      WrappedInBtrfs(d, arch);
    }
  }

  lemma WrappedInBtrfs(d: Disk, arch: Arch)
    requires Ready(d) && WrapBtrfs(d, arch).failure.None? && Ready(WrapBtrfs(d, arch).disk)
    ensures RootParent(WrapBtrfs(d, arch).disk).kind.Btrfs?
  {
    if RootParent(d).kind.Partition? {
      var d' := WrapBtrfs(d, arch).disk;
      var i, volume := RootSlot(d), BtrfsPayload(d);
      OnlyChildPath(volume, "/", []);
      assert [0] + [] == [0];
      RewrappedRootPath(d, volume, RootPartitionType(d.config.tableType, arch).value, [0]);
      assert RootPath(d')[..2] == [i, 0];
      assert [i, 0][1..] == [0] && [0][1..] == [];
      assert At(d'.tree, [i, 0]) == At(d'.tree.children[i], [0]);
      assert At(d'.tree.children[i], [0]) == At(volume, []);
    }
  }
}
