/** On what and as what mountpoints are mounted, from the base table to the finished one. */
module MountWays {
  import opened Basics
  import opened Entities
  import opened Resize
  import opened Mounts
  import opened DirectorySizes
  import opened Layout
  import opened LayoutSpace
  import opened Volumes
  import opened Growth
  import opened Creation
  import opened ExactSizes
  import opened Wrapping
  import opened Customization
  import opened Clone
  import opened NewTable

  datatype Place = OnPartition | OnLuks | OnVolume | OnBtrfs | Elsewhere

  function PlaceOf(k: Kind): Place {
    if k.Partition? then OnPartition
    else if k.Luks? then OnLuks
    else if k.LogicalVolume? then OnVolume
    else if k.Btrfs? then OnBtrfs
    else Elsewhere
  }

  /** What holds a mounted entity, and what the entity is. */
  datatype Way = Way(place: Place, kind: Kind)

  predicate Mounted(k: Kind, m: string) {
    k.Mountable() && k.mountpoint == m
  }

  /** Whatever is mounted at `m` is mounted in one of the ways. */
  predicate MountedAs(e: Entity, m: string, ways: set<Way>) {
    forall i :: 0 <= i < |e.children| ==>
      && (Mounted(e.children[i].kind, m) ==> Way(PlaceOf(e.kind), e.children[i].kind) in ways)
      && MountedAs(e.children[i], m, ways)
  }

  // ---------- the predicate ----------

  lemma {:induction false} AsAbsent(e: Entity, m: string, ways: set<Way>)
    requires WellTyped(e) && m !in MountSet(e)
    ensures MountedAs(e, m, ways)
  {
    ChildrenShape(e);
    forall i | 0 <= i < |e.children|
      ensures !Mounted(e.children[i].kind, m) && MountedAs(e.children[i], m, ways)
    {
      ChildTyped(e, i);
      MountSetsMember(e.children, i, m);
      AsAbsent(e.children[i], m, ways);
    }
  }

  /** The only entity mounted at `m` says how `m` is mounted. */
  lemma {:induction false} AsUnique(e: Entity, p: Path, m: string)
    requires WellTyped(e) && MountSet(e)[m] == 1 && p != [] && MountedAt(e, p, m)
    ensures ValidPath(e, p[..|p| - 1])
    ensures MountedAs(e, m, {Way(PlaceOf(At(e, p[..|p| - 1]).kind), At(e, p).kind)})
    decreases p
  {
    ChildrenShape(e);
    ParentAt(e, p);
    var ways := {Way(PlaceOf(At(e, p[..|p| - 1]).kind), At(e, p).kind)};
    MountedInSet(e.children[p[0]], p[1..], m);
    MountSetsMember(e.children, p[0], m);
    forall i | 0 <= i < |e.children|
      ensures Mounted(e.children[i].kind, m) ==> Way(PlaceOf(e.kind), e.children[i].kind) in ways
      ensures MountedAs(e.children[i], m, ways)
    {
      ChildTyped(e, i);
      if i != p[0] {
        MountSetsTwo(e.children, i, p[0], m);
        AsAbsent(e.children[i], m, ways);
      } else if |p| == 1 {
        ChildrenShape(e.children[i]);
      } else {
        ChildrenShape(e.children[i]);
        AsUnique(e.children[i], p[1..], m);
      }
    }
  }

  /** The holder of an entity, seen from the root and from its child. */
  lemma ParentAt(e: Entity, p: Path)
    requires ValidPath(e, p) && p != []
    ensures ValidPath(e, p[..|p| - 1])
    ensures |p| == 1 ==> At(e, p[..|p| - 1]) == e && At(e, p) == e.children[p[0]]
    ensures 1 < |p| ==> p[1..] != [] && p[..|p| - 1][1..] == p[1..][..|p[1..]| - 1]
    ensures 1 < |p| ==> ValidPath(e.children[p[0]], p[1..][..|p[1..]| - 1])
                        && At(e, p[..|p| - 1]) == At(e.children[p[0]], p[1..][..|p[1..]| - 1])
  {
    PrefixValid(e, p[..|p| - 1], p);
    if |p| == 1 {
      assert p[..|p| - 1] == [] && p[1..] == [];
    } else {
      assert p[..|p| - 1][1..] == p[1..][..|p[1..]| - 1];
    }
  }

  lemma {:induction false} AsOnPath(e: Entity, p: Path, m: string, ways: set<Way>)
    requires MountedAs(e, m, ways) && p != [] && MountedAt(e, p, m)
    ensures ValidPath(e, p[..|p| - 1])
    ensures Way(PlaceOf(At(e, p[..|p| - 1]).kind), At(e, p).kind) in ways
    decreases p
  {
    ParentAt(e, p);
    if 1 < |p| { AsOnPath(e.children[p[0]], p[1..], m, ways); }
  }

  lemma {:induction false} AsAt(e: Entity, p: Path, m: string, ways: set<Way>)
    requires ValidPath(e, p) && MountedAs(e, m, ways)
    ensures MountedAs(At(e, p), m, ways)
    decreases p
  {
    if p != [] { AsAt(e.children[p[0]], p[1..], m, ways); }
  }

  lemma {:induction false} AsGrown(e: Entity, e': Entity, m: string, ways: set<Way>)
    requires Grown(e, e') && MountedAs(e, m, ways)
    ensures MountedAs(e', m, ways)
  {
    forall i | 0 <= i < |e'.children| ensures MountedAs(e'.children[i], m, ways) {
      AsGrown(e.children[i], e'.children[i], m, ways);
    }
    assert forall i :: 0 <= i < |e.children| ==> Grown(e.children[i], e'.children[i]);
  }

  /** The ways after a copy, which forgets that subvolumes are read-only. */
  function Copies(ways: set<Way>): set<Way> {
    set w | w in ways :: Way(w.place, if w.kind.Subvolume? then w.kind.(readOnly := false) else w.kind)
  }

  lemma {:induction false} AsCopied(e: Entity, m: string, ways: set<Way>)
    requires CloneSafe(e) && MountedAs(e, m, ways)
    ensures MountedAs(CloneOf(e), m, Copies(ways))
  {
    var c := CloneOf(e);
    forall i | 0 <= i < |c.children|
      ensures Mounted(c.children[i].kind, m) ==> Way(PlaceOf(c.kind), c.children[i].kind) in Copies(ways)
      ensures MountedAs(c.children[i], m, Copies(ways))
    {
      AsCopied(e.children[i], m, ways);
      if Mounted(c.children[i].kind, m) {
        assert Mounted(e.children[i].kind, m);
        assert Way(PlaceOf(e.kind), e.children[i].kind) in ways;
      }
    }
  }

  lemma {:induction false} AsUpdated(e: Entity, p: Path, n: Entity, m: string, ways: set<Way>)
    requires ValidPath(e, p) && n.kind == At(e, p).kind && MountedAs(e, m, ways) && MountedAs(n, m, ways)
    ensures UpdateAt(e, p, n).kind == e.kind && MountedAs(UpdateAt(e, p, n), m, ways)
    decreases p
  {
    if p != [] { AsUpdated(e.children[p[0]], p[1..], n, m, ways); }
  }

  // ---------- creating and enlarging ----------

  lemma AsAppended(e: Entity, n': Entity, m: string, ways: set<Way>, x: string)
    requires Appended(e, n', x) && MountedAs(e, m, ways)
    requires var child := n'.children[|e.children|];
             && (Mounted(child.kind, m) ==> Way(PlaceOf(e.kind), child.kind) in ways)
             && MountedAs(child, m, ways)
    ensures MountedAs(n', m, ways)
  {
    assert forall i :: 0 <= i < |e.children| ==> n'.children[i] == n'.children[..|e.children|][i];
  }

  /** How a new mountpoint is mounted, by the container that gets it. */
  function NewWay(place: Place, m: string, fstype: string): Way {
    if place.OnBtrfs? then Way(OnBtrfs, Subvolume(if m == "/" then "root" else m, m, false))
    else Way(place, Filesystem(fstype, m, "", "defaults"))
  }

  /** Where a container mounts what it creates. */
  function PlaceIn(creator: Kind): Place {
    if creator.Table? then OnPartition else if creator.VolumeGroup? then OnVolume else OnBtrfs
  }

  lemma MadeAs(c: Config, e: Entity, m: string, fstype: string, size: nat, x: string, ways: set<Way>)
    requires WellTyped(e) && e.kind.MountpointCreator() && CreateMountpoint(c, e, m, fstype, size).Ok?
    requires MountedAs(e, x, ways) && (x == m ==> NewWay(PlaceIn(e.kind), m, fstype) in ways)
    ensures MountedAs(CreateMountpoint(c, e, m, fstype, size).value, x, ways)
  {
    CreateMountpointAppends(c, e, m, fstype, size);
    var n' := CreateMountpoint(c, e, m, fstype, size).value;
    AsAppended(e, n', x, ways, m);
  }

  lemma CreatedAs(d: Disk, m: string, fstype: string, size: nat, x: string, ways: set<Way>)
    requires Ready(d) && CreateFilesystem(d, m, fstype, size).Ok? && MountedAs(d.tree, x, ways)
    requires x == m ==> NewWay(PlaceIn(At(d.tree, Creator(d)).kind), m, fstype) in ways
    ensures MountedAs(CreateFilesystem(d, m, fstype, size).value.tree, x, ways)
  {
    var cp := Creator(d);
    var n' := CreateMountpoint(d.config, At(d.tree, cp), m, fstype, 0).value;
    var tree, p := UpdateAt(d.tree, cp, n'), cp + [|n'.children| - 1];
    AsAt(d.tree, cp, x, ways);
    TypedAt(d.tree, cp);
    MadeAs(d.config, At(d.tree, cp), m, fstype, 0, x, ways);
    CreateMountpointAppends(d.config, At(d.tree, cp), m, fstype, 0);
    AsUpdated(d.tree, cp, n', x, ways);
    NewChildAt(d.tree, cp, n');
    var wanted := AlignBranch(d.config, tree, p, size);
    ResizeGrows(tree, p, wanted);
    AsGrown(tree, ResizeBranch(tree, p, wanted).entity, x, ways);
  }

  lemma {:induction false} TypedAt(e: Entity, p: Path)
    requires WellTyped(e) && ValidPath(e, p)
    ensures WellTyped(At(e, p))
    decreases p
  {
    if p != [] { TypedAt(e.children[p[0]], p[1..]); }
  }

  lemma EnlargedAs(d: Disk, m: Mount, x: string, ways: set<Way>)
    requires Ready(d) && EntityPath(d.tree, m.mountpoint).Some? && MountedAs(d.tree, x, ways)
    ensures MountedAs(Enlarge(d, m).tree, x, ways)
  {
    EntityPathMounted(d.tree, m.mountpoint);
    var p := EntityPath(d.tree, m.mountpoint).value;
    var size := AlignBranch(d.config, d.tree, p, m.Size());
    ResizeGrows(d.tree, p, size);
    AsGrown(d.tree, ResizeBranch(d.tree, p, size).entity, x, ways);
  }

  /** The container for new mountpoints, by what the root filesystem lies on. */
  lemma CreatorOfRoot(d: Disk, place: Place, kind: Kind)
    requires Ready(d) && MountedAs(d.tree, "/", {Way(place, kind)}) && place in {OnPartition, OnVolume, OnBtrfs}
    ensures PlaceIn(At(d.tree, Creator(d)).kind) == place
  {
    ReadyHasRoot(d);
    var p, cp := EntityPath(d.tree, "/").value, Creator(d);
    AsOnPath(d.tree, p, "/", {Way(place, kind)});
    var q := p[..|p| - 1];
    assert cp == p[..|cp|];
    assert At(d.tree, p).kind.Mountable() && p[..|p|] == p;
    assert |cp| <= |q|;
    match place {
      case OnBtrfs => assert |q| <= |cp|;
      case OnVolume => CreatorOfVolume(d, p, cp);
      case OnPartition =>
        PartitionsAreOnTop(d.tree, q);
        assert cp != [] ==> cp == q;
      case _ =>
    }
  }

  lemma CreatorOfVolume(d: Disk, p: Path, cp: Path)
    requires Ready(d) && EntityPath(d.tree, "/") == Some(p) && cp == Creator(d) && 0 < |p| && |cp| < |p|
    requires ValidPath(d.tree, p[..|p| - 1])
    requires At(d.tree, p[..|p| - 1]).kind.LogicalVolume?
    ensures At(d.tree, cp).kind.VolumeGroup?
  {
    var q := p[..|p| - 1];
    assert q != [];
    HolderOf(d.tree, q);
    var h := q[..|q| - 1];
    assert h <= p && At(d.tree, h).kind.VolumeGroup?;
    assert |h| <= |cp|;
    assert cp == p[..|cp|];
    assert |cp| == |q| ==> cp == q;
    assert |cp| == |h| ==> cp == h;
  }

  /** A logical volume lies in a volume group, and no other kind of entity but a group holds one. */
  lemma {:induction false} HolderOf(e: Entity, q: Path)
    requires WellTyped(e) && ValidPath(e, q) && q != []
    ensures ValidPath(e, q[..|q| - 1]) && At(e, q[..|q| - 1]).kind.Admits(At(e, q).kind)
    decreases q
  {
    ParentAt(e, q);
    ChildTyped(e, q[0]);
    if 1 < |q| { HolderOf(e.children[q[0]], q[1..]); }
  }

  // ---------- customizations ----------

  lemma OneAppliedAs(d: Disk, m: Mount, fstype: string, create: bool, x: string, ways: set<Way>)
    requires Ready(d) && ApplyOne(d, m, fstype, create).Ok? && MountedAs(d.tree, x, ways)
    requires create && m.mountpoint == x ==> x in MountSet(d.tree)
    ensures MountedAs(ApplyOne(d, m, fstype, create).value.tree, x, ways)
  {
    FoundIffMounted(d.tree, m.mountpoint);
    if EntityPath(d.tree, m.mountpoint).Some? {
      EnlargedAs(d, m, x, ways);
    } else if create {
      CreatedAs(d, m.mountpoint, fstype, m.Size(), x, ways);
    }
  }

  lemma OneCounted(d: Disk, m: Mount, fstype: string, create: bool, x: string)
    requires Ready(d) && ApplyOne(d, m, fstype, create).Ok?
    ensures x in MountSet(d.tree) ==> x in MountSet(ApplyOne(d, m, fstype, create).value.tree)
    ensures x !in MountSet(d.tree) ==>
              (x in MountSet(ApplyOne(d, m, fstype, create).value.tree) <==> create && m.mountpoint == x)
  {
    ApplyOneCorrect(d, m, fstype, create);
    assert [m][0].mountpoint == m.mountpoint;
    assert Requested([m], x) <==> m.mountpoint == x;
    assert MountSet(ApplyOne(d, m, fstype, create).value.tree)[x] == Count(MountSet(d.tree), [m], create, x);
  }

  /** How a mountpoint is mounted does not change unless it is made. */
  lemma {:induction false} AppliedAs(d: Disk, ms: seq<Mount>, fstype: string, create: bool, x: string, ways: set<Way>)
    requires Ready(d) && Apply(d, ms, fstype, create).Ok? && MountedAs(d.tree, x, ways)
    requires create && Requested(ms, x) ==> x in MountSet(d.tree)
    ensures MountedAs(Apply(d, ms, fstype, create).value.disk.tree, x, ways)
    decreases |ms|
  {
    if ms != [] {
      RequestedSplit(ms, x);
      assert [ms[0]][0].mountpoint == ms[0].mountpoint;
      OneAppliedAs(d, ms[0], fstype, create, x, ways);
      OneCounted(d, ms[0], fstype, create, x);
      AppliedAs(ApplyOne(d, ms[0], fstype, create).value, ms[1..], fstype, create, x, ways);
    }
  }

  lemma OneNewAs(d: Disk, m: Mount, fstype: string, place: Place, kind: Kind)
    requires Ready(d) && ApplyOne(d, m, fstype, true).Ok? && m.mountpoint !in MountSet(d.tree)
    requires MountedAs(d.tree, "/", {Way(place, kind)}) && place in {OnPartition, OnVolume, OnBtrfs}
    ensures MountedAs(ApplyOne(d, m, fstype, true).value.tree, m.mountpoint, {NewWay(place, m.mountpoint, fstype)})
  {
    FoundIffMounted(d.tree, m.mountpoint);
    AsAbsent(d.tree, m.mountpoint, {NewWay(place, m.mountpoint, fstype)});
    CreatorOfRoot(d, place, kind);
    CreatedAs(d, m.mountpoint, fstype, m.Size(), m.mountpoint, {NewWay(place, m.mountpoint, fstype)});
  }

  /** A mountpoint that a customization makes lies where "/" lies. */
  lemma {:induction false} AppliedNewAs(d: Disk, ms: seq<Mount>, fstype: string, x: string, place: Place, kind: Kind)
    requires Ready(d) && Apply(d, ms, fstype, true).Ok? && x !in MountSet(d.tree)
    requires MountedAs(d.tree, "/", {Way(place, kind)}) && place in {OnPartition, OnVolume, OnBtrfs}
    ensures MountedAs(Apply(d, ms, fstype, true).value.disk.tree, x, {NewWay(place, x, fstype)})
    decreases |ms|
  {
    if ms == [] {
      AsAbsent(d.tree, x, {NewWay(place, x, fstype)});
    } else {
      var d1 := ApplyOne(d, ms[0], fstype, true).value;
      OneCounted(d, ms[0], fstype, true, x);
      if ms[0].mountpoint == x {
        OneNewAs(d, ms[0], fstype, place, kind);
        AppliedAs(d1, ms[1..], fstype, true, x, {NewWay(place, x, fstype)});
      } else {
        OneAppliedAs(d, ms[0], fstype, true, "/", {Way(place, kind)});
        AppliedNewAs(d1, ms[1..], fstype, x, place, kind);
      }
    }
  }

  // ---------- moving "/" ----------

  lemma BootAs(d: Disk, fstype: string, x: string, ways: set<Way>)
    requires Ready(d) && AddBoot(d, fstype).Ok? && MountedAs(d.tree, x, ways)
    requires x == "/boot" ==> Way(OnPartition, Filesystem(fstype, "/boot", "", "defaults")) in ways
    ensures MountedAs(AddBoot(d, fstype).value.tree, x, ways)
  {
    MadeAs(d.config, d.tree, "/boot", fstype, GIB, x, ways);
  }

  lemma RewrappedAs(d: Disk, payload: Entity, ptype: string, x: string, ways: set<Way>)
    requires Ready(d) && RootParent(d).kind.Partition? && !payload.kind.Mountable() && MountedAs(payload, x, ways)
    requires var i := RootSlot(d);
             forall j :: 0 <= j < |d.tree.children| && j != i ==> MountedAs(d.tree.children[j], x, ways)
    ensures MountedAs(Rewrapped(d, payload, ptype).tree, x, ways)
  {
  }

  lemma OtherPartitionsWithoutRoot(d: Disk, i: nat, ways: set<Way>)
    requires Ready(d) && RootParent(d).kind.Partition? && MountSet(d.tree)["/"] == 1
    requires i < |d.tree.children| && i != RootSlot(d)
    ensures MountedAs(d.tree.children[i], "/", ways)
  {
    var k := RootSlot(d);
    ChildTyped(d.tree, i);
    ChildTyped(d.tree, k);
    assert MountedAt(d.tree.children[k], RootPath(d)[1..], "/");
    MountedInSet(d.tree.children[k], RootPath(d)[1..], "/");
    MountSetsTwo(d.tree.children, i, k, "/");
    AsAbsent(d.tree.children[i], "/", ways);
  }

  lemma LvmMovedAs(d: Disk, x: string, ways: set<Way>)
    requires Ready(d) && WrapLvm(d).failure.None? && x != "/" && MountedAs(d.tree, x, ways)
    ensures MountedAs(WrapLvm(d).disk.tree, x, ways)
  {
    if RootParent(d).kind.Partition? {
      RootFilesystemLeaf(d);
      VolumeGroupGood(d.tree.children[RootSlot(d)].children[0], d.tree.children[RootSlot(d)].size);
      AsAbsent(LvmPayload(d), x, ways);
      RewrappedAs(d, LvmPayload(d), if d.config.tableType.Gpt? then LVM_GUID else LVM_DOS_ID, x, ways);
    }
  }

  lemma BtrfsMovedAs(d: Disk, arch: Arch, x: string, ways: set<Way>)
    requires Ready(d) && WrapBtrfs(d, arch).failure.None? && x != "/" && MountedAs(d.tree, x, ways)
    ensures MountedAs(WrapBtrfs(d, arch).disk.tree, x, ways)
  {
    if RootParent(d).kind.Partition? {
      BtrfsGood(d.tree.children[RootSlot(d)].children[0], d.tree.children[RootSlot(d)].size);
      AsAbsent(BtrfsPayload(d), x, ways);
      RewrappedAs(d, BtrfsPayload(d), RootPartitionType(d.config.tableType, arch).value, x, ways);
    }
  }

  /** How "/" is mounted when it is mounted once. */
  lemma RootMountedAs(d: Disk, place: Place, kind: Kind)
    requires Ready(d) && MountedAs(d.tree, "/", {Way(place, kind)})
    ensures place == PlaceOf(RootParent(d).kind) && kind == At(d.tree, RootPath(d)).kind
  {
    AsOnPath(d.tree, RootPath(d), "/", {Way(place, kind)});
  }

  lemma LvmRootAs(d: Disk, place: Place, kind: Kind)
    requires Ready(d) && WrapLvm(d).failure.None? && MountSet(d.tree)["/"] == 1
    requires MountedAs(d.tree, "/", {Way(place, kind)})
    ensures place in {OnPartition, OnVolume} && MountedAs(WrapLvm(d).disk.tree, "/", {Way(OnVolume, kind)})
  {
    RootMountedAs(d, place, kind);
    if RootParent(d).kind.Partition? {
      RootFilesystemLeaf(d);
      forall j | 0 <= j < |d.tree.children| && j != RootSlot(d)
        ensures MountedAs(d.tree.children[j], "/", {Way(OnVolume, kind)})
      {
        OtherPartitionsWithoutRoot(d, j, {Way(OnVolume, kind)});
      }
      var lv := LvmPayload(d).children[0];
      assert MountedAs(lv.children[0], "/", {Way(OnVolume, kind)});
      assert MountedAs(lv, "/", {Way(OnVolume, kind)});
      RewrappedAs(d, LvmPayload(d), if d.config.tableType.Gpt? then LVM_GUID else LVM_DOS_ID, "/", {Way(OnVolume, kind)});
    }
  }

  /** How "/" is mounted after it was moved to Btrfs. */
  function RootOnBtrfs(place: Place, kind: Kind): Way {
    Way(OnBtrfs, if place == OnPartition && kind.Filesystem? then Subvolume("root", "/", ReadOnly(kind.options)) else kind)
  }

  lemma BtrfsRootAs(d: Disk, arch: Arch, place: Place, kind: Kind)
    requires Ready(d) && WrapBtrfs(d, arch).failure.None? && MountSet(d.tree)["/"] == 1
    requires MountedAs(d.tree, "/", {Way(place, kind)})
    ensures place in {OnPartition, OnBtrfs} && MountedAs(WrapBtrfs(d, arch).disk.tree, "/", {RootOnBtrfs(place, kind)})
  {
    RootMountedAs(d, place, kind);
    if RootParent(d).kind.Partition? {
      var way := RootOnBtrfs(place, kind);
      forall j | 0 <= j < |d.tree.children| && j != RootSlot(d)
        ensures MountedAs(d.tree.children[j], "/", {way})
      {
        OtherPartitionsWithoutRoot(d, j, {way});
      }
      assert MountedAs(BtrfsPayload(d).children[0], "/", {way});
      RewrappedAs(d, BtrfsPayload(d), RootPartitionType(d.config.tableType, arch).value, "/", {way});
    }
  }

  // ---------- the finished table ----------

  predicate Missing(base: Disk, o: Options) {
    exists i :: 0 <= i < |o.mounts| && o.mounts[i].mountpoint !in MountSet(base.tree)
  }

  predicate GoesToLvm(base: Disk, o: Options) {
    o.mode == Lvm || ((o.mode == Default || o.mode == AutoLvm) && Missing(base, o))
  }

  /** The type of new filesystems: Btrfs in Btrfs mode, otherwise the default one or XFS. */
  function NewFs(o: Options): string {
    if o.mode == BtrfsMode then "btrfs" else if o.defaultFs == "" then "xfs" else o.defaultFs
  }

  lemma RelayoutAs(d: Disk, size: nat, d': Disk, x: string, ways: set<Way>)
    requires CanLayOut(d) && Relayout(d, size, d') && MountedAs(d.tree, x, ways)
    ensures MountedAs(d'.tree, x, ways)
  {
    forall i | 0 <= i < |d'.tree.children|
      ensures !Mounted(d'.tree.children[i].kind, x) && MountedAs(d'.tree.children[i], x, ways)
    {
      var k := RelayoutOrigin(d, size, d', i);
      MovedAs(d.tree.children[k], d'.tree.children[i], x, ways);
    }
  }

  lemma MovedAs(p: Entity, p': Entity, x: string, ways: set<Way>)
    requires Moved(p, p') && MountedAs(p, x, ways)
    ensures MountedAs(p', x, ways)
  {
  }

  lemma FinishedAs(base: Disk, o: Options, d': Disk, x: string, ways: set<Way>)
    requires Ready(base) && CloneSafe(base.tree) && AbsoluteDirectories(o) && Makes(base, o, Ok(d'))
    requires MountedAs(Created(base, o).value.tree, x, ways)
    ensures MountedAs(d'.tree, x, ways)
  {
    var c, d := Created(base, o).value, Prepare(base, o).value;
    RootedAllFound(c, DirectoryMap(o));
    AsGrown(c.tree, EnsureDirectories(c.tree, DirectoryMap(o)), x, ways);
    ReadyCanLayOut(d);
    RelayoutAs(d, o.imageSize, d', x, ways);
  }

  lemma EnsureLvmAs(d: Disk, fstype: string, x: string, ways: set<Way>)
    requires Ready(d) && d.config.policy.Some? && EnsureLvm(d, fstype).failure.None?
    requires MountedAs(d.tree, x, ways) && x != "/"
    requires x == "/boot" && x !in MountSet(d.tree) ==> Way(OnPartition, Filesystem(fstype, "/boot", "", "defaults")) in ways
    ensures MountedAs(EnsureLvm(d, fstype).disk.tree, x, ways)
  {
    FoundIffMounted(d.tree, "/boot");
    if "/boot" in MountSet(d.tree) {
      LvmMovedAs(d, x, ways);
    } else {
      BootAs(d, fstype, x, ways);
      LvmMovedAs(AddBoot(d, fstype).value, x, ways);
    }
  }

  lemma EnsureBtrfsAs(d: Disk, fstype: string, arch: Arch, x: string, ways: set<Way>)
    requires Ready(d) && d.config.policy.Some? && EnsureBtrfs(d, fstype, arch).failure.None?
    requires MountedAs(d.tree, x, ways) && x != "/"
    requires x == "/boot" && x !in MountSet(d.tree) ==> Way(OnPartition, Filesystem(fstype, "/boot", "", "defaults")) in ways
    ensures MountedAs(EnsureBtrfs(d, fstype, arch).disk.tree, x, ways)
  {
    FoundIffMounted(d.tree, "/boot");
    if "/boot" in MountSet(d.tree) || !d.config.policy.value.ensureXBootldr {
      BtrfsMovedAs(d, arch, x, ways);
    } else {
      BootAs(d, fstype, x, ways);
      BtrfsMovedAs(AddBoot(d, fstype).value, arch, x, ways);
    }
  }

  /** Which step the mode makes between the two passes. */
  lemma WhatWraps(base: Disk, o: Options)
    requires Ready(base) && CloneSafe(base.tree) && Wrapped(base, o).failure.None?
    ensures var d := Enlarged(base, o).disk;
            && d.config.policy.Some?
            && Wrapped(base, o) == if GoesToLvm(base, o) then EnsureLvm(d, NewFs(o))
                                   else if o.mode == BtrfsMode then EnsureBtrfs(d, NewFs(o), o.arch)
                                   else Step(d, None)
  {
    LeftoverRequested(base, o, "/");
  }

  lemma WrappedAs(base: Disk, o: Options, x: string, ways: set<Way>)
    requires Ready(base) && CloneSafe(base.tree) && Wrapped(base, o).failure.None?
    requires MountedAs(Enlarged(base, o).disk.tree, x, ways) && (x == "/" ==> !GoesToLvm(base, o) && o.mode != BtrfsMode)
    requires x == "/boot" && x !in MountSet(base.tree) ==> Way(OnPartition, Filesystem(NewFs(o), "/boot", "", "defaults")) in ways
    ensures MountedAs(Wrapped(base, o).disk.tree, x, ways)
  {
    var d := Enlarged(base, o).disk;
    EnlargedFacts(base, o);
    WhatWraps(base, o);
    if GoesToLvm(base, o) {
      EnsureLvmAs(d, NewFs(o), x, ways);
    } else if o.mode == BtrfsMode {
      EnsureBtrfsAs(d, NewFs(o), o.arch, x, ways);
    }
  }

  lemma EnlargedKeepsAs(base: Disk, o: Options, x: string, ways: set<Way>)
    requires Ready(base) && CloneSafe(base.tree) && MountedAs(base.tree, x, ways)
    ensures MountedAs(Enlarged(base, o).disk.tree, x, Copies(ways))
  {
    AsCopied(base.tree, x, ways);
    ApplyLeftover(Copied(base), o.mounts, FirstFs(o));
    AppliedAs(Copied(base), o.mounts, FirstFs(o), false, x, Copies(ways));
  }

  /** Main result: the mountpoints of the base stay mounted on what they were mounted on and as what
      they were, except that subvolumes become writable and that "/" may be moved. */
  lemma TableKeepsWays(base: Disk, o: Options, d': Disk, x: string, ways: set<Way>)
    requires Ready(base) && CloneSafe(base.tree) && AbsoluteDirectories(o) && Makes(base, o, Ok(d'))
    requires x in MountSet(base.tree) && MountedAs(base.tree, x, ways)
    requires x == "/" ==> !GoesToLvm(base, o) && o.mode != BtrfsMode
    ensures MountedAs(d'.tree, x, Copies(ways))
  {
    var first, s := Enlarged(base, o), Wrapped(base, o).disk;
    EnlargedKeepsAs(base, o, x, ways);
    EnlargedFacts(base, o);
    WrappedAs(base, o, x, Copies(ways));
    WrappedCount(base, o, x);
    AppliedAs(s, first.leftover, SecondFs(o), true, x, Copies(ways));
    FinishedAs(base, o, d', x, Copies(ways));
  }

  lemma EnsureLvmRootAs(d: Disk, fstype: string, place: Place, kind: Kind)
    requires Ready(d) && d.config.policy.Some? && EnsureLvm(d, fstype).failure.None?
    requires MountSet(d.tree)["/"] == 1 && MountedAs(d.tree, "/", {Way(place, kind)})
    ensures place in {OnPartition, OnVolume} && MountedAs(EnsureLvm(d, fstype).disk.tree, "/", {Way(OnVolume, kind)})
  {
    FoundIffMounted(d.tree, "/boot");
    if "/boot" in MountSet(d.tree) {
      LvmRootAs(d, place, kind);
    } else {
      BootAs(d, fstype, "/", {Way(place, kind)});
      AddBootKeeps(d, fstype);
      LvmRootAs(AddBoot(d, fstype).value, place, kind);
    }
  }

  lemma EnsureBtrfsRootAs(d: Disk, fstype: string, arch: Arch, place: Place, kind: Kind)
    requires Ready(d) && d.config.policy.Some? && EnsureBtrfs(d, fstype, arch).failure.None?
    requires MountSet(d.tree)["/"] == 1 && MountedAs(d.tree, "/", {Way(place, kind)})
    ensures place in {OnPartition, OnBtrfs}
    ensures MountedAs(EnsureBtrfs(d, fstype, arch).disk.tree, "/", {RootOnBtrfs(place, kind)})
  {
    FoundIffMounted(d.tree, "/boot");
    if "/boot" in MountSet(d.tree) || !d.config.policy.value.ensureXBootldr {
      BtrfsRootAs(d, arch, place, kind);
    } else {
      BootAs(d, fstype, "/", {Way(place, kind)});
      AddBootKeeps(d, fstype);
      BtrfsRootAs(AddBoot(d, fstype).value, arch, place, kind);
    }
  }

  /** How "/" is mounted in the finished table, by how the base mounts it. */
  function FinalRoot(base: Disk, o: Options, place: Place, kind: Kind): Way {
    var copied := if kind.Subvolume? then kind.(readOnly := false) else kind;
    if GoesToLvm(base, o) then Way(OnVolume, copied)
    else if o.mode == BtrfsMode then
      Way(OnBtrfs, if place == OnPartition && kind.Filesystem? then Subvolume("root", "/", ReadOnly(kind.options)) else copied)
    else Way(place, copied)
  }

  lemma WrappedRootAs(base: Disk, o: Options, place: Place, kind: Kind)
    requires Ready(base) && CloneSafe(base.tree) && Wrapped(base, o).failure.None?
    requires MountSet(base.tree)["/"] == 1 && MountedAs(Enlarged(base, o).disk.tree, "/", {Way(place, kind)})
    ensures var way := if GoesToLvm(base, o) then Way(OnVolume, kind)
                       else if o.mode == BtrfsMode then RootOnBtrfs(place, kind) else Way(place, kind);
            MountedAs(Wrapped(base, o).disk.tree, "/", {way})
  {
    var d := Enlarged(base, o).disk;
    EnlargedFacts(base, o);
    WhatWraps(base, o);
    if GoesToLvm(base, o) {
      EnsureLvmRootAs(d, NewFs(o), place, kind);
    } else if o.mode == BtrfsMode {
      EnsureBtrfsRootAs(d, NewFs(o), o.arch, place, kind);
    }
  }

  lemma RootWrappedAs(base: Disk, o: Options, place: Place, kind: Kind)
    requires Ready(base) && CloneSafe(base.tree) && Wrapped(base, o).failure.None?
    requires MountSet(base.tree)["/"] == 1 && MountedAs(base.tree, "/", {Way(place, kind)})
    ensures MountedAs(Wrapped(base, o).disk.tree, "/", {FinalRoot(base, o, place, kind)})
  {
    EnlargedKeepsAs(base, o, "/", {Way(place, kind)});
    CopyOfOne(place, kind);
    WrappedRootAs(base, o, place, if kind.Subvolume? then kind.(readOnly := false) else kind);
  }

  lemma CopyOfOne(place: Place, kind: Kind)
    ensures Copies({Way(place, kind)}) == {Way(place, if kind.Subvolume? then kind.(readOnly := false) else kind)}
  {
  }

  /** Main result: in LVM mode, or when mountpoints are missing and LVM is chosen by need, "/" ends on
      a logical volume with its filesystem; in Btrfs mode on a subvolume; otherwise where it was. */
  lemma TableRootWay(base: Disk, o: Options, d': Disk, place: Place, kind: Kind)
    requires Ready(base) && CloneSafe(base.tree) && AbsoluteDirectories(o) && Makes(base, o, Ok(d'))
    requires MountSet(base.tree)["/"] == 1 && MountedAs(base.tree, "/", {Way(place, kind)})
    ensures MountedAs(d'.tree, "/", {FinalRoot(base, o, place, kind)})
  {
    var first, s := Enlarged(base, o), Wrapped(base, o).disk;
    RootWrappedAs(base, o, place, kind);
    EnlargedFacts(base, o);
    LeftoverRequested(base, o, "/");
    AppliedAs(s, first.leftover, SecondFs(o), true, "/", {FinalRoot(base, o, place, kind)});
    FinishedAs(base, o, d', "/", {FinalRoot(base, o, place, kind)});
  }

  /** Main result: a requested mountpoint that the base does not have lies where "/" lies, with the
      chosen type of filesystem; "/boot", when it is made for booting, lies on a partition. */
  lemma TableNewWays(base: Disk, o: Options, d': Disk, x: string, place: Place, kind: Kind)
    requires Ready(base) && CloneSafe(base.tree) && AbsoluteDirectories(o) && Makes(base, o, Ok(d'))
    requires MountSet(base.tree)["/"] == 1 && MountedAs(base.tree, "/", {Way(place, kind)}) && x !in MountSet(base.tree)
    requires FinalRoot(base, o, place, kind).place in {OnPartition, OnVolume, OnBtrfs}
    ensures MountedAs(d'.tree, x, {if x == "/boot" && BootMade(base, o) then Way(OnPartition, Filesystem(NewFs(o), "/boot", "", "defaults"))
                                   else NewWay(FinalRoot(base, o, place, kind).place, x, NewFs(o))})
  {
    var first, s := Enlarged(base, o), Wrapped(base, o).disk;
    var root := FinalRoot(base, o, place, kind);
    EnlargedFacts(base, o);
    WrappedCount(base, o, x);
    LeftoverRequested(base, o, x);
    if x == "/boot" && BootMade(base, o) {
      var way := Way(OnPartition, Filesystem(NewFs(o), "/boot", "", "defaults"));
      AsAbsent(first.disk.tree, x, {way});
      WrappedAs(base, o, x, {way});
      AppliedAs(s, first.leftover, SecondFs(o), true, x, {way});
      FinishedAs(base, o, d', x, {way});
    } else {
      RootWrappedAs(base, o, place, kind);
      AppliedNewAs(s, first.leftover, NewFs(o), x, root.place, root.kind);
      FinishedAs(base, o, d', x, {NewWay(root.place, x, NewFs(o))});
    }
  }

  // ---------- refusals ----------

  ghost predicate HasLvm(e: Entity) {
    exists p: Path :: ValidPath(e, p) && (At(e, p).kind.VolumeGroup? || At(e, p).kind.LogicalVolume?)
  }

  lemma UsesLvmSomewhere(e: Entity)
    ensures UsesLvm(e) <==> HasLvm(e)
  {
    if UsesLvm(e) {
      LvmPathExists(e);
    }
    if p: Path :| ValidPath(e, p) && (At(e, p).kind.VolumeGroup? || At(e, p).kind.LogicalVolume?) {
      LvmOnPath(e, p);
    }
  }

  lemma {:induction false} LvmPathExists(e: Entity)
    requires UsesLvm(e)
    ensures HasLvm(e)
  {
    if e.kind.VolumeGroup? || e.kind.LogicalVolume? {
      assert ValidPath(e, []) && At(e, []) == e;
    } else {
      var i :| 0 <= i < |e.children| && UsesLvm(e.children[i]);
      LvmPathExists(e.children[i]);
      var c := e.children[i];
      var p: Path :| ValidPath(c, p) && (At(c, p).kind.VolumeGroup? || At(c, p).kind.LogicalVolume?);
      assert ([i] + p)[1..] == p;
      assert ValidPath(e, [i] + p) && At(e, [i] + p) == At(e.children[i], p);
    }
  }

  lemma {:induction false} LvmOnPath(e: Entity, p: Path)
    requires ValidPath(e, p) && (At(e, p).kind.VolumeGroup? || At(e, p).kind.LogicalVolume?)
    ensures UsesLvm(e)
    decreases p
  {
    if p != [] { LvmOnPath(e.children[p[0]], p[1..]); }
  }

  /** A base with LVM anywhere is refused in raw and Btrfs mode, and any base in an unknown mode. */
  lemma ModeRefused(base: Disk, o: Options)
    requires Ready(base) && CloneSafe(base.tree) && AbsoluteDirectories(o)
    ensures HasLvm(base.tree) && (o.mode.Raw? || o.mode.BtrfsMode?) ==> Prepare(base, o) == Err(LvmWithOtherMode)
    ensures o.mode == OtherMode ==> Prepare(base, o) == Err(UnsupportedMode)
  {
    UsesLvmSomewhere(base.tree);
  }

  /** Without sizes asked for, "/" has to hold a GiB and "/usr" 2 GiB. */
  lemma DefaultDirectories(o: Options)
    requires o.requiredSizes.None?
    ensures DirectoryMap(o).Keys == {"/", "/usr"}
    ensures DirectoryMap(o)["/"] == 1073741824 && DirectoryMap(o)["/usr"] == 2147483648
  {
  }
}
