/** Making the partition table of an image from a base table and customizations. */
module NewTable {
  import opened Basics
  import opened Entities
  import opened Resize
  import opened ResizeOrder
  import opened Mounts
  import opened Directories
  import opened DirectorySizes
  import opened Layout
  import opened LayoutFacts
  import opened LayoutNumbers
  import opened LayoutSpace
  import opened Volumes
  import opened Growth
  import opened Wrapping
  import opened Customization
  import opened Clone

  datatype Mode = Raw | Lvm | BtrfsMode | AutoLvm | Default | OtherMode

  datatype Options = Options(
    mounts: seq<Mount>,
    imageSize: nat,
    mode: Mode,
    arch: Arch,
    requiredSizes: Option<map<string, nat>>,
    defaultFs: string)

  predicate UsesLvm(e: Entity) {
    e.kind.VolumeGroup? || e.kind.LogicalVolume? || exists i :: 0 <= i < |e.children| && UsesLvm(e.children[i])
  }

  function DirectoryMap(o: Options): map<string, nat> {
    match o.requiredSizes
    case Some(sizes) => sizes
    case None => map["/" := GIB, "/usr" := 2 * GIB]
  }

  /** The documented demand: directory sizes are given for absolute paths. */
  predicate AbsoluteDirectories(o: Options) {
    forall d :: d in DirectoryMap(o) ==> Rooted(d)
  }

  function WithPolicy(c: Config): Config {
    if c.policy.Some? then c else c.(policy := Some(Policy(true, None)))
  }

  /** The filesystem type for new mountpoints before and after the mode is looked at. */
  function FirstFs(o: Options): string {
    if o.defaultFs == "" then "xfs" else o.defaultFs
  }

  function SecondFs(o: Options): string {
    if o.mode.BtrfsMode? then "btrfs" else FirstFs(o)
  }

  function Wrap(d: Disk, o: Options, leftover: seq<Mount>): (s: Step)
    requires Ready(d) && d.config.policy.Some?
  {
    match o.mode
    case Lvm => EnsureLvm(d, FirstFs(o))
    case Raw => Step(d, None)
    case Default => if leftover != [] then EnsureLvm(d, FirstFs(o)) else Step(d, None)
    case AutoLvm => if leftover != [] then EnsureLvm(d, FirstFs(o)) else Step(d, None)
    case BtrfsMode => EnsureBtrfs(d, SecondFs(o), o.arch)
    case OtherMode => Step(d, Some(UnsupportedMode))
  }

  lemma WrapReady(d: Disk, o: Options, leftover: seq<Mount>)
    requires Ready(d) && d.config.policy.Some? && Wrap(d, o, leftover).failure.None?
    ensures Keeps(d, Wrap(d, o, leftover).disk) && Ready(Wrap(d, o, leftover).disk)
    ensures forall m :: MountSet(Wrap(d, o, leftover).disk.tree)[m] ==
              MountSet(d.tree)[m] + (if m == "/boot" && AddsBoot(d, o, leftover) then 1 else 0)
  {
    KeepsReflexive(d);
    match o.mode {
      case BtrfsMode => EnsureBtrfsCorrect(d, SecondFs(o), o.arch);
      case Raw =>
      case Lvm => EnsureLvmCorrect(d, FirstFs(o));
      case _ => if leftover != [] { EnsureLvmCorrect(d, FirstFs(o)); }
    }
  }

  /** Whether a "/boot" partition is made for a root on LVM or Btrfs. */
  predicate AddsBoot(d: Disk, o: Options, leftover: seq<Mount>)
    requires d.config.policy.Some?
  {
    && "/boot" !in MountSet(d.tree)
    && (|| o.mode.Lvm?
        || ((o.mode.Default? || o.mode.AutoLvm?) && leftover != [])
        || (o.mode.BtrfsMode? && d.config.policy.value.ensureXBootldr))
  }

  lemma RootedAllFound(d: Disk, sizes: map<string, nat>)
    requires Ready(d) && forall x :: x in sizes ==> Rooted(x)
    ensures AllFound(d.tree, sizes)
  {
    ReadyHasRoot(d);
    forall x | x in sizes ensures FindDirectory(d.tree, x).Some? { RootedFound(d.tree, x); }
  }

  // ---------- the steps ----------

  function Copied(base: Disk): (d: Disk)
    requires Ready(base) && CloneSafe(base.tree)
    ensures Ready(d) && d.config == WithPolicy(base.config)
  {
    CloneKeeps(base);
    Disk(WithPolicy(base.config), CloneOf(base.tree))
  }

  /** First pass: existing mountpoints are enlarged, the missing ones are left over. */
  function Enlarged(base: Disk, o: Options): (a: Applied)
    requires Ready(base) && CloneSafe(base.tree)
    ensures Ready(a.disk) && a.disk.config == WithPolicy(base.config)
  {
    ApplyLeftover(Copied(base), o.mounts, FirstFs(o));
    ApplyCorrect(Copied(base), o.mounts, FirstFs(o), false);
    Apply(Copied(base), o.mounts, FirstFs(o), false).value
  }

  function Wrapped(base: Disk, o: Options): (s: Step)
    requires Ready(base) && CloneSafe(base.tree)
    ensures s.failure.None? ==> Ready(s.disk) && s.disk.config == WithPolicy(base.config)
  {
    var first := Enlarged(base, o);
    var s := Wrap(first.disk, o, first.leftover);
    if s.failure.None? then WrapReady(first.disk, o, first.leftover); s else s
  }

  /** Second pass: the mountpoints left over are created, or enlarged when wrapping made them. */
  function Created(base: Disk, o: Options): (r: Result<Disk, Failure>)
    requires Ready(base) && CloneSafe(base.tree)
    ensures r.Ok? ==> Ready(r.value) && r.value.config == WithPolicy(base.config)
  {
    var s := Wrapped(base, o);
    match s.failure
    case Some(f) => Err(f)
    case None =>
      match Apply(s.disk, Enlarged(base, o).leftover, SecondFs(o), true)
      case Err(f) => Err(f)
      case Ok(a) =>
        ApplyCorrect(s.disk, Enlarged(base, o).leftover, SecondFs(o), true);
        Ok(a.disk)
  }

  /** The table before it is laid out.  None of the panics on the way can be reached. */
  ghost function Prepare(base: Disk, o: Options): (r: Result<Disk, Failure>)
    requires Ready(base) && CloneSafe(base.tree) && AbsoluteDirectories(o)
    ensures r.Ok? ==> Ready(r.value) && r.value.config == WithPolicy(base.config)
  {
    if UsesLvm(base.tree) && (o.mode.Raw? || o.mode.BtrfsMode?) then Err(LvmWithOtherMode)
    else
      match Created(base, o)
      case Err(f) => Err(f)
      case Ok(d) =>
        RootedAllFound(d, DirectoryMap(o));
        EnsureDirectoriesKeeps(d, DirectoryMap(o));
        Ok(Disk(d.config, EnsureDirectories(d.tree, DirectoryMap(o))))
  }

  lemma {:induction false} ResizeAllInnerFits(e: Entity, rs: seq<Request>)
    requires WellTyped(e) && e.kind.Table? && InnerFits(e) && Addressed(e, rs)
    requires forall r :: r in rs ==> At(e, r.path).kind.Target()
    ensures InnerFits(ResizeAll(e, rs))
    decreases rs
  {
    if rs != [] {
      var e1 := ResizeTo(e, rs[0]);
      ResizeInnerFits(e, rs[0].path, rs[0].size);
      StillAddressed(e, e1, rs[1..]);
      forall r | r in rs[1..] ensures At(e1, r.path).kind.Target() {
        GrownAt(e, e1, r.path);
      }
      ResizeAllInnerFits(e1, rs[1..]);
    }
  }

  lemma EnsureDirectoriesKeeps(d: Disk, sizes: map<string, nat>)
    requires Ready(d) && AllFound(d.tree, sizes)
    ensures var d' := Disk(d.config, EnsureDirectories(d.tree, sizes));
            Keeps(d, d') && Ready(d') && MountSet(d'.tree) == MountSet(d.tree)
  {
    if InnerFits(d.tree) {
      var ms := SomeListing(d.tree, sizes);
      var rs := Requests(d.tree, sizes, ms);
      forall r | r in rs ensures At(d.tree, r.path).kind.Target() {
        var m := RequestFor(d.tree, sizes, ms, r);
        EntityPathMounted(d.tree, m);
      }
      ResizeAllInnerFits(d.tree, rs);
    }
    GrownKeeps(d, Disk(d.config, EnsureDirectories(d.tree, sizes)));
  }

  /** `r` is a possible result of making a table. */
  ghost predicate Makes(base: Disk, o: Options, r: Result<Disk, Failure>)
    requires Ready(base) && CloneSafe(base.tree) && AbsoluteDirectories(o)
  {
    match Prepare(base, o)
    case Err(f) => r == Err(f)
    case Ok(d) =>
      ReadyCanLayOut(d);
      r.Ok? && Relayout(d, o.imageSize, r.value)
  }

  // ---------- the root partition ----------

  lemma HoldsRootIff(d: Disk, i: nat)
    requires ValidDisk(d) && i < |d.tree.children|
    ensures HoldsRoot(d.tree.children[i]) <==> "/" in MountSet(d.tree.children[i])
  {
    ChildTyped(d.tree, i);
    FoundIffMounted(d.tree.children[i], "/");
  }

  /** A table with a root filesystem never reaches the layout's panic. */
  lemma ReadyCanLayOut(d: Disk)
    requires Ready(d)
    ensures CanLayOut(d)
  {
    TablePartitions(d);
    ReadyHasRoot(d);
    var p := EntityPath(d.tree, "/").value;
    MountedInSet(d.tree.children[p[0]], p[1..], "/");
    HoldsRootIff(d, p[0]);
  }

  lemma SingleRoot(d: Disk)
    requires Ready(d) && MountSet(d.tree)["/"] == 1
    ensures OneRoot(d.tree.children)
  {
    ReadyHasRoot(d);
    var k := EntityPath(d.tree, "/").value[0];
    MountedInSet(d.tree.children[k], EntityPath(d.tree, "/").value[1..], "/");
    HoldsRootIff(d, k);
    forall i | 0 <= i < |d.tree.children| && i != k ensures !HoldsRoot(d.tree.children[i]) {
      MountSetsTwo(d.tree.children, i, k, "/");
      HoldsRootIff(d, i);
    }
  }

  lemma PositiveOthers(d: Disk)
    requires ValidDisk(d) && AllPositive(d.tree)
    ensures OthersPositive(d.tree.children)
  {
    forall i | 0 <= i < |d.tree.children| && !HoldsRoot(d.tree.children[i])
      ensures 0 < FitTo(d.tree.children[i], d.tree.children[i].size)
    {
      HoldsRootIff(d, i);
      assert Positive(d.tree.children[i]);
    }
  }

  // ---------- directories depend on the mountpoints only ----------

  lemma {:induction false} SameDirectories(e: Entity, e': Entity, dir: string)
    requires WellTyped(e) && WellTyped(e') && MountSet(e) == MountSet(e')
    ensures FindDirectory(e', dir) == FindDirectory(e, dir)
    decreases Measure(dir)
  {
    FoundIffMounted(e, dir);
    FoundIffMounted(e', dir);
    if EntityPath(e, dir).None? && Dir(dir) != dir {
      ParentSmaller(dir);
      SameDirectories(e, e', Dir(dir));
    }
  }

  lemma SameTotals(e: Entity, e': Entity, sizes: map<string, nat>, m: string)
    requires WellTyped(e) && WellTyped(e') && MountSet(e) == MountSet(e')
    ensures Under(e', sizes, m) == Under(e, sizes, m) && Total(e', sizes, m) == Total(e, sizes, m)
  {
    forall x | x in sizes { SameDirectories(e, e', x); }
    assert Under(e', sizes, m) == Under(e, sizes, m);
  }

  // ---------- main results ----------

  /** How often a mountpoint occurs in the result. */
  function FinalCount(base: Disk, o: Options, m: string): nat {
    if m in MountSet(base.tree) then MountSet(base.tree)[m]
    else if Requested(o.mounts, m) || (m == "/boot" && BootMade(base, o)) then 1
    else 0
  }

  predicate BootMade(base: Disk, o: Options) {
    && (|| o.mode.Lvm?
        || ((o.mode.Default? || o.mode.AutoLvm?) && exists i :: 0 <= i < |o.mounts| && o.mounts[i].mountpoint !in MountSet(base.tree))
        || (o.mode.BtrfsMode? && WithPolicy(base.config).policy.value.ensureXBootldr))
  }

  lemma EnlargedFacts(base: Disk, o: Options)
    requires Ready(base) && CloneSafe(base.tree)
    ensures var first := Enlarged(base, o);
            && Keeps(Copied(base), first.disk) && MountSet(first.disk.tree) == MountSet(base.tree)
            && AllRoomy(first.disk.tree, o.mounts)
            && (forall m :: m in first.leftover <==> m in o.mounts && m.mountpoint !in MountSet(base.tree))
  {
    CloneKeeps(base);
    ApplyLeftover(Copied(base), o.mounts, FirstFs(o));
    ApplyCorrect(Copied(base), o.mounts, FirstFs(o), false);
    SameCounts(Enlarged(base, o).disk.tree, base.tree);
  }

  lemma SameCounts(e: Entity, e': Entity)
    requires forall m :: MountSet(e)[m] == MountSet(e')[m]
    ensures MountSet(e) == MountSet(e')
  {
  }

  lemma LeftoverRequested(base: Disk, o: Options, m: string)
    requires Ready(base) && CloneSafe(base.tree)
    ensures Requested(Enlarged(base, o).leftover, m) <==> Requested(o.mounts, m) && m !in MountSet(base.tree)
    ensures Enlarged(base, o).leftover != [] <==>
            exists i :: 0 <= i < |o.mounts| && o.mounts[i].mountpoint !in MountSet(base.tree)
  {
    EnlargedFacts(base, o);
    var left := Enlarged(base, o).leftover;
    if Requested(left, m) {
      var i :| 0 <= i < |left| && left[i].mountpoint == m;
      assert left[i] in left;
    }
    if Requested(o.mounts, m) && m !in MountSet(base.tree) {
      var i :| 0 <= i < |o.mounts| && o.mounts[i].mountpoint == m;
      assert o.mounts[i] in left;
    }
    if left != [] { assert left[0] in left; }
    if exists i :: 0 <= i < |o.mounts| && o.mounts[i].mountpoint !in MountSet(base.tree) {
      var i :| 0 <= i < |o.mounts| && o.mounts[i].mountpoint !in MountSet(base.tree);
      assert o.mounts[i] in left;
    }
  }

  lemma CreatedFacts(base: Disk, o: Options)
    requires Ready(base) && CloneSafe(base.tree) && Created(base, o).Ok?
    ensures var d, first := Created(base, o).value, Enlarged(base, o);
            Keeps(Copied(base), d) && Keeps(first.disk, d) && AllRoomy(d.tree, first.leftover)
  {
    var first, s := Enlarged(base, o), Wrapped(base, o).disk;
    var d := Created(base, o).value;
    EnlargedFacts(base, o);
    WrapReady(first.disk, o, first.leftover);
    ApplyCorrect(s, first.leftover, SecondFs(o), true);
    KeepsTransitive(first.disk, s, d);
    KeepsTransitive(Copied(base), first.disk, d);
  }

  lemma WrappedCount(base: Disk, o: Options, m: string)
    requires Ready(base) && CloneSafe(base.tree) && Wrapped(base, o).failure.None?
    ensures MountSet(Wrapped(base, o).disk.tree)[m] == MountSet(base.tree)[m] +
              (if m == "/boot" && "/boot" !in MountSet(base.tree) && BootMade(base, o) then 1 else 0)
  {
    var first := Enlarged(base, o);
    EnlargedFacts(base, o);
    LeftoverRequested(base, o, m);
    WrapReady(first.disk, o, first.leftover);
  }

  lemma CreatedCount(base: Disk, o: Options, m: string)
    requires Ready(base) && CloneSafe(base.tree) && Created(base, o).Ok?
    ensures MountSet(Created(base, o).value.tree)[m] == FinalCount(base, o, m)
  {
    var first, s := Enlarged(base, o), Wrapped(base, o).disk;
    WrappedCount(base, o, m);
    LeftoverRequested(base, o, m);
    ApplyCorrect(s, first.leftover, SecondFs(o), true);
    assert MountSet(Created(base, o).value.tree)[m] == Count(MountSet(s.tree), first.leftover, true, m);
  }

  lemma CreatedRooms(base: Disk, o: Options)
    requires Ready(base) && CloneSafe(base.tree) && Created(base, o).Ok?
    ensures AllRoomy(Created(base, o).value.tree, o.mounts)
  {
    var d, first := Created(base, o).value, Enlarged(base, o);
    EnlargedFacts(base, o);
    CreatedFacts(base, o);
    forall i | 0 <= i < |o.mounts| && MountSet(d.tree)[o.mounts[i].mountpoint] == 1
      ensures Room(d.tree, o.mounts[i].mountpoint, o.mounts[i].Size(), 0)
    {
      var m := o.mounts[i];
      if m.mountpoint in MountSet(base.tree) {
        CreatedCount(base, o, m.mountpoint);
        assert RoomKept(first.disk.tree, d.tree, m.mountpoint);
      } else {
        assert m in first.leftover;
        var k :| 0 <= k < |first.leftover| && first.leftover[k] == m;
      }
    }
  }

  lemma GrownRoomy(c: Disk, d: Disk, ms: seq<Mount>)
    requires Keeps(c, d) && MountSet(d.tree) == MountSet(c.tree) && AllRoomy(c.tree, ms)
    ensures AllRoomy(d.tree, ms)
  {
    forall i | 0 <= i < |ms| && MountSet(d.tree)[ms[i].mountpoint] == 1
      ensures Room(d.tree, ms[i].mountpoint, ms[i].Size(), 0)
    {
      assert RoomKept(c.tree, d.tree, ms[i].mountpoint);
    }
  }

  /** Every mountpoint that occurs once has room for its directories. */
  ghost predicate DirectoriesRoomy(e: Entity, sizes: map<string, nat>) {
    forall m :: MountSet(e)[m] == 1 && Under(e, sizes, m) != {} ==> Room(e, m, Total(e, sizes, m), 0)
  }

  lemma EnsuredRoomy(c: Disk, sizes: map<string, nat>)
    requires Ready(c) && AllFound(c.tree, sizes)
    ensures DirectoriesRoomy(EnsureDirectories(c.tree, sizes), sizes)
  {
    var e := EnsureDirectories(c.tree, sizes);
    GrownMounts(c.tree, e);
    GrownKeepsShape(c.tree, e);
    forall m | MountSet(e)[m] == 1 && Under(e, sizes, m) != {} ensures Room(e, m, Total(e, sizes, m), 0) {
      SameTotals(c.tree, e, sizes, m);
      var x :| x in Under(c.tree, sizes, m);
      assert FindDirectory(c.tree, x).value == m;
      DirectoriesHaveRoom(c.tree, sizes, m, 0);
    }
  }

  /** What the table has before it is laid out. */
  lemma PreparedFacts(base: Disk, o: Options)
    requires Ready(base) && CloneSafe(base.tree) && AbsoluteDirectories(o) && Prepare(base, o).Ok?
    ensures var d := Prepare(base, o).value;
            && Keeps(Copied(base), d)
            && (forall m :: MountSet(d.tree)[m] == FinalCount(base, o, m))
            && AllRoomy(d.tree, o.mounts)
            && DirectoriesRoomy(d.tree, DirectoryMap(o))
  {
    var c, d := Created(base, o).value, Prepare(base, o).value;
    CreatedFacts(base, o);
    CreatedRooms(base, o);
    RootedAllFound(c, DirectoryMap(o));
    EnsureDirectoriesKeeps(c, DirectoryMap(o));
    forall m ensures MountSet(d.tree)[m] == FinalCount(base, o, m) { CreatedCount(base, o, m); }
    KeepsTransitive(Copied(base), c, d);
    GrownRoomy(c, d, o.mounts);
    EnsuredRoomy(c, DirectoryMap(o));
  }

  /** Main result, mountpoints: a successful table has every mountpoint of the base as often as
      the base has it, each other requested one once, "/boot" once when it was made, and no
      others; no mountpoint of the base has less room than before; each requested mountpoint has
      at least its clamped size; and each has room for the directories below it. */
  lemma TableMountpoints(base: Disk, o: Options, d': Disk)
    requires Ready(base) && CloneSafe(base.tree) && AbsoluteDirectories(o) && Makes(base, o, Ok(d'))
    ensures ValidDisk(d')
    ensures forall m :: MountSet(d'.tree)[m] == FinalCount(base, o, m)
    ensures forall m :: m in MountSet(base.tree) ==> RoomKept(base.tree, d'.tree, m)
    ensures AllRoomy(d'.tree, o.mounts)
    ensures DirectoriesRoomy(d'.tree, DirectoryMap(o))
  {
    var d := Prepare(base, o).value;
    ReadyCanLayOut(d);
    PreparedFacts(base, o);
    CloneKeeps(base);
    RelayoutValid(d, o.imageSize, d');
    RelayoutKeepsMounts(d, o.imageSize, d');
    forall m: string, s: nat | Room(d.tree, m, s, 0) ensures Room(d'.tree, m, s, 0) {
      RelayoutKeepsRoom(d, o.imageSize, d', m, s);
    }
    forall m | m in MountSet(base.tree) ensures RoomKept(base.tree, d'.tree, m) {
      CopiedRoom(base, d, m);
    }
    forall m | MountSet(d'.tree)[m] == 1 && Under(d'.tree, DirectoryMap(o), m) != {}
      ensures Room(d'.tree, m, Total(d'.tree, DirectoryMap(o), m), 0)
    {
      SameTotals(d.tree, d'.tree, DirectoryMap(o), m);
    }
  }

  lemma CopiedRoom(base: Disk, d: Disk, m: string)
    requires Ready(base) && CloneSafe(base.tree) && Keeps(Copied(base), d) && m in MountSet(base.tree)
    ensures RoomKept(base.tree, d.tree, m)
  {
    CloneKeeps(base);
    var c := Disk(base.config, CloneOf(base.tree));
    assert RoomKept(base.tree, c.tree, m) && RoomKept(Copied(base).tree, d.tree, m);
  }

  lemma PreparedLayable(base: Disk, o: Options)
    requires Ready(base) && CloneSafe(base.tree) && AbsoluteDirectories(o) && Prepare(base, o).Ok?
    requires MountSet(base.tree)["/"] == 1 && AllPositive(base.tree)
    ensures var d := Prepare(base, o).value;
            CanLayOut(d) && OneRoot(d.tree.children) && OthersPositive(d.tree.children)
  {
    var d := Prepare(base, o).value;
    ReadyCanLayOut(d);
    PreparedFacts(base, o);
    CloneKeeps(base);
    assert MountSet(d.tree)["/"] == FinalCount(base, o, "/");
    SingleRoot(d);
    PositiveOthers(d);
  }

  /** Main result, layout: when the base mounts "/" once and its other partitions have a size,
      the table is well laid, at least as large as asked, everything in it fits, and logical
      volume names stay distinct.  The settings are the base's, with the default policy when it
      has none. */
  lemma TableLayout(base: Disk, o: Options, d': Disk)
    requires Ready(base) && CloneSafe(base.tree) && AbsoluteDirectories(o) && Makes(base, o, Ok(d'))
    requires MountSet(base.tree)["/"] == 1 && AllPositive(base.tree)
    ensures WellLaid(d')
    ensures d'.config.Align(o.imageSize) <= d'.tree.size
    ensures InnerFits(base.tree) ==> Fits(d'.tree)
    ensures NamesDistinct(base.tree) ==> NamesDistinct(d'.tree)
    ensures d'.config == base.config.(policy := if base.config.policy.None? then Some(Policy(true, None)) else base.config.policy)
  {
    var d := Prepare(base, o).value;
    PreparedLayable(base, o);
    PreparedFacts(base, o);
    CloneKeeps(base);
    RelayoutWellLaid(d, o.imageSize, d');
    if InnerFits(base.tree) { RelayoutFits(d, o.imageSize, d'); }
    if NamesDistinct(base.tree) { NamesAfterLayout(d, o.imageSize, d'); }
  }

  lemma NamesAfterLayout(d: Disk, size: nat, d': Disk)
    requires CanLayOut(d) && Relayout(d, size, d') && NamesDistinct(d.tree)
    ensures NamesDistinct(d'.tree)
  {
    forall i | 0 <= i < |d'.tree.children| ensures NamesDistinct(d'.tree.children[i]) {
      var k := RelayoutOrigin(d, size, d', i);
      assert NamesDistinct(d.tree.children[k]);
    }
  }

  /** Main result, the root's size: unless the policy's flag forbids it, the root fills the disk up
      to the footer; otherwise it has what it needs rounded up to a grain. */
  lemma TableRootSize(base: Disk, o: Options, d': Disk)
    requires Ready(base) && CloneSafe(base.tree) && AbsoluteDirectories(o) && Makes(base, o, Ok(d'))
    requires MountSet(base.tree)["/"] == 1 && AllPositive(base.tree)
    ensures d'.tree.children != [] && Partitions(d'.tree.children)
    ensures var policy, n, last := base.config.policy, |d'.tree.children|, d'.tree.children[|d'.tree.children| - 1];
            if policy.None? || policy.value.growRootToFillDisk != Some(false)
            then last.kind.start + last.size + d'.config.Footer(n) == d'.tree.size
            else forall r :: r in Prepare(base, o).value.tree.children && HoldsRoot(r) ==>
                   last.size == d'.config.Align(FitTo(r, r.size))
  {
    var d := Prepare(base, o).value;
    PreparedLayable(base, o);
    RelayoutWellLaid(d, o.imageSize, d');
    OneRootIndex(d.tree.children);
  }

  /** Main result, the disk: it is exactly the largest of its size before the layout, the requested
      size and the content up to the footer, the latter two rounded up to a grain. */
  lemma TableDiskSize(base: Disk, o: Options, d': Disk)
    requires Ready(base) && CloneSafe(base.tree) && AbsoluteDirectories(o) && Makes(base, o, Ok(d'))
    requires MountSet(base.tree)["/"] == 1 && AllPositive(base.tree)
    ensures d'.tree.children != [] && Partitions(d'.tree.children)
    ensures CanLayOut(Prepare(base, o).value)
    ensures var d := Prepare(base, o).value;
            forall r :: r in d.tree.children && HoldsRoot(r) ==> DiskSizeFor(d, o.imageSize, d', r)
  {
    PreparedLayable(base, o);
    RelayoutDiskSizeFor(Prepare(base, o).value, o.imageSize, d');
  }
}
