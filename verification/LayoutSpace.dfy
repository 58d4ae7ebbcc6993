/** What a layout keeps: the space every entity has, the mountpoints, and itself when repeated. */
module LayoutSpace {
  import opened Basics
  import opened Entities
  import opened Resize
  import opened Mounts
  import opened Layout
  import opened LayoutFacts

  // ---------- sums over permuted partitions ----------

  lemma {:induction false} SumNeedsConcat(cs: seq<Entity>, ds: seq<Entity>)
    ensures SumNeeds(cs + ds) == SumNeeds(cs) + SumNeeds(ds)
  {
    if cs == [] {
      assert cs + ds == ds;
    } else {
      assert (cs + ds)[1..] == cs[1..] + ds;
      SumNeedsConcat(cs[1..], ds);
    }
  }

  lemma {:induction false} SumNeedsPermute(xs: seq<Entity>, ys: seq<Entity>)
    requires multiset(xs) == multiset(ys)
    ensures SumNeeds(xs) == SumNeeds(ys)
  {
    SameLength(xs, ys);
    if xs != [] {
      var a, b := SplitAtHead(xs, ys);
      SumNeedsPermute(xs[1..], a + b);
      SumNeedsConcat(a, b);
      SumNeedsConcat(a + [xs[0]], b);
      SumNeedsConcat(a, [xs[0]]);
      assert [xs[0]][1..] == [];
    }
  }

  lemma {:induction false} MountSetsPermute(xs: seq<Entity>, ys: seq<Entity>)
    requires multiset(xs) == multiset(ys)
    ensures MountSets(xs) == MountSets(ys)
  {
    SameLength(xs, ys);
    if xs != [] {
      var a, b := SplitAtHead(xs, ys);
      MountSetsPermute(xs[1..], a + b);
      MountSetsConcat(a, b);
      MountSetsConcat(a + [xs[0]], b);
      MountSetsConcat(a, [xs[0]]);
      assert [xs[0]][1..] == [];
    }
  }

  lemma {:induction false} MovedMountSets(ps: seq<Entity>, qs: seq<Entity>)
    requires |ps| == |qs| && forall i :: 0 <= i < |ps| ==> Moved(ps[i], qs[i])
    ensures MountSets(ps) == MountSets(qs)
  {
    if ps != [] {
      assert Moved(ps[0], qs[0]);
      MovedMountSets(ps[1..], qs[1..]);
    }
  }

  lemma {:induction false} TiledSum(ps: seq<Entity>, start: nat)
    requires Partitions(ps)
    ensures EndOf(ps, start) == start + SumNeeds(ps)
    decreases ps
  {
    if ps != [] { TiledSum(ps[1..], start + ps[0].size); }
  }

  // ---------- one layout ----------

  predicate CanLayOut(d: Disk) {
    ValidDisk(d) && Partitions(d.tree.children) && 0 <= RootIndex(d.tree.children)
  }

  lemma TablePartitions(d: Disk)
    requires ValidDisk(d)
    ensures Partitions(d.tree.children)
  {
    forall i | 0 <= i < |d.tree.children| ensures d.tree.children[i].kind.Partition? {
      assert d.tree.kind.Admits(d.tree.children[i].kind);
    }
  }

  /** Every partition of the result is one of the old ones, moved and not smaller. */
  lemma RelayoutOrigin(d: Disk, size: nat, d': Disk, i: nat) returns (o: nat)
    requires CanLayOut(d) && Relayout(d, size, d') && i < |d'.tree.children|
    ensures o < |d.tree.children|
    ensures var p, p' := d.tree.children[o], d'.tree.children[i];
            && Moved(p, p') && p.size <= p'.size
            && (OneRoot(d.tree.children) ==> Content(p') <= p'.size)
  {
    o := Occurrence(Laid(d, size), d'.tree.children, d'.tree.children[i]);
    LaidMoved(d, size, o);
    if OneRoot(d.tree.children) { OneRootIndex(d.tree.children); }
  }

  /** The result is the old partitions in another order, each of them moved and not smaller; the
      disk is not smaller either. */
  lemma RelayoutNeverShrinks(d: Disk, size: nat, d': Disk) returns (laid: seq<Entity>)
    requires CanLayOut(d) && Relayout(d, size, d')
    ensures multiset(d'.tree.children) == multiset(laid) && |laid| == |d.tree.children|
    ensures forall o :: 0 <= o < |laid| ==> Moved(d.tree.children[o], laid[o]) && d.tree.children[o].size <= laid[o].size
    ensures d.tree.size <= d'.tree.size
  {
    laid := Laid(d, size);
    forall o | 0 <= o < |laid| ensures Moved(d.tree.children[o], laid[o]) && d.tree.children[o].size <= laid[o].size {
      LaidMoved(d, size, o);
    }
  }

  lemma MovedKeepsInside(p: Entity, p': Entity)
    requires Moved(p, p') && WellTyped(p)
    ensures WellTyped(p')
  {
  }

  lemma RelayoutValid(d: Disk, size: nat, d': Disk)
    requires CanLayOut(d) && Relayout(d, size, d')
    ensures ValidDisk(d') && |d'.tree.children| == |d.tree.children|
  {
    SameLength(Laid(d, size), d'.tree.children);
    forall i | 0 <= i < |d'.tree.children|
      ensures WellTyped(d'.tree.children[i]) && d'.tree.kind.Admits(d'.tree.children[i].kind)
    {
      var o := RelayoutOrigin(d, size, d', i);
      MovedKeepsInside(d.tree.children[o], d'.tree.children[i]);
    }
  }

  lemma RelayoutKeepsMounts(d: Disk, size: nat, d': Disk)
    requires CanLayOut(d) && Relayout(d, size, d')
    ensures MountSet(d'.tree) == MountSet(d.tree)
  {
    forall i | 0 <= i < |d.tree.children| ensures Moved(d.tree.children[i], Laid(d, size)[i]) {
      LaidMoved(d, size, i);
    }
    MovedMountSets(d.tree.children, Laid(d, size));
    MountSetsPermute(d'.tree.children, Laid(d, size));
  }

  lemma MovedRoom(p: Entity, p': Entity, m: string, s: nat, outer: nat, outer': nat)
    requires Moved(p, p') && p.size <= p'.size && Room(p, m, s, outer)
    ensures Room(p', m, s, outer')
  {
    forall j | 0 <= j < |p.children| ensures Room(p'.children[j], m, s, p'.size) {
      GrownReflexive(p.children[j]);
      RoomGrows(p.children[j], p.children[j], m, s, p.size, p'.size);
    }
  }

  lemma RelayoutKeepsRoom(d: Disk, size: nat, d': Disk, m: string, s: nat)
    requires CanLayOut(d) && Relayout(d, size, d') && Room(d.tree, m, s, 0)
    ensures Room(d'.tree, m, s, 0)
  {
    forall i | 0 <= i < |d'.tree.children| ensures Room(d'.tree.children[i], m, s, d'.tree.size) {
      var o := RelayoutOrigin(d, size, d', i);
      MovedRoom(d.tree.children[o], d'.tree.children[i], m, s, d.tree.size, d'.tree.size);
    }
  }

  /** Everything inside the partitions fits. */
  predicate InnerFits(e: Entity) {
    forall i, j :: 0 <= i < |e.children| && 0 <= j < |e.children[i].children| ==> Fits(e.children[i].children[j])
  }

  /** Main result: whatever the partition and disk sizes were, a layout makes the whole tree fit. */
  lemma RelayoutFits(d: Disk, size: nat, d': Disk)
    requires CanLayOut(d) && OneRoot(d.tree.children) && Relayout(d, size, d')
    requires InnerFits(d.tree)
    ensures Fits(d'.tree)
  {
    forall i | 0 <= i < |d'.tree.children| ensures Fits(d'.tree.children[i]) {
      var o := RelayoutOrigin(d, size, d', i);
      forall j | 0 <= j < |d'.tree.children[i].children| ensures Fits(d'.tree.children[i].children[j]) {
        assert Fits(d.tree.children[o].children[j]);
      }
    }
    var r := Canonical(d, size);
    CanonicalPermutes(d, size);
    CanonicalTiles(d, size);
    TiledSum(r, d.config.FirstStart(|r|));
    SumNeedsPermute(d'.tree.children, r);
  }

  // ---------- how large the numbers get ----------

  lemma {:induction false} EndsInOrder(c: Config, ps: seq<Entity>, start: nat, o: nat)
    requires Partitions(ps) && o <= |ps|
    ensures start <= EndOfOthers(c, ps[..o], start) <= EndOfOthers(c, ps, start)
    decreases |ps|
  {
    if o < |ps| {
      EndsInOrder(c, ps[..|ps| - 1], start, o);
      assert ps[..|ps| - 1][..o] == ps[..o];
    } else {
      assert ps[..o] == ps;
      if ps != [] { EndsInOrder(c, ps[..|ps| - 1], start, |ps| - 1); }
    }
  }

  /** Every sum of a layout is at most the final disk size, except the first one, which adds the
      header to it at most. */
  lemma LayoutSumsBelow(d: Disk, size: nat, o: nat)
    requires CanLayOut(d) && o < |d.tree.children|
    ensures var c, ps, n := d.config, d.tree.children, |d.tree.children|;
            var plan, end := PlanOf(d, size), EndOfOthers(d.config, d.tree.children[..o], d.config.FirstStart(n));
            && c.HeaderSize(n) + c.startOffset <= c.HeaderSize(n) + plan.diskSize
            && c.FirstStart(n) <= end <= plan.rootStart
            && (!HoldsRoot(ps[o]) ==> end + c.Align(FitTo(ps[o], ps[o].size)) <= plan.rootStart)
            && plan.rootStart + c.Footer(n) + plan.rootNeed <= plan.diskSize
            && c.Align(size) <= plan.diskSize
  {
    var c, ps := d.config, d.tree.children;
    EndsInOrder(c, ps, c.FirstStart(|ps|), o);
    EndsInOrder(c, ps, c.FirstStart(|ps|), o + 1);
    assert ps[..o + 1][..o] == ps[..o];
  }

  // ---------- laying out twice ----------

  /** A chain of LUKS containers that ends in logical volumes or subvolumes. */
  predicate EndsInVolumes(payload: Entity) {
    || payload.kind.VolumeGroup?
    || payload.kind.Btrfs?
    || (payload.kind.Luks? && payload.children != [] && EndsInVolumes(payload.children[0]))
  }

  lemma {:induction false} MinSizeOfVolumes(payload: Entity, size: nat)
    requires WellTyped(payload) && payload.kind.VolumeContainer() && EndsInVolumes(payload)
    ensures size <= MinSize(payload, size)
    ensures payload.kind.Luks? ==> size < MinSize(payload, size)
  {
    if payload.kind.Luks? {
      assert payload.kind.Admits(payload.children[0].kind);
      MinSizeOfVolumes(payload.children[0], size);
    }
  }

  lemma {:induction false} MinSizeOfPlain(payload: Entity, size: nat)
    requires WellTyped(payload) && payload.kind.VolumeContainer() && !EndsInVolumes(payload)
    ensures MinSize(payload, size) == Need(payload)
  {
    ChildrenShape(payload);
    assert Need(payload) == payload.kind.Metadata() + SumNeeds(payload.children);
    if payload.children != [] {
      assert payload.kind.Admits(payload.children[0].kind);
      if payload.children[0].kind.VolumeContainer() {
        MinSizeOfPlain(payload.children[0], size);
      } else {
        ChildrenShape(payload.children[0]);
        assert Need(payload.children[0]) == SumNeeds([]);
      }
    }
  }

  /** Fitting leaves a partition with enough room alone, except that it rounds volume groups to
      extents and adds a header to encrypted volumes each time. */
  predicate Steady(p: Entity) {
    p.children != [] ==>
      && (p.children[0].kind.VolumeGroup? ==> p.size % EXTENT == 0)
      && !(p.children[0].kind.Luks? && EndsInVolumes(p.children[0]))
  }

  lemma SteadyIff(p: Entity)
    requires WellTyped(p) && p.kind.Partition? && Content(p) <= p.size
    ensures Steady(p) <==> FitTo(p, p.size) == p.size
  {
    ChildrenShape(p);
    if p.children != [] && p.children[0].kind.VolumeContainer() {
      var v := p.children[0];
      ChildrenShape(v);
      assert WellTyped(v);
      if v.kind.Luks? && EndsInVolumes(v) {
        MinSizeOfVolumes(v, p.size);
      } else if v.kind.Luks? {
        MinSizeOfPlain(v, p.size);
      } else if v.kind.VolumeGroup? && p.size % EXTENT == 0 {
        AlignUpLeast(p.size, p.size, EXTENT);
      }
    }
  }

  lemma {:induction false} OthersEndAt(c: Config, ps: seq<Entity>, start: nat, i: nat)
    requires Partitions(ps) && Tiled(ps, start) && i < |ps|
    requires forall j :: 0 <= j < i ==> !HoldsRoot(ps[j]) && ps[j].size % c.Grain() == 0 && FitTo(ps[j], ps[j].size) == ps[j].size
    ensures EndOfOthers(c, ps[..i], start) == ps[i].kind.start
  {
    if i == 0 {
      TiledFrom(ps, start, 0);
    } else {
      OthersEndAt(c, ps, start, i - 1);
      TiledNext(ps, start, i - 1);
      assert ps[..i][..i - 1] == ps[..i - 1];
      AlignUpLeast(ps[i - 1].size, ps[i - 1].size, c.Grain());
    }
  }

  /** A finished layout on a disk at least as large as requested, and large enough for the content
      rounded up to a grain. */
  predicate Finished(d: Disk, size: nat) {
    && ValidDisk(d) && WellLaid(d)
    && d.config.Align(size) <= d.tree.size
    && (!d.config.GrowRoot() ==> d.config.Align(RootEnd(d) + d.config.Footer(|d.tree.children|)) <= d.tree.size)
  }

  function RootEnd(d: Disk): nat
    requires WellLaid(d)
  {
    var root := d.tree.children[|d.tree.children| - 1];
    root.kind.start + root.size
  }

  /** A root that fills the disk needs whole grains to fill. */
  predicate WholeGrains(c: Config, diskSize: nat) {
    c.GrowRoot() ==> diskSize % c.Grain() == 0 && c.extraPadding % c.Grain() == 0
  }

  lemma FooterAligned(c: Config, n: nat)
    requires c.extraPadding % c.Grain() == 0
    ensures c.Footer(n) % c.Grain() == 0
  {
    AlignedSum(c.Align(c.HeaderSize(n)), c.extraPadding, c.Grain());
  }

  lemma FinishedRootAligned(d: Disk, size: nat)
    requires Finished(d, size) && WholeGrains(d.config, d.tree.size)
    ensures d.tree.children[|d.tree.children| - 1].size % d.config.Grain() == 0
  {
    var c, n := d.config, |d.tree.children|;
    var root := d.tree.children[n - 1];
    if c.GrowRoot() {
      FooterAligned(c, n);
      AlignedDifference(d.tree.size, root.kind.start, c.Grain());
      AlignedDifference(d.tree.size - root.kind.start, c.Footer(n), c.Grain());
    }
  }

  /** The partitions before the root end where it starts. */
  lemma FinishedOthers(d: Disk)
    requires ValidDisk(d) && WellLaid(d)
    requires forall i :: 0 <= i < |d.tree.children| ==> FitTo(d.tree.children[i], d.tree.children[i].size) == d.tree.children[i].size
    ensures var c, ps, n := d.config, d.tree.children, |d.tree.children|;
            RootIndex(ps) == n - 1 && EndOfOthers(c, ps, c.FirstStart(n)) == ps[n - 1].kind.start
  {
    var c, ps, n := d.config, d.tree.children, |d.tree.children|;
    assert RootIndex(ps) == n - 1;
    OthersEndAt(c, ps, c.FirstStart(n), n - 1);
  }

  lemma FinishedPlan(d: Disk, size: nat)
    requires Finished(d, size) && CanLayOut(d) && WholeGrains(d.config, d.tree.size)
    requires forall i :: 0 <= i < |d.tree.children| ==> FitTo(d.tree.children[i], d.tree.children[i].size) == d.tree.children[i].size
    ensures var n := |d.tree.children|;
            PlanOf(d, size) == Plan(d.tree.children[n - 1].kind.start, d.tree.children[n - 1].size,
                                    d.tree.size, d.tree.children[n - 1].size)
  {
    var c, ps, n := d.config, d.tree.children, |d.tree.children|;
    FinishedOthers(d);
    FinishedRootAligned(d, size);
    AlignUpLeast(ps[n - 1].size, ps[n - 1].size, c.Grain());
    if c.GrowRoot() { AlignUpLeast(RootEnd(d) + c.Footer(n), d.tree.size, c.Grain()); }
  }

  lemma FinishedEnd(d: Disk, size: nat)
    requires Finished(d, size) && CanLayOut(d)
    requires forall i :: 0 <= i < |d.tree.children| ==> FitTo(d.tree.children[i], d.tree.children[i].size) == d.tree.children[i].size
    ensures var c, n := d.config, |d.tree.children|;
            var root := d.tree.children[n - 1];
            c.Align(root.kind.start + c.Footer(n) + c.Align(root.size)) <= PlanOf(d, size).diskSize
  {
    FinishedOthers(d);
  }

  /** A root that fills a disk of broken grains is rounded up beyond the disk. */
  lemma BrokenGrainsGrow(d: Disk, size: nat)
    requires Finished(d, size) && CanLayOut(d) && !WholeGrains(d.config, d.tree.size)
    requires forall i :: 0 <= i < |d.tree.children| ==> FitTo(d.tree.children[i], d.tree.children[i].size) == d.tree.children[i].size
    ensures d.tree.size < PlanOf(d, size).diskSize
  {
    var c, n := d.config, |d.tree.children|;
    var root := d.tree.children[n - 1];
    FinishedEnd(d, size);
    if c.Align(root.kind.start + c.Footer(n) + c.Align(root.size)) <= d.tree.size {
      assert c.Align(root.size) == root.size && c.Align(d.tree.size) == d.tree.size;
      FillsWholeGrains(c, n, root.kind.start, root.size, d.tree.size);
    }
  }

  lemma FillsWholeGrains(c: Config, n: nat, start: nat, size: nat, diskSize: nat)
    requires start % c.Grain() == 0 && size % c.Grain() == 0 && diskSize % c.Grain() == 0
    requires start + size + c.Footer(n) == diskSize
    ensures c.extraPadding % c.Grain() == 0
  {
    var g, header := c.Grain(), if c.tableType.Gpt? then c.Align(c.HeaderSize(n)) else 0;
    AlignedDifference(diskSize, start, g);
    AlignedDifference(diskSize - start, size, g);
    AlignUpLeast(0, 0, g);
    AlignedDifference(c.Footer(n), header, g);
  }

  lemma FinishedLaid(d: Disk, size: nat)
    requires Finished(d, size) && CanLayOut(d) && WholeGrains(d.config, d.tree.size)
    requires forall i :: 0 <= i < |d.tree.children| ==> FitTo(d.tree.children[i], d.tree.children[i].size) == d.tree.children[i].size
    ensures Laid(d, size) == d.tree.children && PlanOf(d, size).diskSize == d.tree.size
  {
    var c, ps, n := d.config, d.tree.children, |d.tree.children|;
    FinishedPlan(d, size);
    forall i | 0 <= i < n ensures Laid(d, size)[i] == ps[i] {
      LaidAt(d, size, i);
      if i < n - 1 {
        OthersEndAt(c, ps, c.FirstStart(n), i);
        AlignUpLeast(ps[i].size, ps[i].size, c.Grain());
      }
    }
  }

  lemma {:induction false} SumNeedsStrict(ps: seq<Entity>, qs: seq<Entity>, k: nat)
    requires |ps| == |qs| && Partitions(ps) && Partitions(qs) && k < |ps|
    requires (forall i :: 0 <= i < |ps| ==> ps[i].size <= qs[i].size) && ps[k].size < qs[k].size
    ensures SumNeeds(ps) < SumNeeds(qs)
  {
    if k == 0 {
      SumNeedsMonotone(ps[1..], qs[1..]);
    } else {
      SumNeedsStrict(ps[1..], qs[1..], k - 1);
    }
  }

  lemma {:induction false} SumNeedsMonotone(ps: seq<Entity>, qs: seq<Entity>)
    requires |ps| == |qs| && Partitions(ps) && Partitions(qs)
    requires forall i :: 0 <= i < |ps| ==> ps[i].size <= qs[i].size
    ensures SumNeeds(ps) <= SumNeeds(qs)
  {
    if ps != [] { SumNeedsMonotone(ps[1..], qs[1..]); }
  }

  /** Main result: laying out a finished table again changes nothing exactly when every
      partition is steady and a root that fills the disk has whole grains to fill. */
  lemma RelayoutAgainIff(d: Disk, size: nat, d': Disk)
    requires Finished(d, size) && CanLayOut(d) && Relayout(d, size, d')
    requires forall i :: 0 <= i < |d.tree.children| ==> Content(d.tree.children[i]) <= d.tree.children[i].size
    ensures d' == d <==>
            WholeGrains(d.config, d.tree.size) && forall i :: 0 <= i < |d.tree.children| ==> Steady(d.tree.children[i])
  {
    var ps, n := d.tree.children, |d.tree.children|;
    forall i | 0 <= i < n ensures Steady(ps[i]) <==> FitTo(ps[i], ps[i].size) == ps[i].size {
      SteadyIff(ps[i]);
    }
    if k :| 0 <= k < n && !Steady(ps[k]) {
      RelayoutGrew(d, size, k);
      if d' == d { SumNeedsPermute(ps, Laid(d, size)); }
    } else if !WholeGrains(d.config, d.tree.size) {
      BrokenGrainsGrow(d, size);
    } else {
      FinishedLaid(d, size);
      TiledStrict(ps, d.config.FirstStart(n));
      SortedUnique(ps, d'.tree.children);
    }
  }

  lemma RelayoutGrew(d: Disk, size: nat, k: nat)
    requires Finished(d, size) && CanLayOut(d) && k < |d.tree.children|
    requires d.tree.children[k].size < FitTo(d.tree.children[k], d.tree.children[k].size)
    ensures SumNeeds(d.tree.children) < SumNeeds(Laid(d, size))
  {
    var ps, laid := d.tree.children, Laid(d, size);
    assert RootIndex(ps) == |ps| - 1;
    forall i | 0 <= i < |ps| ensures ps[i].size <= laid[i].size {
      LaidMoved(d, size, i);
    }
    LaidAt(d, size, k);
    SumNeedsStrict(ps, laid, k);
  }

  /** From any table with one root and sized others, the first layout is finished. */
  lemma RelayoutFinishes(d: Disk, size: nat, d': Disk)
    requires CanLayOut(d) && OneRoot(d.tree.children) && OthersPositive(d.tree.children) && Relayout(d, size, d')
    ensures CanLayOut(d') && Finished(d', size)
    ensures forall i :: 0 <= i < |d'.tree.children| ==> Content(d'.tree.children[i]) <= d'.tree.children[i].size
  {
    RelayoutWellLaid(d, size, d');
    RelayoutValid(d, size, d');
    RelayoutRootEnd(d, size, d');
    forall i | 0 <= i < |d'.tree.children| ensures Content(d'.tree.children[i]) <= d'.tree.children[i].size {
      var o := RelayoutOrigin(d, size, d', i);
    }
  }

  lemma RelayoutRootEnd(d: Disk, size: nat, d': Disk)
    requires CanLayOut(d) && OneRoot(d.tree.children) && OthersPositive(d.tree.children) && Relayout(d, size, d')
    ensures WellLaid(d') && RootEnd(d') == PlanOf(d, size).rootStart + PlanOf(d, size).rootSize
    ensures |d'.tree.children| == |d.tree.children|
  {
    RelayoutWellLaid(d, size, d');
    CanonicalTiles(d, size);
  }

  // ---------- when that is known beforehand ----------

  predicate EncryptsVolumes(p: Entity) {
    p.children != [] && p.children[0].kind.Luks? && EndsInVolumes(p.children[0])
  }

  predicate HoldsGroup(p: Entity) {
    p.children != [] && p.children[0].kind.VolumeGroup?
  }

  /** The size that partition `o` gets in a layout: what the disk leaves for a root that grows,
      otherwise its own need rounded up to a grain. */
  function LaidSize(d: Disk, size: nat, o: nat): nat
    requires CanLayOut(d) && o < |d.tree.children|
  {
    if o == RootIndex(d.tree.children) then PlanOf(d, size).rootSize
    else d.config.Align(FitTo(d.tree.children[o], d.tree.children[o].size))
  }

  /** Partition `o` is given a size that it keeps: it does not encrypt volumes, and a volume group
      is given whole extents. */
  predicate Settles(d: Disk, size: nat, o: nat)
    requires CanLayOut(d) && o < |d.tree.children|
  {
    && !EncryptsVolumes(d.tree.children[o])
    && (HoldsGroup(d.tree.children[o]) ==> LaidSize(d, size, o) % EXTENT == 0)
  }

  /** Where old partition `o` ends up in the canonical order. */
  function Destination(d: Disk, o: nat): (i: nat)
    requires 0 <= RootIndex(d.tree.children) && o < |d.tree.children|
    ensures i < |d.tree.children| && Origin(d, i) == o
  {
    var k := RootIndex(d.tree.children);
    if o == k then |d.tree.children| - 1 else if o < k then o else o - 1
  }

  lemma SteadyWhenSettled(d: Disk, size: nat, i: nat)
    requires CanLayOut(d) && OneRoot(d.tree.children) && i < |d.tree.children|
    ensures Steady(Canonical(d, size)[i]) <==> Settles(d, size, Origin(d, i))
  {
    CanonicalAt(d, size, i);
    assert Canonical(d, size)[i].size == LaidSize(d, size, Origin(d, i));
  }

  lemma AllSteadyIff(d: Disk, size: nat)
    requires CanLayOut(d) && OneRoot(d.tree.children)
    ensures (forall i :: 0 <= i < |d.tree.children| ==> Steady(Canonical(d, size)[i])) <==>
            (forall o :: 0 <= o < |d.tree.children| ==> Settles(d, size, o))
  {
    var n := |d.tree.children|;
    forall i | 0 <= i < n ensures Steady(Canonical(d, size)[i]) <==> Settles(d, size, Origin(d, i)) {
      SteadyWhenSettled(d, size, i);
    }
    forall o | 0 <= o < n ensures Steady(Canonical(d, size)[Destination(d, o)]) <==> Settles(d, size, o) {
    }
  }

  /** Main result: with one root and sized others, laying out twice is laying out once exactly
      when every partition settles and a root that fills the disk has whole grains to fill. */
  lemma RelayoutIdempotentIff(d: Disk, size: nat, d': Disk, d'': Disk)
    requires CanLayOut(d) && OneRoot(d.tree.children) && OthersPositive(d.tree.children) && Relayout(d, size, d')
    ensures CanLayOut(d')
    ensures Relayout(d', size, d'') ==>
              (d'' == d' <==>
               && WholeGrains(d.config, PlanOf(d, size).diskSize)
               && forall o :: 0 <= o < |d.tree.children| ==> Settles(d, size, o))
  {
    RelayoutFinishes(d, size, d');
    RelayoutWellLaid(d, size, d');
    AllSteadyIff(d, size);
    if Relayout(d', size, d'') { RelayoutAgainIff(d', size, d''); }
  }

  // ---------- simple cases ----------

  lemma AlignedFiner(x: nat, g: nat, h: nat)
    requires 0 < g && 0 < h && x % g == 0 && g % h == 0
    ensures x % h == 0
  {
    ModBounds(x, g);
    ModBounds(g, h);
    assert x == ((x / g) * (g / h)) * h;
    MultipleAligned((x / g) * (g / h), h);
  }

  /** A volume group fits in whole extents, so a grain that divides the extent adds nothing. */
  lemma GroupFitsExtents(c: Config, p: Entity)
    requires p.kind.Partition? && HoldsGroup(p) && EXTENT % c.Grain() == 0
    ensures c.Align(FitTo(p, p.size)) % EXTENT == 0
  {
    var fitted := FitTo(p, p.size);
    assert fitted % EXTENT == 0;
    AlignedFiner(fitted, EXTENT, c.Grain());
    AlignUpLeast(fitted, fitted, c.Grain());
  }

  /** Without encrypted volumes a partition settles when it holds no volume group, when a grain is
      whole extents, or when an extent is whole grains and the partition does not fill the disk. */
  predicate PlainlySettles(c: Config, p: Entity, fillsDisk: bool) {
    && !EncryptsVolumes(p)
    && (HoldsGroup(p) ==> c.Grain() % EXTENT == 0 || (EXTENT % c.Grain() == 0 && !fillsDisk))
  }

  lemma PlainSettles(d: Disk, size: nat, d': Disk, o: nat)
    requires CanLayOut(d) && OneRoot(d.tree.children) && OthersPositive(d.tree.children) && Relayout(d, size, d')
    requires WholeGrains(d.config, PlanOf(d, size).diskSize) && o < |d.tree.children|
    requires PlainlySettles(d.config, d.tree.children[o], o == RootIndex(d.tree.children) && d.config.GrowRoot())
    ensures Settles(d, size, o)
  {
    var c, p := d.config, d.tree.children[o];
    if HoldsGroup(p) {
      if c.Grain() % EXTENT != 0 {
        GroupFitsExtents(c, p);
      } else if o == RootIndex(d.tree.children) {
        RelayoutFinishes(d, size, d');
        RelayoutRootEnd(d, size, d');
        RelayoutWellLaid(d, size, d');
        CanonicalTiles(d, size);
        FinishedRootAligned(d', size);
        AlignedFiner(PlanOf(d, size).rootSize, c.Grain(), EXTENT);
      } else {
        AlignedFiner(c.Align(FitTo(p, p.size)), c.Grain(), EXTENT);
      }
    }
  }

  /** The planned disk has whole grains when the old one has. */
  lemma PlansWholeGrains(d: Disk, size: nat)
    requires CanLayOut(d) && d.tree.size % d.config.Grain() == 0 && d.config.extraPadding % d.config.Grain() == 0
    ensures WholeGrains(d.config, PlanOf(d, size).diskSize)
  {
  }

  /** Laying out twice is laying out once on whole grains when every partition plainly settles. */
  lemma RelayoutIdempotent(d: Disk, size: nat, d': Disk, d'': Disk)
    requires CanLayOut(d) && OneRoot(d.tree.children) && OthersPositive(d.tree.children) && Relayout(d, size, d')
    requires d.tree.size % d.config.Grain() == 0 && d.config.extraPadding % d.config.Grain() == 0
    requires forall o :: 0 <= o < |d.tree.children| ==>
               PlainlySettles(d.config, d.tree.children[o], o == RootIndex(d.tree.children) && d.config.GrowRoot())
    ensures CanLayOut(d')
    ensures Relayout(d', size, d'') ==> d'' == d'
  {
    PlansWholeGrains(d, size);
    forall o | 0 <= o < |d.tree.children| ensures Settles(d, size, o) { PlainSettles(d, size, d', o); }
    RelayoutIdempotentIff(d, size, d', d'');
  }

  /** A table with encrypted volumes never settles: every further layout changes it. */
  lemma EncryptedNeverSettles(d: Disk, size: nat, d': Disk, d'': Disk, k: nat)
    requires CanLayOut(d) && OneRoot(d.tree.children) && OthersPositive(d.tree.children) && Relayout(d, size, d')
    requires k < |d.tree.children| && EncryptsVolumes(d.tree.children[k])
    ensures CanLayOut(d')
    ensures Relayout(d', size, d'') ==> d'' != d'
  {
    RelayoutIdempotentIff(d, size, d', d'');
    assert !Settles(d, size, k);
  }
}
