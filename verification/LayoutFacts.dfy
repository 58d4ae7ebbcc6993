/** What the layout guarantees. */
module LayoutFacts {
  import opened Basics
  import opened Entities
  import opened Mounts
  import opened Layout

  /** Every partition that is placed in the first loop has a size. */
  predicate OthersPositive(ps: seq<Entity>) {
    forall i :: 0 <= i < |ps| && !HoldsRoot(ps[i]) ==> 0 < FitTo(ps[i], ps[i].size)
  }

  /** A finished layout: the partitions tile the disk from an aligned start beyond the header,
      every start and every size but the root's is aligned, the root is last, and the footer
      fits behind it.  The root leaves no space at all unless the policy's flag says so. */
  predicate WellLaid(d: Disk) {
    var c, ps, n := d.config, d.tree.children, |d.tree.children|;
    var rootFills := c.policy.None? || c.policy.value.growRootToFillDisk != Some(false);
    && 0 < n
    && Partitions(ps)
    && Tiled(ps, c.FirstStart(n))
    && (forall i :: 0 <= i < n ==> ps[i].kind.start % c.Grain() == 0)
    && (forall i :: 0 <= i < n - 1 ==> ps[i].size % c.Grain() == 0 && 0 < ps[i].size && !HoldsRoot(ps[i]))
    && HoldsRoot(ps[n - 1])
    && ps[n - 1].kind.start + ps[n - 1].size + c.Footer(n) <= d.tree.size
    && (rootFills ==> ps[n - 1].kind.start + ps[n - 1].size + c.Footer(n) == d.tree.size)
    && (!rootFills ==> ps[n - 1].size % c.Grain() == 0)
  }

  // ---------- the order is forced by the sizes ----------

  predicate StrictlySorted(ps: seq<Entity>)
    requires Partitions(ps)
  {
    forall i, j :: 0 <= i < j < |ps| ==> ps[i].kind.start < ps[j].kind.start
  }

  lemma {:induction false} SortedUnique(xs: seq<Entity>, ys: seq<Entity>)
    requires Partitions(xs) && Partitions(ys) && multiset(xs) == multiset(ys)
    requires StrictlySorted(xs) && SortedByStart(ys)
    ensures xs == ys
  {
    SameLength(xs, ys);
    if xs != [] {
      SameHead(xs, ys);
      TailsPermute(xs, ys);
      SortedUnique(xs[1..], ys[1..]);
    }
  }

  lemma SameHead(xs: seq<Entity>, ys: seq<Entity>)
    requires Partitions(xs) && Partitions(ys) && multiset(xs) == multiset(ys)
    requires StrictlySorted(xs) && SortedByStart(ys) && xs != [] && ys != []
    ensures xs[0] == ys[0]
  {
    var i := Occurrence(xs, ys, ys[0]);
    var j := Occurrence(ys, xs, xs[0]);
  }

  lemma {:induction false} TiledFrom(ps: seq<Entity>, start: nat, i: nat)
    requires Partitions(ps) && Tiled(ps, start) && i < |ps|
    ensures start <= ps[i].kind.start
    ensures i == 0 ==> ps[i].kind.start == start
    decreases ps
  {
    if i != 0 { TiledFrom(ps[1..], start + ps[0].size, i - 1); }
  }

  /** In a tiling an earlier partition ends before a later one starts. */
  lemma {:induction false} TiledApart(ps: seq<Entity>, start: nat, i: nat, j: nat)
    requires Partitions(ps) && Tiled(ps, start) && i < j < |ps|
    ensures ps[i].kind.start + ps[i].size <= ps[j].kind.start
    decreases ps
  {
    if i == 0 {
      TiledFrom(ps[1..], start + ps[0].size, j - 1);
    } else {
      TiledApart(ps[1..], start + ps[0].size, i - 1, j - 1);
    }
  }

  lemma {:induction false} TiledAligned(c: Config, ps: seq<Entity>, start: nat)
    requires Partitions(ps) && Tiled(ps, start) && start % c.Grain() == 0
    requires forall i :: 0 <= i < |ps| - 1 ==> ps[i].size % c.Grain() == 0
    ensures forall i :: 0 <= i < |ps| ==> ps[i].kind.start % c.Grain() == 0
    decreases ps
  {
    if 1 < |ps| {
      AlignedSum(start, ps[0].size, c.Grain());
      TiledAligned(c, ps[1..], start + ps[0].size);
      forall i | 0 <= i < |ps| ensures ps[i].kind.start % c.Grain() == 0 {
        assert i != 0 ==> ps[i] == ps[1..][i - 1];
      }
    }
  }

  lemma {:induction false} SameChildrenSamePath(e: Entity, e': Entity, i: nat, target: string)
    requires e'.children == e.children && i <= |e.children|
    ensures ChildPath(e', i, target) == ChildPath(e, i, target)
    decreases |e.children| - i
  {
    if i < |e.children| { SameChildrenSamePath(e, e', i + 1, target); }
  }

  lemma MovedHoldsRoot(p: Entity, p': Entity)
    requires Moved(p, p')
    ensures HoldsRoot(p') == HoldsRoot(p)
  {
    SameChildrenSamePath(p, p', 0, "/");
  }

  lemma OneRootIndex(ps: seq<Entity>)
    requires OneRoot(ps)
    ensures 0 <= RootIndex(ps)
    ensures forall i :: 0 <= i < |ps| && i != RootIndex(ps) ==> !HoldsRoot(ps[i])
  {
  }

  /** Where the partitions of the canonical order come from. */
  function Origin(d: Disk, i: nat): (r: nat)
    requires 0 <= RootIndex(d.tree.children) && i < |d.tree.children|
    ensures r < |d.tree.children|
  {
    var k := RootIndex(d.tree.children);
    if i == |d.tree.children| - 1 then k else if i < k then i else i + 1
  }

  lemma CanonicalAt(d: Disk, size: nat, i: nat)
    requires ValidDisk(d) && Partitions(d.tree.children) && OneRoot(d.tree.children) && i < |d.tree.children|
    ensures 0 <= RootIndex(d.tree.children)
    ensures var p, p' := d.tree.children[Origin(d, i)], Canonical(d, size)[i];
            && Moved(p, p') && p.size <= p'.size && Content(p') <= p'.size
            && (i < |d.tree.children| - 1 ==> !HoldsRoot(p) && p'.size == d.config.Align(FitTo(p, p.size)))
            && (i == |d.tree.children| - 1 ==> HoldsRoot(p) && p'.size == PlanOf(d, size).rootSize)
            && HoldsRoot(p') == HoldsRoot(p)
  {
    OneRootIndex(d.tree.children);
    var o := Origin(d, i);
    LaidAt(d, size, o);
    LaidMoved(d, size, o);
    assert Canonical(d, size)[i] == Laid(d, size)[o];
    MovedHoldsRoot(d.tree.children[o], Laid(d, size)[o]);
  }

  lemma TiledStrict(ps: seq<Entity>, start: nat)
    requires Partitions(ps) && Tiled(ps, start) && forall i :: 0 <= i < |ps| - 1 ==> 0 < ps[i].size
    ensures StrictlySorted(ps)
  {
    forall i, j | 0 <= i < j < |ps| ensures ps[i].kind.start < ps[j].kind.start {
      TiledApart(ps, start, i, j);
    }
  }

  /** Main result: with one root partition and sized others, the layout is determined whatever
      the unstable sort does, and it is a well laid table, in which the root fills the disk, or has
      what it needs rounded up to a grain when the policy says that it does not grow. */
  lemma RelayoutWellLaid(d: Disk, size: nat, d': Disk)
    requires ValidDisk(d) && Partitions(d.tree.children)
    requires OneRoot(d.tree.children) && OthersPositive(d.tree.children)
    requires 0 <= RootIndex(d.tree.children) && Relayout(d, size, d')
    ensures d'.tree.children == Canonical(d, size)
    ensures WellLaid(d')
    ensures var c, root, last := d.config, d.tree.children[RootIndex(d.tree.children)], d'.tree.children[|d'.tree.children| - 1];
            if c.policy.None? || c.policy.value.growRootToFillDisk.None? || c.policy.value.growRootToFillDisk.value
            then last.kind.start + last.size + c.Footer(|d.tree.children|) == d'.tree.size
            else last.size == c.Align(FitTo(root, root.size))
  {
    var c, n := d.config, |d.tree.children|;
    var r := Canonical(d, size);
    CanonicalTiles(d, size);
    CanonicalPermutes(d, size);
    forall i | 0 <= i < n
      ensures i < n - 1 ==> r[i].size % c.Grain() == 0 && 0 < r[i].size && !HoldsRoot(r[i])
      ensures i == n - 1 ==> HoldsRoot(r[i]) && r[i].size == PlanOf(d, size).rootSize
    {
      CanonicalAt(d, size, i);
    }
    TiledStrict(r, c.FirstStart(n));
    SortedUnique(r, d'.tree.children);
    TiledAligned(c, r, c.FirstStart(n));
  }

  // ---------- when the root is last ----------

  /** The last partition that is not the root's, when the root is the only holder of "/". */
  function LastOther(ps: seq<Entity>): Entity
    requires 1 < |ps|
  {
    if RootIndex(ps) == |ps| - 1 then ps[|ps| - 2] else ps[|ps| - 1]
  }

  predicate RootLast(d: Disk) {
    d.tree.children != [] && HoldsRoot(d.tree.children[|d.tree.children| - 1])
  }

  /** The root partition is last under every sort exactly when there is no other partition or
      the last other one has a size. */
  lemma RootLastIff(d: Disk, size: nat)
    requires ValidDisk(d) && Partitions(d.tree.children) && OneRoot(d.tree.children)
    ensures 0 <= RootIndex(d.tree.children)
    ensures (forall d' :: Relayout(d, size, d') ==> RootLast(d')) <==>
            (|d.tree.children| == 1 || (var p := LastOther(d.tree.children); 0 < FitTo(p, p.size)))
  {
    var ps := d.tree.children;
    OneRootIndex(ps);
    if |ps| == 1 || (var p := LastOther(ps); 0 < FitTo(p, p.size)) {
      forall d' | Relayout(d, size, d') ensures RootLast(d') {
        RootForcedLast(d, size, d');
      }
    } else {
      var d' := RootNotLast(d, size);
    }
  }

  lemma RootForcedLast(d: Disk, size: nat, d': Disk)
    requires ValidDisk(d) && Partitions(d.tree.children) && OneRoot(d.tree.children)
    requires 0 <= RootIndex(d.tree.children) && Relayout(d, size, d')
    requires |d.tree.children| == 1 || (var p := LastOther(d.tree.children); 0 < FitTo(p, p.size))
    ensures RootLast(d')
  {
    var r, n := Canonical(d, size), |d.tree.children|;
    CanonicalPermutes(d, size);
    CanonicalTiles(d, size);
    CanonicalAt(d, size, n - 1);
    if 1 < n { LastOtherAt(d, size); }
    LastForced(r, d.config.FirstStart(n), d'.tree.children);
  }

  /** The partition before the root is the last other one, with its fitted size. */
  lemma LastOtherAt(d: Disk, size: nat)
    requires ValidDisk(d) && Partitions(d.tree.children) && OneRoot(d.tree.children) && 1 < |d.tree.children|
    ensures 0 <= RootIndex(d.tree.children)
    ensures var p, p' := LastOther(d.tree.children), Canonical(d, size)[|d.tree.children| - 2];
            p'.size == d.config.Align(FitTo(p, p.size)) && !HoldsRoot(p')
  {
    CanonicalAt(d, size, |d.tree.children| - 2);
  }

  lemma LastForced(r: seq<Entity>, start: nat, s: seq<Entity>)
    requires Partitions(r) && Partitions(s) && Tiled(r, start) && SortedByStart(s) && multiset(s) == multiset(r)
    requires r != [] && (1 < |r| ==> 0 < r[|r| - 2].size)
    ensures |s| == |r| && s[|s| - 1] == r[|r| - 1]
  {
    SameLength(r, s);
    var n := |r|;
    var i := Occurrence(r, s, s[n - 1]);
    var j := Occurrence(s, r, r[n - 1]);
    if i < n - 1 {
      TiledApart(r, start, n - 2, n - 1);
      if i < n - 2 { TiledApart(r, start, i, n - 2); }
    }
  }

  lemma RootNotLast(d: Disk, size: nat) returns (d': Disk)
    requires ValidDisk(d) && Partitions(d.tree.children) && OneRoot(d.tree.children)
    requires 1 < |d.tree.children| && (var p := LastOther(d.tree.children); FitTo(p, p.size) == 0)
    ensures 0 <= RootIndex(d.tree.children) && Relayout(d, size, d') && !RootLast(d')
  {
    var r, n := Canonical(d, size), |d.tree.children|;
    CanonicalPermutes(d, size);
    CanonicalTiles(d, size);
    LastOtherAt(d, size);
    AlignUpLeast(0, 0, d.config.Grain());
    var s := LastTwoSwapped(r, d.config.FirstStart(n));
    d' := Disk(d.config, Entity(d.tree.kind, PlanOf(d, size).diskSize, s));
  }

  lemma LastTwoSwapped(r: seq<Entity>, start: nat) returns (s: seq<Entity>)
    requires Partitions(r) && Tiled(r, start) && 1 < |r| && r[|r| - 2].size == 0
    ensures Partitions(s) && SortedByStart(s) && multiset(s) == multiset(r)
    ensures |s| == |r| && s[|s| - 1] == r[|r| - 2]
  {
    var n := |r|;
    s := SwapLastTwo(r);
    TiledNext(r, start, n - 2);
    forall i, j | 0 <= i < j < n ensures s[i].kind.start <= s[j].kind.start {
      if i < n - 2 { TiledApart(r, start, i, n - 2); }
      if j < n - 2 { TiledApart(r, start, i, j); }
    }
  }

  lemma {:induction false} TiledNext(ps: seq<Entity>, start: nat, i: nat)
    requires Partitions(ps) && Tiled(ps, start) && i + 1 < |ps|
    ensures ps[i + 1].kind.start == ps[i].kind.start + ps[i].size
    decreases ps
  {
    if i == 0 {
      TiledFrom(ps[1..], start + ps[0].size, 0);
    } else {
      TiledNext(ps[1..], start + ps[0].size, i - 1);
    }
  }
}
