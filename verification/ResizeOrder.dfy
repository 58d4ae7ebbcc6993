/** Resizing several branches: the order does not matter.  Branches share ancestors, each
    resize may stop early, and logical volumes round what they store, so two resizes do not
    commute step by step; they commute as whole operations. */
module ResizeOrder {
  import opened Basics
  import opened Entities
  import opened Resize

  /** Neither address leads through the other. */
  predicate Diverge(p: Path, q: Path) {
    p != [] && q != [] && (p[0] != q[0] || Diverge(p[1..], q[1..]))
  }

  /** No sized entity on the path, its ends included. */
  predicate Bare(e: Entity, p: Path)
    requires ValidPath(e, p)
    decreases p
  {
    !e.kind.Sizeable() && (p == [] || Bare(e.children[p[0]], p[1..]))
  }

  /** `e` after its children became `cs`: asked for its content when the change was passed on. */
  function Settled(e: Entity, cs: seq<Entity>, passed: bool): Outcome {
    var e' := e.(children := cs);
    if passed then EnsureSize(e', Content(e')) else Outcome(e', None)
  }

  /** Above the first sized entity the requested size no longer matters, only the content does. */
  lemma {:induction false} ResizeSettles(e: Entity, p: Path, size: nat)
    requires WellTyped(e) && ValidPath(e, p)
    ensures var r := ResizeBranch(e, p, size);
            && (e.kind.Sizeable() ==> (r.demand.Some? <==> e.size < r.entity.size))
            && (e.kind.Sizeable() && r.demand.Some? ==> r.demand.value <= r.entity.size)
            && (!e.kind.Sizeable() && !Bare(e, p) && r.demand.Some? ==> r.demand.value == Content(r.entity))
    ensures p != [] && !Bare(e.children[p[0]], p[1..]) ==>
              var below := ResizeBranch(e.children[p[0]], p[1..], size);
              ResizeBranch(e, p, size) == Settled(e, e.children[p[0] := below.entity], below.demand.Some?)
    decreases p
  {
    if p != [] {
      var c := e.children[p[0]];
      var below := ResizeBranch(c, p[1..], size);
      var e' := e.(children := e.children[p[0] := below.entity]);
      ResizeSettles(c, p[1..], size);
      ResizeGrows(c, p[1..], size);
      GrownKeepsShape(c, below.entity);
      assert WellTyped(e');
      ChildrenShape(e');
      SumNeedsAtLeast(e'.children, p[0]);
      if below.demand.Some? && !Bare(c, p[1..]) {
        assert Demand(e', below.demand.value) == Content(e');
      }
    }
  }

  /** Settling twice is settling once with the later children. */
  lemma SettledTwice(e: Entity, cs: seq<Entity>, passed: bool, cs': seq<Entity>, passed': bool)
    requires SumNeeds(cs) <= SumNeeds(cs')
    requires !passed' ==> SumNeeds(cs) == SumNeeds(cs')
    ensures var first := Settled(e, cs, passed);
            var second := Settled(first.entity, cs', passed');
            var once := Settled(e, cs', passed || passed');
            && second.entity == once.entity
            && ((first.demand.Some? || second.demand.Some?) <==> once.demand.Some?)
  {
    var n, n' := Content(e.(children := cs)), Content(e.(children := cs'));
    assert n <= n' && (!passed' ==> n == n');
    if e.kind.LogicalVolume? {
      AlignUpMonotone(n, n', EXTENT);
      if n' <= AlignUp(n, EXTENT) { AlignUpLeast(n', AlignUp(n, EXTENT), EXTENT); }
    }
  }

  predicate AnyPassed(a: Outcome, b: Outcome) {
    a.demand.Some? || b.demand.Some?
  }

  /** Two resizes of diverging branches give the same tree in either order. */
  lemma {:induction false} ResizesCommute(e: Entity, p: Path, s: nat, q: Path, r: nat)
    requires WellTyped(e) && ValidPath(e, p) && ValidPath(e, q) && Diverge(p, q)
    ensures var a, b := ResizeBranch(e, p, s), ResizeBranch(e, q, r);
            && ValidPath(a.entity, q) && ValidPath(b.entity, p)
            && var ab, ba := ResizeBranch(a.entity, q, r), ResizeBranch(b.entity, p, s);
            && ab.entity == ba.entity
            && (AnyPassed(a, ab) <==> AnyPassed(b, ba))
    decreases p
  {
    StillValid(e, p, s, q);
    StillValid(e, q, r, p);
    if p[0] != q[0] {
      CommuteApart(e, p, s, q, r);
    } else {
      CommuteBelow(e, p, s, q, r);
    }
  }

  lemma StillValid(e: Entity, p: Path, s: nat, q: Path)
    requires ValidPath(e, p) && ValidPath(e, q)
    ensures ValidPath(ResizeBranch(e, p, s).entity, q)
  {
    ResizeGrows(e, p, s);
    GrownKeepsShape(e, ResizeBranch(e, p, s).entity);
  }

  /** An entity with two children has sized children only. */
  lemma SiblingsSized(e: Entity, i: nat, j: nat)
    requires WellTyped(e) && i < |e.children| && j < |e.children| && i != j
    ensures e.children[i].kind.Sizeable()
  {
    assert e.kind.Admits(e.children[i].kind);
  }

  lemma {:induction false} DivergingNotBare(e: Entity, p: Path, q: Path)
    requires WellTyped(e) && ValidPath(e, p) && ValidPath(e, q) && Diverge(p, q)
    ensures !Bare(e, p)
    decreases p
  {
    if p[0] != q[0] {
      SiblingsSized(e, p[0], q[0]);
    } else {
      DivergingNotBare(e.children[p[0]], p[1..], q[1..]);
    }
  }

  /** What one resize below child `i` means for `e`, given the settling form. */
  lemma OneStep(e: Entity, p: Path, s: nat)
    requires WellTyped(e) && ValidPath(e, p) && p != [] && !Bare(e.children[p[0]], p[1..])
    ensures var below := ResizeBranch(e.children[p[0]], p[1..], s);
            var cs := e.children[p[0] := below.entity];
            && ResizeBranch(e, p, s) == Settled(e, cs, below.demand.Some?)
            && SumNeeds(e.children) <= SumNeeds(cs)
            && (below.demand.None? ==> SumNeeds(e.children) == SumNeeds(cs))
  {
    var c := e.children[p[0]];
    var below := ResizeBranch(c, p[1..], s);
    ResizeSettles(e, p, s);
    ResizeGrows(c, p[1..], s);
    GrownNeed(c, below.entity);
    SumNeedsUpdate(e.children, p[0], below.entity);
    if below.demand.None? { StoppedKeepsNeed(c, p[1..], s); }
  }

  /** One order, with the resized children named. */
  lemma TwoSteps(e: Entity, p: Path, s: nat, q: Path, r: nat)
    requires WellTyped(e) && ValidPath(e, p) && ValidPath(e, q) && p != [] && q != []
    requires !Bare(e.children[p[0]], p[1..])
    requires ValidPath(ResizeBranch(e, p, s).entity, q)
    requires !Bare(ResizeBranch(e, p, s).entity.children[q[0]], q[1..])
    ensures var a := ResizeBranch(e, p, s);
            var ab := ResizeBranch(a.entity, q, r);
            var x := ResizeBranch(e.children[p[0]], p[1..], s);
            var y := ResizeBranch(a.entity.children[q[0]], q[1..], r);
            var cs := e.children[p[0] := x.entity][q[0] := y.entity];
            && a.entity.children == e.children[p[0] := x.entity]
            && ab.entity == Settled(e, cs, AnyPassed(x, y)).entity
            && (AnyPassed(a, ab) <==> Settled(e, cs, AnyPassed(x, y)).demand.Some?)
  {
    var a := ResizeBranch(e, p, s);
    var x := ResizeBranch(e.children[p[0]], p[1..], s);
    var cs := e.children[p[0] := x.entity];
    OneStep(e, p, s);
    ResizeGrows(e, p, s);
    GrownKeepsShape(e, a.entity);
    OneStep(a.entity, q, r);
    var y := ResizeBranch(a.entity.children[q[0]], q[1..], r);
    SettledTwice(e, cs, x.demand.Some?, cs[q[0] := y.entity], y.demand.Some?);
  }

  lemma {:induction false} CommuteApart(e: Entity, p: Path, s: nat, q: Path, r: nat)
    requires WellTyped(e) && ValidPath(e, p) && ValidPath(e, q) && p != [] && q != [] && p[0] != q[0]
    requires ValidPath(ResizeBranch(e, p, s).entity, q) && ValidPath(ResizeBranch(e, q, r).entity, p)
    ensures var a, b := ResizeBranch(e, p, s), ResizeBranch(e, q, r);
            var ab, ba := ResizeBranch(a.entity, q, r), ResizeBranch(b.entity, p, s);
            && ab.entity == ba.entity
            && (AnyPassed(a, ab) <==> AnyPassed(b, ba))
  {
    SiblingsSized(e, p[0], q[0]);
    SiblingsSized(e, q[0], p[0]);
    OneStep(e, p, s);
    OneStep(e, q, r);
    TwoSteps(e, p, s, q, r);
    TwoSteps(e, q, r, p, s);
    var x := ResizeBranch(e.children[p[0]], p[1..], s);
    var y := ResizeBranch(e.children[q[0]], q[1..], r);
    assert e.children[p[0] := x.entity][q[0] := y.entity] == e.children[q[0] := y.entity][p[0] := x.entity];
  }

  lemma {:induction false} CommuteBelow(e: Entity, p: Path, s: nat, q: Path, r: nat)
    requires WellTyped(e) && ValidPath(e, p) && ValidPath(e, q) && Diverge(p, q) && p[0] == q[0]
    requires ValidPath(ResizeBranch(e, p, s).entity, q) && ValidPath(ResizeBranch(e, q, r).entity, p)
    ensures var a, b := ResizeBranch(e, p, s), ResizeBranch(e, q, r);
            var ab, ba := ResizeBranch(a.entity, q, r), ResizeBranch(b.entity, p, s);
            && ab.entity == ba.entity
            && (AnyPassed(a, ab) <==> AnyPassed(b, ba))
    decreases p, 0
  {
    var c := e.children[p[0]];
    ResizesCommute(c, p[1..], s, q[1..], r);
    DivergingBothWays(p[1..], q[1..]);
    DivergingNotBare(c, p[1..], q[1..]);
    DivergingNotBare(c, q[1..], p[1..]);
    OneStep(e, p, s);
    OneStep(e, q, r);
    StepKeepsNotBare(c, p[1..], s, q[1..]);
    StepKeepsNotBare(c, q[1..], r, p[1..]);
    TwoSteps(e, p, s, q, r);
    TwoSteps(e, q, r, p, s);
    var x, y := ResizeBranch(c, p[1..], s), ResizeBranch(c, q[1..], r);
    var xy, yx := ResizeBranch(x.entity, q[1..], r), ResizeBranch(y.entity, p[1..], s);
    assert e.children[p[0] := x.entity][q[0] := xy.entity] == e.children[q[0] := y.entity][p[0] := yx.entity];
  }

  lemma {:induction false} DivergingBothWays(p: Path, q: Path)
    requires Diverge(p, q)
    ensures Diverge(q, p)
  {
    if p[0] == q[0] { DivergingBothWays(p[1..], q[1..]); }
  }

  lemma StepKeepsNotBare(c: Entity, p: Path, s: nat, q: Path)
    requires WellTyped(c) && ValidPath(c, p) && ValidPath(c, q) && Diverge(q, p)
    ensures ValidPath(ResizeBranch(c, p, s).entity, q) && !Bare(ResizeBranch(c, p, s).entity, q)
  {
    ResizeGrows(c, p, s);
    GrownKeepsShape(c, ResizeBranch(c, p, s).entity);
    DivergingNotBare(ResizeBranch(c, p, s).entity, q, p);
  }

  // ---------- any number of resizes ----------

  datatype Request = Request(path: Path, size: nat)

  predicate Addressed(e: Entity, rs: seq<Request>) {
    forall r :: r in rs ==> ValidPath(e, r.path)
  }

  predicate DivergesFromAll(x: Request, rs: seq<Request>) {
    forall r :: r in rs ==> Diverge(x.path, r.path)
  }

  predicate Diverging(rs: seq<Request>) {
    rs != [] ==> DivergesFromAll(rs[0], rs[1..]) && Diverging(rs[1..])
  }

  function ResizeTo(e: Entity, r: Request): (r': Entity)
    requires ValidPath(e, r.path)
    ensures Grown(e, r')
  {
    ResizeGrows(e, r.path, r.size);
    ResizeBranch(e, r.path, r.size).entity
  }

  lemma StillAddressed(e: Entity, e': Entity, rs: seq<Request>)
    requires Grown(e, e') && Addressed(e, rs)
    ensures Addressed(e', rs)
    ensures WellTyped(e) ==> WellTyped(e')
  {
    GrownKeepsShape(e, e');
  }

  function ResizeAll(e: Entity, rs: seq<Request>): (r: Entity)
    requires Addressed(e, rs)
    ensures Grown(e, r)
    decreases rs
  {
    GrownReflexive(e);
    if rs == [] then e
    else
      var first := ResizeTo(e, rs[0]);
      StillAddressed(e, first, rs[1..]);
      var r := ResizeAll(first, rs[1..]);
      GrownTransitive(e, first, r);
      r
  }

  lemma {:induction false} ResizeAllConcat(e: Entity, xs: seq<Request>, ys: seq<Request>)
    requires Addressed(e, xs) && Addressed(e, ys)
    ensures Addressed(e, xs + ys) && Addressed(ResizeAll(e, xs), ys)
    ensures ResizeAll(e, xs + ys) == ResizeAll(ResizeAll(e, xs), ys)
    decreases xs
  {
    StillAddressed(e, ResizeAll(e, xs), ys);
    if xs == [] {
      assert xs + ys == ys;
    } else {
      assert (xs + ys)[1..] == xs[1..] + ys;
      StillAddressed(e, ResizeTo(e, xs[0]), xs + ys);
      ResizeAllConcat(ResizeTo(e, xs[0]), xs[1..], ys);
    }
  }

  /** One request moves across a list of requests that diverge from it. */
  lemma {:induction false} ResizeAcross(e: Entity, x: Request, rs: seq<Request>)
    requires WellTyped(e) && ValidPath(e, x.path) && Addressed(e, rs) && DivergesFromAll(x, rs)
    ensures Addressed(ResizeTo(e, x), rs) && ValidPath(ResizeAll(e, rs), x.path)
    ensures ResizeAll(ResizeTo(e, x), rs) == ResizeTo(ResizeAll(e, rs), x)
    decreases rs
  {
    StillAddressed(e, ResizeTo(e, x), rs);
    StillAddressed(e, ResizeAll(e, rs), [x]);
    assert x in [x];
    if rs != [] {
      var r := rs[0];
      ResizesCommute(e, x.path, x.size, r.path, r.size);
      var e1 := ResizeTo(e, r);
      StillAddressed(e, e1, [x] + rs[1..]);
      assert x in [x] + rs[1..];
      ResizeAcross(e1, x, rs[1..]);
    }
  }

  lemma {:induction false} WithoutOne(a: seq<Request>, x: Request, b: seq<Request>)
    requires Diverging(a + [x] + b)
    ensures Diverging(a + b) && DivergesFromAll(x, a)
  {
    if a == [] {
      assert a + [x] + b == [x] + b && a + b == b;
    } else {
      assert (a + [x] + b)[1..] == a[1..] + [x] + b;
      assert (a + b)[1..] == a[1..] + b;
      WithoutOne(a[1..], x, b);
      assert x in (a + [x] + b)[1..];
      DivergingBothWays(a[0].path, x.path);
    }
  }

  /** Main result: the final tree is the same whatever the order of the requests. */
  lemma {:induction false} OrderIrrelevant(e: Entity, xs: seq<Request>, ys: seq<Request>)
    requires WellTyped(e) && Addressed(e, xs) && Addressed(e, ys) && Diverging(ys)
    requires multiset(xs) == multiset(ys)
    ensures ResizeAll(e, xs) == ResizeAll(e, ys)
    decreases xs
  {
    if xs == [] {
      assert |multiset(ys)| == 0;
    } else {
      var a, b := SplitAtHead(xs, ys);
      MoveOut(e, a, xs[0], b);
      StillAddressed(e, ResizeTo(e, xs[0]), xs);
      OrderIrrelevant(ResizeTo(e, xs[0]), xs[1..], a + b);
    }
  }

  lemma MoveOut(e: Entity, a: seq<Request>, x: Request, b: seq<Request>)
    requires WellTyped(e) && Addressed(e, a + [x] + b) && Diverging(a + [x] + b)
    ensures Diverging(a + b) && ValidPath(e, x.path) && Addressed(ResizeTo(e, x), a + b)
    ensures ResizeAll(e, a + [x] + b) == ResizeAll(ResizeTo(e, x), a + b)
  {
    WithoutOne(a, x, b);
    assert x in a + [x] + b;
    assert Addressed(e, a) && Addressed(e, [x]) && Addressed(e, b);
    StillAddressed(e, ResizeTo(e, x), a);
    StillAddressed(e, ResizeTo(e, x), b);
    assert Addressed(e, a + [x]);
    ResizeAllConcat(e, a + [x], b);
    ResizeAllConcat(e, a, [x]);
    ResizeAllConcat(ResizeTo(e, x), a, b);
    ResizeAcross(e, x, a);
    assert [x][1..] == [];
  }
}
