/** Growing one branch of the tree, from a target entity up to the partition table. */
module Resize {
  import opened Basics
  import opened Entities

  /** The tree after a resize, and the size passed on to the parent (`None`: stopped). */
  datatype Outcome = Outcome(entity: Entity, demand: Option<nat>)

  /** The size an entity is asked to have, once its own children are accounted for. */
  function Demand(e: Entity, size: nat): nat {
    if e.kind.Container() then
      var sum := SizedSum(e.children);
      Max(size, (if sum == 0 then size else sum) + e.kind.Metadata())
    else size
  }

  /** Logical volumes store the size they are asked for rounded to extents. */
  function Stored(k: Kind, demand: nat): (r: nat)
    ensures demand <= r
  {
    if k.LogicalVolume? then AlignUp(demand, EXTENT) else demand
  }

  function EnsureSize(e: Entity, demand: nat): Outcome {
    if !e.kind.Sizeable() then Outcome(e, Some(demand))
    else if e.size < demand then Outcome(e.(size := Stored(e.kind, demand)), Some(demand))
    else Outcome(e, None)
  }

  function ResizeOne(e: Entity, size: nat): Outcome {
    EnsureSize(e, Demand(e, size))
  }

  function ResizeBranch(e: Entity, p: Path, size: nat): Outcome
    requires ValidPath(e, p)
    decreases p
  {
    if p == [] then ResizeOne(e, size)
    else
      var below := ResizeBranch(e.children[p[0]], p[1..], size);
      var e' := e.(children := e.children[p[0] := below.entity]);
      if below.demand.None? then Outcome(e', None) else ResizeOne(e', below.demand.value)
  }

  // ---------- growth ----------

  /** Same tree, no entity smaller. */
  predicate Grown(e: Entity, e': Entity) {
    && e'.kind == e.kind
    && e.size <= e'.size
    && |e'.children| == |e.children|
    && forall i :: 0 <= i < |e.children| ==> Grown(e.children[i], e'.children[i])
  }

  lemma {:induction false} GrownReflexive(e: Entity)
    ensures Grown(e, e)
  {
    forall i | 0 <= i < |e.children| ensures Grown(e.children[i], e.children[i]) {
      GrownReflexive(e.children[i]);
    }
  }

  lemma {:induction false} GrownTransitive(a: Entity, b: Entity, c: Entity)
    requires Grown(a, b) && Grown(b, c)
    ensures Grown(a, c)
  {
    forall i | 0 <= i < |a.children| ensures Grown(a.children[i], c.children[i]) {
      GrownTransitive(a.children[i], b.children[i], c.children[i]);
    }
  }

  lemma {:induction false} GrownKeepsShape(e: Entity, e': Entity)
    requires Grown(e, e')
    ensures WellTyped(e) ==> WellTyped(e')
    ensures forall p: Path :: ValidPath(e, p) == ValidPath(e', p)
  {
    forall i | 0 <= i < |e.children| {
      GrownKeepsShape(e.children[i], e'.children[i]);
    }
  }

  lemma {:induction false} GrownAt(e: Entity, e': Entity, p: Path)
    requires Grown(e, e') && ValidPath(e, p)
    ensures ValidPath(e', p) && Grown(At(e, p), At(e', p))
    decreases p
  {
    if p != [] { GrownAt(e.children[p[0]], e'.children[p[0]], p[1..]); }
  }

  lemma {:induction false} GrownNeed(e: Entity, e': Entity)
    requires Grown(e, e')
    ensures Content(e) <= Content(e') && Need(e) <= Need(e')
    decreases e
  {
    GrownNeeds(e.children, e'.children);
  }

  lemma {:induction false} GrownNeeds(cs: seq<Entity>, cs': seq<Entity>)
    requires |cs| == |cs'| && forall i :: 0 <= i < |cs| ==> Grown(cs[i], cs'[i])
    ensures SumNeeds(cs) <= SumNeeds(cs')
    decreases cs
  {
    if cs != [] {
      GrownNeed(cs[0], cs'[0]);
      GrownNeeds(cs[1..], cs'[1..]);
    }
  }

  /** A resize never shrinks an entity and never changes the shape of the tree. */
  lemma {:induction false} ResizeGrows(e: Entity, p: Path, size: nat)
    requires ValidPath(e, p)
    ensures Grown(e, ResizeBranch(e, p, size).entity)
    decreases p
  {
    GrownReflexive(e);
    if p != [] {
      ResizeGrows(e.children[p[0]], p[1..], size);
    }
  }

  lemma PrefixTail(q: Path, p: Path)
    requires q != [] && p != [] && q[0] == p[0]
    ensures q <= p <==> q[1..] <= p[1..]
  {
    assert q == [q[0]] + q[1..] && p == [p[0]] + p[1..];
  }

  /** Only the target and its ancestors change: every other subtree is untouched. */
  lemma {:induction false} ResizeKeepsOffPath(e: Entity, p: Path, size: nat, q: Path)
    requires ValidPath(e, p) && ValidPath(e, q) && !(q <= p)
    ensures ValidPath(ResizeBranch(e, p, size).entity, q)
    ensures At(ResizeBranch(e, p, size).entity, q) == At(e, q)
    decreases p
  {
    assert q != [];
    if p != [] && q[0] == p[0] {
      PrefixTail(q, p);
      ResizeKeepsOffPath(e.children[p[0]], p[1..], size, q[1..]);
    }
  }

  /** The target, when it is sized, ends at least as large as asked. */
  lemma {:induction false} ResizeReaches(e: Entity, p: Path, size: nat)
    requires ValidPath(e, p)
    ensures ValidPath(ResizeBranch(e, p, size).entity, p)
    ensures var t := At(ResizeBranch(e, p, size).entity, p); t.kind.Sizeable() ==> size <= t.size
    decreases p
  {
    if p != [] { ResizeReaches(e.children[p[0]], p[1..], size); }
  }

  // ---------- fitting ----------

  /** When a resize stops, what the entity takes from its holder has not changed. */
  lemma {:induction false} StoppedKeepsNeed(e: Entity, p: Path, size: nat)
    requires ValidPath(e, p)
    requires ResizeBranch(e, p, size).demand.None?
    ensures Need(ResizeBranch(e, p, size).entity) == Need(e)
    decreases p
  {
    if p != [] {
      var below := ResizeBranch(e.children[p[0]], p[1..], size);
      if below.demand.None? {
        StoppedKeepsNeed(e.children[p[0]], p[1..], size);
        SumNeedsUpdate(e.children, p[0], below.entity);
      }
    }
  }

  /** The demand on a well typed entity covers its content, if the demand that came from
      below covered the child that sent it. */
  lemma DemandCoversContent(e: Entity, size: nat)
    requires WellTyped(e)
    requires e.kind.SinglePayload() && e.children != [] ==> Need(e.children[0]) <= size
    ensures Content(e) <= Demand(e, size)
  {
    ChildrenShape(e);
  }

  /** Growing a branch keeps the invariant that everything fits, also when it stops early. */
  lemma {:induction false} ResizeFits(e: Entity, p: Path, size: nat)
    requires WellTyped(e) && Fits(e) && ValidPath(e, p) && At(e, p).kind.Target()
    ensures var r := ResizeBranch(e, p, size);
            && Fits(r.entity)
            && (r.demand.Some? && !e.kind.Sizeable() ==> Need(r.entity) <= r.demand.value)
    decreases p
  {
    ChildrenShape(e);
    if p != [] {
      var below := ResizeBranch(e.children[p[0]], p[1..], size);
      var e' := e.(children := e.children[p[0] := below.entity]);
      ResizeFits(e.children[p[0]], p[1..], size);
      ResizeGrows(e.children[p[0]], p[1..], size);
      GrownKeepsShape(e.children[p[0]], below.entity);
      if below.demand.None? {
        StoppedKeepsNeed(e.children[p[0]], p[1..], size);
        SumNeedsUpdate(e.children, p[0], below.entity);
      } else {
        DemandCoversContent(e', below.demand.value);
      }
    } else if !e.kind.Sizeable() {
      assert Content(e) == e.kind.Metadata() + SumNeeds(e.children);
    }
  }
}
