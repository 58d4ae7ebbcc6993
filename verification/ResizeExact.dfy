/** How large a resize makes the entities of a branch: no larger than needed, and logical volumes
    in whole extents. */
module ResizeExact {
  import opened Basics
  import opened Entities
  import opened Resize
  import opened ResizeOrder

  // ---------- what entities take ----------

  /** Metadata in bytes: a MiB in a volume group, 16 MiB in a LUKS container. */
  lemma ContentInBytes(e: Entity)
    ensures Content(e) == SumNeeds(e.children) +
              (if e.kind.VolumeGroup? then 1048576 else if e.kind.Luks? then 16777216 else 0)
    ensures Need(e) == if e.kind.Table? || e.kind.Partition? || e.kind.LogicalVolume? || e.kind.Subvolume?
                       then e.size else Content(e)
  {
  }

  // ---------- whole extents ----------

  /** Every logical volume has whole extents of 4 MiB. */
  predicate WholeExtents(e: Entity) {
    && (e.kind.LogicalVolume? ==> e.size % 4194304 == 0)
    && forall i :: 0 <= i < |e.children| ==> WholeExtents(e.children[i])
  }

  lemma ResizeOneExtents(e: Entity, size: nat)
    requires WholeExtents(e)
    ensures WholeExtents(ResizeOne(e, size).entity)
  {
  }

  /** A resize leaves logical volumes in whole extents. */
  lemma {:induction false} ResizeKeepsExtents(e: Entity, p: Path, size: nat)
    requires ValidPath(e, p) && WholeExtents(e)
    ensures WholeExtents(ResizeBranch(e, p, size).entity)
    decreases p
  {
    if p == [] {
      ResizeOneExtents(e, size);
    } else {
      var below := ResizeBranch(e.children[p[0]], p[1..], size);
      ResizeKeepsExtents(e.children[p[0]], p[1..], size);
      var e' := e.(children := e.children[p[0] := below.entity]);
      if below.demand.Some? { ResizeOneExtents(e', below.demand.value); }
    }
  }

  lemma {:induction false} ResizeAllKeepsExtents(e: Entity, rs: seq<Request>)
    requires WholeExtents(e) && Addressed(e, rs)
    ensures WholeExtents(ResizeAll(e, rs))
    decreases rs
  {
    if rs != [] {
      var first := ResizeTo(e, rs[0]);
      ResizeKeepsExtents(e, rs[0].path, rs[0].size);
      StillAddressed(e, first, rs[1..]);
      ResizeAllKeepsExtents(first, rs[1..]);
    }
  }

  // ---------- how much a branch grows ----------

  /** The size after a demand: the old one if it is enough, otherwise the demand, which a logical
      volume rounds to the next whole extent. */
  predicate GrownTo(k: Kind, before: nat, after: nat, demand: nat) {
    if demand <= before then after == before
    else if k.LogicalVolume? then after % 4194304 == 0 && demand <= after < demand + 4194304
    else after == demand
  }

  /** Between a mounted entity and the next sized one there are LUKS containers only, each adding
      its header to the demand. */
  lemma {:induction false} BareDemand(e: Entity, p: Path, size: nat)
    requires WellTyped(e) && ValidPath(e, p) && Bare(e, p) && At(e, p).kind.Filesystem?
    ensures ResizeBranch(e, p, size) == Outcome(e, Some(size + 16777216 * |p|))
    decreases p
  {
    if p != [] {
      var c := e.children[p[0]];
      ChildTyped(e, p[0]);
      BareDemand(c, p[1..], size);
      assert e.kind.Luks?;
      ChildrenShape(e);
      assert e.children[p[0] := c] == e.children;
    }
  }

  /** The nearest sized entity of a filesystem grows to exactly the requested size and the headers
      of the LUKS containers in between. */
  lemma NearestExact(e: Entity, p: Path, size: nat)
    requires WellTyped(e) && ValidPath(e, p) && e.kind.Sizeable() && p != []
    requires Bare(e.children[p[0]], p[1..]) && At(e, p).kind.Filesystem?
    ensures var r := ResizeBranch(e, p, size).entity;
            && GrownTo(e.kind, e.size, r.size, size + 16777216 * |p[1..]|)
            && r == e.(size := r.size)
  {
    var c := e.children[p[0]];
    ChildTyped(e, p[0]);
    BareDemand(c, p[1..], size);
    ChildrenShape(e);
    assert e.children[p[0] := c] == e.children;
  }

  /** A sized target without sized children grows to exactly the requested size. */
  lemma TargetExact(e: Entity, size: nat)
    requires WellTyped(e) && (e.kind.Partition? || e.kind.LogicalVolume? || e.kind.Subvolume?)
    ensures var r := ResizeBranch(e, [], size).entity;
            GrownTo(e.kind, e.size, r.size, size) && r == e.(size := r.size)
  {
    ChildrenShape(e);
  }

  /** An entity further up grows to exactly what its children and its metadata take. */
  lemma {:induction false} AncestorsExact(e: Entity, p: Path, size: nat, q: Path)
    requires WellTyped(e) && ValidPath(e, p) && q < p && ValidPath(e, q) && At(e, q).kind.Sizeable()
    requires ValidPath(At(e, q), p[|q|..]) && !Bare(At(e, q).children[p[|q|]], p[|q| + 1..])
    ensures ValidPath(ResizeBranch(e, p, size).entity, q)
    ensures var a, a' := At(e, q), At(ResizeBranch(e, p, size).entity, q);
            a'.size == a.size || GrownTo(a.kind, a.size, a'.size, Content(a'))
    decreases q
  {
    ResizeGrows(e, p, size);
    GrownKeepsShape(e, ResizeBranch(e, p, size).entity);
    if q == [] {
      assert p[0..] == p;
      ResizeSettles(e, p, size);
    } else {
      PrefixTail(q, p);
      ChildTyped(e, p[0]);
      assert p[1..][|q[1..]|..] == p[|q|..] && p[1..][|q[1..]| + 1..] == p[|q| + 1..];
      AncestorsExact(e.children[p[0]], p[1..], size, q[1..]);
    }
  }

  // ---------- the same, seen from the root of the tree ----------

  lemma {:induction false} ResizeAt(e: Entity, p: Path, size: nat, q: Path)
    requires ValidPath(e, p) && q <= p
    ensures ValidPath(e, q) && ValidPath(At(e, q), p[|q|..]) && ValidPath(ResizeBranch(e, p, size).entity, q)
    ensures At(ResizeBranch(e, p, size).entity, q) == ResizeBranch(At(e, q), p[|q|..], size).entity
    decreases q
  {
    if q == [] {
      assert p[0..] == p;
    } else {
      PrefixTail(q, p);
      assert p[1..][|q[1..]|..] == p[|q|..];
      ResizeAt(e.children[p[0]], p[1..], size, q[1..]);
    }
  }

  /** The address of the nearest sized entity of something mounted. */
  predicate Holder(e: Entity, p: Path, q: Path)
    requires ValidPath(e, p)
  {
    && q <= p && ValidPath(e, q) && At(e, q).kind.Sizeable()
    && ValidPath(At(e, q), p[|q|..])
    && (q != p ==> Bare(At(e, q).children[p[|q|]], p[|q|..][1..]))
  }

  /** The LUKS headers between the two, in bytes. */
  function Headers(p: Path, q: Path): nat
    requires q <= p
  {
    if q == p then 0 else 16777216 * (|p| - |q| - 1)
  }

  lemma {:induction false} AtAt(e: Entity, p: Path, q: Path)
    requires ValidPath(e, p) && q <= p
    ensures ValidPath(e, q) && ValidPath(At(e, q), p[|q|..]) && At(At(e, q), p[|q|..]) == At(e, p)
    ensures WellTyped(e) ==> WellTyped(At(e, q))
    decreases q
  {
    if q == [] {
      assert p[0..] == p;
    } else {
      PrefixTail(q, p);
      assert p[1..][|q[1..]|..] == p[|q|..];
      AtAt(e.children[p[0]], p[1..], q[1..]);
    }
  }

  /** Main result: a resize aimed at something mounted makes its nearest sized entity exactly as large
      as asked, with the headers in between and in whole extents, unless it was large enough. */
  lemma HolderExact(e: Entity, p: Path, q: Path, size: nat)
    requires WellTyped(e) && ValidPath(e, p) && At(e, p).kind.Mountable() && Holder(e, p, q)
    ensures ValidPath(ResizeBranch(e, p, size).entity, q)
    ensures var a, a' := At(e, q), At(ResizeBranch(e, p, size).entity, q);
            GrownTo(a.kind, a.size, a'.size, size + Headers(p, q)) && a' == a.(size := a'.size)
  {
    var a := At(e, q);
    AtAt(e, p, q);
    ResizeAt(e, p, size, q);
    if q == p {
      assert p[|q|..] == [];
      TargetExact(a, size);
    } else {
      ChildTyped(a, p[|q|]);
      assert At(a, p[|q|..]) == At(a.children[p[|q|]], p[|q|..][1..]);
      if At(e, p).kind.Filesystem? {
        NearestExact(a, p[|q|..], size);
      } else {
        BareIsUnsized(a.children[p[|q|]], p[|q|..][1..]);
      }
    }
  }

  lemma {:induction false} BareIsUnsized(e: Entity, p: Path)
    requires ValidPath(e, p) && Bare(e, p)
    ensures !At(e, p).kind.Sizeable()
    decreases p
  {
    if p != [] { BareIsUnsized(e.children[p[0]], p[1..]); }
  }
}
