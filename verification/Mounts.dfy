/** Finding mounted entities: the search for a mountpoint, the traversal that visits every
    mountable, and the room a mountpoint has. */
module Mounts {
  import opened Basics
  import opened Entities
  import opened Resize
  import opened ResizeOrder

  // ---------- search and traversal ----------

  /** The address of the first entity mounted at `target`.  (The Go code returns the same
      entities in the opposite order, from the mounted one up.) */
  function EntityPath(e: Entity, target: string): Option<Path>
    decreases e, |e.children| + 1
  {
    if e.kind.Mountable() then if e.kind.mountpoint == target then Some([]) else None
    else if e.kind.Container() then ChildPath(e, 0, target)
    else None
  }

  function ChildPath(e: Entity, i: nat, target: string): Option<Path>
    requires i <= |e.children|
    decreases e, |e.children| - i
  {
    if i == |e.children| then None
    else
      match EntityPath(e.children[i], target)
      case Some(p) => Some([i] + p)
      case None => ChildPath(e, i + 1, target)
  }

  /** The addresses in the order in which the traversal of mountables calls back. */
  function Visits(e: Entity): seq<Path>
    decreases e, |e.children| + 1
  {
    if e.kind.Mountable() then [[]]
    else if e.kind.Container() then ChildVisits(e, 0)
    else []
  }

  function ChildVisits(e: Entity, i: nat): seq<Path>
    requires i <= |e.children|
    decreases e, |e.children| - i
  {
    if i == |e.children| then []
    else Below(i, Visits(e.children[i])) + ChildVisits(e, i + 1)
  }

  function Below(i: nat, ps: seq<Path>): seq<Path> {
    seq(|ps|, k requires 0 <= k < |ps| => [i] + ps[k])
  }

  predicate MountedAt(e: Entity, p: Path, target: string) {
    && ValidPath(e, p)
    && At(e, p).kind.Mountable()
    && At(e, p).kind.mountpoint == target
  }

  lemma {:induction false} VisitsAreMountables(e: Entity, p: Path)
    requires WellTyped(e)
    ensures p in Visits(e) <==> ValidPath(e, p) && At(e, p).kind.Mountable()
    decreases e, |e.children| + 1
  {
    ChildrenShape(e);
    if !e.kind.Mountable() && e.kind.Container() {
      ChildVisitsAreMountables(e, 0, p);
    }
  }

  lemma {:induction false} ChildVisitsAreMountables(e: Entity, i: nat, p: Path)
    requires WellTyped(e) && i <= |e.children|
    ensures p in ChildVisits(e, i) <==> p != [] && i <= p[0] && ValidPath(e, p) && At(e, p).kind.Mountable()
    decreases e, |e.children| - i
  {
    if i < |e.children| {
      var here := Visits(e.children[i]);
      ChildVisitsAreMountables(e, i + 1, p);
      if p != [] {
        VisitsAreMountables(e.children[i], p[1..]);
        if p[0] == i && p[1..] in here {
          var k :| 0 <= k < |here| && here[k] == p[1..];
          assert Below(i, here)[k] == [i] + here[k] == p;
        }
        if p in Below(i, here) {
          var k :| 0 <= k < |here| && Below(i, here)[k] == p;
          assert p[1..] == here[k];
        }
      }
    }
  }

  /** `p` is the first of `ps` whose entity is mounted at `target`. */
  predicate FirstMounted(e: Entity, ps: seq<Path>, target: string, p: Path) {
    exists k :: 0 <= k < |ps| && ps[k] == p && MountedAt(e, p, target)
                && forall j :: 0 <= j < k ==> !MountedAt(e, ps[j], target)
  }

  /** Main result: the search returns exactly the first visit of the traversal. */
  lemma {:induction false} EntityPathIsFirstVisit(e: Entity, target: string)
    ensures match EntityPath(e, target)
            case Some(p) => FirstMounted(e, Visits(e), target, p)
            case None => forall p :: p in Visits(e) ==> !MountedAt(e, p, target)
    decreases e, |e.children| + 1
  {
    if e.kind.Mountable() {
      assert Visits(e)[0] == [];
    } else if e.kind.Container() {
      ChildPathIsFirstVisit(e, 0, target);
    }
  }

  lemma {:induction false} ChildPathIsFirstVisit(e: Entity, i: nat, target: string)
    requires i <= |e.children|
    ensures match ChildPath(e, i, target)
            case Some(p) => FirstMounted(e, ChildVisits(e, i), target, p)
            case None => forall p :: p in ChildVisits(e, i) ==> !MountedAt(e, p, target)
    decreases e, |e.children| - i
  {
    if i < |e.children| {
      var c := e.children[i];
      var here, later := Visits(c), ChildVisits(e, i + 1);
      EntityPathIsFirstVisit(c, target);
      assert forall k :: 0 <= k < |here| ==> Below(i, here)[k][1..] == here[k];
      assert forall k :: 0 <= k < |here| ==>
        (MountedAt(e, Below(i, here)[k], target) <==> MountedAt(c, here[k], target));
      match EntityPath(c, target) {
        case Some(q) =>
          var k :| 0 <= k < |here| && here[k] == q && MountedAt(c, q, target)
                   && forall j :: 0 <= j < k ==> !MountedAt(c, here[j], target);
          assert (Below(i, here) + later)[k] == [i] + q;
        case None =>
          ChildPathIsFirstVisit(e, i + 1, target);
          match ChildPath(e, i + 1, target) {
            case Some(p) =>
              var k :| 0 <= k < |later| && later[k] == p && MountedAt(e, p, target)
                       && forall j :: 0 <= j < k ==> !MountedAt(e, later[j], target);
              assert (Below(i, here) + later)[|here| + k] == p;
              assert forall j :: 0 <= j < |here| ==> !MountedAt(c, here[j], target);
            case None =>
          }
      }
    }
  }

  lemma EntityPathMounted(e: Entity, target: string)
    requires EntityPath(e, target).Some?
    ensures MountedAt(e, EntityPath(e, target).value, target)
  {
    EntityPathIsFirstVisit(e, target);
  }

  /** In the order of the children, at the first place where two addresses part. */
  predicate NotAfter(p: Path, q: Path) {
    p == [] || (q != [] && (p[0] < q[0] || (p[0] == q[0] && NotAfter(p[1..], q[1..]))))
  }

  /** Of all entities mounted at a mountpoint the search finds the one that comes first. */
  lemma {:induction false} EntityPathIsLeast(e: Entity, q: Path, target: string)
    requires WellTyped(e) && MountedAt(e, q, target)
    ensures EntityPath(e, target).Some? && NotAfter(EntityPath(e, target).value, q)
    decreases q, 1
  {
    ChildrenShape(e);
    if q != [] { ChildPathIsLeast(e, 0, q, target); }
  }

  lemma {:induction false} ChildPathIsLeast(e: Entity, i: nat, q: Path, target: string)
    requires WellTyped(e) && MountedAt(e, q, target) && q != [] && i <= q[0]
    ensures ChildPath(e, i, target).Some? && NotAfter(ChildPath(e, i, target).value, q)
    decreases q, 0, q[0] - i
  {
    if i == q[0] {
      ChildTyped(e, i);
      EntityPathIsLeast(e.children[i], q[1..], target);
    } else if EntityPath(e.children[i], target).None? {
      ChildPathIsLeast(e, i + 1, q, target);
    }
  }

  // ---------- which mountpoints there are ----------

  function MountSet(e: Entity): multiset<string>
    decreases e, 1
  {
    if e.kind.Mountable() then multiset{e.kind.mountpoint} else MountSets(e.children)
  }

  function MountSets(cs: seq<Entity>): multiset<string>
    decreases cs
  {
    if cs == [] then multiset{} else MountSet(cs[0]) + MountSets(cs[1..])
  }

  lemma {:induction false} MountSetsConcat(cs: seq<Entity>, ds: seq<Entity>)
    ensures MountSets(cs + ds) == MountSets(cs) + MountSets(ds)
  {
    if cs == [] {
      assert cs + ds == ds;
    } else {
      assert (cs + ds)[1..] == cs[1..] + ds;
      MountSetsConcat(cs[1..], ds);
    }
  }

  lemma {:induction false} MountSetsUpdate(cs: seq<Entity>, i: nat, c: Entity)
    requires i < |cs|
    ensures MountSets(cs[i := c]) + MountSet(cs[i]) == MountSets(cs) + MountSet(c)
  {
    if i == 0 {
      assert cs[0 := c][1..] == cs[1..];
    } else {
      assert cs[i := c][1..] == cs[1..][i - 1 := c];
      MountSetsUpdate(cs[1..], i - 1, c);
      assert MountSets(cs[i := c]) + MountSet(cs[i])
          == MountSet(cs[0]) + (MountSets(cs[1..][i - 1 := c]) + MountSet(cs[1..][i - 1]));
    }
  }

  lemma {:induction false} MountSetsMember(cs: seq<Entity>, i: nat, m: string)
    requires i < |cs|
    ensures MountSet(cs[i])[m] <= MountSets(cs)[m]
  {
    if i != 0 { MountSetsMember(cs[1..], i - 1, m); }
  }

  lemma {:induction false} UpdateMounts(e: Entity, p: Path, n: Entity)
    requires WellTyped(e) && ValidPath(e, p)
    ensures MountSet(UpdateAt(e, p, n)) + MountSet(At(e, p)) == MountSet(e) + MountSet(n)
    decreases p
  {
    ChildrenShape(e);
    if p != [] {
      assert e.kind.Container();
      var c := e.children[p[0]];
      var c' := UpdateAt(c, p[1..], n);
      UpdateMounts(c, p[1..], n);
      MountSetsUpdate(e.children, p[0], c');
      Exchange(MountSets(e.children[p[0] := c']), MountSet(c), MountSets(e.children), MountSet(c'),
               MountSet(At(c, p[1..])), MountSet(n));
    }
  }

  lemma Exchange(whole': multiset<string>, part: multiset<string>, whole: multiset<string>, part': multiset<string>,
                 x: multiset<string>, y: multiset<string>)
    requires whole' + part == whole + part' && part' + x == part + y
    ensures whole' + x == whole + y
  {
    forall m: string ensures (whole' + x)[m] == (whole + y)[m] {
      assert (whole' + part)[m] == (whole + part')[m] && (part' + x)[m] == (part + y)[m];
    }
  }

  lemma {:induction false} FoundIffMounted(e: Entity, target: string)
    requires WellTyped(e)
    ensures EntityPath(e, target).Some? <==> target in MountSet(e)
    decreases e, |e.children| + 1
  {
    ChildrenShape(e);
    if !e.kind.Mountable() && e.kind.Container() {
      ChildFoundIffMounted(e, 0, target);
      assert e.children[0..] == e.children;
    }
  }

  lemma {:induction false} ChildFoundIffMounted(e: Entity, i: nat, target: string)
    requires WellTyped(e) && i <= |e.children|
    ensures ChildPath(e, i, target).Some? <==> target in MountSets(e.children[i..])
    decreases e, |e.children| - i
  {
    if i < |e.children| {
      FoundIffMounted(e.children[i], target);
      ChildFoundIffMounted(e, i + 1, target);
      assert e.children[i..][1..] == e.children[i + 1..];
    }
  }

  lemma {:induction false} GrownMounts(e: Entity, e': Entity)
    requires Grown(e, e')
    ensures MountSet(e') == MountSet(e)
    decreases e, 1
  {
    GrownMountSets(e.children, e'.children);
  }

  lemma {:induction false} GrownMountSets(cs: seq<Entity>, cs': seq<Entity>)
    requires |cs| == |cs'| && forall i :: 0 <= i < |cs| ==> Grown(cs[i], cs'[i])
    ensures MountSets(cs') == MountSets(cs)
    decreases cs
  {
    if cs != [] {
      GrownMounts(cs[0], cs'[0]);
      GrownMountSets(cs[1..], cs'[1..]);
    }
  }

  lemma {:induction false} GrownPath(e: Entity, e': Entity, target: string)
    requires Grown(e, e')
    ensures EntityPath(e', target) == EntityPath(e, target)
    decreases e, |e.children| + 1
  {
    if !e.kind.Mountable() && e.kind.Container() { GrownChildPath(e, e', 0, target); }
  }

  lemma {:induction false} GrownChildPath(e: Entity, e': Entity, i: nat, target: string)
    requires Grown(e, e') && i <= |e.children|
    ensures ChildPath(e', i, target) == ChildPath(e, i, target)
    decreases e, |e.children| - i
  {
    if i < |e.children| {
      GrownPath(e.children[i], e'.children[i], target);
      GrownChildPath(e, e', i + 1, target);
    }
  }

  // ---------- how much room a mountpoint has ----------

  /** The size of the nearest sized entity on the path, from its end upwards; `outer` above the root. */
  function NearestSize(e: Entity, p: Path, outer: nat): nat
    requires ValidPath(e, p)
    decreases p
  {
    var here := if e.kind.Sizeable() then e.size else outer;
    if p == [] then here else NearestSize(e.children[p[0]], p[1..], here)
  }

  /** Whatever is mounted at `m` lives in a sized entity of at least `s` bytes. */
  predicate Room(e: Entity, m: string, s: nat, outer: nat) {
    var here := if e.kind.Sizeable() then e.size else outer;
    if e.kind.Mountable() then e.kind.mountpoint == m ==> s <= here
    else forall i :: 0 <= i < |e.children| ==> Room(e.children[i], m, s, here)
  }

  lemma {:induction false} RoomGrows(e: Entity, e': Entity, m: string, s: nat, outer: nat, outer': nat)
    requires Grown(e, e') && outer <= outer' && Room(e, m, s, outer)
    ensures Room(e', m, s, outer')
  {
    if !e.kind.Mountable() {
      var here, here' := if e.kind.Sizeable() then e.size else outer, if e.kind.Sizeable() then e'.size else outer';
      forall i | 0 <= i < |e.children| ensures Room(e'.children[i], m, s, here') {
        RoomGrows(e.children[i], e'.children[i], m, s, here, here');
      }
    }
  }

  lemma {:induction false} RoomIfAbsent(e: Entity, m: string, s: nat, outer: nat)
    requires m !in MountSet(e)
    ensures Room(e, m, s, outer)
  {
    if !e.kind.Mountable() {
      var here := if e.kind.Sizeable() then e.size else outer;
      forall i | 0 <= i < |e.children| ensures Room(e.children[i], m, s, here) {
        MountSetsMember(e.children, i, m);
        RoomIfAbsent(e.children[i], m, s, here);
      }
    }
  }

  lemma {:induction false} RoomAtPath(e: Entity, m: string, s: nat, outer: nat, p: Path)
    requires WellTyped(e) && Room(e, m, s, outer) && MountedAt(e, p, m)
    ensures s <= NearestSize(e, p, outer)
    decreases p
  {
    if p != [] {
      ChildrenShape(e);
      RoomAtPath(e.children[p[0]], m, s, if e.kind.Sizeable() then e.size else outer, p[1..]);
    }
  }

  /** With one entity mounted at `m`, room there is room on its path. */
  lemma {:induction false} RoomFromPath(e: Entity, m: string, s: nat, outer: nat, p: Path)
    requires WellTyped(e) && MountSet(e)[m] <= 1 && MountedAt(e, p, m)
    requires s <= NearestSize(e, p, outer)
    ensures Room(e, m, s, outer)
    decreases p
  {
    if p != [] {
      ChildrenShape(e);
      var here := if e.kind.Sizeable() then e.size else outer;
      forall i | 0 <= i < |e.children| ensures Room(e.children[i], m, s, here) {
        MountSetsMember(e.children, i, m);
        if i == p[0] {
          RoomFromPath(e.children[i], m, s, here, p[1..]);
        } else {
          MountedInSet(e.children[p[0]], p[1..], m);
          MountSetsTwo(e.children, i, p[0], m);
          RoomIfAbsent(e.children[i], m, s, here);
        }
      }
    }
  }

  lemma {:induction false} MountedInSet(e: Entity, p: Path, m: string)
    requires WellTyped(e) && MountedAt(e, p, m)
    ensures m in MountSet(e)
    decreases p
  {
    if p != [] {
      ChildrenShape(e);
      MountedInSet(e.children[p[0]], p[1..], m);
      MountSetsMember(e.children, p[0], m);
    }
  }

  lemma {:induction false} MountSetsTwo(cs: seq<Entity>, i: nat, j: nat, m: string)
    requires i < |cs| && j < |cs| && i != j
    ensures MountSet(cs[i])[m] + MountSet(cs[j])[m] <= MountSets(cs)[m]
  {
    if i == 0 {
      MountSetsMember(cs[1..], j - 1, m);
    } else if j == 0 {
      MountSetsMember(cs[1..], i - 1, m);
    } else {
      MountSetsTwo(cs[1..], i - 1, j - 1, m);
    }
  }

  /** A resize gives the nearest sized entity at least the requested size. */
  lemma {:induction false} ResizeReachesNearest(e: Entity, p: Path, size: nat, outer: nat)
    requires ValidPath(e, p)
    ensures var r := ResizeBranch(e, p, size);
            && ValidPath(r.entity, p)
            && (Bare(e, p) ==> r.demand.Some? && size <= r.demand.value)
            && (!Bare(e, p) ==> size <= NearestSize(r.entity, p, outer))
    decreases p
  {
    if p != [] {
      var below := ResizeBranch(e.children[p[0]], p[1..], size);
      var here := ResizeBranch(e, p, size).entity;
      ResizeReachesNearest(e.children[p[0]], p[1..], size, if e.kind.Sizeable() then here.size else outer);
      if Bare(e.children[p[0]], p[1..]) {
        ResizeGrows(e.children[p[0]], p[1..], size);
        NearestOfBare(below.entity, p[1..], if e.kind.Sizeable() then here.size else outer, e.children[p[0]]);
      }
    }
  }

  lemma {:induction false} NearestOfBare(e: Entity, p: Path, outer: nat, original: Entity)
    requires ValidPath(original, p) && Bare(original, p) && ValidPath(e, p)
    requires Grown(original, e)
    ensures NearestSize(e, p, outer) == outer
    decreases p
  {
    if p != [] { NearestOfBare(e.children[p[0]], p[1..], outer, original.children[p[0]]); }
  }

  /** Distinct mountpoints have diverging addresses: nothing is mounted below a mounted entity. */
  lemma {:induction false} MountablesDiverge(e: Entity, p: Path, q: Path)
    requires WellTyped(e) && ValidPath(e, p) && ValidPath(e, q) && p != q
    requires At(e, p).kind.Mountable() && At(e, q).kind.Mountable()
    ensures Diverge(p, q)
    decreases p
  {
    ChildrenShape(e);
    if p != [] && q != [] && p[0] == q[0] {
      assert p == [p[0]] + p[1..] && q == [q[0]] + q[1..];
      MountablesDiverge(e.children[p[0]], p[1..], q[1..]);
    }
  }
}
