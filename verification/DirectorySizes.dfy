/** Growing the mountpoints so that each holds the directories below it. */
module DirectorySizes {
  import opened Basics
  import opened Entities
  import opened Resize
  import opened ResizeOrder
  import opened Mounts
  import opened Directories

  // ---------- directories grouped by mountpoint ----------

  ghost predicate AllFound(e: Entity, sizes: map<string, nat>) {
    forall d :: d in sizes ==> FindDirectory(e, d).Some?
  }

  /** The directories whose closest mounted ancestor is `m`. */
  ghost function Under(e: Entity, sizes: map<string, nat>, m: string): (r: set<string>)
    ensures r <= sizes.Keys
  {
    set d | d in sizes && FindDirectory(e, d) == Some(m)
  }

  ghost function Targets(e: Entity, sizes: map<string, nat>): set<string>
    requires AllFound(e, sizes)
  {
    set d | d in sizes :: FindDirectory(e, d).value
  }

  ghost function Total(e: Entity, sizes: map<string, nat>, m: string): nat {
    SumOver(sizes, Under(e, sizes, m))
  }

  predicate AllMounted(e: Entity, ms: seq<string>) {
    forall m :: m in ms ==> EntityPath(e, m).Some?
  }

  /** The resizes for the mountpoints `ms`, in that order. */
  ghost function Requests(e: Entity, sizes: map<string, nat>, ms: seq<string>): (r: seq<Request>)
    requires AllMounted(e, ms)
    ensures Addressed(e, r)
  {
    if ms == [] then []
    else
      EntityPathMounted(e, ms[0]);
      [Request(EntityPath(e, ms[0]).value, Total(e, sizes, ms[0]))] + Requests(e, sizes, ms[1..])
  }

  /** `ms` lists each mountpoint that has directories once, in any order. */
  ghost predicate Enumerates(e: Entity, sizes: map<string, nat>, ms: seq<string>)
    requires AllFound(e, sizes)
  {
    multiset(ms) == multiset(Targets(e, sizes))
  }

  lemma {:induction false} SetListed(s: set<string>) returns (ms: seq<string>)
    ensures multiset(ms) == multiset(s)
  {
    if s == {} {
      ms := [];
    } else {
      var x :| x in s;
      var rest := SetListed(s - {x});
      ms := [x] + rest;
      assert multiset(s) == multiset(s - {x}) + multiset{x};
    }
  }

  lemma ListingExists(e: Entity, sizes: map<string, nat>)
    requires AllFound(e, sizes)
    ensures exists ms :: Enumerates(e, sizes, ms)
  {
    var ms := SetListed(Targets(e, sizes));
    assert Enumerates(e, sizes, ms);
  }

  lemma TargetsMounted(e: Entity, sizes: map<string, nat>, ms: seq<string>)
    requires AllFound(e, sizes) && Enumerates(e, sizes, ms)
    ensures AllMounted(e, ms) && forall m :: m in ms ==> m in Targets(e, sizes)
  {
    forall m | m in ms ensures EntityPath(e, m).Some? && m in Targets(e, sizes) {
      assert m in multiset(ms);
      assert m in multiset(Targets(e, sizes));
    }
  }

  ghost function SomeListing(e: Entity, sizes: map<string, nat>): (ms: seq<string>)
    requires AllFound(e, sizes)
    ensures Enumerates(e, sizes, ms)
    ensures AllMounted(e, ms)
  {
    ListingExists(e, sizes);
    var ms :| Enumerates(e, sizes, ms);
    TargetsMounted(e, sizes, ms);
    ms
  }

  /** The tree after all directories are accounted for. */
  ghost function EnsureDirectories(e: Entity, sizes: map<string, nat>): (r: Entity)
    requires AllFound(e, sizes)
    ensures Grown(e, r)
  {
    ResizeAll(e, Requests(e, sizes, SomeListing(e, sizes)))
  }

  // ---------- every order gives the same tree ----------

  lemma {:induction false} RequestsConcat(e: Entity, sizes: map<string, nat>, a: seq<string>, b: seq<string>)
    requires AllMounted(e, a) && AllMounted(e, b)
    ensures AllMounted(e, a + b)
    ensures Requests(e, sizes, a + b) == Requests(e, sizes, a) + Requests(e, sizes, b)
  {
    if a == [] {
      assert a + b == b;
    } else {
      assert (a + b)[1..] == a[1..] + b;
      RequestsConcat(e, sizes, a[1..], b);
    }
  }

  lemma RequestsMoveHead(e: Entity, sizes: map<string, nat>, a: seq<string>, x: string, b: seq<string>)
    requires AllMounted(e, a) && AllMounted(e, [x]) && AllMounted(e, b)
    ensures AllMounted(e, a + [x] + b) && AllMounted(e, a + b)
    ensures multiset(Requests(e, sizes, a + [x] + b)) == multiset(Requests(e, sizes, [x])) + multiset(Requests(e, sizes, a + b))
  {
    RequestsConcat(e, sizes, a, b);
    RequestsConcat(e, sizes, a, [x]);
    RequestsConcat(e, sizes, a + [x], b);
  }

  lemma PartsMounted(e: Entity, a: seq<string>, x: string, b: seq<string>)
    requires AllMounted(e, a + [x] + b)
    ensures AllMounted(e, a) && AllMounted(e, [x]) && AllMounted(e, b)
  {
    assert forall m :: m in a || m == x || m in b ==> m in a + [x] + b;
  }

  lemma {:induction false} RequestsPermute(e: Entity, sizes: map<string, nat>, xs: seq<string>, ys: seq<string>)
    requires multiset(xs) == multiset(ys) && AllMounted(e, xs) && AllMounted(e, ys)
    ensures multiset(Requests(e, sizes, xs)) == multiset(Requests(e, sizes, ys))
  {
    SameLength(xs, ys);
    if xs != [] {
      var a, b := SplitAtHead(xs, ys);
      PartsMounted(e, a, xs[0], b);
      RequestsMoveHead(e, sizes, a, xs[0], b);
      RequestsMoveHead(e, sizes, [], xs[0], xs[1..]);
      assert [] + [xs[0]] + xs[1..] == xs && [] + xs[1..] == xs[1..];
      RequestsPermute(e, sizes, xs[1..], a + b);
    }
  }

  lemma {:induction false} RequestsDiverge(e: Entity, sizes: map<string, nat>, ms: seq<string>)
    requires WellTyped(e) && AllMounted(e, ms)
    requires forall i, j :: 0 <= i < j < |ms| ==> ms[i] != ms[j]
    ensures Diverging(Requests(e, sizes, ms))
  {
    if ms != [] {
      RequestsDiverge(e, sizes, ms[1..]);
      var x := Requests(e, sizes, ms)[0];
      forall r | r in Requests(e, sizes, ms[1..]) ensures Diverge(x.path, r.path) {
        var m := RequestFor(e, sizes, ms[1..], r);
        EntityPathMounted(e, ms[0]);
        EntityPathMounted(e, m);
        MountablesDiverge(e, x.path, r.path);
      }
    }
  }

  lemma {:induction false} RequestFor(e: Entity, sizes: map<string, nat>, ms: seq<string>, r: Request) returns (m: string)
    requires AllMounted(e, ms)
    requires r in Requests(e, sizes, ms)
    ensures m in ms && r == Request(EntityPath(e, m).value, Total(e, sizes, m))
  {
    if r == Requests(e, sizes, ms)[0] {
      m := ms[0];
    } else {
      m := RequestFor(e, sizes, ms[1..], r);
    }
  }

  lemma CountedTwice(ms: seq<string>, i: nat, j: nat)
    requires i < j < |ms| && ms[i] == ms[j]
    ensures 2 <= multiset(ms)[ms[i]]
  {
    assert ms == ms[..i] + [ms[i]] + ms[i + 1..j] + [ms[j]] + ms[j + 1..];
  }

  lemma ListedOnce(s: set<string>, ms: seq<string>)
    requires multiset(ms) == multiset(s)
    ensures forall i, j :: 0 <= i < j < |ms| ==> ms[i] != ms[j]
  {
    forall i, j | 0 <= i < j < |ms| ensures ms[i] != ms[j] {
      if ms[i] == ms[j] { CountedTwice(ms, i, j); }
    }
  }

  /** Main result: however the two maps are iterated over, the resulting tree is the same. */
  lemma EveryOrder(e: Entity, sizes: map<string, nat>, ms: seq<string>)
    requires WellTyped(e) && AllFound(e, sizes) && Enumerates(e, sizes, ms)
    ensures AllMounted(e, ms)
    ensures ResizeAll(e, Requests(e, sizes, ms)) == EnsureDirectories(e, sizes)
  {
    TargetsMounted(e, sizes, ms);
    var ms' := SomeListing(e, sizes);
    ListedOnce(Targets(e, sizes), ms');
    RequestsPermute(e, sizes, ms, ms');
    RequestsDiverge(e, sizes, ms');
    OrderIrrelevant(e, Requests(e, sizes, ms), Requests(e, sizes, ms'));
  }

  // ---------- every mountpoint holds its directories ----------

  lemma {:induction false} NearestGrows(e: Entity, e': Entity, p: Path, outer: nat, outer': nat)
    requires Grown(e, e') && ValidPath(e, p) && outer <= outer'
    ensures ValidPath(e', p) && NearestSize(e, p, outer) <= NearestSize(e', p, outer')
    decreases p
  {
    if p != [] {
      NearestGrows(e.children[p[0]], e'.children[p[0]], p[1..],
                   if e.kind.Sizeable() then e.size else outer, if e.kind.Sizeable() then e'.size else outer');
    }
  }

  /** The requests with the one for `m` first, which reaches its nearest sized entity. */
  lemma RequestReaches(e: Entity, sizes: map<string, nat>, m: string) returns (first: Entity)
    requires WellTyped(e) && e.kind.Sizeable() && AllFound(e, sizes) && m in Targets(e, sizes)
    ensures EntityPath(e, m).Some? && ValidPath(e, EntityPath(e, m).value)
    ensures first == ResizeTo(e, Request(EntityPath(e, m).value, Total(e, sizes, m)))
    ensures Grown(e, first) && Grown(first, EnsureDirectories(e, sizes))
  {
    var ms := SetListed(Targets(e, sizes) - {m});
    var all := [m] + ms;
    assert multiset(Targets(e, sizes)) == multiset(Targets(e, sizes) - {m}) + multiset{m};
    EveryOrder(e, sizes, all);
    assert m in all && all[1..] == ms;
    EntityPathMounted(e, m);
    var rs := Requests(e, sizes, all);
    first := ResizeTo(e, rs[0]);
    StillAddressed(e, first, rs[1..]);
  }

  /** Main result: the nearest sized entity of a mountpoint ends at least as large as the sum of
      the directories that it is the closest mounted ancestor of. */
  lemma DirectoriesFit(e: Entity, sizes: map<string, nat>, m: string, outer: nat)
    requires WellTyped(e) && e.kind.Sizeable() && AllFound(e, sizes) && m in Targets(e, sizes)
    ensures var e' := EnsureDirectories(e, sizes);
            && EntityPath(e', m) == EntityPath(e, m) && EntityPath(e', m).Some?
            && ValidPath(e', EntityPath(e', m).value)
            && Total(e, sizes, m) <= NearestSize(e', EntityPath(e', m).value, outer)
  {
    var first := RequestReaches(e, sizes, m);
    var p := EntityPath(e, m).value;
    EntityPathMounted(e, m);
    ResizeReachesNearest(e, p, Total(e, sizes, m), outer);
    GrownAt(e, first, p);
    NearestGrows(first, EnsureDirectories(e, sizes), p, outer, outer);
    GrownPath(e, EnsureDirectories(e, sizes), m);
  }

  /** So a mountpoint that occurs once has room for its directories. */
  lemma DirectoriesHaveRoom(e: Entity, sizes: map<string, nat>, m: string, outer: nat)
    requires WellTyped(e) && e.kind.Sizeable() && AllFound(e, sizes)
    requires m in Targets(e, sizes) && MountSet(e)[m] <= 1
    ensures Room(EnsureDirectories(e, sizes), m, Total(e, sizes, m), outer)
  {
    var e' := EnsureDirectories(e, sizes);
    DirectoriesFit(e, sizes, m, outer);
    EntityPathMounted(e', m);
    GrownMounts(e, e');
    GrownKeepsShape(e, e');
    RoomFromPath(e', m, Total(e, sizes, m), outer, EntityPath(e', m).value);
  }
}
