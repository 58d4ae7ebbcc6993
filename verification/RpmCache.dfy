/** The cache of repository metadata: a directory snapshot is grouped by repository, and the
    repositories used longest ago are evicted until the cache is small enough. */
module RpmCache {
  import opened Basics

  /** A cache entry as the directory listing and the file system report it; `None` for a failure. */
  datatype Entry = Entry(name: string, mtime: Option<int>, size: Option<nat>)

  /** A directory of the cache root with its entries. */
  datatype CacheDir = CacheDir(name: string, entries: seq<Entry>)

  datatype PathInfo = PathInfo(paths: seq<string>, size: nat, mtime: int)

  const ZERO_TIME: int := 0
  const ID_LENGTH: nat := 64

  /** An entry with the directory it is in. */
  datatype Located = Located(dir: string, entry: Entry)
  {
    function Path(): string {
      dir + "/" + entry.name
    }

    /** The entry's status is known and its name starts with a repository ID. */
    predicate Named() {
      entry.mtime.Some? && ID_LENGTH <= |entry.name|
    }

    function Id(): string
      requires Named()
    {
      entry.name[..ID_LENGTH]
    }

    predicate Usable() {
      Named() && entry.size.Some?
    }
  }

  function InDir(dir: string, entries: seq<Entry>): (r: seq<Located>)
    ensures |r| == |entries|
  {
    seq(|entries|, i requires 0 <= i < |entries| => Located(dir, entries[i]))
  }

  function Listing(root: string, dirs: seq<CacheDir>): seq<Located> {
    if dirs == [] then []
    else Listing(root, dirs[..|dirs| - 1]) + InDir(root + "/" + dirs[|dirs| - 1].name, dirs[|dirs| - 1].entries)
  }

  /** The listing has the entries of all directories, each with the path of its directory. */
  lemma {:induction false} ListingIs(root: string, dirs: seq<CacheDir>, l: Located)
    ensures l in Listing(root, dirs) <==>
            exists d :: 0 <= d < |dirs| && l.dir == root + "/" + dirs[d].name && l.entry in dirs[d].entries
  {
    if dirs != [] {
      var n := |dirs| - 1;
      var last := InDir(root + "/" + dirs[n].name, dirs[n].entries);
      ListingIs(root, dirs[..n], l);
      if l in last {
        var i :| 0 <= i < |last| && last[i] == l;
        assert l.entry == dirs[n].entries[i];
      }
      if l.dir == root + "/" + dirs[n].name && l.entry in dirs[n].entries {
        var i :| 0 <= i < |dirs[n].entries| && dirs[n].entries[i] == l.entry;
        assert last[i] == l;
      }
      if l in Listing(root, dirs[..n]) {
        var d :| 0 <= d < n && l.dir == root + "/" + dirs[..n][d].name && l.entry in dirs[..n][d].entries;
        assert dirs[d] == dirs[..n][d];
      }
      if d :| 0 <= d < |dirs| && l.dir == root + "/" + dirs[d].name && l.entry in dirs[d].entries {
        if d < n { assert dirs[..n][d] == dirs[d]; }
      }
    }
  }

  // ---------- what the snapshot says about one repository ----------

  predicate Belongs(l: Located, id: string) {
    l.Usable() && l.Id() == id
  }

  function SizeFor(ls: seq<Located>, id: string): nat {
    if ls == [] then 0
    else SizeFor(ls[..|ls| - 1], id) + (if Belongs(ls[|ls| - 1], id) then ls[|ls| - 1].entry.size.value else 0)
  }

  function PathsFor(ls: seq<Located>, id: string): seq<string> {
    if ls == [] then []
    else PathsFor(ls[..|ls| - 1], id) + (if Belongs(ls[|ls| - 1], id) then [ls[|ls| - 1].Path()] else [])
  }

  /** The most recent time of the repository's entries. */
  function TimeFor(ls: seq<Located>, id: string): int {
    if ls == [] then ZERO_TIME
    else
      var before := TimeFor(ls[..|ls| - 1], id);
      if Belongs(ls[|ls| - 1], id) && before < ls[|ls| - 1].entry.mtime.value then ls[|ls| - 1].entry.mtime.value
      else before
  }

  predicate Mentioned(ls: seq<Located>, id: string) {
    exists i :: 0 <= i < |ls| && Belongs(ls[i], id)
  }

  function InfoFor(ls: seq<Located>, id: string): PathInfo {
    PathInfo(PathsFor(ls, id), SizeFor(ls, id), TimeFor(ls, id))
  }

  function TotalSize(ls: seq<Located>): nat {
    if ls == [] then 0
    else TotalSize(ls[..|ls| - 1]) + (if ls[|ls| - 1].Usable() then ls[|ls| - 1].entry.size.value else 0)
  }

  /** What an entry has to be to count for a repository: its status and size are known, and the ID is
      the first 64 characters of its name. */
  lemma BelongsIff(l: Located, id: string)
    ensures Belongs(l, id) <==>
            l.entry.mtime != None && l.entry.size != None && 64 <= |l.entry.name| && l.entry.name[..64] == id
    ensures Belongs(l, id) ==> |id| == 64
    ensures l.Path() == l.dir + "/" + l.entry.name
  {
  }

  /** The time of a repository is the latest of its entries' times. */
  lemma {:induction false} TimeIsLatest(ls: seq<Located>, id: string)
    ensures forall i :: 0 <= i < |ls| && Belongs(ls[i], id) ==> ls[i].entry.mtime.value <= TimeFor(ls, id)
    ensures TimeFor(ls, id) == 0 || exists i :: 0 <= i < |ls| && Belongs(ls[i], id) && ls[i].entry.mtime.value == TimeFor(ls, id)
    ensures 0 <= TimeFor(ls, id)
  {
    if ls != [] {
      var before := ls[..|ls| - 1];
      TimeIsLatest(before, id);
      forall i | 0 <= i < |ls| && Belongs(ls[i], id) ensures ls[i].entry.mtime.value <= TimeFor(ls, id) {
        if i < |before| { assert before[i] == ls[i]; }
      }
      if TimeFor(before, id) != 0 {
        var i :| 0 <= i < |before| && Belongs(before[i], id) && before[i].entry.mtime.value == TimeFor(before, id);
        assert ls[i] == before[i];
      }
    }
  }

  /** Its paths are those of its entries, and its size counts each of them once. */
  lemma {:induction false} PathsAreEntries(ls: seq<Located>, id: string, path: string)
    ensures path in PathsFor(ls, id) <==> exists i :: 0 <= i < |ls| && Belongs(ls[i], id) && ls[i].dir + "/" + ls[i].entry.name == path
  {
    if ls != [] {
      var before := ls[..|ls| - 1];
      PathsAreEntries(before, id, path);
      if path in PathsFor(before, id) {
        var i :| 0 <= i < |before| && Belongs(before[i], id) && before[i].dir + "/" + before[i].entry.name == path;
        assert ls[i] == before[i];
      }
      if i :| 0 <= i < |ls| && Belongs(ls[i], id) && ls[i].dir + "/" + ls[i].entry.name == path {
        if i < |before| { assert before[i] == ls[i]; }
      }
    }
  }

  lemma {:induction false} SizesAddUp(a: seq<Located>, b: seq<Located>, id: string)
    ensures SizeFor(a + b, id) == SizeFor(a, id) + SizeFor(b, id)
    ensures TotalSize(a + b) == TotalSize(a) + TotalSize(b)
  {
    if b == [] {
      assert a + b == a;
    } else {
      assert (a + b)[..|a + b| - 1] == a + b[..|b| - 1];
      SizesAddUp(a, b[..|b| - 1], id);
    }
  }

  lemma SizeOfOne(l: Located, id: string)
    ensures SizeFor([l], id) == if Belongs(l, id) then l.entry.size.value else 0
    ensures TotalSize([l]) == if exists o :: Belongs(l, o) then l.entry.size.value else 0
  {
    assert [l][..0] == [];
    if l.Usable() { assert Belongs(l, l.Id()); }
  }

  // ---------- the cache ----------

  function Sizes(m: map<string, PathInfo>): (r: map<string, nat>)
    ensures r.Keys == m.Keys
  {
    map k | k in m :: m[k].size
  }

  ghost function SizeOf(m: map<string, PathInfo>): nat {
    SumOver(Sizes(m), m.Keys)
  }

  lemma SizeWithout(m: map<string, PathInfo>, x: string)
    requires x in m
    ensures SizeOf(m) == m[x].size + SizeOf(m - {x})
  {
    SumOverRemove(Sizes(m), m.Keys, x);
    assert (m - {x}).Keys == m.Keys - {x};
    SumOverSame(Sizes(m), Sizes(m - {x}), m.Keys - {x});
  }

  lemma SizeWith(m: map<string, PathInfo>, x: string, info: PathInfo)
    ensures SizeOf(m[x := info]) == SizeOf(m - {x}) + info.size
  {
    SizeWithout(m[x := info], x);
    assert m[x := info] - {x} == m - {x};
  }

  /** The cache is consistent: its size is the sum over its repositories, and every one of them
      can be evicted. */
  ghost predicate Consistent(elements: map<string, PathInfo>, recency: seq<string>, size: nat) {
    && size == SizeOf(elements)
    && forall id :: id in elements ==> id in recency
  }

  function TimeIn(m: map<string, PathInfo>, id: string): int {
    if id in m then m[id].mtime else ZERO_TIME
  }

  predicate SortedByTime(ids: seq<string>, m: map<string, PathInfo>) {
    forall i, j :: 0 <= i < j < |ids| ==> TimeIn(m, ids[i]) <= TimeIn(m, ids[j])
  }

  /** What is left when the repositories of the first `n` IDs are gone. */
  function Without(m: map<string, PathInfo>, ids: seq<string>, n: nat): map<string, PathInfo>
    requires n <= |ids|
  {
    m - (set i | 0 <= i < n :: ids[i])
  }

  lemma WithoutNext(m: map<string, PathInfo>, ids: seq<string>, n: nat)
    requires n < |ids|
    ensures Without(m, ids, n + 1) == Without(m, ids, n) - {ids[n]}
  {
    assert (set i | 0 <= i < n + 1 :: ids[i]) == (set i | 0 <= i < n :: ids[i]) + {ids[n]};
  }

  lemma {:induction false} InsertByTime(ids: seq<string>, m: map<string, PathInfo>, x: string) returns (r: seq<string>)
    requires SortedByTime(ids, m)
    ensures SortedByTime(r, m) && multiset(r) == multiset(ids) + multiset{x}
  {
    if ids == [] || TimeIn(m, x) <= TimeIn(m, ids[0]) {
      r := [x] + ids;
    } else {
      var rest := InsertByTime(ids[1..], m, x);
      r := [ids[0]] + rest;
      assert ids == [ids[0]] + ids[1..];
      forall y | y in rest ensures TimeIn(m, ids[0]) <= TimeIn(m, y) {
        assert y in multiset(rest);
        if y != x { assert y in multiset(ids[1..]); }
      }
    }
  }

  lemma {:induction false} CanSortByTime(ids: seq<string>, m: map<string, PathInfo>) returns (r: seq<string>)
    ensures SortedByTime(r, m) && multiset(r) == multiset(ids)
  {
    if ids == [] {
      r := [];
    } else {
      var rest := CanSortByTime(ids[1..], m);
      r := InsertByTime(rest, m, ids[0]);
      assert ids == [ids[0]] + ids[1..];
    }
  }

  // ---------- taking in one entry ----------

  /** The repositories after the entries `ls`. */
  ghost predicate Collected(m: map<string, PathInfo>, ids: seq<string>, size: nat, ls: seq<Located>) {
    && KnowsAll(m, ls)
    && (forall id :: id in m ==> id in ids)
    && size == TotalSize(ls) && size == SizeOf(m)
  }

  /** Exactly the repositories of the listing are known, each with its share. */
  ghost predicate KnowsAll(m: map<string, PathInfo>, ls: seq<Located>) {
    forall id :: (id in m <==> Mentioned(ls, id)) && (id in m ==> m[id] == InfoFor(ls, id))
  }

  lemma {:induction false} NotMentionedYet(ls: seq<Located>, id: string)
    requires !Mentioned(ls, id)
    ensures InfoFor(ls, id) == PathInfo([], 0, ZERO_TIME)
  {
    if ls != [] {
      var n := |ls| - 1;
      assert !Belongs(ls[n], id);
      assert forall i :: 0 <= i < n ==> ls[..n][i] == ls[i];
      NotMentionedYet(ls[..n], id);
    }
  }

  lemma MentionedSnoc(ls: seq<Located>, l: Located, id: string)
    ensures Mentioned(ls + [l], id) <==> Mentioned(ls, id) || Belongs(l, id)
    ensures (ls + [l])[..|ls|] == ls
  {
    if Mentioned(ls, id) {
      var i :| 0 <= i < |ls| && Belongs(ls[i], id);
      assert Belongs((ls + [l])[i], id);
    }
    if Belongs(l, id) { assert Belongs((ls + [l])[|ls|], id); }
    if Mentioned(ls + [l], id) {
      var i :| 0 <= i < |ls + [l]| && Belongs((ls + [l])[i], id);
      if i < |ls| { assert Belongs(ls[i], id); }
    }
  }

  lemma SkipKeeps(m: map<string, PathInfo>, ids: seq<string>, size: nat, ls: seq<Located>, l: Located, ids': seq<string>)
    requires Collected(m, ids, size, ls) && !l.Usable()
    requires forall id :: id in ids ==> id in ids'
    ensures Collected(m, ids', size, ls + [l])
  {
    forall id ensures Mentioned(ls + [l], id) <==> Mentioned(ls, id) { MentionedSnoc(ls, l, id); }
    assert (ls + [l])[..|ls|] == ls;
  }

  /** An entry's share goes to its repository. */
  function Grown(info: PathInfo, l: Located): PathInfo
    requires l.Usable()
  {
    PathInfo(info.paths + [l.Path()], info.size + l.entry.size.value,
             if info.mtime < l.entry.mtime.value then l.entry.mtime.value else info.mtime)
  }

  function InfoOf(m: map<string, PathInfo>, id: string): PathInfo {
    if id in m then m[id] else PathInfo([], 0, ZERO_TIME)
  }

  lemma InfoAfter(ls: seq<Located>, l: Located, info: PathInfo)
    requires l.Usable() && info == InfoFor(ls, l.Id())
    ensures InfoFor(ls + [l], l.Id()) == Grown(info, l)
    ensures forall o :: o != l.Id() ==> InfoFor(ls + [l], o) == InfoFor(ls, o)
    ensures TotalSize(ls + [l]) == TotalSize(ls) + l.entry.size.value
  {
    assert (ls + [l])[..|ls|] == ls;
  }

  lemma SizeAfter(m: map<string, PathInfo>, l: Located)
    requires l.Usable()
    ensures SizeOf(m[l.Id() := Grown(InfoOf(m, l.Id()), l)]) == SizeOf(m) + l.entry.size.value
  {
    var id := l.Id();
    SizeWith(m, id, Grown(InfoOf(m, id), l));
    if id in m { SizeWithout(m, id); } else { assert m - {id} == m; }
  }

  lemma KnowsAfter(m: map<string, PathInfo>, ls: seq<Located>, l: Located)
    requires KnowsAll(m, ls) && l.Usable()
    ensures KnowsAll(m[l.Id() := Grown(InfoOf(m, l.Id()), l)], ls + [l])
  {
    var id := l.Id();
    if id !in m { NotMentionedYet(ls, id); }
    InfoAfter(ls, l, InfoOf(m, id));
    var m' := m[id := Grown(InfoOf(m, id), l)];
    forall o ensures (o in m' <==> Mentioned(ls + [l], o)) && (o in m' ==> m'[o] == InfoFor(ls + [l], o)) {
      MentionedSnoc(ls, l, o);
    }
  }

  lemma TakeKeeps(m: map<string, PathInfo>, ids: seq<string>, size: nat, ls: seq<Located>, l: Located, ids': seq<string>)
    requires Collected(m, ids, size, ls) && l.Usable()
    requires (forall id :: id in ids ==> id in ids') && l.Id() in ids'
    ensures Collected(m[l.Id() := Grown(InfoOf(m, l.Id()), l)], ids', size + l.entry.size.value, ls + [l])
  {
    KnowsAfter(m, ls, l);
    assert (ls + [l])[..|ls|] == ls;
    SizeAfter(m, l);
  }

  /** The sort is not stable: any arrangement by time may come out. */
  method SortByTime(ids: seq<string>, m: map<string, PathInfo>) returns (sorted: seq<string>)
    ensures SortedByTime(sorted, m) && multiset(sorted) == multiset(ids)
    ensures forall id :: id in ids ==> id in sorted
  {
    ghost var some := CanSortByTime(ids, m);
    sorted :| SortedByTime(sorted, m) && multiset(sorted) == multiset(ids);
    forall id | id in ids ensures id in sorted { assert id in multiset(ids); }
  }

  class Cache {
    const root: string
    const maxSize: nat
    var repoElements: map<string, PathInfo>
    var repoRecency: seq<string>
    var size: nat

    ghost predicate Valid()
      reads this
    {
      Consistent(repoElements, repoRecency, size)
    }

    /** A cache opens on the snapshot of its directory. */
    constructor (root: string, maxSize: nat, dirs: seq<CacheDir>)
      ensures this.root == root && this.maxSize == maxSize
      ensures Valid() && Holds(Listing(root, dirs))
    {
      this.root, this.maxSize := root, maxSize;
      repoElements, repoRecency, size := map[], [], 0;
      new;
      UpdateInfo(dirs);
    }

    /** The cache knows exactly what the listing says, with the oldest repository first. */
    ghost predicate Holds(ls: seq<Located>)
      reads this
    {
      && KnowsAll(repoElements, ls)
      && size == TotalSize(ls)
      && SortedByTime(repoRecency, repoElements)
    }

    /** Replaces the cache's knowledge by what the snapshot of its directory says. */
    method UpdateInfo(dirs: seq<CacheDir>)
      modifies this
      ensures Valid() && Holds(Listing(root, dirs))
    {
      size, repoElements := 0, map[];
      var repoIDs: seq<string> := [];
      for d := 0 to |dirs|
        invariant Collected(repoElements, repoIDs, size, Listing(root, dirs[..d]))
      {
        assert dirs[..d + 1][..d] == dirs[..d];
        repoIDs := CollectEntries(root + "/" + dirs[d].name, dirs[d].entries, repoIDs, Listing(root, dirs[..d]));
      }
      assert dirs[..|dirs|] == dirs;
      repoRecency := SortByTime(repoIDs, repoElements);
    }

    /** Adds the entries of one directory to what was collected from those before it. */
    method CollectEntries(path: string, entries: seq<Entry>, ids: seq<string>, ghost before: seq<Located>)
      returns (repoIDs: seq<string>)
      requires Collected(repoElements, ids, size, before)
      modifies this
      ensures Collected(repoElements, repoIDs, size, before + InDir(path, entries))
    {
      repoIDs := ids;
      assert before + InDir(path, entries[..0]) == before;
      for e := 0 to |entries|
        invariant Collected(repoElements, repoIDs, size, before + InDir(path, entries[..e]))
      {
        assert before + InDir(path, entries[..e + 1]) == before + InDir(path, entries[..e]) + [Located(path, entries[e])];
        repoIDs := CollectEntry(Located(path, entries[e]), repoIDs, before + InDir(path, entries[..e]));
      }
      assert entries[..|entries|] == entries;
    }

    /** Adds one entry.  Entries that fail are skipped; an ID whose first entries fail to give
        their size is listed once for each of them. */
    method CollectEntry(l: Located, ids: seq<string>, ghost seen: seq<Located>) returns (repoIDs: seq<string>)
      requires Collected(repoElements, ids, size, seen)
      modifies this
      ensures Collected(repoElements, repoIDs, size, seen + [l])
    {
      repoIDs := ids;
      if !l.Named() {
        SkipKeeps(repoElements, ids, size, seen, l, repoIDs);
        return;
      }
      var repoID := l.Id();
      var repo := PathInfo([], 0, ZERO_TIME);
      if repoID in repoElements { repo := repoElements[repoID]; } else { repoIDs := repoIDs + [repoID]; }
      if l.entry.size.None? {
        SkipKeeps(repoElements, ids, size, seen, l, repoIDs);
        return;
      }
      TakeKeeps(repoElements, ids, size, seen, l, repoIDs);
      repoElements := repoElements[repoID := Grown(repo, l)];
      size := size + l.entry.size.value;
    }

    /** Evicts repositories, those used longest ago first, until the cache is below its maximum.
        `stuck` are the paths that cannot be removed; one of them ends the eviction with an error. */
    method Shrink(stuck: set<string>) returns (ok: bool)
      requires Valid()
      modifies this
      ensures Valid() && size <= old(size)
      ensures ok ==> size < maxSize || repoElements == map[]
      ensures ok ==> exists n: nat :: EvictedPrefix(old(repoElements), old(repoRecency), n)
      ensures !ok ==> repoRecency == old(repoRecency)
      ensures !ok ==> exists n: nat :: StuckAt(old(repoElements), n, stuck)
    {
      ghost var elements := repoElements;
      var nDeleted := 0;
      assert Without(elements, repoRecency, 0) == elements;
      while nDeleted < |repoRecency| && maxSize <= size
        invariant 0 <= nDeleted <= |repoRecency| && repoRecency == old(repoRecency)
        invariant repoElements == Without(elements, repoRecency, nDeleted)
        invariant Valid() && size <= old(size)
        invariant forall k :: 0 <= k < nDeleted ==> maxSize <= SizeOf(Without(elements, repoRecency, k))
      {
        var repoID := repoRecency[nDeleted];
        WithoutNext(elements, repoRecency, nDeleted);
        if repoID in repoElements {
          var paths := repoElements[repoID].paths;
          for i := 0 to |paths|
          {
            if paths[i] in stuck {
              assert paths[i] in repoElements[repoRecency[nDeleted]].paths;
              assert StuckAt(elements, nDeleted, stuck);
              return false;
            }
          }
          SizeWithout(repoElements, repoID);
          size := size - repoElements[repoID].size;
          repoElements := repoElements - {repoID};
        } else {
          assert repoElements - {repoID} == repoElements;
        }
        nDeleted := nDeleted + 1;
      }
      ghost var ids := repoRecency;
      repoRecency := repoRecency[nDeleted..];
      AllGone(elements, ids, nDeleted, repoElements);
      assert EvictedPrefix(elements, ids, nDeleted);
      return true;
    }

    /** The first `n` repositories were evicted, and a path of the next one cannot be removed. */
    ghost predicate StuckAt(elements: map<string, PathInfo>, n: nat, stuck: set<string>)
      reads this
    {
      && n < |repoRecency|
      && repoElements == Without(elements, repoRecency, n)
      && repoRecency[n] in repoElements
      && exists p :: p in repoElements[repoRecency[n]].paths && p in stuck
    }

    /** The first `n` IDs were dropped with their repositories, and no fewer would have done. */
    ghost predicate EvictedPrefix(elements: map<string, PathInfo>, ids: seq<string>, n: nat)
      reads this
    {
      && n <= |ids|
      && repoRecency == ids[n..]
      && repoElements == Without(elements, ids, n)
      && forall k :: 0 <= k < n ==> maxSize <= SizeOf(Without(elements, ids, k))
    }
  }

  /** Right after the snapshot was taken, nothing that goes was used after something that stays. */
  lemma EvictsOldest(elements: map<string, PathInfo>, ids: seq<string>, n: nat, gone: string, kept: string)
    requires SortedByTime(ids, elements) && n <= |ids| && forall id :: id in elements ==> id in ids
    requires gone in elements && gone !in Without(elements, ids, n) && kept in Without(elements, ids, n)
    ensures elements[gone].mtime <= elements[kept].mtime
  {
    var i :| 0 <= i < n && ids[i] == gone;
    AllGone(elements, ids, n, Without(elements, ids, n));
    var j :| 0 <= j < |ids[n..]| && ids[n..][j] == kept;
    assert TimeIn(elements, ids[i]) <= TimeIn(elements, ids[n + j]);
  }

  lemma AllGone(elements: map<string, PathInfo>, ids: seq<string>, n: nat, left: map<string, PathInfo>)
    requires n <= |ids| && left == Without(elements, ids, n) && forall id :: id in left ==> id in ids
    ensures n == |ids| ==> left == map[]
    ensures forall id :: id in left ==> id in ids[n..]
  {
    forall id | id in left ensures id in ids[n..] {
      var i :| 0 <= i < |ids| && ids[i] == id;
      assert n <= i;
      assert ids[n..][i - n] == id;
    }
  }
}
