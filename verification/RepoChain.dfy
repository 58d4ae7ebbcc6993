/** Repositories of a chain of package sets: the check of the chain, the list of distinct
    repositories, and the request that is made of both. */
module RepoChain {
  import opened Basics

  datatype Flags = Flags(checkGPG: Option<bool>, checkRepoGPG: Option<bool>, ignoreSSL: Option<bool>,
                         moduleHotfixes: Option<bool>)

  datatype Secrets = Secrets(caCert: string, clientKey: string, clientCert: string)

  datatype Urls = Urls(baseURLs: seq<string>, metalink: string, mirrorList: string)

  datatype Config = Config(name: string, urls: Urls, gpgKeys: seq<string>, flags: Flags, metadataExpire: string,
                           rhsm: bool, ssl: Secrets)

  /** A repository with its ID, which is a digest of its settings. */
  datatype Repo = Repo(id: string, config: Config)

  /** What the ID is a digest of; the digest itself is left out.  A flag contributes the name of
      its type, not its value. */
  function Digested(c: Config): string {
    Flat(Pieces(c))
  }

  function Pieces(c: Config): seq<string> {
    [Flat(c.urls.baseURLs), c.urls.metalink, c.urls.mirrorList, Flat(c.gpgKeys),
     TypeOf(c.flags.checkGPG), TypeOf(c.flags.checkRepoGPG), TypeOf(c.flags.ignoreSSL),
     c.metadataExpire, "bool", TypeOf(c.flags.moduleHotfixes),
     c.ssl.caCert, c.ssl.clientKey, c.ssl.clientCert]
  }

  function Flat(xs: seq<string>): string {
    if xs == [] then "" else xs[0] + Flat(xs[1..])
  }

  function TypeOf(flag: Option<bool>): string {
    if flag.None? then "" else "*bool"
  }

  lemma {:induction false} FlatConcat(xs: seq<string>, ys: seq<string>)
    ensures Flat(xs + ys) == Flat(xs) + Flat(ys)
  {
    if xs == [] {
      assert xs + ys == ys;
    } else {
      assert (xs + ys)[1..] == xs[1..] + ys;
      FlatConcat(xs[1..], ys);
    }
  }

  lemma Between(a: string, x: string, y: string, b: string)
    requires a + x + b == a + y + b
    ensures x == y
  {
    assert |x| == |y|;
    assert (a + x + b)[|a|..|a| + |x|] == x && (a + y + b)[|a|..|a| + |y|] == y;
  }

  lemma FlatAround(a: seq<string>, x: string, b: seq<string>)
    ensures Flat(a + [x] + b) == Flat(a) + x + Flat(b)
  {
    FlatConcat(a + [x], b);
    FlatConcat(a, [x]);
    assert Flat([x]) == x + Flat([]);
  }

  /** When two lists differ in one piece, their concatenations differ. */
  lemma FlatTellsApart(xs: seq<string>, k: nat, x: string)
    requires k < |xs| && x != xs[k]
    ensures Flat(xs[k := x]) != Flat(xs)
  {
    var a, b := xs[..k], xs[k + 1..];
    assert xs == a + [xs[k]] + b && xs[k := x] == a + [x] + b;
    FlatAround(a, xs[k], b);
    FlatAround(a, x, b);
    if Flat(xs[k := x]) == Flat(xs) { Between(Flat(a), x, xs[k], Flat(b)); }
  }

  /** The settings that count: the URLs and the keys run together, and of a flag whether it is set.
      Neither the name nor the need for a subscription is among them. */
  predicate SameSettings(c: Config, c': Config) {
    && Flat(c'.urls.baseURLs) == Flat(c.urls.baseURLs) && c'.urls.metalink == c.urls.metalink
    && c'.urls.mirrorList == c.urls.mirrorList && Flat(c'.gpgKeys) == Flat(c.gpgKeys)
    && (c'.flags.checkGPG.Some? <==> c.flags.checkGPG.Some?)
    && (c'.flags.checkRepoGPG.Some? <==> c.flags.checkRepoGPG.Some?)
    && (c'.flags.ignoreSSL.Some? <==> c.flags.ignoreSSL.Some?)
    && (c'.flags.moduleHotfixes.Some? <==> c.flags.moduleHotfixes.Some?)
    && c'.metadataExpire == c.metadataExpire && c'.ssl == c.ssl
  }

  lemma SameSettingsIff(c: Config, c': Config)
    ensures SameSettings(c, c') <==> Pieces(c) == Pieces(c')
  {
    assert SameSettings(c, c') ==> forall i :: 0 <= i < 13 ==> Pieces(c)[i] == Pieces(c')[i];
    if Pieces(c) == Pieces(c') {
      PieceIs(c);
      PieceIs(c');
      assert forall i :: 0 <= i < 13 ==> Pieces(c)[i] == Pieces(c')[i];
    }
  }

  lemma PieceIs(c: Config)
    ensures var p := Pieces(c);
            && |p| == 13
            && p[0] == Flat(c.urls.baseURLs) && p[1] == c.urls.metalink && p[2] == c.urls.mirrorList && p[3] == Flat(c.gpgKeys)
            && (p[4] != "" <==> c.flags.checkGPG.Some?) && (p[5] != "" <==> c.flags.checkRepoGPG.Some?)
            && (p[6] != "" <==> c.flags.ignoreSSL.Some?) && (p[9] != "" <==> c.flags.moduleHotfixes.Some?)
            && p[7] == c.metadataExpire && p[10] == c.ssl.caCert && p[11] == c.ssl.clientKey && p[12] == c.ssl.clientCert
  {
  }

  /** Two repositories that count as the same, or differ in one setting that counts, have the same
      digested settings in the first case and different ones in the second. */
  lemma DigestTellsApart(c: Config, c': Config, k: nat)
    requires k < 13 && Pieces(c') == Pieces(c)[k := Pieces(c')[k]]
    ensures Digested(c) == Digested(c') <==> SameSettings(c, c')
  {
    SameSettingsIff(c, c');
    if Pieces(c')[k] != Pieces(c)[k] {
      FlatTellsApart(Pieces(c), k, Pieces(c')[k]);
    } else {
      assert Pieces(c)[k := Pieces(c)[k]] == Pieces(c);
    }
  }

  datatype PackageSet = PackageSet(includes: seq<string>, excludes: seq<string>, modules: seq<string>,
                                   repos: seq<Repo>, weakDeps: bool)

  datatype ChainError = EmptyInclude(index: nat) | NotExtended(index: nat)

  function Ids(rs: seq<Repo>): (r: seq<string>)
    ensures |r| == |rs|
    ensures forall i :: 0 <= i < |rs| ==> r[i] == rs[i].id
  {
    seq(|rs|, i requires 0 <= i < |rs| => rs[i].id)
  }

  // ---------- the check of the chain ----------

  predicate Extends(sets: seq<PackageSet>, i: nat)
    requires 0 < i < |sets|
  {
    Ids(sets[i - 1].repos) <= Ids(sets[i].repos)
  }

  ghost predicate Chained(sets: seq<PackageSet>) {
    forall i :: 0 < i < |sets| ==> Extends(sets, i)
  }

  ghost predicate ValidChain(sets: seq<PackageSet>) {
    && (forall i :: 0 <= i < |sets| ==> sets[i].includes != [])
    && Chained(sets)
  }

  /** The error names the first set that is at fault; empty sets are looked for first. */
  ghost predicate FirstFault(sets: seq<PackageSet>, error: ChainError) {
    match error
    case EmptyInclude(i) =>
      i < |sets| && sets[i].includes == [] && forall k :: 0 <= k < i ==> sets[k].includes != []
    case NotExtended(i) =>
      && 0 < i < |sets| && !Extends(sets, i)
      && (forall k :: 0 < k < i ==> Extends(sets, k))
      && (forall k :: 0 <= k < |sets| ==> sets[k].includes != [])
  }

  method ValidatePackageSetRepoChain(sets: seq<PackageSet>) returns (r: Option<ChainError>)
    ensures r.None? <==> ValidChain(sets)
    ensures r.Some? ==> FirstFault(sets, r.value)
  {
    for i := 0 to |sets|
      invariant forall k :: 0 <= k < i ==> sets[k].includes != []
    {
      if sets[i].includes == [] { return Some(EmptyInclude(i)); }
    }
    if |sets| <= 1 { return None; }
    for i := 1 to |sets|
      invariant forall k :: 0 < k < i ==> Extends(sets, k)
    {
      var prev, curr := Ids(sets[i - 1].repos), Ids(sets[i].repos);
      if |curr| < |prev| {
        assert !Extends(sets, i);
        return Some(NotExtended(i));
      }
      for k := 0 to |prev|
        invariant forall j :: 0 <= j < k ==> prev[j] == curr[j]
      {
        if prev[k] != curr[k] {
          assert !Extends(sets, i);
          return Some(NotExtended(i));
        }
      }
      assert Extends(sets, i);
    }
    return None;
  }

  /** In an accepted chain every set starts with the repositories of every set before it. */
  lemma {:induction false} ChainIsPrefix(sets: seq<PackageSet>, i: nat, j: nat)
    requires ValidChain(sets) && i <= j < |sets|
    ensures Ids(sets[i].repos) <= Ids(sets[j].repos)
    decreases j
  {
    if i < j {
      ChainIsPrefix(sets, i, j - 1);
      assert Extends(sets, j);
    }
  }

  // ---------- distinct repositories ----------

  function AllRepos(sets: seq<PackageSet>): seq<Repo> {
    if sets == [] then [] else AllRepos(sets[..|sets| - 1]) + sets[|sets| - 1].repos
  }

  /** The position holds the first repository with its ID. */
  predicate FirstAt(rs: seq<Repo>, p: nat)
    requires p < |rs|
  {
    rs[p].id !in IdSet(rs[..p])
  }

  /** The repositories at first positions, in their order. */
  function Firsts(rs: seq<Repo>): seq<Repo> {
    if rs == [] then []
    else
      var before := Firsts(rs[..|rs| - 1]);
      if FirstAt(rs, |rs| - 1) then before + [rs[|rs| - 1]] else before
  }

  function IdSet(rs: seq<Repo>): set<string> {
    if rs == [] then {} else IdSet(rs[..|rs| - 1]) + {rs[|rs| - 1].id}
  }

  lemma {:induction false} IdSetIs(rs: seq<Repo>, id: string)
    ensures id in IdSet(rs) <==> exists i :: 0 <= i < |rs| && rs[i].id == id
  {
    if rs != [] {
      var before := rs[..|rs| - 1];
      IdSetIs(before, id);
      if id in IdSet(before) {
        var i :| 0 <= i < |before| && before[i].id == id;
        assert rs[i].id == id;
      }
      if i :| 0 <= i < |rs| && rs[i].id == id {
        if i < |before| { assert before[i].id == id; }
      }
    }
  }

  lemma {:induction false} IdSetAppend(a: seq<Repo>, b: seq<Repo>)
    ensures IdSet(a + b) == IdSet(a) + IdSet(b)
  {
    if b == [] {
      assert a + b == a;
    } else {
      var b', x := b[..|b| - 1], b[|b| - 1];
      IdSetAppend(a, b');
      assert (a + b)[..|a + b| - 1] == a + b';
    }
  }

  lemma IdsAppend(a: seq<Repo>, b: seq<Repo>)
    ensures Ids(a + b) == Ids(a) + Ids(b)
  {
  }

  lemma {:induction false} SameIds(a: seq<Repo>, b: seq<Repo>)
    requires Ids(a) == Ids(b)
    ensures IdSet(a) == IdSet(b)
  {
    assert |a| == |Ids(a)| == |b|;
    if a != [] {
      var n := |a| - 1;
      assert Ids(a)[n] == Ids(b)[n];
      assert Ids(a[..n]) == Ids(a)[..n] == Ids(b[..n]);
      SameIds(a[..n], b[..n]);
    }
  }

  lemma FirstsSnoc(rs: seq<Repo>, x: Repo)
    ensures Firsts(rs + [x]) == if x.id in IdSet(rs) then Firsts(rs) else Firsts(rs) + [x]
    ensures IdSet(rs + [x]) == IdSet(rs) + {x.id}
  {
    assert (rs + [x])[..|rs|] == rs;
  }

  lemma FirstsStep(before: seq<Repo>, rs: seq<Repo>, k: nat)
    requires k < |rs|
    ensures var done := before + rs[..k];
            && Firsts(before + rs[..k + 1]) == (if rs[k].id in IdSet(done) then Firsts(done) else Firsts(done) + [rs[k]])
            && IdSet(before + rs[..k + 1]) == IdSet(done) + {rs[k].id}
  {
    assert before + rs[..k + 1] == before + rs[..k] + [rs[k]];
    FirstsSnoc(before + rs[..k], rs[k]);
  }

  /** Every ID of the list is kept, and kept once. */
  lemma {:induction false} FirstsDistinct(rs: seq<Repo>)
    ensures IdSet(Firsts(rs)) == IdSet(rs)
    ensures forall i, j :: 0 <= i < j < |Firsts(rs)| ==> Firsts(rs)[i].id != Firsts(rs)[j].id
  {
    if rs != [] {
      var before, x := rs[..|rs| - 1], rs[|rs| - 1];
      assert rs == before + [x];
      FirstsDistinct(before);
      FirstsSnoc(before, x);
      IdSetAppend(Firsts(before), [x]);
      forall i | 0 <= i < |Firsts(before)| ensures Firsts(before)[i].id in IdSet(before) {
        IdSetIs(Firsts(before), Firsts(before)[i].id);
      }
    }
  }

  /** What is in the middle does not matter when its IDs came before. */
  lemma {:induction false} FirstsCovered(a: seq<Repo>, b: seq<Repo>)
    requires IdSet(b) <= IdSet(a)
    ensures Firsts(a + b) == Firsts(a)
  {
    if b == [] {
      assert a + b == a;
    } else {
      var b', x := b[..|b| - 1], b[|b| - 1];
      FirstsCovered(a, b');
      assert a + b == (a + b') + [x];
      FirstsSnoc(a + b', x);
      IdSetAppend(a, b');
    }
  }

  /** What follows two lists with the same IDs is added to their first repositories alike. */
  lemma {:induction false} SameFirsts(a: seq<Repo>, b: seq<Repo>, c: seq<Repo>)
    requires Firsts(a) == Firsts(b) && IdSet(a) == IdSet(b)
    ensures Firsts(a + c) == Firsts(b + c)
  {
    if c == [] {
      assert a + c == a && b + c == b;
    } else {
      var c', x := c[..|c| - 1], c[|c| - 1];
      SameFirsts(a, b, c');
      assert a + c == (a + c') + [x] && b + c == (b + c') + [x];
      FirstsSnoc(a + c', x);
      FirstsSnoc(b + c', x);
      IdSetAppend(a, c');
      IdSetAppend(b, c');
    }
  }

  /** The repository at a first position is kept behind those with the IDs before it. */
  lemma {:induction false} FirstKept(rs: seq<Repo>, p: nat)
    requires p < |rs| && FirstAt(rs, p)
    ensures |IdSet(rs[..p])| < |Firsts(rs)| && |Firsts(rs)| == |IdSet(rs)|
    ensures Firsts(rs)[|IdSet(rs[..p])|] == rs[p]
  {
    var n := |rs| - 1;
    FirstsCounted(rs);
    if p < n {
      assert rs[..n][..p] == rs[..p];
      FirstKept(rs[..n], p);
    } else {
      FirstsCounted(rs[..n]);
    }
  }

  lemma {:induction false} FirstsCounted(rs: seq<Repo>)
    ensures |Firsts(rs)| == |IdSet(rs)|
  {
    if rs != [] {
      var before, id := IdSet(rs[..|rs| - 1]), rs[|rs| - 1].id;
      FirstsCounted(rs[..|rs| - 1]);
      if id in before { assert before + {id} == before; }
    }
  }

  method CollectRepos(sets: seq<PackageSet>) returns (repos: seq<Repo>)
    ensures repos == Firsts(AllRepos(sets))
  {
    var seen: set<string> := {};
    repos := [];
    for i := 0 to |sets|
      invariant repos == Firsts(AllRepos(sets[..i])) && seen == IdSet(AllRepos(sets[..i]))
    {
      assert sets[..i + 1][..i] == sets[..i];
      repos, seen := AddRepos(repos, seen, sets[i].repos, AllRepos(sets[..i]));
    }
    assert sets[..|sets|] == sets;
  }

  /** The inner loop of `CollectRepos`. */
  method AddRepos(repos: seq<Repo>, seen: set<string>, rs: seq<Repo>, ghost before: seq<Repo>)
    returns (repos': seq<Repo>, seen': set<string>)
    requires repos == Firsts(before) && seen == IdSet(before)
    ensures repos' == Firsts(before + rs) && seen' == IdSet(before + rs)
  {
    repos', seen' := repos, seen;
    assert before + rs[..0] == before;
    for k := 0 to |rs|
      invariant repos' == Firsts(before + rs[..k]) && seen' == IdSet(before + rs[..k])
    {
      FirstsStep(before, rs, k);
      var id := rs[k].id;
      if id !in seen' {
        seen' := seen' + {id};
        repos' := repos' + [rs[k]];
      }
    }
    assert rs[..|rs|] == rs;
  }

  // ---------- what an accepted chain collects ----------

  /** The repositories each set adds to those of the set before it. */
  ghost function Added(sets: seq<PackageSet>): (r: seq<Repo>)
    requires Chained(sets)
    ensures sets != [] ==> Ids(r) == Ids(sets[|sets| - 1].repos)
  {
    if sets == [] then []
    else if |sets| == 1 then sets[0].repos
    else
      var n := |sets| - 1;
      ChainedBefore(sets);
      Added(sets[..n]) + sets[n].repos[|sets[n - 1].repos|..]
  }

  lemma ChainedBefore(sets: seq<PackageSet>)
    requires Chained(sets) && 1 < |sets|
    ensures Chained(sets[..|sets| - 1])
    ensures var rs, n := sets[|sets| - 1].repos, |sets[|sets| - 2].repos|;
            n <= |rs| && Ids(rs[..n]) == Ids(sets[|sets| - 2].repos)
  {
    var n := |sets| - 1;
    forall i | 0 < i < n ensures Extends(sets[..n], i) { assert Extends(sets, i); }
    assert Extends(sets, n);
    assert |sets[n - 1].repos| == |Ids(sets[n - 1].repos)| <= |Ids(sets[n].repos)|;
  }

  lemma {:induction false} CollectsAdded(sets: seq<PackageSet>)
    requires Chained(sets)
    ensures Firsts(AllRepos(sets)) == Firsts(Added(sets)) && IdSet(AllRepos(sets)) == IdSet(Added(sets))
  {
    if 1 < |sets| {
      ChainedBefore(sets);
      CollectsAdded(sets[..|sets| - 1]);
      StepCollected(sets);
    } else if |sets| == 1 {
      assert AllRepos(sets[..0]) + sets[0].repos == sets[0].repos;
    }
  }

  lemma StepCollected(sets: seq<PackageSet>)
    requires Chained(sets) && 1 < |sets| && Chained(sets[..|sets| - 1])
    requires Firsts(AllRepos(sets[..|sets| - 1])) == Firsts(Added(sets[..|sets| - 1]))
    requires IdSet(AllRepos(sets[..|sets| - 1])) == IdSet(Added(sets[..|sets| - 1]))
    ensures Firsts(AllRepos(sets)) == Firsts(Added(sets)) && IdSet(AllRepos(sets)) == IdSet(Added(sets))
  {
    var rs, n := sets[|sets| - 1].repos, |sets[|sets| - 2].repos|;
    ChainedBefore(sets);
    var all, added := AllRepos(sets[..|sets| - 1]), Added(sets[..|sets| - 1]);
    assert AllRepos(sets) == all + rs && Added(sets) == added + rs[n..];
    SameIds(rs[..n], added);
    StepCollectsAdded(all, added, rs[..n], rs[n..]);
    assert rs == rs[..n] + rs[n..];
  }

  lemma StepCollectsAdded(all: seq<Repo>, added: seq<Repo>, known: seq<Repo>, more: seq<Repo>)
    requires Firsts(all) == Firsts(added) && IdSet(all) == IdSet(added) == IdSet(known)
    ensures Firsts(all + (known + more)) == Firsts(added + more)
    ensures IdSet(all + (known + more)) == IdSet(added + more)
  {
    assert all + (known + more) == (all + known) + more;
    FirstsCovered(all, known);
    IdSetAppend(all, known);
    SameFirsts(all + known, added, more);
    IdSetAppend(all + known, more);
    IdSetAppend(added, more);
  }

  /** The first repositories of two lists with the same IDs differ only where the lists differ. */
  lemma {:induction false} FirstsAlike(a: seq<Repo>, b: seq<Repo>)
    requires Ids(a) == Ids(b)
    ensures |a| == |b| && Ids(Firsts(a)) == Ids(Firsts(b))
    ensures Firsts(a) == Firsts(b) <==> AlikeWhereFirst(a, b)
  {
    assert |a| == |Ids(a)| == |b|;
    if a != [] {
      var n := |a| - 1;
      var a', x, b', y := a[..n], a[n], b[..n], b[n];
      assert a == a' + [x] && b == b' + [y];
      assert Ids(a') == Ids(b') && x.id == y.id by {
        assert Ids(a)[n] == Ids(b)[n];
        assert Ids(a') == Ids(a)[..n] == Ids(b');
      }
      FirstsAlike(a', b');
      SameIds(a', b');
      FirstsAlikeStep(a', x, b', y);
    }
  }

  ghost predicate AlikeWhereFirst(a: seq<Repo>, b: seq<Repo>)
    requires |a| == |b|
  {
    forall p :: 0 <= p < |a| && FirstAt(b, p) ==> a[p] == b[p]
  }

  lemma FirstsAlikeStep(a: seq<Repo>, x: Repo, b: seq<Repo>, y: Repo)
    requires |a| == |b| && x.id == y.id && IdSet(a) == IdSet(b)
    requires Ids(Firsts(a)) == Ids(Firsts(b))
    requires Firsts(a) == Firsts(b) <==> AlikeWhereFirst(a, b)
    ensures Ids(Firsts(a + [x])) == Ids(Firsts(b + [y]))
    ensures Firsts(a + [x]) == Firsts(b + [y]) <==> AlikeWhereFirst(a + [x], b + [y])
  {
    FirstsSnoc(a, x);
    FirstsSnoc(b, y);
    SnocAlike(Firsts(a), x, Firsts(b), y);
    AlikeSnoc(a, x, b, y);
  }

  lemma SnocAlike(s: seq<Repo>, x: Repo, t: seq<Repo>, y: Repo)
    requires Ids(s) == Ids(t) && x.id == y.id
    ensures Ids(s + [x]) == Ids(t + [y])
    ensures s + [x] == t + [y] <==> s == t && x == y
  {
    IdsAppend(s, [x]);
    IdsAppend(t, [y]);
    assert Ids([x]) == Ids([y]);
    assert |s| == |Ids(s)| == |t|;
    AppendEqual(s, x, t, y);
  }

  lemma AlikeSnoc(a: seq<Repo>, x: Repo, b: seq<Repo>, y: Repo)
    requires |a| == |b|
    ensures AlikeWhereFirst(a + [x], b + [y]) <==> AlikeWhereFirst(a, b) && (y.id !in IdSet(b) ==> x == y)
  {
    var n := |b|;
    forall p | 0 <= p <= n ensures (b + [y])[..p] == b[..p] { }
    assert b[..n] == b;
    if AlikeWhereFirst(a + [x], b + [y]) {
      forall p | 0 <= p < n && FirstAt(b, p) ensures a[p] == b[p] {
        assert FirstAt(b + [y], p);
        assert (a + [x])[p] == (b + [y])[p];
      }
      if y.id !in IdSet(b) {
        assert FirstAt(b + [y], n);
        assert (a + [x])[n] == (b + [y])[n];
      }
    }
    if AlikeWhereFirst(a, b) && (y.id !in IdSet(b) ==> x == y) {
      forall p | 0 <= p < n + 1 && FirstAt(b + [y], p) ensures (a + [x])[p] == (b + [y])[p] {
        if p < n { assert FirstAt(b, p); }
      }
    }
  }

  lemma AppendEqual<T>(s: seq<T>, x: T, t: seq<T>, y: T)
    requires |s| == |t|
    ensures s + [x] == t + [y] <==> s == t && x == y
  {
    assert (s + [x])[..|s|] == s && (t + [y])[..|t|] == t;
    assert (s + [x])[|s|] == x && (t + [y])[|t|] == y;
  }

  /** An accepted chain collects the IDs of its last set.  The collected settings are those of the
      last set exactly when no set before it adds a repository that the last set gives other settings. */
  lemma ChainCollectsLast(sets: seq<PackageSet>)
    requires ValidChain(sets) && sets != []
    ensures var last := sets[|sets| - 1].repos;
            && Ids(Firsts(AllRepos(sets))) == Ids(Firsts(last))
            && |Added(sets)| == |last|
            && (Firsts(AllRepos(sets)) == Firsts(last) <==> AlikeWhereFirst(Added(sets), last))
  {
    CollectsAdded(sets);
    FirstsAlike(Added(sets), sets[|sets| - 1].repos);
  }

  /** The ID does not tell the settings of a flag apart, nor whether a repository needs a
      subscription, so an accepted chain may collect a repository without the subscription that
      its last set asks for. */
  lemma SettingsOfTheFirstSetWin(c: Config, digest: string -> string, includes: seq<string>)
    requires !c.rhsm && includes != []
    ensures var c' := c.(rhsm := true);
            var r, r' := Repo(digest(Digested(c)), c), Repo(digest(Digested(c')), c');
            var sets := [PackageSet(includes, [], [], [r], false), PackageSet(includes, [], [], [r'], false)];
            ValidChain(sets) && Firsts(AllRepos(sets)) == [r] && Firsts(sets[1].repos) == [r']
  {
    var c' := c.(rhsm := true);
    assert Digested(c) == Digested(c');
    SameIdFirstWins(Repo(digest(Digested(c)), c), Repo(digest(Digested(c')), c'), includes);
  }

  lemma SameIdFirstWins(r: Repo, r': Repo, includes: seq<string>)
    requires r.id == r'.id && includes != []
    ensures var sets := [PackageSet(includes, [], [], [r], false), PackageSet(includes, [], [], [r'], false)];
            ValidChain(sets) && Firsts(AllRepos(sets)) == [r] && Firsts(sets[1].repos) == [r']
  {
    var s, s' := PackageSet(includes, [], [], [r], false), PackageSet(includes, [], [], [r'], false);
    ValidPair(s, s');
    AllReposOfTwo(s, s');
    FirstsOfOne(r);
    FirstsOfOne(r');
    FirstsCovered([r], [r']);
  }

  lemma ValidPair(s: PackageSet, s': PackageSet)
    requires s.includes != [] && s'.includes != [] && Ids(s.repos) == Ids(s'.repos)
    ensures ValidChain([s, s'])
  {
    assert Extends([s, s'], 1);
  }

  lemma AllReposOfTwo(s: PackageSet, s': PackageSet)
    ensures AllRepos([s, s']) == s.repos + s'.repos
  {
    assert [s, s'][..1] == [s] && [s][..0] == [];
    assert AllRepos([]) + s.repos == s.repos;
  }

  lemma FirstsOfOne(r: Repo)
    ensures Firsts([r]) == [r] && IdSet([r]) == {r.id}
  {
    FirstsSnoc([], r);
    assert [] + [r] == [r];
  }

  // ---------- the request ----------

  datatype DnfRepo = DnfRepo(id: string, name: string, urls: Urls, gpgKeys: seq<string>, gpgCheck: Option<bool>,
                             repoGPGCheck: Option<bool>, sslVerify: Option<bool>, moduleHotfixes: Option<bool>,
                             metadataExpire: string, ssl: Secrets)

  datatype Transaction = Transaction(specs: seq<string>, excludes: seq<string>, modules: seq<string>,
                                     repoIDs: seq<string>, weakDeps: bool)

  datatype Request = Request(repos: seq<DnfRepo>, transactions: seq<Transaction>)

  function Negated(flag: Option<bool>): Option<bool> {
    match flag
    case None => None
    case Some(b) => Some(!b)
  }

  function DnfRepoOf(r: Repo, ssl: Secrets): DnfRepo {
    var c := r.config;
    DnfRepo(r.id, c.name, c.urls, c.gpgKeys, c.flags.checkGPG, c.flags.checkRepoGPG, Negated(c.flags.ignoreSSL),
            c.flags.moduleHotfixes, c.metadataExpire, ssl)
  }

  /** Subscriptions give their secrets for the base URLs of a repository, or fail. */
  type Subscriptions = seq<string> -> Option<Secrets>

  predicate Subscribed(r: Repo, subscriptions: Subscriptions) {
    r.config.rhsm ==> subscriptions(r.config.urls.baseURLs).Some?
  }

  /** Field by field: the flags keep their places, only the one for SSL is turned around, and the
      secrets are the subscription's where the repository asks for them. */
  predicate Translated(r: Repo, subscriptions: Subscriptions, x: DnfRepo) {
    var c := r.config;
    && x.id == r.id && x.name == c.name && x.urls == c.urls && x.gpgKeys == c.gpgKeys
    && x.gpgCheck == c.flags.checkGPG
    && x.repoGPGCheck == c.flags.checkRepoGPG
    && x.moduleHotfixes == c.flags.moduleHotfixes
    && x.metadataExpire == c.metadataExpire
    && (x.sslVerify == None <==> c.flags.ignoreSSL == None)
    && (x.sslVerify == Some(true) <==> c.flags.ignoreSSL == Some(false))
    && (if c.rhsm then subscriptions(c.urls.baseURLs) == Some(x.ssl) else x.ssl == c.ssl)
  }

  /** Repositories are translated one by one; a missing subscription fails the whole. */
  method ReposFromRpmmd(rs: seq<Repo>, subscriptions: Subscriptions) returns (r: Option<seq<DnfRepo>>)
    ensures r.Some? <==> forall i :: 0 <= i < |rs| ==> Subscribed(rs[i], subscriptions)
    ensures r.Some? ==> |r.value| == |rs|
    ensures r.Some? ==> forall i :: 0 <= i < |rs| ==> Translated(rs[i], subscriptions, r.value[i])
  {
    var dnfRepos: seq<DnfRepo> := [];
    for i := 0 to |rs|
      invariant |dnfRepos| == i
      invariant forall k :: 0 <= k < i ==> Subscribed(rs[k], subscriptions)
      invariant forall k :: 0 <= k < i ==> Translated(rs[k], subscriptions, dnfRepos[k])
    {
      var ssl := rs[i].config.ssl;
      if rs[i].config.rhsm {
        var secrets := subscriptions(rs[i].config.urls.baseURLs);
        if secrets.None? { return None; }
        ssl := secrets.value;
      }
      dnfRepos := dnfRepos + [DnfRepoOf(rs[i], ssl)];
    }
    return Some(dnfRepos);
  }

  predicate Describes(t: Transaction, s: PackageSet) {
    && t.specs == s.includes && t.excludes == s.excludes && t.modules == s.modules && t.weakDeps == s.weakDeps
    && |t.repoIDs| == |s.repos| && forall i :: 0 <= i < |s.repos| ==> t.repoIDs[i] == s.repos[i].id
  }

  /** Every repository a transaction names is in the request, and there is only one with its ID. */
  ghost predicate Resolvable(q: Request) {
    && (forall t, id :: t in q.transactions && id in t.repoIDs ==> exists r :: r in q.repos && r.id == id)
    && (forall i, j :: 0 <= i < j < |q.repos| ==> q.repos[i].id != q.repos[j].id)
  }

  method MakeDepsolveRequest(sets: seq<PackageSet>, subscriptions: Subscriptions) returns (q: Option<Request>)
    ensures q.Some? <==> forall r :: r in Firsts(AllRepos(sets)) ==> Subscribed(r, subscriptions)
    ensures q.Some? ==> |q.value.transactions| == |sets| && Resolvable(q.value)
    ensures q.Some? ==> forall i :: 0 <= i < |sets| ==> Describes(q.value.transactions[i], sets[i])
    ensures q.Some? ==> |q.value.repos| == |Firsts(AllRepos(sets))|
    ensures q.Some? ==> forall i :: 0 <= i < |q.value.repos| ==>
              Translated(Firsts(AllRepos(sets))[i], subscriptions, q.value.repos[i])
  {
    var allRepos := CollectRepos(sets);
    var transactions: seq<Transaction> := [];
    for i := 0 to |sets|
      invariant |transactions| == i
      invariant forall k :: 0 <= k < i ==> Describes(transactions[k], sets[k])
    {
      var repoIDs := [];
      for k := 0 to |sets[i].repos|
        invariant repoIDs == Ids(sets[i].repos[..k])
      {
        IdsAppend(sets[i].repos[..k], [sets[i].repos[k]]);
        assert sets[i].repos[..k + 1] == sets[i].repos[..k] + [sets[i].repos[k]];
        repoIDs := repoIDs + [sets[i].repos[k].id];
      }
      assert sets[i].repos[..|sets[i].repos|] == sets[i].repos;
      transactions := transactions +
        [Transaction(sets[i].includes, sets[i].excludes, sets[i].modules, repoIDs, sets[i].weakDeps)];
    }
    var dnfRepos := ReposFromRpmmd(allRepos, subscriptions);
    if dnfRepos.None? { return None; }
    q := Some(Request(dnfRepos.value, transactions));
    RequestResolvable(sets, q.value);
  }

  lemma RequestResolvable(sets: seq<PackageSet>, q: Request)
    requires |q.transactions| == |sets|
    requires forall i :: 0 <= i < |sets| ==> Describes(q.transactions[i], sets[i])
    requires |q.repos| == |Firsts(AllRepos(sets))|
    requires forall i :: 0 <= i < |q.repos| ==> q.repos[i].id == Firsts(AllRepos(sets))[i].id
    ensures Resolvable(q)
  {
    var all := AllRepos(sets);
    FirstsDistinct(all);
    forall t, id | t in q.transactions && id in t.repoIDs ensures exists r :: r in q.repos && r.id == id {
      var i :| 0 <= i < |sets| && q.transactions[i] == t;
      AllIds(sets, i, id);
      IdSetIs(Firsts(all), id);
      var k :| 0 <= k < |Firsts(all)| && Firsts(all)[k].id == id;
      assert q.repos[k] in q.repos && q.repos[k].id == id;
    }
  }

  lemma {:induction false} AllIds(sets: seq<PackageSet>, i: nat, h: string)
    requires i < |sets| && h in Ids(sets[i].repos)
    ensures h in IdSet(AllRepos(sets))
  {
    var n := |sets| - 1;
    IdSetAppend(AllRepos(sets[..n]), sets[n].repos);
    if i < n {
      AllIds(sets[..n], i, h);
    } else {
      IdSetIs(sets[n].repos, h);
      var k :| 0 <= k < |sets[n].repos| && Ids(sets[n].repos)[k] == h;
      assert sets[n].repos[k].id == h;
    }
  }
}
