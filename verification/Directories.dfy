/** Directory paths: Go's `filepath.Clean` and `filepath.Dir` on Unix, and the closest mounted
    ancestor of a directory. */
module Directories {
  import opened Basics
  import opened Strings
  import opened Entities
  import opened Mounts

  // ---------- cleaning paths ----------

  /** The stack of elements that remains: empty and "." elements vanish, ".." removes the
      element before it, and at the start of a rooted path it vanishes too. */
  function CleanParts(parts: seq<string>, rooted: bool): seq<string> {
    if parts == [] then []
    else CleanStep(CleanParts(parts[..|parts| - 1], rooted), parts[|parts| - 1], rooted)
  }

  predicate Rooted(path: string) {
    path != "" && path[0] == '/'
  }

  function Clean(path: string): string {
    var cleaned := Join(CleanParts(Split(path, '/'), Rooted(path)), '/');
    if Rooted(path) then "/" + cleaned else if cleaned == "" then "." else cleaned
  }

  /** What follows only sees what is kept of the elements before it. */
  lemma {:induction false} CleanFollows(a: seq<string>, a': seq<string>, b: seq<string>, rooted: bool)
    requires CleanParts(a, rooted) == CleanParts(a', rooted)
    ensures CleanParts(a + b, rooted) == CleanParts(a' + b, rooted)
  {
    if b == [] {
      assert a + b == a && a' + b == a';
    } else {
      var n := |b| - 1;
      CleanFollows(a, a', b[..n], rooted);
      assert a + b == (a + b[..n]) + [b[n]] && a' + b == (a' + b[..n]) + [b[n]];
      CleanLast(a + b[..n], b[n], rooted);
      CleanLast(a' + b[..n], b[n], rooted);
    }
  }

  /** Wherever they are, empty elements and "." vanish, and ".." takes the element before it along;
      at the start of a rooted path ".." vanishes alone. */
  lemma CleanDrops(a: seq<string>, x: string, b: seq<string>, rooted: bool)
    requires x !in {"", ".", ".."}
    ensures CleanParts(a + [""] + b, rooted) == CleanParts(a + b, rooted)
    ensures CleanParts(a + ["."] + b, rooted) == CleanParts(a + b, rooted)
    ensures CleanParts(a + [x, ".."] + b, rooted) == CleanParts(a + b, rooted)
    ensures CleanParts([".."] + b, true) == CleanParts(b, true)
  {
    CleanLast(a, "", rooted);
    CleanLast(a, ".", rooted);
    CleanLast(a, x, rooted);
    CleanLast(a + [x], "..", rooted);
    assert a + [x] + [".."] == a + [x, ".."];
    CleanFollows(a + [""], a, b, rooted);
    CleanFollows(a + ["."], a, b, rooted);
    CleanFollows(a + [x, ".."], a, b, rooted);
    CleanLast([], "..", true);
    assert [] + [".."] == [".."] && [] + b == b;
    CleanFollows([".."], [], b, true);
  }

  /** One more element on the stack. */
  function CleanStep(kept: seq<string>, x: string, rooted: bool): seq<string> {
    if x == "" || x == "." then kept
    else if x != ".." then kept + [x]
    else if kept != [] && kept[|kept| - 1] != ".." then kept[..|kept| - 1]
    else if rooted then kept
    else kept + [x]
  }

  lemma CleanLast(a: seq<string>, x: string, rooted: bool)
    ensures CleanParts(a + [x], rooted) == CleanStep(CleanParts(a, rooted), x, rooted)
  {
    var parts := a + [x];
    assert parts != [] && parts[|parts| - 1] == x && parts[..|parts| - 1] == a;
  }

  /** The part of a path up to and including its last slash. */
  function UpToSlash(path: string): (r: string)
    ensures |r| <= |path| && r == path[..|r|]
    ensures r != "" ==> r[|r| - 1] == '/'
    ensures Rooted(path) ==> Rooted(r)
  {
    if path == "" || path[|path| - 1] == '/' then path else UpToSlash(path[..|path| - 1])
  }

  function Dir(path: string): string {
    Clean(UpToSlash(path))
  }

  // ---------- lengths ----------

  function Weight(parts: seq<string>): nat {
    if parts == [] then 0 else Weight(parts[..|parts| - 1]) + |parts[|parts| - 1]| + 1
  }

  lemma {:induction false} WeightCons(x: string, parts: seq<string>)
    ensures Weight([x] + parts) == |x| + 1 + Weight(parts)
  {
    var n := |parts|;
    if parts == [] {
      assert [x] + parts == [x] && [x][..0] == [];
    } else {
      assert ([x] + parts)[..n] == [x] + parts[..n - 1];
      WeightCons(x, parts[..n - 1]);
    }
  }

  lemma {:induction false} JoinLength(parts: seq<string>, sep: char)
    requires parts != []
    ensures |Join(parts, sep)| + 1 == Weight(parts)
  {
    assert parts == [parts[0]] + parts[1..];
    WeightCons(parts[0], parts[1..]);
    if |parts| == 1 {
      assert parts[1..] == [];
    } else {
      JoinLength(parts[1..], sep);
    }
  }

  lemma {:induction false} CleanedWeight(parts: seq<string>, rooted: bool)
    ensures Weight(CleanParts(parts, rooted)) <= Weight(parts)
  {
    if parts != [] {
      var n := |parts| - 1;
      var kept, x := CleanParts(parts[..n], rooted), parts[n];
      CleanedWeight(parts[..n], rooted);
      assert (kept + [x])[..|kept|] == kept;
    }
  }

  lemma {:induction false} SplitEnds(s: string, sep: char)
    ensures s != "" && s[0] == sep ==> |Split(s, sep)| > 1 && Split(s, sep)[0] == ""
    ensures s != "" && s[|s| - 1] == sep ==> |Split(s, sep)| > 1 && Split(s, sep)[|Split(s, sep)| - 1] == ""
  {
    if s != "" {
      var rest := Split(s[1..], sep);
      if s[|s| - 1] == sep && 1 < |s| {
        SplitEnds(s[1..], sep);
        assert s[1..][|s| - 2] == s[|s| - 1];
      }
    }
  }

  /** Cleaning a path that ends in a slash makes it shorter, unless it is "/" or cleans to ".". */
  lemma CleanShortens(path: string)
    requires path != "" && path[|path| - 1] == '/'
    ensures Clean(path) == "." || path == "/" == Clean(path) || |Clean(path)| < |path|
    ensures Rooted(path) ==> Rooted(Clean(path))
  {
    var parts := Split(path, '/');
    var n := |parts| - 1;
    SplitEnds(path, '/');
    JoinLength(parts, '/');
    var cleaned := CleanParts(parts, Rooted(path));
    assert cleaned == CleanParts(parts[..n], Rooted(path));
    CleanedWeight(parts[..n], Rooted(path));
    if cleaned != [] { JoinLength(cleaned, '/'); }
    if Rooted(path) {
      RootedCleaned(parts[..n]);
      if path[1..] == "" { assert path == "/"; }
    }
  }

  lemma {:induction false} RootedCleaned(parts: seq<string>)
    requires parts != [] && parts[0] == ""
    ensures Weight(CleanParts(parts, true)) + 1 <= Weight(parts)
  {
    var n := |parts| - 1;
    if n == 0 {
      assert parts[..0] == [];
    } else {
      var kept, x := CleanParts(parts[..n], true), parts[n];
      RootedCleaned(parts[..n]);
      assert parts == parts[..n] + [x];
      CleanLast(parts[..n], x, true);
      WeightSnoc(kept, x);
    }
  }

  lemma WeightSnoc(parts: seq<string>, x: string)
    ensures Weight(parts + [x]) == Weight(parts) + |x| + 1
    ensures parts != [] ==> Weight(parts[..|parts| - 1]) <= Weight(parts)
  {
    assert (parts + [x])[..|parts|] == parts;
  }

  function Measure(dir: string): nat {
    if dir == "." then 0 else |dir| + 1
  }

  lemma ParentSmaller(dir: string)
    requires Dir(dir) != dir
    ensures Measure(Dir(dir)) < Measure(dir)
  {
    var upTo := UpToSlash(dir);
    if upTo != "" {
      CleanShortens(upTo);
    } else {
      assert Split("", '/') == [""];
      assert [""][..0] == [];
    }
    if dir == "." { DotIsItsOwnParent(); }
  }

  lemma DotIsItsOwnParent()
    ensures Dir(".") == "."
  {
    assert "."[..0] == "";
    assert UpToSlash(".") == "";
    assert Split("", '/') == [""];
    assert [""][..0] == [];
  }

  // ---------- the closest mounted ancestor ----------

  /** Walks up from a directory to the first one that is mounted; `None` when none is. */
  function FindDirectory(e: Entity, dir: string): (r: Option<string>)
    ensures r.Some? ==> EntityPath(e, r.value).Some?
    decreases Measure(dir)
  {
    if EntityPath(e, dir).Some? then Some(dir)
    else if Dir(dir) == dir then None
    else
      ParentSmaller(dir);
      FindDirectory(e, Dir(dir))
  }

  lemma {:induction false} RootedFound(e: Entity, dir: string)
    requires Rooted(dir) && EntityPath(e, "/").Some?
    ensures FindDirectory(e, dir).Some?
    decreases Measure(dir)
  {
    CleanShortens(UpToSlash(dir));
    assert Rooted(Dir(dir));
    if EntityPath(e, dir).None? && Dir(dir) != dir {
      ParentSmaller(dir);
      RootedFound(e, Dir(dir));
    }
  }

  // ---------- clean absolute directories ----------

  predicate Element(x: string) {
    x != "" && x != "." && x != ".." && '/' !in x
  }

  predicate Elements(xs: seq<string>) {
    forall i :: 0 <= i < |xs| ==> Element(xs[i])
  }

  /** "/a/b" for ["a", "b"], "/" for []. */
  function Absolute(xs: seq<string>): string {
    "/" + Join(xs, '/')
  }

  lemma {:induction false} CleanElements(xs: seq<string>, rooted: bool)
    requires Elements(xs)
    ensures CleanParts(xs, rooted) == xs
  {
    if xs != [] { CleanElements(xs[..|xs| - 1], rooted); }
  }

  lemma {:induction false} CleanWithEmpties(xs: seq<string>)
    requires Elements(xs)
    ensures CleanParts([""] + xs + [""], true) == xs
    ensures CleanParts([""] + xs, true) == xs
  {
    var ys := [""] + xs;
    assert (ys + [""])[..|ys|] == ys;
    if xs == [] {
      assert ys == [""] && ys[..0] == [];
      assert CleanParts(ys, true) == CleanParts([], true);
    } else {
      CleanWithEmpties(xs[..|xs| - 1]);
      assert ys[..|ys| - 1] == [""] + xs[..|xs| - 1];
    }
  }

  lemma {:induction false} UpToLastSlash(s: string, x: string)
    requires '/' !in x && s != "" && s[|s| - 1] == '/'
    ensures UpToSlash(s + x) == s
    decreases |x|
  {
    if x == "" {
      assert s + x == s;
    } else {
      assert (s + x)[..|s + x| - 1] == s + x[..|x| - 1];
      UpToLastSlash(s, x[..|x| - 1]);
    }
  }

  /** The parent of a clean absolute directory drops its last element. */
  lemma ParentOfAbsolute(xs: seq<string>)
    requires Elements(xs)
    ensures Dir(Absolute(xs)) == Absolute(if xs == [] then [] else xs[..|xs| - 1])
  {
    if xs == [] {
      assert Absolute([]) == "/";
      CleanWithEmpties([]);
      SplitFirst("", "", '/');
      assert "" + ['/'] + "" == "/";
      assert [""] + [] + [""] == [""] + [""];
    } else {
      var n := |xs| - 1;
      var before := xs[..n];
      var parent := if n == 0 then "/" else "/" + Join(before, '/') + "/";
      assert xs == before + [xs[n]];
      if n != 0 {
        JoinSnoc(before, xs[n], '/');
        assert "/" + (Join(before, '/') + ['/'] + xs[n]) == parent + xs[n];
      } else {
        assert xs == [xs[0]];
      }
      assert Absolute(xs) == parent + xs[n];
      UpToLastSlash(parent, xs[n]);
      SplitParent(before, parent);
    }
  }

  lemma SplitParent(before: seq<string>, parent: string)
    requires Elements(before)
    requires parent == if before == [] then "/" else "/" + Join(before, '/') + "/"
    ensures Clean(parent) == Absolute(before)
  {
    CleanWithEmpties(before);
    if before == [] {
      SplitFirst("", "", '/');
      assert "" + ['/'] + "" == "/";
      assert [""] + [] + [""] == [""] + [""];
    } else {
      SplitSlashes(before, parent);
    }
  }

  lemma SplitSlashes(before: seq<string>, path: string)
    requires Elements(before) && before != [] && path == "/" + Join(before, '/') + "/"
    ensures Split(path, '/') == [""] + before + [""]
  {
    var parts := before + [""];
    JoinSnoc(before, "", '/');
    NoSlashInside(before);
    SplitJoin(parts, '/');
    var inner := Join(parts, '/');
    assert inner == Join(before, '/') + ['/'];
    SplitFirst("", inner, '/');
    assert path == "" + ['/'] + inner;
    assert [""] + parts == [""] + before + [""];
  }

  lemma NoSlashInside(before: seq<string>)
    requires Elements(before)
    ensures forall i :: 0 <= i < |before + [""]| ==> '/' !in (before + [""])[i]
  {
    forall i | 0 <= i < |before| ensures '/' !in before[i] { assert Element(before[i]); }
  }

  /** For a clean absolute directory the search finds the longest mounted ancestor. */
  lemma FindsLongestAncestor(e: Entity, xs: seq<string>) returns (k: nat)
    requires Elements(xs) && EntityPath(e, "/").Some?
    ensures k <= |xs| && FindDirectory(e, Absolute(xs)) == Some(Absolute(xs[..k]))
    ensures EntityPath(e, Absolute(xs[..k])).Some?
    ensures forall j :: k < j <= |xs| ==> EntityPath(e, Absolute(xs[..j])).None?
  {
    assert xs[..|xs|] == xs;
    k := FindsAncestorOf(e, xs, |xs|);
  }

  lemma FindStep(e: Entity, xs: seq<string>)
    requires Elements(xs) && xs != [] && EntityPath(e, Absolute(xs)).None?
    ensures FindDirectory(e, Absolute(xs)) == FindDirectory(e, Absolute(xs[..|xs| - 1]))
  {
    ParentOfAbsolute(xs);
    AbsoluteLength(xs);
  }

  lemma {:induction false} FindsAncestorOf(e: Entity, xs: seq<string>, n: nat) returns (k: nat)
    requires Elements(xs) && EntityPath(e, "/").Some? && n <= |xs|
    ensures k <= n && FindDirectory(e, Absolute(xs[..n])) == Some(Absolute(xs[..k]))
    ensures EntityPath(e, Absolute(xs[..k])).Some?
    ensures forall j :: k < j <= n ==> EntityPath(e, Absolute(xs[..j])).None?
    decreases n
  {
    assert Absolute([]) == "/";
    if n == 0 {
      assert xs[..0] == [];
      k := 0;
    } else if EntityPath(e, Absolute(xs[..n])).Some? {
      k := n;
    } else {
      var here := xs[..n];
      FindStep(e, here);
      assert here[..|here| - 1] == xs[..n - 1];
      k := FindsAncestorOf(e, xs, n - 1);
      forall j | k < j <= n ensures EntityPath(e, Absolute(xs[..j])).None? {
        if j == n { assert xs[..j] == here; }
      }
    }
  }

  lemma AbsoluteLength(xs: seq<string>)
    requires Elements(xs) && xs != []
    ensures |Absolute(xs[..|xs| - 1])| < |Absolute(xs)|
  {
    var n := |xs| - 1;
    assert xs == xs[..n] + [xs[n]];
    if n != 0 { JoinSnoc(xs[..n], xs[n], '/'); } else { assert xs == [xs[0]]; }
  }

  // ---------- any absolute directory ----------

  /** What cleaning a rooted path leaves are proper elements. */
  lemma {:induction false} CleanPartsElements(parts: seq<string>)
    requires forall i :: 0 <= i < |parts| ==> '/' !in parts[i]
    ensures Elements(CleanParts(parts, true))
  {
    if parts != [] {
      var n := |parts| - 1;
      CleanPartsElements(parts[..n]);
      var kept := CleanParts(parts[..n], true);
      assert kept != [] ==> Element(kept[|kept| - 1]);
    }
  }

  lemma ParentIsClean(dir: string) returns (xs: seq<string>)
    requires Rooted(dir)
    ensures Elements(xs) && Dir(dir) == Absolute(xs)
  {
    var path := UpToSlash(dir);
    xs := CleanParts(Split(path, '/'), true);
    CleanPartsElements(Split(path, '/'));
  }

  /** Main result: for every absolute directory, clean or not, the search finds the directory
      itself when it is mounted, and otherwise the longest mounted ancestor of its clean parent. */
  lemma FindsClosestAncestor(e: Entity, dir: string) returns (xs: seq<string>, k: nat)
    requires Rooted(dir) && EntityPath(e, "/").Some?
    ensures Elements(xs) && Dir(dir) == Absolute(xs) && k <= |xs|
    ensures EntityPath(e, dir).Some? ==> FindDirectory(e, dir) == Some(dir)
    ensures EntityPath(e, dir).None? ==>
              && FindDirectory(e, dir) == Some(Absolute(xs[..k])) && EntityPath(e, Absolute(xs[..k])).Some?
              && forall j :: k < j <= |xs| ==> EntityPath(e, Absolute(xs[..j])).None?
  {
    xs := ParentIsClean(dir);
    k := FindsLongestAncestor(e, xs);
  }
}
