/** Generated names that do not collide. */
module Names {
  import opened Basics
  import opened Strings

  function TwoDigits(i: nat): string
    requires i < 100
  {
    [('0' as int + i / 10) as char, ('0' as int + i % 10) as char]
  }

  lemma TwoDigitsInjective(i: nat, j: nat)
    requires i < 100 && j < 100 && TwoDigits(i) == TwoDigits(j)
    ensures i == j
  {
    assert TwoDigits(i)[0] == TwoDigits(j)[0] && TwoDigits(i)[1] == TwoDigits(j)[1];
  }

  /** The base itself, or the base with the first free number from `i` on. */
  function NumberedFrom(base: string, existing: set<string>, i: nat): (r: Option<string>)
    requires i <= 100
    ensures r.Some? ==> r.value !in existing && exists k :: i <= k < 100 && r.value == base + TwoDigits(k)
    ensures r.None? ==> forall k :: i <= k < 100 ==> base + TwoDigits(k) in existing
    decreases 100 - i
  {
    if i == 100 then None
    else if base + TwoDigits(i) !in existing then Some(base + TwoDigits(i))
    else NumberedFrom(base, existing, i + 1)
  }

  function GenUniqueString(base: string, existing: set<string>): (r: Option<string>)
    ensures r.Some? ==> r.value !in existing && (r.value == base || exists k :: 0 <= k < 100 && r.value == base + TwoDigits(k))
    ensures r.None? ==> base in existing && forall k :: 0 <= k < 100 ==> base + TwoDigits(k) in existing
  {
    if base !in existing then Some(base) else NumberedFrom(base, existing, 0)
  }

  /** The base when it is free, otherwise the base with the least free number of two digits. */
  lemma GenUniqueStringIsLeast(base: string, existing: set<string>, k: nat)
    requires k < 100
    ensures base !in existing ==> GenUniqueString(base, existing) == Some(base)
    ensures base in existing && base + TwoDigits(k) !in existing
            && (forall j :: 0 <= j < k ==> base + TwoDigits(j) in existing) ==>
              GenUniqueString(base, existing) == Some(base + TwoDigits(k))
  {
    if base in existing && base + TwoDigits(k) !in existing
       && (forall j :: 0 <= j < k ==> base + TwoDigits(j) in existing) {
      LeastFrom(base, existing, 0, k);
    }
  }

  lemma {:induction false} LeastFrom(base: string, existing: set<string>, i: nat, k: nat)
    requires i <= k < 100 && base + TwoDigits(k) !in existing
    requires forall j :: i <= j < k ==> base + TwoDigits(j) in existing
    ensures NumberedFrom(base, existing, i) == Some(base + TwoDigits(k))
    decreases k - i
  {
    if i < k { LeastFrom(base, existing, i + 1, k); }
  }

  /** Numbers are padded to two decimal digits. */
  lemma TwoDigitsAreDecimal(i: nat)
    requires i < 100
    ensures var s := TwoDigits(i);
            && |s| == 2 && '0' <= s[0] <= '9' && '0' <= s[1] <= '9'
            && i == 10 * (s[0] as int - '0' as int) + (s[1] as int - '0' as int)
  {
  }

  function Candidates(base: string, n: nat): (r: set<string>)
    requires n <= 100
    ensures |r| == n
    ensures forall k :: 0 <= k < n ==> base + TwoDigits(k) in r
    ensures forall x :: x in r ==> exists k :: 0 <= k < n && x == base + TwoDigits(k)
  {
    if n == 0 then {}
    else
      var before := Candidates(base, n - 1);
      CandidateNew(base, n - 1);
      before + {base + TwoDigits(n - 1)}
  }

  lemma CandidateNew(base: string, n: nat)
    requires n < 100
    ensures forall k :: 0 <= k < n ==> base + TwoDigits(k) != base + TwoDigits(n)
  {
    forall k | 0 <= k < n ensures base + TwoDigits(k) != base + TwoDigits(n) {
      var b := |base|;
      assert (base + TwoDigits(k))[b..] == TwoDigits(k);
      assert (base + TwoDigits(n))[b..] == TwoDigits(n);
      if TwoDigits(k) == TwoDigits(n) { TwoDigitsInjective(k, n); }
    }
  }

  /** A name is always found among fewer than 101 existing names. */
  lemma GenUniqueStringSucceeds(base: string, existing: set<string>)
    requires |existing| < 101
    ensures GenUniqueString(base, existing).Some?
  {
    if GenUniqueString(base, existing).None? {
      var n: nat :| n == 100;
      AllCandidatesTaken(base, existing, n);
      SubsetSmaller(Candidates(base, n) + {base}, existing);
    }
  }

  lemma AllCandidatesTaken(base: string, existing: set<string>, n: nat)
    requires n <= 100 && base in existing && forall k :: 0 <= k < n ==> base + TwoDigits(k) in existing
    ensures Candidates(base, n) + {base} <= existing && |Candidates(base, n) + {base}| == n + 1
  {
    var taken := Candidates(base, n);
    forall x | x in taken ensures x in existing && x != base {
      var k :| 0 <= k < n && x == base + TwoDigits(k);
      SuffixDiffers(base, k);
    }
  }

  lemma SuffixDiffers(base: string, k: nat)
    requires k < 100
    ensures base != base + TwoDigits(k)
  {
    assert |base + TwoDigits(k)| == |base| + 2;
  }

  lemma {:induction false} SubsetSmaller(a: set<string>, b: set<string>)
    requires a <= b
    ensures |a| <= |b|
  {
    if a != {} {
      var x :| x in a;
      SubsetSmaller(a - {x}, b - {x});
    }
  }

  // ---------- logical volume names ----------

  function TrimLeft(s: string, c: char): string {
    if s != "" && s[0] == c then TrimLeft(s[1..], c) else s
  }

  function ReplaceAll(s: string, c: char, d: char): string {
    seq(|s|, i requires 0 <= i < |s| => if s[i] == c then d else s[i])
  }

  function LvName(path: string): string {
    if path == "/" then "rootlv" else ReplaceAll(TrimLeft(path, '/'), '/', '_') + "lv"
  }

  lemma {:induction false} ReplacedJoin(xs: seq<string>, c: char, d: char)
    requires forall i :: 0 <= i < |xs| ==> c !in xs[i]
    ensures ReplaceAll(Join(xs, c), c, d) == Join(xs, d)
  {
    if xs != [] {
      forall k | 0 <= k < |xs[0]| ensures xs[0][k] != c { assert xs[0][k] in xs[0]; }
      assert ReplaceAll(xs[0], c, d) == xs[0];
      ReplacedJoin(xs[1..], c, d);
    }
  }

  /** The name for a mountpoint: its elements joined by "_", with "lv" at the end. */
  lemma LvNameOfElements(xs: seq<string>)
    requires xs != [] && forall i :: 0 <= i < |xs| ==> xs[i] != "" && '/' !in xs[i]
    ensures LvName("/" + Join(xs, '/')) == Join(xs, '_') + "lv"
    ensures LvName("/") == "rootlv"
  {
    FirstOfJoin(xs);
    TrimmedOnce(Join(xs, '/'));
    ReplacedJoin(xs, '/', '_');
  }

  lemma FirstOfJoin(xs: seq<string>)
    requires xs != [] && xs[0] != "" && '/' !in xs[0]
    ensures Join(xs, '/') != "" && Join(xs, '/')[0] != '/'
  {
    assert xs[0][0] in xs[0];
  }

  lemma TrimmedOnce(s: string)
    requires s != "" && s[0] != '/'
    ensures "/" + s != "/" && TrimLeft("/" + s, '/') == s
  {
    assert ("/" + s)[1..] == s;
  }

  /** A name without slashes, such as the one for swap space, only gets the ending. */
  lemma LvNameOfPlain(name: string)
    requires '/' !in name
    ensures LvName(name) == name + "lv"
  {
    ReplacedJoin([name], '/', '_');
    if name != "" { assert name[0] in name; }
  }
}
