/** Splitting and joining strings at a separator, as Go's strings package does. */
module Strings {

  /** The pieces between the separators: always at least one. */
  function Split(s: string, sep: char): (r: seq<string>)
    ensures r != []
    ensures forall i :: 0 <= i < |r| ==> sep !in r[i]
    ensures Join(r, sep) == s
  {
    if s == [] then [""]
    else
      var rest := Split(s[1..], sep);
      if s[0] == sep then
        JoinCons("", rest, sep);
        [""] + rest
      else
        JoinFirst(s[..1], rest, sep);
        assert s == s[..1] + s[1..];
        [s[..1] + rest[0]] + rest[1..]
  }

  function Join(parts: seq<string>, sep: char): string {
    if parts == [] then ""
    else if |parts| == 1 then parts[0]
    else parts[0] + [sep] + Join(parts[1..], sep)
  }

  lemma JoinCons(x: string, parts: seq<string>, sep: char)
    requires parts != []
    ensures Join([x] + parts, sep) == x + [sep] + Join(parts, sep)
  {
    assert ([x] + parts)[1..] == parts;
  }

  lemma JoinFirst(x: string, parts: seq<string>, sep: char)
    requires parts != []
    ensures Join([x + parts[0]] + parts[1..], sep) == x + Join(parts, sep)
  {
    var joined := [x + parts[0]] + parts[1..];
    if 1 < |parts| {
      assert joined[1..] == parts[1..];
      assert Join(joined, sep) == x + parts[0] + [sep] + Join(parts[1..], sep);
      assert Join(parts, sep) == parts[0] + [sep] + Join(parts[1..], sep);
      assert x + parts[0] + [sep] + Join(parts[1..], sep) == x + (parts[0] + [sep] + Join(parts[1..], sep));
    }
  }

  lemma {:induction false} JoinSnoc(xs: seq<string>, x: string, sep: char)
    requires xs != []
    ensures Join(xs + [x], sep) == Join(xs, sep) + [sep] + x
  {
    assert (xs + [x])[1..] == xs[1..] + [x];
    if 1 < |xs| {
      JoinSnoc(xs[1..], x, sep);
      assert Join(xs + [x], sep) == xs[0] + [sep] + (Join(xs[1..], sep) + [sep] + x);
    } else {
      assert xs[1..] + [x] == [x];
    }
  }

  lemma {:induction false} SplitSimple(s: string, sep: char)
    requires sep !in s
    ensures Split(s, sep) == [s]
  {
    if s != [] {
      SplitSimple(s[1..], sep);
      assert s == s[..1] + s[1..];
    }
  }

  /** Splitting before the first separator. */
  lemma {:induction false} SplitFirst(x: string, rest: string, sep: char)
    requires sep !in x
    ensures Split(x + [sep] + rest, sep) == [x] + Split(rest, sep)
  {
    var s := x + [sep] + rest;
    if x == [] {
      assert s[1..] == rest;
    } else {
      assert s[1..] == x[1..] + [sep] + rest;
      SplitFirst(x[1..], rest, sep);
      assert x == x[..1] + x[1..];
      assert s[..1] == x[..1];
      assert ([x[1..]] + Split(rest, sep))[1..] == Split(rest, sep);
    }
  }

  /** Splitting undoes joining. */
  lemma {:induction false} SplitJoin(parts: seq<string>, sep: char)
    requires parts != [] && forall i :: 0 <= i < |parts| ==> sep !in parts[i]
    ensures Split(Join(parts, sep), sep) == parts
  {
    if |parts| == 1 {
      SplitSimple(parts[0], sep);
    } else {
      SplitFirst(parts[0], Join(parts[1..], sep), sep);
      SplitJoin(parts[1..], sep);
      assert parts == [parts[0]] + parts[1..];
    }
  }
}
