/** Distribution IDs: a name and a version, printed and parsed. */
module DistroId {
  import opened Basics
  import opened Strings

  /** A minor version of -1 means that there is none. */
  datatype ID = ID(name: string, major: int, minor: int)

  datatype ParseError = NoDash | TooManyDots | BadMajor | BadMinor

  const INT_MIN: int := -0x8000_0000_0000_0000
  const INT_MAX: int := 0x7fff_ffff_ffff_ffff

  predicate FitsInt(n: int) {
    INT_MIN <= n <= INT_MAX
  }

  // ---------- numbers ----------

  predicate IsDigit(c: char) {
    '0' <= c <= '9'
  }

  predicate AllDigits(s: string) {
    forall i :: 0 <= i < |s| ==> IsDigit(s[i])
  }

  function DigitChar(d: nat): char
    requires d < 10
  {
    ('0' as int + d) as char
  }

  function Unsigned(n: nat): (r: string)
    ensures r != "" && AllDigits(r)
  {
    if n < 10 then [DigitChar(n)] else Unsigned(n / 10) + [DigitChar(n % 10)]
  }

  function Decimal(n: int): string {
    if n < 0 then "-" + Unsigned(-n) else Unsigned(n)
  }

  function Value(s: string): nat
    requires AllDigits(s)
  {
    if s == "" then 0 else 10 * Value(s[..|s| - 1]) + (s[|s| - 1] as int - '0' as int)
  }

  /** Decimal digits with an optional sign, within the range of a 64-bit integer. */
  function Atoi(s: string): (r: Option<int>)
    ensures r.Some? ==> FitsInt(r.value)
    ensures r.Some? && '-' !in s ==> 0 <= r.value
  {
    var digits := if s != "" && s[0] in "+-" then s[1..] else s;
    if digits == "" || !AllDigits(digits) then None
    else
      var n: int := if s[0] == '-' then 0 - Value(digits) else Value(digits);
      if FitsInt(n) then Some(n) else None
  }

  lemma {:induction false} ValueUnsigned(n: nat)
    ensures Value(Unsigned(n)) == n
  {
    if n < 10 {
      assert [DigitChar(n)][..0] == "";
    } else {
      var s := Unsigned(n);
      ValueUnsigned(n / 10);
      assert s[..|s| - 1] == Unsigned(n / 10);
    }
  }

  lemma AtoiDecimal(n: int)
    requires FitsInt(n)
    ensures Atoi(Decimal(n)) == Some(n)
  {
    var digits := Unsigned(if n < 0 then -n else n);
    ValueUnsigned(if n < 0 then -n else n);
    if n < 0 {
      assert Decimal(n)[1..] == digits;
    } else {
      assert IsDigit(digits[0]);
    }
  }

  lemma UnsignedPlain(n: nat)
    ensures '-' !in Unsigned(n) && '.' !in Unsigned(n)
  {
  }

  // ---------- printing and parsing ----------

  function VersionString(id: ID): string {
    if id.minor == -1 then Decimal(id.major) else Decimal(id.major) + "." + Decimal(id.minor)
  }

  function String(id: ID): string {
    id.name + "-" + VersionString(id)
  }

  function ParseVersion(name: string, version: string): Result<ID, ParseError> {
    var parts := Split(version, '.');
    if 2 < |parts| then Err(TooManyDots)
    else
      var major := Atoi(parts[0]);
      if major.None? then Err(BadMajor)
      else if |parts| == 1 then Ok(ID(name, major.value, -1))
      else
        var minor := Atoi(parts[1]);
        if minor.None? then Err(BadMinor) else Ok(ID(name, major.value, minor.value))
  }

  function ParseID(s: string): Result<ID, ParseError> {
    var parts := Split(s, '-');
    if |parts| < 2 then Err(NoDash)
    else ParseVersion(Join(parts[..|parts| - 1], '-'), parts[|parts| - 1])
  }

  /** Splitting at the last separator. */
  lemma SplitLast(x: string, rest: string, sep: char)
    requires sep !in rest
    ensures Split(x + [sep] + rest, sep) == Split(x, sep) + [rest]
  {
    JoinSnoc(Split(x, sep), rest, sep);
    SplitJoin(Split(x, sep) + [rest], sep);
  }

  /** The version is what follows the last dash: the name may contain dashes. */
  lemma ParseAtLastDash(name: string, version: string)
    requires '-' !in version
    ensures ParseID(name + "-" + version) == ParseVersion(name, version)
  {
    SplitLast(name, version, '-');
    var parts := Split(name, '-') + [version];
    assert parts[..|parts| - 1] == Split(name, '-');
  }

  // ---------- what is accepted ----------

  /** Without a dash, and only then, there is no version at all. */
  lemma NoDashIff(s: string)
    ensures ParseID(s) == Err(NoDash) <==> '-' !in s
  {
    if '-' !in s { SplitSimple(s, '-'); }
  }

  /** A version is a major number, or a major and a minor one with a dot in between. */
  lemma VersionParsed(name: string, a: string, b: string, rest: string)
    requires '.' !in a && '.' !in b
    ensures ParseVersion(name, a) == if Atoi(a).None? then Err(BadMajor) else Ok(ID(name, Atoi(a).value, -1))
    ensures ParseVersion(name, a + "." + b) ==
            if Atoi(a).None? then Err(BadMajor)
            else if Atoi(b).None? then Err(BadMinor)
            else Ok(ID(name, Atoi(a).value, Atoi(b).value))
    ensures ParseVersion(name, a + "." + (b + "." + rest)) == Err(TooManyDots)
  {
    SplitSimple(a, '.');
    SplitSimple(b, '.');
    SplitFirst(a, b, '.');
    SplitFirst(b, rest, '.');
    SplitFirst(a, b + "." + rest, '.');
  }

  /** A number is decimal digits, with a sign or without, in the range of 64 bits. */
  lemma NumberParsed(digits: string)
    requires digits != "" && AllDigits(digits)
    ensures Atoi(digits) == if Value(digits) <= 9223372036854775807 then Some(Value(digits)) else None
    ensures Atoi("+" + digits) == Atoi(digits)
    ensures Atoi("-" + digits) == if Value(digits) <= 9223372036854775808 then Some(0 - Value(digits)) else None
  {
    assert ("+" + digits)[1..] == digits && ("-" + digits)[1..] == digits;
    assert IsDigit(digits[0]);
  }

  lemma NotANumber(s: string)
    requires !AllDigits(s) || s == ""
    ensures Atoi("+" + s) == None && Atoi("-" + s) == None
    ensures s == "" || s[0] !in "+-" ==> Atoi(s) == None
  {
    assert ("+" + s)[1..] == s && ("-" + s)[1..] == s;
  }

  /** The forms of IDs by example. */
  lemma PrintedForms()
    ensures String(ID("rhel", 9, 10)) == "rhel-9.10"
    ensures String(ID("fedora", 40, -1)) == "fedora-40"
  {
  }

  /** An accepted string ends in a version without a dash, so its numbers are not negative. */
  lemma ParsedIsPlain(s: string)
    requires ParseID(s).Ok?
    ensures var id := ParseID(s).value; 0 <= id.major <= INT_MAX && -1 <= id.minor <= INT_MAX
  {
    var version := Split(s, '-')[|Split(s, '-')| - 1];
    forall i | 0 <= i < |Split(version, '.')| ensures '-' !in Split(version, '.')[i] {
      SplitKeepsOut(version, '.', '-');
    }
  }

  lemma {:induction false} SplitKeepsOut(s: string, sep: char, c: char)
    requires c !in s
    ensures forall i :: 0 <= i < |Split(s, sep)| ==> c !in Split(s, sep)[i]
  {
    if s != "" {
      SplitKeepsOut(s[1..], sep, c);
    }
  }

  lemma ParseVersionString(name: string, id: ID)
    requires 0 <= id.major <= INT_MAX && -1 <= id.minor <= INT_MAX
    ensures '-' !in VersionString(id)
    ensures ParseVersion(name, VersionString(id)) == Ok(id.(name := name))
  {
    UnsignedPlain(id.major);
    AtoiDecimal(id.major);
    if id.minor == -1 {
      SplitSimple(VersionString(id), '.');
    } else {
      UnsignedPlain(id.minor);
      AtoiDecimal(id.minor);
      SplitFirst(Decimal(id.major), Decimal(id.minor), '.');
      SplitSimple(Decimal(id.minor), '.');
    }
  }

  /** A dash inside the version ends up in the name. */
  lemma DashInVersion(name: string, a: string, b: string)
    requires '-' !in b
    ensures ParseID(name + "-" + (a + "-" + b)).Ok? ==> ParseID(name + "-" + (a + "-" + b)).value.name != name
  {
    var longer := name + "-" + a;
    assert name + "-" + (a + "-" + b) == longer + "-" + b;
    ParseAtLastDash(longer, b);
    assert |name| < |longer|;
  }

  /** Printing and parsing gives the ID back exactly when its numbers are not negative, whatever
      its name. */
  lemma RoundTripIff(id: ID)
    requires FitsInt(id.major) && FitsInt(id.minor)
    ensures ParseID(String(id)) == Ok(id) <==> 0 <= id.major && -1 <= id.minor
  {
    if id.minor < -1 {
      UnsignedPlain(-id.minor);
      assert VersionString(id) == (Decimal(id.major) + ".") + "-" + Unsigned(-id.minor);
      DashInVersion(id.name, Decimal(id.major) + ".", Unsigned(-id.minor));
    } else if id.major < 0 {
      UnsignedPlain(-id.major);
      var rest := if id.minor == -1 then Unsigned(-id.major) else Unsigned(-id.major) + "." + Unsigned(id.minor);
      if id.minor != -1 { UnsignedPlain(id.minor); }
      assert VersionString(id) == "" + "-" + rest;
      DashInVersion(id.name, "", rest);
    } else {
      ParseVersionString(id.name, id);
      ParseAtLastDash(id.name, VersionString(id));
    }
  }

  /** Printing what was parsed is a normal form: parsing it again gives the same ID, and printing
      that gives the same string. */
  lemma ParsePrintParse(s: string)
    requires ParseID(s).Ok?
    ensures ParseID(String(ParseID(s).value)) == ParseID(s)
  {
    ParsedIsPlain(s);
    RoundTripIff(ParseID(s).value);
  }

  /** A printed ID determines the ID. */
  lemma StringInjective(id: ID, id': ID)
    requires 0 <= id.major <= INT_MAX && -1 <= id.minor <= INT_MAX
    requires 0 <= id'.major <= INT_MAX && -1 <= id'.minor <= INT_MAX
    requires String(id) == String(id')
    ensures id == id'
  {
    RoundTripIff(id);
    RoundTripIff(id');
  }
}
