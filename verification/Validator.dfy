/** The validator of blueprint customizations: a configuration may only set what is on a list of
    supported keys. */
module Validator {
  import opened Basics
  import opened Strings

  /** A configuration, as reflection shows it. */
  datatype Value =
    | Scalar(isZero: bool)
    | Other(isZero: bool)
    | Pointer(target: Option<Value>)
    | Slice(isNil: bool, elems: seq<Value>)
    | Struct(fields: seq<Field>)

  /** An anonymous field is embedded: its own fields count as fields of the parent. */
  datatype Field = Field(tag: string, anonymous: bool, value: Value)

  /** A step of a path: a field, or an element of the slice in it. */
  datatype Step = Step(tag: string, index: Option<nat>)

  datatype Reason = NotSupported | NotContainer | UnexpectedType

  /** `Panic` when reflection is asked for the fields of something that is not a structure. */
  datatype Outcome = Accept | Reject(revPath: seq<Step>, reason: Reason) | Panic

  predicate IsZero(v: Value)
    decreases v
  {
    match v
    case Scalar(z) => z
    case Other(z) => z
    case Pointer(t) => t.None?
    case Slice(isNil, elems) => isNil && elems == []
    case Struct(fields) => forall i :: 0 <= i < |fields| ==> IsZero(fields[i].value)
  }

  predicate Empty(v: Value) {
    IsZero(v) || (v.Slice? && v.elems == [])
  }

  function Deref(v: Value): Value {
    if v.Pointer? && v.target.Some? then v.target.value else v
  }

  // ---------- supported keys ----------

  function FirstDot(key: string): (r: nat)
    requires '.' in key
    ensures r < |key| && key[r] == '.' && '.' !in key[..r]
  {
    if key[0] == '.' then 0 else 1 + FirstDot(key[1..])
  }

  predicate IsUnder(key: string, tag: string) {
    '.' in key && key[..FirstDot(key)] == tag
  }

  /** What follows `tag` in the keys that go on below it. */
  function SubKeys(supported: seq<string>, tag: string): seq<string> {
    if supported == [] then []
    else
      var before, key := SubKeys(supported[..|supported| - 1], tag), supported[|supported| - 1];
      if IsUnder(key, tag) then before + [key[FirstDot(key) + 1..]] else before
  }

  predicate Leaf(supported: seq<string>, tag: string) {
    '.' !in tag && tag in supported
  }

  // ---------- validation ----------

  function Below(o: Outcome, step: Step): Outcome {
    if o.Reject? then Reject(o.revPath + [step], o.reason) else o
  }

  function Validate(supported: seq<string>, conf: Value): Outcome
    decreases conf, 0
  {
    if !conf.Struct? then Panic else ValidateFields(supported, conf.fields, 0)
  }

  function ValidateFields(supported: seq<string>, fields: seq<Field>, i: nat): Outcome
    requires i <= |fields|
    decreases fields, |fields| - i
  {
    if i == |fields| then Accept
    else
      var o := ValidateField(supported, fields[i]);
      if o.Accept? then ValidateFields(supported, fields, i + 1) else o
  }

  function ValidateField(supported: seq<string>, f: Field): Outcome
    decreases f, 0
  {
    if f.anonymous then Validate(supported, f.value)
    else
      var here := Step(f.tag, None);
      var subList := SubKeys(supported, f.tag);
      if subList == [] then
        if Empty(f.value) || Leaf(supported, f.tag) then Accept else Reject([here], NotSupported)
      else if IsZero(f.value) then Accept
      else
        match Deref(f.value)
        case Slice(_, elems) => ValidateElems(subList, f.tag, elems, 0)
        case Struct(_) => Below(Validate(subList, Deref(f.value)), here)
        case Scalar(_) => Reject([here], NotContainer)
        case _ => Reject([here], UnexpectedType)
  }

  function ValidateElems(supported: seq<string>, tag: string, elems: seq<Value>, k: nat): Outcome
    requires k <= |elems|
    decreases elems, |elems| - k
  {
    if k == |elems| then Accept
    else
      var o := Validate(supported, elems[k]);
      if o.Accept? then ValidateElems(supported, tag, elems, k + 1) else Below(o, Step(tag, Some(k)))
  }

  ghost predicate Sorts(supported: seq<string>, leaves: set<string>, subMap: map<string, seq<string>>) {
    && (forall tag :: tag in leaves <==> Leaf(supported, tag))
    && (forall tag :: (tag in subMap <==> SubKeys(supported, tag) != [])
                      && (tag in subMap ==> subMap[tag] == SubKeys(supported, tag)))
  }

  lemma SubKeysSnoc(supported: seq<string>, key: string, tag: string)
    ensures SubKeys(supported + [key], tag) ==
            if IsUnder(key, tag) then SubKeys(supported, tag) + [key[FirstDot(key) + 1..]] else SubKeys(supported, tag)
    ensures Leaf(supported + [key], tag) <==> Leaf(supported, tag) || ('.' !in key && key == tag)
  {
    assert (supported + [key])[..|supported|] == supported;
  }

  lemma SortsLeaf(supported: seq<string>, leaves: set<string>, subMap: map<string, seq<string>>, key: string)
    requires Sorts(supported, leaves, subMap) && '.' !in key
    ensures Sorts(supported + [key], leaves + {key}, subMap)
  {
    forall tag ensures SubKeys(supported + [key], tag) == SubKeys(supported, tag) { SubKeysSnoc(supported, key, tag); }
    forall tag ensures Leaf(supported + [key], tag) <==> Leaf(supported, tag) || key == tag {
      SubKeysSnoc(supported, key, tag);
    }
  }

  lemma SortsUnder(supported: seq<string>, leaves: set<string>, subMap: map<string, seq<string>>, key: string)
    requires Sorts(supported, leaves, subMap) && '.' in key
    ensures var head, rest := key[..FirstDot(key)], key[FirstDot(key) + 1..];
            var subList := if head in subMap then subMap[head] else [];
            Sorts(supported + [key], leaves, subMap[head := subList + [rest]])
  {
    var head, rest := key[..FirstDot(key)], key[FirstDot(key) + 1..];
    var subList := if head in subMap then subMap[head] else [];
    assert subList == SubKeys(supported, head);
    var m := subMap[head := subList + [rest]];
    forall tag ensures (tag in m <==> SubKeys(supported + [key], tag) != [])
                       && (tag in m ==> m[tag] == SubKeys(supported + [key], tag)) {
      SubKeysSnoc(supported, key, tag);
    }
    forall tag ensures Leaf(supported + [key], tag) <==> Leaf(supported, tag) { SubKeysSnoc(supported, key, tag); }
  }

  /** Sorts the keys into those that end on this level and those that go on, by their first part. */
  method SplitKeys(supported: seq<string>) returns (supportedMap: set<string>, subMap: map<string, seq<string>>)
    ensures Sorts(supported, supportedMap, subMap)
  {
    supportedMap, subMap := {}, map[];
    for i := 0 to |supported|
      invariant Sorts(supported[..i], supportedMap, subMap)
    {
      var key := supported[i];
      assert supported[..i + 1] == supported[..i] + [key];
      if '.' in key {
        SortsUnder(supported[..i], supportedMap, subMap, key);
        var head, rest := key[..FirstDot(key)], key[FirstDot(key) + 1..];
        var subList := if head in subMap then subMap[head] else [];
        subMap := subMap[head := subList + [rest]];
      } else {
        SortsLeaf(supported[..i], supportedMap, subMap, key);
        supportedMap := supportedMap + {key};
      }
    }
    assert supported[..|supported|] == supported;
  }

  method ValidateSupportedConfig(supported: seq<string>, conf: Value) returns (r: Outcome)
    ensures r == Validate(supported, conf)
    decreases conf
  {
    var supportedMap, subMap := SplitKeys(supported);
    if !conf.Struct? { return Panic; }
    for i := 0 to |conf.fields|
      invariant Validate(supported, conf) == ValidateFields(supported, conf.fields, i)
    {
      var f := conf.fields[i];
      if f.anonymous {
        var o := ValidateSupportedConfig(supported, f.value);
        if !o.Accept? { return o; }
        continue;
      }
      if f.tag !in subMap {
        if !Empty(f.value) && f.tag !in supportedMap {
          return Reject([Step(f.tag, None)], NotSupported);
        }
        continue;
      }
      if IsZero(f.value) { continue; }
      var subList, sub := subMap[f.tag], Deref(f.value);
      match sub {
        case Slice(_, elems) =>
          for k := 0 to |elems|
            invariant ValidateField(supported, f) == ValidateElems(subList, f.tag, elems, k)
          {
            var o := ValidateSupportedConfig(subList, elems[k]);
            if !o.Accept? { return Below(o, Step(f.tag, Some(k))); }
          }
        case Struct(_) =>
          var o := ValidateSupportedConfig(subList, sub);
          if !o.Accept? { return Below(o, Step(f.tag, None)); }
        case Scalar(_) =>
          return Reject([Step(f.tag, None)], NotContainer);
        case _ =>
          return Reject([Step(f.tag, None)], UnexpectedType);
      }
    }
    return Accept;
  }

  // ---------- the nodes of a configuration ----------

  /** `x` is the value of the field that the path leads to; embedded structures take no step. */
  ghost predicate NodeAt(v: Value, path: seq<Step>, x: Value)
    decreases v, 0
  {
    v.Struct? && exists i :: 0 <= i < |v.fields| && FieldAt(v.fields[i], path, x)
  }

  ghost predicate FieldAt(f: Field, path: seq<Step>, x: Value)
    decreases f, 0
  {
    if f.anonymous then NodeAt(f.value, path, x)
    else if path == [] || path[0].tag != f.tag then false
    else if |path| == 1 then path[0].index.None? && x == f.value
    else
      match Deref(f.value)
      case Struct(_) => path[0].index.None? && NodeAt(Deref(f.value), path[1..], x)
      case Slice(_, elems) => ElemAt(elems, path[0].index, path[1..], x)
      case _ => false
  }

  ghost predicate ElemAt(elems: seq<Value>, index: Option<nat>, path: seq<Step>, x: Value)
    decreases elems, 0
  {
    index.Some? && index.value < |elems| && NodeAt(elems[index.value], path, x)
  }

  function Tags(path: seq<Step>): (r: seq<string>)
    ensures |r| == |path|
  {
    seq(|path|, i requires 0 <= i < |path| => path[i].tag)
  }

  // ---------- what is supported ----------

  type Key = seq<string>

  function Keys(supported: seq<string>): set<Key> {
    set k | k in supported :: Split(k, '.')
  }

  /** A key that goes on below another one takes its place. */
  ghost predicate Shadowed(keys: set<Key>, key: Key) {
    exists k :: k in keys && key < k
  }

  predicate Structs(elems: seq<Value>) {
    forall i :: 0 <= i < |elems| ==> elems[i].Struct?
  }

  /** A structure or a slice of structures, or a pointer to one. */
  predicate Container(v: Value) {
    var d := Deref(v);
    d.Struct? || (d.Slice? && Structs(d.elems))
  }

  ghost predicate Allowed(keys: set<Key>, path: Key, x: Value) {
    || (exists k :: k in keys && k <= path && !Shadowed(keys, k))
    || (Container(x) && exists k :: k in keys && path < k)
  }

  /** Everything that is set is at or below a supported key, or on the way to one. */
  ghost predicate Supported(keys: set<Key>, v: Value) {
    forall path, x :: NodeAt(v, path, x) && !Empty(x) ==> Allowed(keys, Tags(path), x)
  }

  ghost predicate FieldSupported(keys: set<Key>, f: Field) {
    forall path, x :: FieldAt(f, path, x) && !Empty(x) ==> Allowed(keys, Tags(path), x)
  }

  /** Only structures are embedded. */
  predicate EmbedsStructs(v: Value)
    decreases v
  {
    match v
    case Pointer(t) => t.Some? ==> EmbedsStructs(t.value)
    case Slice(_, elems) => forall i :: 0 <= i < |elems| ==> EmbedsStructs(elems[i])
    case Struct(fields) =>
      forall i :: 0 <= i < |fields| ==>
        (fields[i].anonymous ==> fields[i].value.Struct?) && EmbedsStructs(fields[i].value)
    case _ => true
  }

  // ---------- keys of a level ----------

  lemma SplitAtDot(key: string)
    requires '.' in key
    ensures Split(key, '.') == [key[..FirstDot(key)]] + Split(key[FirstDot(key) + 1..], '.')
  {
    var d := FirstDot(key);
    assert key == key[..d] + "." + key[d + 1..];
    SplitFirst(key[..d], key[d + 1..], '.');
  }

  /** The keys below a tag are those of the list that start with it and go on. */
  lemma {:induction false} SubKeysAre(supported: seq<string>, tag: string, key: Key)
    ensures key in Keys(SubKeys(supported, tag)) <==> key != [] && [tag] + key in Keys(supported)
  {
    if supported == [] {
    } else {
      var before, last := supported[..|supported| - 1], supported[|supported| - 1];
      SubKeysAre(before, tag, key);
      KeysSnoc(before, last);
      assert supported == before + [last];
      if '.' in last {
        SplitAtDot(last);
        if IsUnder(last, tag) { KeysSnoc(SubKeys(before, tag), last[FirstDot(last) + 1..]); }
        ConsEqual(tag, key, last[..FirstDot(last)], Split(last[FirstDot(last) + 1..], '.'));
      } else {
        SplitSimple(last, '.');
        ConsEqual(tag, key, last, []);
      }
    }
  }

  lemma KeysSnoc(supported: seq<string>, key: string)
    ensures Keys(supported + [key]) == Keys(supported) + {Split(key, '.')}
  {
  }

  lemma ConsEqual(x: string, xs: seq<string>, y: string, ys: seq<string>)
    ensures [x] + xs == [y] + ys <==> x == y && xs == ys
  {
    assert ([x] + xs)[0] == x && ([x] + xs)[1..] == xs;
    assert ([y] + ys)[0] == y && ([y] + ys)[1..] == ys;
  }

  lemma LeafIsKey(supported: seq<string>, tag: string)
    ensures Leaf(supported, tag) <==> [tag] in Keys(supported)
  {
    if Leaf(supported, tag) { SplitSimple(tag, '.'); }
    if [tag] in Keys(supported) {
      var k :| k in supported && Split(k, '.') == [tag];
      if '.' in k { SplitAtDot(k); } else { SplitSimple(k, '.'); }
    }
  }
}
