/** The validator accepts exactly the supported configurations, and locates what it rejects. */
module ValidatorFacts {
  import opened Basics
  import opened Strings
  import opened Validator

  // ---------- keys below a tag ----------

  lemma KeyNotEmpty(supported: seq<string>, key: Key)
    requires key in Keys(supported)
    ensures key != []
  {
  }

  lemma SplitOff(tag: string, key: Key)
    requires key != [] && key[0] == tag
    ensures key == [tag] + key[1..]
  {
  }

  lemma ConsPrefix(tag: string, a: Key, b: Key)
    ensures [tag] + a <= [tag] + b <==> a <= b
    ensures [tag] + a < [tag] + b <==> a < b
  {
    assert forall i :: 0 <= i < |a| ==> ([tag] + a)[i + 1] == a[i];
    assert forall i :: 0 <= i < |b| ==> ([tag] + b)[i + 1] == b[i];
    if [tag] + a <= [tag] + b {
      forall i | 0 <= i < |a| ensures a[i] == b[i] { assert ([tag] + a)[i + 1] == ([tag] + b)[i + 1]; }
    }
  }

  lemma SubShadowed(supported: seq<string>, tag: string, key: Key)
    requires key != []
    ensures Shadowed(Keys(SubKeys(supported, tag)), key) <==> Shadowed(Keys(supported), [tag] + key)
  {
    var keys, sub := Keys(supported), Keys(SubKeys(supported, tag));
    if k :| k in sub && key < k {
      SubKeysAre(supported, tag, k);
      ConsPrefix(tag, key, k);
      assert [tag] + k in keys;
    }
    if k :| k in keys && [tag] + key < k {
      assert k[0] == ([tag] + key)[0];
      SplitOff(tag, k);
      ConsPrefix(tag, key, k[1..]);
      SubKeysAre(supported, tag, k[1..]);
      assert k[1..] in sub;
    }
  }

  /** With keys that go on below a tag, the tag itself is not a supported key. */
  lemma ListedShadowed(supported: seq<string>, tag: string)
    requires SubKeys(supported, tag) != []
    ensures Shadowed(Keys(supported), [tag])
  {
    var key := Split(SubKeys(supported, tag)[0], '.');
    assert key in Keys(SubKeys(supported, tag));
    SubKeysAre(supported, tag, key);
    assert [tag] < [tag] + key;
  }

  lemma CoveredBelow(supported: seq<string>, tag: string, path: Key)
    requires SubKeys(supported, tag) != []
    ensures (exists k :: k in Keys(supported) && k <= [tag] + path && !Shadowed(Keys(supported), k)) <==>
            (exists k :: k in Keys(SubKeys(supported, tag)) && k <= path && !Shadowed(Keys(SubKeys(supported, tag)), k))
  {
    var keys, sub := Keys(supported), Keys(SubKeys(supported, tag));
    if k :| k in keys && k <= [tag] + path && !Shadowed(keys, k) {
      KeyNotEmpty(supported, k);
      assert k[0] == ([tag] + path)[0];
      SplitOff(tag, k);
      if k[1..] == [] { ListedShadowed(supported, tag); }
      ConsPrefix(tag, k[1..], path);
      SubKeysAre(supported, tag, k[1..]);
      SubShadowed(supported, tag, k[1..]);
    }
    if k :| k in sub && k <= path && !Shadowed(sub, k) {
      SubKeysAre(supported, tag, k);
      ConsPrefix(tag, k, path);
      SubShadowed(supported, tag, k);
    }
  }

  lemma AboveBelow(supported: seq<string>, tag: string, path: Key)
    ensures (exists k :: k in Keys(supported) && [tag] + path < k) <==>
            (exists k :: k in Keys(SubKeys(supported, tag)) && path < k)
  {
    var keys, sub := Keys(supported), Keys(SubKeys(supported, tag));
    if k :| k in keys && [tag] + path < k {
      assert k[0] == ([tag] + path)[0];
      SplitOff(tag, k);
      ConsPrefix(tag, path, k[1..]);
      SubKeysAre(supported, tag, k[1..]);
      assert k[1..] in sub;
    }
    if k :| k in sub && path < k {
      SubKeysAre(supported, tag, k);
      ConsPrefix(tag, path, k);
      assert [tag] + k in keys;
    }
  }

  /** Below a tag, the keys that go on below it decide. */
  lemma AllowedBelow(supported: seq<string>, tag: string, path: Key, x: Value)
    requires SubKeys(supported, tag) != []
    ensures Allowed(Keys(supported), [tag] + path, x) <==> Allowed(Keys(SubKeys(supported, tag)), path, x)
  {
    CoveredBelow(supported, tag, path);
    AboveBelow(supported, tag, path);
  }

  /** A field with supported fields below it has to be a container. */
  lemma AllowedListed(supported: seq<string>, tag: string, x: Value)
    requires SubKeys(supported, tag) != []
    ensures Allowed(Keys(supported), [tag], x) <==> Container(x)
  {
    assert [tag] + [] == [tag];
    AllowedBelow(supported, tag, [], x);
    var sub := Keys(SubKeys(supported, tag));
    forall k | k in sub ensures k != [] { KeyNotEmpty(SubKeys(supported, tag), k); }
    var key := Split(SubKeys(supported, tag)[0], '.');
    assert key in sub && [] < key;
  }

  /** A field without keys below it has to be a supported key. */
  lemma AllowedUnlisted(supported: seq<string>, tag: string, path: Key, x: Value)
    requires SubKeys(supported, tag) == [] && path != [] && path[0] == tag
    ensures Allowed(Keys(supported), path, x) <==> Leaf(supported, tag)
  {
    var keys := Keys(supported);
    LeafIsKey(supported, tag);
    forall k | k in keys && k != [] && k[0] == tag ensures k == [tag] {
      SplitOff(tag, k);
      SubKeysAre(supported, tag, k[1..]);
    }
    forall k | k in keys ensures k != [] { KeyNotEmpty(supported, k); }
    if Leaf(supported, tag) { assert [tag] in keys && [tag] <= path && !Shadowed(keys, [tag]); }
  }

  // ---------- nodes ----------

  lemma TagsCons(s: Step, path: seq<Step>)
    ensures Tags([s] + path) == [s.tag] + Tags(path)
  {
  }

  /** An empty field has nodes below it only when it is a structure. */
  lemma EmptyFieldAt(f: Field, path: seq<Step>, x: Value)
    requires !f.anonymous && Empty(f.value) && FieldAt(f, path, x)
    ensures path != []
    ensures if |path| == 1 then x == f.value else f.value.Struct? && NodeAt(f.value, path[1..], x)
  {
  }

  lemma {:induction false} ZeroBelow(v: Value, path: seq<Step>, x: Value)
    requires IsZero(v) && NodeAt(v, path, x)
    ensures IsZero(x)
    decreases v
  {
    var i :| 0 <= i < |v.fields| && FieldAt(v.fields[i], path, x);
    var f := v.fields[i];
    assert IsZero(f.value);
    if f.anonymous {
      ZeroBelow(f.value, path, x);
    } else {
      EmptyFieldAt(f, path, x);
      if |path| != 1 { ZeroBelow(f.value, path[1..], x); }
    }
  }

  /** Nothing is set below an empty field. */
  lemma EmptyBelow(f: Field, path: seq<Step>, x: Value)
    requires !f.anonymous && Empty(f.value) && FieldAt(f, path, x)
    ensures Empty(x)
  {
    EmptyFieldAt(f, path, x);
    if |path| != 1 { ZeroBelow(f.value, path[1..], x); }
  }

  lemma SupportedFields(keys: set<Key>, v: Value)
    requires v.Struct?
    ensures Supported(keys, v) <==> forall i :: 0 <= i < |v.fields| ==> FieldSupported(keys, v.fields[i])
  {
    if Supported(keys, v) {
      forall i, path, x | 0 <= i < |v.fields| && FieldAt(v.fields[i], path, x) && !Empty(x)
        ensures Allowed(keys, Tags(path), x)
      {
        assert NodeAt(v, path, x);
      }
    }
  }

  // ---------- acceptance ----------

  lemma UnlistedIff(supported: seq<string>, f: Field)
    requires !f.anonymous && SubKeys(supported, f.tag) == []
    ensures ValidateField(supported, f).Accept? <==> FieldSupported(Keys(supported), f)
  {
    var here := [Step(f.tag, None)];
    if Empty(f.value) {
      forall path, x | FieldAt(f, path, x) ensures Empty(x) { EmptyBelow(f, path, x); }
    } else {
      assert FieldAt(f, here, f.value);
      assert Tags(here) == [f.tag];
      AllowedUnlisted(supported, f.tag, [f.tag], f.value);
      forall path, x | FieldAt(f, path, x) && Leaf(supported, f.tag) ensures Allowed(Keys(supported), Tags(path), x) {
        AllowedUnlisted(supported, f.tag, Tags(path), x);
      }
    }
  }

  ghost predicate InnerSupported(keys: set<Key>, v: Value) {
    && (v.Struct? ==> Supported(keys, v))
    && (v.Slice? ==> forall k :: 0 <= k < |v.elems| ==> Supported(keys, v.elems[k]))
  }

  ghost predicate NodeBelow(d: Value, index: Option<nat>, path: seq<Step>, x: Value) {
    if d.Struct? then index.None? && NodeAt(d, path, x) else d.Slice? && ElemAt(d.elems, index, path, x)
  }

  /** The nodes below a field are those of its structure, or of the elements of its slice. */
  lemma FieldAtBelow(f: Field, step: Step, path: seq<Step>, x: Value)
    requires !f.anonymous && path != []
    ensures FieldAt(f, [step] + path, x) <==> step.tag == f.tag && NodeBelow(Deref(f.value), step.index, path, x)
  {
    assert ([step] + path)[1..] == path;
  }

  lemma {:induction false} NodeHasPath(v: Value, path: seq<Step>, x: Value)
    requires NodeAt(v, path, x)
    ensures path != []
    decreases v
  {
    var i :| 0 <= i < |v.fields| && FieldAt(v.fields[i], path, x);
    if v.fields[i].anonymous { NodeHasPath(v.fields[i].value, path, x); }
  }

  lemma FieldSupportedInner(supported: seq<string>, f: Field)
    requires !f.anonymous && SubKeys(supported, f.tag) != [] && FieldSupported(Keys(supported), f)
    ensures Empty(f.value) || Container(f.value)
    ensures InnerSupported(Keys(SubKeys(supported, f.tag)), Deref(f.value))
  {
    var here, d := [Step(f.tag, None)], Deref(f.value);
    assert FieldAt(f, here, f.value) && Tags(here) == [f.tag];
    AllowedListed(supported, f.tag, f.value);
    if d.Struct? {
      forall path, x | NodeAt(d, path, x) && !Empty(x)
        ensures Allowed(Keys(SubKeys(supported, f.tag)), Tags(path), x)
      {
        BelowAllowed(supported, f, here[0], path, x);
      }
    } else if d.Slice? {
      forall k, path, x | 0 <= k < |d.elems| && NodeAt(d.elems[k], path, x) && !Empty(x)
        ensures Allowed(Keys(SubKeys(supported, f.tag)), Tags(path), x)
      {
        NodeHasPath(d.elems[k], path, x);
        BelowAllowed(supported, f, Step(f.tag, Some(k)), path, x);
      }
    }
  }

  lemma BelowAllowed(supported: seq<string>, f: Field, step: Step, path: seq<Step>, x: Value)
    requires !f.anonymous && SubKeys(supported, f.tag) != [] && FieldSupported(Keys(supported), f)
    requires step.tag == f.tag && !Empty(x)
    requires NodeBelow(Deref(f.value), step.index, path, x)
    ensures Allowed(Keys(SubKeys(supported, f.tag)), Tags(path), x)
  {
    if Deref(f.value).Struct? { NodeHasPath(Deref(f.value), path, x); }
    else { NodeHasPath(Deref(f.value).elems[step.index.value], path, x); }
    FieldAtBelow(f, step, path, x);
    TagsCons(step, path);
    AllowedBelow(supported, f.tag, Tags(path), x);
  }

  lemma InnerFieldSupported(supported: seq<string>, f: Field)
    requires !f.anonymous && SubKeys(supported, f.tag) != []
    requires Empty(f.value) || Container(f.value)
    requires InnerSupported(Keys(SubKeys(supported, f.tag)), Deref(f.value))
    ensures FieldSupported(Keys(supported), f)
  {
    forall path, x | FieldAt(f, path, x) && !Empty(x) ensures Allowed(Keys(supported), Tags(path), x) {
      if |path| == 1 {
        AllowedListed(supported, f.tag, x);
        assert Tags(path) == [f.tag];
      } else {
        assert path == [path[0]] + path[1..];
        FieldAtBelow(f, path[0], path[1..], x);
        TagsCons(path[0], path[1..]);
        AllowedBelow(supported, f.tag, Tags(path[1..]), x);
      }
    }
  }

  lemma {:induction false} FieldIff(supported: seq<string>, f: Field)
    requires (f.anonymous ==> f.value.Struct?) && EmbedsStructs(f.value)
    ensures ValidateField(supported, f).Accept? <==> FieldSupported(Keys(supported), f)
    decreases f, 1
  {
    var subList := SubKeys(supported, f.tag);
    if f.anonymous {
      AcceptsIffSupported(supported, f.value);
      assert forall path, x :: FieldAt(f, path, x) <==> NodeAt(f.value, path, x);
    } else if subList == [] {
      UnlistedIff(supported, f);
    } else if IsZero(f.value) {
      forall path, x | FieldAt(f, path, x) ensures Empty(x) { EmptyBelow(f, path, x); }
    } else {
      InnerIff(supported, f);
      if FieldSupported(Keys(supported), f) {
        FieldSupportedInner(supported, f);
      } else if (Empty(f.value) || Container(f.value)) && InnerSupported(Keys(subList), Deref(f.value)) {
        InnerFieldSupported(supported, f);
      }
    }
  }

  lemma {:induction false} InnerIff(supported: seq<string>, f: Field)
    requires !f.anonymous && EmbedsStructs(f.value) && SubKeys(supported, f.tag) != [] && !IsZero(f.value)
    ensures ValidateField(supported, f).Accept? <==>
            (Empty(f.value) || Container(f.value)) && InnerSupported(Keys(SubKeys(supported, f.tag)), Deref(f.value))
    decreases f, 0
  {
    var subList, d := SubKeys(supported, f.tag), Deref(f.value);
    match d {
      case Struct(_) => AcceptsIffSupported(subList, d);
      case Slice(_, elems) => ElemsIff(subList, f.tag, elems, 0);
      case _ =>
    }
  }

  lemma {:induction false} ElemsIff(supported: seq<string>, tag: string, elems: seq<Value>, k: nat)
    requires k <= |elems| && forall i :: 0 <= i < |elems| ==> EmbedsStructs(elems[i])
    ensures ValidateElems(supported, tag, elems, k).Accept? <==>
            forall i :: k <= i < |elems| ==> elems[i].Struct? && Supported(Keys(supported), elems[i])
    decreases elems, |elems| - k
  {
    if k < |elems| {
      ElemsIff(supported, tag, elems, k + 1);
      if elems[k].Struct? { AcceptsIffSupported(supported, elems[k]); }
    }
  }

  lemma {:induction false} FieldsIff(supported: seq<string>, fields: seq<Field>, i: nat)
    requires i <= |fields|
    requires forall j :: 0 <= j < |fields| ==>
               (fields[j].anonymous ==> fields[j].value.Struct?) && EmbedsStructs(fields[j].value)
    ensures ValidateFields(supported, fields, i).Accept? <==>
            forall j :: i <= j < |fields| ==> FieldSupported(Keys(supported), fields[j])
    decreases fields, |fields| - i
  {
    if i < |fields| {
      FieldsIff(supported, fields, i + 1);
      FieldIff(supported, fields[i]);
    }
  }

  /** The validator accepts a configuration exactly when everything that is set in it is at or
      below a supported key, or is a container on the way to one.  A key that another one goes on
      below does not count. */
  lemma {:induction false} AcceptsIffSupported(supported: seq<string>, conf: Value)
    requires conf.Struct? && EmbedsStructs(conf)
    ensures Validate(supported, conf).Accept? <==> Supported(Keys(supported), conf)
    decreases conf, 0
  {
    FieldsIff(supported, conf.fields, 0);
    SupportedFields(Keys(supported), conf);
  }

  // ---------- lists without shadowed keys ----------

  ghost predicate PrefixFree(keys: set<Key>) {
    forall k, k' :: k in keys && k' in keys ==> !(k < k')
  }

  ghost predicate AtUnderOrOnTheWay(keys: set<Key>, path: Key, x: Value) {
    (exists k :: k in keys && k <= path) || (Container(x) && exists k :: k in keys && path < k)
  }

  /** When no key goes on below another one, every key counts. */
  lemma AcceptsIffEverySetFieldListed(supported: seq<string>, conf: Value)
    requires conf.Struct? && EmbedsStructs(conf) && PrefixFree(Keys(supported))
    ensures Validate(supported, conf).Accept? <==>
            forall path, x :: NodeAt(conf, path, x) && !Empty(x) ==> AtUnderOrOnTheWay(Keys(supported), Tags(path), x)
  {
    AcceptsIffSupported(supported, conf);
    forall path, x | NodeAt(conf, path, x)
      ensures Allowed(Keys(supported), Tags(path), x) <==> AtUnderOrOnTheWay(Keys(supported), Tags(path), x)
    {
    }
  }

  // ---------- what counts as set ----------

  /** A slice counts as set by its elements, a pointer by its target, a structure by its fields. */
  lemma NotSetIff(v: Value)
    ensures Empty(Slice(true, [])) && Empty(Slice(false, []))
    ensures v.Slice? && v.elems != [] ==> !Empty(v)
    ensures v.Pointer? ==> (Empty(v) <==> v.target == None)
    ensures v.Scalar? ==> (Empty(v) <==> v.isZero)
    ensures v.Other? ==> (Empty(v) <==> v.isZero)
  {
  }

  /** Inside a structure an empty slice that is not nil counts. */
  lemma StructNotSetIff(fields: seq<Field>)
    ensures Empty(Struct(fields)) <==>
            forall i :: 0 <= i < |fields| ==> Empty(fields[i].value) && fields[i].value != Slice(false, [])
  {
    forall i | 0 <= i < |fields|
      ensures IsZero(fields[i].value) <==> Empty(fields[i].value) && fields[i].value != Slice(false, [])
    {
    }
  }

  // ---------- rejection ----------

  function Reversed(rev: seq<Step>): seq<Step> {
    if rev == [] then [] else [rev[|rev| - 1]] + Reversed(rev[..|rev| - 1])
  }

  lemma ReversedSnoc(rev: seq<Step>, step: Step)
    ensures Reversed(rev + [step]) == [step] + Reversed(rev)
  {
    assert (rev + [step])[..|rev|] == rev;
  }

  /** The node is set although the list does not allow it. */
  ghost predicate Offends(supported: seq<string>, path: seq<Step>, x: Value) {
    !Empty(x) && !Allowed(Keys(supported), Tags(path), x)
  }

  ghost predicate GoesOn(keys: set<Key>, path: Key) {
    exists k :: k in keys && path < k
  }

  /** Why the node offends: no key goes on below it, or it is a scalar or something else than a
      container where keys do. */
  ghost predicate Reasoned(supported: seq<string>, path: Key, x: Value, reason: Reason) {
    var goesOn := GoesOn(Keys(supported), path);
    var scalar := x.Scalar? || (x.Pointer? && x.target.Some? && x.target.value.Scalar?);
    && (reason == NotSupported <==> !goesOn)
    && (reason == NotContainer <==> goesOn && scalar)
    && (reason == UnexpectedType <==> goesOn && !scalar)
  }

  lemma ReasonedBelow(supported: seq<string>, tag: string, path: Key, x: Value, reason: Reason)
    requires Reasoned(SubKeys(supported, tag), path, x, reason)
    ensures Reasoned(supported, [tag] + path, x, reason)
  {
    AboveBelow(supported, tag, path);
    assert GoesOn(Keys(supported), [tag] + path) <==> GoesOn(Keys(SubKeys(supported, tag)), path);
  }

  lemma ReasonedHere(supported: seq<string>, tag: string, x: Value, reason: Reason)
    requires SubKeys(supported, tag) == [] ==> reason == NotSupported
    requires SubKeys(supported, tag) != [] ==> reason == if Deref(x).Scalar? then NotContainer else UnexpectedType
    ensures Reasoned(supported, [tag], x, reason)
  {
    AboveBelow(supported, tag, []);
    assert [tag] + [] == [tag];
    var sub := SubKeys(supported, tag);
    forall k | k in Keys(sub) ensures [] < k { KeyNotEmpty(sub, k); }
    if sub != [] { assert Split(sub[0], '.') in Keys(sub); }
    assert GoesOn(Keys(supported), [tag]) <==> GoesOn(Keys(sub), []);
  }

  lemma {:induction false} FieldRejected(supported: seq<string>, f: Field) returns (x: Value)
    requires ValidateField(supported, f).Reject?
    ensures var path := Reversed(ValidateField(supported, f).revPath);
            FieldAt(f, path, x) && Offends(supported, path, x)
            && Reasoned(supported, Tags(path), x, ValidateField(supported, f).reason)
    decreases f, 0
  {
    var o := ValidateField(supported, f);
    if f.anonymous {
      x := Rejected(supported, f.value);
    } else if SubKeys(supported, f.tag) == [] {
      x := f.value;
      RejectedHere(o.revPath, f);
      AllowedUnlisted(supported, f.tag, [f.tag], x);
      ReasonedHere(supported, f.tag, x, o.reason);
    } else {
      var subList, d := SubKeys(supported, f.tag), Deref(f.value);
      match d {
        case Struct(_) =>
          x := Rejected(subList, d);
          RejectedBelow(supported, f, Validate(subList, d), Step(f.tag, None), x);
        case Slice(_, elems) =>
          var k, x' := ElemRejected(subList, f.tag, elems, 0);
          x := x';
          RejectedBelow(supported, f, Validate(subList, elems[k]), Step(f.tag, Some(k)), x);
        case _ =>
          x := f.value;
          RejectedHere(o.revPath, f);
          AllowedListed(supported, f.tag, x);
          ReasonedHere(supported, f.tag, x, o.reason);
      }
    }
  }

  lemma RejectedHere(rev: seq<Step>, f: Field)
    requires !f.anonymous && rev == [Step(f.tag, None)]
    ensures Reversed(rev) == rev && Tags(rev) == [f.tag] && FieldAt(f, rev, f.value)
  {
    assert rev[..0] == [];
  }

  lemma RejectedBelow(supported: seq<string>, f: Field, below: Outcome, step: Step, x: Value)
    requires !f.anonymous && SubKeys(supported, f.tag) != [] && step.tag == f.tag && below.Reject?
    requires NodeBelow(Deref(f.value), step.index, Reversed(below.revPath), x)
    requires Offends(SubKeys(supported, f.tag), Reversed(below.revPath), x)
    requires Reasoned(SubKeys(supported, f.tag), Tags(Reversed(below.revPath)), x, below.reason)
    ensures var path := Reversed(below.revPath + [step]);
            FieldAt(f, path, x) && Offends(supported, path, x) && Reasoned(supported, Tags(path), x, below.reason)
  {
    var path := Reversed(below.revPath);
    if Deref(f.value).Struct? { NodeHasPath(Deref(f.value), path, x); }
    else { NodeHasPath(Deref(f.value).elems[step.index.value], path, x); }
    ReversedSnoc(below.revPath, step);
    FieldAtBelow(f, step, path, x);
    TagsCons(step, path);
    AllowedBelow(supported, f.tag, Tags(path), x);
    ReasonedBelow(supported, f.tag, Tags(path), x, below.reason);
  }

  lemma {:induction false} ElemRejected(supported: seq<string>, tag: string, elems: seq<Value>, k: nat)
    returns (i: nat, x: Value)
    requires k <= |elems| && ValidateElems(supported, tag, elems, k).Reject?
    ensures i < |elems| && Validate(supported, elems[i]).Reject?
    ensures ValidateElems(supported, tag, elems, k) == Below(Validate(supported, elems[i]), Step(tag, Some(i)))
    ensures var path := Reversed(Validate(supported, elems[i]).revPath);
            NodeAt(elems[i], path, x) && Offends(supported, path, x)
            && Reasoned(supported, Tags(path), x, Validate(supported, elems[i]).reason)
    decreases elems, |elems| - k
  {
    if Validate(supported, elems[k]).Accept? {
      i, x := ElemRejected(supported, tag, elems, k + 1);
    } else {
      i := k;
      x := Rejected(supported, elems[k]);
    }
  }

  lemma {:induction false} FieldsRejected(supported: seq<string>, fields: seq<Field>, i: nat)
    returns (j: nat, x: Value)
    requires i <= |fields| && ValidateFields(supported, fields, i).Reject?
    ensures var path := Reversed(ValidateFields(supported, fields, i).revPath);
            j < |fields| && FieldAt(fields[j], path, x) && Offends(supported, path, x)
            && Reasoned(supported, Tags(path), x, ValidateFields(supported, fields, i).reason)
    decreases fields, |fields| - i
  {
    if ValidateField(supported, fields[i]).Accept? {
      j, x := FieldsRejected(supported, fields, i + 1);
    } else {
      j := i;
      x := FieldRejected(supported, fields[i]);
    }
  }

  lemma {:induction false} Rejected(supported: seq<string>, conf: Value) returns (x: Value)
    requires Validate(supported, conf).Reject?
    ensures var path := Reversed(Validate(supported, conf).revPath);
            NodeAt(conf, path, x) && Offends(supported, path, x)
            && Reasoned(supported, Tags(path), x, Validate(supported, conf).reason)
    decreases conf, 0
  {
    var j, y := FieldsRejected(supported, conf.fields, 0);
    x := y;
  }

  /** A rejection leads, read backwards, to a value that is set and not supported, and says why. */
  lemma RejectionLocates(supported: seq<string>, conf: Value)
    requires Validate(supported, conf).Reject?
    ensures var path := Reversed(Validate(supported, conf).revPath);
            exists x :: NodeAt(conf, path, x) && Offends(supported, path, x)
                        && Reasoned(supported, Tags(path), x, Validate(supported, conf).reason)
  {
    var x := Rejected(supported, conf);
  }

  /** A configuration that sets `a.c` only. */
  function Setting(a: string, c: string): Value {
    Struct([Field(a, false, Struct([Field(c, false, Scalar(false))]))])
  }

  /** A key stops counting when another one goes on below it: with both `a` and `a.b` on the
      list, setting `a.c` is rejected. */
  lemma ShadowedKeyDoesNotCount(a: string, b: string, c: string)
    requires '.' !in a && '.' !in b && b != c
    ensures Validate([a], Setting(a, c)).Accept?
    ensures Validate([a, a + "." + b], Setting(a, c)) == Reject([Step(c, None), Step(a, None)], NotSupported)
  {
    AcceptedAlone(a, c);
    RejectedBeside(a, b, c);
  }

  lemma AcceptedAlone(a: string, c: string)
    requires '.' !in a
    ensures Validate([a], Setting(a, c)).Accept?
  {
    SubKeysSnoc([], a, a);
    assert [] + [a] == [a];
    OneField([a], Setting(a, c).fields[0]);
  }

  lemma RejectedBeside(a: string, b: string, c: string)
    requires '.' !in a && '.' !in b && b != c
    ensures Validate([a, a + "." + b], Setting(a, c)) == Reject([Step(c, None), Step(a, None)], NotSupported)
  {
    var f, keys := Setting(a, c).fields[0], [a, a + "." + b];
    SubKeysOfPair(a, b);
    RejectedLeaf(b, f.value.fields[0]);
    assert !IsZero(f.value) by { assert !IsZero(f.value.fields[0].value); }
    OneField(keys, f);
  }

  lemma SubKeysOfPair(a: string, b: string)
    requires '.' !in a
    ensures SubKeys([a, a + "." + b], a) == [b]
  {
    SubKeysSnoc([], a, a);
    assert [] + [a] == [a];
    DotAfter(a, b);
    SubKeysSnoc([a], a + "." + b, a);
    assert [a] + [a + "." + b] == [a, a + "." + b];
  }

  lemma RejectedLeaf(b: string, f: Field)
    requires '.' !in b && b != f.tag && !f.anonymous && f.value == Scalar(false)
    ensures Validate([b], Struct([f])) == Reject([Step(f.tag, None)], NotSupported)
  {
    SubKeysSnoc([], b, f.tag);
    assert [] + [b] == [b];
    OneField([b], f);
  }

  lemma OneField(supported: seq<string>, f: Field)
    ensures Validate(supported, Struct([f])) == ValidateField(supported, f)
  {
    assert ValidateFields(supported, [f], 1).Accept?;
  }

  lemma DotAfter(a: string, b: string)
    requires '.' !in a
    ensures var key := a + "." + b; IsUnder(key, a) && key[FirstDot(key) + 1..] == b
  {
    var key := a + "." + b;
    assert key[|a|] == '.';
    SplitSimple(a, '.');
    SplitFirst(a, b, '.');
    SplitAtDot(key);
    var d := FirstDot(key);
    ConsEqual(key[..d], Split(key[d + 1..], '.'), a, Split(b, '.'));
  }
}
