/**
 * `JsonTreeRef::validate`: check a data node against its schema ref and,
 * when the types agree, every member of a map or every item of a seq,
 * stopping at the first failure.
 */
module Validation {
  import opened Wrappers
  import opened Values
  import opened JsonText
  import opened Schemas
  import opened SchemaIndex
  import opened JsonUtil
  import opened TreeRefs

  /** What `validate` ends with: `true`, or the exception it throws. */
  datatype Outcome = Pass | Fail(error: SchemaError)

  /**
   * A number that `(int)` leaves equal: an integer, or a double with no
   * fractional part inside PHP's 64-bit int range (beyond it the cast gives
   * an int no longer equal to the double).
   */
  predicate IsIntegral(v: Value) {
    v.Int? || (v.Float? && v.x == v.x.Floor as real && InPhpIntRange(v.x.Floor))
  }

  /**
   * The data's type as `validate` compares it: seq data counts as a map
   * against a map schema, and an integral number as an int against an int
   * schema.
   */
  function CheckedType(r: Ref): (t: Option<string>)
    ensures EffectiveType(r) == Some(MapType) && TypeOf(r.node) == Some(SeqType) ==> t == Some(MapType)
    ensures EffectiveType(r) == Some(IntType) && TypeOf(r.node) == Some(NumberType) ==>
              (t == Some(IntType) <==> IsIntegral(r.node))
    ensures EffectiveType(r) == Some(IntType) && r.node.Float? && !InPhpIntRange(r.node.x.Floor) ==>
              t == Some(NumberType)
    ensures t == Some(MapType) || t == Some(SeqType) ==> r.node.Arr?
  {
    Coerced(r.node, EffectiveType(r))
  }

  /** The type of `v` after the two coercions `validate` allows against the schema type `st`. */
  function Coerced(v: Value, st: Option<string>): (t: Option<string>)
    ensures t == TypeOf(v) || (t == Some(MapType) && TypeOf(v) == Some(SeqType)) || (t == Some(IntType) && IsIntegral(v))
  {
    var dt := TypeOf(v);
    var dt := if dt == Some(SeqType) && st == Some(MapType) then Some(MapType) else dt;
    if dt == Some(NumberType) && st == Some(IntType) && IsIntegral(v) then Some(IntType) else dt
  }

  /** PHP's `==` on two type names, where null equals the empty string. */
  predicate SameType(a: Option<string>, b: Option<string>) {
    a.GetOr("") == b.GetOr("")
  }

  /** `validate` as a function. */
  function ValidateSpec(r: Ref): (o: Outcome)
    ensures !SameType(CheckedType(r), EffectiveType(r)) ==> o.Fail? && o.error.TypeMismatch?
    ensures EffectiveType(r) != Some(MapType) && EffectiveType(r) != Some(SeqType) ==>
              (o == Pass <==> SameType(CheckedType(r), EffectiveType(r)))
    decreases Size(r.node), 1, 0
  {
    var dt := CheckedType(r);
    var st := EffectiveType(r);
    if !SameType(dt, st) then Fail(TypeMismatch(st.GetOr(""), dt.GetOr("null"), DataPathTitles(r)))
    else if st == Some(MapType) then ValidateKeys(r, KeyList(r.node.entries))
    else if st == Some(SeqType) then ValidateIndices(r, Count(r.node))
    else Pass
  }

  /** Validating the child under one key; a child that cannot be made fails with its error. */
  function KeyOutcome(r: Ref, k: Key): Outcome
    requires r.node.Arr?
    decreases Size(r.node), 0, 0
  {
    match MappingChild(r, k)
    case Err(e) => Fail(e)
    case Ok(c) =>
      LookupSmaller(r.node, OffsetKey(k));
      ValidateSpec(c)
  }

  /** Validating the item at one index. */
  function IndexOutcome(r: Ref, i: int): Outcome
    requires r.node.Arr?
    decreases Size(r.node), 0, 0
  {
    match SequenceChild(r, i)
    case Err(e) => Fail(e)
    case Ok(c) =>
      LookupSmaller(r.node, IntKey(i));
      ValidateSpec(c)
  }

  /** The children under `ks`, in order, up to the first failure. */
  function ValidateKeys(r: Ref, ks: seq<Key>): Outcome
    requires r.node.Arr?
    decreases Size(r.node), 0, |ks|
  {
    if ks == [] then Pass
    else
      match ValidateKeys(r, ks[..|ks| - 1])
      case Fail(e) => Fail(e)
      case Pass => KeyOutcome(r, ks[|ks| - 1])
  }

  /** The items at indices `0 .. n-1`, in order, up to the first failure. */
  function ValidateIndices(r: Ref, n: nat): Outcome
    requires r.node.Arr?
    decreases Size(r.node), 0, n
  {
    if n == 0 then Pass
    else
      match ValidateIndices(r, n - 1)
      case Fail(e) => Fail(e)
      case Pass => IndexOutcome(r, n - 1)
  }

  // ---------------------------------------------------------------------------
  // The method
  // ---------------------------------------------------------------------------

  /** `validate`: the type check, then a walk over the map's keys or the seq's indices. */
  method Validate(r: Ref) returns (res: Outcome)
    ensures res == ValidateSpec(r)
    decreases Size(r.node), 2
  {
    var dt := GetType(r.node);
    var st := EffectiveType(r);
    if dt == Some(SeqType) && st == Some(MapType) {
      dt := Some(MapType);
    }
    if dt == Some(NumberType) && st == Some(IntType) && IsIntegral(r.node) {
      dt := Some(IntType);
    }
    assert dt == CheckedType(r);
    if !SameType(dt, st) {
      res := Fail(TypeMismatch(st.GetOr(""), dt.GetOr("null"), DataPathTitles(r)));
    } else if st == Some(MapType) {
      res := ValidateMembers(r);
    } else if st == Some(SeqType) {
      res := ValidateItems(r);
    } else {
      res := Pass;
    }
  }

  /** The `foreach` over the keys of a map, validating each child and stopping at the first failure. */
  method ValidateMembers(r: Ref) returns (res: Outcome)
    requires r.node.Arr?
    ensures res == ValidateKeys(r, KeyList(r.node.entries))
    decreases Size(r.node), 1
  {
    var es := r.node.entries;
    ghost var ks := KeyList(es);
    var i := 0;
    while i < |es|
      invariant 0 <= i <= |es|
      invariant ValidateKeys(r, ks[..i]) == Pass
    {
      KeysPrefixStep(r, ks, i);
      res := ValidateMember(r, es[i].key);
      if res.Fail? {
        KeysFailFast(r, ks, i + 1);
        return;
      }
      i := i + 1;
    }
    assert ks[..i] == ks;
    res := Pass;
  }

  /** One pass of the `foreach`: the child ref under `k`, then its own validation. */
  method ValidateMember(r: Ref, k: Key) returns (res: Outcome)
    requires r.node.Arr?
    ensures res == KeyOutcome(r, k)
    decreases Size(r.node), 0
  {
    var c := MappingChild(r, k);
    if c.Err? {
      return Fail(c.error);
    }
    LookupSmaller(r.node, OffsetKey(k));
    res := Validate(c.value);
  }

  /** The `for` over the indices `0 .. count-1` of a seq, stopping at the first failure. */
  method ValidateItems(r: Ref) returns (res: Outcome)
    requires r.node.Arr?
    ensures res == ValidateIndices(r, Count(r.node))
    decreases Size(r.node), 1
  {
    var n := Count(r.node);
    var i := 0;
    while i < n
      invariant 0 <= i <= n
      invariant ValidateIndices(r, i) == Pass
    {
      res := ValidateItem(r, i);
      IndicesStep(r, i + 1);
      if res.Fail? {
        IndicesFailFast(r, n, i + 1);
        return;
      }
      i := i + 1;
    }
    res := Pass;
  }

  /** One pass of the `for`: the child ref at index `i`, then its own validation. */
  method ValidateItem(r: Ref, i: int) returns (res: Outcome)
    requires r.node.Arr?
    ensures res == IndexOutcome(r, i)
    decreases Size(r.node), 0
  {
    var c := SequenceChild(r, i);
    if c.Err? {
      return Fail(c.error);
    }
    LookupSmaller(r.node, IntKey(i));
    res := Validate(c.value);
  }

  // ---------------------------------------------------------------------------
  // Fail-fast
  // ---------------------------------------------------------------------------

  /** Once a prefix of the keys fails, the whole walk fails with the same error. */
  lemma {:induction false} KeysFailFast(r: Ref, ks: seq<Key>, i: nat)
    requires r.node.Arr? && i <= |ks|
    requires ValidateKeys(r, ks[..i]).Fail?
    ensures ValidateKeys(r, ks) == ValidateKeys(r, ks[..i])
    decreases |ks| - i
  {
    if i < |ks| {
      assert ks[..i + 1][..i] == ks[..i];
      KeysFailFast(r, ks, i + 1);
    } else {
      assert ks[..i] == ks;
    }
  }

  lemma {:induction false} IndicesFailFast(r: Ref, n: nat, i: nat)
    requires r.node.Arr? && i <= n
    requires ValidateIndices(r, i).Fail?
    ensures ValidateIndices(r, n) == ValidateIndices(r, i)
    decreases n - i
  {
    if i < n {
      IndicesFailFast(r, n, i + 1);
    }
  }

  /** The walk over keys passes exactly when every key's child passes. */
  lemma {:induction false} KeysPass(r: Ref, ks: seq<Key>)
    requires r.node.Arr?
    ensures ValidateKeys(r, ks) == Pass <==> forall i :: 0 <= i < |ks| ==> KeyOutcome(r, ks[i]) == Pass
    decreases |ks|
  {
    if ks != [] {
      var init, last := ks[..|ks| - 1], ks[|ks| - 1];
      KeysPass(r, init);
      KeysStep(r, ks);
      assert ks == init + [last];
      AllKeysPassSnoc(r, init, last);
    }
  }

  /** Every key of `init + [last]` passes exactly when every key of `init` does and `last` does. */
  lemma AllKeysPassSnoc(r: Ref, init: seq<Key>, last: Key)
    requires r.node.Arr?
    ensures (forall i :: 0 <= i < |init| + 1 ==> KeyOutcome(r, (init + [last])[i]) == Pass) <==>
              (forall i :: 0 <= i < |init| ==> KeyOutcome(r, init[i]) == Pass) && KeyOutcome(r, last) == Pass
  {
    var ks := init + [last];
    assert forall i :: 0 <= i < |init| ==> ks[i] == init[i];
    assert ks[|init|] == last;
  }

  /** A failing walk over keys reports the error of the first key whose child fails. */
  lemma {:induction false} KeysFirstFailure(r: Ref, ks: seq<Key>)
    requires r.node.Arr? && ValidateKeys(r, ks).Fail?
    ensures exists i :: 0 <= i < |ks| && KeyOutcome(r, ks[i]) == ValidateKeys(r, ks)
              && forall j :: 0 <= j < i ==> KeyOutcome(r, ks[j]) == Pass
    decreases |ks|
  {
    var init := ks[..|ks| - 1];
    assert forall i :: 0 <= i < |init| ==> init[i] == ks[i];
    if ValidateKeys(r, init).Fail? {
      KeysFirstFailure(r, init);
      var i :| 0 <= i < |init| && KeyOutcome(r, init[i]) == ValidateKeys(r, init)
                && forall j :: 0 <= j < i ==> KeyOutcome(r, init[j]) == Pass;
      assert KeyOutcome(r, ks[i]) == ValidateKeys(r, ks);
    } else {
      KeysPass(r, init);
      assert KeyOutcome(r, ks[|ks| - 1]) == ValidateKeys(r, ks);
    }
  }

  lemma KeysStep(r: Ref, ks: seq<Key>)
    requires r.node.Arr? && ks != []
    ensures ValidateKeys(r, ks) ==
      if ValidateKeys(r, ks[..|ks| - 1]).Fail? then ValidateKeys(r, ks[..|ks| - 1]) else KeyOutcome(r, ks[|ks| - 1])
  {
  }

  /** `KeysStep` on a prefix of the key list: one more key is one more outcome. */
  lemma KeysPrefixStep(r: Ref, ks: seq<Key>, i: nat)
    requires r.node.Arr? && i < |ks|
    ensures ValidateKeys(r, ks[..i + 1]) ==
      if ValidateKeys(r, ks[..i]).Fail? then ValidateKeys(r, ks[..i]) else KeyOutcome(r, ks[i])
  {
    KeysStep(r, ks[..i + 1]);
    assert ks[..i + 1][..i] == ks[..i];
  }

  lemma IndicesStep(r: Ref, n: nat)
    requires r.node.Arr? && n > 0
    ensures ValidateIndices(r, n) ==
      if ValidateIndices(r, n - 1).Fail? then ValidateIndices(r, n - 1) else IndexOutcome(r, n - 1)
  {
  }

  /** The walk over items passes exactly when every item passes. */
  lemma {:induction false} IndicesPass(r: Ref, n: nat)
    requires r.node.Arr?
    ensures ValidateIndices(r, n) == Pass <==> forall i :: 0 <= i < n ==> IndexOutcome(r, i) == Pass
  {
    if n > 0 {
      IndicesPass(r, n - 1);
      IndicesStep(r, n);
      var prev, out := ValidateIndices(r, n - 1), IndexOutcome(r, n - 1);
      if ValidateIndices(r, n) == Pass {
        assert prev == Pass && out == Pass;
      } else if prev == Pass {
        assert out != Pass;
      } else {
        var i :| 0 <= i < n - 1 && IndexOutcome(r, i) != Pass;
      }
    }
  }

  /** A failing walk over items reports the error of the first failing item: every item before it passes. */
  lemma {:induction false} IndicesFirstFailure(r: Ref, n: nat)
    requires r.node.Arr? && ValidateIndices(r, n).Fail?
    ensures exists i :: 0 <= i < n && ValidateIndices(r, i) == Pass && IndexOutcome(r, i) == ValidateIndices(r, n)
  {
    IndicesStep(r, n);
    if ValidateIndices(r, n - 1).Fail? {
      IndicesFirstFailure(r, n - 1);
    }
  }

  // ---------------------------------------------------------------------------
  // What validation accepts
  // ---------------------------------------------------------------------------

  /** A type mismatch is reported with the schema's type, the data's type ("null" for none) and the path titles. */
  lemma MismatchReported(r: Ref)
    requires !SameType(CheckedType(r), EffectiveType(r))
    ensures ValidateSpec(r) == Fail(TypeMismatch(EffectiveType(r).GetOr(""), CheckedType(r).GetOr("null"), DataPathTitles(r)))
  {
  }

  /** Against an int schema, 4.0 passes as an int while 4.5 is rejected as a number. */
  lemma IntCoercion(r: Ref)
    requires r.schemaRef.node.ty == Some(IntType)
    ensures r.node == Float(4.0) ==> ValidateSpec(r) == Pass
    ensures r.node == Float(4.5) ==> ValidateSpec(r) == Fail(TypeMismatch(IntType, NumberType, DataPathTitles(r)))
    ensures r.node == Float(10000000000000000000.0) ==> ValidateSpec(r) == Fail(TypeMismatch(IntType, NumberType, DataPathTitles(r)))
  {
    if r.node == Float(4.5) {
      assert (4.5 as real).Floor == 4;
    }
    if r.node == Float(10000000000000000000.0) {
      assert (10000000000000000000.0 as real).Floor == 10000000000000000000;
    }
  }

  /** The default value of each type validates against a schema of that type. */
  lemma DefaultValidates(r: Ref, t: string)
    requires t in [MapType, SeqType, NumberType, IntType, StrType, BoolType]
    requires r.schemaRef.node.ty == Some(t) && r.node == NewValueForType(Some(t))
    ensures ValidateSpec(r) == Pass
  {
    if t == MapType {
      assert KeyList(r.node.entries) == [];
    }
  }

  /** Everything validates against an `any` schema, all the way down. */
  lemma {:induction false} AnyAcceptsAll(r: Ref, a: Schema)
    requires a.ty == Some(AnyType)
    requires r.schemaRef.node == Specialize(a, r.node)
    ensures ValidateSpec(r) == Pass
    decreases Size(r.node)
  {
    var st := EffectiveType(r);
    assert CheckedType(r) == st;
    if st == Some(MapType) {
      var ks := KeyList(r.node.entries);
      forall i | 0 <= i < |ks| ensures KeyOutcome(r, ks[i]) == Pass {
        AnyMapChild(r, a, ks[i]);
        var c := MappingChild(r, ks[i]).value;
        LookupSmaller(r.node, OffsetKey(ks[i]));
        AnyAcceptsAll(c, AnySchema);
      }
      KeysPass(r, ks);
    } else if st == Some(SeqType) {
      forall i | 0 <= i < Count(r.node) ensures IndexOutcome(r, i) == Pass {
        AnySeqChild(r, a, i);
        var c := SequenceChild(r, i).value;
        LookupSmaller(r.node, IntKey(i));
        AnyAcceptsAll(c, AnySchema);
      }
      IndicesPass(r, Count(r.node));
    }
  }

  /** Attaching an `any` schema to any data gives a root that validates. */
  lemma AnyRootValidates(data: Value, a: Schema)
    requires a.ty == Some(AnyType)
    ensures RootRef(data, a).Ok? && ValidateSpec(RootRef(data, a).value) == Pass
  {
    AnyAcceptsAll(RootRef(data, a).value, a);
  }

  /** The member schema of an inferred map schema is the schema inferred from the member. */
  lemma ExampleMapChild(r: Ref, k: Key)
    requires r.schemaRef.node == SchemaFromExample(r.node)
    requires TypeOf(r.node) == Some(MapType) && HasKey(r.node.entries, k) && OffsetKey(k) == k
    ensures MappingChild(r, k).Ok?
    ensures MappingChild(r, k).value.schemaRef.node == SchemaFromExample(MappingChild(r, k).value.node)
  {
    var s := r.schemaRef.node;
    ExampleMember(r.node.entries, s.mapping, k);
    var v := Lookup(r.node, k);
    var m := SchemaFromExample(v);
    assert MemberFor(r, k) == Ok((m, false));
    assert m.ty != Some(IdrefType) && m.ty != Some(AnyType);
    assert Specialize(m, v) == m;
  }

  /** The item schema of an inferred seq schema is the schema inferred from each item of uniform data. */
  lemma ExampleSeqChild(r: Ref, i: nat)
    requires r.schemaRef.node == SchemaFromExample(r.node) && Uniform(r.node)
    requires TypeOf(r.node) == Some(SeqType) && i < Count(r.node)
    ensures SequenceChild(r, i).Ok?
    ensures SequenceChild(r, i).value.schemaRef.node == SchemaFromExample(SequenceChild(r, i).value.node)
  {
    assert ItemSchema(r.schemaRef.node) == SchemaFromExample(Lookup(r.node, IntKey(i)));
  }

  /**
   * A value validates against the schema inferred from it, when all the
   * items of each of its lists have the shape of the first.
   */
  lemma {:induction false} ExampleValidates(r: Ref)
    requires r.schemaRef.node == SchemaFromExample(r.node)
    requires Uniform(r.node) && ArrayKeyed(r.node)
    ensures ValidateSpec(r) == Pass
    decreases Size(r.node)
  {
    var st := EffectiveType(r);
    assert st == TypeOf(r.node) && CheckedType(r) == st;
    if st == Some(MapType) {
      var ks := KeyList(r.node.entries);
      forall i | 0 <= i < |ks| ensures KeyOutcome(r, ks[i]) == Pass {
        var k := ks[i];
        assert HasKey(r.node.entries, k);
        ExampleMapChild(r, k);
        LookupSmaller(r.node, k);
        UniformLookup(r.node, k);
        ArrayKeyedLookup(r.node, k);
        ExampleValidates(MappingChild(r, k).value);
      }
      KeysPass(r, ks);
    } else if st == Some(SeqType) {
      forall i | 0 <= i < Count(r.node) ensures IndexOutcome(r, i) == Pass {
        ExampleSeqChild(r, i);
        LookupSmaller(r.node, IntKey(i));
        UniformLookup(r.node, IntKey(i));
        ArrayKeyedLookup(r.node, IntKey(i));
        ExampleValidates(SequenceChild(r, i).value);
      }
      IndicesPass(r, Count(r.node));
    }
  }

  /** A schema that is neither `any` nor an idref is attached to the root unchanged. */
  lemma PlainRoot(data: Value, s: Schema)
    requires s.ty != Some(AnyType) && s.ty != Some(IdrefType)
    ensures RootRef(data, s).Ok? && RootRef(data, s).value.schemaRef.node == s
  {
  }

  /** `getSchemaArray` of uniform data gives a schema the data validates against. */
  lemma ExampleRootValidates(data: Value)
    requires Uniform(data) && ArrayKeyed(data)
    ensures RootRef(data, SchemaFromExample(data)).Ok?
    ensures ValidateSpec(RootRef(data, SchemaFromExample(data)).value) == Pass
  {
    PlainRoot(data, SchemaFromExample(data));
    ExampleValidates(RootRef(data, SchemaFromExample(data)).value);
  }

  /** The schema the code as written infers for `{"a": "b"}` rejects that very value. */
  lemma ExampleAsWrittenRejects()
    ensures var v := Arr([Entry(StrKey("a"), Str("b"))]);
      RootRef(v, SchemaFromExampleAsWritten(v)).Ok?
      && ValidateSpec(RootRef(v, SchemaFromExampleAsWritten(v)).value) == Fail(InvalidKey(StrKey("a"), "Root node"))
  {
    var v := Arr([Entry(StrKey("a"), Str("b"))]);
    MapExampleAsWritten();
    var s := SchemaFromExampleAsWritten(v);
    PlainRoot(v, s);
    var r := RootRef(v, s).value;
    assert TypeOf(v) == Some(MapType) by {
      assert !v.entries[0].key.IntKey?;
    }
    assert EffectiveType(r) == Some(MapType) && CheckedType(r) == Some(MapType);
    assert KeyList(v.entries) == [StrKey("a")];
    assert ValidateSpec(r) == ValidateKeys(r, [StrKey("a")]);
    assert !HasKey(s.mapping, StrKey("a"));
    assert MappingChild(r, StrKey("a")) == Err(InvalidKey(StrKey("a"), "Root node"));
    KeysStep(r, [StrKey("a")]);
    assert [StrKey("a")][..0] == [];
  }

  /**
   * The type comparison that opens `validate`, with the schema side taken
   * from `getType` as written (loose `== null`). A mismatch here is what the
   * code as written throws, before any child is looked at.
   */
  function TypeCheckAsWritten(r: Ref): (o: Outcome)
    ensures o.Fail? <==> !SameType(Coerced(r.node, NodeTypeAsWritten(r.schemaRef.node, r.node)),
                                   NodeTypeAsWritten(r.schemaRef.node, r.node))
  {
    var st := NodeTypeAsWritten(r.schemaRef.node, r.node);
    var dt := Coerced(r.node, st);
    if !SameType(dt, st) then Fail(TypeMismatch(st.GetOr(""), dt.GetOr("null"), DataPathTitles(r))) else Pass
  }

  /**
   * Under an `any` schema, data that PHP holds loosely equal to null but
   * that is not null (0, 0.0, "", false, an empty array) is rejected by the
   * code as written, "expecting" the empty type, whereas the intended
   * `validate` accepts it.
   */
  lemma FalsyRejectedAsWritten(r: Ref, a: Schema)
    requires a.ty == Some(AnyType) && r.schemaRef.node == Specialize(a, r.node)
    requires LooselyNull(r.node) && r.node != Null
    ensures TypeCheckAsWritten(r) == Fail(TypeMismatch("", TypeOf(r.node).value, DataPathTitles(r)))
    ensures ValidateSpec(r) == Pass
  {
    LooseNullHidesType(r.schemaRef.node, r.node);
    AnyAcceptsAll(r, a);
  }

  /** For instance, `{"a": 0}` against the unrestricted schema: the member 0 is rejected as written. */
  lemma ZeroMemberRejectedAsWritten()
    ensures var root := RootRef(Arr([Entry(StrKey("a"), Int(0))]), AnySchema);
      root.Ok? && MappingChild(root.value, StrKey("a")).Ok?
      && TypeCheckAsWritten(MappingChild(root.value, StrKey("a")).value)
         == Fail(TypeMismatch("", NumberType, "Root node -> a"))
      && ValidateSpec(root.value) == Pass
  {
    var data := Arr([Entry(StrKey("a"), Int(0))]);
    var root := RootRef(data, AnySchema).value;
    assert !data.entries[0].key.IntKey?;
    AnyMapChild(root, AnySchema, StrKey("a"));
    var c := MappingChild(root, StrKey("a")).value;
    assert c.name == Some(StrKey("a"));
    assert DataPathTitles(c) == "Root node" + " -> " + "a" == "Root node -> a";
    FalsyRejectedAsWritten(c, AnySchema);
    AnyRootValidates(data, AnySchema);
  }

  // ---------------------------------------------------------------------------
  // The facts the unit tests check
  // ---------------------------------------------------------------------------

  /** The schema of the simple test: `{"title": "Unrestricted JSON", "type": "any"}`. */
  const UnrestrictedJson: Schema := TypeNode(AnyType).(title := Some("Unrestricted JSON"))

  /**
   * The simple test: the ref for `{"a":1,...,"e":5}` under the unrestricted
   * schema is titled "Unrestricted JSON" and its schema type is `any`, as
   * the test asserts. That it validates is a further fact of the model,
   * which the test does not check.
   */
  lemma SimpleTestFacts()
    ensures TitleFromNode(UnrestrictedJson, "Root node") == "Unrestricted JSON"
    ensures var data := Arr([Entry(StrKey("a"), Int(1)), Entry(StrKey("b"), Int(2)), Entry(StrKey("c"), Int(3)),
                             Entry(StrKey("d"), Int(4)), Entry(StrKey("e"), Int(5))]);
      var r := RootRef(data, UnrestrictedJson);
      r.Ok? && r.value.schemaRef.node.ty == Some(AnyType) && Title(r.value) == "Unrestricted JSON"
      && ValidateSpec(r.value) == Pass
  {
    var data := Arr([Entry(StrKey("a"), Int(1)), Entry(StrKey("b"), Int(2)), Entry(StrKey("c"), Int(3)),
                     Entry(StrKey("d"), Int(4)), Entry(StrKey("e"), Int(5))]);
    AnyRootValidates(data, UnrestrictedJson);
  }
}
