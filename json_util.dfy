/**
 * `JsonUtil`: converting values to HTML-safe ids, default values per
 * schema type, the schema type of a data value, and a schema inferred
 * from an example value.
 */
module JsonUtil {
  import opened Wrappers
  import opened Values
  import opened JsonText
  import opened Schemas

  // ---------------------------------------------------------------------------
  // stringToId
  // ---------------------------------------------------------------------------

  /** The characters an id keeps: ASCII letters of either case, digits, `-`, `_`, `:` and `.`. */
  predicate IsIdChar(c: char) {
    ('a' <= c <= 'z') || ('A' <= c <= 'Z') || ('0' <= c <= '9') || c == '-' || c == '_' || c == ':' || c == '.'
  }

  predicate IsId(s: string) {
    forall i :: 0 <= i < |s| ==> IsIdChar(s[i])
  }

  /** The string with every character that is not an id character deleted. */
  function KeepIdChars(s: string): (r: string)
    ensures IsId(r)
    ensures |r| <= |s|
  {
    if s == [] then []
    else (if IsIdChar(s[0]) then [s[0]] else []) + KeepIdChars(s[1..])
  }

  /** `stringToId`: an integer as its decimal text, a string stripped to id characters, anything else an error. */
  function StringToId(v: Value): (r: Result<string, SchemaError>)
    ensures r.Ok? <==> v.Int? || v.Str?
    ensures r.Ok? ==> IsId(r.value)
    ensures r.Err? ==> r.error == CannotConvertToId(v)
  {
    match v
    case Int(n) =>
      DecimalTextIsId(n);
      Ok(DecimalText(n))
    case Str(s) => Ok(KeepIdChars(s))
    case _ => Err(CannotConvertToId(v))
  }

  lemma DecimalTextIsId(n: int)
    ensures IsId(DecimalText(n))
  {
    DecimalTextChars(n);
  }

  /** Stripping works character by character: it distributes over concatenation. */
  lemma {:induction false} KeepIdCharsConcat(a: string, b: string)
    ensures KeepIdChars(a + b) == KeepIdChars(a) + KeepIdChars(b)
  {
    if a != [] {
      assert (a + b)[1..] == a[1..] + b;
      KeepIdCharsConcat(a[1..], b);
    } else {
      assert a + b == b;
    }
  }

  /** A one-character string is kept exactly when it is an id character. */
  lemma KeepIdCharsSingle(c: char)
    ensures KeepIdChars([c]) == if IsIdChar(c) then [c] else []
  {
  }

  /** A string that is already an id is left as it is, so stripping is idempotent. */
  lemma {:induction false} KeepIdCharsOfId(s: string)
    requires IsId(s)
    ensures KeepIdChars(s) == s
  {
    if s != [] {
      KeepIdCharsOfId(s[1..]);
      assert [s[0]] + s[1..] == s;
    }
  }

  /** Converting a converted id changes nothing. */
  lemma StringToIdIdempotent(v: Value)
    requires StringToId(v).Ok?
    ensures StringToId(Str(StringToId(v).value)) == StringToId(v)
  {
    KeepIdCharsOfId(StringToId(v).value);
  }

  /** Integers convert without loss: the id reads back as the same integer. */
  lemma IntIdRoundTrip(n: int)
    ensures StringToId(Int(n)).Ok? && ParseDecimal(StringToId(Int(n)).value) == Some(n)
  {
    DecimalRoundTrip(n);
  }

  /** An array key as a PHP value. */
  function KeyValue(k: Key): Value {
    match k
    case IntKey(n) => Int(n)
    case StrKey(s) => Str(s)
  }

  /** `stringToId` applied to an array key, which always succeeds. */
  function KeyId(k: Key): (id: string)
    ensures StringToId(KeyValue(k)) == Ok(id)
  {
    match k
    case IntKey(n) => DecimalText(n)
    case StrKey(s) => KeepIdChars(s)
  }

  // ---------------------------------------------------------------------------
  // getType and getNewValueForType
  // ---------------------------------------------------------------------------

  /** Every key of the array is an integer: PHP's test for a list. */
  predicate AllIntKeys(es: seq<Entry<Value>>) {
    forall i :: 0 <= i < |es| ==> es[i].key.IntKey?
  }

  /** `getType`: the schema type of a data value; null has none. */
  function TypeOf(v: Value): (t: Option<string>)
    ensures t != Some(IntType) && t != Some(AnyType) && t != Some(IdrefType)
  {
    match v
    case Null => None
    case Arr(es) => if AllIntKeys(es) then Some(SeqType) else Some(MapType)
    case Int(_) => Some(NumberType)
    case Float(_) => Some(NumberType)
    case Bool(_) => Some(BoolType)
    case Str(_) => Some(StrType)
  }

  /** `getType`, scanning the keys of an array for one that is not an integer. */
  method GetType(v: Value) returns (t: Option<string>)
    ensures t == TypeOf(v)
    ensures t.None? <==> v.Null?
    ensures v.Arr? ==> (t == Some(SeqType) <==> forall i :: 0 <= i < |v.entries| ==> v.entries[i].key.IntKey?)
    ensures v.Arr? ==> t == Some(SeqType) || t == Some(MapType)
    ensures v.Int? || v.Float? ==> t == Some(NumberType)
  {
    if v.Null? {
      return None;
    }
    match v
    case Arr(es) =>
      var r := SeqType;
      var i := 0;
      while i < |es|
        invariant 0 <= i <= |es|
        invariant r == if forall j :: 0 <= j < i ==> es[j].key.IntKey? then SeqType else MapType
      {
        if !es[i].key.IntKey? {
          r := MapType;
        }
        i := i + 1;
      }
      t := Some(r);
    case Int(_) => t := Some(NumberType);
    case Float(_) => t := Some(NumberType);
    case Bool(_) => t := Some(BoolType);
    case Str(_) => t := Some(StrType);
  }

  /** `getNewValueForType`: the empty value of a schema type; unknown or missing types give null. */
  function NewValueForType(t: Option<string>): (v: Value)
    ensures t == Some(MapType) || t == Some(SeqType) ==> v == Arr([])
    ensures t == Some(NumberType) || t == Some(IntType) || t == Some(SeqType) || t == Some(StrType) || t == Some(BoolType)
            ==> TypeOf(v) == (if t == Some(IntType) then Some(NumberType) else t)
    ensures t == Some(NumberType) || t == Some(IntType) ==> v == Int(0)
    ensures t == Some(StrType) ==> v == Str("")
    ensures t == Some(BoolType) ==> v == Bool(false)
    ensures v.Null? <==> !(t.Some? && t.value in [MapType, SeqType, NumberType, IntType, StrType, BoolType])
  {
    match t
    case Some(s) =>
      if s == MapType || s == SeqType then Arr([])
      else if s == NumberType || s == IntType then Int(0)
      else if s == StrType then Str("")
      else if s == BoolType then Bool(false)
      else Null
    case None => Null
  }

  // ---------------------------------------------------------------------------
  // getSchemaArray
  // ---------------------------------------------------------------------------

  /**
   * A schema describing an example value: its type, for a map a member
   * schema per key, for a seq the schema of the item at index 0.
   */
  function SchemaFromExample(v: Value): (s: Schema)
    ensures s.ty == TypeOf(v)
    ensures s.ty == Some(MapType) ==> KeyList(s.mapping) == KeyList(v.entries)
    ensures s.ty == Some(SeqType) ==> |s.sequence| == 1
    ensures s.ty != Some(MapType) ==> s.mapping == []
    ensures s.ty != Some(SeqType) ==> s.sequence == []
    decreases Size(v)
  {
    match TypeOf(v)
    case Some(t) =>
      if t == MapType then
        var es := v.entries;
        var m := seq(|es|, i requires 0 <= i < |es| =>
          SizeUpToBound(v, |es|, i);
          Entry(es[i].key, SchemaFromExample(es[i].val)));
        TypeNode(MapType).(mapping := m)
      else if t == SeqType then
        LookupSmaller(v, IntKey(0));
        TypeNode(SeqType).(sequence := [SchemaFromExample(Lookup(v, IntKey(0)))])
      else TypeNode(t)
    case None => NullSchema
  }

  /**
   * `getSchemaArray`: the `foreach` over a map example stores the schema
   * inferred for each member under its key; a seq example gets the schema
   * of its item at index 0. An array's keys are distinct, so each store
   * adds a member at the end.
   */
  method GetSchemaArray(v: Value) returns (s: Schema)
    ensures s == SchemaFromExample(v)
    decreases Size(v)
  {
    match TypeOf(v)
    case None =>
      s := NullSchema;
    case Some(t) =>
      s := TypeNode(t);
      if t == MapType {
        var es := v.entries;
        var m: seq<Entry<Schema>> := [];
        var i := 0;
        while i < |es|
          invariant 0 <= i <= |es|
          invariant |m| == i
          invariant forall j :: 0 <= j < i ==> m[j] == Entry(es[j].key, SchemaFromExample(es[j].val))
        {
          SizeUpToBound(v, |es|, i);
          var member := GetSchemaArray(es[i].val);
          m := m + [Entry(es[i].key, member)];
          i := i + 1;
        }
        s := s.(mapping := m);
      } else if t == SeqType {
        LookupSmaller(v, IntKey(0));
        var item := GetSchemaArray(Lookup(v, IntKey(0)));
        s := s.(sequence := [item]);
      }
  }

  /** `(int)$x` for a double: truncation toward zero. */
  function Truncate(x: real): int {
    if x >= 0.0 then x.Floor else -((-x).Floor)
  }

  /** The key PHP uses when a value is written as an array offset; an array is an illegal offset. */
  function ValueAsKey(v: Value): Option<Key> {
    match v
    case Null => Some(StrKey(""))
    case Bool(b) => Some(IntKey(if b then 1 else 0))
    case Int(n) => Some(IntKey(n))
    case Float(x) => Some(IntKey(Truncate(x)))
    case Str(s) => Some(ArrayKey(s))
    case Arr(_) => None
  }

  /**
   * `getSchemaArray` as written: the map branch iterates the values, uses
   * each value as a member name and infers the member schema from
   * whatever the map holds under that name. A value that cannot be an
   * offset is skipped.
   */
  function SchemaFromExampleAsWritten(v: Value): (s: Schema)
    ensures s.ty == TypeOf(v)
    decreases Size(v), 1, 0
  {
    match TypeOf(v)
    case Some(t) =>
      if t == MapType then TypeNode(MapType).(mapping := MembersAsWritten(v, |v.entries|))
      else if t == SeqType then
        LookupSmaller(v, IntKey(0));
        TypeNode(SeqType).(sequence := [SchemaFromExampleAsWritten(Lookup(v, IntKey(0)))])
      else TypeNode(t)
    case None => NullSchema
  }

  /** The mapping the `foreach` has built after the first `n` values. */
  function MembersAsWritten(v: Value, n: nat): (m: seq<Entry<Schema>>)
    requires v.Arr? && n <= |v.entries|
    ensures forall k :: HasKey(m, k) ==> exists i :: 0 <= i < n && ValueAsKey(v.entries[i].val) == Some(k)
    decreases Size(v), 0, n
  {
    if n == 0 then []
    else
      var m := MembersAsWritten(v, n - 1);
      match ValueAsKey(v.entries[n - 1].val)
      case Some(k) =>
        LookupSmaller(v, k);
        var m' := SetKey(m, k, SchemaFromExampleAsWritten(Lookup(v, k)));
        assert forall k' :: HasKey(m', k') ==> HasKey(m, k') || k' == k by {
          forall k' | HasKey(m', k') {
            SetKeyKeys(m, k, SchemaFromExampleAsWritten(Lookup(v, k)), k');
          }
        }
        m'
      case None => m
  }

  /**
   * For `{"a": "b"}` the code as written describes a member "b" of no type,
   * while the intended schema describes the member "a" as a string.
   */
  lemma MapExampleAsWritten()
    ensures SchemaFromExampleAsWritten(Arr([Entry(StrKey("a"), Str("b"))])).mapping == [Entry(StrKey("b"), NullSchema)]
    ensures SchemaFromExample(Arr([Entry(StrKey("a"), Str("b"))])).mapping == [Entry(StrKey("a"), TypeNode(StrType))]
  {
    var v := Arr([Entry(StrKey("a"), Str("b"))]);
    assert ParseDecimal("b") == None;
    assert ArrayKey("b") == StrKey("b");
    assert Lookup(v, StrKey("b")) == Null;
    assert MembersAsWritten(v, 1) == [Entry(StrKey("b"), NullSchema)];
  }

  /**
   * Every list in the example has items of one shape: the schema inferred
   * from the item at index 0 is the schema of every index up to the count.
   */
  predicate Uniform(v: Value)
    decreases v
  {
    match v
    case Arr(es) =>
      (forall j :: 0 <= j < |es| ==> Uniform(es[j].val))
      && (TypeOf(v) == Some(SeqType) ==>
            forall i :: 0 <= i < |es| ==> SchemaFromExample(Lookup(v, IntKey(i))) == SchemaFromExample(Lookup(v, IntKey(0))))
    case _ => true
  }

  /**
   * Every key of the value, at every depth, is one a PHP array can hold:
   * no string key spells a 64-bit integer, so `$a[$k]` finds each key
   * under itself.
   */
  predicate ArrayKeyed(v: Value)
    decreases v
  {
    match v
    case Arr(es) => forall j :: 0 <= j < |es| ==> OffsetKey(es[j].key) == es[j].key && ArrayKeyed(es[j].val)
    case _ => true
  }

  /** The lookups of an array-keyed value are array-keyed. */
  lemma ArrayKeyedLookup(v: Value, k: Key)
    requires ArrayKeyed(v)
    ensures ArrayKeyed(Lookup(v, k))
  {
    if v.Arr? && HasKey(v.entries, k) {
      var j :| 0 <= j < |v.entries| && v.entries[j] == Entry(k, Lookup(v, k));
    }
  }

  /** The member schema of key `k` in an inferred map schema is the schema of the value under `k`. */
  lemma {:induction false} ExampleMember(es: seq<Entry<Value>>, m: seq<Entry<Schema>>, k: Key)
    requires |m| == |es|
    requires forall i :: 0 <= i < |es| ==> m[i] == Entry(es[i].key, SchemaFromExample(es[i].val))
    ensures Find(m, k) == if Find(es, k).Some? then Some(SchemaFromExample(Find(es, k).value)) else None
  {
    if es != [] && es[0].key != k {
      ExampleMember(es[1..], m[1..], k);
    }
  }

  /** The lookups of a uniform value are uniform. */
  lemma UniformLookup(v: Value, k: Key)
    requires Uniform(v)
    ensures Uniform(Lookup(v, k))
  {
    if v.Arr? && HasKey(v.entries, k) {
      var j :| 0 <= j < |v.entries| && v.entries[j] == Entry(k, Lookup(v, k));
    }
  }

  // ---------------------------------------------------------------------------
  // Titles
  // ---------------------------------------------------------------------------

  /** The title of a schema node, or `default` when it has none. */
  function TitleFromNode(s: Schema, default: string): (t: string)
    ensures s.title.Some? ==> t == s.title.value
    ensures s.title.None? ==> t == default
  {
    s.title.GetOr(default)
  }
}
