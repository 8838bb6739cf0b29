/**
 * `JsonTreeRef`: a data node together with its context (parent ref, the
 * key it sits under, its display name) and the schema ref it is checked
 * against. Refs form an ancestor chain; children are made on demand from
 * the schema.
 */
module TreeRefs {
  import opened Wrappers
  import opened Values
  import opened JsonText
  import opened Schemas
  import opened SchemaIndex
  import opened JsonUtil

  /**
   * A data ref. A root ref is made by attaching a whole schema to the data;
   * a child ref sits under key `index` of its parent's data. A name is a
   * string or an integer, as PHP keeps it. Every ref shares the id table of
   * the schema index its root made.
   */
  datatype Ref =
    | Root(node: Value, name: Option<Key>, schemaRef: TreeRef, idtable: IdTable)
    | Child(node: Value, parent: Ref, index: Key, name: Option<Key>, schemaRef: TreeRef,
            idtable: IdTable, userKey: bool)

  const ExtensionKey: string := "extension"

  /** The member schema the `any` rewrite installs: `array('type' => 'any')`. */
  const AnySchema: Schema := TypeNode(AnyType)

  /** `getType` of a ref: the schema's type, except that `any` takes the type of the data. */
  function NodeType(s: Schema, v: Value): (t: Option<string>)
    ensures s.ty == Some(AnyType) ==> t == TypeOf(v)
    ensures s.ty != Some(AnyType) ==> t == s.ty
  {
    if s.ty == Some(AnyType) then TypeOf(v) else s.ty
  }

  function EffectiveType(r: Ref): Option<string> {
    NodeType(r.schemaRef.node, r.node)
  }

  /**
   * The rewrite `attachSchema` makes to an `any` schema so that it keeps
   * accepting whatever lies below: map data gets a wildcard member schema
   * under the user key "extension", seq data an `any` item schema.
   */
  function Specialize(s: Schema, v: Value): (s': Schema)
    ensures s'.ty == s.ty && s'.id == s.id && s'.idref == s.idref && s'.title == s.title
    ensures s.ty != Some(AnyType) || TypeOf(v) !in {Some(MapType), Some(SeqType)} ==> s' == s
    ensures s.ty == Some(AnyType) && TypeOf(v) == Some(MapType) ==>
              s'.mapping == [Entry(StrKey(ExtensionKey), AnySchema)] && s'.userKey == Some(ExtensionKey)
              && s'.sequence == s.sequence
    ensures s.ty == Some(AnyType) && TypeOf(v) == Some(SeqType) ==>
              s'.sequence == [AnySchema] && s'.userKey == Some(ExtensionKey) && s'.mapping == s.mapping
  {
    if s.ty == Some(AnyType) then
      var t := NodeType(s, v);
      if t == Some(MapType) then
        s.(mapping := [Entry(StrKey(ExtensionKey), AnySchema)], userKey := Some(ExtensionKey))
      else if t == Some(SeqType) then
        s.(sequence := [AnySchema], userKey := Some(ExtensionKey))
      else s
    else s
  }

  /** `new JsonTreeRef(...)` for a child: the constructor followed by `attachSchema()`. */
  function NewChild(node: Value, parent: Ref, index: Key, name: Option<Key>, sref: TreeRef, flag: bool): (r: Ref)
    ensures r.Child? && r.node == node && r.parent == parent && r.index == index && r.name == name
    ensures r.schemaRef == sref.(node := Specialize(sref.node, node))
    ensures r.idtable == parent.idtable && r.userKey == flag
  {
    Child(node, parent, index, name, sref.(node := Specialize(sref.node, node)), parent.idtable, flag)
  }

  /**
   * `attachSchema($schema)` on a fresh ref for `data`: index the schema,
   * name the root after the schema's title (else "Root node"), resolve the
   * schema into a schema ref and apply the `any` rewrite to it.
   */
  function RootRef(data: Value, schema: Schema): (r: Result<Ref, SchemaError>)
    ensures r.Ok? ==> r.value.Root? && r.value.node == data && r.value.idtable == TableOf(schema)
    ensures r.Ok? ==> r.value.name == Some(StrKey(TitleFromNode(schema, "Root node")))
    ensures var t := TableOf(schema);
      (r.Err? <==> schema.ty == Some(IdrefType) && IdrefKey(schema) !in t)
      && (r.Err? ==> r.error == BadIdref(IdrefKey(schema)))
      && (r.Ok? ==>
            r.value.schemaRef.parent == None && r.value.schemaRef.index == None
            && r.value.schemaRef.name == r.value.name
            && r.value.schemaRef.node ==
                 Specialize(if schema.ty == Some(IdrefType) then t[IdrefKey(schema)] else schema, data))
  {
    var t := TableOf(schema);
    var name := StrKey(TitleFromNode(schema, "Root node"));
    match Resolve(t, schema, None, None, Some(name))
    case Err(e) => Err(e)
    case Ok(sref) => Ok(Root(data, Some(name), sref.(node := Specialize(sref.node, data)), t))
  }

  /** `attachSchema($schema)` through a schema index object. */
  method AttachSchema(data: Value, schema: Schema) returns (r: Result<Ref, SchemaError>)
    ensures r == RootRef(data, schema)
  {
    var index := new JsonSchemaIndex(Some(schema));
    var name := StrKey(TitleFromNode(schema, "Root node"));
    var sref := index.NewRef(schema, None, None, Some(name));
    if sref.Err? {
      return Err(sref.error);
    }
    var node := Specialize(sref.value.node, data);
    r := Ok(Root(data, Some(name), sref.value.(node := node), index.idtable));
  }

  // ---------------------------------------------------------------------------
  // Names and positions
  // ---------------------------------------------------------------------------

  /**
   * `getTitle`: the ref's name; without one, a string or integer `title`
   * member of the data (not of the schema); without that, the key the ref
   * sits under, and for a root nothing.
   */
  function Title(r: Ref): (t: string)
    ensures r.name.Some? ==> t == KeyText(r.name.value)
  {
    match r.name
    case Some(k) => KeyText(k)
    case None =>
      var dataTitle := Lookup(r.node, StrKey("title"));
      if dataTitle.Str? then dataTitle.s
      else if dataTitle.Int? then DecimalText(dataTitle.i)
      else if r.Child? then KeyText(r.index)
      else ""
  }

  /** `isUserKey`: whether the child was made from the user-key wildcard. */
  predicate IsUserKey(r: Ref)
    ensures IsUserKey(r) ==> r.Child?
  {
    r.Child? && r.userKey
  }

  /** `getFullIndex`: "json_root", then one `.<id>` per key on the way down. */
  function FullIndex(r: Ref): (f: string)
    ensures |f| >= |"json_root"| && f[..|"json_root"|] == "json_root"
  {
    match r
    case Root(_, _, _, _) => "json_root"
    case Child(_, p, i, _, _, _, _) => FullIndex(p) + "." + KeyId(i)
  }

  /** `getDataPath`: the keys leading from the root's data to this ref's data. */
  function DataPath(r: Ref): (p: seq<Key>)
    ensures r.Root? ==> p == []
    ensures r.Child? ==> p == DataPath(r.parent) + [r.index]
  {
    match r
    case Root(_, _, _, _) => []
    case Child(_, p, i, _, _, _, _) => DataPath(p) + [i]
  }

  /** `getDataPathTitles`: the titles from the root down, joined by " -> ". */
  function DataPathTitles(r: Ref): string {
    match r
    case Root(_, _, _, _) => Title(r)
    case Child(_, p, _, _, _, _, _) => DataPathTitles(p) + " -> " + Title(r)
  }

  /** The refs from the root down to `r`: one for the root, then one per step of the data path. */
  function Ancestors(r: Ref): (a: seq<Ref>)
    ensures |a| == |DataPath(r)| + 1 && a[0].Root? && a[|a| - 1] == r
    ensures forall j :: 1 <= j < |a| ==> a[j].Child? && a[j].parent == a[j - 1] && a[j].index == DataPath(r)[j - 1]
  {
    match r
    case Root(_, _, _, _) => [r]
    case Child(_, p, _, _, _, _, _) => Ancestors(p) + [r]
  }

  /** Titles joined by " -> ", the first one leading. */
  function Join(ts: seq<string>): string
    requires |ts| > 0
  {
    if |ts| == 1 then ts[0] else ts[0] + " -> " + Join(ts[1..])
  }

  /** The title of each ref of `a`, in order. */
  function Titles(a: seq<Ref>): (ts: seq<string>)
    ensures |ts| == |a| && forall j :: 0 <= j < |a| ==> ts[j] == Title(a[j])
  {
    seq(|a|, j requires 0 <= j < |a| => Title(a[j]))
  }

  lemma {:induction false} JoinSnoc(ts: seq<string>, x: string)
    requires |ts| > 0
    ensures Join(ts + [x]) == Join(ts) + " -> " + x
    decreases |ts|
  {
    if |ts| > 1 {
      assert (ts + [x])[1..] == ts[1..] + [x];
      JoinSnoc(ts[1..], x);
    } else {
      assert (ts + [x])[1..] == [x];
    }
  }

  /**
   * `getDataPathTitles` reads, from the root down, the title of the root and
   * then of the ref reached by each step of the data path, joined by " -> ".
   */
  lemma {:induction false} DataPathTitlesJoin(r: Ref)
    ensures DataPathTitles(r) == Join(Titles(Ancestors(r)))
  {
    if r.Child? {
      DataPathTitlesJoin(r.parent);
      var a := Ancestors(r.parent);
      assert Titles(Ancestors(r)) == Titles(a) + [Title(r)];
      JoinSnoc(Titles(a), Title(r));
    }
  }

  /** The root of the chain `r` belongs to. */
  function RootOf(r: Ref): (root: Ref)
    ensures root.Root?
  {
    match r
    case Root(_, _, _, _) => r
    case Child(_, p, _, _, _, _, _) => RootOf(p)
  }

  /** `$v[$k1][$k2]...`: the value reached from `v` by following the keys of `p`, each cast as an array offset. */
  function LookupPath(v: Value, p: seq<Key>): Value {
    if p == [] then v else Lookup(LookupPath(v, p[..|p| - 1]), OffsetKey(p[|p| - 1]))
  }

  /** Every ref on the chain holds the data its parent holds under its index, as the child constructors make it. */
  predicate Made(r: Ref) {
    match r
    case Root(_, _, _, _) => true
    case Child(n, p, i, _, _, _, _) => n == Lookup(p.node, OffsetKey(i)) && Made(p)
  }

  /**
   * The promise of `getDataPath`: following the data path from the root's
   * data loads this ref's data, as `$foo['a'][1]` loads the node whose
   * path is `array('a', 1)`.
   */
  lemma {:induction false} DataPathLoads(r: Ref)
    requires Made(r)
    ensures LookupPath(RootOf(r).node, DataPath(r)) == r.node
  {
    if r.Child? {
      DataPathLoads(r.parent);
      var p := DataPath(r);
      assert p[..|p| - 1] == DataPath(r.parent);
    }
  }

  /** The dotted ids of a path, one `.<id>` per key. */
  function DottedIds(p: seq<Key>): string {
    if p == [] then "" else DottedIds(p[..|p| - 1]) + "." + KeyId(p[|p| - 1])
  }

  /** The full index spells out the data path, each key passed through `stringToId`. */
  lemma {:induction false} FullIndexIsPath(r: Ref)
    ensures FullIndex(r) == "json_root" + DottedIds(DataPath(r))
  {
    if r.Child? {
      FullIndexIsPath(r.parent);
      var p := DataPath(r);
      assert p[..|p| - 1] == DataPath(r.parent);
      assert p[|p| - 1] == r.index;
    }
  }

  /** `getDataPathAsString`: the data path written as `[k1][k2]...`, with string keys quoted. */
  method GetDataPathAsString(r: Ref) returns (s: string)
    ensures s == PathText(DataPath(r))
  {
    var path := DataPath(r);
    s := "";
    var i := 0;
    while i < |path|
      invariant 0 <= i <= |path|
      invariant s == PathText(path[..i])
    {
      ghost var next := path[..i + 1];
      assert next[..|next| - 1] == path[..i] && next[|next| - 1] == path[i];
      assert PathText(next) == PathText(path[..i]) + Segment(path[i]);
      s := s + ("[" + EncodeKey(path[i]) + "]");
      i := i + 1;
    }
    assert path[..i] == path;
  }

  /** Two refs with the same path string sit at the same data path. */
  lemma PathStringIdentifies(r1: Ref, r2: Ref)
    requires PathText(DataPath(r1)) == PathText(DataPath(r2))
    ensures DataPath(r1) == DataPath(r2)
  {
    PathRoundTrip(DataPath(r1));
    PathRoundTrip(DataPath(r2));
  }

  // ---------------------------------------------------------------------------
  // Children
  // ---------------------------------------------------------------------------

  /**
   * Which member schema `getMappingChildRef` uses for `key`, and whether
   * it came from the user key: a key the mapping lacks goes to the user
   * key's schema when there is a user key; a key the mapping has goes to
   * its own schema; any other key is invalid. The mapping is searched
   * with the key cast as an array offset, so "5" finds a member 5.
   */
  function MemberFor(r: Ref, key: Key): (m: Result<(Schema, bool), SchemaError>)
    ensures var s := r.schemaRef.node;
      (m.Ok? && m.value.1 <==> s.userKey.Some? && !HasKey(s.mapping, OffsetKey(key)))
      && (m.Err? <==> s.userKey.None? && !HasKey(s.mapping, OffsetKey(key)))
      && (m.Ok? && m.value.1 ==> m.value.0 == MemberSchema(s, ArrayKey(s.userKey.value)))
      && (m.Ok? && !m.value.1 ==> m.value.0 == MemberSchema(s, OffsetKey(key)))
      && (m.Err? ==> m.error == InvalidKey(key, DataPathTitles(r)))
  {
    var s := r.schemaRef.node;
    var k := OffsetKey(key);
    if s.userKey.Some? && !HasKey(s.mapping, k) then
      Ok((MemberSchema(s, ArrayKey(s.userKey.value)), true))
    else if HasKey(s.mapping, k) then
      Ok((MemberSchema(s, k), false))
    else
      Err(InvalidKey(key, DataPathTitles(r)))
  }

  /**
   * `getMappingChildRef`: the child ref for the data under `key` (read as
   * `$node[$key]`, so with the offset cast), named by its schema's title or
   * the key; the key itself is kept, uncast, as index and name.
   */
  function MappingChild(r: Ref, key: Key): (c: Result<Ref, SchemaError>)
    ensures c.Ok? ==> c.value.Child? && c.value.parent == r && c.value.index == key
    ensures c.Ok? ==> c.value.node == Lookup(r.node, OffsetKey(key))
    ensures MemberFor(r, key).Err? ==> c == Err(MemberFor(r, key).error)
    ensures c.Ok? ==> MemberFor(r, key).Ok? && c.value.userKey == MemberFor(r, key).value.1
    ensures MemberFor(r, key).Ok? ==>
      var m := MemberFor(r, key).value.0;
      (c.Err? <==> m.ty == Some(IdrefType) && IdrefKey(m) !in r.idtable)
      && (c.Err? ==> c.error == BadIdref(IdrefKey(m)))
      && (c.Ok? ==>
            c.value.name == Some(if m.title.Some? then StrKey(m.title.value) else key)
            && c.value.idtable == r.idtable
            && c.value.schemaRef.parent == Some(r.schemaRef)
            && c.value.schemaRef.index == Some(key) && c.value.schemaRef.name == Some(key)
            && c.value.schemaRef.node ==
                 Specialize(if m.ty == Some(IdrefType) then r.idtable[IdrefKey(m)] else m, c.value.node))
  {
    match MemberFor(r, key)
    case Err(e) => Err(e)
    case Ok((schemadata, flag)) =>
      var name := if schemadata.title.Some? then StrKey(schemadata.title.value) else key;
      match Resolve(r.idtable, schemadata, Some(r.schemaRef), Some(key), Some(key))
      case Err(e) => Err(e)
      case Ok(sref) => Ok(NewChild(Lookup(r.node, OffsetKey(key)), r, key, Some(name), sref, flag))
  }

  /** `getSequenceChildRef`: the child ref for item `i`, named "<item title> #<i+1>". */
  function SequenceChild(r: Ref, i: int): (c: Result<Ref, SchemaError>)
    ensures c.Ok? ==> c.value.Child? && c.value.parent == r && c.value.index == IntKey(i)
    ensures c.Ok? ==> c.value.node == Lookup(r.node, IntKey(i)) && !c.value.userKey
    ensures c.Ok? ==> c.value.name == Some(StrKey(TitleFromNode(ItemSchema(r.schemaRef.node), "Item") + " #" + DecimalText(i + 1)))
    ensures var item := ItemSchema(r.schemaRef.node);
      (c.Err? <==> item.ty == Some(IdrefType) && IdrefKey(item) !in r.idtable)
      && (c.Err? ==> c.error == BadIdref(IdrefKey(item)))
      && (c.Ok? ==>
            c.value.idtable == r.idtable
            && c.value.schemaRef.parent == Some(r.schemaRef)
            && c.value.schemaRef.index == Some(IntKey(0)) && c.value.schemaRef.name == Some(IntKey(i))
            && c.value.schemaRef.node ==
                 Specialize(if item.ty == Some(IdrefType) then r.idtable[IdrefKey(item)] else item, c.value.node))
  {
    var item := ItemSchema(r.schemaRef.node);
    var name := TitleFromNode(item, "Item") + " #" + DecimalText(i + 1);
    match Resolve(r.idtable, item, Some(r.schemaRef), Some(IntKey(0)), Some(IntKey(i)))
    case Err(e) => Err(e)
    case Ok(sref) => Ok(NewChild(Lookup(r.node, IntKey(i)), r, IntKey(i), Some(StrKey(name)), sref, false))
  }

  /**
   * Below an `any` schema on map data every key is accepted: "extension"
   * through the member the rewrite installed, every other key through the
   * user key; either way the child is checked against `any` again.
   */
  lemma AnyMapChild(r: Ref, a: Schema, key: Key)
    requires a.ty == Some(AnyType) && TypeOf(r.node) == Some(MapType)
    requires r.schemaRef.node == Specialize(a, r.node)
    ensures MappingChild(r, key).Ok?
    ensures var c := MappingChild(r, key).value;
      c.schemaRef.node == Specialize(AnySchema, c.node) && c.name == Some(key)
      && (IsUserKey(c) <==> key != StrKey(ExtensionKey))
  {
    var s := r.schemaRef.node;
    assert ArrayKey(ExtensionKey) == StrKey(ExtensionKey) by {
      assert ParseDecimal(ExtensionKey) == None;
    }
    assert OffsetKey(key) == StrKey(ExtensionKey) <==> key == StrKey(ExtensionKey) by {
      if OffsetKey(key) == StrKey(ExtensionKey) {
        assert KeyText(key) == ExtensionKey;
      }
    }
    assert HasKey(s.mapping, OffsetKey(key)) <==> key == StrKey(ExtensionKey);
  }

  /** Below an `any` schema on seq data every item is checked against `any` again. */
  lemma AnySeqChild(r: Ref, a: Schema, i: int)
    requires a.ty == Some(AnyType) && TypeOf(r.node) == Some(SeqType)
    requires r.schemaRef.node == Specialize(a, r.node)
    ensures SequenceChild(r, i).Ok?
    ensures var c := SequenceChild(r, i).value;
      c.schemaRef.node == Specialize(AnySchema, c.node) && Title(c) == "Item #" + DecimalText(i + 1)
  {
  }

  /** The refs `attachSchema`, `getMappingChildRef` and `getSequenceChildRef` make hold the data their parent holds under their index. */
  lemma MadeRefsLoad(data: Value, schema: Schema, r: Ref, key: Key, i: int)
    requires Made(r)
    ensures RootRef(data, schema).Ok? ==> Made(RootRef(data, schema).value)
    ensures MappingChild(r, key).Ok? ==> Made(MappingChild(r, key).value)
    ensures SequenceChild(r, i).Ok? ==> Made(SequenceChild(r, i).value)
  {
  }

  /**
   * Every ref that `attachSchema`, `getMappingChildRef` and
   * `getSequenceChildRef` make has a name, so `getTitle` returns that name:
   * the schema's title or "Root node" for the root, the member schema's
   * title or the key for a map child, and "<item title> #<i+1>" for an item.
   */
  lemma MadeRefTitles(data: Value, schema: Schema, r: Ref, key: Key, i: int)
    ensures RootRef(data, schema).Ok? ==> Title(RootRef(data, schema).value) == TitleFromNode(schema, "Root node")
    ensures MappingChild(r, key).Ok? ==>
              var m := MemberFor(r, key).value.0;
              Title(MappingChild(r, key).value) == if m.title.Some? then m.title.value else KeyText(key)
    ensures SequenceChild(r, i).Ok? ==>
              Title(SequenceChild(r, i).value) == TitleFromNode(ItemSchema(r.schemaRef.node), "Item") + " #" + DecimalText(i + 1)
  {
  }

  /**
   * `isUserKey` of a made child: a map child is a user key exactly when
   * its key was taken through the user-key wildcard, an item never is.
   */
  lemma MadeRefUserKeys(data: Value, schema: Schema, r: Ref, key: Key, i: int)
    ensures RootRef(data, schema).Ok? ==> !IsUserKey(RootRef(data, schema).value)
    ensures MappingChild(r, key).Ok? ==>
              (IsUserKey(MappingChild(r, key).value) <==>
                 r.schemaRef.node.userKey.Some? && !HasKey(r.schemaRef.node.mapping, OffsetKey(key)))
    ensures SequenceChild(r, i).Ok? ==> !IsUserKey(SequenceChild(r, i).value)
  {
  }

  /**
   * The key cast of `getMappingChildRef`: asked for the decimal text of a
   * 64-bit integer n, such as "5", it finds the member n of the mapping and
   * the data stored under the integer key n, and keeps the string as the
   * child's index and name.
   */
  lemma NumericStringMember(r: Ref, m: Schema, v: Value, n: int)
    requires InPhpIntRange(n) && m.ty != Some(IdrefType)
    requires r.schemaRef.node.mapping == [Entry(IntKey(n), m)] && r.node == Arr([Entry(IntKey(n), v)])
    ensures MappingChild(r, StrKey(DecimalText(n))).Ok?
    ensures var c := MappingChild(r, StrKey(DecimalText(n))).value;
      c.node == v && c.index == StrKey(DecimalText(n)) && !c.userKey
      && c.schemaRef.node == Specialize(m, v)
      && c.name == Some(if m.title.Some? then StrKey(m.title.value) else StrKey(DecimalText(n)))
  {
  }

  // ---------------------------------------------------------------------------
  // Renaming a key
  // ---------------------------------------------------------------------------

  /** `$a[$new] = $v; unset($a[$old]);` on the slots of an array. */
  function Rename(es: seq<Entry<Value>>, oldKey: Key, newKey: Key, v: Value): seq<Entry<Value>> {
    Unset(SetKey(es, newKey, v), oldKey)
  }

  /** Renaming to a different key moves the value there and leaves every other key as it was. */
  lemma RenameMoves(es: seq<Entry<Value>>, oldKey: Key, newKey: Key, v: Value, k: Key)
    requires oldKey != newKey
    ensures Find(Rename(es, oldKey, newKey, v), newKey) == Some(v)
    ensures !HasKey(Rename(es, oldKey, newKey, v), oldKey)
    ensures k != oldKey && k != newKey ==> Find(Rename(es, oldKey, newKey, v), k) == Find(es, k)
  {
    SetKeyFind(es, newKey, v, k);
    SetKeyFind(es, newKey, v, oldKey);
    UnsetFind(SetKey(es, newKey, v), oldKey, newKey);
    UnsetFind(SetKey(es, newKey, v), oldKey, k);
  }

  /** Renaming a key to itself deletes it: the final `unset` removes what was just written. */
  lemma RenameToSelfDeletes(es: seq<Entry<Value>>, key: Key, v: Value, k: Key)
    ensures !HasKey(Rename(es, key, key, v), key)
    ensures k != key ==> Find(Rename(es, key, key, v), k) == Find(es, k)
  {
    SetKeyFind(es, key, v, k);
    UnsetFind(SetKey(es, key, v), key, k);
  }

  /** Renaming keeps the keys of the array unique. */
  lemma RenameUnique(es: seq<Entry<Value>>, oldKey: Key, newKey: Key, v: Value)
    requires UniqueKeys(es)
    ensures UniqueKeys(Rename(es, oldKey, newKey, v))
  {
    SetKeyUnique(es, newKey, v);
    UnsetUnique(SetKey(es, newKey, v), oldKey);
  }

  /** A PHP array reached through an object: the parent ref's data node, which `renamePropname` writes through. */
  class ArrayNode {
    var entries: seq<Entry<Value>>

    constructor (es: seq<Entry<Value>>)
      ensures entries == es
    {
      entries := es;
    }
  }

  /**
   * The fields of a child ref that `renamePropname` updates, with the
   * parent's data node held by reference. The index is the value the ref
   * was made with: the parent's array holds the data under its key cast
   * (`OffsetKey`).
   */
  class EditableRef {
    const parent: ArrayNode
    const parentIndex: string
    const node: Value
    var index: Key
    var name: Option<Key>
    var fullIndex: string

    constructor (r: Ref)
      requires r.Child? && r.parent.node.Arr?
      ensures fresh(parent) && parent.entries == r.parent.node.entries
      ensures parentIndex == FullIndex(r.parent) && node == r.node
      ensures index == r.index && name == r.name && fullIndex == FullIndex(r)
    {
      parent := new ArrayNode(r.parent.node.entries);
      parentIndex := FullIndex(r.parent);
      node := r.node;
      index := r.index;
      name := r.name;
      fullIndex := FullIndex(r);
    }

    /**
     * `renamePropname`: store this ref's data in the parent under the key
     * cast of `newIndex` (the string "5" is stored under the integer key 5),
     * take `newIndex` itself as index and name, recompute the full index,
     * then remove the key cast of the old index from the parent.
     */
    method RenamePropname(newIndex: Key)
      modifies this, parent
      ensures parent.entries == Rename(old(parent.entries), OffsetKey(old(index)), OffsetKey(newIndex), node)
      ensures index == newIndex && name == Some(newIndex)
      ensures fullIndex == parentIndex + "." + KeyId(newIndex)
    {
      var oldIndex := index;
      parent.entries := SetKey(parent.entries, OffsetKey(newIndex), node);
      index := newIndex;
      name := Some(newIndex);
      fullIndex := parentIndex + "." + KeyId(index);
      parent.entries := Unset(parent.entries, OffsetKey(oldIndex));
    }
  }

  /**
   * Renaming to the string "5": the parent's array holds the data under the
   * integer key 5, while the ref's index and name stay the string "5".
   */
  lemma RenameToNumericString(es: seq<Entry<Value>>, oldIndex: Key, v: Value)
    requires OffsetKey(oldIndex) != IntKey(5)
    ensures OffsetKey(StrKey("5")) == IntKey(5)
    ensures Find(Rename(es, OffsetKey(oldIndex), OffsetKey(StrKey("5")), v), IntKey(5)) == Some(v)
    ensures !HasKey(Rename(es, OffsetKey(oldIndex), OffsetKey(StrKey("5")), v), OffsetKey(oldIndex))
  {
    assert DecimalText(5) == "5";
    assert ArrayKey("5") == IntKey(5);
    RenameMoves(es, OffsetKey(oldIndex), IntKey(5), v, IntKey(5));
  }

  // ---------------------------------------------------------------------------
  // The code as written
  // ---------------------------------------------------------------------------

  /** PHP's `$v == null`: true for null and for every value that converts to false. */
  predicate LooselyNull(v: Value) {
    v == Null || v == Bool(false) || v == Int(0) || v == Float(0.0) || v == Str("") || v == Arr([])
  }

  /** `getType` as written, with the loose comparison against null. */
  function NodeTypeAsWritten(s: Schema, v: Value): (t: Option<string>)
    ensures s.ty == Some(AnyType) && LooselyNull(v) ==> t == None
  {
    if s.ty == Some(AnyType) then (if LooselyNull(v) then None else TypeOf(v)) else s.ty
  }

  /** Under `any`, data such as 0, "", false or [] has a type, yet the code as written reports none. */
  lemma LooseNullHidesType(s: Schema, v: Value)
    requires s.ty == Some(AnyType) && LooselyNull(v) && v != Null
    ensures NodeTypeAsWritten(s, v) == None && TypeOf(v).Some? && TypeOf(v).value != ""
    ensures NodeType(s, v) == TypeOf(v)
  {
  }

  /** No digit occurs in `s`: PHP 7 reads such a string as the number 0 in arithmetic. */
  predicate DigitFree(s: string) {
    forall i :: 0 <= i < |s| ==> !IsDigit(s[i])
  }

  /** Every key on the way down to `r` has an id without digits. */
  predicate DigitFreePath(r: Ref) {
    match r
    case Root(_, _, _, _) => true
    case Child(_, p, i, _, _, _, _) => DigitFreePath(p) && DigitFree(KeyId(i))
  }

  /** An operand of PHP 7's `+`: an integer as itself, a string without digits as 0. */
  function NumericOperand(v: Value): int
    requires v.Int? || (v.Str? && DigitFree(v.s))
  {
    if v.Int? then v.i else 0
  }

  /**
   * `getFullIndex` as written, where `+` is numeric addition rather than
   * string concatenation; modelled for paths whose ids have no digits, the
   * case where PHP 7 reads every string operand as 0.
   */
  function FullIndexAsWritten(r: Ref): (v: Value)
    requires DigitFreePath(r)
    ensures r.Root? <==> v.Str?
    ensures v.Int? || (v.Str? && DigitFree(v.s))
  {
    match r
    case Root(_, _, _, _) => Str("json_root")
    case Child(_, p, i, _, _, _, _) =>
      Int(NumericOperand(FullIndexAsWritten(p)) + NumericOperand(Str(".")) + NumericOperand(Str(KeyId(i))))
  }

  /** As written, every ref below the root on a digit-free path has the full index 0. */
  lemma {:induction false} FullIndexAsWrittenIsZero(r: Ref)
    requires r.Child? && DigitFreePath(r)
    ensures FullIndexAsWritten(r) == Int(0)
  {
    if r.parent.Child? {
      FullIndexAsWrittenIsZero(r.parent);
    }
  }

  /** With concatenation, siblings whose keys give different ids get different full indexes. */
  lemma SiblingFullIndexesDiffer(a: Ref, b: Ref)
    requires a.Child? && b.Child? && a.parent == b.parent && KeyId(a.index) != KeyId(b.index)
    ensures FullIndex(a) != FullIndex(b)
  {
    var pre := FullIndex(a.parent) + ".";
    assert FullIndex(a) == pre + KeyId(a.index) && FullIndex(b) == pre + KeyId(b.index);
    assert (pre + KeyId(a.index))[|pre|..] == KeyId(a.index);
    assert (pre + KeyId(b.index))[|pre|..] == KeyId(b.index);
  }

  /** The members "a" and "b" of a root: as written both are addressed as 0; concatenated they differ. */
  lemma SiblingsCollideAsWritten(root: Ref, a: Ref, b: Ref)
    requires root.Root? && a.Child? && b.Child? && a.parent == root && b.parent == root
    requires a.index == StrKey("a") && b.index == StrKey("b")
    ensures DigitFreePath(a) && DigitFreePath(b) && FullIndexAsWritten(a) == FullIndexAsWritten(b) == Int(0)
    ensures FullIndex(a) == "json_root.a" && FullIndex(b) == "json_root.b"
  {
    assert !IsDigit('a') && !IsDigit('b');
    assert KeyId(a.index) == "a" && KeyId(b.index) == "b";
    FullIndexAsWrittenIsZero(a);
    FullIndexAsWrittenIsZero(b);
  }

  /** `isUserKey` as written: it reads a property nothing assigns, so it is always null. */
  predicate IsUserKeyAsWritten(r: Ref) {
    false
  }

  /** A key taken through the user-key wildcard is not reported as a user key by the code as written. */
  lemma UserKeyFlagLost(r: Ref, a: Schema, key: Key)
    requires a.ty == Some(AnyType) && TypeOf(r.node) == Some(MapType)
    requires r.schemaRef.node == Specialize(a, r.node) && key != StrKey(ExtensionKey)
    ensures MappingChild(r, key).Ok? && MemberFor(r, key).Ok? && MemberFor(r, key).value.1
    ensures IsUserKey(MappingChild(r, key).value) && !IsUserKeyAsWritten(MappingChild(r, key).value)
  {
    AnyMapChild(r, a, key);
  }

  /** Attaching an `any` schema always succeeds and attaches its rewrite for the data. */
  lemma AnyRoot(data: Value, a: Schema)
    requires a.ty == Some(AnyType)
    ensures RootRef(data, a).Ok?
    ensures RootRef(data, a).value.schemaRef.node == Specialize(a, data)
  {
  }

  /** The data of the `getDataPathAsString` example: `[{"0a":1,"0b":{"0ba":2,"0bb":3}},{"1a":4}]`. */
  const ExampleData: Value :=
    Arr([Entry(IntKey(0), Arr([Entry(StrKey("0a"), Int(1)),
                               Entry(StrKey("0b"), Arr([Entry(StrKey("0ba"), Int(2)), Entry(StrKey("0bb"), Int(3))]))])),
         Entry(IntKey(1), Arr([Entry(StrKey("1a"), Int(4))]))])

  /**
   * The example of `getDataPathAsString`: under an `any` schema, the value 4
   * of the example data is reached as item 1 then key "1a" and sits at
   * `[1]["1a"]`.
   */
  lemma PathExample()
    ensures RootRef(ExampleData, AnySchema).Ok?
    ensures SequenceChild(RootRef(ExampleData, AnySchema).value, 1).Ok?
    ensures var item := SequenceChild(RootRef(ExampleData, AnySchema).value, 1).value;
      MappingChild(item, StrKey("1a")).Ok?
      && var leaf := MappingChild(item, StrKey("1a")).value;
      leaf.node == Int(4)
      && PathText(DataPath(leaf)) == "[1][\"1a\"]"
      && FullIndex(leaf) == "json_root.1.1a"
  {
    ExampleRootItem();
    PathExampleFromItem(SequenceChild(RootRef(ExampleData, AnySchema).value, 1).value);
  }

  /** The leaf of the example, reached from item 1. */
  lemma PathExampleFromItem(item: Ref)
    requires item.node == Arr([Entry(StrKey("1a"), Int(4))]) && item.schemaRef.node == Specialize(AnySchema, item.node)
    requires DataPath(item) == [IntKey(1)] && FullIndex(item) == "json_root.1"
    ensures MappingChild(item, StrKey("1a")).Ok?
    ensures var leaf := MappingChild(item, StrKey("1a")).value;
      leaf.node == Int(4) && PathText(DataPath(leaf)) == "[1][\"1a\"]" && FullIndex(leaf) == "json_root.1.1a"
  {
    PathExampleLeaf(item);
    var leaf := MappingChild(item, StrKey("1a")).value;
    assert DataPath(leaf) == [IntKey(1), StrKey("1a")];
    PathExampleText();
    PathExampleIndex();
  }

  lemma PathExampleIndex()
    ensures "json_root.1" + ".1a" == "json_root.1.1a"
  {
  }

  /** Item 1 of the example data, reached from the root. */
  lemma ExampleRootItem()
    ensures RootRef(ExampleData, AnySchema).Ok?
    ensures SequenceChild(RootRef(ExampleData, AnySchema).value, 1).Ok?
    ensures var item := SequenceChild(RootRef(ExampleData, AnySchema).value, 1).value;
      item.node == Arr([Entry(StrKey("1a"), Int(4))]) && item.schemaRef.node == Specialize(AnySchema, item.node)
      && DataPath(item) == [IntKey(1)] && FullIndex(item) == "json_root.1"
  {
    AnyRoot(ExampleData, AnySchema);
    var root := RootRef(ExampleData, AnySchema).value;
    assert TitleFromNode(AnySchema, "Root node") == "Root node";
    assert TypeOf(root.node) == Some(SeqType);
    ExampleItem1();
    PathExampleItem(root, Arr([Entry(StrKey("1a"), Int(4))]));
  }

  lemma ExampleItem1()
    ensures Lookup(ExampleData, IntKey(1)) == Arr([Entry(StrKey("1a"), Int(4))])
  {
    var es := ExampleData.entries;
    assert es[0].key != IntKey(1);
    assert Find(es, IntKey(1)) == Find(es[1..], IntKey(1));
    assert es[1..][0] == Entry(IntKey(1), Arr([Entry(StrKey("1a"), Int(4))]));
  }

  lemma PathExampleText()
    ensures PathText([IntKey(1), StrKey("1a")]) == "[1][\"1a\"]"
  {
    assert [IntKey(1), StrKey("1a")][..1] == [IntKey(1)];
    assert Escape("1a") == "1a";
  }

  lemma PathExampleItem(root: Ref, x: Value)
    requires root.Root? && root.name == Some(StrKey("Root node")) && TypeOf(root.node) == Some(SeqType)
    requires root.schemaRef.node == Specialize(AnySchema, root.node)
    requires Lookup(root.node, IntKey(1)) == x
    ensures SequenceChild(root, 1).Ok?
    ensures var item := SequenceChild(root, 1).value;
      item.node == x && item.schemaRef.node == Specialize(AnySchema, x)
      && DataPath(item) == [IntKey(1)] && FullIndex(item) == "json_root.1"
      && DataPathTitles(item) == "Root node -> Item #2"
  {
    AnySeqChild(root, AnySchema, 1);
    var item := SequenceChild(root, 1).value;
    assert item.parent == root && item.index == IntKey(1);
    assert DecimalText(2) == "2";
    assert Title(root) == "Root node" && Title(item) == "Item #" + "2";
    assert KeyId(IntKey(1)) == "1";
    assert "Item #" + "2" == "Item #2";
    assert "Root node" + " -> " + "Item #2" == "Root node -> Item #2";
    assert "json_root" + "." + "1" == "json_root.1";
  }

  lemma PathExampleLeaf(item: Ref)
    requires item.node == Arr([Entry(StrKey("1a"), Int(4))])
    requires item.schemaRef.node == Specialize(AnySchema, item.node)
    ensures MappingChild(item, StrKey("1a")).Ok?
    ensures var leaf := MappingChild(item, StrKey("1a")).value;
      leaf.node == Int(4) && DataPath(leaf) == DataPath(item) + [StrKey("1a")]
      && FullIndex(leaf) == FullIndex(item) + ".1a"
      && DataPathTitles(leaf) == DataPathTitles(item) + " -> 1a"
  {
    assert !item.node.entries[0].key.IntKey?;
    AnyMapChild(item, AnySchema, StrKey("1a"));
    var leaf := MappingChild(item, StrKey("1a")).value;
    assert Lookup(item.node, StrKey("1a")) == Int(4);
    LeafPosition(item, leaf);
  }

  /** Where a child named by its key "1a" sits, seen from its parent. */
  lemma LeafPosition(item: Ref, leaf: Ref)
    requires leaf.Child? && leaf.parent == item && leaf.index == StrKey("1a") && leaf.name == Some(StrKey("1a"))
    ensures DataPath(leaf) == DataPath(item) + [StrKey("1a")]
    ensures FullIndex(leaf) == FullIndex(item) + ".1a"
    ensures DataPathTitles(leaf) == DataPathTitles(item) + " -> 1a"
  {
    assert KeyId(StrKey("1a")) == "1a" && Title(leaf) == "1a";
  }
}
