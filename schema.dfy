/**
 * Schema nodes as the component reads them. A schema is a decoded JSON
 * object; only the members the component looks at are kept, each present
 * or absent.
 */
module Schemas {
  import opened Wrappers
  import opened Values

  /**
   * A schema node: `type`, `mapping` (member name to member schema) and
   * `user_key` of a map, `sequence` (the item schema first) of a seq,
   * `id` and `idref` for shared subschemas, and `title`. An absent
   * `mapping` or `sequence` is empty.
   */
  datatype Schema = Schema(
    ty: Option<string>,
    mapping: seq<Entry<Schema>>,
    userKey: Option<string>,
    sequence: seq<Schema>,
    id: Option<string>,
    idref: Option<string>,
    title: Option<string>)

  const MapType: string := "map"
  const SeqType: string := "seq"
  const NumberType: string := "number"
  const IntType: string := "int"
  const StrType: string := "str"
  const BoolType: string := "bool"
  const AnyType: string := "any"
  const IdrefType: string := "idref"

  /** What PHP reads for a schema that is not there: every member absent. */
  const NullSchema: Schema := Schema(None, [], None, [], None, None, None)

  /** `array('type' => $t)`. */
  function TypeNode(t: string): (s: Schema)
    ensures s.ty == Some(t) && s.mapping == [] && s.sequence == []
  {
    NullSchema.(ty := Some(t))
  }

  /** `$schema['mapping'][$k]`: the member schema, or the null schema. */
  function MemberSchema(s: Schema, k: Key): Schema {
    Find(s.mapping, k).GetOr(NullSchema)
  }

  /** `$schema['sequence'][0]`: the item schema, or the null schema. */
  function ItemSchema(s: Schema): Schema {
    if |s.sequence| > 0 then s.sequence[0] else NullSchema
  }

  /**
   * A `TreeRef`: a schema node together with the position in the data it
   * is attached to (its parent and the key or index it sits under).
   */
  datatype TreeRef = TreeRef(node: Schema, parent: Option<TreeRef>, index: Option<Key>, name: Option<Key>)

  /** A measure on schemas that every member and item schema makes smaller. */
  function SchemaSize(s: Schema): nat
    decreases s, 2
  {
    1 + MappingSize(s, |s.mapping|) + SequenceSize(s, |s.sequence|)
  }

  function MappingSize(s: Schema, n: nat): nat
    requires n <= |s.mapping|
    decreases s, 1, n
  {
    if n == 0 then 0 else MappingSize(s, n - 1) + SchemaSize(s.mapping[n - 1].val)
  }

  function SequenceSize(s: Schema, n: nat): nat
    requires n <= |s.sequence|
    decreases s, 0, n
  {
    if n == 0 then 0 else SequenceSize(s, n - 1) + SchemaSize(s.sequence[n - 1])
  }

  lemma {:induction false} MappingSizeBound(s: Schema, n: nat, i: nat)
    requires i < n <= |s.mapping|
    ensures SchemaSize(s.mapping[i].val) <= MappingSize(s, n)
  {
    if i < n - 1 {
      MappingSizeBound(s, n - 1, i);
    }
  }

  lemma {:induction false} SequenceSizeBound(s: Schema, n: nat, i: nat)
    requires i < n <= |s.sequence|
    ensures SchemaSize(s.sequence[i]) <= SequenceSize(s, n)
  {
    if i < n - 1 {
      SequenceSizeBound(s, n - 1, i);
    }
  }

  /** Member and item schemas are smaller than the schema holding them. */
  lemma ChildrenSmaller(s: Schema)
    ensures forall i :: 0 <= i < |s.mapping| ==> SchemaSize(s.mapping[i].val) < SchemaSize(s)
    ensures forall i :: 0 <= i < |s.sequence| ==> SchemaSize(s.sequence[i]) < SchemaSize(s)
  {
    forall i | 0 <= i < |s.mapping| ensures SchemaSize(s.mapping[i].val) < SchemaSize(s) {
      MappingSizeBound(s, |s.mapping|, i);
    }
    forall i | 0 <= i < |s.sequence| ensures SchemaSize(s.sequence[i]) < SchemaSize(s) {
      SequenceSizeBound(s, |s.sequence|, i);
    }
  }
}
