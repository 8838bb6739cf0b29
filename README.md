# JsonSchema: a verified model of the JsonData schema core

This project is a Dafny model of `JsonSchema.php` from the MediaWiki JsonData
extension. That file is a small schema-driven validator and navigator for
decoded JSON data. Its schemas use a compact vocabulary: `map`, `seq`,
`number`, `int`, `str`, `bool`, `any` and `idref`.

It has four parts:

- **`JsonUtil`**: helpers that
  - turn keys into HTML-safe ids (`stringToId`);
  - give the empty value of a type (`getNewValueForType`);
  - classify data (`getType`);
  - infer a schema from an example value (`getSchemaArray`).
- **`JsonSchemaIndex`**: indexes every schema node that carries an `id` and
  resolves `idref` nodes through that table (`newRef`).
- **`TreeRef`**: a schema node together with its parent, index and name.
- **`JsonTreeRef`**: a data node seen through its schema. It provides:
  - its title, data path, path titles and full index;
  - its children, made on demand through the map's members, the map's user
    key (a wildcard member) or the seq's single item schema;
  - the `any` rewrite, which makes an `any` schema accept whatever lies
    below it;
  - renaming a key in place;
  - recursive validation that stops at the first failure.

The modules follow the source:

| file | module | models |
|---|---|---|
| `wrappers.dfy` | `Wrappers` | `Option`, `Result` |
| `values.dfy` | `Values` | decoded JSON as PHP holds it: scalars and ordered arrays with integer or string keys; array reads, writes and `unset`; the exceptions |
| `json_text.dfy` | `JsonText` | `(string)$int`, `json_encode` of array keys, and a reader that parses both back |
| `schema.dfy` | `Schemas` | schema nodes and `TreeRef` |
| `json_util.dfy` | `JsonUtil` | the `JsonUtil` class |
| `schema_index.dfy` | `SchemaIndex` | the `JsonSchemaIndex` class, as a Dafny class whose `idtable` its methods update |
| `tree_ref.dfy` | `TreeRefs` | `JsonTreeRef`: an immutable chain of refs, the child constructors, paths and titles, and `renamePropname` as a class that mutates the parent's array |
| `validation.dfy` | `Validation` | `validate`: loops over members and items, specified by a recursive function |

The exceptions the PHP code throws are values here: `Result`, and
`Outcome` for `validate`. Each loop in the source is a Dafny `method` with
invariants: `GetType`, `GetSchemaArray`, `IndexSubtree`,
`GetDataPathAsString`, and `Validate` with its member and item loops. Each
method is proved equal to a specification function, and the promised
properties are then proved about that function.

Where the code has a defect, the main chain of the model follows what the
code evidently intends: `NodeType`, `FullIndex`, `SchemaFromExample`,
`Resolve`, and through `Resolve` also `RootRef`, `MappingChild` and
`SequenceChild`. The child constructors also store the user-key flag.
Each defect is modelled as written by a separate member whose name ends in
`AsWritten` (see Findings). Everywhere else the model follows the code,
including these behaviours:

- `indexSubtree` registers a node after its children
  (JsonSchema.php:417-436), so an ancestor's `id` wins over a descendant's.
- `getMappingChildRef` and `getSequenceChildRef` never check that the data
  has the key (JsonSchema.php:331, :346). A missing member reads as null,
  so there is no "missing data key" error.
- `getMappingChildRef` looks the key up in the mapping with
  `array_key_exists` and reads the data as `$this->node[$key]` (JsonSchema.php:316-331).
  Both cast a string that spells a 64-bit integer to that integer, so the
  model looks up `OffsetKey(key)` in both places, and the child keeps the
  key as given for its index and name.
- The constructor runs `attachSchema` for every ref that is made with a
  schema ref, not only for the root (JsonSchema.php:169-171). So the `any`
  rewrite happens at every level.
- The rewrite changes the `node` array of a freshly made `TreeRef`. PHP
  arrays are values, so the rewrite is not visible through the index or
  through other refs. The model applies it as a pure function (`Specialize`)
  to the new ref's schema.
- `newRef` wraps the idtable lookup in a `try` whose `catch` throws
  "Bad idref" (JsonSchema.php:444-449). A missing array key raises only a
  notice, so the code as written never throws it and the ref gets no
  schema (`ResolveAsWritten`). `Resolve` throws it, as the `catch` is
  written for.

## Model

| member | source | states |
|---|---|---|
| Values.Find | JsonSchema.php:331 | reading `$a[$k]` finds a value exactly when some slot holds `k`, and the value found sits in such a slot |
| Values.KeyList | JsonSchema.php:374 | the keys `foreach` visits are the array's keys, one per slot, in slot order |
| Values.SetKey | JsonSchema.php:231 | `$a[$k] = $x` keeps every existing slot's key in place and adds a slot only when `k` was missing |
| Values.Unset | JsonSchema.php:235 | after `unset($a[$k])` no slot holds `k`, and the array does not grow |
| Values.SetKeyFind | JsonSchema.php:231 | after `$a[$k] = $x`, `k` reads as `x` and every other key reads as before |
| Values.UnsetFind | JsonSchema.php:235 | after `unset($a[$k])`, `k` is missing and every other key reads as before |
| Values.SetKeyKeys | JsonSchema.php:231 | after the write, the array's keys are the old keys plus `k` |
| Values.SetKeyUnique | JsonSchema.php:231 | a write keeps the keys of an array unique |
| Values.SetKeyLast | JsonSchema.php:231 | a key that was missing is appended as the last slot |
| Values.UnsetUnique | JsonSchema.php:235 | `unset` keeps the keys of an array unique |
| Values.LookupSmaller | JsonSchema.php:331 | the child value a ref is made for is strictly smaller than its parent's data, so the recursive walks end |
| JsonText.NatText | JsonSchema.php:27 | `(string)$n` of a natural number is a nonempty run of digits, with a leading zero exactly when `n` is 0 |
| JsonText.DecimalRoundTrip | JsonSchema.php:27 | the decimal text of every integer, negative ones included, reads back as that integer |
| JsonText.DecimalTextChars | JsonSchema.php:27 | the decimal text of an integer has only digits, plus a leading minus sign for a negative one |
| JsonText.ArrayKey | JsonSchema.php:320 | the key PHP stores a string under converts back to that same string; it is an integer key exactly when the string is the canonical decimal text of an integer in PHP's 64-bit range, so "1" becomes the key 1 while a decimal beyond `PHP_INT_MAX` stays a string |
| JsonText.OffsetKey | JsonSchema.php:231 | the key `$a[$k]` uses for an index: an integer as itself, a string through the key cast, with the same text either way |
| JsonText.EscapeCharRoundTrip | JsonSchema.php:294 | the `json_encode` escape of any character, `\u` surrogate pairs included, reads back as that character |
| JsonText.EscapeRoundTrip | JsonSchema.php:294 | the encoding of any string key between quotes reads back as the string, stopping at the closing quote |
| JsonText.SegmentRoundTrip | JsonSchema.php:294 | one `[<json_encode(key)>]` step reads back as its key, whatever text follows |
| JsonText.PathRoundTrip | JsonSchema.php:291-297 | a whole data-path string parses back to the path it was made from, so different paths give different strings |
| JsonText.PlainStringEncoding | JsonSchema.php:294 | printable ASCII without `"`, `\` or `/` is written unchanged between the quotes, as the `["1a"]` of the example shows |
| JsonText.Escape | JsonSchema.php:294 | the characters between the quotes of `json_encode`'s string literal: never shorter than the string, and empty only for the empty string |
| JsonText.EncodeKey | JsonSchema.php:294 | `json_encode` of a key starts with a quote exactly when the key is a string, so integer and string keys never encode alike |
| JsonUtil.KeepIdChars | JsonSchema.php:31 | stripping leaves only letters, digits, `-`, `_`, `:` and `.`, and never lengthens the string |
| JsonUtil.StringToId | JsonSchema.php:25-36 | `stringToId` succeeds exactly on integers and strings, gives an id made only of id characters, and otherwise fails with "Cannot convert var to id" naming the value |
| JsonUtil.KeepIdCharsConcat | JsonSchema.php:31 | the `preg_replace` works character by character: stripping distributes over concatenation |
| JsonUtil.KeepIdCharsOfId | JsonSchema.php:31 | a string that is already an id is left unchanged |
| JsonUtil.StringToIdIdempotent | JsonSchema.php:25-36 | converting an id a second time changes nothing |
| JsonUtil.IntIdRoundTrip | JsonSchema.php:26-28 | integer ids lose nothing: the id reads back as the same integer |
| JsonUtil.KeyId | JsonSchema.php:266 | `stringToId` of an array key never throws, and the result is what `stringToId` returns |
| JsonUtil.TypeOf | JsonSchema.php:71-101 | `getType` never reports `int`, `any` or `idref` for data |
| JsonUtil.GetType | JsonSchema.php:71-101 | the key scan returns null exactly for null, `seq` for an array exactly when every key is an integer and `map` otherwise, and `number` for integers and doubles |
| JsonUtil.NewValueForType | JsonSchema.php:42-66 | `map` and `seq` give the empty array, `number` and `int` give 0, `str` gives "", and `bool` gives false, each a value of that type; the value is null exactly for an unknown or missing type |
| JsonUtil.SchemaFromExample | JsonSchema.php:106-124 | the inferred schema has the example's type, one member per key of a map (same keys, same order) and exactly one item schema for a seq |
| JsonUtil.GetSchemaArray | JsonSchema.php:106-124 | the `foreach` over the map example's members, with a recursive call per member, returns the schema `SchemaFromExample` describes |
| JsonUtil.SchemaFromExampleAsWritten | JsonSchema.php:106-124 | the code as written still reports the example's type |
| JsonUtil.MapExampleAsWritten | JsonSchema.php:110-114 | for `{"a": "b"}` the code as written infers a member "b" with no type, where the intended schema has member "a" of type `str` |
| JsonUtil.MembersAsWritten | JsonSchema.php:112-113 | as written, every member name of the inferred mapping is one of the example's values used as an array key, not one of its keys |
| JsonUtil.ExampleMember | JsonSchema.php:112-113 | in an inferred map schema, the member under `k` exists exactly when the example has `k`, and is the schema inferred from that member's value |
| JsonUtil.TitleFromNode | JsonSchema.php:180-181 | a schema's title when it has one, else the default ("Root node" for a root) |
| Schemas.ChildrenSmaller | JsonSchema.php:417-432 | every member and item schema is smaller than its parent, so indexing ends |
| SchemaIndex.Children | JsonSchema.php:417-432 | every schema indexing descends into from a node is smaller than that node |
| SchemaIndex.PostOrder | JsonSchema.php:417-436 | the order in which indexing finishes nodes ends with the node itself, after everything below it |
| SchemaIndex.RecordAllMeaning | JsonSchema.php:433-435 | after a series of registrations, an id is present exactly when it was present before or some registered node carries it; it then maps to the last such node, or else keeps its old node |
| SchemaIndex.TableOf | JsonSchema.php:402-436 | the table the index builds stores every node under its own `id` |
| SchemaIndex.TableOfMeaning | JsonSchema.php:402-436 | the built table holds exactly the ids carried by nodes reachable through map and seq branches, each mapped to the last such node in post-order |
| SchemaIndex.RootIdWins | JsonSchema.php:433-435 | the root is registered last, so its own id always names the root |
| SchemaIndex.UniqueIdsResolve | JsonSchema.php:402-436 | when no two reachable nodes share an id, every reachable node with an id is found under that id |
| SchemaIndex.Resolve | JsonSchema.php:442-453 | `newRef` keeps parent, index and name; it passes a non-idref node through; it replaces an idref node by the node registered under its idref, and fails with "Bad idref" exactly when none is registered |
| SchemaIndex.ResolveAsWritten | JsonSchema.php:443-449 | as written, a dangling idref yields a ref to no schema instead of an exception; otherwise it agrees with `Resolve` |
| SchemaIndex.ResolveFindsId | JsonSchema.php:442-449 | against the table of a whole schema, an idref resolves exactly when some reachable node carries its id, whether that node comes before or after the idref, and it resolves to such a node |
| SchemaIndex.JsonSchemaIndex.constructor | JsonSchema.php:402-411 | the index keeps the schema as its root; its table is the whole tree's table, or empty for a missing schema |
| SchemaIndex.JsonSchemaIndex.IndexSubtree | JsonSchema.php:417-436 | the recursive walk registers every node below `node` in post-order on top of the old table |
| SchemaIndex.JsonSchemaIndex.NewRef | JsonSchema.php:442-453 | the method returns what `Resolve` returns against the index's table |
| TreeRefs.NodeType | JsonSchema.php:242-255 | the ref's type is the schema's type, except that `any` takes the data's type |
| TreeRefs.Specialize | JsonSchema.php:187-199 | the rewrite keeps type, id, idref and title. It changes only `any` schemas on map or seq data: map data gets the single member "extension" of type `any` as its user key; seq data gets an `any` item schema and the user key "extension" |
| TreeRefs.NewChild | JsonSchema.php:161-172 | a child ref keeps its data, parent, index and name; it carries the resolved schema with the `any` rewrite applied, shares its parent's index, and records the user-key flag |
| TreeRefs.RootRef | JsonSchema.php:177-199 | attaching a schema gives a root over the data, named after the schema's title or "Root node", whose table is the schema's whole table; its schema ref has no parent or index, carries the root's name, and is the schema (resolved through the table when it is an idref) with the `any` rewrite for the data. It fails exactly when the schema is an idref nobody registered, with "Bad idref" |
| TreeRefs.AttachSchema | JsonSchema.php:177-202 | building the index object and calling `newRef` gives the same root as `RootRef` |
| TreeRefs.Title | JsonSchema.php:208-216 | a ref with a name is titled by that name |
| TreeRefs.MadeRefTitles | JsonSchema.php:208-216 | every ref that `attachSchema`, `getMappingChildRef` and `getSequenceChildRef` make has a name, so its title is the schema's title or "Root node", the member schema's title or the key, or "<item title or Item> #<i+1>" |
| TreeRefs.IsUserKey | JsonSchema.php:221-223 | a root is never a user key |
| TreeRefs.MadeRefUserKeys | JsonSchema.php:221-223 | a map child is a user key exactly when the schema has a user key and its mapping lacks the key (cast as an array offset); items and roots never are |
| TreeRefs.FullIndex | JsonSchema.php:262-268 | every full index begins with "json_root" |
| TreeRefs.DataPath | JsonSchema.php:274-282 | a root has the empty path; a child's path is its parent's path followed by its own index |
| TreeRefs.DataPathLoads | JsonSchema.php:270-282 | following the data path from the root's data (`$foo['a'][1]` for the path `array('a', 1)`) loads this ref's data, for every chain of refs made as the child constructors make them |
| TreeRefs.MadeRefsLoad | JsonSchema.php:331-346 | `attachSchema`, `getMappingChildRef` and `getSequenceChildRef` make refs that hold the data their parent holds under their index, so `DataPathLoads` applies to every ref they build |
| TreeRefs.RootOf | JsonSchema.php:274-282 | the chain of parents ends at a root |
| TreeRefs.Ancestors | JsonSchema.php:303-310 | the refs from the root down: one root, then one ref per step of the data path, each the child of the previous under that step's key |
| TreeRefs.DataPathTitlesJoin | JsonSchema.php:303-310 | the path titles are the titles of the root and of each ref below it down to this one, joined by " -> " |
| TreeRefs.FullIndexIsPath | JsonSchema.php:262-268 | the full index is "json_root" followed by `.<stringToId(key)>` for each key of the data path |
| TreeRefs.GetDataPathAsString | JsonSchema.php:291-297 | the loop builds `[<json_encode(k1)>][<json_encode(k2)>]...` over the data path |
| TreeRefs.PathStringIdentifies | JsonSchema.php:291-297 | two refs with the same path string sit at the same data path |
| TreeRefs.MemberFor | JsonSchema.php:316-330 | the mapping is searched with the key cast as PHP casts an array offset ("5" finds member 5); a key missing from the mapping goes to the user key's schema, with the user-key flag, when there is a user key; a listed key goes to its own schema; any other key fails with "Invalid key", the uncast key and the path titles |
| TreeRefs.MappingChild | JsonSchema.php:315-336 | the child sits under `key` below this ref and holds the data `$node[$key]` finds, the key cast as an array offset, while the uncast key stays its index; its user-key flag is the one `MemberFor` gave; it is named by the member schema's title, else the key; it shares this ref's id table; its schema ref sits under this ref's schema ref at `key` and is the member schema, resolved through the id table when it is an idref, with the `any` rewrite for the child's data. It fails with "Invalid key" when `MemberFor` does and otherwise exactly when the member schema is an idref nobody registered, with "Bad idref" |
| TreeRefs.SequenceChild | JsonSchema.php:341-348 | item `i` holds the data at index `i`, is not a user key, and is named "<item title or Item> #<i+1>"; it shares this ref's id table; its schema ref sits under this ref's schema ref at index 0 with name `i` and is `sequence[0]`, resolved when it is an idref, with the `any` rewrite for the item's data. It fails exactly when `sequence[0]` is an idref nobody registered, with "Bad idref" |
| TreeRefs.AnyMapChild | JsonSchema.php:315-336 | under a rewritten `any` map, every key gets a child. The child is named by its key and checked against `any` again, and it is a user key exactly when the key is not "extension" |
| TreeRefs.AnySeqChild | JsonSchema.php:341-348 | under a rewritten `any` seq, every index gets a child, titled "Item #<i+1>" and checked against `any` again |
| TreeRefs.RenameMoves | JsonSchema.php:229-236 | renaming to a different key puts the value under the new key, removes the old key and leaves every other key as it was |
| TreeRefs.RenameToSelfDeletes | JsonSchema.php:229-236 | renaming a key to itself deletes it, because the final `unset` removes what was just written |
| TreeRefs.RenameUnique | JsonSchema.php:231-235 | renaming keeps the parent's keys unique |
| TreeRefs.EditableRef.constructor | JsonSchema.php:229-230 | the editable view holds the parent's array, this ref's data, index and name, and the full indexes of parent and ref |
| TreeRefs.EditableRef.RenamePropname | JsonSchema.php:229-236 | the parent's array becomes the rename of the old one, storing under the key cast of the new index and removing the key cast of the old one; index and name become the new index as given; the full index is recomputed from it |
| TreeRefs.NumericStringMember | JsonSchema.php:315-336 | asked for the decimal text of a 64-bit integer n, `getMappingChildRef` takes the member n of the mapping and the data stored under the integer key n, not the user key, and keeps the string as the child's index and name |
| TreeRefs.RenameToNumericString | JsonSchema.php:229-236 | renaming to the string "5" stores the data under the integer key 5 and removes the old key, while the ref's index stays the string "5" |
| TreeRefs.NodeTypeAsWritten | JsonSchema.php:245-247 | as written, an `any` schema reports no type for every loosely-null value |
| TreeRefs.LooseNullHidesType | JsonSchema.php:245-250 | 0, 0.0, "", false and [] have a type, which the intended `getType` reports and the code as written hides |
| TreeRefs.FullIndexAsWritten | JsonSchema.php:262-268 | with `+` as numeric addition, a root gives the string "json_root" and every other ref a number |
| TreeRefs.FullIndexAsWrittenIsZero | JsonSchema.php:266 | as written, every ref below the root on a path of digit-free ids has full index 0 |
| TreeRefs.SiblingFullIndexesDiffer | JsonSchema.php:262-268 | with concatenation, siblings whose keys give different ids have different full indexes |
| TreeRefs.SiblingsCollideAsWritten | JsonSchema.php:266 | the root's members "a" and "b" both get full index 0 as written, and "json_root.a" and "json_root.b" when concatenated |
| TreeRefs.UserKeyFlagLost | JsonSchema.php:221-223 | a key taken through the user-key wildcard is a user key, which `isUserKey` as written never reports |
| TreeRefs.AnyRoot | JsonSchema.php:177-199 | attaching an `any` schema never fails, and the root carries its rewrite for the data |
| TreeRefs.PathExample | JsonSchema.php:284-289 | for `[{"0a":1,"0b":{"0ba":2,"0bb":3}},{"1a":4}]` under `any`, the leaf 4 is item 1 then key "1a", with path string `[1]["1a"]` and full index "json_root.1.1a" |
| Validation.CheckedType | JsonSchema.php:355-365 | against a map schema, seq data counts as a map; against an int schema, a number counts as an int exactly when `(int)` leaves it equal, that is an integer or a whole double inside PHP's 64-bit range, so a double beyond that range stays a number; a map or seq result is always array data |
| Validation.Coerced | JsonSchema.php:357-365 | the data type is changed only by the two coercions: seq to map, and a number that `(int)` leaves equal (a whole double in the 64-bit range) to int |
| Validation.ValidateSpec | JsonSchema.php:354-387 | a type mismatch always fails with a type-mismatch error; data whose schema type is neither `map` nor `seq` passes exactly when the types agree |
| Validation.Validate | JsonSchema.php:354-387 | the method returns what `ValidateSpec` returns: the type check, then each member or item in order, stopping at the first failure |
| Validation.ValidateMembers | JsonSchema.php:373-378 | the `foreach` returns the walk over the data's keys in order |
| Validation.ValidateMember | JsonSchema.php:375-376 | one pass of the `foreach` gives the member's outcome: its child's error, or the child's own validation |
| Validation.ValidateItems | JsonSchema.php:379-384 | the `for` returns the walk over indices `0 .. count-1` |
| Validation.ValidateItem | JsonSchema.php:381-382 | one pass of the `for` gives the item's outcome |
| Validation.KeysFailFast | JsonSchema.php:373-378 | once a prefix of the keys fails, the whole walk fails with the same error |
| Validation.IndicesFailFast | JsonSchema.php:379-384 | once a prefix of the indices fails, the whole walk fails with the same error |
| Validation.KeysPass | JsonSchema.php:373-378 | the walk over keys passes exactly when every key's child validates |
| Validation.KeysFirstFailure | JsonSchema.php:373-378 | a failing walk reports the error of the first key whose child fails; all earlier keys pass |
| Validation.IndicesPass | JsonSchema.php:379-384 | the walk over items passes exactly when every item validates |
| Validation.IndicesFirstFailure | JsonSchema.php:379-384 | a failing walk reports the error of the first failing item; all earlier items pass |
| Validation.MismatchReported | JsonSchema.php:366-371 | a type mismatch fails with the schema type, the data type ("null" for none) and the path titles |
| Validation.IntCoercion | JsonSchema.php:361-370 | against an int schema 4.0 passes, while 4.5 and 1e19 (whole, but beyond `PHP_INT_MAX`) fail as a number |
| Validation.DefaultValidates | JsonSchema.php:42-66 | the default value of each type validates against a schema of that type |
| Validation.AnyAcceptsAll | JsonSchema.php:187-199 | any data validates, all the way down, against a rewritten `any` schema |
| Validation.AnyRootValidates | JsonSchema.php:177-199 | attaching an `any` schema to any data gives a root that validates |
| Validation.ExampleMapChild | JsonSchema.php:112-113 | the member schema of an inferred map schema is the schema inferred from that member, for every key a PHP array can hold |
| Validation.ExampleSeqChild | JsonSchema.php:117-119 | for uniform data, every item's schema is the schema inferred from that item |
| Validation.ExampleValidates | JsonSchema.php:106-124 | a value validates against the schema inferred from it, when each list's items share the shape of the first and its keys are keys a PHP array can hold |
| Validation.PlainRoot | JsonSchema.php:177-187 | a schema that is neither `any` nor an idref is attached unchanged |
| Validation.ExampleRootValidates | JsonSchema.php:106-124 | attaching the schema inferred from uniform data, whose keys a PHP array can hold, gives a root that validates |
| Validation.ExampleAsWrittenRejects | JsonSchema.php:110-114 | the schema the code as written infers for `{"a": "b"}` rejects that very value with "Invalid key a in Root node" |
| Validation.TypeCheckAsWritten | JsonSchema.php:354-371 | as written, the opening type check fails exactly when the coerced data type differs from the loosely computed schema type |
| Validation.FalsyRejectedAsWritten | JsonSchema.php:245-247 | under `any`, a value loosely equal to null but not null fails as written with "expecting , got <type>", while the intended validation passes |
| Validation.ZeroMemberRejectedAsWritten | JsonSchema.php:246 | `{"a": 0}` under `any`: the member 0 fails as written with "expecting , got number" at "Root node -> a"; the intended validation passes |
| Validation.SimpleTestFacts | tests/phpunit/testJsonSchema.php:17-33 | the unrestricted schema is titled "Unrestricted JSON" and keeps type `any` at the root, as the test asserts; that the test data validates is a further fact of the model, which the test does not check |

## Left out

- Parsing JSON text (`json_decode`) is left out: data and schemas enter the model already decoded.
- Doubles are exact reals. Rounding in PHP's double arithmetic is not modelled; the one place a double meets the 64-bit int range, the `(int)` cast of the int coercion, is modelled by `IsIntegral`.
- Values are not required to have PHP array keys: the model can write a string key such as "5" that a PHP array would hold as the integer 5. `ArrayKeyed` names the values a PHP array can hold, and the lemmas about inferred schemas (`ExampleMapChild`, `ExampleValidates`, `ExampleRootValidates`) are stated for those.
- Exception messages are not modelled as strings. Each exception is a `SchemaError` that carries what its message shows: the value, the idref, the key and path titles, or the two types and the path titles. The `print_r` text in "Cannot convert var to id" is not modelled.
- JsonSchema.php:161-172: a root made with the constructor and a schema ref is not modelled. Such a root has no `schemaindex`, so making its children would call `newRef` on null. The model builds roots only through `attachSchema($schema)` (`RootRef`). The unit test at tests/phpunit/testJsonSchema.php:17-25 builds its root this way. `SimpleTestFacts` states the test's title and type facts for the root `attachSchema($schema)` makes from the same schema, which gets the same name.
- The `datapath` field the constructor sets is never read and is not modelled.
- The tests call `JsonUtil::getTitleFromNode`, which `JsonSchema.php` does not define. `TitleFromNode` gives it the meaning the tests check, which is also the one `attachSchema` uses at JsonSchema.php:180-181.
- Data other than `json_decode` output (objects, resources) is not modelled. It cannot occur in decoded JSON data.
- Title: a data `title` member that is a float, bool or array is returned by PHP as that value. The model's titles are strings, so it falls back to the key instead. A string node's `title` offset is not modelled either.
- Title: the contract states only the named case. The fallbacks (data title, then key, then nothing) are in its body and are not stated as a property. `MadeRefTitles` shows that every ref the model builds has a name, so the fallbacks are not reached there.
- DataPathTitles: it carries no contract of its own. Its meaning is stated by `DataPathTitlesJoin`.
- The model assumes PHP 7. There, `array_key_exists` and `foreach` on a missing `mapping` or `sequence` read it as empty, which is how the model reads an absent member (schema.dfy). PHP 8 raises a TypeError or a warning there instead, and that is not modelled.
- SchemaFromExample, GetSchemaArray: each member of a map example is added at the end of the mapping. This is PHP's keyed store, because the keys of a decoded array are distinct.
- FullIndexAsWritten: models PHP 7's `+` only for ids without digits, which read as 0. Numeric-prefixed ids, and the TypeError PHP 8 raises, are not modelled.
- SchemaFromExampleAsWritten: its contract states only the type. What it infers is shown on one example (`MapExampleAsWritten`, `ExampleAsWrittenRejects`).
- JsonData_body.php and LocalSettings_example.php (the MediaWiki page-rendering and configuration glue) are not part of this model.

## Findings

| source | as written | input that shows it | evidently intended | confidence | as-written member | corrected member |
|---|---|---|---|---|---|---|
| JsonSchema.php:266 | `getFullIndex` joins with `+`, which is numeric addition in PHP | the root's members "a" and "b": both get full index 0 (PHP 7) | string concatenation (`.`), giving "json_root.a" and "json_root.b" | high, not executed | TreeRefs.SiblingsCollideAsWritten | TreeRefs.SiblingFullIndexesDiffer |
| JsonSchema.php:246 | `getType` of a ref tests `$this->node == null`, which is loose | `{"a": 0}` under `{"type": "any"}`: the member 0 fails with "expecting , got number" | `is_null($this->node)`, so that `any` accepts 0, "", false and [] | high, not executed | Validation.ZeroMemberRejectedAsWritten | Validation.AnyAcceptsAll |
| JsonSchema.php:221-223 | `isUserKey` returns `$this->userkeyflag`, which is never assigned; the flag computed at JsonSchema.php:318 and :323 is a local that is dropped | any key taken through the user key, such as "other" under `user_key` "ext" | the flag is stored on the child ref | high, not executed | TreeRefs.UserKeyFlagLost | TreeRefs.AnyMapChild |
| JsonSchema.php:444-449 | reading a missing `idtable` key raises a notice, not an exception, so the `catch` never runs | an idref "x" with no node carrying id "x": the ref gets a null schema | a "Bad idref" exception | high, not executed | SchemaIndex.ResolveAsWritten | SchemaIndex.ResolveFindsId |
| JsonSchema.php:112-113 | `foreach ($parent as $name)` iterates the values and uses each one as a member name | `{"a": "b"}`: the inferred mapping has member "b" with no type, and the example then fails validation with "Invalid key a" | `foreach ($parent as $name => $value)` over the keys | high, not executed | Validation.ExampleAsWrittenRejects | Validation.ExampleRootValidates |
