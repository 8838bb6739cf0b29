/**
 * `JsonSchemaIndex`: the table from schema `id` to schema node that is
 * filled once when the index is created and then used to resolve `idref`
 * nodes while schema refs are made.
 */
module SchemaIndex {
  import opened Wrappers
  import opened Values
  import opened Schemas

  type IdTable = map<string, Schema>

  // ---------------------------------------------------------------------------
  // What indexing visits
  // ---------------------------------------------------------------------------

  /** The schemas `indexSubtree` descends into: the members of a map, the items of a seq. */
  function Children(n: Schema): (cs: seq<Schema>)
    ensures forall i :: 0 <= i < |cs| ==> SchemaSize(cs[i]) < SchemaSize(n)
  {
    ChildrenSmaller(n);
    if n.ty == Some(MapType) then seq(|n.mapping|, i requires 0 <= i < |n.mapping| => n.mapping[i].val)
    else if n.ty == Some(SeqType) then n.sequence
    else []
  }

  /** Every node of the tree below `n` in the order indexing finishes them: children first. */
  function PostOrder(n: Schema): (ns: seq<Schema>)
    ensures |ns| > 0 && ns[|ns| - 1] == n
    decreases SchemaSize(n), 1
  {
    var cs := Children(n);
    PostOrderAll(cs, SchemaSize(n)) + [n]
  }

  /** The post-orders of `cs`, one after the other. */
  function PostOrderAll(cs: seq<Schema>, ghost bound: nat): seq<Schema>
    requires forall i :: 0 <= i < |cs| ==> SchemaSize(cs[i]) < bound
    decreases bound, 0, |cs|
  {
    if cs == [] then [] else PostOrderAll(cs[..|cs| - 1], bound) + PostOrder(cs[|cs| - 1])
  }

  /** The step the indexing makes for one node: a node with an `id` is stored under it. */
  function Register(t: IdTable, n: Schema): IdTable {
    if n.id.Some? then t[n.id.value := n] else t
  }

  /** Registering all of `ns` in order. */
  function RecordAll(t: IdTable, ns: seq<Schema>): IdTable {
    if ns == [] then t else Register(RecordAll(t, ns[..|ns| - 1]), ns[|ns| - 1])
  }

  /** The table an index built from `root` holds: every node in it is stored under its own `id`. */
  function TableOf(root: Schema): (t: IdTable)
    ensures forall x :: x in t ==> t[x].id == Some(x)
  {
    RecordAllKeyed(map[], PostOrder(root));
    RecordAll(map[], PostOrder(root))
  }

  /** Registering keeps every node stored under its own `id`. */
  lemma {:induction false} RecordAllKeyed(t: IdTable, ns: seq<Schema>)
    requires forall x :: x in t ==> t[x].id == Some(x)
    ensures var t' := RecordAll(t, ns); forall x :: x in t' ==> t'[x].id == Some(x)
    decreases |ns|
  {
    if ns != [] {
      RecordAllKeyed(t, ns[..|ns| - 1]);
    }
  }

  lemma {:induction false} RecordAllAppend(t: IdTable, a: seq<Schema>, b: seq<Schema>)
    ensures RecordAll(t, a + b) == RecordAll(RecordAll(t, a), b)
    decreases |b|
  {
    if b != [] {
      assert (a + b)[..|a + b| - 1] == a + b[..|b| - 1];
      assert (a + b)[|a + b| - 1] == b[|b| - 1];
      RecordAllAppend(t, a, b[..|b| - 1]);
    } else {
      assert a + b == a;
    }
  }

  /** Post-order of one more child: the earlier ones, then its own. */
  lemma PostOrderAllStep(cs: seq<Schema>, i: nat, bound: nat)
    requires i < |cs|
    requires forall j :: 0 <= j < |cs| ==> SchemaSize(cs[j]) < bound
    ensures PostOrderAll(cs[..i + 1], bound) == PostOrderAll(cs[..i], bound) + PostOrder(cs[i])
  {
    assert cs[..i + 1][..i] == cs[..i];
  }

  /** The position of the last node of `ns` with id `x`, or -1 when there is none. */
  function LastWithId(ns: seq<Schema>, x: string): (j: int)
    ensures -1 <= j < |ns|
    ensures j >= 0 ==> ns[j].id == Some(x)
    ensures forall l :: j < l < |ns| ==> ns[l].id != Some(x)
  {
    if ns == [] then -1
    else if ns[|ns| - 1].id == Some(x) then |ns| - 1
    else LastWithId(ns[..|ns| - 1], x)
  }

  /**
   * After registering `ns`, the key `x` is present when `ns` carries the id
   * `x` (it then maps to the last node carrying it) or `t` held it before
   * (it then keeps its old node).
   */
  lemma {:induction false} RecordAllMeaning(t: IdTable, ns: seq<Schema>, x: string)
    ensures x in RecordAll(t, ns) <==> x in t || LastWithId(ns, x) >= 0
    ensures LastWithId(ns, x) >= 0 ==> RecordAll(t, ns)[x] == ns[LastWithId(ns, x)]
    ensures LastWithId(ns, x) < 0 && x in t ==> RecordAll(t, ns)[x] == t[x]
    decreases |ns|
  {
    if ns != [] {
      var init, last := ns[..|ns| - 1], ns[|ns| - 1];
      RecordAllMeaning(t, init, x);
      if last.id != Some(x) {
        assert LastWithId(init, x) >= 0 ==> ns[LastWithId(init, x)] == init[LastWithId(init, x)];
      }
    }
  }

  /**
   * The table of a whole schema holds the ids of exactly the nodes indexing
   * reaches, each mapped to the last such node in post-order.
   */
  lemma TableOfMeaning(root: Schema, x: string)
    ensures x in TableOf(root) <==> exists j :: 0 <= j < |PostOrder(root)| && PostOrder(root)[j].id == Some(x)
    ensures x in TableOf(root) ==>
              var j := LastWithId(PostOrder(root), x);
              0 <= j && TableOf(root)[x] == PostOrder(root)[j]
  {
    var ns := PostOrder(root);
    RecordAllMeaning(map[], ns, x);
    if exists j :: 0 <= j < |ns| && ns[j].id == Some(x) {
      assert LastWithId(ns, x) >= 0;
    }
  }

  /** The root is indexed last, so its own `id` names the root itself. */
  lemma RootIdWins(root: Schema)
    requires root.id.Some?
    ensures root.id.value in TableOf(root) && TableOf(root)[root.id.value] == root
  {
    var ns := PostOrder(root);
    RecordAllMeaning(map[], ns, root.id.value);
  }

  /** When no two reachable nodes share an id, every reachable node with an id is found under it. */
  lemma UniqueIdsResolve(root: Schema, j: nat)
    requires j < |PostOrder(root)| && PostOrder(root)[j].id.Some?
    requires forall a, b :: 0 <= a < b < |PostOrder(root)| && PostOrder(root)[a].id.Some? ==>
               PostOrder(root)[a].id != PostOrder(root)[b].id
    ensures PostOrder(root)[j].id.value in TableOf(root)
    ensures TableOf(root)[PostOrder(root)[j].id.value] == PostOrder(root)[j]
  {
    var ns := PostOrder(root);
    var x := ns[j].id.value;
    RecordAllMeaning(map[], ns, x);
    var l := LastWithId(ns, x);
    assert j <= l;
  }

  // ---------------------------------------------------------------------------
  // Resolving idrefs
  // ---------------------------------------------------------------------------

  /** The key an idref node is looked up under; a missing `idref` reads as null, the empty key. */
  function IdrefKey(n: Schema): string {
    n.idref.GetOr("")
  }

  /**
   * `newRef`: a schema ref for `node`, except that an `idref` node is
   * replaced by the node registered under its idref, and an idref that is
   * not registered is a "Bad idref" error.
   */
  function Resolve(t: IdTable, node: Schema, parent: Option<TreeRef>, index: Option<Key>, name: Option<Key>)
    : (r: Result<TreeRef, SchemaError>)
    ensures r.Ok? ==> r.value.parent == parent && r.value.index == index && r.value.name == name
    ensures node.ty != Some(IdrefType) ==> r.Ok? && r.value.node == node
    ensures node.ty == Some(IdrefType) ==>
              (r.Ok? <==> IdrefKey(node) in t)
              && (r.Ok? ==> r.value.node == t[IdrefKey(node)])
              && (r.Err? ==> r.error == BadIdref(IdrefKey(node)))
  {
    if node.ty == Some(IdrefType) then
      if IdrefKey(node) in t then Ok(TreeRef(t[IdrefKey(node)], parent, index, name))
      else Err(BadIdref(IdrefKey(node)))
    else Ok(TreeRef(node, parent, index, name))
  }

  /**
   * `newRef` as written: reading a missing key of `idtable` is a PHP notice
   * that yields null, not an exception, so the `catch` never runs and a
   * dangling idref becomes a ref to no schema at all (every member absent).
   */
  function ResolveAsWritten(t: IdTable, node: Schema, parent: Option<TreeRef>, index: Option<Key>, name: Option<Key>)
    : (r: TreeRef)
    ensures r.parent == parent && r.index == index && r.name == name
    ensures node.ty == Some(IdrefType) && IdrefKey(node) !in t ==> r.node == NullSchema
    ensures Resolve(t, node, parent, index, name).Ok? ==> r == Resolve(t, node, parent, index, name).value
  {
    if node.ty == Some(IdrefType) then
      TreeRef(if IdrefKey(node) in t then t[IdrefKey(node)] else NullSchema, parent, index, name)
    else TreeRef(node, parent, index, name)
  }

  /**
   * Resolving against the table of a whole schema: an idref naming an id
   * that occurs anywhere in the schema succeeds, wherever the id sits
   * (before or after the idref), and yields a reachable node with that id.
   */
  lemma ResolveFindsId(root: Schema, node: Schema, parent: Option<TreeRef>, index: Option<Key>, name: Option<Key>)
    requires node.ty == Some(IdrefType)
    ensures var r := Resolve(TableOf(root), node, parent, index, name);
      (r.Ok? <==> exists j :: 0 <= j < |PostOrder(root)| && PostOrder(root)[j].id == Some(IdrefKey(node)))
      && (r.Ok? ==> r.value.node.id == Some(IdrefKey(node))
                    && exists j :: 0 <= j < |PostOrder(root)| && PostOrder(root)[j] == r.value.node)
  {
    TableOfMeaning(root, IdrefKey(node));
  }

  // ---------------------------------------------------------------------------
  // The index object
  // ---------------------------------------------------------------------------

  class JsonSchemaIndex {
    var root: Option<Schema>
    var idtable: IdTable

    /** Index the whole schema; a missing schema gives an empty index. */
    constructor (schema: Option<Schema>)
      ensures root == schema
      ensures idtable == if schema.Some? then TableOf(schema.value) else map[]
    {
      root := schema;
      idtable := map[];
      new;
      if schema.Some? {
        IndexSubtree(schema.value);
      }
    }

    /** Register every node below `node`, children first, each under its `id`. */
    method IndexSubtree(node: Schema)
      modifies this`idtable
      ensures idtable == RecordAll(old(idtable), PostOrder(node))
      decreases SchemaSize(node)
    {
      ghost var cs := Children(node);
      ghost var bound := SchemaSize(node);
      if node.ty == Some(MapType) {
        var i := 0;
        while i < |node.mapping|
          invariant 0 <= i <= |node.mapping|
          invariant idtable == RecordAll(old(idtable), PostOrderAll(cs[..i], bound))
        {
          assert cs[i] == node.mapping[i].val;
          PostOrderAllStep(cs, i, bound);
          RecordAllAppend(old(idtable), PostOrderAll(cs[..i], bound), PostOrder(cs[i]));
          IndexSubtree(node.mapping[i].val);
          i := i + 1;
        }
        assert cs[..i] == cs;
      } else if node.ty == Some(SeqType) {
        var i := 0;
        while i < |node.sequence|
          invariant 0 <= i <= |node.sequence|
          invariant idtable == RecordAll(old(idtable), PostOrderAll(cs[..i], bound))
        {
          PostOrderAllStep(cs, i, bound);
          RecordAllAppend(old(idtable), PostOrderAll(cs[..i], bound), PostOrder(cs[i]));
          IndexSubtree(node.sequence[i]);
          i := i + 1;
        }
        assert cs[..i] == cs;
      } else {
        assert cs == [];
      }
      if node.id.Some? {
        idtable := idtable[node.id.value := node];
      }
      RecordAllAppend(old(idtable), PostOrderAll(cs, bound), [node]);
      assert RecordAll(idtable, []) == idtable;
    }

    /** `newRef`, against the table this index holds. */
    method NewRef(node: Schema, parent: Option<TreeRef>, index: Option<Key>, name: Option<Key>)
      returns (r: Result<TreeRef, SchemaError>)
      ensures r == Resolve(idtable, node, parent, index, name)
    {
      if node.ty == Some(IdrefType) {
        var key := IdrefKey(node);
        if key in idtable {
          r := Ok(TreeRef(idtable[key], parent, index, name));
        } else {
          r := Err(BadIdref(key));
        }
      } else {
        r := Ok(TreeRef(node, parent, index, name));
      }
    }
  }
}
