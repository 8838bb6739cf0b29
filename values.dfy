/**
 * Decoded JSON data as PHP holds it after `json_decode($text, true)`:
 * scalars, and PHP arrays, which are ordered maps from integer or string
 * keys to values. A JSON list becomes an array with the keys 0, 1, ...; a
 * JSON object becomes an array with its member names as keys.
 */
module Values {
  import opened Wrappers

  /** A PHP array key. PHP keeps integer keys and string keys apart. */
  datatype Key = IntKey(n: int) | StrKey(s: string)

  /** One key/value slot of a PHP array. */
  datatype Entry<+V> = Entry(key: Key, val: V)

  /** A decoded value. `Float` is a PHP double, represented exactly. */
  datatype Value =
    | Null
    | Bool(b: bool)
    | Int(i: int)
    | Float(x: real)
    | Str(s: string)
    | Arr(entries: seq<Entry<Value>>)

  /** The exceptions the component throws (all are a JsonSchemaException in PHP). */
  datatype SchemaError =
    | CannotConvertToId(culprit: Value)
    | BadIdref(idref: string)
    | InvalidKey(key: Key, path: string)
    | TypeMismatch(expected: string, actual: string, path: string)

  // ---------------------------------------------------------------------------
  // Association lists: the operations PHP offers on an array's slots
  // ---------------------------------------------------------------------------

  /** `$es[$k]`: the value of the first slot holding `k`, or `None` when the key is missing. */
  function Find<V>(es: seq<Entry<V>>, k: Key): (r: Option<V>)
    ensures r.Some? <==> exists i :: 0 <= i < |es| && es[i].key == k
    ensures r.Some? ==> exists i :: 0 <= i < |es| && es[i] == Entry(k, r.value)
  {
    if es == [] then None
    else if es[0].key == k then Some(es[0].val)
    else
      var r := Find(es[1..], k);
      assert forall i :: 1 <= i < |es| ==> es[i] == es[1..][i - 1];
      r
  }

  /** `array_key_exists($k, $es)`. */
  predicate HasKey<V>(es: seq<Entry<V>>, k: Key) {
    Find(es, k).Some?
  }

  /** `array_keys($es)`, in order. */
  function KeyList<V>(es: seq<Entry<V>>): (ks: seq<Key>)
    ensures |ks| == |es|
    ensures forall i :: 0 <= i < |es| ==> ks[i] == es[i].key
  {
    seq(|es|, i requires 0 <= i < |es| => es[i].key)
  }

  /** No key occurs twice, as in every PHP array. */
  ghost predicate UniqueKeys<V>(es: seq<Entry<V>>) {
    forall i, j :: 0 <= i < j < |es| ==> es[i].key != es[j].key
  }

  /** `$es[$k] = $x`: overwrite the first slot holding `k` in place, or append a slot. */
  function SetKey<V>(es: seq<Entry<V>>, k: Key, x: V): (r: seq<Entry<V>>)
    ensures |r| == if HasKey(es, k) then |es| else |es| + 1
    ensures forall i :: 0 <= i < |es| ==> r[i].key == es[i].key
  {
    if es == [] then [Entry(k, x)]
    else if es[0].key == k then [Entry(k, x)] + es[1..]
    else [es[0]] + SetKey(es[1..], k, x)
  }

  /** `unset($es[$k])`: drop the slots holding `k`, keeping the others in order. */
  function Unset<V>(es: seq<Entry<V>>, k: Key): (r: seq<Entry<V>>)
    ensures |r| <= |es|
    ensures forall i :: 0 <= i < |r| ==> r[i].key != k
  {
    if es == [] then []
    else (if es[0].key == k then [] else [es[0]]) + Unset(es[1..], k)
  }

  /** After `$es[$k] = $x`, the array maps `k` to `x` and every other key as before. */
  lemma {:induction false} SetKeyFind<V>(es: seq<Entry<V>>, k: Key, x: V, k': Key)
    ensures Find(SetKey(es, k, x), k) == Some(x)
    ensures k' != k ==> Find(SetKey(es, k, x), k') == Find(es, k')
  {
    if es != [] && es[0].key != k {
      SetKeyFind(es[1..], k, x, k');
      assert SetKey(es, k, x)[1..] == SetKey(es[1..], k, x);
    } else if es != [] {
      assert SetKey(es, k, x)[1..] == es[1..];
    }
  }

  /** After `unset($es[$k])`, `k` is gone and every other key maps as before. */
  lemma {:induction false} UnsetFind<V>(es: seq<Entry<V>>, k: Key, k': Key)
    ensures Find(Unset(es, k), k) == None
    ensures k' != k ==> Find(Unset(es, k), k') == Find(es, k')
  {
    if es != [] {
      UnsetFind(es[1..], k, k');
      var t := Unset(es[1..], k);
      if es[0].key != k {
        var r := [es[0]] + t;
        assert Unset(es, k) == r;
        assert r[0] == es[0] && r[1..] == t;
        if es[0].key != k' {
          assert Find(r, k') == Find(t, k');
        }
      } else {
        assert Unset(es, k) == t;
      }
    }
  }

  /** The keys after `$es[$k] = $x` are the old keys and `k`. */
  lemma {:induction false} SetKeyKeys<V>(es: seq<Entry<V>>, k: Key, x: V, k': Key)
    ensures HasKey(SetKey(es, k, x), k') <==> HasKey(es, k') || k' == k
  {
    SetKeyFind(es, k, x, k');
  }

  /** Overwriting or appending keeps the keys unique. */
  lemma {:induction false} SetKeyUnique<V>(es: seq<Entry<V>>, k: Key, x: V)
    requires UniqueKeys(es)
    ensures UniqueKeys(SetKey(es, k, x))
  {
    if es != [] && es[0].key != k {
      SetKeyUnique(es[1..], k, x);
      var t := SetKey(es[1..], k, x);
      forall i | 0 <= i < |t| ensures t[i].key != es[0].key {
        if i < |es| - 1 {
          assert t[i].key == es[1..][i].key;
        } else {
          assert !HasKey(es[1..], k);
          assert t[i].key == k by { SetKeyLast(es[1..], k, x); }
        }
      }
      assert SetKey(es, k, x) == [es[0]] + t;
    } else if es != [] {
      assert SetKey(es, k, x) == [Entry(k, x)] + es[1..];
    }
  }

  /** A key that was missing is appended as the last slot. */
  lemma {:induction false} SetKeyLast<V>(es: seq<Entry<V>>, k: Key, x: V)
    requires !HasKey(es, k)
    ensures SetKey(es, k, x) == es + [Entry(k, x)]
  {
    if es != [] {
      SetKeyLast(es[1..], k, x);
      assert es == [es[0]] + es[1..];
    }
  }

  /** Dropping slots keeps the keys unique. */
  lemma {:induction false} UnsetUnique<V>(es: seq<Entry<V>>, k: Key)
    requires UniqueKeys(es)
    ensures UniqueKeys(Unset(es, k))
  {
    if es != [] {
      UnsetUnique(es[1..], k);
      var t := Unset(es[1..], k);
      if es[0].key != k {
        UnsetFind(es[1..], k, es[0].key);
        assert !HasKey(es[1..], es[0].key) by {
          assert forall i :: 0 <= i < |es| - 1 ==> es[1..][i].key == es[i + 1].key;
        }
        assert !HasKey(t, es[0].key);
      }
    }
  }

  // ---------------------------------------------------------------------------
  // Values
  // ---------------------------------------------------------------------------

  /** `$v[$k]` on a value: the slot's value, or null (PHP's notice) for a missing key or a non-array. */
  function Lookup(v: Value, k: Key): Value {
    if v.Arr? then Find(v.entries, k).GetOr(Null) else Null
  }

  /** `count($v)` for an array. */
  function Count(v: Value): nat {
    if v.Arr? then |v.entries| else 0
  }

  /** A measure that every child lookup makes smaller; null counts nothing. */
  function Size(v: Value): nat
    decreases v, 1
  {
    match v
    case Null => 0
    case Arr(es) => 1 + SizeUpTo(v, |es|)
    case _ => 1
  }

  function SizeUpTo(v: Value, n: nat): nat
    requires v.Arr? && n <= |v.entries|
    decreases v, 0, n
  {
    if n == 0 then 0 else SizeUpTo(v, n - 1) + Size(v.entries[n - 1].val)
  }

  lemma {:induction false} SizeUpToBound(v: Value, n: nat, i: nat)
    requires v.Arr? && i < n <= |v.entries|
    ensures Size(v.entries[i].val) <= SizeUpTo(v, n)
  {
    if i < n - 1 {
      SizeUpToBound(v, n - 1, i);
    }
  }

  /** Every child reached by a lookup is smaller than the array it was read from. */
  lemma LookupSmaller(v: Value, k: Key)
    requires v.Arr?
    ensures Size(Lookup(v, k)) < Size(v)
  {
    if HasKey(v.entries, k) {
      var i :| 0 <= i < |v.entries| && v.entries[i] == Entry(k, Lookup(v, k));
      SizeUpToBound(v, |v.entries|, i);
    }
  }
}
