/** Insertion-ordered maps with the semantics of `java.util.LinkedHashMap`:
    `put` of a new key appends it; `put` of a present key keeps the key's
    first position and replaces its value (last write wins). */
module LinkedMap {
  import opened Json

  function Keys<V>(m: seq<Entry<V>>): (ks: seq<string>)
    ensures |ks| == |m|
    ensures forall i :: 0 <= i < |m| ==> ks[i] == m[i].key
  {
    if m == [] then [] else [m[0].key] + Keys(m[1..])
  }

  predicate DistinctKeys<V>(m: seq<Entry<V>>)
  {
    forall i, j :: 0 <= i < j < |m| ==> m[i].key != m[j].key
  }

  /** `get`: the value stored under `k`, if any. */
  function Lookup<V>(m: seq<Entry<V>>, k: string): Option<V>
  {
    if m == [] then None
    else if m[0].key == k then Some(m[0].value)
    else Lookup(m[1..], k)
  }

  lemma {:induction false} LookupPresent<V>(m: seq<Entry<V>>, k: string)
    ensures Lookup(m, k).Some? <==> k in Keys(m)
  {
    if m != [] {
      LookupPresent(m[1..], k);
      assert Keys(m) == [m[0].key] + Keys(m[1..]);
    }
  }

  /** In a map with distinct keys, looking up the key of an entry finds that entry's value. */
  lemma {:induction false} LookupEntry<V>(m: seq<Entry<V>>, i: nat)
    requires DistinctKeys(m) && i < |m|
    ensures Lookup(m, m[i].key) == Some(m[i].value)
  {
    if i > 0 {
      LookupEntry(m[1..], i - 1);
    }
  }

  /** A successful lookup comes from an entry of the map. */
  lemma {:induction false} LookupFound<V>(m: seq<Entry<V>>, k: string, v: V)
    requires Lookup(m, k) == Some(v)
    ensures Entry(k, v) in m
  {
    if m[0].key != k {
      LookupFound(m[1..], k, v);
    }
  }

  /** `put(k, v)`. */
  function Put<V>(m: seq<Entry<V>>, k: string, v: V): (r: seq<Entry<V>>)
    ensures Keys(r) == if k in Keys(m) then Keys(m) else Keys(m) + [k]
    ensures Lookup(r, k) == Some(v)
    ensures forall k' :: k' != k ==> Lookup(r, k') == Lookup(m, k')
  {
    if m == [] then [Entry(k, v)]
    else if m[0].key == k then [Entry(k, v)] + m[1..]
    else
      var rest := Put(m[1..], k, v);
      var r := [m[0]] + rest;
      assert r[1..] == rest;
      r
  }

  lemma PutDistinct<V>(m: seq<Entry<V>>, k: string, v: V)
    requires DistinctKeys(m)
    ensures DistinctKeys(Put(m, k, v))
  {
    var r := Put(m, k, v);
    forall i, j | 0 <= i < j < |r| ensures r[i].key != r[j].key {
      assert r[i].key == Keys(r)[i] && r[j].key == Keys(r)[j];
    }
  }

  /** Every entry after `put` is the new one or was there before. */
  lemma {:induction false} PutEntries<V>(m: seq<Entry<V>>, k: string, v: V)
    ensures forall e :: e in Put(m, k, v) ==> e == Entry(k, v) || e in m
  {
    if m != [] && m[0].key != k {
      PutEntries(m[1..], k, v);
    }
  }

  lemma {:induction false} PutFresh<V>(m: seq<Entry<V>>, k: string, v: V)
    requires k !in Keys(m)
    ensures Put(m, k, v) == m + [Entry(k, v)]
  {
    if m != [] {
      PutFresh(m[1..], k, v);
    }
  }

  /** `putAll(n)`: puts the entries of `n` one by one, in order. */
  function PutAll<V>(m: seq<Entry<V>>, n: seq<Entry<V>>): seq<Entry<V>>
    decreases n
  {
    if n == [] then m else PutAll(Put(m, n[0].key, n[0].value), n[1..])
  }

  /** `putAll` keeps every key of `m` at its position, adds the keys of `n`,
      and leaves the values of keys that `n` lacks alone. */
  lemma {:induction false} PutAllKeys<V>(m: seq<Entry<V>>, n: seq<Entry<V>>)
    ensures forall k :: k in Keys(PutAll(m, n)) <==> k in Keys(m) || k in Keys(n)
    ensures Keys(m) <= Keys(PutAll(m, n))
    ensures forall k :: k !in Keys(n) ==> Lookup(PutAll(m, n), k) == Lookup(m, k)
    decreases n
  {
    if n != [] {
      assert Keys(n) == [n[0].key] + Keys(n[1..]);
      PutAllKeys(Put(m, n[0].key, n[0].value), n[1..]);
    }
  }

  /** When `n` has distinct keys, each of them ends up with `n`'s value. */
  lemma {:induction false} PutAllLookup<V>(m: seq<Entry<V>>, n: seq<Entry<V>>, k: string)
    requires DistinctKeys(n) && k in Keys(n)
    ensures Lookup(PutAll(m, n), k) == Lookup(n, k)
    decreases n
  {
    assert Keys(n) == [n[0].key] + Keys(n[1..]);
    var m' := Put(m, n[0].key, n[0].value);
    if k == n[0].key {
      assert k !in Keys(n[1..]);
      PutAllKeys(m', n[1..]);
    } else {
      PutAllLookup(m', n[1..], k);
    }
  }

  /** Every entry after `putAll` comes from one of the two maps. */
  lemma {:induction false} PutAllEntries<V>(m: seq<Entry<V>>, n: seq<Entry<V>>)
    ensures forall e :: e in PutAll(m, n) ==> e in m || e in n
    decreases n
  {
    if n != [] {
      PutEntries(m, n[0].key, n[0].value);
      PutAllEntries(Put(m, n[0].key, n[0].value), n[1..]);
    }
  }

  lemma {:induction false} PutAllDistinct<V>(m: seq<Entry<V>>, n: seq<Entry<V>>)
    requires DistinctKeys(m)
    ensures DistinctKeys(PutAll(m, n))
    decreases n
  {
    if n != [] {
      PutDistinct(m, n[0].key, n[0].value);
      PutAllDistinct(Put(m, n[0].key, n[0].value), n[1..]);
    }
  }

  /** No key of `m` is a key of `n`. */
  predicate KeysDisjoint<V>(m: seq<Entry<V>>, n: seq<Entry<V>>)
  {
    forall i, j :: 0 <= i < |m| && 0 <= j < |n| ==> m[i].key != n[j].key
  }

  /** Moving the first entry of `n` to the end of `m` keeps the two
      disjoint. */
  lemma DisjointShift<V>(m: seq<Entry<V>>, n: seq<Entry<V>>)
    requires n != [] && DistinctKeys(n) && KeysDisjoint(m, n)
    ensures n[0].key !in Keys(m)
    ensures DistinctKeys(n[1..]) && KeysDisjoint(m, n[1..]) && KeysDisjoint(m + [n[0]], n[1..])
  {
    assert forall j :: 0 <= j < |n[1..]| ==> n[1..][j] == n[j + 1];
  }

  /** With distinct keys on both sides, putting keys that are not yet present
      appends: the result is the concatenation. */
  lemma {:induction false} PutAllDisjoint<V>(m: seq<Entry<V>>, n: seq<Entry<V>>)
    requires DistinctKeys(n) && KeysDisjoint(m, n)
    ensures PutAll(m, n) == m + n
    decreases n
  {
    if n != [] {
      DisjointShift(m, n);
      PutFresh(m, n[0].key, n[0].value);
      PutAllDisjoint(m + [n[0]], n[1..]);
      ConsShift(m, n);
    }
  }

  lemma ConsShift<T>(m: seq<T>, n: seq<T>)
    requires n != []
    ensures (m + [n[0]]) + n[1..] == m + n
  {
  }
}
