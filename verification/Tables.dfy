/**
 The server's hash maps. Iterating over one visits its keys in an order that depends only on the
 operations performed so far; here the order is the order of insertion.
 */
module Tables {

  datatype RawTable<K(==,!new), V> = RawTable(keys: seq<K>, m: map<K, V>)

  ghost predicate Consistent<K(!new), V>(t: RawTable<K, V>) {
    && (forall k :: k in t.keys <==> k in t.m)
    && (forall i, j :: 0 <= i < j < |t.keys| ==> t.keys[i] != t.keys[j])
  }

  /** The keys in iteration order and the values: every key once. */
  type Table<K(==,!new), V> = t: RawTable<K, V> | Consistent(t) witness RawTable([], map[])

  function Empty<K(==,!new), V>(): Table<K, V> {
    RawTable([], map[])
  }

  predicate Has<K(==,!new), V>(t: Table<K, V>, k: K) {
    k in t.m
  }

  /** Assign to a key: an existing key keeps its place, a new one comes last. */
  function Put<K(==,!new), V>(t: Table<K, V>, k: K, v: V): (r: Table<K, V>)
    ensures r.m == t.m[k := v]
    ensures r.keys == if k in t.m then t.keys else t.keys + [k]
  {
    if k in t.m then
      RawTable(t.keys, t.m[k := v])
    else
      var r := RawTable(t.keys + [k], t.m[k := v]);
      assert forall x :: x in r.keys <==> x in t.keys || x == k;
      r
  }

  /** The elements of s that are not in out, in order. */
  function Drop<K(==,!new)>(s: seq<K>, out: set<K>): (r: seq<K>)
    ensures forall x :: x in r <==> x in s && x !in out
    ensures (forall i, j :: 0 <= i < j < |s| ==> s[i] != s[j]) ==> forall i, j :: 0 <= i < j < |r| ==> r[i] != r[j]
    ensures |r| <= |s|
  {
    if s == [] then []
    else
      assert forall x :: x in s <==> x == s[0] || x in s[1..];
      if s[0] in out then Drop(s[1..], out) else [s[0]] + Drop(s[1..], out)
  }

  function EraseAll<K(==,!new), V>(t: Table<K, V>, out: set<K>): (r: Table<K, V>)
    ensures r.m == t.m - out
    ensures r.keys == Drop(t.keys, out)
  {
    RawTable(Drop(t.keys, out), t.m - out)
  }

  function Erase<K(==,!new), V>(t: Table<K, V>, k: K): (r: Table<K, V>)
    ensures r.m == t.m - {k}
    ensures r.keys == Drop(t.keys, {k})
  {
    EraseAll(t, {k})
  }

  /** Erasing nothing that is there changes nothing. */
  lemma {:induction false} DropNothing<K(!new)>(s: seq<K>, out: set<K>)
    requires forall x :: x in s ==> x !in out
    ensures Drop(s, out) == s
  {
    if s != [] {
      assert s[0] in s;
      assert forall x :: x in s[1..] ==> x in s;
      DropNothing(s[1..], out);
    }
  }

  /** Erasing twice is erasing the union. */
  lemma {:induction false} DropDrop<K(!new)>(s: seq<K>, a: set<K>, b: set<K>)
    ensures Drop(Drop(s, a), b) == Drop(s, a + b)
  {
    if s != [] {
      DropDrop(s[1..], a, b);
    }
  }

  /** Change the values and keep keys and order. */
  function WithValues<K(==,!new), V>(t: Table<K, V>, values: map<K, V>): (r: Table<K, V>)
    requires values.Keys == t.m.Keys
    ensures r.keys == t.keys && r.m == values
  {
    assert forall k :: k in values <==> k in t.m;
    RawTable(t.keys, values)
  }
}
