/** Python dictionaries as lists of (key, value) pairs in iteration order:
    assigning to a present key replaces its value in place, assigning to a
    new key appends it. */
module Dicts {
  import opened Py

  predicate UniqueKeys<K(==), V>(d: seq<(K, V)>)
  {
    forall i, j :: 0 <= i < j < |d| ==> d[i].0 != d[j].0
  }

  function Keys<K, V>(d: seq<(K, V)>): (ks: seq<K>)
    ensures |ks| == |d|
    ensures forall i :: 0 <= i < |d| ==> ks[i] == d[i].0
  {
    seq(|d|, i requires 0 <= i < |d| => d[i].0)
  }

  predicate HasKey<K(==), V>(d: seq<(K, V)>, k: K)
  {
    exists i :: 0 <= i < |d| && d[i].0 == k
  }

  /** Position of the first pair with key k, or -1. */
  function IndexOf<K(==), V>(d: seq<(K, V)>, k: K): (i: int)
    ensures -1 <= i < |d|
    ensures 0 <= i ==> d[i].0 == k
    ensures forall j :: 0 <= j < |d| && (i < 0 || j < i) ==> d[j].0 != k
    decreases |d|
  {
    if d == [] then -1
    else if d[0].0 == k then 0
    else
      var i := IndexOf(d[1..], k);
      assert forall j :: 1 <= j < |d| ==> d[j] == d[1..][j - 1];
      if i < 0 then -1 else i + 1
  }

  /** `d[k]`: the value of the first pair with key k, or KeyError. */
  function Get<K(==), V>(d: seq<(K, V)>, k: K): (r: Option<V>)
    ensures r.Some? <==> HasKey(d, k)
    ensures r.Some? ==> exists i :: 0 <= i < |d| && d[i].0 == k && d[i].1 == r.value
  {
    var i := IndexOf(d, k);
    if i < 0 then None else Some(d[i].1)
  }

  /** With unique keys, every pair is what its key looks up. */
  lemma GetAt<K, V>(d: seq<(K, V)>, m: int)
    requires UniqueKeys(d) && 0 <= m < |d|
    ensures Get(d, d[m].0) == Some(d[m].1)
  {
  }

  /** `d[k] = v`. */
  function Set<K(==), V>(d: seq<(K, V)>, k: K, v: V): (r: seq<(K, V)>)
  {
    var i := IndexOf(d, k);
    if i < 0 then d + [(k, v)] else d[i := (k, v)]
  }

  /** After `d[k] = v`, k maps to v, every other key keeps its value, keys
      stay unique, a present key keeps its place and a new key is appended
      at the end. */
  lemma SetSpec<K, V>(d: seq<(K, V)>, k: K, v: V)
    requires UniqueKeys(d)
    ensures UniqueKeys(Set(d, k, v))
    ensures Get(Set(d, k, v), k) == Some(v)
    ensures forall k' :: k' != k ==> Get(Set(d, k, v), k') == Get(d, k')
    ensures HasKey(d, k) ==> Keys(Set(d, k, v)) == Keys(d)
    ensures !HasKey(d, k) ==> Set(d, k, v) == d + [(k, v)]
  {
    var r := Set(d, k, v);
    var i := IndexOf(d, k);
    assert Keys(r)[..|d|] == Keys(d);
    if i >= 0 {
      assert r[i] == (k, v);
      assert IndexOf(r, k) == i;
    } else {
      assert r[|d|] == (k, v);
      assert IndexOf(r, k) == |d|;
    }
    forall k' | k' != k ensures Get(r, k') == Get(d, k') {
      var a, b := IndexOf(r, k'), IndexOf(d, k');
      assert forall j :: 0 <= j < |d| ==> (r[j].0 == k' <==> d[j].0 == k');
      if b >= 0 { assert a == b; }
    }
  }
}
