/**
 * Python's insertion-ordered `dict`, as an association list with distinct keys.
 * Assigning to an existing key keeps its position; a new key goes at the end.
 */
module Dicts {
  import opened Wrappers

  type Dict<K, V> = seq<(K, V)>

  function Keys<K(==), V(==)>(d: Dict<K, V>): (ks: seq<K>)
    ensures |ks| == |d| && forall i :: 0 <= i < |d| ==> ks[i] == d[i].0
  {
    if |d| == 0 then [] else [d[0].0] + Keys(d[1..])
  }

  function Values<K(==), V(==)>(d: Dict<K, V>): (vs: seq<V>)
    ensures |vs| == |d| && forall i :: 0 <= i < |d| ==> vs[i] == d[i].1
  {
    if |d| == 0 then [] else [d[0].1] + Values(d[1..])
  }

  predicate DistinctKeys<K(==), V(==)>(d: Dict<K, V>) {
    forall i, j :: 0 <= i < j < |d| ==> d[i].0 != d[j].0
  }

  predicate HasKey<K(==), V(==)>(d: Dict<K, V>, k: K) {
    exists i :: 0 <= i < |d| && d[i].0 == k
  }

  /** `d.get(k)` */
  function Get<K(==), V(==)>(d: Dict<K, V>, k: K): (r: Option<V>)
    ensures r.Some? <==> HasKey(d, k)
    ensures r.Some? ==> exists i :: 0 <= i < |d| && d[i] == (k, r.value)
  {
    if |d| == 0 then None
    else if d[0].0 == k then Some(d[0].1)
    else
      var r := Get(d[1..], k);
      assert r.Some? ==> exists i :: 0 <= i < |d| && d[i] == (k, r.value) by {
        if r.Some? {
          var i :| 0 <= i < |d| - 1 && d[1..][i] == (k, r.value);
          assert d[i + 1] == (k, r.value);
        }
      }
      assert HasKey(d, k) ==> HasKey(d[1..], k) by {
        if HasKey(d, k) {
          var i :| 0 <= i < |d| && d[i].0 == k;
          assert d[1..][i - 1].0 == k;
        }
      }
      r
  }

  /** `d[k] = v` */
  function Set<K(==), V(==)>(d: Dict<K, V>, k: K, v: V): (r: Dict<K, V>)
    ensures HasKey(d, k) ==> |r| == |d|
    ensures !HasKey(d, k) ==> r == d + [(k, v)]
    ensures forall i :: 0 <= i < |d| ==> r[i].0 == d[i].0
    ensures forall i :: 0 <= i < |d| && d[i].0 != k ==> r[i] == d[i]
    ensures forall i :: 0 <= i < |d| && d[i].0 == k ==> r[i] == (k, v)
  {
    if HasKey(d, k) then Update(d, k, v) else d + [(k, v)]
  }

  /** Every entry with key `k` gets the value `v`. */
  function Update<K(==), V(==)>(d: Dict<K, V>, k: K, v: V): (r: Dict<K, V>)
    ensures |r| == |d|
    ensures forall i :: 0 <= i < |d| ==> r[i] == if d[i].0 == k then (k, v) else d[i]
  {
    if |d| == 0 then [] else [if d[0].0 == k then (k, v) else d[0]] + Update(d[1..], k, v)
  }

  lemma SetKeepsDistinct<K, V>(d: Dict<K, V>, k: K, v: V)
    requires DistinctKeys(d)
    ensures DistinctKeys(Set(d, k, v))
  {
  }

  lemma {:induction false} GetUpdate<K, V>(d: Dict<K, V>, k: K, v: V, j: K)
    ensures Get(Update(d, k, v), j) == if j == k && HasKey(d, k) then Some(v) else Get(d, j)
  {
    if |d| > 0 {
      assert Update(d, k, v)[1..] == Update(d[1..], k, v);
      GetUpdate(d[1..], k, v, j);
      if d[0].0 != k && HasKey(d, k) {
        var i :| 0 <= i < |d| && d[i].0 == k;
        assert d[1..][i - 1].0 == k;
      }
    }
  }

  lemma {:induction false} GetAppend<K, V>(d: Dict<K, V>, k: K, v: V, j: K)
    ensures Get(d + [(k, v)], j) == if HasKey(d, j) then Get(d, j) else if j == k then Some(v) else None
  {
    if |d| > 0 {
      assert (d + [(k, v)])[1..] == d[1..] + [(k, v)];
      GetAppend(d[1..], k, v, j);
    }
  }

  /** After `d[k] = v`, `d.get(k)` is `v` and every other key is unaffected. */
  lemma GetSet<K, V>(d: Dict<K, V>, k: K, v: V, j: K)
    ensures Get(Set(d, k, v), j) == if j == k then Some(v) else Get(d, j)
  {
    if HasKey(d, k) {
      GetUpdate(d, k, v, j);
    } else {
      GetAppend(d, k, v, j);
    }
  }

  /** Building a dict from pairs, left to right, as a sequence of assignments. */
  function FromPairs<K(==), V(==)>(pairs: seq<(K, V)>): (d: Dict<K, V>)
    ensures DistinctKeys(d)
  {
    if |pairs| == 0 then []
    else
      var last := pairs[|pairs| - 1];
      SetKeepsDistinct(FromPairs(pairs[..|pairs| - 1]), last.0, last.1);
      Set(FromPairs(pairs[..|pairs| - 1]), last.0, last.1)
  }
}
