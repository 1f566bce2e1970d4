/** Optional values and Python's insertion-ordered dictionary literals.

    A dictionary literal `{k1: v1, k2: v2}` is kept as the sequence of its
    pairs, so that `keys()`, `values()` and iteration see insertion order. */
module Dicts {

  datatype Option<+T> = None | Some(value: T) {

    /** Returns the value held in Some, or `default` for None. */
    function GetOr(default: T): T
    {
      match this
      case Some(v) => v
      case None => default
    }
  }

  /** An insertion-ordered dictionary. */
  type Dict<K, V> = seq<(K, V)>

  /** The keys of `d`, in insertion order (`list(d.keys())`). */
  function Keys<K, V>(d: Dict<K, V>): (ks: seq<K>)
    ensures |ks| == |d|
    ensures forall i :: 0 <= i < |d| ==> ks[i] == d[i].0
  {
    if |d| == 0 then [] else [d[0].0] + Keys(d[1..])
  }

  /** The values of `d`, in insertion order (`list(d.values())`). */
  function Values<K, V>(d: Dict<K, V>): (vs: seq<V>)
    ensures |vs| == |d|
    ensures forall i :: 0 <= i < |d| ==> vs[i] == d[i].1
  {
    if |d| == 0 then [] else [d[0].1] + Values(d[1..])
  }

  /** No key occurs twice: true of every dictionary Python builds. */
  predicate DistinctKeys<K(==), V>(d: Dict<K, V>)
  {
    forall i, j :: 0 <= i < j < |d| ==> d[i].0 != d[j].0
  }

  /** `d.get(k)`: the value stored under `k`, if any. */
  function Get<K(==), V>(d: Dict<K, V>, k: K): (r: Option<V>)
    ensures r.None? <==> k !in Keys(d)
    ensures r.Some? ==> exists i :: 0 <= i < |d| && d[i] == (k, r.value)
  {
    if |d| == 0 then None
    else if d[0].0 == k then Some(d[0].1)
    else
      var r := Get(d[1..], k);
      assert r.Some? ==> exists i :: 0 <= i < |d[1..]| && d[1..][i] == (k, r.value);
      assert Keys(d) == [d[0].0] + Keys(d[1..]);
      r
  }

  /** `d.get(k, default)`. */
  function GetOr<K(==), V>(d: Dict<K, V>, k: K, default: V): V
  {
    Get(d, k).GetOr(default)
  }

  /** `d.get(k, [])` on a dictionary of lists: a missing key reads as no
      elements. */
  function Entries<K(==), V>(d: Dict<K, seq<V>>, k: K): (vs: seq<V>)
    ensures k !in Keys(d) ==> vs == []
    ensures k in Keys(d) ==> Get(d, k) == Some(vs)
  {
    GetOr(d, k, [])
  }

  /** Each value paired with the key it was found under, in order. */
  function Tag<K, V>(k: K, vs: seq<V>): (tagged: seq<(K, V)>)
    ensures |tagged| == |vs|
    ensures forall i :: 0 <= i < |vs| ==> tagged[i] == (k, vs[i])
  {
    if |vs| == 0 then [] else [(k, vs[0])] + Tag(k, vs[1..])
  }

  /** In a dictionary without repeated keys, `Get` finds the entry at any position. */
  lemma {:induction false} GetAt<K, V>(d: Dict<K, V>, i: nat)
    requires DistinctKeys(d)
    requires i < |d|
    ensures Get(d, d[i].0) == Some(d[i].1)
  {
    if i > 0 {
      assert d[0].0 != d[i].0;
      assert DistinctKeys(d[1..]) by {
        forall a, b | 0 <= a < b < |d[1..]|
          ensures d[1..][a].0 != d[1..][b].0
        {
          assert d[1..][a] == d[a + 1] && d[1..][b] == d[b + 1];
        }
      }
      GetAt(d[1..], i - 1);
    }
  }
}
