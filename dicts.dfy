/**
 * Python dictionaries as the bot's configuration store keeps them: an
 * insertion-ordered sequence of (key, value) items. Assigning to a key that is
 * present replaces its value in place; assigning to a new key appends it. The
 * order is what `dict.items()` iterates over.
 */
module Dicts {
  import opened Wrappers

  type Dict<K, V> = seq<(K, V)>

  /** The keys, in iteration order. */
  function Keys<K(==), V(==)>(d: Dict<K, V>): seq<K> {
    if d == [] then [] else [d[0].0] + Keys(d[1..])
  }

  /** No key occurs twice: every dict the program builds satisfies this. */
  predicate KeysDistinct<K(==), V(==)>(d: Dict<K, V>) {
    d == [] || (Lookup(d[1..], d[0].0).None? && KeysDistinct(d[1..]))
  }

  /** `d[k]` if `k in d`, else None. */
  function Lookup<K(==), V(==)>(d: Dict<K, V>, k: K): (r: Option<V>)
    ensures r.None? <==> forall i :: 0 <= i < |d| ==> d[i].0 != k
    ensures r.Some? ==> (k, r.value) in d
  {
    if d == [] then None
    else if d[0].0 == k then Some(d[0].1)
    else Lookup(d[1..], k)
  }

  /** `d.get(k, default)`. */
  function Get<K(==), V(==)>(d: Dict<K, V>, k: K, default: V): V {
    Lookup(d, k).GetOr(default)
  }

  /** `d[k] = v`. */
  function Set<K(==,!new), V(==)>(d: Dict<K, V>, k: K, v: V): (r: Dict<K, V>)
    ensures Lookup(r, k) == Some(v)
    ensures forall k' :: k' != k ==> Lookup(r, k') == Lookup(d, k')
    ensures Keys(r) == if Lookup(d, k).Some? then Keys(d) else Keys(d) + [k]
  {
    if d == [] then [(k, v)]
    else if d[0].0 == k then [(k, v)] + d[1..]
    else [d[0]] + Set(d[1..], k, v)
  }

  lemma {:induction false} SetKeepsKeysDistinct<K(!new), V>(d: Dict<K, V>, k: K, v: V)
    requires KeysDistinct(d)
    ensures KeysDistinct(Set(d, k, v))
  {
    if d != [] && d[0].0 != k {
      SetKeepsKeysDistinct(d[1..], k, v);
      assert Set(d, k, v)[1..] == Set(d[1..], k, v);
    }
  }

  /** With distinct keys, the item at position `j` is what looking up its key finds. */
  lemma {:induction false} LookupAt<K, V>(d: Dict<K, V>, j: nat)
    requires KeysDistinct(d) && j < |d|
    ensures Lookup(d, d[j].0) == Some(d[j].1)
  {
    if j > 0 {
      LookupAt(d[1..], j - 1);
      assert d[1..][j - 1] == d[j];
    }
  }
}
