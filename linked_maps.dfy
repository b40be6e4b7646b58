/**
 * `java.util.LinkedHashMap` as the harnesses use it: a map that also
 * remembers the order in which its keys were first inserted. Putting a
 * key that is already present replaces its value and keeps its place.
 */
module LinkedMaps {

  /** No key occurs twice in `s`. */
  ghost predicate Distinct<K>(s: seq<K>) {
    forall i, j :: 0 <= i < j < |s| ==> s[i] != s[j]
  }

  /** `order` lists every key of `entries` exactly once, and nothing else. */
  ghost predicate KeysInOrder<K, V>(order: seq<K>, entries: map<K, V>) {
    && Distinct(order)
    && entries.Keys == (set x | x in order)
  }

  /** `[0, 1, ..., n - 1]`. */
  function Range(n: nat): (s: seq<int>)
    ensures |s| == n
    ensures forall i :: 0 <= i < n ==> s[i] == i
  {
    seq(n, i => i)
  }

  class LinkedMap<K(==), V> {
    /** Keys in insertion order. */
    var order: seq<K>
    /** The key-to-value mapping. */
    var entries: map<K, V>

    ghost predicate Valid()
      reads this
    {
      KeysInOrder(order, entries)
    }

    /** `new LinkedHashMap<>()` */
    constructor ()
      ensures Valid()
      ensures order == [] && entries == map[]
    {
      order := [];
      entries := map[];
    }

    /** `put(k, v)`: a new key goes to the end of the order; an existing one keeps its place. */
    method Put(k: K, v: V)
      requires Valid()
      modifies this
      ensures Valid()
      ensures entries == old(entries)[k := v]
      ensures order == if k in old(entries) then old(order) else old(order) + [k]
    {
      if k !in entries {
        order := order + [k];
      }
      entries := entries[k := v];
    }
  }
}
