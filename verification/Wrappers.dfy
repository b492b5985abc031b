/** Values that may be absent, and the order a Go map is visited in. */
module Wrappers {

  datatype Option<T> = None | Some(value: T)

  predicate Distinct<T(==)>(s: seq<T>) {
    forall i, j :: 0 <= i < j < |s| ==> s[i] != s[j]
  }

  /** `range` visits every key once, in an order of its own choosing each time. */
  ghost predicate Enumerates<K(!new), V>(order: seq<K>, m: map<K, V>) {
    Distinct(order) && forall k :: k in order <==> k in m
  }
}
