/** The linear scans the ledger service uses for every lookup: walk a slice from
    the front and stop at the first element whose key matches. */
module Scan {

  datatype Option<+T> = None | Some(value: T)

  /** Some element of `s` has key `k`. */
  ghost predicate Has<T, K>(s: seq<T>, key: T -> K, k: K) {
    exists i :: 0 <= i < |s| && key(s[i]) == k
  }

  /** `i` is where a front-to-back scan of `s` for key `k` stops. */
  ghost predicate FirstAt<T, K>(s: seq<T>, key: T -> K, k: K, i: int) {
    && 0 <= i < |s|
    && key(s[i]) == k
    && forall j :: 0 <= j < i ==> key(s[j]) != k
  }

  /** Position of the first element of `s` whose `key` is `k`, or None when no
      element has that key. */
  function FirstIndex<T, K(==)>(s: seq<T>, key: T -> K, k: K): (r: Option<nat>)
    ensures r.Some? ==> FirstAt(s, key, k, r.value)
    ensures r.None? <==> !Has(s, key, k)
    decreases |s|
  {
    if |s| == 0 then None
    else if key(s[0]) == k then Some(0)
    else
      match FirstIndex(s[1..], key, k)
      case None => None
      case Some(i) => Some(i + 1)
  }
}
