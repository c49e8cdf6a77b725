/** Small sequence searches shared by the lookups of several generations. */
module Seqs {
  import opened Wrappers

  /** Index of the first element satisfying `p`: a Go `range` loop that
      returns on its first hit. */
  function FirstIndex<T>(s: seq<T>, p: T -> bool): (r: Option<nat>)
    ensures r.Some? ==> r.value < |s| && p(s[r.value])
    ensures r.Some? ==> forall k :: 0 <= k < r.value ==> !p(s[k])
    ensures r.None? <==> forall k :: 0 <= k < |s| ==> !p(s[k])
  {
    if |s| == 0 then None
    else if p(s[0]) then Some(0)
    else match FirstIndex(s[1..], p)
      case None => None
      case Some(i) => Some(i + 1)
  }

  /** Number of occurrences of `x` in `s`. */
  function Count<T(==)>(s: seq<T>, x: T): (n: nat)
    ensures n <= |s|
    ensures n == 0 <==> x !in s
  {
    if |s| == 0 then 0 else (if s[0] == x then 1 else 0) + Count(s[1..], x)
  }

  /** No element occurs twice. */
  predicate Distinct<T(==)>(s: seq<T>) {
    forall i, j :: 0 <= i < j < |s| ==> s[i] != s[j]
  }

  /** The keys of a Go map in the order a `range` loop visits them, which
      the language leaves unspecified: every key exactly once. */
  method MapKeys<K(==), V>(m: map<K, V>) returns (ks: seq<K>)
    ensures |ks| == |m| && Distinct(ks)
    ensures forall k :: k in ks <==> k in m
  {
    var rest := m.Keys;
    ks := [];
    while rest != {}
      invariant rest <= m.Keys
      invariant forall k :: k in ks <==> k in m.Keys && k !in rest
      invariant Distinct(ks)
      invariant |ks| + |rest| == |m.Keys|
      decreases |rest|
    {
      var k :| k in rest;
      ks := ks + [k];
      rest := rest - {k};
    }
  }
}
