/**
 * Walking a Go map with `for _, v := range m`: the order is unspecified, so the
 * walk picks any key it has not yet visited.
 */
module Collections {

  predicate Distinct<T(==)>(s: seq<T>)
  {
    forall i, j :: 0 <= i < j < |s| ==> s[i] != s[j]
  }

  /**
   * `vs` holds, in some order, the value of every key of `m` whose value passes
   * `keep`, once per key; `ks` records which key each entry came from.
   */
  predicate Listing<K, V(==)>(m: map<K, V>, keep: V -> bool, vs: seq<V>, ks: seq<K>)
  {
    |vs| == |ks| && Distinct(ks)
    && (forall i :: 0 <= i < |ks| ==> ks[i] in m && vs[i] == m[ks[i]])
    && (forall k :: k in m ==> (k in ks <==> keep(m[k])))
  }

  /** A range loop that appends each value passing `keep`, visiting the keys in any order. */
  method Collect<K, V(==)>(m: map<K, V>, keep: V -> bool) returns (vs: seq<V>, ghost ks: seq<K>)
    ensures Listing(m, keep, vs, ks)
  {
    vs, ks := [], [];
    var remaining := m.Keys;
    while remaining != {}
      invariant remaining <= m.Keys
      invariant |vs| == |ks| && Distinct(ks)
      invariant forall i :: 0 <= i < |ks| ==> ks[i] in m && ks[i] !in remaining && vs[i] == m[ks[i]]
      invariant forall k :: k in m && k !in remaining ==> (k in ks <==> keep(m[k]))
      decreases remaining
    {
      var k :| k in remaining;
      if keep(m[k]) {
        vs, ks := vs + [m[k]], ks + [k];
      }
      remaining := remaining - {k};
    }
  }
}
