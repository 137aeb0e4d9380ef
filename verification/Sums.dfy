/** Sums over finite maps. */
module Sums {

  ghost function SumOf<K>(m: map<K, int>): int
    decreases |m|
  {
    if m == map[] then 0
    else
      var k :| k in m;
      m[k] + SumOf(m - {k})
  }

  /** Any key may be taken out first. */
  lemma {:induction false} SumPick<K>(m: map<K, int>, k: K)
    requires k in m
    ensures SumOf(m) == m[k] + SumOf(m - {k})
    decreases |m|
  {
    var j :| j in m && SumOf(m) == m[j] + SumOf(m - {j});
    if j != k {
      SumPick(m - {j}, k);
      SumPick(m - {k}, j);
      assert (m - {j}) - {k} == (m - {k}) - {j};
    }
  }

  lemma SumUpdate<K>(m: map<K, int>, k: K, v: int)
    requires k in m
    ensures SumOf(m[k := v]) == SumOf(m) - m[k] + v
  {
    SumPick(m, k);
    SumPick(m[k := v], k);
    assert m[k := v] - {k} == m - {k};
  }

  lemma {:induction false} SumNonNegative<K>(m: map<K, int>)
    requires forall k :: k in m ==> 0 <= m[k]
    ensures 0 <= SumOf(m)
    decreases |m|
  {
    if m != map[] {
      var k :| k in m && SumOf(m) == m[k] + SumOf(m - {k});
      SumNonNegative(m - {k});
    }
  }
}
