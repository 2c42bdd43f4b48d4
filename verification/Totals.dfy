/** Sums over the values of a map. */
module Totals {

  function At<K>(m: map<K, int>, k: K): int {
    if k in m then m[k] else 0
  }

  ghost function Total<K>(m: map<K, int>): int {
    if m == map[] then 0
    else
      var k :| k in m;
      m[k] + Total(m - {k})
  }

  lemma {:induction false} TotalWithout<K>(m: map<K, int>, k: K)
    ensures Total(m) == At(m, k) + Total(m - {k})
  {
    if k !in m {
      assert m - {k} == m;
    } else {
      var j :| j in m && Total(m) == m[j] + Total(m - {j});
      if j != k {
        TotalWithout(m - {j}, k);
        TotalWithout(m - {k}, j);
        assert m - {j} - {k} == m - {k} - {j};
      }
    }
  }

  /** Changing one entry changes the sum by as much. */
  lemma TotalShift<K>(m: map<K, int>, n: map<K, int>, k: K)
    requires m - {k} == n - {k}
    ensures Total(n) - At(n, k) == Total(m) - At(m, k)
  {
    TotalWithout(m, k);
    TotalWithout(n, k);
  }

  lemma {:induction false} TotalAtLeast<K>(m: map<K, int>, k: K)
    requires forall j <- m :: m[j] >= 0
    ensures Total(m) >= At(m, k) && Total(m) >= 0
    decreases m
  {
    TotalWithout(m, k);
    if m != map[] {
      var j :| j in m && Total(m) == m[j] + Total(m - {j});
      TotalAtLeast(m - {j}, k);
      if k in m { TotalAtLeast(m - {k}, k); }
    }
  }
}
