/** Sums over finite tables of counts. */
module Totals {
  ghost function Total<K(!new)>(m: map<K, nat>): nat {
    if m == map[] then 0
    else
      var k :| k in m;
      m[k] + Total(m - {k})
  }

  lemma {:induction false} TotalRemove<K(!new)>(m: map<K, nat>, k: K)
    requires k in m
    ensures Total(m) == m[k] + Total(m - {k})
    decreases |m|
  {
    var other :| other in m && Total(m) == m[other] + Total(m - {other});
    if other != k {
      TotalRemove(m - {other}, k);
      TotalRemove(m - {k}, other);
      assert m - {other} - {k} == m - {k} - {other};
    }
  }

  lemma TotalPut<K(!new)>(m: map<K, nat>, k: K, w: nat)
    ensures Total(m[k := w]) == w + Total(m - {k})
    ensures Total(m) == (if k in m then m[k] else 0) + Total(m - {k})
  {
    TotalRemove(m[k := w], k);
    assert m[k := w] - {k} == m - {k};
    if k in m {
      TotalRemove(m, k);
    } else {
      assert m - {k} == m;
    }
  }
}
