/** Sums of naturals over the entries of a finite map. */
module Sums {

  ghost function Sum<K(!new)>(m: map<K, nat>): nat
    decreases |m|
  {
    if k :| k in m then m[k] + Sum(m - {k}) else 0
  }

  lemma {:induction false} SumWithout<K(!new)>(m: map<K, nat>, k: K)
    requires k in m
    ensures Sum(m) == m[k] + Sum(m - {k})
    decreases |m|
  {
    var picked :| picked in m && Sum(m) == m[picked] + Sum(m - {picked});
    if picked != k {
      SumWithout(m - {picked}, k);
      SumWithout(m - {k}, picked);
      assert m - {picked} - {k} == m - {k} - {picked};
    }
  }

  /** Changing one entry changes the sum by the difference. */
  lemma SumUpdated<K(!new)>(m: map<K, nat>, k: K, v: nat)
    requires k in m
    ensures Sum(m[k := v]) + m[k] == Sum(m) + v
  {
    SumWithout(m, k);
    SumWithout(m[k := v], k);
    assert m[k := v] - {k} == m - {k};
  }

  /** Entry by entry no more, and in some entry less. */
  lemma {:induction false} SumsCompare<K(!new)>(a: map<K, nat>, b: map<K, nat>, c: map<K, nat>, d: map<K, nat>)
    requires a.Keys == b.Keys == c.Keys == d.Keys && forall k <- a :: a[k] + b[k] <= c[k] + d[k]
    ensures Sum(a) + Sum(b) <= Sum(c) + Sum(d)
    ensures (exists k <- a :: a[k] + b[k] < c[k] + d[k]) ==> Sum(a) + Sum(b) < Sum(c) + Sum(d)
    decreases |a|
  {
    if k :| k in a {
      SumWithout(a, k);
      SumWithout(b, k);
      SumWithout(c, k);
      SumWithout(d, k);
      SumsCompare(a - {k}, b - {k}, c - {k}, d - {k});
      assert (a - {k}).Keys == (b - {k}).Keys == (c - {k}).Keys == (d - {k}).Keys;
      if j :| j in a && a[j] + b[j] < c[j] + d[j] {
        assert j == k || j in a - {k};
      }
    }
  }
}
