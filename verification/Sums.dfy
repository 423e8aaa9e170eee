/** Sums over the entries of a map. */
module Sums {

  ghost function Total<K(!new), V(!new)>(m: map<K, V>, f: (K, V) -> nat): nat
    decreases |m|
  {
    if m == map[] then 0
    else
      var k :| k in m;
      f(k, m[k]) + Total(m - {k}, f)
  }

  lemma {:induction false} TotalRemove<K(!new), V(!new)>(m: map<K, V>, f: (K, V) -> nat, k: K)
    requires k in m
    ensures Total(m, f) == f(k, m[k]) + Total(m - {k}, f)
    decreases |m|
  {
    var j :| j in m && Total(m, f) == f(j, m[j]) + Total(m - {j}, f);
    if j != k {
      TotalRemove(m - {j}, f, k);
      TotalRemove(m - {k}, f, j);
      assert m - {j} - {k} == m - {k} - {j};
    }
  }

  lemma TotalUpdate<K(!new), V(!new)>(m: map<K, V>, f: (K, V) -> nat, k: K, v: V)
    ensures Total(m[k := v], f) + (if k in m then f(k, m[k]) else 0) == Total(m, f) + f(k, v)
  {
    TotalRemove(m[k := v], f, k);
    if k in m {
      TotalRemove(m, f, k);
      assert m[k := v] - {k} == m - {k};
    } else {
      assert m[k := v] - {k} == m;
    }
  }

  lemma {:induction false} TotalZero<K(!new), V(!new)>(m: map<K, V>, f: (K, V) -> nat)
    requires forall k | k in m :: f(k, m[k]) == 0
    ensures Total(m, f) == 0
    decreases |m|
  {
    if m != map[] {
      var k :| k in m && Total(m, f) == f(k, m[k]) + Total(m - {k}, f);
      TotalZero(m - {k}, f);
    }
  }
}
