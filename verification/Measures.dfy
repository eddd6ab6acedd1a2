/** Sums over the values of a finite map, for termination arguments. */
module Measures {

  ghost function Total<T>(m: map<nat, T>, weight: T -> nat): (sum: nat) {
    if m == map[] then 0
    else
      var k :| k in m;
      weight(m[k]) + Total(m - {k}, weight)
  }

  lemma {:induction false} TotalRemove<T>(m: map<nat, T>, weight: T -> nat, k: nat)
    requires k in m
    ensures Total(m, weight) == weight(m[k]) + Total(m - {k}, weight)
    decreases m
  {
    var j :| j in m && Total(m, weight) == weight(m[j]) + Total(m - {j}, weight);
    if j != k {
      TotalRemove(m - {j}, weight, k);
      TotalRemove(m - {k}, weight, j);
      assert m - {j} - {k} == m - {k} - {j};
    }
  }

  lemma TotalUpdate<T>(m: map<nat, T>, weight: T -> nat, k: nat, v: T)
    requires k in m
    ensures Total(m[k := v], weight) + weight(m[k]) == Total(m, weight) + weight(v)
  {
    TotalRemove(m, weight, k);
    TotalRemove(m[k := v], weight, k);
    assert m[k := v] - {k} == m - {k};
  }
}
