/** Sums over the values of a finite map, used to compare counters with the rows they summarise. */
module Sums {

  ghost function SumBy<K, V>(m: map<K, V>, f: V -> int): int
    decreases m.Keys
  {
    if m == map[] then 0
    else
      var k :| k in m;
      f(m[k]) + SumBy(m - {k}, f)
  }

  /** The sum does not depend on the order in which rows are visited. */
  lemma {:induction false} SumPick<K, V>(m: map<K, V>, k: K, f: V -> int)
    requires k in m
    ensures SumBy(m, f) == f(m[k]) + SumBy(m - {k}, f)
    decreases m.Keys
  {
    var first :| first in m && SumBy(m, f) == f(m[first]) + SumBy(m - {first}, f);
    if first != k {
      SumPick(m - {first}, k, f);
      SumPick(m - {k}, first, f);
      assert m - {first} - {k} == m - {k} - {first};
    }
  }

  /** Writing one row changes the sum by that row's contribution only. */
  lemma SumUpdate<K, V>(m: map<K, V>, k: K, v: V, f: V -> int)
    ensures SumBy(m[k := v], f) == SumBy(m, f) - (if k in m then f(m[k]) else 0) + f(v)
  {
    SumPick(m[k := v], k, f);
    assert m[k := v] - {k} == m - {k};
    if k in m {
      SumPick(m, k, f);
    } else {
      assert m - {k} == m;
    }
  }

  lemma {:induction false} SumNonNegative<K, V>(m: map<K, V>, f: V -> int)
    requires forall k | k in m :: f(m[k]) >= 0
    ensures SumBy(m, f) >= 0
    decreases m.Keys
  {
    if m != map[] {
      var k :| k in m;
      SumPick(m, k, f);
      SumNonNegative(m - {k}, f);
    }
  }

  /** A non-negative contribution is bounded by the whole sum. */
  lemma SumBoundsMember<K, V>(m: map<K, V>, k: K, f: V -> int)
    requires k in m
    requires forall i | i in m :: f(m[i]) >= 0
    ensures f(m[k]) <= SumBy(m, f)
  {
    SumPick(m, k, f);
    SumNonNegative(m - {k}, f);
  }

  lemma {:induction false} SumZero<K, V>(m: map<K, V>, f: V -> int)
    requires forall k | k in m :: f(m[k]) == 0
    ensures SumBy(m, f) == 0
    decreases m.Keys
  {
    if m != map[] {
      var k :| k in m;
      SumPick(m, k, f);
      SumZero(m - {k}, f);
    }
  }
}
