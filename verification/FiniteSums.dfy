/** Sums over finite maps, and two facts about the size of sets. */
module FiniteSums {

  ghost function Sum(m: map<nat, int>): int {
    if m == map[] then 0 else var k :| k in m; m[k] + Sum(m - {k})
  }

  lemma {:induction false} SumTake(m: map<nat, int>, k: nat)
    requires k in m
    ensures Sum(m) == m[k] + Sum(m - {k})
    decreases |m|
  {
    var p :| p in m && Sum(m) == m[p] + Sum(m - {p});
    if p != k {
      SumTake(m - {p}, k);
      SumTake(m - {k}, p);
      assert m - {p} - {k} == m - {k} - {p};
    }
  }

  lemma SumPut(m: map<nat, int>, k: nat, v: int)
    ensures Sum(m[k := v]) == Sum(m) + v - (if k in m then m[k] else 0)
  {
    SumTake(m[k := v], k);
    assert m[k := v] - {k} == m - {k};
    if k in m {
      SumTake(m, k);
    } else {
      assert m - {k} == m;
    }
  }

  lemma {:induction false} SumNonNegative(m: map<nat, int>)
    requires forall k :: k in m ==> m[k] >= 0
    ensures Sum(m) >= 0
    decreases |m|
  {
    if m != map[] {
      var k :| k in m && Sum(m) == m[k] + Sum(m - {k});
      SumNonNegative(m - {k});
    }
  }

  /** When every surviving summand is no larger than before, and at least one
      smaller on `dropped`, the sum has fallen by at least the size of `dropped`. */
  lemma {:induction false} SumFalls(before: map<nat, int>, after: map<nat, int>, dropped: set<nat>)
    requires after.Keys <= before.Keys && dropped <= after.Keys
    requires forall k :: k in before ==> before[k] >= 0
    requires forall k :: k in after ==> after[k] <= before[k]
    requires forall k :: k in dropped ==> after[k] < before[k]
    ensures Sum(after) + |dropped| <= Sum(before)
    decreases |before|
  {
    if before == map[] {
      assert after == map[];
    } else {
      var k :| k in before;
      SumTake(before, k);
      SumFalls(before - {k}, after - {k}, dropped - {k});
      if k in after {
        SumTake(after, k);
      } else {
        assert after - {k} == after;
      }
    }
  }

  lemma {:induction false} SubsetSize<T>(small: set<T>, large: set<T>)
    requires small <= large
    ensures |small| <= |large|
  {
    assert large == small + (large - small);
  }
}
