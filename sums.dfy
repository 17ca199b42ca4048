/**
  Sums over the values of a dictionary (Python's `sum(d.values())` and loops
  that accumulate over `d.keys()`). The sum does not depend on the order in
  which the keys are visited; `SumRemove` is the fact that says so.
 */
module Sums {

  /** The sum of the values of `m`. */
  ghost function Sum<K>(m: map<K, int>): int
    decreases |m|
  {
    if m == map[] then 0
    else
      var k :| k in m;
      m[k] + Sum(m - {k})
  }

  /** `m` restricted to the keys in `ks`. */
  function Restrict<K, V>(m: map<K, V>, ks: set<K>): (r: map<K, V>)
    ensures r.Keys == m.Keys * ks
    ensures forall k :: k in r ==> r[k] == m[k]
  {
    map k | k in m && k in ks :: m[k]
  }

  /** Any key may be taken out first: the sum is order-independent. */
  lemma {:induction false} SumRemove<K>(m: map<K, int>, k: K)
    requires k in m
    ensures Sum(m) == m[k] + Sum(m - {k})
    decreases |m|
  {
    var j :| j in m && Sum(m) == m[j] + Sum(m - {j});
    if j != k {
      var m' := m - {j};
      SumRemove(m', k);
      SumRemove(m - {k}, j);
      assert m' - {k} == (m - {k}) - {j};
    }
  }

  /** Updating one value changes the sum by the difference. */
  lemma SumUpdate<K>(m: map<K, int>, k: K, v: int)
    ensures Sum(m[k := v]) == Sum(m) - (if k in m then m[k] else 0) + v
  {
    SumRemove(m[k := v], k);
    if k in m {
      SumRemove(m, k);
      assert m[k := v] - {k} == m - {k};
    } else {
      assert m[k := v] - {k} == m;
    }
  }

  /** A sum of non-negative values is non-negative. */
  lemma {:induction false} SumNonNegative<K>(m: map<K, int>)
    requires forall k :: k in m ==> m[k] >= 0
    ensures Sum(m) >= 0
    decreases |m|
  {
    if m != map[] {
      var k :| k in m;
      SumRemove(m, k);
      SumNonNegative(m - {k});
    }
  }

  /** A sum of values that are all at least 1 is at least the number of keys. */
  lemma {:induction false} SumAtLeastSize<K>(m: map<K, int>)
    requires forall k :: k in m ==> m[k] >= 1
    ensures Sum(m) >= |m|
    decreases |m|
  {
    if m != map[] {
      var k :| k in m;
      SumRemove(m, k);
      SumAtLeastSize(m - {k});
    }
  }

  /** A sum of values that are all at most `bound` is at most `bound` times the number of keys. */
  lemma {:induction false} SumAtMost<K>(m: map<K, int>, bound: int)
    requires forall k :: k in m ==> m[k] <= bound
    ensures Sum(m) <= |m| * bound
    decreases |m|
  {
    if m != map[] {
      var k :| k in m;
      SumRemove(m, k);
      SumAtMost(m - {k}, bound);
      assert |m - {k}| + 1 == |m|;
      MulStep(|m - {k}|, bound);
    }
  }

  /** One more copy of `b` in `n * b`. */
  lemma MulStep(n: int, b: int)
    ensures n * b + b == (n + 1) * b
  {
  }

  /** `sum(m.values())`, visiting the keys in an arbitrary order. */
  method SumValues<K>(m: map<K, int>) returns (s: int)
    ensures s == Sum(m)
  {
    s := 0;
    var rest := m.Keys;
    assert Restrict(m, rest) == m;
    while rest != {}
      invariant rest <= m.Keys
      invariant s + Sum(Restrict(m, rest)) == Sum(m)
      decreases rest
    {
      var k :| k in rest;
      SumRemove(Restrict(m, rest), k);
      assert Restrict(m, rest - {k}) == Restrict(m, rest) - {k};
      s := s + m[k];
      rest := rest - {k};
    }
    assert Restrict(m, rest) == map[];
  }
}
