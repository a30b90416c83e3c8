/** Sums of the values of a finite map. */
module Sums {
  ghost function Sum<K>(m: map<K, nat>): nat
    decreases |m.Keys|
  {
    if m.Keys == {} then 0
    else
      var k :| k in m.Keys;
      m[k] + Sum(m - {k})
  }

  /** The sum does not depend on the order in which the keys are taken. */
  lemma {:induction false} SumSplit<K>(m: map<K, nat>, k: K)
    requires k in m
    ensures Sum(m) == m[k] + Sum(m - {k})
    decreases |m.Keys|
  {
    var p :| p in m.Keys && Sum(m) == m[p] + Sum(m - {p});
    if p != k {
      SumSplit(m - {p}, k);
      SumSplit(m - {k}, p);
      assert (m - {p}) - {k} == (m - {k}) - {p};
    }
  }

  lemma SumUpdate<K>(m: map<K, nat>, k: K, v: nat)
    requires k !in m
    ensures Sum(m[k := v]) == Sum(m) + v
  {
    SumSplit(m[k := v], k);
    assert m[k := v] - {k} == m;
  }

  lemma {:induction false} SumMonotone<K>(m: map<K, nat>, m': map<K, nat>)
    requires m.Keys == m'.Keys
    requires forall k :: k in m ==> m[k] <= m'[k]
    ensures Sum(m) <= Sum(m')
    decreases |m.Keys|
  {
    if m.Keys == {} {
      assert m == m';
    } else {
      var k :| k in m.Keys;
      SumSplit(m, k);
      SumSplit(m', k);
      SumMonotone(m - {k}, m' - {k});
    }
  }

  lemma SumStrict<K>(m: map<K, nat>, m': map<K, nat>, k: K)
    requires m.Keys == m'.Keys && k in m && m[k] < m'[k]
    requires forall k :: k in m ==> m[k] <= m'[k]
    ensures Sum(m) < Sum(m')
  {
    SumSplit(m, k);
    SumSplit(m', k);
    SumMonotone(m - {k}, m' - {k});
  }

  lemma {:induction false} SumBounded<K>(m: map<K, nat>, bound: nat)
    requires forall k :: k in m ==> m[k] <= bound
    ensures Sum(m) <= bound * |m.Keys|
    decreases |m.Keys|
  {
    if m.Keys != {} {
      var k :| k in m.Keys;
      var rest := m - {k};
      assert rest.Keys == m.Keys - {k};
      SumSplit(m, k);
      SumBounded(rest, bound);
      Distribute(bound, |rest.Keys|);
    }
  }

  lemma Distribute(bound: nat, n: nat)
    ensures bound * (n + 1) == bound * n + bound
  {
  }
}
