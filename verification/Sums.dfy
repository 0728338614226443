/** Sums of weights over the entries of a finite map. The step machines use them
    to count the calls that are in some stage, and as termination measures. */
module Sums {

  ghost function Sum<P>(m: map<nat, P>, weight: P -> nat): nat
    decreases |m|
  {
    if m == map[] then 0
    else
      var k :| k in m;
      Shrinks(m, k);
      weight(m[k]) + Sum(m - {k}, weight)
  }

  lemma Shrinks<P>(m: map<nat, P>, k: nat)
    requires k in m
    ensures |m - {k}| == |m| - 1
  {
    assert (m - {k}).Keys == m.Keys - {k};
  }

  /** The sum does not depend on the order in which entries are visited. */
  lemma {:induction false} SumSplit<P>(m: map<nat, P>, k: nat, weight: P -> nat)
    requires k in m
    ensures Sum(m, weight) == weight(m[k]) + Sum(m - {k}, weight)
    decreases |m|
  {
    var j :| j in m && Sum(m, weight) == weight(m[j]) + Sum(m - {j}, weight);
    if j != k {
      Shrinks(m, j);
      Shrinks(m, k);
      SumSplit(m - {j}, k, weight);
      SumSplit(m - {k}, j, weight);
      assert m - {j} - {k} == m - {k} - {j};
    }
  }

  /** The weight of entry `k`, nothing when there is no such entry. */
  ghost function WeightAt<P>(m: map<nat, P>, k: nat, weight: P -> nat): nat {
    if k in m then weight(m[k]) else 0
  }

  /** Changing, adding or removing one entry changes the sum by that entry's weight alone. */
  lemma SumChange<P>(m: map<nat, P>, n: map<nat, P>, k: nat, weight: P -> nat)
    requires m - {k} == n - {k}
    ensures Sum(n, weight) == Sum(m, weight) - WeightAt(m, k, weight) + WeightAt(n, k, weight)
  {
    if k in m {
      SumSplit(m, k, weight);
    } else {
      assert m - {k} == m;
    }
    if k in n {
      SumSplit(n, k, weight);
    } else {
      assert n - {k} == n;
    }
  }

  /** No entry weighs more than the whole. */
  lemma SumCovers<P>(m: map<nat, P>, k: nat, weight: P -> nat)
    requires k in m
    ensures weight(m[k]) <= Sum(m, weight)
  {
    SumSplit(m, k, weight);
  }

  /** A positive sum has an entry of positive weight. */
  lemma {:induction false} SumWitness<P>(m: map<nat, P>, weight: P -> nat) returns (k: nat)
    requires Sum(m, weight) > 0
    ensures k in m && weight(m[k]) > 0
    decreases |m|
  {
    k :| k in m && Sum(m, weight) == weight(m[k]) + Sum(m - {k}, weight);
    if weight(m[k]) == 0 {
      Shrinks(m, k);
      k := SumWitness(m - {k}, weight);
    }
  }

  /** Pointwise smaller weights give a smaller sum. */
  lemma {:induction false} SumMonotone<P>(m: map<nat, P>, n: map<nat, P>, weight: P -> nat)
    requires m.Keys == n.Keys
    requires forall k :: k in m ==> weight(m[k]) <= weight(n[k])
    ensures Sum(m, weight) <= Sum(n, weight)
    decreases |m|
  {
    if m != map[] {
      var k :| k in m;
      SumSplit(m, k, weight);
      SumSplit(n, k, weight);
      Shrinks(m, k);
      assert (m - {k}).Keys == m.Keys - {k} == (n - {k}).Keys;
      SumMonotone(m - {k}, n - {k}, weight);
    } else {
      assert n.Keys == {};
      assert n == map[];
    }
  }
}
