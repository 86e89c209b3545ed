/** Sums over the entries of a finite map, and over an initial segment of the naturals. */
module Sums {

  /** The entry at `k`; a key that was never written reads as zero. */
  function Get<K>(m: map<K, nat>, k: K): nat {
    if k in m then m[k] else 0
  }

  ghost function MapSum<K>(m: map<K, nat>): nat {
    if m == map[] then 0
    else
      var k :| k in m;
      m[k] + MapSum(m - {k})
  }

  /** Any key may be taken out first. */
  lemma {:induction false} MapSumRemove<K>(m: map<K, nat>, k: K)
    requires k in m
    ensures MapSum(m) == m[k] + MapSum(m - {k})
    decreases |m|
  {
    var j :| j in m && MapSum(m) == m[j] + MapSum(m - {j});
    if j != k {
      MapSumRemove(m - {j}, k);
      MapSumRemove(m - {k}, j);
      assert m - {j} - {k} == m - {k} - {j};
    }
  }

  /** Writing one entry moves the sum by the change of that entry. */
  lemma {:induction false} MapSumUpdate<K>(m: map<K, nat>, k: K, v: nat)
    ensures MapSum(m[k := v]) == MapSum(m) - Get(m, k) + v
  {
    MapSumRemove(m[k := v], k);
    if k in m {
      MapSumRemove(m, k);
      assert m[k := v] - {k} == m - {k};
    } else {
      assert m[k := v] - {k} == m;
    }
  }

  /** No entry exceeds the sum of all. */
  lemma {:induction false} MapSumBoundsEntry<K>(m: map<K, nat>, k: K)
    ensures Get(m, k) <= MapSum(m)
  {
    if k in m {
      MapSumRemove(m, k);
    }
  }

  /** f(0) + ... + f(n - 1). */
  ghost function SumBelow(n: nat, f: nat -> int): int {
    if n == 0 then 0 else SumBelow(n - 1, f) + f(n - 1)
  }

  lemma {:induction false} SumBelowSame(n: nat, f: nat -> int, g: nat -> int)
    requires forall i: nat :: i < n ==> f(i) == g(i)
    ensures SumBelow(n, f) == SumBelow(n, g)
  {
    if n > 0 {
      SumBelowSame(n - 1, f, g);
    }
  }

  /** Two summands that differ at one index only. */
  lemma {:induction false} SumBelowUpdate(n: nat, f: nat -> int, g: nat -> int, k: nat)
    requires k < n
    requires forall i: nat :: i < n && i != k ==> f(i) == g(i)
    ensures SumBelow(n, g) == SumBelow(n, f) - f(k) + g(k)
  {
    if k == n - 1 {
      SumBelowSame(n - 1, f, g);
    } else {
      SumBelowUpdate(n - 1, f, g, k);
    }
  }
}
