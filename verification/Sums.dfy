/** Totals over the rows of a table, taken in any order. */
module Sums {

  /** The sum of `f` over the rows of `m`. */
  ghost function Weigh<K, V>(m: map<K, V>, f: (K, V) -> int): int
    decreases |m|
  {
    if m == map[] then 0 else
      var k :| k in m;
      f(k, m[k]) + Weigh(m - {k}, f)
  }

  /** Any row may be taken out first, whatever row the definition picks. */
  lemma {:induction false} WeighRemove<K, V>(m: map<K, V>, k: K, f: (K, V) -> int)
    requires k in m
    ensures Weigh(m, f) == f(k, m[k]) + Weigh(m - {k}, f)
    decreases |m|
  {
    var j :| j in m && Weigh(m, f) == f(j, m[j]) + Weigh(m - {j}, f);
    if j != k {
      WeighRemove(m - {j}, k, f);
      WeighRemove(m - {k}, j, f);
      assert m - {j} - {k} == m - {k} - {j};
    }
  }

  /** What an INSERT or UPDATE of one row does to a total. */
  lemma WeighSet<K, V>(m: map<K, V>, k: K, v: V, f: (K, V) -> int)
    ensures Weigh(m[k := v], f) == Weigh(m, f) - (if k in m then f(k, m[k]) else 0) + f(k, v)
  {
    WeighRemove(m[k := v], k, f);
    assert m[k := v] - {k} == m - {k};
    if k in m {
      WeighRemove(m, k, f);
    } else {
      assert m - {k} == m;
    }
  }

  /** Rows that weigh the same give the same total. */
  lemma {:induction false} WeighAgree<K, V>(m: map<K, V>, n: map<K, V>, f: (K, V) -> int)
    requires m.Keys == n.Keys
    requires forall k :: k in m ==> f(k, m[k]) == f(k, n[k])
    ensures Weigh(m, f) == Weigh(n, f)
    decreases |m|
  {
    if m != map[] {
      var k :| k in m;
      WeighRemove(m, k, f);
      WeighRemove(n, k, f);
      WeighAgree(m - {k}, n - {k}, f);
    } else {
      assert n == map[];
    }
  }

  /** Rows that weigh no more than their counterparts give no more in total. */
  lemma {:induction false} WeighAtMost<K, V>(m: map<K, V>, f: (K, V) -> int, n: map<K, V>, g: (K, V) -> int)
    requires m.Keys == n.Keys
    requires forall k :: k in m ==> 0 <= f(k, m[k]) <= g(k, n[k])
    ensures 0 <= Weigh(m, f) <= Weigh(n, g)
    decreases |m|
  {
    if m != map[] {
      var k :| k in m;
      WeighRemove(m, k, f);
      WeighRemove(n, k, g);
      WeighAtMost(m - {k}, f, n - {k}, g);
    } else {
      assert n == map[];
    }
  }

  /** One lighter row makes the total smaller. */
  lemma WeighLess<K, V>(m: map<K, V>, f: (K, V) -> int, n: map<K, V>, g: (K, V) -> int, k: K)
    requires m.Keys == n.Keys && k in m && f(k, m[k]) < g(k, n[k])
    requires forall j :: j in m ==> 0 <= f(j, m[j]) <= g(j, n[j])
    ensures Weigh(m, f) < Weigh(n, g)
  {
    WeighRemove(m, k, f);
    WeighRemove(n, k, g);
    WeighAtMost(m - {k}, f, n - {k}, g);
  }

  /** Totals of parts add up to the total of the whole. */
  lemma {:induction false} WeighParts<K, V>(m: map<K, V>, f: (K, V) -> int, g: (K, V) -> int, h: (K, V) -> int)
    requires forall k :: k in m ==> f(k, m[k]) == g(k, m[k]) + h(k, m[k])
    ensures Weigh(m, f) == Weigh(m, g) + Weigh(m, h)
    decreases |m|
  {
    if m != map[] {
      var k :| k in m;
      WeighRemove(m, k, f);
      WeighRemove(m, k, g);
      WeighRemove(m, k, h);
      WeighParts(m - {k}, f, g, h);
    }
  }

  lemma SubsetSize<T>(a: set<T>, b: set<T>)
    requires a <= b
    ensures |a| <= |b|
  {
    assert b == a + (b - a);
  }
}
