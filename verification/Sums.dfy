/** Sums of a weight over the values of a finite map: the reading of "total over
    all positions", "total over all wallets" and "total over all markets". */
module Sums {

  ghost function Pick<K(!new), V>(m: map<K, V>): (k: K)
    requires m != map[]
    ensures k in m
  {
    assert m.Keys != {};
    var k :| k in m;
    k
  }

  ghost function Total<K(!new), V>(m: map<K, V>, weight: V -> nat): nat
    decreases |m|
  {
    if m == map[] then 0
    else
      var k := Pick(m);
      weight(m[k]) + Total(m - {k}, weight)
  }

  /** The order in which the entries are added does not matter. */
  lemma {:induction false} TotalRemove<K(!new), V>(m: map<K, V>, weight: V -> nat, k: K)
    requires k in m
    ensures Total(m, weight) == weight(m[k]) + Total(m - {k}, weight)
    decreases |m|
  {
    var first := Pick(m);
    if first != k {
      TotalRemove(m - {first}, weight, k);
      TotalRemove(m - {k}, weight, first);
      assert m - {first} - {k} == m - {k} - {first};
    }
  }

  lemma TotalUpdate<K(!new), V>(m: map<K, V>, weight: V -> nat, k: K, v: V)
    ensures Total(m[k := v], weight) == Total(m, weight) - (if k in m then weight(m[k]) else 0) + weight(v)
  {
    TotalRemove(m[k := v], weight, k);
    assert m[k := v] - {k} == m - {k};
    if k in m {
      TotalRemove(m, weight, k);
    } else {
      assert m - {k} == m;
    }
  }

  lemma TotalAtLeast<K(!new), V>(m: map<K, V>, weight: V -> nat, k: K)
    requires k in m
    ensures weight(m[k]) <= Total(m, weight)
  {
    TotalRemove(m, weight, k);
  }

  lemma {:induction false} TotalZero<K(!new), V>(m: map<K, V>, weight: V -> nat)
    requires forall k :: k in m ==> weight(m[k]) == 0
    ensures Total(m, weight) == 0
    decreases |m|
  {
    if m != map[] {
      TotalZero(m - {Pick(m)}, weight);
    }
  }

  /** Extending a map by weightless entries, and keeping the other weights, keeps the total. */
  lemma {:induction false} TotalExtend<K(!new), V>(m: map<K, V>, n: map<K, V>, weight: V -> nat)
    requires m.Keys <= n.Keys
    requires forall k :: k in n ==> weight(n[k]) == if k in m then weight(m[k]) else 0
    ensures Total(n, weight) == Total(m, weight)
    decreases |n|
  {
    if n == map[] {
      assert m == map[];
    } else {
      var k := Pick(n);
      if k in m {
        TotalRemove(m, weight, k);
        TotalExtend(m - {k}, n - {k}, weight);
      } else {
        TotalExtend(m, n - {k}, weight);
      }
    }
  }

  /** Entry by entry no heavier, in total no heavier. */
  lemma {:induction false} TotalMonotone<K(!new), V>(m: map<K, V>, n: map<K, V>, weight: V -> nat)
    requires m.Keys == n.Keys
    requires forall k :: k in m ==> weight(m[k]) <= weight(n[k])
    ensures Total(m, weight) <= Total(n, weight)
    decreases |m|
  {
    if m == map[] {
      assert n == map[];
    } else {
      var k := Pick(m);
      TotalRemove(n, weight, k);
      TotalMonotone(m - {k}, n - {k}, weight);
    }
  }

  /** Entry by entry no heavier, and as heavy in total exactly when as heavy in every entry. */
  lemma {:induction false} TotalSameIff<K(!new), V>(m: map<K, V>, n: map<K, V>, weight: V -> nat)
    requires m.Keys == n.Keys
    requires forall k :: k in m ==> weight(m[k]) <= weight(n[k])
    ensures Total(m, weight) == Total(n, weight) <==> forall k :: k in m ==> weight(m[k]) == weight(n[k])
    decreases |m|
  {
    if m == map[] {
      assert n == map[];
    } else {
      var k := Pick(m);
      TotalRemove(n, weight, k);
      TotalMonotone(m - {k}, n - {k}, weight);
      TotalSameIff(m - {k}, n - {k}, weight);
      assert forall j :: j in m ==> j == k || j in m - {k};
    }
  }
}
