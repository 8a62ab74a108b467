/** Sums over finite maps: the meaning of the counting loops over Go maps. */
module Sums {

  ghost function Total<K>(m: map<K, int>): int
  {
    if m == map[] then 0 else
      var k :| k in m;
      m[k] + Total(m - {k})
  }

  /** Any key may be taken out first: the iteration order does not matter. */
  lemma {:induction false} TotalRemove<K>(m: map<K, int>, k: K)
    requires k in m
    ensures Total(m) == m[k] + Total(m - {k})
  {
    var x :| x in m && Total(m) == m[x] + Total(m - {x});
    if x != k {
      TotalRemove(m - {x}, k);
      TotalRemove(m - {k}, x);
      assert m - {x} - {k} == m - {k} - {x};
    }
  }

  lemma TotalPut<K>(m: map<K, int>, k: K, v: int)
    ensures Total(m[k := v]) == Total(m) - (if k in m then m[k] else 0) + v
  {
    TotalRemove(m[k := v], k);
    assert m[k := v] - {k} == m - {k};
    if k in m {
      TotalRemove(m, k);
    } else {
      assert m - {k} == m;
    }
  }

  /** A sub-map of a map of non-negative amounts sums to no more. */
  lemma {:induction false} TotalMonotone<K>(small: map<K, int>, big: map<K, int>)
    requires forall k :: k in small ==> k in big && small[k] == big[k]
    requires forall k :: k in big ==> 0 <= big[k]
    ensures 0 <= Total(small) <= Total(big)
    decreases |big|
  {
    if big == map[] {
      assert small == map[];
    } else {
      var k :| k in big;
      TotalRemove(big, k);
      TotalMonotone(small - {k}, big - {k});
      if k in small {
        TotalRemove(small, k);
      } else {
        assert small - {k} == small;
      }
    }
  }

  lemma TotalSingle<K>(m: map<K, int>, k: K)
    requires forall x :: x in m && x != k ==> m[x] == 0
    ensures Total(m) == if k in m then m[k] else 0
  {
  }

  lemma {:induction false} TotalZero<K>(m: map<K, int>)
    requires forall x :: x in m ==> m[x] == 0
    ensures Total(m) == 0
    decreases |m|
  {
    if m != map[] {
      var k :| k in m;
      TotalRemove(m, k);
      TotalZero(m - {k});
    }
  }
}
