/** Sums of the values of a finite map, independent of any order of its keys. */
module Sums {
  ghost function Pick<K>(m: map<K, int>): (k: K)
    requires m != map[]
    ensures k in m
  {
    var k :| k in m; k
  }

  ghost function Total<K>(m: map<K, int>): int
    decreases |m|
  {
    if m == map[] then 0
    else
      var k := Pick(m);
      RemoveShrinks(m, k);
      m[k] + Total(m - {k})
  }

  lemma RemoveShrinks<K>(m: map<K, int>, k: K)
    requires k in m
    ensures |m - {k}| == |m| - 1
  {
    assert (m - {k}).Keys == m.Keys - {k};
  }

  lemma {:induction false} TotalRemove<K>(m: map<K, int>, k: K)
    requires k in m
    ensures Total(m) == m[k] + Total(m - {k})
    decreases |m|
  {
    var p := Pick(m);
    if p != k {
      RemoveShrinks(m, p);
      RemoveShrinks(m, k);
      TotalRemove(m - {p}, k);
      TotalRemove(m - {k}, p);
      assert m - {p} - {k} == m - {k} - {p};
    }
  }

  lemma TotalUpdate<K>(m: map<K, int>, k: K, v: int)
    ensures Total(m[k := v]) == Total(m) + v - (if k in m then m[k] else 0)
  {
    TotalRemove(m[k := v], k);
    assert m[k := v] - {k} == m - {k};
    if k in m { TotalRemove(m, k); } else { assert m - {k} == m; }
  }

  lemma UnionSplit<K>(m: map<K, int>, n: map<K, int>, k: K)
    requires m.Keys !! n.Keys && k in n
    ensures k !in m + (n - {k}) && (m + (n - {k}))[k := n[k]] == m + n
  {
  }

  lemma {:induction false} TotalUnion<K>(m: map<K, int>, n: map<K, int>)
    requires m.Keys !! n.Keys
    ensures Total(m + n) == Total(m) + Total(n)
    decreases |n|
  {
    if n == map[] {
      assert m + n == m;
    } else {
      var k := Pick(n);
      var rest := n - {k};
      RemoveShrinks(n, k);
      TotalUnion(m, rest);
      TotalUpdate(m + rest, k, n[k]);
      UnionSplit(m, n, k);
    }
  }

  lemma {:induction false} TotalNonNegative<K>(m: map<K, int>)
    requires forall k :: k in m ==> m[k] >= 0
    ensures Total(m) >= 0
    ensures forall k :: k in m ==> m[k] <= Total(m)
    decreases |m|
  {
    if m != map[] {
      var p := Pick(m);
      RemoveShrinks(m, p);
      TotalNonNegative(m - {p});
      forall k | k in m ensures m[k] <= Total(m) {
        if k != p { assert k in m - {p}; }
      }
    }
  }
}
