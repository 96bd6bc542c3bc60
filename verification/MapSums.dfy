/** Option, and sums over the integer values of a finite map. */
module MapSums {

  datatype Option<+T> = None | Some(value: T) {
    function GetOr(default: T): T {
      if Some? then value else default
    }
  }

  ghost function Pick<K>(m: map<K, int>): (k: K)
    requires m != map[]
    ensures k in m
  {
    assert m.Keys != {};
    var k :| k in m; k
  }

  /** The sum of all values of m. */
  ghost function Sum<K>(m: map<K, int>): int {
    if m == map[] then 0 else m[Pick(m)] + Sum(m - {Pick(m)})
  }

  /** The value at k, or 0 where m has no entry. */
  function At<K>(m: map<K, int>, k: K): int {
    if k in m then m[k] else 0
  }

  lemma {:induction false} SumRemove<K>(m: map<K, int>, k: K)
    requires k in m
    ensures Sum(m) == m[k] + Sum(m - {k})
    decreases |m|
  {
    var p := Pick(m);
    if p != k {
      SumRemove(m - {p}, k);
      SumRemove(m - {k}, p);
      assert m - {p} - {k} == m - {k} - {p};
    }
  }

  lemma SumUpdate<K>(m: map<K, int>, k: K, v: int)
    ensures Sum(m[k := v]) == Sum(m) - At(m, k) + v
  {
    SumRemove(m[k := v], k);
    if k in m {
      SumRemove(m, k);
      assert m[k := v] - {k} == m - {k};
    } else {
      assert m[k := v] - {k} == m;
    }
  }

  lemma {:induction false} SumAtMost<K>(m: map<K, int>, bound: map<K, int>)
    requires m.Keys == bound.Keys
    requires forall k :: k in m ==> m[k] <= bound[k]
    ensures Sum(m) <= Sum(bound)
    decreases |m|
  {
    if m == map[] {
      assert bound.Keys == {};
      assert bound == map[];
    } else {
      var k := Pick(m);
      SumRemove(bound, k);
      SumAtMost(m - {k}, bound - {k});
    }
  }

  lemma {:induction false} SumNonNegative<K>(m: map<K, int>)
    requires forall k :: k in m ==> m[k] >= 0
    ensures Sum(m) >= 0
    ensures forall k :: k in m ==> m[k] <= Sum(m)
    decreases |m|
  {
    if m != map[] {
      SumNonNegative(m - {Pick(m)});
    }
    forall k | k in m ensures m[k] <= Sum(m) {
      SumRemove(m, k);
      SumNonNegative(m - {k});
    }
  }

  // a + b, with b's entry at k added last.
  lemma UnionByOne<K>(a: map<K, int>, b: map<K, int>, k: K, rest: map<K, int>)
    requires a.Keys !! b.Keys && k in b && rest == b - {k}
    ensures a + b == (a + rest)[k := b[k]] && k !in a + rest && a.Keys !! rest.Keys && |rest| < |b|
  {
    assert rest.Keys == b.Keys - {k};
  }

  lemma {:induction false} SumUnion<K>(a: map<K, int>, b: map<K, int>)
    requires a.Keys !! b.Keys
    ensures Sum(a + b) == Sum(a) + Sum(b)
    decreases |b|
  {
    if b == map[] {
      assert a + b == a;
    } else {
      var k := Pick(b);
      var rest := b - {k};
      UnionByOne(a, b, k, rest);
      SumUnion(a, rest);
      SumUpdate(a + rest, k, b[k]);
    }
  }
}
