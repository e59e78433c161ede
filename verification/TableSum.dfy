/** Sums over finite tables. */
module TableSum {
  ghost function Sum<K>(m: map<K, nat>): nat
    decreases |m|
  {
    if m == map[] then 0
    else
      var k :| k in m;
      m[k] + Sum(m - {k})
  }

  /** The sum does not depend on the order in which keys are picked. */
  lemma {:induction false} SumRemove<K>(m: map<K, nat>, k: K)
    requires k in m
    ensures Sum(m) == m[k] + Sum(m - {k})
    decreases |m|
  {
    var p :| p in m && Sum(m) == m[p] + Sum(m - {p});
    if p != k {
      SumRemove(m - {p}, k);
      SumRemove(m - {k}, p);
      assert m - {p} - {k} == m - {k} - {p};
    }
  }

  lemma SumInsert<K>(m: map<K, nat>, k: K, v: nat)
    ensures Sum(m[k := v]) == Sum(m - {k}) + v
    ensures k !in m ==> Sum(m - {k}) == Sum(m)
    ensures k in m ==> Sum(m - {k}) == Sum(m) - m[k]
  {
    SumRemove(m[k := v], k);
    assert m[k := v] - {k} == m - {k};
    if k in m { SumRemove(m, k); } else { assert m - {k} == m; }
  }

  lemma {:induction false} SumZero<K>(m: map<K, nat>)
    ensures Sum(m) == 0 <==> forall k :: k in m ==> m[k] == 0
    decreases |m|
  {
    if m != map[] {
      var k :| k in m;
      SumRemove(m, k);
      SumZero(m - {k});
      assert forall j :: j in m ==> j == k || (j in m - {k} && (m - {k})[j] == m[j]);
    }
  }

  // ----- tables of rows that have a size ------------------------------------

  function Sizes<K, R>(rows: map<K, R>, size: R -> nat): map<K, nat> { map k | k in rows :: size(rows[k]) }

  lemma SizesRemove<K, R>(rows: map<K, R>, size: R -> nat, k: K)
    ensures Sum(Sizes(rows - {k}, size)) == Sum(Sizes(rows, size)) - if k in rows then size(rows[k]) else 0
  {
    SumInsert(Sizes(rows, size), k, 0);
    assert Sizes(rows - {k}, size) == Sizes(rows, size) - {k};
  }

  lemma SizesInsert<K, R>(rows: map<K, R>, size: R -> nat, k: K, r: R)
    ensures Sum(Sizes(rows[k := r], size)) == Sum(Sizes(rows - {k}, size)) + size(r)
  {
    SumInsert(Sizes(rows, size), k, size(r));
    assert Sizes(rows[k := r], size) == Sizes(rows, size)[k := size(r)];
    assert Sizes(rows - {k}, size) == Sizes(rows, size) - {k};
  }
}
