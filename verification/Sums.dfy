/** Sums of a finite map's values, independent of the order rows are visited in. */
module Sums {
  ghost function Sum<K(!new)>(m: map<K, real>): real
  {
    if m == map[] then 0.0 else
      var k :| k in m;
      m[k] + Sum(m - {k})
  }

  lemma {:induction false} SumPick<K(!new)>(m: map<K, real>, k: K)
    requires k in m
    ensures Sum(m) == m[k] + Sum(m - {k})
    decreases |m|
  {
    var j :| j in m && Sum(m) == m[j] + Sum(m - {j});
    if j != k {
      SumPick(m - {j}, k);
      SumPick(m - {k}, j);
      assert m - {j} - {k} == m - {k} - {j};
    }
  }

  lemma {:induction false} SumInsert<K(!new)>(m: map<K, real>, k: K, v: real)
    requires k !in m
    ensures Sum(m[k := v]) == Sum(m) + v
  {
    SumPick(m[k := v], k);
    assert m[k := v] - {k} == m;
  }

  lemma {:induction false} SumUpdate<K(!new)>(m: map<K, real>, k: K, v: real)
    requires k in m
    ensures Sum(m[k := v]) == Sum(m) - m[k] + v
  {
    SumPick(m, k);
    SumPick(m[k := v], k);
    assert m[k := v] - {k} == m - {k};
  }

  lemma {:induction false} SumAdds<K(!new)>(a: map<K, real>, b: map<K, real>, c: map<K, real>)
    requires a.Keys == b.Keys == c.Keys
    requires forall k :: k in a ==> c[k] == a[k] + b[k]
    ensures Sum(c) == Sum(a) + Sum(b)
    decreases |a|
  {
    if a == map[] {
      assert b == map[] && c == map[];
    } else {
      var k :| k in a;
      SumPick(a, k);
      SumPick(b, k);
      SumPick(c, k);
      SumAdds(a - {k}, b - {k}, c - {k});
    }
  }

  lemma {:induction false} SumZero<K(!new)>(m: map<K, real>)
    requires forall k :: k in m ==> m[k] == 0.0
    ensures Sum(m) == 0.0
    decreases |m|
  {
    if m != map[] {
      var k :| k in m;
      SumPick(m, k);
      SumZero(m - {k});
    }
  }

  lemma {:induction false} SumSingle<K(!new)>(m: map<K, real>, k: K)
    requires k in m && forall j :: j in m && j != k ==> m[j] == 0.0
    ensures Sum(m) == m[k]
  {
    SumPick(m, k);
    SumZero(m - {k});
  }

  /** The entries of `m` whose key belongs to group `g`. */
  ghost function GroupOf<K(!new), G(!new)>(m: map<K, real>, group: map<K, G>, g: G): map<K, real>
  {
    map k | k in m && k in group && group[k] == g :: m[k]
  }

  /** Group subtotals, one per group in `gs`. */
  ghost function Subtotals<K(!new), G(!new)>(m: map<K, real>, group: map<K, G>, gs: set<G>): map<G, real>
  {
    map g | g in gs :: Sum(GroupOf(m, group, g))
  }

  /** Adding one more entry raises its own group's subtotal and no other. */
  lemma {:induction false} SubtotalsPick<K(!new), G(!new)>(m: map<K, real>, group: map<K, G>, gs: set<G>, k: K)
    requires k in m && k in group && group[k] in gs
    ensures var before := Subtotals(m - {k}, group, gs);
            Subtotals(m, group, gs) == before[group[k] := before[group[k]] + m[k]]
  {
    var rest := m - {k};
    forall h | h in gs
      ensures Sum(GroupOf(m, group, h)) == Sum(GroupOf(rest, group, h)) + if h == group[k] then m[k] else 0.0
    {
      if h == group[k] {
        SumPick(GroupOf(m, group, h), k);
        assert GroupOf(m, group, h) - {k} == GroupOf(rest, group, h);
      } else {
        assert GroupOf(m, group, h) == GroupOf(rest, group, h);
      }
    }
  }

  lemma {:induction false} GroupedStep<K(!new), G(!new)>(m: map<K, real>, group: map<K, G>, gs: set<G>, k: K)
    requires k in m && k in group && group[k] in gs
    ensures Sum(Subtotals(m, group, gs)) == Sum(Subtotals(m - {k}, group, gs)) + m[k]
  {
    SubtotalsPick(m, group, gs, k);
    var before := Subtotals(m - {k}, group, gs);
    SumUpdate(before, group[k], before[group[k]] + m[k]);
  }

  /** Grouping loses nothing: the subtotals of a cover of all groups add up to the total. */
  lemma {:induction false} SumGrouped<K(!new), G(!new)>(m: map<K, real>, group: map<K, G>, gs: set<G>)
    requires m.Keys <= group.Keys
    requires forall k {:trigger group[k]} :: k in m ==> group[k] in gs
    ensures Sum(Subtotals(m, group, gs)) == Sum(m)
    decreases |m|
  {
    if m == map[] {
      assert forall g :: g in gs ==> GroupOf(m, group, g) == m;
      SumZero(Subtotals(m, group, gs));
    } else {
      var k :| k in m;
      SumPick(m, k);
      SumGrouped(m - {k}, group, gs);
      GroupedStep(m, group, gs, k);
    }
  }

  lemma {:induction false} SumAtLeast<K(!new)>(m: map<K, real>, k: K)
    requires k in m && forall j :: j in m ==> m[j] >= 0.0
    ensures Sum(m) >= m[k]
  {
    SumPick(m, k);
    SumNonNegative(m - {k});
  }

  lemma {:induction false} SumNonNegative<K(!new)>(m: map<K, real>)
    requires forall k :: k in m ==> m[k] >= 0.0
    ensures Sum(m) >= 0.0
    decreases |m|
  {
    if m != map[] {
      var k :| k in m;
      SumPick(m, k);
      SumNonNegative(m - {k});
    }
  }
}
