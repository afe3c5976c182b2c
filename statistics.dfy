/**
  `get_istatistikler` of app.py: the number of equipment records, the number
  in each of three states, and the number per category.
*/
module Statistics {
  import opened Records
  import opened Inventory

  /** The statistics reply (`toplam_ekipman`, `depodaki`, `kullanimda`, `arizali`, `kategori_dagilim`). */
  datatype Stats = Stats(toplam: nat, depodaki: nat, kullanimda: nat, arizali: nat, dagilim: map<string, nat>)

  /** The ids of the records whose state is exactly `status`. */
  function WithStatus(eq: map<nat, Equipment>, status: string): set<nat> {
    set i | i in eq && eq[i].durum == JStr(status)
  }

  /** The ids of the records whose category is in `ks`. */
  function InCategories(eq: map<nat, Equipment>, ks: set<string>): set<nat> {
    set i | i in eq && eq[i].kategori in ks
  }

  /** The categories some record names (the groups of the `GROUP BY`). */
  function UsedCategories(eq: map<nat, Equipment>): set<string> {
    set i | i in eq :: eq[i].kategori
  }

  /** The counting queries of `get_istatistikler`. */
  function StatsOf(eq: map<nat, Equipment>): (s: Stats)
    ensures s.toplam == |eq|
    ensures s.depodaki <= s.toplam && s.kullanimda <= s.toplam && s.arizali <= s.toplam
    ensures s.dagilim.Keys == UsedCategories(eq)
  {
    SubsetCard(WithStatus(eq, Depoda), eq.Keys);
    SubsetCard(WithStatus(eq, Kullanimda), eq.Keys);
    SubsetCard(WithStatus(eq, Arizali), eq.Keys);
    Stats(
      |eq|,
      |WithStatus(eq, Depoda)|,
      |WithStatus(eq, Kullanimda)|,
      |WithStatus(eq, Arizali)|,
      map k | k in UsedCategories(eq) :: |InCategories(eq, {k})|)
  }

  /** The sum of the values of `m` over the keys `ks`. */
  ghost function SumOver(m: map<string, nat>, ks: set<string>): nat
    requires ks <= m.Keys
  {
    if ks == {} then 0 else var k :| k in ks; m[k] + SumOver(m, ks - {k})
  }

  /** Any key may be taken out first. */
  lemma SumOverRemove(m: map<string, nat>, ks: set<string>, k: string)
    requires ks <= m.Keys && k in ks
    ensures SumOver(m, ks) == m[k] + SumOver(m, ks - {k})
    decreases |ks|
  {
    var k' :| k' in ks && SumOver(m, ks) == m[k'] + SumOver(m, ks - {k'});
    if k' != k {
      SumOverRemove(m, ks - {k'}, k);
      SumOverRemove(m, ks - {k}, k');
      assert ks - {k'} - {k} == ks - {k} - {k'};
    }
  }

  /** Each state count is at most the total, and the three together are too (a fourth state, "Hurda", exists). */
  lemma StatusCountsWithinTotal(eq: map<nat, Equipment>)
    ensures var s := StatsOf(eq);
      s.depodaki <= s.toplam && s.kullanimda <= s.toplam && s.arizali <= s.toplam
      && s.depodaki + s.kullanimda + s.arizali <= s.toplam
  {
    var a, b, c := WithStatus(eq, Depoda), WithStatus(eq, Kullanimda), WithStatus(eq, Arizali);
    assert a * b == {} && (a + b) * c == {};
    assert |a + b| == |a| + |b|;
    assert |a + b + c| == |a + b| + |c|;
    SubsetCard(a + b + c, eq.Keys);
    SubsetCard(a, a + b + c);
    SubsetCard(b, a + b + c);
    SubsetCard(c, a + b + c);
  }

  lemma SubsetCard<T>(x: set<T>, y: set<T>)
    requires x <= y
    ensures |x| <= |y|
  {
    assert x * y == x;
    assert |y - x| == |y| - |x * y|;
  }

  /** Counting by a set of categories sums the counts of its members. */
  lemma {:induction false} CountsAddUp(eq: map<nat, Equipment>, ks: set<string>)
    requires ks <= UsedCategories(eq)
    ensures SumOver(StatsOf(eq).dagilim, ks) == |InCategories(eq, ks)|
    decreases |ks|
  {
    var m := StatsOf(eq).dagilim;
    if ks == {} {
      assert InCategories(eq, ks) == {};
    } else {
      var k :| k in ks;
      SumOverRemove(m, ks, k);
      CountsAddUp(eq, ks - {k});
      assert InCategories(eq, ks) == InCategories(eq, {k}) + InCategories(eq, ks - {k});
      assert InCategories(eq, {k}) * InCategories(eq, ks - {k}) == {};
    }
  }

  /**
    The per-category counts cover every record once: they sum to the total,
    and every named category is listed.
  */
  lemma CategoryCountsSumToTotal(eq: map<nat, Equipment>)
    ensures var s := StatsOf(eq); SumOver(s.dagilim, s.dagilim.Keys) == s.toplam
    ensures var s := StatsOf(eq); forall i :: i in eq ==> eq[i].kategori in s.dagilim
  {
    var used := UsedCategories(eq);
    assert StatsOf(eq).dagilim.Keys == used;
    CountsAddUp(eq, used);
    assert InCategories(eq, used) == eq.Keys;
  }

  lemma CategoryCountsPositive(eq: map<nat, Equipment>)
    ensures var d := StatsOf(eq).dagilim; forall k :: k in d ==> d[k] > 0
  {
    var d := StatsOf(eq).dagilim;
    forall k | k in d ensures d[k] > 0 {
      var i :| i in eq && eq[i].kategori == k;
      assert i in InCategories(eq, {k});
    }
  }

  /** `get_istatistikler` on the store: it reads the equipment table and changes nothing. */
  method GetStatistics(store: Store) returns (s: Stats)
    ensures s == StatsOf(store.equipment)
    ensures s.depodaki + s.kullanimda + s.arizali <= s.toplam
  {
    StatusCountsWithinTotal(store.equipment);
    s := StatsOf(store.equipment);
  }
}
