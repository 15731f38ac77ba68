/**
 * The value-building part of `plot_stacked_bar_single_area_single_element`
 * and `plot_stacked_bar_single_area_single_item`: one dense series per
 * category on the sorted year axis of the filtered table, zero where the
 * category has no row for a year, each drawn on top of the sum of the series
 * drawn before it.
 */
module StackedBar {
  import opened Wrappers
  import opened Unique
  import opened Table

  /** Strictly ascending. */
  predicate Increasing(s: seq<int>)
  {
    forall j, k :: 0 <= j < k < |s| ==> s[j] < s[k]
  }

  /** Inserts `y` into the ascending `s`, unless it is there already. */
  function Insert(s: seq<int>, y: int): (r: seq<int>)
    requires Increasing(s)
    ensures Increasing(r)
    ensures forall x :: x in r <==> x in s || x == y
  {
    if s == [] then [y]
    else if y < s[0] then [y] + s
    else if y == s[0] then s
    else
      assert Increasing(s[1..]);
      assert forall x :: x in s[1..] ==> s[0] < x;
      var t := Insert(s[1..], y);
      assert forall k :: 0 <= k < |t| ==> s[0] < t[k] by {
        forall k | 0 <= k < |t| ensures s[0] < t[k] {
          assert t[k] in t;
        }
      }
      [s[0]] + t
  }

  /** `sorted(set(ys))`: the distinct values of `ys`, ascending. */
  function SortedDistinct(ys: seq<int>): (r: seq<int>)
    ensures Increasing(r)
    ensures forall x :: x in r <==> x in ys
  {
    if ys == [] then []
    else
      assert forall x :: x in ys <==> x in ys[..|ys| - 1] || x == ys[|ys| - 1] by {
        assert ys == ys[..|ys| - 1] + [ys[|ys| - 1]];
      }
      Insert(SortedDistinct(ys[..|ys| - 1]), ys[|ys| - 1])
  }

  /** `sorted(df.year.unique())`, the common x axis of every series. */
  function YearAxis(df: seq<Row>): (r: seq<int>)
    ensures Increasing(r)
    ensures forall y :: y in r <==> y in YearColumn(df)
  {
    SortedDistinct(YearColumn(df))
  }

  /**
   * The axis is ascending, holds exactly the years of the table and has
   * `df.year.nunique()` positions, one bar slot (`np.arange`) each.
   */
  lemma YearAxisSpec(df: seq<Row>)
    ensures Increasing(YearAxis(df))
    ensures forall y :: y in YearAxis(df) <==> exists k :: 0 <= k < |df| && df[k].year == y
    ensures |YearAxis(df)| == |Elements(YearColumn(df))|
  {
    var axis := YearAxis(df);
    assert NoDup(axis);
    NoDupCardinality(axis);
    assert Elements(axis) == Elements(YearColumn(df));
    forall y | y in axis ensures exists k :: 0 <= k < |df| && df[k].year == y {
      var k :| 0 <= k < |YearColumn(df)| && YearColumn(df)[k] == y;
    }
  }

  /** Which column a category code is matched against. */
  datatype Stacking = ByItem | ByElement

  /** The mask `(df.itemcode == code) & (df.year == y)`, or the element one. */
  function Slot(kind: Stacking, code: int, y: int): Query
  {
    And(if kind == ByItem then ItemIs(code) else ElementIs(code), YearIs(y))
  }

  /**
   * The series entry for one mask: the first matching row's value times
   * `factor`, or 0 when the filtered frame is empty.
   */
  function CellValue(df: seq<Row>, q: Query, factor: real): (v: real)
    ensures NoneMatch(df, q) ==> v == 0.0
    ensures !NoneMatch(df, q) ==> v == df[FirstWhere(df, q).value].value * factor
  {
    match FirstWhere(df, q)
    case None => 0.0
    case Some(k) => df[k].value * factor
  }

  /** One `ax.bar` call: the bar heights and the offset they are drawn on. */
  datatype Bar = Bar(values: seq<real>, bottom: Option<seq<real>>)

  /** The bar heights of each call, in order (`below`). */
  function Heights(bars: seq<Bar>): (r: seq<seq<real>>)
    ensures |r| == |bars| && forall k {:trigger r[k]} :: 0 <= k < |bars| ==> r[k] == bars[k].values
  {
    if bars == [] then [] else Heights(bars[..|bars| - 1]) + [bars[|bars| - 1].values]
  }

  /** The sum of position `j` over every series. */
  function Total(series: seq<seq<real>>, j: nat): real
    requires forall m :: 0 <= m < |series| ==> j < |series[m]|
  {
    if series == [] then 0.0 else Total(series[..|series| - 1], j) + series[|series| - 1][j]
  }

  /** `n` zeros. */
  function Zeros(n: nat): (r: seq<real>)
    ensures |r| == n && forall j :: 0 <= j < n ==> r[j] == 0.0
  {
    if n == 0 then [] else Zeros(n - 1) + [0.0]
  }

  /** Elementwise sum of two series of one length. */
  function Add(a: seq<real>, b: seq<real>): (r: seq<real>)
    requires |a| == |b|
    ensures |r| == |a| && forall j {:trigger r[j]} :: 0 <= j < |a| ==> r[j] == a[j] + b[j]
  {
    if a == [] then [] else Add(a[..|a| - 1], b[..|b| - 1]) + [a[|a| - 1] + b[|b| - 1]]
  }

  /** `np.sum(below, axis=0)` over series of length `n`: their elementwise total. */
  function ColumnSums(series: seq<seq<real>>, n: nat): (r: seq<real>)
    requires forall m :: 0 <= m < |series| ==> |series[m]| == n
    ensures |r| == n && forall j {:trigger r[j]} :: 0 <= j < n ==> r[j] == Total(series, j)
  {
    if series == [] then Zeros(n)
    else Add(ColumnSums(series[..|series| - 1], n), series[|series| - 1])
  }

  /** The dense series of category `code` on `axis`: one entry per year. */
  function Series(df: seq<Row>, kind: Stacking, code: int, axis: seq<int>, factor: real): (r: seq<real>)
    ensures |r| == |axis|
  {
    if axis == [] then []
    else Series(df, kind, code, axis[..|axis| - 1], factor) + [CellValue(df, Slot(kind, code, axis[|axis| - 1]), factor)]
  }

  /**
   * Entry `j` of a series is the value of the first row of category `code` in
   * year `axis[j]` times `factor`, or 0 when the category has no row that year.
   */
  lemma {:induction false} SeriesAt(df: seq<Row>, kind: Stacking, code: int, axis: seq<int>, factor: real, j: nat)
    requires j < |axis|
    ensures Series(df, kind, code, axis, factor)[j] == CellValue(df, Slot(kind, code, axis[j]), factor)
  {
    if j < |axis| - 1 {
      SeriesAt(df, kind, code, axis[..|axis| - 1], factor, j);
    }
  }

  /** The running total at each position of the first `k` series of `bars`. */
  function Below(bars: seq<Bar>, k: nat, n: nat): (r: seq<real>)
    requires k <= |bars| && forall m :: 0 <= m < k ==> |bars[m].values| == n
    ensures |r| == n
  {
    if k == 0 then Zeros(n) else Add(Below(bars, k - 1, n), bars[k - 1].values)
  }

  /** Every call draws `n` heights. */
  predicate Uniform(bars: seq<Bar>, n: nat)
  {
    forall k :: 0 <= k < |bars| ==> |bars[k].values| == n
  }

  /**
   * The first `k` calls are drawn on their offsets: the first with none, each
   * later one on the running total of the calls before it.
   */
  predicate OffsetsUpTo(bars: seq<Bar>, k: nat, n: nat)
    requires k <= |bars| && Uniform(bars, n)
  {
    k == 0 || (OffsetsUpTo(bars, k - 1, n) && bars[k - 1].bottom == if k == 1 then None else Some(Below(bars, k - 1, n)))
  }

  /** Every call is drawn on its offset. */
  predicate Offsets(bars: seq<Bar>, n: nat)
    requires Uniform(bars, n)
  {
    OffsetsUpTo(bars, |bars|, n)
  }

  /** Call `k` has no offset when it is the first and otherwise sits on the total of calls `0..k`. */
  lemma {:induction false} OffsetsUpToAt(bars: seq<Bar>, m: nat, n: nat, k: nat)
    requires k < m <= |bars| && Uniform(bars, n) && OffsetsUpTo(bars, m, n)
    ensures bars[k].bottom == if k == 0 then None else Some(Below(bars, k, n))
  {
    if k < m - 1 {
      OffsetsUpToAt(bars, m - 1, n, k);
    }
  }

  /** The series of each category of `codes`, in order. */
  function SeriesList(df: seq<Row>, kind: Stacking, codes: seq<int>, axis: seq<int>, factor: real): (r: seq<seq<real>>)
    ensures |r| == |codes| && forall m :: 0 <= m < |r| ==> |r[m]| == |axis|
  {
    if codes == [] then []
    else SeriesList(df, kind, codes[..|codes| - 1], axis, factor) + [Series(df, kind, codes[|codes| - 1], axis, factor)]
  }

  /** Entry `k` of the list is the series of category `codes[k]`. */
  lemma {:induction false} SeriesListAt(df: seq<Row>, kind: Stacking, codes: seq<int>, axis: seq<int>, factor: real, k: nat)
    requires k < |codes|
    ensures SeriesList(df, kind, codes, axis, factor)[k] == Series(df, kind, codes[k], axis, factor)
  {
    if k < |codes| - 1 {
      SeriesListAt(df, kind, codes[..|codes| - 1], axis, factor, k);
    }
  }

  /** Call `k` draws the series of category `codes[k]`. */
  predicate Drawn(df: seq<Row>, kind: Stacking, codes: seq<int>, factor: real, axis: seq<int>, bars: seq<Bar>)
  {
    Heights(bars) == SeriesList(df, kind, codes, axis, factor)
  }

  /** A drawn call has the series of its category. */
  lemma DrawnAt(df: seq<Row>, kind: Stacking, codes: seq<int>, factor: real, axis: seq<int>, bars: seq<Bar>, k: nat)
    requires Drawn(df, kind, codes, factor, axis, bars) && k < |bars|
    ensures |bars| == |codes| && bars[k].values == Series(df, kind, codes[k], axis, factor)
  {
    assert Heights(bars)[k] == bars[k].values;
    SeriesListAt(df, kind, codes, axis, factor, k);
  }

  /**
   * `bars` are the calls made for the categories `codes`, in order: call `k`
   * draws the series of category `codes[k]`, the first with no offset and
   * every later one on the running total of the series drawn before it.
   */
  predicate Stacked(df: seq<Row>, kind: Stacking, codes: seq<int>, factor: real, axis: seq<int>, bars: seq<Bar>)
  {
    && Drawn(df, kind, codes, factor, axis, bars)
    && Uniform(bars, |axis|)
    && Offsets(bars, |axis|)
  }

  /** Drawing one more series appends its heights to `below`. */
  lemma HeightsAppend(bars: seq<Bar>, b: Bar)
    ensures Heights(bars + [b]) == Heights(bars) + [b.values]
  {
    assert (bars + [b])[..|bars|] == bars;
  }

  /** Drawing series `k` of `expected` after the first `k` extends the heights drawn by one. */
  lemma HeightsExtend(bars: seq<Bar>, b: Bar, expected: seq<seq<real>>, k: nat)
    requires k < |expected| && Heights(bars) == expected[..k] && b.values == expected[k]
    ensures Heights(bars + [b]) == expected[..k + 1]
  {
    HeightsAppend(bars, b);
    assert expected[..k + 1] == expected[..k] + [expected[k]];
  }

  /** The running total of the first `k` calls ignores the calls after them. */
  lemma {:induction false} BelowAppend(bars: seq<Bar>, b: Bar, k: nat, n: nat)
    requires k <= |bars| && forall m :: 0 <= m < |bars| ==> |bars[m].values| == n
    ensures Below(bars + [b], k, n) == Below(bars, k, n)
  {
    if k > 0 {
      BelowAppend(bars, b, k - 1, n);
      assert (bars + [b])[k - 1] == bars[k - 1];
    }
  }

  /** `np.sum(below, axis=0)` over the heights drawn so far is their running total. */
  lemma {:induction false} ColumnSumsIsBelow(bars: seq<Bar>, n: nat)
    requires forall m :: 0 <= m < |bars| ==> |bars[m].values| == n
    ensures ColumnSums(Heights(bars), n) == Below(bars, |bars|, n)
  {
    if bars != [] {
      var p, b := bars[..|bars| - 1], bars[|bars| - 1];
      assert bars == p + [b];
      ColumnSumsIsBelow(p, n);
      HeightsAppend(p, b);
      BelowAppend(p, b, |p|, n);
      assert (Heights(p) + [b.values])[..|p|] == Heights(p);
    }
  }

  /** Every call keeps its offset when another call is appended. */
  lemma {:induction false} OffsetsUpToAppend(bars: seq<Bar>, b: Bar, m: nat, n: nat)
    requires m <= |bars| && Uniform(bars, n) && |b.values| == n && OffsetsUpTo(bars, m, n)
    ensures Uniform(bars + [b], n) && OffsetsUpTo(bars + [b], m, n)
  {
    var bs := bars + [b];
    assert Uniform(bs, n) by {
      assert forall k :: 0 <= k < |bars| ==> bs[k] == bars[k];
    }
    if m > 0 {
      OffsetsUpToAppend(bars, b, m - 1, n);
      assert bs[m - 1] == bars[m - 1];
      BelowAppend(bars, b, m - 1, n);
    }
  }

  /** Appending a call on the running total of the earlier ones keeps the offsets. */
  lemma OffsetsAppend(bars: seq<Bar>, b: Bar, n: nat)
    requires Uniform(bars, n) && Offsets(bars, n) && |b.values| == n
    requires b.bottom == if bars == [] then None else Some(ColumnSums(Heights(bars), n))
    ensures Uniform(bars + [b], n) && Offsets(bars + [b], n)
  {
    var bs := bars + [b];
    OffsetsUpToAppend(bars, b, |bars|, n);
    BelowAppend(bars, b, |bars|, n);
    ColumnSumsIsBelow(bars, n);
    assert bs[|bars|] == b;
  }

  /** Appending the call for one more category keeps the calls in category order. */
  lemma DrawnAppend(df: seq<Row>, kind: Stacking, codes: seq<int>, c: int, factor: real, axis: seq<int>, bars: seq<Bar>, b: Bar)
    requires Drawn(df, kind, codes, factor, axis, bars)
    requires b.values == Series(df, kind, c, axis, factor)
    ensures Drawn(df, kind, codes + [c], factor, axis, bars + [b])
  {
    HeightsAppend(bars, b);
    assert (codes + [c])[..|codes|] == codes;
  }

  /** The call for one more category keeps the calls stacked. */
  lemma StackedAppend(df: seq<Row>, kind: Stacking, codes: seq<int>, c: int, factor: real, axis: seq<int>, bars: seq<Bar>, b: Bar)
    requires Stacked(df, kind, codes, factor, axis, bars)
    requires b.values == Series(df, kind, c, axis, factor)
    requires b.bottom == if bars == [] then None else Some(ColumnSums(Heights(bars), |axis|))
    ensures Stacked(df, kind, codes + [c], factor, axis, bars + [b])
    ensures Heights(bars + [b]) == Heights(bars) + [b.values]
  {
    DrawnAppend(df, kind, codes, c, factor, axis, bars, b);
    OffsetsAppend(bars, b, |axis|);
    HeightsAppend(bars, b);
  }

  /** The series on one more year of the axis. */
  lemma SeriesExtend(df: seq<Row>, kind: Stacking, code: int, axis: seq<int>, factor: real, j: nat)
    requires j < |axis|
    ensures Series(df, kind, code, axis[..j + 1], factor)
         == Series(df, kind, code, axis[..j], factor) + [CellValue(df, Slot(kind, code, axis[j]), factor)]
  {
    var s := axis[..j + 1];
    assert s[..j] == axis[..j];
  }

  /** The inner loop: the value of each year of `axis` for category `code`. */
  method SeriesOf(df: seq<Row>, kind: Stacking, code: int, axis: seq<int>, factor: real) returns (values: seq<real>)
    ensures values == Series(df, kind, code, axis, factor)
  {
    values := [];
    for j := 0 to |axis|
      invariant values == Series(df, kind, code, axis[..j], factor)
    {
      var tmp := FirstWhere(df, Slot(kind, code, axis[j]));
      SeriesExtend(df, kind, code, axis, factor, j);
      if tmp.None? {
        assert CellValue(df, Slot(kind, code, axis[j]), factor) == 0.0;
        values := values + [0.0];
      } else {
        assert CellValue(df, Slot(kind, code, axis[j]), factor) == df[tmp.value].value * factor;
        values := values + [df[tmp.value].value * factor];
      }
    }
    assert axis[..|axis|] == axis;
  }

  /**
   * One pass of the outer loop, for category `codes[|bars|]`: its series,
   * the `bottom` computed from `below` (the series drawn so far), and `below`
   * grown by the new series.
   */
  method DrawCategory(df: seq<Row>, kind: Stacking, codes: seq<int>, factor: real, axis: seq<int>,
                      bars: seq<Bar>, below: Option<seq<seq<real>>>)
    returns (bars': seq<Bar>, below': Option<seq<seq<real>>>)
    requires |bars| < |codes| && Heights(bars) == SeriesList(df, kind, codes, axis, factor)[..|bars|]
    requires Uniform(bars, |axis|) && Offsets(bars, |axis|)
    requires below == if bars == [] then None else Some(Heights(bars))
    ensures |bars'| == |bars| + 1 && bars'[..|bars|] == bars
    ensures Heights(bars') == SeriesList(df, kind, codes, axis, factor)[..|bars'|]
    ensures Uniform(bars', |axis|) && Offsets(bars', |axis|)
    ensures below' == Some(Heights(bars'))
  {
    var k := |bars|;
    var values := SeriesOf(df, kind, codes[k], axis, factor);
    SeriesListAt(df, kind, codes, axis, factor, k);
    var bottom: Option<seq<real>> := None;
    if below.Some? {
      bottom := Some(ColumnSums(below.value, |axis|));
      below' := Some(below.value + [values]);
    } else {
      below' := Some([values]);
      assert [] + [values] == [values];
    }
    OffsetsAppend(bars, Bar(values, bottom), |axis|);
    HeightsExtend(bars, Bar(values, bottom), SeriesList(df, kind, codes, axis, factor), k);
    bars' := bars + [Bar(values, bottom)];
    assert bars'[..k] == bars;
  }

  /**
   * The loops shared by both stacked-bar functions: for each category code
   * in order, the series over the year axis and the `bottom` computed from
   * `below`, the list of series already drawn.
   */
  method Stack(df: seq<Row>, kind: Stacking, codes: seq<int>, factor: real, axis: seq<int>) returns (bars: seq<Bar>)
    ensures Stacked(df, kind, codes, factor, axis, bars)
  {
    var below: Option<seq<seq<real>>> := None;
    bars := [];
    while |bars| < |codes|
      invariant |bars| <= |codes| && Heights(bars) == SeriesList(df, kind, codes, axis, factor)[..|bars|]
      invariant Uniform(bars, |axis|) && Offsets(bars, |axis|)
      invariant below == if bars == [] then None else Some(Heights(bars))
      decreases |codes| - |bars|
    {
      bars, below := DrawCategory(df, kind, codes, factor, axis, bars, below);
    }
    assert SeriesList(df, kind, codes, axis, factor)[..|codes|] == SeriesList(df, kind, codes, axis, factor);
  }

  /**
   * Call `k` draws the series of category `codes[k]`; the first call has no
   * offset and call `k > 0` is drawn on the elementwise sum of the series of
   * categories `codes[0..k]`.
   */
  lemma StackedAt(df: seq<Row>, kind: Stacking, codes: seq<int>, factor: real, axis: seq<int>, bars: seq<Bar>, k: nat, j: nat)
    requires Stacked(df, kind, codes, factor, axis, bars) && k < |bars| && j < |axis|
    ensures |bars| == |codes| && bars[k].values == Series(df, kind, codes[k], axis, factor)
    ensures k == 0 <==> bars[k].bottom.None?
    ensures bars[k].bottom.Some? ==>
      |bars[k].bottom.value| == |axis| && bars[k].bottom.value[j] == Total(SeriesList(df, kind, codes, axis, factor)[..k], j)
  {
    DrawnAt(df, kind, codes, factor, axis, bars, k);
    OffsetsUpToAt(bars, |bars|, |axis|, k);
    if k > 0 {
      BelowAt(bars, k, |axis|, j);
    }
  }

  /** Position `j` of the running total of the first `k` calls is the sum of their heights there. */
  lemma {:induction false} BelowAt(bars: seq<Bar>, k: nat, n: nat, j: nat)
    requires k <= |bars| && Uniform(bars, n) && j < n
    ensures Below(bars, k, n)[j] == Total(Heights(bars)[..k], j)
  {
    if k > 0 {
      BelowAt(bars, k - 1, n, j);
      var h := Heights(bars);
      var p := h[..k];
      assert p[..k - 1] == h[..k - 1];
      assert p[k - 1] == bars[k - 1].values;
      assert Total(p, j) == Total(h[..k - 1], j) + bars[k - 1].values[j];
    }
  }

  /** The top of call `k` at position `j` is the sum of the series of `codes[0..k+1]` there. */
  lemma StackedTop(df: seq<Row>, kind: Stacking, codes: seq<int>, factor: real, axis: seq<int>, bars: seq<Bar>, k: nat, j: nat)
    requires Stacked(df, kind, codes, factor, axis, bars) && k < |bars| && j < |axis|
    ensures |bars| == |codes| && |bars[k].values| == |axis|
    ensures k > 0 ==> bars[k].bottom.Some? && |bars[k].bottom.value| == |axis|
    ensures (if k == 0 then 0.0 else bars[k].bottom.value[j]) + bars[k].values[j]
         == Total(SeriesList(df, kind, codes, axis, factor)[..k + 1], j)
  {
    StackedAt(df, kind, codes, factor, axis, bars, k, j);
    var l := SeriesList(df, kind, codes, axis, factor);
    SeriesListAt(df, kind, codes, axis, factor, k);
    assert l[..k + 1][..k] == l[..k];
    assert l[..k + 1][k] == l[k];
  }

  /** A category without rows in the table gets an all-zero series. */
  lemma AbsentCategoryIsZero(df: seq<Row>, kind: Stacking, code: int, axis: seq<int>, factor: real)
    requires forall k :: 0 <= k < |df| ==> (if kind == ByItem then df[k].itemcode else df[k].elementcode) != code
    ensures forall j :: 0 <= j < |axis| ==> Series(df, kind, code, axis, factor)[j] == 0.0
  {
    forall j | 0 <= j < |axis| ensures Series(df, kind, code, axis, factor)[j] == 0.0 {
      SeriesAt(df, kind, code, axis, factor, j);
      assert NoneMatch(df, Slot(kind, code, axis[j]));
    }
  }

  /** A chart: the x tick labels and the `ax.bar` calls. */
  datatype Chart = Chart(ticks: seq<int>, bars: seq<Bar>)

  /** `zip(*[])` has nothing to unpack into `items, itemcodes`. */
  datatype PlotError = NothingToUnpack

  /** The second components of a sequence of `(item, itemcode)` pairs. */
  function Codes(pairs: seq<(string, int)>): (r: seq<int>)
    ensures |r| == |pairs| && forall k :: 0 <= k < |pairs| ==> r[k] == pairs[k].1
  {
    if pairs == [] then [] else Codes(pairs[..|pairs| - 1]) + [pairs[|pairs| - 1].1]
  }

  /** The mask of the element variant's filtered table. */
  function ElementAreaQuery(elementcode: int, areacode: int): Query
  {
    And(ElementIs(elementcode), AreaIs(areacode))
  }

  /** The categories of the element variant: the codes of the distinct `(item, itemcode)` pairs. */
  function ItemCategories(sub: seq<Row>): (r: seq<int>)
    ensures |r| == |Distinct(ItemPairColumn(sub))|
    ensures forall k :: 0 <= k < |r| ==> r[k] == Distinct(ItemPairColumn(sub))[k].1
  {
    Codes(Distinct(ItemPairColumn(sub)))
  }

  /**
   * The element variant draws one series per distinct `(item, itemcode)` pair,
   * in the order of the pairs' first rows.
   */
  lemma ItemCategoriesOrder(sub: seq<Row>)
    ensures |ItemCategories(sub)| == |Elements(ItemPairColumn(sub))|
    ensures forall j, k :: 0 <= j < k < |ItemCategories(sub)| ==>
      FirstIndex(ItemPairColumn(sub), Distinct(ItemPairColumn(sub))[j])
        < FirstIndex(ItemPairColumn(sub), Distinct(ItemPairColumn(sub))[k])
  {
    var d := Distinct(ItemPairColumn(sub));
    NoDupCardinality(d);
    assert Elements(d) == Elements(ItemPairColumn(sub));
    DistinctOrder(ItemPairColumn(sub));
  }

  /**
   * The categories of the element variant are exactly the item codes of the
   * filtered table; there are none exactly when it is empty.
   */
  lemma ItemCategoriesCover(sub: seq<Row>)
    ensures forall c :: c in ItemCategories(sub) <==> c in ItemColumn(sub)
    ensures ItemCategories(sub) == [] <==> sub == []
  {
    var pairs := ItemPairColumn(sub);
    var d := Distinct(pairs);
    forall c | c in ItemCategories(sub) ensures c in ItemColumn(sub) {
      var k :| 0 <= k < |d| && Codes(d)[k] == c;
      assert d[k] in pairs;
      var m :| 0 <= m < |pairs| && pairs[m] == d[k];
      assert ItemColumn(sub)[m] == c;
    }
    forall c | c in ItemColumn(sub) ensures c in ItemCategories(sub) {
      var m :| 0 <= m < |sub| && ItemColumn(sub)[m] == c;
      assert pairs[m] in d;
      var k :| 0 <= k < |d| && d[k] == pairs[m];
      assert Codes(d)[k] == c;
    }
    if sub != [] {
      assert pairs[0] in d;
    }
  }

  /**
   * `plot_stacked_bar_single_area_single_element`: the table filtered to one
   * element and one area, one series per item (scaled by `factor`) on its
   * sorted years; an empty filtered table fails at the unpacking of the pairs.
   */
  method PlotStackedBarSingleAreaSingleElement(df: seq<Row>, elementcode: int, areacode: int, factor: real)
    returns (r: Result<Chart, PlotError>)
    ensures r.Failure? <==> Select(df, ElementAreaQuery(elementcode, areacode)) == []
    ensures r.Success? ==>
      var sub := Select(df, ElementAreaQuery(elementcode, areacode));
      && r.value.ticks == YearAxis(sub)
      && Stacked(sub, ByItem, ItemCategories(sub), factor, YearAxis(sub), r.value.bars)
  {
    var sub := Select(df, ElementAreaQuery(elementcode, areacode));
    var pairs := Distinct(ItemPairColumn(sub));
    ItemCategoriesCover(sub);
    if pairs == [] {
      return Failure(NothingToUnpack);
    }
    var axis := YearAxis(sub);
    var bars := Stack(sub, ByItem, Codes(pairs), factor, axis);
    r := Success(Chart(axis, bars));
  }

  /** The mask of the item variant's filtered table. */
  function ItemAreaQuery(itemcode: int, elementcodes: seq<int>, areacode: int): Query
  {
    And(And(ItemIs(itemcode), AreaIs(areacode)), ElementIn(elementcodes))
  }

  /**
   * `plot_stacked_bar_single_area_single_item`: the table filtered to one item,
   * one area and the given elements, one unscaled series per code of
   * `elementcodes`, in the caller's order, on the sorted years.
   */
  method PlotStackedBarSingleAreaSingleItem(df: seq<Row>, itemcode: int, elementcodes: seq<int>, areacode: int)
    returns (chart: Chart)
    ensures var sub := Select(df, ItemAreaQuery(itemcode, elementcodes, areacode));
      && chart.ticks == YearAxis(sub)
      && Stacked(sub, ByElement, elementcodes, 1.0, YearAxis(sub), chart.bars)
  {
    var sub := Select(df, ItemAreaQuery(itemcode, elementcodes, areacode));
    var axis := YearAxis(sub);
    var bars := Stack(sub, ByElement, elementcodes, 1.0, axis);
    chart := Chart(axis, bars);
  }
}
