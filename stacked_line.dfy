/**
 * The data half of the stacked area chart's `update` (charts/stacked-line-chart.js): the
 * choice between month and year buckets, the per-category sums of one metric inside each
 * bucket, and the layer and legend emphasis rules.
 */
module StackedLine {
  import opened Rows
  import opened CrossFilter

  /** The only categories the chart stacks, in stacking order. */
  const Categories: seq<string> := ["Furniture", "Office Supplies", "Technology"]

  /** Twelve months when one year is chosen, one bucket per year otherwise. */
  datatype Mode = ByYear | ByMonth

  function ModeFor(yearFilter: Year): (m: Mode)
    ensures m == ByMonth <==> yearFilter != AllYears
  {
    if yearFilter == AllYears then ByYear else ByMonth
  }

  /** One point of the x axis: its month (0..11) or year, and one sum per stacked category. */
  datatype Bucket = Bucket(period: int, values: map<string, real>)

  /** `d3.sum(rows.filter(r => r.Category === c), r => r[metric]) || 0` for each stacked category. */
  function Sums(rows: seq<Row>, metric: Measure): (sums: map<string, real>)
    ensures sums.Keys == set c | c in Categories
    ensures |rows| == 0 ==> forall c :: c in sums ==> sums[c] == 0.0
  {
    map c | c in Categories :: Total(Where(rows, KeyIs(CategoryField, c)), metric)
  }

  /**
   * A row adds its `metric` to its own category's sum and to no other; a row of a
   * category outside the three changes nothing.
   */
  lemma {:induction false} SumsAddRow(rows: seq<Row>, r: Row, metric: Measure)
    ensures Sums(rows + [r], metric).Keys == Sums(rows, metric).Keys
    ensures forall c :: c in Categories ==>
      Sums(rows + [r], metric)[c] == Sums(rows, metric)[c] + (if c == r.category then Amount(r, metric) else 0.0)
  {
    var all := rows + [r];
    assert all[..|all| - 1] == rows;
    forall c | c in Categories
      ensures Total(Where(all, KeyIs(CategoryField, c)), metric)
           == Total(Where(rows, KeyIs(CategoryField, c)), metric) + (if c == r.category then Amount(r, metric) else 0.0)
    {
      var prefix := Where(rows, KeyIs(CategoryField, c));
      if c == r.category {
        assert Where(all, KeyIs(CategoryField, c)) == prefix + [r];
        assert (prefix + [r])[..|prefix|] == prefix;
      } else {
        assert Where(all, KeyIs(CategoryField, c)) == prefix;
      }
    }
  }

  /** A category with no rows in the bucket sums to 0 (the `|| 0`). */
  lemma EmptyCategoryIsZero(rows: seq<Row>, metric: Measure, c: string)
    requires c in Categories
    requires forall i :: 0 <= i < |rows| ==> rows[i].category != c
    ensures Sums(rows, metric)[c] == 0.0
  {
    WhereNone(rows, KeyIs(CategoryField, c));
  }

  /** The month-mode bucket object, built by assigning one category at a time. */
  method MonthBucket(rows: seq<Row>, metric: Measure, month: int) returns (b: Bucket)
    ensures b == Bucket(month, Sums(Where(rows, MonthIs(month)), metric))
  {
    var inMonth := Where(rows, MonthIs(month));
    var values: map<string, real> := map[];
    for k := 0 to |Categories|
      invariant values.Keys == set c | c in Categories[..k]
      invariant forall c :: c in values ==> values[c] == Total(Where(inMonth, KeyIs(CategoryField, c)), metric)
    {
      var c := Categories[k];
      values := values[c := Total(Where(inMonth, KeyIs(CategoryField, c)), metric)];
    }
    assert Categories[..|Categories|] == Categories;
    b := Bucket(month, values);
  }

  /** Month mode: exactly twelve buckets, months 0 to 11 in order, empty months included. */
  method MonthBuckets(rows: seq<Row>, metric: Measure) returns (bs: seq<Bucket>)
    ensures |bs| == 12
    ensures forall m :: 0 <= m < 12 ==> bs[m] == Bucket(m, Sums(Where(rows, MonthIs(m)), metric))
  {
    bs := [];
    for m := 0 to 12
      invariant |bs| == m
      invariant forall j :: 0 <= j < m ==> bs[j] == Bucket(j, Sums(Where(rows, MonthIs(j)), metric))
    {
      var b := MonthBucket(rows, metric, m);
      bs := bs + [b];
    }
  }

  predicate Ascending(ys: seq<int>) {
    forall i, j :: 0 <= i < j < |ys| ==> ys[i] < ys[j]
  }

  /** Places `y` among the ascending `ys`. */
  function InsertYear(ys: seq<int>, y: int): (r: seq<int>)
    requires Ascending(ys) && y !in ys
    ensures Ascending(r)
    ensures forall z :: z in r <==> z in ys || z == y
    ensures |r| == |ys| + 1
  {
    if |ys| == 0 then [y]
    else if ys[|ys| - 1] < y then ys + [y]
    else
      SplitLast(ys);
      var init, last := ys[..|ys| - 1], ys[|ys| - 1];
      var r := InsertYear(init, y);
      assert forall i :: 0 <= i < |r| ==> r[i] in r && r[i] < last;
      r + [last]
  }

  /** `.sort((a, b) => a.year - b.year)` applied to keys that are already distinct. */
  function SortYears(ys: seq<int>): (r: seq<int>)
    requires NoDup(ys)
    ensures Ascending(r)
    ensures forall z :: z in r <==> z in ys
    ensures |r| == |ys|
  {
    if |ys| == 0 then []
    else
      SplitLast(ys);
      InsertYear(SortYears(ys[..|ys| - 1]), ys[|ys| - 1])
  }

  /** The groups of `d3.groups(data, d => d.year)`, ordered by year. */
  function YearLabels(rows: seq<Row>): (ys: seq<int>)
    ensures Ascending(ys)
    ensures forall y :: y in ys <==> exists i :: 0 <= i < |rows| && rows[i].year == y
  {
    var ds := Distinct(Years(rows));
    assert forall i :: 0 <= i < |rows| ==> Years(rows)[i] == rows[i].year;
    SortYears(ds)
  }

  /** Year mode: one bucket per year present, in the order of `YearLabels`, each summing its own year's rows. */
  function YearBuckets(rows: seq<Row>, metric: Measure): (bs: seq<Bucket>)
    ensures |bs| == |YearLabels(rows)|
    ensures forall k :: 0 <= k < |bs| ==> bs[k].period == YearLabels(rows)[k]
    ensures forall k :: 0 <= k < |bs| ==> bs[k].values == Sums(Where(rows, YearIs(bs[k].period)), metric)
  {
    var ys := YearLabels(rows);
    seq(|ys|, k requires 0 <= k < |ys| => Bucket(ys[k], Sums(Where(rows, YearIs(ys[k])), metric)))
  }

  /** Year buckets are strictly ascending and every year that occurs has its bucket. */
  lemma YearBucketsCoverYears(rows: seq<Row>, metric: Measure)
    ensures var bs := YearBuckets(rows, metric);
      forall i, j :: 0 <= i < j < |bs| ==> bs[i].period < bs[j].period
    ensures var bs := YearBuckets(rows, metric);
      forall i :: 0 <= i < |rows| ==> exists k :: 0 <= k < |bs| && bs[k].period == rows[i].year
  {
    var bs, ys := YearBuckets(rows, metric), YearLabels(rows);
    forall i | 0 <= i < |rows| ensures exists k :: 0 <= k < |bs| && bs[k].period == rows[i].year {
      assert rows[i].year in ys;
      var k :| 0 <= k < |ys| && ys[k] == rows[i].year;
      assert bs[k].period == rows[i].year;
    }
  }

  /** `aggregated`: the buckets of the mode the year filter selects. */
  method Aggregate(rows: seq<Row>, metric: Measure, yearFilter: Year) returns (bs: seq<Bucket>)
    ensures ModeFor(yearFilter) == ByYear ==> bs == YearBuckets(rows, metric)
    ensures ModeFor(yearFilter) == ByMonth ==> |bs| == 12
    ensures ModeFor(yearFilter) == ByMonth ==>
      forall m :: 0 <= m < 12 ==> bs[m] == Bucket(m, Sums(Where(rows, MonthIs(m)), metric))
  {
    if ModeFor(yearFilter) == ByMonth {
      bs := MonthBuckets(rows, metric);
    } else {
      bs := YearBuckets(rows, metric);
    }
  }

  // ---------------------------------------------------------------------------------
  // Emphasis and clicks.

  /** Layer opacity: all full with no active category, else the active layer full and the rest 0.2. */
  function LayerOpacity(active: Option<string>, key: string): (o: real)
    ensures o == 1.0 <==> active.None? || active == Some(key)
    ensures o != 1.0 ==> o == 0.2
  {
    if active.Some? then (if key == active.value then 1.0 else 0.2) else 1.0
  }

  /** The opacity re-applied on mouse move, written as its own condition. */
  function HoverOpacity(active: Option<string>, key: string): (o: real)
    ensures o == 0.2 <==> active.Some? && active.value != key
    ensures o != 0.2 ==> o == 1.0
  {
    if active.Some? && key != active.value then 0.2 else 1.0
  }

  /** Hovering a layer keeps the opacity the update gave it. */
  lemma HoverKeepsEmphasis(active: Option<string>, key: string)
    ensures HoverOpacity(active, key) == LayerOpacity(active, key)
  {
  }

  /** Legend entries are dimmed to 0.3 only when another category is active. */
  function LegendOpacity(active: Option<string>, c: string): (o: real)
    ensures o == 0.3 <==> active.Some? && active != Some(c)
    ensures o != 0.3 ==> o == 1.0
  {
    if active.Some? && active.value != c then 0.3 else 1.0
  }

  /** The legend entry of the active category alone is bold. */
  function LegendBold(active: Option<string>, c: string): (bold: bool)
    ensures bold <==> active == Some(c)
  {
    active == Some(c)
  }

  /** A click on a layer reports its category key. */
  function LayerClick(key: string): (c: Click)
    ensures c == CategoryClick(key)
  {
    CategoryClick(key)
  }
}
