/**
 * `updateDashboard` and `updateKPIs` of interactivity.js: the five row subsets cut from
 * the loaded rows by the current selection, the highlight key each chart receives, the
 * pie title and the four KPI figures.
 *
 * The source writes each subset as its own chain of `filter` calls. Beside those chains
 * this module states the policy they implement as data (which dimensions cut which
 * subset) and proves that every chain is exactly the policy's subset.
 */
module Pipeline {
  import opened Rows
  import opened CrossFilter

  datatype Dim = YearDim | StateDim | CategoryDim | SegmentDim | ProductDim

  /** The filter a selection applies on one dimension; None when that dimension is unset. */
  function CutOn(s: Selection, d: Dim): Option<Cut> {
    match d
    case YearDim => if s.year.AllYears? then None else Some(YearIs(s.year.year))
    case StateDim => if s.state.None? then None else Some(KeyIs(StateField, s.state.value))
    case CategoryDim => if s.category.None? then None else Some(KeyIs(CategoryField, s.category.value))
    case SegmentDim => if s.segment.None? then None else Some(KeyIs(SegmentField, s.segment.value))
    case ProductDim => if s.product.None? then None else Some(KeyIs(ProductField, s.product.value))
  }

  /** One `if (s.x) data = data.filter(…)` step of the chains. */
  function Narrow(rows: seq<Row>, s: Selection, d: Dim): seq<Row> {
    match CutOn(s, d)
    case None => rows
    case Some(c) => Where(rows, c)
  }

  /** Year and state: the base every other subset starts from. */
  function CommonData(raw: seq<Row>, s: Selection): (d: seq<Row>)
    ensures forall r :: r in d <==> r in raw && Admits(r, s, YearDim) && Admits(r, s, StateDim)
  {
    Narrow(Narrow(raw, s, YearDim), s, StateDim)
  }

  /** For the scatter chart: every segment stays so the unselected ones can be dimmed. */
  function ScatterData(raw: seq<Row>, s: Selection): (d: seq<Row>)
    ensures forall r :: r in d <==> r in CommonData(raw, s) && Admits(r, s, CategoryDim) && Admits(r, s, ProductDim)
  {
    Narrow(Narrow(CommonData(raw, s), s, CategoryDim), s, ProductDim)
  }

  /** For both stacked charts and the pie: every category stays. */
  function LineData(raw: seq<Row>, s: Selection): (d: seq<Row>)
    ensures forall r :: r in d <==> r in CommonData(raw, s) && Admits(r, s, SegmentDim) && Admits(r, s, ProductDim)
  {
    Narrow(Narrow(CommonData(raw, s), s, SegmentDim), s, ProductDim)
  }

  /** For the bar chart: every product stays. */
  function BarData(raw: seq<Row>, s: Selection): (d: seq<Row>)
    ensures forall r :: r in d <==> r in CommonData(raw, s) && Admits(r, s, SegmentDim) && Admits(r, s, CategoryDim)
  {
    Narrow(Narrow(CommonData(raw, s), s, SegmentDim), s, CategoryDim)
  }

  /** For the KPIs and the map: cut on all five dimensions. */
  function FinalData(raw: seq<Row>, s: Selection): (d: seq<Row>)
    ensures forall r :: r in d <==> r in BarData(raw, s) && Admits(r, s, ProductDim)
  {
    Narrow(BarData(raw, s), s, ProductDim)
  }

  // ---------------------------------------------------------------------------------
  // The policy the chains implement, as data.

  datatype Subset = Common | ScatterSubset | LineSubset | BarSubset | Final

  /** The dimensions that strictly cut each subset. */
  function Cuts(v: Subset): set<Dim> {
    match v
    case Common => {YearDim, StateDim}
    case ScatterSubset => {YearDim, StateDim, CategoryDim, ProductDim}
    case LineSubset => {YearDim, StateDim, SegmentDim, ProductDim}
    case BarSubset => {YearDim, StateDim, SegmentDim, CategoryDim}
    case Final => {YearDim, StateDim, CategoryDim, SegmentDim, ProductDim}
  }

  function SubsetRows(raw: seq<Row>, s: Selection, v: Subset): seq<Row> {
    match v
    case Common => CommonData(raw, s)
    case ScatterSubset => ScatterData(raw, s)
    case LineSubset => LineData(raw, s)
    case BarSubset => BarData(raw, s)
    case Final => FinalData(raw, s)
  }

  predicate Admits(r: Row, s: Selection, d: Dim) {
    match CutOn(s, d)
    case None => true
    case Some(c) => Holds(r, c)
  }

  predicate AdmitsAll(r: Row, s: Selection, ds: set<Dim>) {
    forall d :: d in ds ==> Admits(r, s, d)
  }

  /** The rows every dimension in `ds` lets through, in their original order. */
  function Select(rows: seq<Row>, s: Selection, ds: set<Dim>): seq<Row> {
    if |rows| == 0 then []
    else
      var prefix := Select(rows[..|rows| - 1], s, ds);
      if AdmitsAll(rows[|rows| - 1], s, ds) then prefix + [rows[|rows| - 1]] else prefix
  }

  lemma {:induction false} SelectNothing(rows: seq<Row>, s: Selection)
    ensures Select(rows, s, {}) == rows
  {
    if |rows| > 0 {
      SelectNothing(rows[..|rows| - 1], s);
      SplitLast(rows);
    }
  }

  /** One more filter step is the same as one more dimension in the policy. */
  lemma {:induction false} NarrowSelect(rows: seq<Row>, s: Selection, ds: set<Dim>, d: Dim)
    ensures Narrow(Select(rows, s, ds), s, d) == Select(rows, s, ds + {d})
  {
    var p := Select(rows, s, ds);
    match CutOn(s, d)
    case None =>
      assert forall r :: AdmitsAll(r, s, ds + {d}) == AdmitsAll(r, s, ds);
      SelectSameDims(rows, s, ds, ds + {d});
    case Some(c) =>
      if |rows| > 0 {
        var last := rows[|rows| - 1];
        var q := Select(rows[..|rows| - 1], s, ds);
        NarrowSelect(rows[..|rows| - 1], s, ds, d);
        assert AdmitsAll(last, s, ds + {d}) == (AdmitsAll(last, s, ds) && Holds(last, c));
        if AdmitsAll(last, s, ds) {
          assert (q + [last])[..|q|] == q;
        }
      }
  }

  lemma {:induction false} SelectSameDims(rows: seq<Row>, s: Selection, ds: set<Dim>, es: set<Dim>)
    requires forall r :: AdmitsAll(r, s, ds) == AdmitsAll(r, s, es)
    ensures Select(rows, s, ds) == Select(rows, s, es)
  {
    if |rows| > 0 {
      SelectSameDims(rows[..|rows| - 1], s, ds, es);
    }
  }

  /** The common chain cuts exactly on year and state. */
  lemma CommonFollowsPolicy(raw: seq<Row>, s: Selection)
    ensures CommonData(raw, s) == Select(raw, s, Cuts(Common))
  {
    SelectNothing(raw, s);
    NarrowSelect(raw, s, {}, YearDim);
    NarrowSelect(raw, s, {YearDim}, StateDim);
    assert {} + {YearDim} + {StateDim} == Cuts(Common);
  }

  /** Two more filter steps on top of the common data. */
  lemma TwoMoreCuts(raw: seq<Row>, s: Selection, d: Dim, e: Dim, v: Subset)
    requires Cuts(v) == Cuts(Common) + {d} + {e}
    ensures Narrow(Narrow(CommonData(raw, s), s, d), s, e) == Select(raw, s, Cuts(v))
  {
    CommonFollowsPolicy(raw, s);
    NarrowSelect(raw, s, Cuts(Common), d);
    NarrowSelect(raw, s, Cuts(Common) + {d}, e);
  }

  /** Every hand-written chain of interactivity.js cuts exactly on the policy's dimensions. */
  lemma SubsetFollowsPolicy(raw: seq<Row>, s: Selection, v: Subset)
    ensures SubsetRows(raw, s, v) == Select(raw, s, Cuts(v))
  {
    match v
    case Common =>
      CommonFollowsPolicy(raw, s);
    case ScatterSubset =>
      assert Cuts(v) == Cuts(Common) + {CategoryDim} + {ProductDim};
      TwoMoreCuts(raw, s, CategoryDim, ProductDim, v);
    case LineSubset =>
      assert Cuts(v) == Cuts(Common) + {SegmentDim} + {ProductDim};
      TwoMoreCuts(raw, s, SegmentDim, ProductDim, v);
    case BarSubset =>
      assert Cuts(v) == Cuts(Common) + {SegmentDim} + {CategoryDim};
      TwoMoreCuts(raw, s, SegmentDim, CategoryDim, v);
    case Final =>
      assert Cuts(BarSubset) == Cuts(Common) + {SegmentDim} + {CategoryDim};
      TwoMoreCuts(raw, s, SegmentDim, CategoryDim, BarSubset);
      NarrowSelect(raw, s, Cuts(BarSubset), ProductDim);
      assert Cuts(BarSubset) + {ProductDim} == Cuts(v);
  }

  /** Cutting on more dimensions keeps a sub-sequence of what fewer dimensions keep. */
  lemma {:induction false} SelectMonotone(rows: seq<Row>, s: Selection, more: set<Dim>, fewer: set<Dim>)
    requires fewer <= more
    ensures SubseqOf(Select(rows, s, more), Select(rows, s, fewer))
  {
    if |rows| > 0 {
      var last := rows[|rows| - 1];
      var p := Select(rows[..|rows| - 1], s, more);
      var q := Select(rows[..|rows| - 1], s, fewer);
      SelectMonotone(rows[..|rows| - 1], s, more, fewer);
      if AdmitsAll(last, s, more) {
        assert AdmitsAll(last, s, fewer);
        assert (p + [last])[..|p|] == p;
        assert (q + [last])[..|q|] == q;
      } else if AdmitsAll(last, s, fewer) {
        assert (q + [last])[..|q|] == q;
      }
    }
  }

  /** The subset is fixed by what the selection says on the subset's own dimensions. */
  lemma {:induction false} SelectAgrees(rows: seq<Row>, s: Selection, t: Selection, ds: set<Dim>)
    requires forall d :: d in ds ==> CutOn(s, d) == CutOn(t, d)
    ensures Select(rows, s, ds) == Select(rows, t, ds)
  {
    if |rows| > 0 {
      SelectAgrees(rows[..|rows| - 1], s, t, ds);
      assert AdmitsAll(rows[|rows| - 1], s, ds) == AdmitsAll(rows[|rows| - 1], t, ds);
    }
  }

  /** The subsets nest: final within each of scatter, line and bar data, those within the common data, and that within all rows; order is kept throughout. */
  lemma SubsetsNest(raw: seq<Row>, s: Selection)
    ensures SubseqOf(FinalData(raw, s), ScatterData(raw, s))
    ensures SubseqOf(FinalData(raw, s), LineData(raw, s))
    ensures SubseqOf(FinalData(raw, s), BarData(raw, s))
    ensures SubseqOf(ScatterData(raw, s), CommonData(raw, s))
    ensures SubseqOf(LineData(raw, s), CommonData(raw, s))
    ensures SubseqOf(BarData(raw, s), CommonData(raw, s))
    ensures SubseqOf(CommonData(raw, s), raw)
    ensures SubseqOf(FinalData(raw, s), raw)
  {
    SubsetFollowsPolicy(raw, s, Common);
    SubsetFollowsPolicy(raw, s, ScatterSubset);
    SubsetFollowsPolicy(raw, s, LineSubset);
    SubsetFollowsPolicy(raw, s, BarSubset);
    SubsetFollowsPolicy(raw, s, Final);
    SelectMonotone(raw, s, Cuts(Final), Cuts(ScatterSubset));
    SelectMonotone(raw, s, Cuts(Final), Cuts(LineSubset));
    SelectMonotone(raw, s, Cuts(Final), Cuts(BarSubset));
    SelectMonotone(raw, s, Cuts(ScatterSubset), Cuts(Common));
    SelectMonotone(raw, s, Cuts(LineSubset), Cuts(Common));
    SelectMonotone(raw, s, Cuts(BarSubset), Cuts(Common));
    SelectMonotone(raw, s, Cuts(Common), {});
    SelectNothing(raw, s);
    SubseqTransitive(FinalData(raw, s), BarData(raw, s), CommonData(raw, s));
    SubseqTransitive(FinalData(raw, s), CommonData(raw, s), raw);
  }

  /**
   * A chart's data never depends on its own highlight key: the bar chart's rows do not
   * change with the product, the stacked charts' and pie's with the category, the
   * scatter's with the segment.
   */
  lemma HighlightNeverCuts(raw: seq<Row>, s: Selection, v: Option<string>)
    ensures BarData(raw, s.(product := v)) == BarData(raw, s)
    ensures LineData(raw, s.(category := v)) == LineData(raw, s)
    ensures ScatterData(raw, s.(segment := v)) == ScatterData(raw, s)
  {
    SubsetFollowsPolicy(raw, s, BarSubset);
    SubsetFollowsPolicy(raw, s.(product := v), BarSubset);
    SelectAgrees(raw, s, s.(product := v), Cuts(BarSubset));
    SubsetFollowsPolicy(raw, s, LineSubset);
    SubsetFollowsPolicy(raw, s.(category := v), LineSubset);
    SelectAgrees(raw, s, s.(category := v), Cuts(LineSubset));
    SubsetFollowsPolicy(raw, s, ScatterSubset);
    SubsetFollowsPolicy(raw, s.(segment := v), ScatterSubset);
    SelectAgrees(raw, s, s.(segment := v), Cuts(ScatterSubset));
  }

  /** The map is the exception: its rows are cut by the state it also highlights. */
  lemma MapCutByItsHighlight(raw: seq<Row>, s: Selection, r: Row)
    requires s.state.Some? && r in FinalData(raw, s)
    ensures r.state == s.state.value
  {
    SubsetFollowsPolicy(raw, s, Final);
    SelectAdmits(raw, s, Cuts(Final), r);
    assert Admits(r, s, StateDim);
  }

  lemma {:induction false} SelectAdmits(rows: seq<Row>, s: Selection, ds: set<Dim>, r: Row)
    requires r in Select(rows, s, ds)
    ensures r in rows && AdmitsAll(r, s, ds)
  {
    if |rows| > 0 {
      SplitLast(rows);
      if r in Select(rows[..|rows| - 1], s, ds) {
        SelectAdmits(rows[..|rows| - 1], s, ds, r);
      }
    }
  }

  // ---------------------------------------------------------------------------------
  // Pie title and KPIs.

  /** The pie title: product before segment before state, "Total Revenue" otherwise. */
  function PieTitle(s: Selection): (title: string)
    ensures s.product.Some? ==> title == "Product Revenue"
    ensures s.product.None? && s.segment.Some? ==> title == s.segment.value + " Revenue"
    ensures s.product.None? && s.segment.None? && s.state.Some? ==> title == s.state.value + " Revenue"
    ensures s.product.None? && s.segment.None? && s.state.None? ==> title == "Total Revenue"
  {
    if s.product.Some? then "Product Revenue"
    else if s.segment.Some? then s.segment.value + " Revenue"
    else if s.state.Some? then s.state.value + " Revenue"
    else "Total Revenue"
  }

  datatype Kpis = Kpis(revenue: real, profit: real, orders: nat, margin: real)

  /** `updateKPIs`: totals, distinct orders and the profit margin in percent (0 when revenue is 0). */
  function ComputeKpis(rows: seq<Row>): (k: Kpis)
    ensures k.revenue == Total(rows, SalesMeasure) && k.profit == Total(rows, ProfitMeasure)
    ensures k.orders == |set i | 0 <= i < |rows| :: rows[i].orderId|
    ensures k.orders <= |rows| && (k.orders == 0 <==> |rows| == 0)
    ensures k.revenue != 0.0 ==> k.margin * k.revenue == 100.0 * k.profit
    ensures k.revenue == 0.0 ==> k.margin == 0.0
    ensures |rows| == 0 ==> k == Kpis(0.0, 0.0, 0, 0.0)
  {
    var revenue := Total(rows, SalesMeasure);
    var profit := Total(rows, ProfitMeasure);
    var orders := DistinctCount(rows, OrderField);
    assert (set i | 0 <= i < |rows| :: Key(rows[i], OrderField)) == (set i | 0 <= i < |rows| :: rows[i].orderId);
    var margin := if revenue != 0.0 then (profit / revenue) * 100.0 else 0.0;
    Kpis(revenue, profit, orders, margin)
  }

  // ---------------------------------------------------------------------------------
  // One refresh of every consumer.

  /** What `updateDashboard` hands to the reset button, the KPI strip and the six charts. */
  datatype Refresh = Refresh(
    showReset: bool,
    kpis: Kpis,
    mapRows: seq<Row>, mapCategory: Option<string>, mapState: Option<string>,
    barRows: seq<Row>, barActive: Option<string>,
    lineRows: seq<Row>, lineYear: Year, lineActive: Option<string>,
    scatterRows: seq<Row>, scatterActive: Option<string>,
    pieRows: seq<Row>, pieTitle: string, pieActive: Option<string>)

  function UpdateDashboard(raw: seq<Row>, s: Selection): (u: Refresh)
    ensures u.showReset <==> s != Initial
    ensures u.mapRows == Select(raw, s, Cuts(Final)) && u.kpis == ComputeKpis(u.mapRows)
    ensures u.mapState == s.state && u.mapCategory == s.category
    ensures u.barRows == Select(raw, s, Cuts(BarSubset)) && u.barActive == s.product
    ensures u.lineRows == Select(raw, s, Cuts(LineSubset)) && u.lineActive == s.category && u.lineYear == s.year
    ensures u.pieRows == u.lineRows && u.pieActive == s.category && u.pieTitle == PieTitle(s)
    ensures u.scatterRows == Select(raw, s, Cuts(ScatterSubset)) && u.scatterActive == s.segment
  {
    SubsetFollowsPolicy(raw, s, Final);
    SubsetFollowsPolicy(raw, s, BarSubset);
    SubsetFollowsPolicy(raw, s, LineSubset);
    SubsetFollowsPolicy(raw, s, ScatterSubset);
    var finalData := FinalData(raw, s);
    var lineData := LineData(raw, s);
    Refresh(
      IsFiltered(s),
      ComputeKpis(finalData),
      finalData, s.category, s.state,
      BarData(raw, s), s.product,
      lineData, s.year, s.category,
      ScatterData(raw, s), s.segment,
      lineData, PieTitle(s), s.category)
  }
}
