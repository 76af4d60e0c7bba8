/**
 * The controller loop of interactivity.js: every handler changes `currentState` and then
 * calls `updateDashboard`, so each click yields one refresh of all consumers computed from
 * the loaded rows and the new selection. The lemmas here follow a click through to what
 * the charts receive.
 */
module Controller {
  import opened Rows
  import opened CrossFilter
  import opened Pipeline
  import CustomerSegment

  /** The loaded rows (never changed after loading) and the shared selection. */
  class Dashboard {
    const rawData: seq<Row>
    const current: CurrentState

    /** The state right after loading, before the first `updateDashboard`. */
    constructor (raw: seq<Row>)
      ensures rawData == raw && fresh(current) && current.Value() == Initial
    {
      rawData := raw;
      current := new CurrentState();
    }

    /** One event: the handler of the click's own dimension, then `updateDashboard`. */
    method Handle(c: Click) returns (u: Refresh)
      modifies current
      ensures current.Value() == Step(old(current.Value()), c)
      ensures u == UpdateDashboard(rawData, current.Value())
    {
      current.Dispatch(c);
      u := UpdateDashboard(rawData, current.Value());
    }
  }

  /** With nothing selected every consumer sees all rows and the reset button is hidden. */
  lemma UnfilteredSeesAll(raw: seq<Row>)
    ensures var u := UpdateDashboard(raw, Initial);
      && !u.showReset
      && u.mapRows == raw && u.barRows == raw && u.lineRows == raw && u.scatterRows == raw && u.pieRows == raw
      && u.pieTitle == "Total Revenue"
  {
    forall v: Subset ensures Select(raw, Initial, Cuts(v)) == raw {
      assert forall r :: AdmitsAll(r, Initial, Cuts(v)) == AdmitsAll(r, Initial, {});
      SelectSameDims(raw, Initial, Cuts(v), {});
      SelectNothing(raw, Initial);
    }
  }

  /** After a reset, whatever came before, the dashboard shows everything. */
  lemma ResetShowsAll(raw: seq<Row>, s: Selection)
    ensures UpdateDashboard(raw, Step(s, ResetClick)) == UpdateDashboard(raw, Initial)
    ensures UpdateDashboard(raw, Step(s, ResetClick)).mapRows == raw
  {
    ResetIsInitial(s);
    UnfilteredSeesAll(raw);
  }

  lemma ResetIsInitial(s: Selection)
    ensures Step(s, ResetClick) == Initial
  {
  }

  /**
   * A bar click leaves the bar chart's rows as they were and only moves its highlight:
   * to the clicked product, or off it when it was already selected.
   */
  lemma BarClickOnlyMovesHighlight(raw: seq<Row>, s: Selection, p: string)
    ensures UpdateDashboard(raw, Step(s, ProductClick(p))).barRows == UpdateDashboard(raw, s).barRows
    ensures UpdateDashboard(raw, Step(s, ProductClick(p))).barActive == if s.product == Some(p) then None else Some(p)
  {
    HighlightNeverCuts(raw, s, OnProductClick(s, p).product);
    assert OnProductClick(s, p) == s.(product := OnProductClick(s, p).product);
  }

  /** A scatter click leaves the scatter chart's rows as they were and only moves its highlight. */
  lemma ScatterClickOnlyMovesHighlight(raw: seq<Row>, s: Selection, g: string)
    ensures UpdateDashboard(raw, Step(s, SegmentClick(g))).scatterRows == UpdateDashboard(raw, s).scatterRows
    ensures UpdateDashboard(raw, Step(s, SegmentClick(g))).scatterActive == if s.segment == Some(g) then None else Some(g)
  {
    HighlightNeverCuts(raw, s, OnSegmentClick(s, g).segment);
    assert OnSegmentClick(s, g) == s.(segment := OnSegmentClick(s, g).segment);
  }

  /**
   * A category click (from the pie or either stacked chart) leaves their rows as they were
   * unless it also clears a selected product, which the line data is cut by.
   */
  lemma CategoryClickKeepsLineRows(raw: seq<Row>, s: Selection, c: string)
    requires s.product.None? || s.category == Some(c)
    ensures UpdateDashboard(raw, Step(s, CategoryClick(c))).lineRows == UpdateDashboard(raw, s).lineRows
    ensures UpdateDashboard(raw, Step(s, CategoryClick(c))).pieRows == UpdateDashboard(raw, s).pieRows
    ensures UpdateDashboard(raw, Step(s, CategoryClick(c))).lineActive == if s.category == Some(c) then None else Some(c)
  {
    HighlightNeverCuts(raw, s, OnCategoryClick(s, c).category);
    assert OnCategoryClick(s, c) == s.(category := OnCategoryClick(s, c).category);
  }

  /** Choosing a new category while a product is selected drops the product, so the line rows lose that cut. */
  lemma NewCategoryDropsProductCut(raw: seq<Row>, s: Selection, c: string)
    requires s.category != Some(c)
    ensures UpdateDashboard(raw, Step(s, CategoryClick(c))).lineRows
         == LineData(raw, s.(product := None))
    ensures UpdateDashboard(raw, Step(s, CategoryClick(c))).barActive == None
  {
    HighlightNeverCuts(raw, s.(product := None), Some(c));
  }

  /** A map click on a new state narrows every consumer to that state's rows. */
  lemma StateClickNarrowsMap(raw: seq<Row>, s: Selection, name: string, r: Row)
    requires s.state != Some(name)
    requires r in UpdateDashboard(raw, Step(s, StateClick(Some(name)))).mapRows
    ensures r.state == name
  {
    var t := Step(s, StateClick(Some(name)));
    SubsetFollowsPolicy(raw, t, Final);
    MapCutByItsHighlight(raw, t, r);
  }

  /** A Desk bought only by a Consumer and a Chair only by a Corporate customer. */
  const DeskAndChair: seq<Row> := [
    Row(2017, 0, "Texas", "Furniture", "Consumer", "Desk", "A", 100.0, 10.0),
    Row(2017, 0, "Texas", "Furniture", "Corporate", "Chair", "B", 50.0, 5.0)]

  /** Segment Consumer and product Desk selected. */
  const ConsumerDesk := Selection(AllYears, None, None, Some("Consumer"), Some("Desk"))

  lemma DeskCommonRows()
    ensures CommonData(DeskAndChair, ConsumerDesk) == DeskAndChair
  {
    assert CutOn(ConsumerDesk, YearDim).None? && CutOn(ConsumerDesk, StateDim).None?;
  }

  lemma DeskRowsOnly()
    ensures Where(DeskAndChair, KeyIs(ProductField, "Desk")) == DeskAndChair[..1]
  {
    var raw, desk := DeskAndChair, KeyIs(ProductField, "Desk");
    assert raw[..1][..0] == [];
    assert Holds(raw[0], desk) && !Holds(raw[1], desk);
    assert Where(raw[..1], desk) == raw[..1];
  }

  lemma DeskScatterRows()
    ensures ScatterData(DeskAndChair, ConsumerDesk) == DeskAndChair[..1]
  {
    DeskCommonRows();
    DeskRowsOnly();
    assert CutOn(ConsumerDesk, CategoryDim).None?;
    assert CutOn(ConsumerDesk, ProductDim) == Some(KeyIs(ProductField, "Desk"));
  }

  /** The scatter receives exactly its own chain's rows. */
  lemma ScatterRowsAreChain(raw: seq<Row>, s: Selection)
    ensures UpdateDashboard(raw, s).scatterRows == ScatterData(raw, s)
  {
    SubsetFollowsPolicy(raw, s, ScatterSubset);
  }

  lemma DeskSegments()
    ensures GroupKeys(DeskAndChair[..1], SegmentField) == ["Consumer"]
  {
    assert Keys(DeskAndChair[..1], SegmentField) == ["Consumer"];
    assert ["Consumer"][..0] == [];
  }

  lemma BothSegments()
    ensures GroupKeys(DeskAndChair, SegmentField) == ["Consumer", "Corporate"]
  {
    var keys := Keys(DeskAndChair, SegmentField);
    assert keys == ["Consumer", "Corporate"];
    assert keys[..1] == ["Consumer"] && keys[..1][..0] == [];
  }

  lemma ScatterWithDesk()
    ensures GroupKeys(UpdateDashboard(DeskAndChair, ConsumerDesk).scatterRows, SegmentField) == ["Consumer"]
  {
    DeskScatterRows();
    ScatterRowsAreChain(DeskAndChair, ConsumerDesk);
    DeskSegments();
  }

  lemma NoDeskScatterRows()
    ensures ScatterData(DeskAndChair, ConsumerDesk.(product := None)) == DeskAndChair
  {
    var t := ConsumerDesk.(product := None);
    assert CutOn(t, YearDim).None? && CutOn(t, StateDim).None?;
    assert CutOn(t, CategoryDim).None? && CutOn(t, ProductDim).None?;
  }

  lemma ScatterWithoutDesk()
    ensures GroupKeys(UpdateDashboard(DeskAndChair, ConsumerDesk.(product := None)).scatterRows, SegmentField)
         == ["Consumer", "Corporate"]
  {
    NoDeskScatterRows();
    ScatterRowsAreChain(DeskAndChair, ConsumerDesk.(product := None));
    BothSegments();
  }

  /** Clearing the product keeps Consumer as the scatter's active segment. */
  lemma ClearingDeskKeepsConsumer()
    ensures Step(ConsumerDesk, ProductClick("Desk")) == ConsumerDesk.(product := None)
    ensures UpdateDashboard(DeskAndChair, ConsumerDesk.(product := None)).scatterActive == Some("Consumer")
  {
  }

  /**
   * With segment Consumer and product Desk selected the scatter shows the Consumer circle
   * alone; clearing the product (`ClearingDeskKeepsConsumer`) brings the Corporate circle
   * back, and it enters at full opacity although Consumer is still the active segment,
   * where the highlight rule gives 0.3.
   */
  lemma EnteringCircleNotDimmed()
    ensures GroupKeys(UpdateDashboard(DeskAndChair, ConsumerDesk).scatterRows, SegmentField) == ["Consumer"]
    ensures GroupKeys(UpdateDashboard(DeskAndChair, ConsumerDesk.(product := None)).scatterRows, SegmentField)
         == ["Consumer", "Corporate"]
    ensures CustomerSegment.CircleOpacityAsWritten(true, Some("Consumer"), "Corporate") == 1.0
    ensures CustomerSegment.CircleOpacity(Some("Consumer"), "Corporate") == 0.3
  {
    ScatterWithDesk();
    ScatterWithoutDesk();
  }
}
