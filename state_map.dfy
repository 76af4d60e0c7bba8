/**
 * The data half of the bubble map's `update` (charts/map.js): sales per state, one bubble
 * per state geometry with its radius input, fill and opacity, and the two click payloads.
 * The state geometries are taken as the list of their names.
 */
module StateMap {
  import opened Rows
  import opened CrossFilter

  /** `d3.rollup(data, v => d3.sum(v, d => d.Sales), d => d.State)`: only states that occur are keys. */
  function SalesByState(rows: seq<Row>): (byState: map<string, real>)
    ensures forall name :: name in byState <==> exists i :: 0 <= i < |rows| && rows[i].state == name
  {
    var ks := GroupKeys(rows, StateField);
    map name | name in ks :: Total(Where(rows, KeyIs(StateField, name)), SalesMeasure)
  }

  /** `salesByState.get(name) || 0`. */
  function SalesLookup(byState: map<string, real>, name: string): (v: real)
    ensures v != 0.0 ==> name in byState
  {
    if name in byState then byState[name] else 0.0
  }

  /** The looked-up value is the state's sales total, and 0 for a state with no rows. */
  lemma LookupIsStateTotal(rows: seq<Row>, name: string)
    ensures SalesLookup(SalesByState(rows), name) == Total(Where(rows, KeyIs(StateField, name)), SalesMeasure)
    ensures (forall i :: 0 <= i < |rows| ==> rows[i].state != name) ==> SalesLookup(SalesByState(rows), name) == 0.0
  {
    if name !in SalesByState(rows) {
      WhereNone(rows, KeyIs(StateField, name));
    }
  }

  /** The colour a bubble is filled with: the active category's colour, or the default. */
  datatype Fill = CategoryColour(category: string) | SteelBlue

  /** One state's bubble: the value handed to the radius scale, its fill and its opacity. */
  datatype Bubble = Bubble(name: string, radiusInput: real, fill: Fill, opacity: real)

  function BubbleFill(activeCategory: Option<string>): (f: Fill)
    ensures activeCategory.Some? ==> f == CategoryColour(activeCategory.value)
    ensures activeCategory.None? ==> f == SteelBlue
  {
    if activeCategory.Some? then CategoryColour(activeCategory.value) else SteelBlue
  }

  /** With a selected state: 1 for it and 0.1 for the rest; with none: 0.7 for every bubble. */
  function BubbleOpacity(selectedState: Option<string>, name: string): (o: real)
    ensures selectedState.None? ==> o == 0.7
    ensures selectedState.Some? ==> (o == 1.0 <==> name == selectedState.value)
    ensures selectedState.Some? && name != selectedState.value ==> o == 0.1
  {
    if selectedState.Some? then (if name == selectedState.value then 1.0 else 0.1) else 0.7
  }

  /** The bubbles after an update: one per geometry, in geometry order, whatever the rows hold. */
  function Bubbles(geo: seq<string>, rows: seq<Row>, activeCategory: Option<string>, selectedState: Option<string>): (bs: seq<Bubble>)
    ensures |bs| == |geo|
    ensures forall i :: 0 <= i < |bs| ==> bs[i].name == geo[i]
    ensures forall i :: 0 <= i < |bs| ==> bs[i].fill == BubbleFill(activeCategory)
    ensures forall i :: 0 <= i < |bs| ==> bs[i].opacity == BubbleOpacity(selectedState, geo[i])
    ensures forall i :: 0 <= i < |bs| ==> bs[i].radiusInput == SalesLookup(SalesByState(rows), geo[i])
  {
    var byState := SalesByState(rows);
    seq(|geo|, i requires 0 <= i < |geo| =>
      Bubble(geo[i], SalesLookup(byState, geo[i]), BubbleFill(activeCategory), BubbleOpacity(selectedState, geo[i])))
  }

  /** A bubble's radius input is its state's sales total, and 0 when the rows have none of that state. */
  lemma RadiusIsStateSales(geo: seq<string>, rows: seq<Row>, activeCategory: Option<string>, selectedState: Option<string>, i: nat)
    requires i < |geo|
    ensures Bubbles(geo, rows, activeCategory, selectedState)[i].radiusInput
         == Total(Where(rows, KeyIs(StateField, geo[i])), SalesMeasure)
  {
    LookupIsStateTotal(rows, geo[i]);
  }

  /** A click on a bubble reports its state's name. */
  function BubbleClick(b: Bubble): (c: Click)
    ensures c == StateClick(Some(b.name))
  {
    StateClick(Some(b.name))
  }

  /** A click on the map background reports null. */
  function BackgroundClick(): (c: Click)
    ensures c == StateClick(None)
  {
    StateClick(None)
  }

  // ---------------------------------------------------------------------------------
  // The tooltip's sales table.
  //
  // The mouse-over handler is attached only when a bubble enters, and the geometries never
  // change, so every bubble enters on the first update and never again. The handler reads
  // the `salesByState` of the update that created it, so as written the tooltip keeps
  // showing the totals of the first update while the radii follow the filters.

  /** As written: the table the tooltips read after an update, given the one captured before (None: no bubble yet). */
  function TooltipTableAsWritten(captured: Option<map<string, real>>, rows: seq<Row>): (table: map<string, real>)
    ensures captured.Some? ==> table == captured.value
    ensures captured.None? ==> table == SalesByState(rows)
  {
    if captured.Some? then captured.value else SalesByState(rows)
  }

  /** One Texas row in the first update, none in the second: the tooltip still says 100, the radius input is 0. */
  lemma TooltipGoesStale()
    ensures
      var first := [Row(2017, 0, "Texas", "Furniture", "Consumer", "Chair", "A", 100.0, 10.0)];
      var second: seq<Row> := [];
      var table := TooltipTableAsWritten(Some(TooltipTableAsWritten(None, first)), second);
      && SalesLookup(table, "Texas") == 100.0
      && Bubbles(["Texas"], second, None, None)[0].radiusInput == 0.0
  {
    var first := [Row(2017, 0, "Texas", "Furniture", "Consumer", "Chair", "A", 100.0, 10.0)];
    assert first[..0] == [];
    assert Where(first, KeyIs(StateField, "Texas")) == first;
    assert "Texas" in GroupKeys(first, StateField);
    assert SalesByState(first)["Texas"] == 100.0;
  }

  /** Corrected: the tooltip reads the current update's table. */
  function TooltipSales(rows: seq<Row>, name: string): real {
    SalesLookup(SalesByState(rows), name)
  }

  /** With the current table the tooltip and the radius always show the same figure. */
  lemma TooltipAgreesWithRadius(geo: seq<string>, rows: seq<Row>, activeCategory: Option<string>, selectedState: Option<string>, i: nat)
    requires i < |geo|
    ensures TooltipSales(rows, geo[i]) == Bubbles(geo, rows, activeCategory, selectedState)[i].radiusInput
    ensures TooltipSales(rows, geo[i]) == Total(Where(rows, KeyIs(StateField, geo[i])), SalesMeasure)
  {
    LookupIsStateTotal(rows, geo[i]);
  }
}
