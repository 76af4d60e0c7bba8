/**
 * The data half of the scatter chart's `update` (charts/customer-segment.js): one point
 * per customer segment with its number of distinct orders and its mean sales per row,
 * the axis upper ends with their fallbacks, the opacity rule and the click payload.
 */
module CustomerSegment {
  import opened Rows
  import opened CrossFilter

  datatype SegmentStat = SegmentStat(segment: string, totalOrders: nat, avgSales: real)

  /** The rows of one segment, in order. */
  function SegmentRows(rows: seq<Row>, segment: string): seq<Row> {
    Where(rows, KeyIs(SegmentField, segment))
  }

  /** `d3.mean(group, d => d.Sales)`: the value that, counted once per row, adds up to the group's sales. */
  function MeanSales(group: seq<Row>): (mean: real)
    requires |group| > 0
    ensures mean * (|group| as real) == Total(group, SalesMeasure)
  {
    var t, n := Total(group, SalesMeasure), |group| as real;
    assert (t / n) * n == t;
    t / n
  }

  /** The reduction of one non-empty segment group: distinct order IDs and `d3.mean` of Sales over its rows. */
  function StatOf(rows: seq<Row>, segment: string): SegmentStat
    requires |SegmentRows(rows, segment)| > 0
  {
    var group := SegmentRows(rows, segment);
    SegmentStat(segment, DistinctCount(group, OrderField), MeanSales(group))
  }

  /**
   * `processedData`: exactly one point per distinct segment, in first-encounter order,
   * each the reduction of its own segment's rows.
   */
  function Stats(rows: seq<Row>): (stats: seq<SegmentStat>)
    ensures |stats| == |GroupKeys(rows, SegmentField)|
    ensures |rows| == 0 ==> stats == []
    ensures forall i :: 0 <= i < |stats| ==> stats[i].segment == GroupKeys(rows, SegmentField)[i]
  {
    var ks := GroupKeys(rows, SegmentField);
    seq(|ks|, i requires 0 <= i < |ks| =>
      GroupNonEmpty(rows, SegmentField, ks[i]);
      StatOf(rows, ks[i]))
  }

  /** What a point says about its segment's rows. */
  predicate Summarises(st: SegmentStat, group: seq<Row>) {
    && |group| > 0
    && st.totalOrders == DistinctCount(group, OrderField)
    && 1 <= st.totalOrders <= |group|
    && st.avgSales * (|group| as real) == Total(group, SalesMeasure)
  }

  lemma StatOfSummarises(rows: seq<Row>, segment: string)
    requires |SegmentRows(rows, segment)| > 0
    ensures Summarises(StatOf(rows, segment), SegmentRows(rows, segment))
  {
    var group := SegmentRows(rows, segment);
    var st := StatOf(rows, segment);
    assert st.avgSales == MeanSales(group);
    assert st.totalOrders == DistinctCount(group, OrderField);
  }

  /**
   * A point's order count is the number of distinct order IDs among its segment's rows,
   * between 1 and the number of those rows; its mean is taken over rows, not orders.
   */
  lemma PointSummarisesItsSegment(rows: seq<Row>, i: nat)
    requires i < |Stats(rows)|
    ensures Summarises(Stats(rows)[i], SegmentRows(rows, Stats(rows)[i].segment))
  {
    var ks := GroupKeys(rows, SegmentField);
    GroupNonEmpty(rows, SegmentField, ks[i]);
    var group := SegmentRows(rows, ks[i]);
    StatOfSummarises(rows, ks[i]);
    assert Stats(rows)[i] == StatOf(rows, ks[i]);
  }

  /** Every segment present in the rows gets a point, and no segment gets two. */
  lemma OnePointPerSegment(rows: seq<Row>)
    ensures forall i :: 0 <= i < |rows| ==> exists j :: 0 <= j < |Stats(rows)| && Stats(rows)[j].segment == rows[i].segment
    ensures forall i, j :: 0 <= i < j < |Stats(rows)| ==> Stats(rows)[i].segment != Stats(rows)[j].segment
  {
    var ks, stats := GroupKeys(rows, SegmentField), Stats(rows);
    forall i | 0 <= i < |rows| ensures exists j :: 0 <= j < |stats| && stats[j].segment == rows[i].segment {
      assert Key(rows[i], SegmentField) in ks;
      var j :| 0 <= j < |ks| && ks[j] == rows[i].segment;
      assert stats[j].segment == rows[i].segment;
    }
  }

  /** Two line items of order A and one of order B, all Consumer: two orders, mean of the three sales. */
  lemma OrdersAreDistinctMeanIsPerRow()
    ensures
      var rows := [
        Row(2017, 0, "Texas", "Furniture", "Consumer", "Chair", "A", 100.0, 10.0),
        Row(2017, 0, "Texas", "Furniture", "Consumer", "Desk", "A", 50.0, 5.0),
        Row(2017, 1, "Texas", "Furniture", "Consumer", "Chair", "B", 30.0, 3.0)];
      Stats(rows) == [SegmentStat("Consumer", 2, 60.0)]
  {
    var rows := [
      Row(2017, 0, "Texas", "Furniture", "Consumer", "Chair", "A", 100.0, 10.0),
      Row(2017, 0, "Texas", "Furniture", "Consumer", "Desk", "A", 50.0, 5.0),
      Row(2017, 1, "Texas", "Furniture", "Consumer", "Chair", "B", 30.0, 3.0)];
    assert rows[..2][..1] == rows[..1];
    assert Keys(rows, SegmentField) == ["Consumer", "Consumer", "Consumer"];
    assert Keys(rows, OrderField) == ["A", "A", "B"];
    assert Keys(rows, SegmentField)[..2][..1] == ["Consumer"];
    assert Keys(rows, OrderField)[..2][..1] == ["A"];
    assert GroupKeys(rows, SegmentField) == ["Consumer"];
    WhereAll(rows, KeyIs(SegmentField, "Consumer"));
    assert DistinctCount(rows, OrderField) == 2;
    assert rows[..1][..0] == [];
    assert Total(rows[..1], SalesMeasure) == 100.0;
    assert Total(rows[..2], SalesMeasure) == 150.0;
    assert Total(rows, SalesMeasure) == 180.0;
  }

  // ---------------------------------------------------------------------------------
  // Axes, opacity and clicks.

  function OrdersOf(stats: seq<SegmentStat>): seq<real> {
    seq(|stats|, i requires 0 <= i < |stats| => stats[i].totalOrders as real)
  }

  function AveragesOf(stats: seq<SegmentStat>): seq<real> {
    seq(|stats|, i requires 0 <= i < |stats| => stats[i].avgSales)
  }

  /**
   * Upper end of the orders axis, `d3.max(totalOrders) * 1.1 || 10`: 10 when there are
   * no points or the largest count is 0; always positive and past every point.
   */
  function XUpper(stats: seq<SegmentStat>): (hi: real)
    ensures hi > 0.0
    ensures forall st :: st in stats ==> (st.totalOrders as real) * 1.1 <= hi
    ensures hi == 10.0 || exists st :: st in stats && hi == (st.totalOrders as real) * 1.1
    ensures (exists st :: st in stats && st.totalOrders > 0) ==>
              exists st :: st in stats && hi == (st.totalOrders as real) * 1.1
    ensures (forall st :: st in stats ==> st.totalOrders == 0) ==> hi == 10.0
  {
    var orders := OrdersOf(stats);
    assert forall st :: st in stats ==> (st.totalOrders as real) in orders by {
      forall st | st in stats ensures (st.totalOrders as real) in orders {
        var i :| 0 <= i < |stats| && stats[i] == st;
        assert orders[i] == st.totalOrders as real;
      }
    }
    match MaxOf(orders)
    case None => 10.0
    case Some(m) =>
      var i :| 0 <= i < |orders| && orders[i] == m;
      assert stats[i] in stats;
      if m * 1.1 != 0.0 then m * 1.1 else 10.0
  }

  /**
   * Upper end of the average-sales axis, `d3.max(avgSales) * 1.1 || 100`: 100 when there
   * are no points or the largest mean is 0; never 0 and never below a point.
   */
  function YUpper(stats: seq<SegmentStat>): (hi: real)
    ensures hi != 0.0
    ensures |stats| == 0 ==> hi == 100.0
    ensures forall st :: st in stats ==> st.avgSales * 1.1 <= hi
    ensures hi == 100.0 || exists st :: st in stats && hi == st.avgSales * 1.1
    ensures (exists st :: st in stats && st.avgSales > 0.0) ==> exists st :: st in stats && hi == st.avgSales * 1.1
    ensures |stats| > 0 && (forall st :: st in stats ==> st.avgSales < 0.0) ==>
              exists st :: st in stats && hi == st.avgSales * 1.1
    ensures (forall st :: st in stats ==> st.avgSales <= 0.0) && (exists st :: st in stats && st.avgSales == 0.0) ==>
              hi == 100.0
  {
    var avgs := AveragesOf(stats);
    assert forall st :: st in stats ==> st.avgSales in avgs by {
      forall st | st in stats ensures st.avgSales in avgs {
        var i :| 0 <= i < |stats| && stats[i] == st;
        assert avgs[i] == st.avgSales;
      }
    }
    match MaxOf(avgs)
    case None => 100.0
    case Some(m) =>
      var i :| 0 <= i < |avgs| && avgs[i] == m;
      assert stats[i] in stats;
      if m * 1.1 != 0.0 then m * 1.1 else 100.0
  }

  /** The highlight rule: all full with no active segment, else only the active one. */
  function CircleOpacity(active: Option<string>, segment: string): (o: real)
    ensures o == 1.0 <==> active.None? || active == Some(segment)
    ensures o != 1.0 ==> o == 0.3
  {
    if active.None? then 1.0 else if segment == active.value then 1.0 else 0.3
  }

  /**
   * As written, the rule is applied only to circles that already exist; a circle that
   * enters is set to 1 whatever segment is active.
   */
  function CircleOpacityAsWritten(entering: bool, active: Option<string>, segment: string): (o: real)
    ensures entering ==> o == 1.0
    ensures !entering ==> o == CircleOpacity(active, segment)
  {
    if entering then 1.0 else CircleOpacity(active, segment)
  }

  /** A click on a circle reports its segment. */
  function CircleClick(st: SegmentStat): (c: Click)
    ensures c == SegmentClick(st.segment)
  {
    SegmentClick(st.segment)
  }
}
