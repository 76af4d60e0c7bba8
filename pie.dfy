/**
 * The data half of the pie chart's `update` (charts/pie.js): sales per category in the
 * order categories are first met, their total, the percent label rule, the sorted legend,
 * the slice emphasis rule and the click payload. Slice angles come from `d3.pie` and are
 * taken as given.
 */
module Pie {
  import opened Rows
  import opened CrossFilter

  datatype Slice = Slice(category: string, value: real)

  /** One slice per key, in key order, each the sales total of that category. */
  function SlicesOf(rows: seq<Row>, keys: seq<string>): (slices: seq<Slice>)
    ensures |slices| == |keys|
  {
    if |keys| == 0 then []
    else
      var k := keys[|keys| - 1];
      SlicesOf(rows, keys[..|keys| - 1]) + [Slice(k, Total(Where(rows, KeyIs(CategoryField, k)), SalesMeasure))]
  }

  lemma {:induction false} SlicesOfAt(rows: seq<Row>, keys: seq<string>, i: nat)
    requires i < |keys|
    ensures SlicesOf(rows, keys)[i] == Slice(keys[i], Total(Where(rows, KeyIs(CategoryField, keys[i])), SalesMeasure))
  {
    if i < |keys| - 1 {
      SlicesOfAt(rows, keys[..|keys| - 1], i);
    }
  }

  /**
   * `pieLayout(Array.from(salesByCat))` with sorting switched off: the slices follow the
   * rollup's key order, the order in which categories are first met.
   */
  function Slices(rows: seq<Row>): (slices: seq<Slice>)
    ensures |slices| == |GroupKeys(rows, CategoryField)|
  {
    SlicesOf(rows, GroupKeys(rows, CategoryField))
  }

  /** Each slice is its category's sales total, in first-encounter order, and every category present has one. */
  lemma SliceIsCategorySales(rows: seq<Row>, i: nat)
    requires i < |Slices(rows)|
    ensures Slices(rows)[i].category == GroupKeys(rows, CategoryField)[i]
    ensures Slices(rows)[i].value == Total(Where(rows, KeyIs(CategoryField, Slices(rows)[i].category)), SalesMeasure)
  {
    SlicesOfAt(rows, GroupKeys(rows, CategoryField), i);
  }

  /** `d3.sum(pieData, d => d.value)`. */
  function SliceTotal(slices: seq<Slice>): (t: real)
    ensures (forall j :: 0 <= j < |slices| ==> slices[j].value >= 0.0) ==> t >= 0.0
  {
    if |slices| == 0 then 0.0 else SliceTotal(slices[..|slices| - 1]) + slices[|slices| - 1].value
  }

  lemma {:induction false} SliceTotalIsGroupTotal(rows: seq<Row>, keys: seq<string>)
    ensures SliceTotal(SlicesOf(rows, keys)) == GroupTotal(rows, CategoryField, keys, SalesMeasure)
  {
    if |keys| > 0 {
      var init := keys[..|keys| - 1];
      var s := SlicesOf(rows, keys);
      assert s[..|s| - 1] == SlicesOf(rows, init);
      SliceTotalIsGroupTotal(rows, init);
    }
  }

  /** `totalSales`: the slices add up to the sales of all rows. */
  lemma TotalIsAllSales(rows: seq<Row>)
    ensures SliceTotal(Slices(rows)) == Total(rows, SalesMeasure)
  {
    SliceTotalIsGroupTotal(rows, GroupKeys(rows, CategoryField));
    GroupsPartitionTotal(rows, CategoryField, GroupKeys(rows, CategoryField), SalesMeasure);
  }

  /** A slice's percent label; `NotFinite` is the text JS produces when the total is 0 but the value is not. */
  datatype Label = Blank | Percent(share: real) | NotFinite

  /** `d.value > 0 ? (d.value / totalSales) * 100 … : ""`, before rounding to an integer text. */
  function PercentLabel(value: real, total: real): (l: Label)
    ensures l == Blank <==> value <= 0.0
    ensures l == NotFinite <==> value > 0.0 && total == 0.0
    ensures l.Percent? ==> total != 0.0 && l.share * total == value * 100.0
  {
    if value <= 0.0 then Blank
    else if total == 0.0 then NotFinite
    else
      var share := value / total * 100.0;
      assert share * total == value * 100.0;
      Percent(share)
  }

  /** When no slice is negative, every shown percentage lies in (0, 100]. */
  lemma SharesAreAtMostWhole(slices: seq<Slice>, i: nat)
    requires i < |slices|
    requires forall j :: 0 <= j < |slices| ==> slices[j].value >= 0.0
    ensures PercentLabel(slices[i].value, SliceTotal(slices)).Percent? <==> slices[i].value > 0.0
    ensures PercentLabel(slices[i].value, SliceTotal(slices)).Percent? ==>
              0.0 < PercentLabel(slices[i].value, SliceTotal(slices)).share <= 100.0
  {
    PartAtMostTotal(slices, i);
    var v, t := slices[i].value, SliceTotal(slices);
    var l := PercentLabel(v, t);
    if v > 0.0 {
      ShareBound(v, t);
      assert l == Percent(v / t * 100.0);
    }
  }

  lemma ShareBound(v: real, t: real)
    requires 0.0 < v <= t
    ensures 0.0 < v / t * 100.0 <= 100.0
  {
    var q := v / t;
    assert q * t == v;
  }

  /** With no negative slice, each slice is at most the total. */
  lemma {:induction false} PartAtMostTotal(slices: seq<Slice>, i: nat)
    requires i < |slices|
    requires forall j :: 0 <= j < |slices| ==> slices[j].value >= 0.0
    ensures 0.0 <= slices[i].value <= SliceTotal(slices)
    ensures SliceTotal(slices) >= 0.0
  {
    var init := slices[..|slices| - 1];
    if i < |init| {
      PartAtMostTotal(init, i);
    } else if |init| > 0 {
      PartAtMostTotal(init, 0);
    }
  }

  /** Labels of slices narrower than 0.2 radians are hidden on update; entering labels keep full opacity. */
  function LabelOpacity(entering: bool, span: real): (o: real)
    ensures o == 0.0 <==> !entering && span < 0.2
    ensures o != 0.0 ==> o == 1.0
  {
    if entering then 1.0 else if span < 0.2 then 0.0 else 1.0
  }

  // ---------------------------------------------------------------------------------
  // Legend: `Array.from(salesByCat.keys()).sort()`, the default string order.

  /** Lexicographic order on strings, character by character; a proper prefix comes first. */
  predicate Before(a: string, b: string)
    decreases |a|
  {
    if |a| == 0 then |b| > 0
    else if |b| == 0 then false
    else a[0] < b[0] || (a[0] == b[0] && Before(a[1..], b[1..]))
  }

  lemma {:induction false} BeforeTotal(a: string, b: string)
    requires a != b
    ensures Before(a, b) || Before(b, a)
    decreases |a|
  {
    if |a| > 0 && |b| > 0 && a[0] == b[0] {
      assert a == [a[0]] + a[1..] && b == [b[0]] + b[1..];
      BeforeTotal(a[1..], b[1..]);
    }
  }

  lemma {:induction false} BeforeTransitive(a: string, b: string, c: string)
    requires Before(a, b) && Before(b, c)
    ensures Before(a, c)
    decreases |a|
  {
    if |a| > 0 && a[0] == b[0] && b[0] == c[0] {
      BeforeTransitive(a[1..], b[1..], c[1..]);
    }
  }

  predicate SortedNames(xs: seq<string>) {
    forall i, j :: 0 <= i < j < |xs| ==> Before(xs[i], xs[j])
  }

  /** Places `x` among the sorted `xs`. */
  function InsertName(xs: seq<string>, x: string): (r: seq<string>)
    requires SortedNames(xs) && x !in xs
    ensures SortedNames(r)
    ensures forall y :: y in r <==> y in xs || y == x
    ensures |r| == |xs| + 1
  {
    if |xs| == 0 then [x]
    else
      var init, last := xs[..|xs| - 1], xs[|xs| - 1];
      SplitLast(xs);
      if Before(last, x) then
        assert forall i :: 0 <= i < |xs| ==> Before(xs[i], x) by {
          forall i | 0 <= i < |xs| ensures Before(xs[i], x) {
            if i < |xs| - 1 { BeforeTransitive(xs[i], last, x); }
          }
        }
        xs + [x]
      else
        BeforeTotal(x, last);
        var r := InsertName(init, x);
        forall i | 0 <= i < |r| ensures Before(r[i], last) {
          assert r[i] in r;
          if r[i] != x {
            var j :| 0 <= j < |init| && init[j] == r[i];
            assert xs[j] == r[i];
          }
        }
        r + [last]
  }

  function SortNames(xs: seq<string>): (r: seq<string>)
    requires NoDup(xs)
    ensures SortedNames(r)
    ensures forall y :: y in r <==> y in xs
    ensures |r| == |xs|
  {
    if |xs| == 0 then []
    else
      SplitLast(xs);
      InsertName(SortNames(xs[..|xs| - 1]), xs[|xs| - 1])
  }

  /** The legend: exactly the categories present, each once, in ascending order. */
  function Legend(rows: seq<Row>): (names: seq<string>)
    ensures SortedNames(names)
    ensures forall c :: c in names <==> exists i :: 0 <= i < |rows| && rows[i].category == c
    ensures |names| == |Slices(rows)|
  {
    SortNames(GroupKeys(rows, CategoryField))
  }

  // ---------------------------------------------------------------------------------
  // Emphasis and clicks.

  /** Slice opacity: all full with no active category, else the active slice full and the rest 0.3. */
  function SliceOpacity(active: Option<string>, category: string): (o: real)
    ensures o == 1.0 <==> active.None? || active == Some(category)
    ensures o != 1.0 ==> o == 0.3
  {
    if active.Some? then (if category == active.value then 1.0 else 0.3) else 1.0
  }

  /** A click on a slice reports its category. */
  function SliceClick(s: Slice): (c: Click)
    ensures c == CategoryClick(s.category)
  {
    CategoryClick(s.category)
  }
}
