/**
 * The data half of the bar chart's `update` (charts/top-10-product-by-sales-and-profit.js):
 * roll the rows up per product, sort by summed sales with a stable descending sort, keep
 * the first ten; plus the bar opacity, hover, fill and x-domain rules and the click payload.
 */
module TopProducts {
  import opened Rows
  import opened CrossFilter

  datatype ProductTotal = ProductTotal(product: string, sales: real, profit: real)

  /** Sales and Profit summed over the rows of one product. */
  function Summary(rows: seq<Row>, product: string): ProductTotal {
    var group := Where(rows, KeyIs(ProductField, product));
    ProductTotal(product, Total(group, SalesMeasure), Total(group, ProfitMeasure))
  }

  /** `Array.from(d3.rollup(…, d => d["Product Name"]))`: one total per product, first-encounter order. */
  function Rollup(rows: seq<Row>): seq<ProductTotal> {
    var ks := GroupKeys(rows, ProductField);
    seq(|ks|, i requires 0 <= i < |ks| => Summary(rows, ks[i]))
  }

  predicate Descending(es: seq<ProductTotal>) {
    forall i, j :: 0 <= i < j < |es| ==> es[i].sales >= es[j].sales
  }

  predicate UniqueProducts(es: seq<ProductTotal>) {
    forall i, j :: 0 <= i < j < |es| ==> es[i].product != es[j].product
  }

  /** The entries whose summed sales are exactly `v`, in order: the ties a stable sort must keep in place. */
  function WithSales(es: seq<ProductTotal>, v: real): seq<ProductTotal> {
    if |es| == 0 then []
    else WithSales(es[..|es| - 1], v) + (if es[|es| - 1].sales == v then [es[|es| - 1]] else [])
  }

  lemma WithSalesAppend(es: seq<ProductTotal>, x: ProductTotal, v: real)
    ensures WithSales(es + [x], v) == WithSales(es, v) + (if x.sales == v then [x] else [])
  {
    assert (es + [x])[..|es|] == es;
  }

  /** Puts `x` after every entry with at least its sales, so it lands behind its earlier ties. */
  function InsertBySales(t: seq<ProductTotal>, x: ProductTotal): (r: seq<ProductTotal>)
    ensures |r| == |t| + 1
  {
    if |t| == 0 || t[|t| - 1].sales >= x.sales then t + [x]
    else InsertBySales(t[..|t| - 1], x) + [t[|t| - 1]]
  }

  lemma {:induction false} InsertKeepsEntries(t: seq<ProductTotal>, x: ProductTotal)
    ensures multiset(InsertBySales(t, x)) == multiset(t) + multiset{x}
  {
    if |t| > 0 && t[|t| - 1].sales < x.sales {
      InsertKeepsEntries(t[..|t| - 1], x);
      assert t == t[..|t| - 1] + [t[|t| - 1]];
    }
  }

  lemma {:induction false} InsertKeepsOrder(t: seq<ProductTotal>, x: ProductTotal)
    requires Descending(t)
    ensures Descending(InsertBySales(t, x))
  {
    if |t| > 0 && t[|t| - 1].sales < x.sales {
      var init, last := t[..|t| - 1], t[|t| - 1];
      InsertKeepsOrder(init, x);
      InsertKeepsEntries(init, x);
      var r := InsertBySales(init, x);
      forall i | 0 <= i < |r| ensures r[i].sales >= last.sales {
        assert r[i] in multiset(r);
        if r[i] != x {
          assert r[i] in multiset(init);
          var j :| 0 <= j < |init| && init[j] == r[i];
          assert t[j] == r[i];
        }
      }
      var out := r + [last];
      forall i, j | 0 <= i < j < |out| ensures out[i].sales >= out[j].sales {
        if j < |r| {
          assert out[i] == r[i] && out[j] == r[j];
        }
      }
    }
  }

  lemma {:induction false} InsertKeepsTies(t: seq<ProductTotal>, x: ProductTotal, v: real)
    requires Descending(t)
    ensures WithSales(InsertBySales(t, x), v) == WithSales(t, v) + (if x.sales == v then [x] else [])
  {
    if |t| == 0 || t[|t| - 1].sales >= x.sales {
      WithSalesAppend(t, x, v);
    } else {
      var init, last := t[..|t| - 1], t[|t| - 1];
      InsertKeepsTies(init, x, v);
      WithSalesAppend(InsertBySales(init, x), last, v);
    }
  }

  /** `.sort((a, b) => d3.descending(a.Sales, b.Sales))`, which is stable. */
  function SortBySales(es: seq<ProductTotal>): (r: seq<ProductTotal>)
    ensures Descending(r)
    ensures multiset(r) == multiset(es) && |r| == |es|
    ensures forall v :: WithSales(r, v) == WithSales(es, v)
  {
    if |es| == 0 then []
    else
      var init, last := es[..|es| - 1], es[|es| - 1];
      var sortedInit := SortBySales(init);
      InsertKeepsOrder(sortedInit, last);
      InsertKeepsEntries(sortedInit, last);
      assert es == init + [last];
      assert forall v :: WithSales(InsertBySales(sortedInit, last), v) == WithSales(es, v) by {
        forall v { InsertKeepsTies(sortedInit, last, v); }
      }
      InsertBySales(sortedInit, last)
  }

  lemma {:induction false} InsertKeepsUnique(t: seq<ProductTotal>, x: ProductTotal)
    requires UniqueProducts(t)
    requires forall e :: e in t ==> e.product != x.product
    ensures UniqueProducts(InsertBySales(t, x))
  {
    if |t| > 0 && t[|t| - 1].sales < x.sales {
      var init, last := t[..|t| - 1], t[|t| - 1];
      InsertKeepsUnique(init, x);
      InsertKeepsEntries(init, x);
      var r := InsertBySales(init, x);
      forall e | e in r ensures e.product != last.product {
        assert e in multiset(r);
        if e != x {
          var k :| 0 <= k < |init| && init[k] == e;
          assert t[k] == e;
        }
      }
    }
  }

  lemma {:induction false} SortKeepsUnique(es: seq<ProductTotal>)
    requires UniqueProducts(es)
    ensures UniqueProducts(SortBySales(es))
  {
    if |es| > 0 {
      var init, last := es[..|es| - 1], es[|es| - 1];
      SortKeepsUnique(init);
      forall e | e in SortBySales(init) ensures e.product != last.product {
        assert e in multiset(SortBySales(init));
        var k :| 0 <= k < |init| && init[k] == e;
        assert es[k] == e;
      }
      InsertKeepsUnique(SortBySales(init), last);
    }
  }

  lemma WithSalesPrefix(es: seq<ProductTotal>, n: nat, v: real)
    requires n <= |es|
    ensures WithSales(es[..n], v) <= WithSales(es, v)
    decreases |es| - n
  {
    if n < |es| {
      assert es[..|es| - 1][..n] == es[..n];
      WithSalesPrefix(es[..|es| - 1], n, v);
    } else {
      assert es[..n] == es;
    }
  }

  function Min(a: int, b: int): int {
    if a <= b then a else b
  }

  /** `processedData`: the ten best-selling products, or all of them when there are fewer, best first. */
  function TopTen(rows: seq<Row>): (top: seq<ProductTotal>)
    ensures |top| == Min(10, |GroupKeys(rows, ProductField)|)
    ensures Descending(top)
  {
    var sorted := SortBySales(Rollup(rows));
    sorted[..Min(10, |sorted|)]
  }

  /** Each kept entry is the summed Sales and Profit of its own product, and no product appears twice. */
  lemma TopTenAreProductTotals(rows: seq<Row>)
    ensures UniqueProducts(TopTen(rows))
    ensures forall e :: e in TopTen(rows) ==> e.product in GroupKeys(rows, ProductField) && e == Summary(rows, e.product)
  {
    var sorted := SortBySales(Rollup(rows));
    assert TopTen(rows) <= sorted;
    RollupIsProductTotals(rows);
    SortKeepsUnique(Rollup(rows));
    KeptAreTotals(rows, sorted, TopTen(rows));
  }

  /** No product left out sold more than any product that was kept. */
  lemma TopTenLeftOutSoldLess(rows: seq<Row>)
    ensures forall p :: p in GroupKeys(rows, ProductField) && (forall e :: e in TopTen(rows) ==> e.product != p) ==>
              forall e :: e in TopTen(rows) ==> Summary(rows, p).sales <= e.sales
  {
    LeftOutSoldLess(rows, SortBySales(Rollup(rows)), TopTen(rows));
  }

  /** Among products with equal sales, those kept are the first ones the rows mention, in that order. */
  lemma TopTenKeepsTieOrder(rows: seq<Row>)
    ensures forall v :: WithSales(TopTen(rows), v) <= WithSales(Rollup(rows), v)
  {
    KeptTiesFirst(SortBySales(Rollup(rows)), TopTen(rows));
  }

  lemma KeptTiesFirst(sorted: seq<ProductTotal>, top: seq<ProductTotal>)
    requires top <= sorted
    ensures forall v :: WithSales(top, v) <= WithSales(sorted, v)
  {
    forall v ensures WithSales(top, v) <= WithSales(sorted, v) {
      assert top == sorted[..|top|];
      WithSalesPrefix(sorted, |top|, v);
    }
  }

  /** The rollup holds one entry per product present, each that product's summed Sales and Profit. */
  lemma RollupIsProductTotals(rows: seq<Row>)
    ensures UniqueProducts(Rollup(rows))
    ensures forall i :: 0 <= i < |rows| ==> exists e :: e in Rollup(rows) && e.product == rows[i].product
    ensures forall e :: e in Rollup(rows) ==> e == Summary(rows, e.product)
  {
    var all, ks := Rollup(rows), GroupKeys(rows, ProductField);
    forall i, j | 0 <= i < j < |all| ensures all[i].product != all[j].product {
      assert all[i].product == ks[i] && all[j].product == ks[j];
    }
    forall i | 0 <= i < |rows| ensures exists e :: e in all && e.product == rows[i].product {
      assert Key(rows[i], ProductField) in ks;
      var j :| 0 <= j < |ks| && ks[j] == rows[i].product;
      assert all[j] in all;
    }
  }

  lemma KeptAreTotals(rows: seq<Row>, sorted: seq<ProductTotal>, top: seq<ProductTotal>)
    requires sorted == SortBySales(Rollup(rows)) && top <= sorted
    ensures forall e :: e in top ==> e.product in GroupKeys(rows, ProductField) && e == Summary(rows, e.product)
  {
    var all, ks := Rollup(rows), GroupKeys(rows, ProductField);
    assert multiset(sorted) == multiset(all);
    forall e | e in top ensures e.product in ks && e == Summary(rows, e.product) {
      var i :| 0 <= i < |top| && top[i] == e;
      assert sorted[i] == e;
      assert e in multiset(all);
      var j :| 0 <= j < |all| && all[j] == e;
      assert e == Summary(rows, ks[j]);
    }
  }

  lemma LeftOutSoldLess(rows: seq<Row>, sorted: seq<ProductTotal>, top: seq<ProductTotal>)
    requires sorted == SortBySales(Rollup(rows)) && top <= sorted
    ensures forall p :: p in GroupKeys(rows, ProductField) && (forall e :: e in top ==> e.product != p) ==>
              forall e :: e in top ==> Summary(rows, p).sales <= e.sales
  {
    var ks := GroupKeys(rows, ProductField);
    forall p | p in ks && (forall e :: e in top ==> e.product != p)
      ensures forall e :: e in top ==> Summary(rows, p).sales <= e.sales
    {
      var j :| 0 <= j < |ks| && ks[j] == p;
      assert Rollup(rows)[j] == Summary(rows, p);
      assert Summary(rows, p) in multiset(sorted);
      var k :| 0 <= k < |sorted| && sorted[k] == Summary(rows, p);
      assert k >= |top| by {
        assert forall i :: 0 <= i < |top| ==> top[i] in top && top[i] == sorted[i];
      }
    }
  }

  // ---------------------------------------------------------------------------------
  // Rendering rules.

  datatype Subgroup = SalesBar | ProfitBar

  /** The data bound to one rect: which subgroup, its value and the product it belongs to. */
  datatype Rect = Rect(key: Subgroup, value: real, product: string)

  /** The two rects drawn for one product. */
  function RectsOf(e: ProductTotal): (rs: seq<Rect>)
    ensures |rs| == 2 && rs[0].key == SalesBar && rs[1].key == ProfitBar
    ensures rs[0].value == e.sales && rs[1].value == e.profit
    ensures forall r :: r in rs ==> r.product == e.product
  {
    [Rect(SalesBar, e.sales, e.product), Rect(ProfitBar, e.profit, e.product)]
  }

  /** A click on either rect of a product reports that product. */
  function BarClick(r: Rect): (c: Click)
    ensures c == ProductClick(r.product)
  {
    ProductClick(r.product)
  }

  /** Resting opacity: all bars full with no active product, otherwise only the active product's. */
  function BarOpacity(active: Option<string>, product: string): (o: real)
    ensures o == 1.0 <==> active.None? || active == Some(product)
    ensures o != 1.0 ==> o == 0.2
  {
    if active.Some? then (if product == active.value then 1.0 else 0.2) else 1.0
  }

  /** Opacity while hovered: a dimmed bar brightens to 0.4, any other goes to 0.7. */
  function HoverOpacity(active: Option<string>, product: string): (o: real)
    ensures o == 0.4 <==> active.Some? && active.value != product
    ensures o != 0.4 ==> o == 0.7
  {
    var isDimmed := active.Some? && product != active.value;
    if isDimmed then 0.4 else 0.7
  }

  /** Opacity restored on mouse-out, written separately in the source. */
  function MouseOutOpacity(active: Option<string>, product: string): (o: real)
    ensures o == 0.2 <==> active.Some? && active.value != product
    ensures o != 0.2 ==> o == 1.0
  {
    if active.Some? && product != active.value then 0.2 else 1.0
  }

  /** Mouse-out restores exactly the resting rule, and hovering brightens a bar iff it was dimmed. */
  lemma HoverThenRestore(active: Option<string>, product: string)
    ensures MouseOutOpacity(active, product) == BarOpacity(active, product)
    ensures HoverOpacity(active, product) > BarOpacity(active, product) <==> BarOpacity(active, product) == 0.2
  {
  }

  datatype Colour = SalesGreen | ProfitBlue | LossRed

  /** Profit bars below zero are drawn in the loss colour; everything else in its subgroup colour. */
  function Fill(r: Rect): (c: Colour)
    ensures c == LossRed <==> r.key == ProfitBar && r.value < 0.0
    ensures r.key == SalesBar ==> c == SalesGreen
  {
    if r.key == ProfitBar && r.value < 0.0 then LossRed
    else if r.key == SalesBar then SalesGreen else ProfitBlue
  }

  /** The profits shown, in list order. */
  function Profits(top: seq<ProductTotal>): seq<real> {
    seq(|top|, i requires 0 <= i < |top| => top[i].profit)
  }

  /**
   * The x-domain's lower end, `Math.min(0, d3.min(profits))`; None is the NaN an empty
   * list produces. It is at most 0 and at most every profit, so loss bars fit.
   */
  function XDomainLow(top: seq<ProductTotal>): (lo: Option<real>)
    ensures lo.None? <==> |top| == 0
    ensures lo.Some? ==> lo.value <= 0.0 && forall e :: e in top ==> lo.value <= e.profit
    ensures lo.Some? ==> lo.value == 0.0 || exists e :: e in top && e.profit == lo.value
  {
    var least := MinOf(Profits(top));
    if least.None? then None
    else
      assert forall e :: e in top ==> e.profit in Profits(top) by {
        forall e | e in top ensures e.profit in Profits(top) {
          var i :| 0 <= i < |top| && top[i] == e;
          assert Profits(top)[i] == e.profit;
        }
      }
      Some(if least.value < 0.0 then least.value else 0.0)
  }
}
