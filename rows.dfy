/**
 * The sales table as the dashboard sees it after loading: typed, trimmed and dated rows,
 * plus the small aggregation vocabulary every view is built from (filter, group keys in
 * first-encounter order, sums, distinct counts, extremes).
 *
 * Sequences are taken apart from the back (`rows[..|rows| - 1]` and the last row) so that
 * every recursive definition here visits rows in the order the source's loops do.
 */
module Rows {

  datatype Option<T> = None | Some(value: T)

  /** One line item of the sales table; `year` and `month` (0..11) come from the order date. */
  datatype Row = Row(
    year: int,
    month: int,
    state: string,
    category: string,
    segment: string,
    product: string,
    orderId: string,
    sales: real,
    profit: real)

  /** The text columns a view can group or filter by. */
  datatype Field = StateField | CategoryField | SegmentField | ProductField | OrderField

  /** The numeric columns a view can sum. */
  datatype Measure = SalesMeasure | ProfitMeasure

  function Key(r: Row, f: Field): string {
    match f
    case StateField => r.state
    case CategoryField => r.category
    case SegmentField => r.segment
    case ProductField => r.product
    case OrderField => r.orderId
  }

  function Amount(r: Row, m: Measure): real {
    match m
    case SalesMeasure => r.sales
    case ProfitMeasure => r.profit
  }

  /** `d3.sum(rows, d => d[m])`: zero for no rows. */
  function Total(rows: seq<Row>, m: Measure): real {
    if |rows| == 0 then 0.0 else Total(rows[..|rows| - 1], m) + Amount(rows[|rows| - 1], m)
  }

  /** With no negative amount the sum is not negative. */
  lemma {:induction false} TotalNonNegative(rows: seq<Row>, m: Measure)
    requires forall i :: 0 <= i < |rows| ==> Amount(rows[i], m) >= 0.0
    ensures Total(rows, m) >= 0.0
  {
    if |rows| > 0 {
      TotalNonNegative(rows[..|rows| - 1], m);
    }
  }

  /** Summing two runs of rows one after the other gives the sum of their sums. */
  lemma {:induction false} TotalConcat(a: seq<Row>, b: seq<Row>, m: Measure)
    ensures Total(a + b, m) == Total(a, m) + Total(b, m)
  {
    if |b| > 0 {
      var init := b[..|b| - 1];
      assert (a + b)[..|a + b| - 1] == a + init;
      TotalConcat(a, init, m);
    } else {
      assert a + b == a;
    }
  }

  /** One equality test of a `filter` call. */
  datatype Cut = YearIs(year: int) | MonthIs(month: int) | KeyIs(field: Field, key: string)

  predicate Holds(r: Row, c: Cut) {
    match c
    case YearIs(y) => r.year == y
    case MonthIs(m) => r.month == m
    case KeyIs(f, k) => Key(r, f) == k
  }

  /** `xs` is `ys` with some rows deleted and the rest in their original order. */
  predicate SubseqOf(xs: seq<Row>, ys: seq<Row>)
    decreases |ys|
  {
    if |xs| == 0 then true
    else if |ys| == 0 then false
    else (xs[|xs| - 1] == ys[|ys| - 1] && SubseqOf(xs[..|xs| - 1], ys[..|ys| - 1]))
         || SubseqOf(xs, ys[..|ys| - 1])
  }

  lemma {:induction false} SubseqTransitive(xs: seq<Row>, ys: seq<Row>, zs: seq<Row>)
    requires SubseqOf(xs, ys) && SubseqOf(ys, zs)
    ensures SubseqOf(xs, zs)
    decreases |zs|
  {
    if |xs| == 0 {
    } else if SubseqOf(ys, zs[..|zs| - 1]) {
      SubseqTransitive(xs, ys, zs[..|zs| - 1]);
    } else {
      assert ys[|ys| - 1] == zs[|zs| - 1] && SubseqOf(ys[..|ys| - 1], zs[..|zs| - 1]);
      if xs[|xs| - 1] == ys[|ys| - 1] && SubseqOf(xs[..|xs| - 1], ys[..|ys| - 1]) {
        SubseqTransitive(xs[..|xs| - 1], ys[..|ys| - 1], zs[..|zs| - 1]);
      } else {
        SubseqTransitive(xs, ys[..|ys| - 1], zs[..|zs| - 1]);
      }
    }
  }

  lemma SplitLast<T>(xs: seq<T>)
    requires |xs| > 0
    ensures xs == xs[..|xs| - 1] + [xs[|xs| - 1]]
    ensures forall x :: x in xs <==> x in xs[..|xs| - 1] || x == xs[|xs| - 1]
  {
  }

  /** `rows.filter(d => c holds of d)`: order kept, nothing else dropped. */
  function Where(rows: seq<Row>, c: Cut): (kept: seq<Row>)
    ensures forall r :: r in kept <==> r in rows && Holds(r, c)
    ensures SubseqOf(kept, rows)
    ensures |kept| == Matching(rows, c)
  {
    if |rows| == 0 then []
    else
      var prefix := Where(rows[..|rows| - 1], c);
      var last := rows[|rows| - 1];
      SplitLast(rows);
      if Holds(last, c) then
        assert (prefix + [last])[..|prefix|] == prefix;
        prefix + [last]
      else
        prefix
  }

  /** How many rows `c` holds of, counting repeated rows each time. */
  function Matching(rows: seq<Row>, c: Cut): nat {
    if |rows| == 0 then 0
    else Matching(rows[..|rows| - 1], c) + (if Holds(rows[|rows| - 1], c) then 1 else 0)
  }

  /** A filter keeps every copy of a matching row and no copy of any other. */
  lemma {:induction false} WhereKeepsCopies(rows: seq<Row>, c: Cut)
    ensures forall r :: multiset(Where(rows, c))[r] == if Holds(r, c) then multiset(rows)[r] else 0
  {
    if |rows| > 0 {
      var init, last := rows[..|rows| - 1], rows[|rows| - 1];
      WhereKeepsCopies(init, c);
      assert rows == init + [last];
      assert multiset(rows) == multiset(init) + multiset{last};
    }
  }

  lemma {:induction false} WhereNone(rows: seq<Row>, c: Cut)
    requires forall i :: 0 <= i < |rows| ==> !Holds(rows[i], c)
    ensures Where(rows, c) == []
  {
    if |rows| > 0 {
      WhereNone(rows[..|rows| - 1], c);
    }
  }

  lemma {:induction false} WhereAll(rows: seq<Row>, c: Cut)
    requires forall i :: 0 <= i < |rows| ==> Holds(rows[i], c)
    ensures Where(rows, c) == rows
  {
    if |rows| > 0 {
      WhereAll(rows[..|rows| - 1], c);
      SplitLast(rows);
    }
  }

  predicate NoDup<T(==)>(xs: seq<T>) {
    forall i, j :: 0 <= i < j < |xs| ==> xs[i] != xs[j]
  }

  /** The values of `xs` without repeats, each where it was first met (the key order of a JS `Map` or `Set`). */
  function Distinct<T(==, !new)>(xs: seq<T>): (ds: seq<T>)
    ensures forall x :: x in ds <==> x in xs
    ensures NoDup(ds)
    ensures |ds| <= |xs|
  {
    if |xs| == 0 then []
    else
      var ds := Distinct(xs[..|xs| - 1]);
      SplitLast(xs);
      if xs[|xs| - 1] in ds then ds else ds + [xs[|xs| - 1]]
  }

  /** Keys met in a prefix of the input come first, in the same order: first-encounter order. */
  lemma {:induction false} DistinctPrefix<T(!new)>(xs: seq<T>, m: nat)
    requires m <= |xs|
    ensures Distinct(xs[..m]) <= Distinct(xs)
    decreases |xs| - m
  {
    if m < |xs| {
      var init := xs[..|xs| - 1];
      assert init[..m] == xs[..m];
      DistinctPrefix(init, m);
    } else {
      assert xs[..m] == xs;
    }
  }

  function Keys(rows: seq<Row>, f: Field): seq<string> {
    seq(|rows|, i requires 0 <= i < |rows| => Key(rows[i], f))
  }

  function Years(rows: seq<Row>): seq<int> {
    seq(|rows|, i requires 0 <= i < |rows| => rows[i].year)
  }

  /** The group keys of `d3.rollup(rows, …, d => d[f])`, in the map's insertion order. */
  function GroupKeys(rows: seq<Row>, f: Field): (ks: seq<string>)
    ensures NoDup(ks) && |ks| <= |rows|
    ensures forall i :: 0 <= i < |rows| ==> Key(rows[i], f) in ks
    ensures forall k :: k in ks ==> exists i :: 0 <= i < |rows| && Key(rows[i], f) == k
  {
    var ks := Distinct(Keys(rows, f));
    assert forall i :: 0 <= i < |rows| ==> Keys(rows, f)[i] == Key(rows[i], f);
    ks
  }

  /** Groups are in the order their first row appears. */
  lemma GroupKeysFirstSeen(rows: seq<Row>, f: Field, m: nat)
    requires m <= |rows|
    ensures GroupKeys(rows[..m], f) <= GroupKeys(rows, f)
  {
    assert Keys(rows[..m], f) == Keys(rows, f)[..m];
    DistinctPrefix(Keys(rows, f), m);
  }

  /** Each group key has at least one row behind it. */
  lemma GroupNonEmpty(rows: seq<Row>, f: Field, k: string)
    requires k in GroupKeys(rows, f)
    ensures |Where(rows, KeyIs(f, k))| > 0
  {
    var i :| 0 <= i < |rows| && Key(rows[i], f) == k;
    assert rows[i] in Where(rows, KeyIs(f, k));
  }

  /** A sequence without repeats has as many distinct values as elements. */
  lemma {:induction false} NoDupCard<T>(xs: seq<T>)
    requires NoDup(xs)
    ensures |set x | x in xs| == |xs|
  {
    if |xs| > 0 {
      var init, last := xs[..|xs| - 1], xs[|xs| - 1];
      NoDupCard(init);
      assert (set x | x in xs) == (set x | x in init) + {last};
      assert last !in init;
    }
  }

  /** `new Set(rows.map(d => d[f])).size`: the number of distinct values of `f`, never more than the rows. */
  function DistinctCount(rows: seq<Row>, f: Field): (n: nat)
    ensures n == |set i | 0 <= i < |rows| :: Key(rows[i], f)|
    ensures n <= |rows|
    ensures n == 0 <==> |rows| == 0
  {
    var ks := Keys(rows, f);
    var ds := Distinct(ks);
    assert forall i :: 0 <= i < |rows| ==> ks[i] == Key(rows[i], f);
    assert (set x | x in ds) == (set i | 0 <= i < |rows| :: Key(rows[i], f));
    NoDupCard(ds);
    assert |rows| > 0 ==> ks[0] in ds;
    |ds|
  }

  /** Sum over `keys` of each key's group total. */
  function GroupTotal(rows: seq<Row>, f: Field, keys: seq<string>, m: Measure): real {
    if |keys| == 0 then 0.0
    else GroupTotal(rows, f, keys[..|keys| - 1], m) + Total(Where(rows, KeyIs(f, keys[|keys| - 1])), m)
  }

  lemma {:induction false} GroupTotalNoRows(f: Field, keys: seq<string>, m: Measure)
    ensures GroupTotal([], f, keys, m) == 0.0
  {
    if |keys| > 0 {
      GroupTotalNoRows(f, keys[..|keys| - 1], m);
    }
  }

  /** Removing the last row takes its amount out of exactly the one group it belongs to. */
  lemma {:induction false} GroupTotalLastRow(rows: seq<Row>, f: Field, keys: seq<string>, m: Measure)
    requires |rows| > 0 && NoDup(keys)
    ensures GroupTotal(rows, f, keys, m)
         == GroupTotal(rows[..|rows| - 1], f, keys, m)
            + (if Key(rows[|rows| - 1], f) in keys then Amount(rows[|rows| - 1], m) else 0.0)
  {
    if |keys| > 0 {
      var init := keys[..|keys| - 1];
      SplitLast(keys);
      GroupTotalLastRow(rows, f, init, m);
    }
  }

  /** Summing every group's total gives the total of all rows, when the groups cover the rows. */
  lemma {:induction false} GroupsPartitionTotal(rows: seq<Row>, f: Field, keys: seq<string>, m: Measure)
    requires NoDup(keys)
    requires forall i :: 0 <= i < |rows| ==> Key(rows[i], f) in keys
    ensures GroupTotal(rows, f, keys, m) == Total(rows, m)
  {
    if |rows| == 0 {
      GroupTotalNoRows(f, keys, m);
    } else {
      GroupTotalLastRow(rows, f, keys, m);
      GroupsPartitionTotal(rows[..|rows| - 1], f, keys, m);
    }
  }

  /** `d3.max(xs)`; None stands for the `undefined` of an empty input. */
  function MaxOf(xs: seq<real>): (r: Option<real>)
    ensures r.None? <==> |xs| == 0
    ensures r.Some? ==> r.value in xs && forall x :: x in xs ==> x <= r.value
  {
    if |xs| == 0 then None
    else
      var rest := MaxOf(xs[..|xs| - 1]);
      SplitLast(xs);
      if rest.None? || rest.value < xs[|xs| - 1] then Some(xs[|xs| - 1]) else rest
  }

  /** `d3.min(xs)`; None stands for the `undefined` of an empty input. */
  function MinOf(xs: seq<real>): (r: Option<real>)
    ensures r.None? <==> |xs| == 0
    ensures r.Some? ==> r.value in xs && forall x :: x in xs ==> r.value <= x
  {
    if |xs| == 0 then None
    else
      var rest := MinOf(xs[..|xs| - 1]);
      SplitLast(xs);
      if rest.None? || xs[|xs| - 1] < rest.value then Some(xs[|xs| - 1]) else rest
  }
}
