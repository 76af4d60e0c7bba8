# Cross-filter sales dashboard: controller and chart data rules

A model of the logic of a D3 sales dashboard made of six linked views:
- a US bubble map;
- a pie of sales per category;
- a top-10 product bar chart;
- a customer-segment scatter;
- two stacked area charts, one for sales and one for profit.

The model has four parts:

- **The shared selection.** `currentState` holds year, state, category, segment and product. The click handlers that toggle it, the year select and `resetAll` are in `CrossFilter`. They appear once as pure transitions on a `Selection` value, where the toggle and clearing laws are proved. They appear again as the class `CurrentState`, whose methods assign the fields in place and are proved to perform those transitions.
- **`updateDashboard`.** `Pipeline` holds the five filter chains, the highlight key each view receives, the pie title and the KPI reduction. The chains are also stated as a policy table (which dimensions cut which subset). Every hand-written chain is proved equal to its policy subset. Nesting and order preservation follow from that. So does the highlight rule: every view except the map is never cut by its own highlight, and the map's rows are cut by the state it highlights.
- **Each chart's `update` data rules.** There is one module per chart: `TopProducts`, `CustomerSegment`, `StackedLine`, `StateMap` and `Pie`. Each covers its rollup, sort or bucketing, its emphasis (opacity) rules and its click payload.
- **The event loop.** In `Controller`, each click runs one handler and then one full refresh. The lemmas there follow a click through to what the charts receive.

Rows are already typed and dated (`year`, `month` 0..11, and the text columns `State`, `Category`, `Segment`, `Product Name` and `Order ID`). Sales and Profit are exact `real`s. A JS `null` selection is `None`. The `undefined`/`NaN` that `d3.min`/`d3.max` give on no input is also `None`. Every fold runs over rows in order, so group keys come out in the order a JS `Map` inserts them.

Every view except the map is never cut by its own highlight; the map's rows are cut by the state it highlights. The bar chart, the stacked charts with the pie, and the scatter each keep the rows of every value of their own dimension, so the unselected ones can be dimmed (`Pipeline.HighlightNeverCuts`). The map receives the fully filtered rows, which are cut by the selected state, together with that same state as its highlight (`Pipeline.MapCutByItsHighlight`).

## Model

| member | source | states |
|---|---|---|
| `Rows.Where` | interactivity.js:146-175 | each `filter` step keeps exactly the rows meeting its test, in their original order (a sub-sequence), and as many rows as meet it, so no repeated line item is lost |
| `Rows.WhereKeepsCopies` | interactivity.js:146-175 | a filter keeps every copy of a matching row and no copy of any other row |
| `Rows.TotalConcat` | interactivity.js:204-205 | `d3.sum`: summing two runs of rows one after the other gives the sum of their two sums |
| `Rows.TotalNonNegative` | interactivity.js:204-205 | `d3.sum` of amounts none of which is negative is not negative |
| `Rows.GroupKeys` | charts/top-10-product-by-sales-and-profit.js:67-73 | rollup keys: no repeats, every row's key present, every key backed by a row |
| `Rows.GroupKeysFirstSeen` | charts/top-10-product-by-sales-and-profit.js:67-73 | keys appear in the order their first row does: a prefix of the rows yields a prefix of the keys |
| `Rows.DistinctCount` | interactivity.js:206 | `new Set(…).size`: the number of distinct values of the column among the rows (repeats collapse); at most the number of rows, and 0 exactly for no rows |
| `Rows.GroupsPartitionTotal` | charts/pie.js:32-34 | when the groups cover the rows, the group sums add up to the total of all rows |
| `Rows.MaxOf` | charts/customer-segment.js:81-82 | `d3.max`: undefined exactly on no input, otherwise an element at least every element |
| `Rows.MinOf` | charts/top-10-product-by-sales-and-profit.js:84 | `d3.min`: undefined exactly on no input, otherwise an element at most every element |
| `CrossFilter.OnStateClick` | interactivity.js:88-97 | the same state (null included) deselects and keeps the category; a different one is set and clears the category; year, segment and product are untouched |
| `CrossFilter.OnCategoryClick` | interactivity.js:99-108 | the same category deselects and keeps the product; a different one is set and clears the product; year, state and segment are untouched |
| `CrossFilter.OnSegmentClick` | interactivity.js:110-117 | toggles the segment (unset iff it was the clicked one) and changes no other field |
| `CrossFilter.OnProductClick` | interactivity.js:120-127 | toggles the product (unset iff it was the clicked one) and changes no other field |
| `CrossFilter.OnYearPick` | interactivity.js:74-75 | the year select sets the year ("all" or a number) and nothing else |
| `CrossFilter.IsFiltered` | interactivity.js:139 | the reset button shows iff the selection differs from the initial one |
| `CrossFilter.SegmentClickTwice` | interactivity.js:110-117 | two clicks on one segment restore the selection iff that segment was unset or was the one clicked |
| `CrossFilter.ProductClickTwice` | interactivity.js:120-127 | two clicks on one product restore the selection iff that product was unset or was the one clicked |
| `CrossFilter.StateClickTwice` | interactivity.js:88-97 | choosing a new state and clicking it again leaves no state and no category |
| `CrossFilter.CategoryClickTwice` | interactivity.js:99-108 | choosing a new category and clicking it again leaves no category and no product |
| `CrossFilter.BackgroundClickClears` | interactivity.js:88-95 | the map background's null with a state selected clears state and category |
| `CrossFilter.ResetForgetsHistory` | interactivity.js:129-133 | after any history, reset gives the initial selection, resetting again changes nothing, and nothing is filtered |
| `CrossFilter.CurrentState.constructor` | interactivity.js:12-18 | `currentState` starts as year "all" with every other field null |
| `CrossFilter.CurrentState.HandleStateClick` | interactivity.js:88-97 | the in-place field assignments perform exactly `OnStateClick` |
| `CrossFilter.CurrentState.HandleCategoryClick` | interactivity.js:99-108 | the in-place field assignments perform exactly `OnCategoryClick` |
| `CrossFilter.CurrentState.HandleSegmentClick` | interactivity.js:110-117 | the in-place field assignments perform exactly `OnSegmentClick` |
| `CrossFilter.CurrentState.HandleProductClick` | interactivity.js:120-127 | the in-place field assignments perform exactly `OnProductClick` |
| `CrossFilter.CurrentState.SetYear` | interactivity.js:74-75 | assigning the year performs exactly `OnYearPick` |
| `CrossFilter.CurrentState.ResetAll` | interactivity.js:129-133 | the selection becomes the initial one whatever it was |
| `CrossFilter.CurrentState.Dispatch` | interactivity.js:62-79 | each view's click reaches the handler of its own dimension, the year select the setter and the button the reset |
| `Pipeline.CommonData` | interactivity.js:146-148 | a row is kept iff it is in the data and passes the year test (unless "all") and the state test (if set) |
| `Pipeline.ScatterData` | interactivity.js:153-155 | a row is kept iff it is in the common data and passes the category and product tests (each if set) |
| `Pipeline.LineData` | interactivity.js:160-162 | a row is kept iff it is in the common data and passes the segment and product tests (each if set) |
| `Pipeline.BarData` | interactivity.js:168-170 | a row is kept iff it is in the common data and passes the segment and category tests (each if set) |
| `Pipeline.FinalData` | interactivity.js:174-175 | a row is kept iff it is in the bar data and passes the product test (if set) |
| `Pipeline.CommonFollowsPolicy` | interactivity.js:146-148 | the common chain cuts on exactly year (unless "all") and state (if set) |
| `Pipeline.SubsetFollowsPolicy` | interactivity.js:146-175 | each of the five chains equals the rows admitted by exactly its policy's dimensions |
| `Pipeline.SubsetsNest` | interactivity.js:146-175 | final data lies within scatter, line and bar data, those within the common data, that within all rows, and final data within all rows; order kept throughout |
| `Pipeline.HighlightNeverCuts` | interactivity.js:181-200 | bar rows do not depend on the product, line and pie rows on the category, scatter rows on the segment |
| `Pipeline.MapCutByItsHighlight` | interactivity.js:181-182 | with a state selected, every row the map receives is of that state |
| `Pipeline.PieTitle` | interactivity.js:195-198 | "Product Revenue" when a product is selected, else "<segment> Revenue", else "<state> Revenue", else "Total Revenue" |
| `Pipeline.ComputeKpis` | interactivity.js:203-207 | revenue and profit are the sums, orders the number of distinct Order IDs among the rows (at most the rows, 0 iff none), margin times revenue is 100 times profit, margin 0 when revenue is 0, and no rows gives all zeros |
| `Pipeline.UpdateDashboard` | interactivity.js:135-200 | each consumer receives its policy subset and its highlight key: map and KPIs the full cut, bar, line/pie and scatter their own; the pie receives `PieTitle` of the selection; the reset button shows iff something is selected |
| `TopProducts.RollupIsProductTotals` | charts/top-10-product-by-sales-and-profit.js:67-76 | the rollup has one entry for every product present, no product twice, each entry its product's summed Sales and Profit |
| `TopProducts.SortBySales` | charts/top-10-product-by-sales-and-profit.js:77 | sales non-increasing, a permutation of its input, and entries with equal sales in their original order (stable) |
| `TopProducts.TopTen` | charts/top-10-product-by-sales-and-profit.js:76-78 | min(10, distinct products) entries, sales non-increasing |
| `TopProducts.TopTenAreProductTotals` | charts/top-10-product-by-sales-and-profit.js:67-76 | every entry is its product's summed Sales and Profit, and no product appears twice |
| `TopProducts.TopTenLeftOutSoldLess` | charts/top-10-product-by-sales-and-profit.js:77-78 | a product left out sold no more than any product kept |
| `TopProducts.TopTenKeepsTieOrder` | charts/top-10-product-by-sales-and-profit.js:67-77 | among equal sales, the kept entries are the first in rollup (first-encounter) order |
| `TopProducts.RectsOf` | charts/top-10-product-by-sales-and-profit.js:116-117 | two rects per product, Sales then Profit, each carrying the product name |
| `TopProducts.BarClick` | charts/top-10-product-by-sales-and-profit.js:123-126 | either rect reports its product |
| `TopProducts.BarOpacity` | charts/top-10-product-by-sales-and-profit.js:128-133 | 1 iff no product is active or the bar is the active product's; otherwise 0.2 |
| `TopProducts.HoverOpacity` | charts/top-10-product-by-sales-and-profit.js:135-138 | hover gives 0.4 iff the bar is dimmed, otherwise 0.7 |
| `TopProducts.MouseOutOpacity` | charts/top-10-product-by-sales-and-profit.js:148 | 0.2 iff another product is active, otherwise 1 |
| `TopProducts.HoverThenRestore` | charts/top-10-product-by-sales-and-profit.js:146-149 | mouse-out restores exactly the resting rule; hovering brightens a bar iff it was dimmed |
| `TopProducts.Fill` | charts/top-10-product-by-sales-and-profit.js:157 | the loss colour iff a Profit bar is negative; Sales bars keep their colour |
| `TopProducts.XDomainLow` | charts/top-10-product-by-sales-and-profit.js:83-84 | min(0, least profit): at most 0 and at most every profit; undefined only with no bars |
| `CustomerSegment.MeanSales` | charts/customer-segment.js:74 | the mean, counted once per row, adds up to the segment's sales |
| `CustomerSegment.Stats` | charts/customer-segment.js:70-78 | one point per distinct segment in first-encounter order; no points for no rows |
| `CustomerSegment.PointSummarisesItsSegment` | charts/customer-segment.js:72-75 | a point's order count is its segment's distinct order IDs (between 1 and its row count), and its mean times its row count is its sales |
| `CustomerSegment.OnePointPerSegment` | charts/customer-segment.js:70-78 | every segment present has a point and no segment has two |
| `CustomerSegment.OrdersAreDistinctMeanIsPerRow` | charts/customer-segment.js:73-74 | three rows of two orders give 2 orders and the mean of the three sales |
| `CustomerSegment.XUpper` | charts/customer-segment.js:81 | 1.1 × the largest order count when some count is positive (a point's value, at least every point's), and 10 when there is no point or every count is 0 |
| `CustomerSegment.YUpper` | charts/customer-segment.js:82 | 1.1 × the largest mean when that mean is not 0 (some mean positive, or all negative), and 100 when there is no point or the largest mean is 0; never 0 and never below a point |
| `CustomerSegment.CircleOpacity` | charts/customer-segment.js:127-132 | 1 iff no segment is active or the circle is the active one; otherwise 0.3 |
| `CustomerSegment.CircleOpacityAsWritten` | charts/customer-segment.js:100 | an entering circle gets 1; an existing one follows the rule |
| `CustomerSegment.CircleClick` | charts/customer-segment.js:101-104 | a circle reports its segment |
| `StackedLine.ModeFor` | charts/stacked-line-chart.js:34 | month buckets iff a single year is chosen |
| `StackedLine.Sums` | charts/stacked-line-chart.js:42-45 | one sum for each of the three stacked categories, and all 0 for no rows |
| `StackedLine.SumsAddRow` | charts/stacked-line-chart.js:42-45 | a row adds its metric to its own category's sum only; rows outside the three categories add nothing; the keys are always the three categories |
| `StackedLine.EmptyCategoryIsZero` | charts/stacked-line-chart.js:44 | a category with no rows sums to 0 |
| `StackedLine.MonthBucket` | charts/stacked-line-chart.js:40-46 | the bucket object built one category at a time holds each category's sum over that month's rows |
| `StackedLine.MonthBuckets` | charts/stacked-line-chart.js:38-47 | exactly 12 buckets, months 0..11 in order, each summing its own month, empty months included |
| `StackedLine.SortYears` | charts/stacked-line-chart.js:56 | distinct years come out strictly ascending, same years, same count |
| `StackedLine.YearLabels` | charts/stacked-line-chart.js:49-56 | strictly ascending, exactly the years that occur |
| `StackedLine.YearBuckets` | charts/stacked-line-chart.js:48-57 | one bucket per year label, each summing its own year's rows |
| `StackedLine.YearBucketsCoverYears` | charts/stacked-line-chart.js:49-56 | year buckets strictly ascending, and every year occurring has its bucket |
| `StackedLine.Aggregate` | charts/stacked-line-chart.js:33-57 | the buckets of the mode the year filter selects |
| `StackedLine.LayerOpacity` | charts/stacked-line-chart.js:83-88 | 1 iff no category is active or the layer is the active one; otherwise 0.2 |
| `StackedLine.HoverOpacity` | charts/stacked-line-chart.js:94-97 | 0.2 iff another category is active, otherwise 1 |
| `StackedLine.HoverKeepsEmphasis` | charts/stacked-line-chart.js:94-97 | the opacity re-applied on mouse move equals the update's |
| `StackedLine.LegendOpacity` | charts/stacked-line-chart.js:123 | 0.3 iff another category is active, otherwise 1 |
| `StackedLine.LegendBold` | charts/stacked-line-chart.js:124 | bold iff the entry is the active category |
| `StackedLine.LayerClick` | charts/stacked-line-chart.js:90-93 | a layer reports its category key |
| `StateMap.SalesByState` | charts/map.js:61 | the keys are exactly the states that occur |
| `StateMap.SalesLookup` | charts/map.js:98 | the lookup that falls back to 0: a figure other than 0 only for a state that has a key (its value is the state total by `LookupIsStateTotal`) |
| `StateMap.LookupIsStateTotal` | charts/map.js:78 | the lookup with `|| 0` is the state's sales total, 0 for a state without rows |
| `StateMap.Bubbles` | charts/map.js:64-106 | one bubble per geometry in geometry order whatever the rows, with the looked-up radius input, the fill rule and the opacity rule |
| `StateMap.RadiusIsStateSales` | charts/map.js:98 | a bubble's radius input is its state's sales total |
| `StateMap.BubbleFill` | charts/map.js:99 | the active category's colour when one is set, otherwise steelblue |
| `StateMap.BubbleOpacity` | charts/map.js:100-106 | with a selected state 1 for it and 0.1 for the rest; with none 0.7 for all |
| `StateMap.BubbleClick` | charts/map.js:91-94 | a bubble reports its state's name |
| `StateMap.BackgroundClick` | charts/map.js:18 | the background reports null |
| `StateMap.TooltipTableAsWritten` | charts/map.js:77-80 | the tooltip keeps the table captured when the bubbles entered |
| `StateMap.TooltipGoesStale` | charts/map.js:77-80 | after an update without Texas rows the tooltip still shows the first update's Texas total while the radius input is 0 |
| `StateMap.TooltipAgreesWithRadius` | charts/map.js:78 | reading the current table, the tooltip equals the radius input and the state's sales total |
| `Pie.Slices` | charts/pie.js:33 | one slice per category present |
| `Pie.SliceIsCategorySales` | charts/pie.js:32-33 | slice i is the i-th category in first-encounter order (pie sorting is off) with its sales total |
| `Pie.SliceTotal` | charts/pie.js:34 | `d3.sum` of the slice values: not negative when no slice is |
| `Pie.TotalIsAllSales` | charts/pie.js:34 | the slice values add up to the sales of all rows |
| `Pie.PercentLabel` | charts/pie.js:86 | blank iff the value is not positive; otherwise share × total = value × 100, or not finite when the total is 0 |
| `Pie.SharesAreAtMostWhole` | charts/pie.js:86-89 | with no negative slice a label is shown iff its value is positive, and then lies in (0, 100] |
| `Pie.LabelOpacity` | charts/pie.js:81-90 | hidden iff an updated label's slice is narrower than 0.2 rad; entering labels stay visible |
| `Pie.SortNames` | charts/pie.js:41 | strictly ascending in string order, same names, same count |
| `Pie.Legend` | charts/pie.js:41 | exactly the categories present, once each, ascending |
| `Pie.SliceOpacity` | charts/pie.js:70-76 | 1 iff no category is active or the slice is the active one; otherwise 0.3 |
| `Pie.SliceClick` | charts/pie.js:59-62 | a slice reports its category |
| `Controller.Dashboard.constructor` | interactivity.js:11-18 | the loaded rows are kept and the selection starts initial |
| `Controller.Dashboard.Handle` | interactivity.js:88-133 | every event runs its handler and then refreshes all consumers from the new selection |
| `Controller.UnfilteredSeesAll` | interactivity.js:135-200 | with nothing selected every view gets all rows, the reset button is hidden and the pie says "Total Revenue" |
| `Controller.ResetShowsAll` | interactivity.js:129-133 | after a reset the refresh is the unfiltered one |
| `Controller.BarClickOnlyMovesHighlight` | interactivity.js:168-185 | a bar click keeps the bar rows and moves the bar highlight to the product, or off it |
| `Controller.ScatterClickOnlyMovesHighlight` | interactivity.js:153-192 | a circle click keeps the scatter rows and moves its highlight |
| `Controller.CategoryClickKeepsLineRows` | interactivity.js:160-200 | a category click keeps line and pie rows unless it also clears a selected product |
| `Controller.NewCategoryDropsProductCut` | interactivity.js:99-108 | a new category drops the product, so line rows lose the product cut and the bar highlight is cleared |
| `Controller.StateClickNarrowsMap` | interactivity.js:88-97 | after choosing a new state every map row is of that state |
| `Controller.EnteringCircleNotDimmed` | charts/customer-segment.js:100 | clearing a product brings a segment circle back at full opacity although another segment is active |

## Findings

| source | as written | input that shows it | evidently intended | confidence | as-written member | corrected member |
|---|---|---|---|---|---|---|
| charts/map.js:77-80 | the mouse-over handler is attached only on enter and reads the `salesByState` of that update; the geometries never change, so every bubble enters once | first update with one Texas row of Sales 100, second update with no rows: the tooltip says 100, the radius input is 0 | the tooltip shows the current update's state total, as the radius does | high (not executed) | `StateMap.TooltipGoesStale` | `StateMap.TooltipAgreesWithRadius` |
| charts/customer-segment.js:100 | entering circles are set to opacity 1; the highlight rule (lines 127-132) is applied only to circles that already exist | a Consumer bought the Desk, a Corporate customer the Chair; select segment Consumer and product Desk, then click the Desk again: the Corporate circle enters at 1 while Consumer is active | every circle follows the highlight rule, 0.3 for a segment that is not active | medium (not executed) | `Controller.EnteringCircleNotDimmed` | `CustomerSegment.CircleOpacity` |

## Left out

- Loading. `Promise.all`, `d3.json`, `d3.csv` and the error handler are left out. Rows are taken as already typed, trimmed and dated. The date filter is assumed to have run.
- CSV coercion, `trim` and `d3.timeParse` are left out. They are library parsing of text.
- Scale construction is left out: the colour scale, the radius scale and the year `<option>` list. Their values are opaque library objects. The map keeps the radius scale's input and not the radius. Fills are named, not hex colours.
- DOM and SVG work is left out: axes, transitions, tooltip text and position, legend markup, the reset button's display style, the year select's displayed value on reset, zoom, and the KPI margin's text colour.
- Geographic projection, centroids and topojson are left out. The state geometries are their list of names.
- Layout computed by d3 is left out: `d3.pie` angles, `d3.arc` centroids, `d3.stack` offsets, the stacked charts' band and linear domains, the top-10 upper x bound, and `.nice()`. `Pie.LabelOpacity` takes a slice's angular width as input.
- Number formatting is left out: `toFixed`, `toLocaleString`, the "K" suffix and the rounding of pie percentages.
- IEEE floating point is not modelled. Means, margins, the 1.1 factor and percentages are exact real arithmetic. A zero total is made explicit instead of JS `Infinity` or `NaN`.
- JS truthiness is not modelled. An unset field is `None`, and empty strings or 0 as selections are not modelled.
- `Pie.SortNames` orders strings by Dafny characters (Unicode scalar values). JS `sort()` compares UTF-16 code units. The two orders differ only for characters outside the Basic Multilingual Plane.
- `TopProducts.TopTen`: its own contract states length and order only. Its contents, uniqueness, left-out bound and tie order are in the three lemmas named after it.
