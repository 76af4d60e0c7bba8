/**
 * The dashboard's shared selection (`currentState` in interactivity.js) and the click
 * handlers that change it. The handlers are given twice: as pure transitions on a
 * `Selection` value, which the laws below are about, and as the methods of the
 * `CurrentState` class, which assign the fields in place the way the source does and are
 * proved to perform exactly those transitions.
 */
module CrossFilter {
  import opened Rows

  /** The year drop-down: "all" or one calendar year. */
  datatype Year = AllYears | InYear(year: int)

  /** The five filter dimensions; None is the source's `null` (unset). */
  datatype Selection = Selection(
    year: Year,
    state: Option<string>,
    category: Option<string>,
    segment: Option<string>,
    product: Option<string>)

  /** The value `currentState` starts from and `resetAll` restores. */
  const Initial := Selection(AllYears, None, None, None, None)

  /** What a chart, the year select or the reset button reports to the controller. */
  datatype Click =
    | StateClick(stateName: Option<string>)
    | CategoryClick(categoryName: string)
    | SegmentClick(segmentName: string)
    | ProductClick(productName: string)
    | YearPick(pick: Year)
    | ResetClick

  /**
   * handleStateClick: the state already selected is deselected; any other value (including
   * the map background's null) becomes the state and drops the category drill-down.
   */
  function OnStateClick(s: Selection, name: Option<string>): (t: Selection)
    ensures t.year == s.year && t.segment == s.segment && t.product == s.product
    ensures s.state == name ==> t.state == None && t.category == s.category
    ensures s.state != name ==> t.state == name && t.category == None
  {
    if s.state == name then s.(state := None) else s.(state := name, category := None)
  }

  /**
   * handleCategoryClick: the category already selected is deselected; a different one is
   * selected and drops the product selection. State, segment and year are kept.
   */
  function OnCategoryClick(s: Selection, name: string): (t: Selection)
    ensures t.year == s.year && t.state == s.state && t.segment == s.segment
    ensures s.category == Some(name) ==> t.category == None && t.product == s.product
    ensures s.category != Some(name) ==> t.category == Some(name) && t.product == None
  {
    if s.category == Some(name) then s.(category := None) else s.(category := Some(name), product := None)
  }

  /** handleSegmentClick: toggles the segment and touches nothing else. */
  function OnSegmentClick(s: Selection, name: string): (t: Selection)
    ensures t.(segment := s.segment) == s
    ensures t.segment == None <==> s.segment == Some(name)
    ensures t.segment != None ==> t.segment == Some(name)
  {
    if s.segment == Some(name) then s.(segment := None) else s.(segment := Some(name))
  }

  /** handleProductClick: toggles the product and touches nothing else. */
  function OnProductClick(s: Selection, name: string): (t: Selection)
    ensures t.(product := s.product) == s
    ensures t.product == None <==> s.product == Some(name)
    ensures t.product != None ==> t.product == Some(name)
  {
    if s.product == Some(name) then s.(product := None) else s.(product := Some(name))
  }

  /** The year select's change handler: sets the year and nothing else. */
  function OnYearPick(s: Selection, y: Year): (t: Selection)
    ensures t.year == y && t.(year := s.year) == s
  {
    s.(year := y)
  }

  /** One controller transition. */
  function Step(s: Selection, c: Click): Selection {
    match c
    case StateClick(n) => OnStateClick(s, n)
    case CategoryClick(n) => OnCategoryClick(s, n)
    case SegmentClick(n) => OnSegmentClick(s, n)
    case ProductClick(n) => OnProductClick(s, n)
    case YearPick(y) => OnYearPick(s, y)
    case ResetClick => Initial
  }

  /** A sequence of transitions, applied first to last. */
  function Run(s: Selection, cs: seq<Click>): Selection {
    if |cs| == 0 then s else Step(Run(s, cs[..|cs| - 1]), cs[|cs| - 1])
  }

  /** `isFiltered`, which shows the reset button: anything differs from the initial selection. */
  function IsFiltered(s: Selection): (b: bool)
    ensures b <==> s != Initial
  {
    s.year != AllYears || s.state.Some? || s.category.Some? || s.segment.Some? || s.product.Some?
  }

  /** Clicking the same segment twice restores the selection exactly when that segment was unset or was the one clicked. */
  lemma SegmentClickTwice(s: Selection, name: string)
    ensures OnSegmentClick(OnSegmentClick(s, name), name) == s <==> s.segment in {None, Some(name)}
  {
  }

  /** Clicking the same product twice restores the selection exactly when that product was unset or was the one clicked. */
  lemma ProductClickTwice(s: Selection, name: string)
    ensures OnProductClick(OnProductClick(s, name), name) == s <==> s.product in {None, Some(name)}
  {
  }

  /** Selecting a new state and clicking it again leaves no state and no category. */
  lemma StateClickTwice(s: Selection, name: Option<string>)
    requires s.state != name
    ensures OnStateClick(OnStateClick(s, name), name) == s.(state := None, category := None)
  {
  }

  /** Selecting a new category and clicking it again leaves no category and no product. */
  lemma CategoryClickTwice(s: Selection, name: string)
    requires s.category != Some(name)
    ensures OnCategoryClick(OnCategoryClick(s, name), name) == s.(category := None, product := None)
  {
  }

  /** The map's background click (null) with a state selected clears both state and category. */
  lemma BackgroundClickClears(s: Selection)
    requires s.state.Some?
    ensures OnStateClick(s, None) == s.(state := None, category := None)
  {
  }

  /** After a reset, whatever came before, the selection is the initial one and nothing is filtered; resetting again changes nothing. */
  lemma {:induction false} ResetForgetsHistory(s: Selection, cs: seq<Click>)
    ensures Run(s, cs + [ResetClick]) == Initial
    ensures Run(s, cs + [ResetClick, ResetClick]) == Initial
    ensures !IsFiltered(Run(s, cs + [ResetClick]))
  {
    assert (cs + [ResetClick])[..|cs|] == cs;
    assert (cs + [ResetClick, ResetClick])[..|cs| + 1] == cs + [ResetClick];
  }

  /** `currentState`, updated in place by the handlers. */
  class CurrentState {
    var year: Year
    var state: Option<string>
    var category: Option<string>
    var segment: Option<string>
    var product: Option<string>

    function Value(): Selection
      reads this
    {
      Selection(year, state, category, segment, product)
    }

    constructor ()
      ensures Value() == Initial
    {
      year, state, category, segment, product := AllYears, None, None, None, None;
    }

    method HandleStateClick(stateName: Option<string>)
      modifies this
      ensures Value() == OnStateClick(old(Value()), stateName)
    {
      if state == stateName {
        state := None;
      } else {
        state := stateName;
        category := None;
      }
    }

    method HandleCategoryClick(categoryName: string)
      modifies this
      ensures Value() == OnCategoryClick(old(Value()), categoryName)
    {
      if category == Some(categoryName) {
        category := None;
      } else {
        category := Some(categoryName);
        product := None;
      }
    }

    method HandleSegmentClick(segmentName: string)
      modifies this
      ensures Value() == OnSegmentClick(old(Value()), segmentName)
    {
      if segment == Some(segmentName) {
        segment := None;
      } else {
        segment := Some(segmentName);
      }
    }

    method HandleProductClick(productName: string)
      modifies this
      ensures Value() == OnProductClick(old(Value()), productName)
    {
      if product == Some(productName) {
        product := None;
      } else {
        product := Some(productName);
      }
    }

    method SetYear(y: Year)
      modifies this
      ensures Value() == OnYearPick(old(Value()), y)
    {
      year := y;
    }

    method ResetAll()
      modifies this
      ensures Value() == Initial
    {
      year, state, category, segment, product := AllYears, None, None, None, None;
    }

    /** Routes a click to the handler of its own dimension. */
    method Dispatch(c: Click)
      modifies this
      ensures Value() == Step(old(Value()), c)
    {
      match c
      case StateClick(n) => HandleStateClick(n);
      case CategoryClick(n) => HandleCategoryClick(n);
      case SegmentClick(n) => HandleSegmentClick(n);
      case ProductClick(n) => HandleProductClick(n);
      case YearPick(y) => SetYear(y);
      case ResetClick => ResetAll();
    }
  }
}
