/**
 * The item and question filters of the Python server
 * (visualizer/visualizer/main.py): the LoComo and LongMemEval item lists
 * and the question lists of their detail pages.
 *
 * The filter values arrive as raw query-string values. The source keeps
 * the passing items in a list and later finds each one's position again
 * with `list.index`; the model carries the position with each kept item
 * (`Selection.Select`) and proves what `list.index` would return.
 */
module ServerFilters {
  import opened Wrappers
  import opened Strings
  import opened Records
  import opened Selection
  import opened Scoring

  /** How the server reads `filter_type`; any other value matches no branch. */
  function ParseFilterType(s: string): Option<CorrectnessFilter> {
    if s == "all" then Some(All)
    else if s == "correct" then Some(CorrectOnly)
    else if s == "incorrect" then Some(IncorrectOnly)
    else if s == "invalid" then Some(InvalidOnly)
    else None
  }

  // ---------------------------------------------------------------- items

  /** The item-level correctness filter over an item's `detailed_results`. */
  predicate ItemPassesCorrectness(filterType: string, ds: seq<Question>) {
    match ParseFilterType(filterType)
    case None => false
    case Some(All) => true
    case Some(CorrectOnly) => |ds| > 0 && forall i :: 0 <= i < |ds| ==> ds[i].isCorrect && !ds[i].isInvalid
    case Some(IncorrectOnly) => exists i :: 0 <= i < |ds| && !ds[i].isCorrect && !ds[i].isInvalid
    case Some(InvalidOnly) => exists i :: 0 <= i < |ds| && ds[i].isInvalid
  }

  /** The category filter, already typed for its benchmark. */
  datatype CategoryChoice = AnyCategory | OnlyCategory(c: Category)

  /** The item-level category filter: some question has the chosen category. */
  predicate ItemPassesCategory(choice: CategoryChoice, ds: seq<Question>) {
    match choice
    case AnyCategory => true
    case OnlyCategory(c) => exists i :: 0 <= i < |ds| && ds[i].category == c
  }

  predicate KeepItem(filterType: string, choice: CategoryChoice, it: Item) {
    ItemPassesCorrectness(filterType, Details(it)) && ItemPassesCategory(choice, Details(it))
  }

  function ItemFilter(filterType: string, choice: CategoryChoice): Item -> bool {
    it => KeepItem(filterType, choice, it)
  }

  /**
   * LoComo compares categories as integers: `int(category_filter)`. A value
   * that does not parse is only evaluated (and raises) once there is an item.
   */
  function LocomoChoice(categoryFilter: string): CategoryChoice {
    if categoryFilter == "all" then AnyCategory
    else OnlyCategory(Num(ParseInt(categoryFilter).GetOr(0)))
  }

  /** LongMemEval compares the raw string: only a tag equal to it matches. */
  function LongMemEvalChoice(categoryFilter: string): CategoryChoice {
    if categoryFilter == "all" then AnyCategory else OnlyCategory(Tag(categoryFilter))
  }

  /**
   * What escapes a request handler: the `ValueError` of `int()`, the
   * `IndexError` of a list index, the `KeyError` of a missing `data[key]`.
   */
  datatype Raised = ValueError(text: string) | IndexError(index: int) | KeyError(key: string)

  /**
   * The LoComo item list: every item passing both filters, in document
   * order, each with its position in `items`; the request fails when the
   * category filter is not an integer and there is an item to test it on.
   */
  method FilterLocomoItems(items: seq<Item>, filterType: string, categoryFilter: string)
    returns (r: Result<seq<(nat, Item)>, Raised>)
    ensures r.Failure? <==> |items| > 0 && categoryFilter != "all" && ParseInt(categoryFilter).None?
    ensures r.Failure? ==> r.error == ValueError(categoryFilter)
    ensures r.Success? ==> r.value == Select(items, ItemFilter(filterType, LocomoChoice(categoryFilter)))
  {
    var kept: seq<(nat, Item)> := [];
    var i := 0;
    while i < |items|
      invariant 0 <= i <= |items|
      invariant i > 0 ==> categoryFilter == "all" || ParseInt(categoryFilter).Some?
      invariant kept == Select(items[..i], ItemFilter(filterType, LocomoChoice(categoryFilter)))
    {
      var ds := Details(items[i]);
      var passesCorrectness := ItemPassesCorrectness(filterType, ds);
      var passesCategory := false;
      if categoryFilter == "all" {
        passesCategory := true;
      } else {
        var id := ParseInt(categoryFilter);
        if id.None? {
          return Failure(ValueError(categoryFilter));
        }
        passesCategory := exists j :: 0 <= j < |ds| && ds[j].category == Num(id.value);
      }
      assert items[..i + 1][..i] == items[..i];
      if passesCorrectness && passesCategory {
        kept := kept + [(i, items[i])];
      }
      i := i + 1;
    }
    assert items[..i] == items;
    return Success(kept);
  }

  /** The LongMemEval item list: every item passing both filters, in order, with its position. */
  method FilterLongMemEvalItems(items: seq<Item>, filterType: string, categoryFilter: string)
    returns (kept: seq<(nat, Item)>)
    ensures kept == Select(items, ItemFilter(filterType, LongMemEvalChoice(categoryFilter)))
  {
    kept := [];
    var i := 0;
    while i < |items|
      invariant 0 <= i <= |items|
      invariant kept == Select(items[..i], ItemFilter(filterType, LongMemEvalChoice(categoryFilter)))
    {
      var ds := Details(items[i]);
      var passesCorrectness := ItemPassesCorrectness(filterType, ds);
      var passesCategory := categoryFilter == "all"
        || exists j :: 0 <= j < |ds| && ds[j].category == Tag(categoryFilter);
      assert items[..i + 1][..i] == items[..i];
      if passesCorrectness && passesCategory {
        kept := kept + [(i, items[i])];
      }
      i := i + 1;
    }
    assert items[..i] == items;
  }

  /**
   * The item-level correctness filters read off the item's own counters:
   * `correct` keeps an item whose every question counts as correct (and
   * there is at least one), `incorrect` one with an answer counted neither
   * correct nor invalid, `invalid` one with an invalid answer.
   */
  lemma ItemFilterAgreesWithTally(ds: seq<Question>)
    ensures ItemPassesCorrectness("correct", ds) <==> 0 < Tally(ds).correct == Tally(ds).total
    ensures ItemPassesCorrectness("incorrect", ds) <==> Tally(ds).correct + Tally(ds).invalid < Tally(ds).total
    ensures ItemPassesCorrectness("invalid", ds) <==> Tally(ds).invalid > 0
  {
    TallyCounts(ds);
    AllCorrectIsTally(ds);
    SomeIncorrectIsTally(ds);
    SomeInvalidIsTally(ds);
  }

  /** Every question correct and valid exactly when the correct counter reaches the total. */
  lemma {:induction false} AllCorrectIsTally(ds: seq<Question>)
    ensures (forall i :: 0 <= i < |ds| ==> ds[i].isCorrect && !ds[i].isInvalid) <==> Tally(ds).correct == Tally(ds).total
  {
    if |ds| > 0 {
      var ds' := ds[..|ds| - 1];
      AllCorrectIsTally(ds');
      TallyCounts(ds');
      if forall i :: 0 <= i < |ds| ==> ds[i].isCorrect && !ds[i].isInvalid {
        assert forall i :: 0 <= i < |ds'| ==> ds'[i] == ds[i];
      }
      if Tally(ds).correct == Tally(ds).total {
        forall i | 0 <= i < |ds| ensures ds[i].isCorrect && !ds[i].isInvalid {
          if i < |ds'| { assert ds'[i] == ds[i]; }
        }
      }
    }
  }

  /** Some answer neither correct nor invalid exactly when the two counters fall short of the total. */
  lemma {:induction false} SomeIncorrectIsTally(ds: seq<Question>)
    ensures (exists i :: 0 <= i < |ds| && !ds[i].isCorrect && !ds[i].isInvalid)
            <==> Tally(ds).correct + Tally(ds).invalid < Tally(ds).total
  {
    if |ds| > 0 {
      var ds' := ds[..|ds| - 1];
      SomeIncorrectIsTally(ds');
      TallyCounts(ds');
      if exists i :: 0 <= i < |ds| && !ds[i].isCorrect && !ds[i].isInvalid {
        var i :| 0 <= i < |ds| && !ds[i].isCorrect && !ds[i].isInvalid;
        if i < |ds'| { assert ds'[i] == ds[i]; }
      }
      if exists i :: 0 <= i < |ds'| && !ds'[i].isCorrect && !ds'[i].isInvalid {
        var i :| 0 <= i < |ds'| && !ds'[i].isCorrect && !ds'[i].isInvalid;
        assert ds[i] == ds'[i];
      }
    }
  }

  /** Some answer invalid exactly when the invalid counter is positive. */
  lemma {:induction false} SomeInvalidIsTally(ds: seq<Question>)
    ensures (exists i :: 0 <= i < |ds| && ds[i].isInvalid) <==> Tally(ds).invalid > 0
  {
    if |ds| > 0 {
      var ds' := ds[..|ds| - 1];
      SomeInvalidIsTally(ds');
      TallyCounts(ds');
      if exists i :: 0 <= i < |ds| && ds[i].isInvalid {
        var i :| 0 <= i < |ds| && ds[i].isInvalid;
        if i < |ds'| { assert ds'[i] == ds[i]; }
      }
      if exists i :: 0 <= i < |ds'| && ds'[i].isInvalid {
        var i :| 0 <= i < |ds'| && ds'[i].isInvalid;
        assert ds[i] == ds'[i];
      }
    }
  }

  /** An item with no questions fails `correct`, `incorrect` and `invalid` alike, but passes `all`. */
  lemma EmptyItem(filterType: string)
    ensures ItemPassesCorrectness(filterType, []) <==> filterType == "all"
  {
  }

  /** The item filters are independent questions: one item can pass both `incorrect` and `invalid`. */
  lemma IncorrectAndInvalidOverlap(text: string, c: Category)
    ensures var ds := [Question(text, c, false, false), Question(text, c, true, true)];
            ItemPassesCorrectness("incorrect", ds) && ItemPassesCorrectness("invalid", ds)
            && !ItemPassesCorrectness("correct", ds)
  {
    var ds := [Question(text, c, false, false), Question(text, c, true, true)];
    assert !ds[0].isCorrect && !ds[0].isInvalid;
    assert ds[1].isInvalid;
  }

  /** With both filters at "all", every item is kept at its own position. */
  lemma AllAllIsIdentity(items: seq<Item>)
    ensures Select(items, ItemFilter("all", LocomoChoice("all"))) == Enumerate(items)
    ensures Select(items, ItemFilter("all", LongMemEvalChoice("all"))) == Enumerate(items)
  {
    SelectAll(items, ItemFilter("all", AnyCategory));
  }

  /**
   * LongMemEval's raw comparison never matches a numbered category, and a
   * tag matches exactly the filter value spelled the same way.
   */
  lemma LongMemEvalCategoryIsRaw(categoryFilter: string, ds: seq<Question>)
    requires categoryFilter != "all"
    requires forall i :: 0 <= i < |ds| ==> ds[i].category.Num?
    ensures !ItemPassesCategory(LongMemEvalChoice(categoryFilter), ds)
  {
  }

  // ---------------------------------------------------------------- questions

  /** The question-level correctness filter. */
  predicate QuestionPassesCorrectness(filterType: string, q: Question) {
    match ParseFilterType(filterType)
    case None => false
    case Some(All) => true
    case Some(CorrectOnly) => q.isCorrect && !q.isInvalid
    case Some(IncorrectOnly) => !q.isCorrect && !q.isInvalid
    case Some(InvalidOnly) => q.isInvalid
  }

  /** LoComo's question-level category filter: only an all-digits value is compared. */
  predicate LocomoQuestionCategory(categoryFilter: string, q: Question) {
    categoryFilter == "all" || (IsDigits(categoryFilter) && q.category == Num(DigitsValue(categoryFilter)))
  }

  function LocomoQuestionFilter(filterType: string, categoryFilter: string): Question -> bool {
    q => QuestionPassesCorrectness(filterType, q) && LocomoQuestionCategory(categoryFilter, q)
  }

  function QuestionFilter(filterType: string): Question -> bool {
    q => QuestionPassesCorrectness(filterType, q)
  }

  /** The questions of a LoComo item that pass both filters, each with its index `q_idx`. */
  method FilterLocomoQuestions(ds: seq<Question>, filterType: string, categoryFilter: string)
    returns (kept: seq<(nat, Question)>)
    ensures kept == Select(ds, LocomoQuestionFilter(filterType, categoryFilter))
  {
    kept := [];
    var qIdx := 0;
    while qIdx < |ds|
      invariant 0 <= qIdx <= |ds|
      invariant kept == Select(ds[..qIdx], LocomoQuestionFilter(filterType, categoryFilter))
    {
      var result := ds[qIdx];
      var passesCorrectness := false;
      if filterType == "all" {
        passesCorrectness := true;
      } else if filterType == "correct" && result.isCorrect && !result.isInvalid {
        passesCorrectness := true;
      } else if filterType == "incorrect" && !result.isCorrect && !result.isInvalid {
        passesCorrectness := true;
      } else if filterType == "invalid" && result.isInvalid {
        passesCorrectness := true;
      }
      var passesCategory := false;
      if categoryFilter == "all" {
        passesCategory := true;
      } else if IsDigits(categoryFilter) && result.category == Num(DigitsValue(categoryFilter)) {
        passesCategory := true;
      }
      assert ds[..qIdx + 1][..qIdx] == ds[..qIdx];
      if passesCorrectness && passesCategory {
        kept := kept + [(qIdx, result)];
      }
      qIdx := qIdx + 1;
    }
    assert ds[..qIdx] == ds;
  }

  /** The questions of a LongMemEval item that pass the correctness filter, with their indices. */
  method FilterLongMemEvalQuestions(ds: seq<Question>, filterType: string)
    returns (kept: seq<(nat, Question)>)
    ensures kept == Select(ds, QuestionFilter(filterType))
  {
    kept := [];
    var qIdx := 0;
    while qIdx < |ds|
      invariant 0 <= qIdx <= |ds|
      invariant kept == Select(ds[..qIdx], QuestionFilter(filterType))
    {
      var result := ds[qIdx];
      assert ds[..qIdx + 1][..qIdx] == ds[..qIdx];
      if filterType == "all" {
        kept := kept + [(qIdx, result)];
      } else if filterType == "correct" && result.isCorrect && !result.isInvalid {
        kept := kept + [(qIdx, result)];
      } else if filterType == "incorrect" && !result.isCorrect && !result.isInvalid {
        kept := kept + [(qIdx, result)];
      } else if filterType == "invalid" && result.isInvalid {
        kept := kept + [(qIdx, result)];
      }
      qIdx := qIdx + 1;
    }
    assert ds[..qIdx] == ds;
  }

  /**
   * Every question passes exactly one of `correct`, `incorrect` and
   * `invalid`: the one its class names, invalid taking precedence.
   */
  lemma ExactlyOneClass(q: Question)
    ensures QuestionPassesCorrectness("correct", q) <==> Classify(q) == Correct
    ensures QuestionPassesCorrectness("incorrect", q) <==> Classify(q) == Incorrect
    ensures QuestionPassesCorrectness("invalid", q) <==> Classify(q) == Invalid
  {
  }

  /** An item passes `incorrect` or `invalid` exactly when one of its questions does. */
  lemma ItemLevelIsExistential(ds: seq<Question>, filterType: string)
    requires filterType == "incorrect" || filterType == "invalid"
    ensures ItemPassesCorrectness(filterType, ds)
            <==> exists i :: 0 <= i < |ds| && QuestionPassesCorrectness(filterType, ds[i])
  {
  }

  /**
   * A detail page's category filter that is neither "all" nor made of
   * digits selects no question (where the item list would raise instead).
   */
  lemma NonDigitCategorySelectsNothing(ds: seq<Question>, filterType: string, categoryFilter: string)
    requires categoryFilter != "all" && !IsDigits(categoryFilter)
    ensures Select(ds, LocomoQuestionFilter(filterType, categoryFilter)) == []
  {
    if |Select(ds, LocomoQuestionFilter(filterType, categoryFilter))| > 0 {
      SelectSound(ds, LocomoQuestionFilter(filterType, categoryFilter), 0);
    }
  }

  /**
   * What the list pages show: each kept item is the element at its carried
   * position and passes both filters; the positions increase; and
   * `all_results.index(item)`, the source's lookup, finds that position
   * unless an equal item comes earlier.
   */
  lemma KeptItemsMeaning(items: seq<Item>, filterType: string, choice: CategoryChoice, k: nat)
    requires k < |Select(items, ItemFilter(filterType, choice))|
    ensures var r := Select(items, ItemFilter(filterType, choice));
      && r[k].0 < |items|
      && items[r[k].0] == r[k].1
      && KeepItem(filterType, choice, r[k].1)
      && r[k].1 in items
      && (IndexOf(items, r[k].1) == r[k].0 <==> forall j :: 0 <= j < r[k].0 ==> items[j] != r[k].1)
    ensures var r := Select(items, ItemFilter(filterType, choice));
      forall l :: k < l < |r| ==> r[k].0 < r[l].0
  {
    var r := Select(items, ItemFilter(filterType, choice));
    SelectSound(items, ItemFilter(filterType, choice), k);
    IndexOfSelected(items, ItemFilter(filterType, choice), k);
    forall l | k < l < |r|
      ensures r[k].0 < r[l].0
    {
      SelectIncreasing(items, ItemFilter(filterType, choice), k, l);
    }
  }
}
