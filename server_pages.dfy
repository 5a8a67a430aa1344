/**
 * The four HTML routes of the Python server (visualizer/visualizer/main.py)
 * as the data they render: the LoComo and LongMemEval list pages and their
 * item detail pages. Markup, styling and the literal explanatory texts are
 * not modelled; the loaded JSON document is a parameter (`None` when the
 * results file is missing or is not valid JSON).
 */
module ServerPages {
  import opened Wrappers
  import opened Records
  import opened Selection
  import opened Scoring
  import opened Strings
  import opened ServerFilters
  import opened ServerStats
  import opened ServerViews

  // ---------------------------------------------------------------- list pages

  /** One item card: the detail index its link carries, its id, its numbers and colour. */
  datatype Card = Card(link: nat, id: string, stats: CardStats, band: Band)

  /** A list page, or the "results not found" page when nothing was loaded. */
  datatype ListView =
    | ResultsNotFound
    | ListView(headline: Headline, shown: nat, outOf: nat, cards: seq<Card>, buckets: seq<Bucket>,
               totalInvalid: int, invalidFilterShown: bool)

  /** The overall-performance numbers a list page copies from the document. */
  datatype Headline = Headline(overallAccuracy: real, totalCorrect: int, totalQuestions: int)

  /**
   * `data['overall_accuracy']`, then `data['total_correct']` and
   * `data['total_questions']`: the first missing key raises `KeyError`.
   */
  function HeadlineOf(d: Document): (r: Result<Headline, Raised>)
    ensures r.Success? <==> d.overallAccuracy.Some? && d.totalCorrect.Some? && d.totalQuestions.Some?
    ensures r.Success? ==> r.value == Headline(d.overallAccuracy.value, d.totalCorrect.value, d.totalQuestions.value)
    ensures d.overallAccuracy.None? ==> r == Failure(KeyError("overall_accuracy"))
    ensures d.overallAccuracy.Some? && d.totalCorrect.None? ==> r == Failure(KeyError("total_correct"))
    ensures d.overallAccuracy.Some? && d.totalCorrect.Some? && d.totalQuestions.None?
            ==> r == Failure(KeyError("total_questions"))
  {
    if d.overallAccuracy.None? then Failure(KeyError("overall_accuracy"))
    else if d.totalCorrect.None? then Failure(KeyError("total_correct"))
    else if d.totalQuestions.None? then Failure(KeyError("total_questions"))
    else Success(Headline(d.overallAccuracy.value, d.totalCorrect.value, d.totalQuestions.value))
  }

  /** The category id a LoComo card recomputes its numbers for. */
  function CardCategory(categoryFilter: string): Option<int> {
    if categoryFilter == "all" then None else ParseInt(categoryFilter)
  }

  /** The card of a kept item: linked by `all_results.index(item)`. */
  function LocomoCardOf(all: seq<Item>, it: Item, categoryFilter: string): Card
    requires it in all
  {
    var idx := IndexOf(all, it);
    var st := CardNumbers(it, CardCategory(categoryFilter));
    Card(idx, LocomoItemId(it, idx), st, BandOf(st.accuracy))
  }

  function LongMemEvalCardOf(all: seq<Item>, it: Item): Card
    requires it in all
  {
    var idx := IndexOf(all, it);
    var st := CardNumbers(it, None);
    Card(idx, LongMemEvalItemId(it, idx), st, BandOf(st.accuracy))
  }

  /** The `items_html` loop of the LoComo list. */
  method LocomoCards(all: seq<Item>, kept: seq<(nat, Item)>, categoryId: Option<int>, ghost categoryFilter: string)
    returns (cards: seq<Card>)
    requires forall k :: 0 <= k < |kept| ==> kept[k].1 in all
    requires categoryId == CardCategory(categoryFilter)
    ensures |cards| == |kept|
    ensures forall k :: 0 <= k < |kept| ==> cards[k] == LocomoCardOf(all, kept[k].1, categoryFilter)
  {
    cards := [];
    for i := 0 to |kept|
      invariant |cards| == i
      invariant forall k :: 0 <= k < i ==> cards[k] == LocomoCardOf(all, kept[k].1, categoryFilter)
    {
      var item := kept[i].1;
      var originalIdx := IndexOf(all, item);
      var itemId := LocomoItemId(item, originalIdx);
      var stats := CardNumbers(item, categoryId);
      cards := cards + [Card(originalIdx, itemId, stats, BandOf(stats.accuracy))];
    }
  }

  /** The `items_html` loop of the LongMemEval list. */
  method LongMemEvalCards(all: seq<Item>, kept: seq<(nat, Item)>) returns (cards: seq<Card>)
    requires forall k :: 0 <= k < |kept| ==> kept[k].1 in all
    ensures |cards| == |kept|
    ensures forall k :: 0 <= k < |kept| ==> cards[k] == LongMemEvalCardOf(all, kept[k].1)
  {
    cards := [];
    for i := 0 to |kept|
      invariant |cards| == i
      invariant forall k :: 0 <= k < i ==> cards[k] == LongMemEvalCardOf(all, kept[k].1)
    {
      var item := kept[i].1;
      var originalIdx := IndexOf(all, item);
      var stats := CardNumbers(item, None);
      cards := cards + [Card(originalIdx, LongMemEvalItemId(item, originalIdx), stats, BandOf(stats.accuracy))];
    }
  }

  lemma KeptAreMembers(all: seq<Item>, p: Item -> bool)
    ensures forall k :: 0 <= k < |Select(all, p)| ==> Select(all, p)[k].1 in all
  {
    forall k | 0 <= k < |Select(all, p)|
      ensures Select(all, p)[k].1 in all
    {
      SelectSound(all, p, k);
    }
  }

  /**
   * `GET /locomo/{mode}`: the items passing both filters, as cards, with
   * "Showing n of m"; the category buckets and the invalid total over all
   * items; the invalid filter offered only when that total is positive. A
   * non-integer category filter raises `ValueError` once there is an item
   * to test; after that, a missing headline number raises `KeyError`.
   */
  method LocomoListPage(doc: Option<Document>, filterType: string, categoryFilter: string)
    returns (r: Result<ListView, Raised>)
    ensures doc.None? ==> r == Success(ResultsNotFound)
    ensures doc.Some? ==>
      var badFilter := |LocomoItems(doc.value)| > 0 && categoryFilter != "all" && ParseInt(categoryFilter).None?;
      && (badFilter ==> r == Failure(ValueError(categoryFilter)))
      && (!badFilter && HeadlineOf(doc.value).Failure? ==> r == Failure(HeadlineOf(doc.value).error))
      && (r.Success? <==> !badFilter && HeadlineOf(doc.value).Success?)
    ensures doc.Some? && r.Success? ==>
      var all := LocomoItems(doc.value);
      var kept := Select(all, ItemFilter(filterType, LocomoChoice(categoryFilter)));
      && r.value.ListView?
      && r.value.headline == HeadlineOf(doc.value).value
      && r.value.shown == |kept| && r.value.outOf == |all| && |r.value.cards| == |kept|
      && (forall k :: 0 <= k < |kept| ==> kept[k].1 in all && r.value.cards[k] == LocomoCardOf(all, kept[k].1, categoryFilter))
      && |r.value.buckets| == 4
      && (forall k :: 1 <= k <= 4 ==> r.value.buckets[k - 1] == LocomoBucket(AllQuestions(all), k))
      && r.value.totalInvalid == SumInvalid(r.value.buckets)
      && r.value.invalidFilterShown == (r.value.totalInvalid > 0)
  {
    if doc.None? {
      return Success(ResultsNotFound);
    }
    var all := LocomoItems(doc.value);
    var filtered := FilterLocomoItems(all, filterType, categoryFilter);
    if filtered.Failure? {
      return Failure(filtered.error);
    }
    var kept := filtered.value;
    var buckets, totalInvalid := LocomoCategoryStats(all);
    var headline := HeadlineOf(doc.value);
    if headline.Failure? {
      return Failure(headline.error);
    }
    KeptAreMembers(all, ItemFilter(filterType, LocomoChoice(categoryFilter)));
    var categoryId := if categoryFilter == "all" then None else ParseInt(categoryFilter);
    var cards := LocomoCards(all, kept, categoryId, categoryFilter);
    return Success(ListView(headline.value, |kept|, |all|, cards, buckets, totalInvalid, totalInvalid > 0));
  }

  /**
   * `GET /longmemeval`: as the LoComo list, with question-type buckets in
   * first-seen order; the category filter never raises, a missing headline
   * number raises `KeyError`.
   */
  method LongMemEvalListPage(doc: Option<Document>, filterType: string, categoryFilter: string)
    returns (r: Result<ListView, Raised>)
    ensures doc.None? ==> r == Success(ResultsNotFound)
    ensures doc.Some? ==>
      && (HeadlineOf(doc.value).Failure? ==> r == Failure(HeadlineOf(doc.value).error))
      && (r.Success? <==> HeadlineOf(doc.value).Success?)
    ensures doc.Some? && r.Success? ==>
      var all := doc.value.itemResults.GetOr([]);
      var kept := Select(all, ItemFilter(filterType, LongMemEvalChoice(categoryFilter)));
      && r.value.ListView?
      && r.value.headline == HeadlineOf(doc.value).value
      && r.value.shown == |kept| && r.value.outOf == |all| && |r.value.cards| == |kept|
      && (forall k :: 0 <= k < |kept| ==> kept[k].1 in all && r.value.cards[k] == LongMemEvalCardOf(all, kept[k].1))
      && |r.value.buckets| == |FirstSeen(Keys(AllEntries(all)))|
      && (forall i :: 0 <= i < |r.value.buckets| ==>
            r.value.buckets[i] == var key := FirstSeen(Keys(AllEntries(all)))[i]; Bucket(key, SumFor(AllEntries(all), key)))
      && r.value.totalInvalid == Tally(AllQuestions(all)).invalid
      && r.value.invalidFilterShown == (r.value.totalInvalid > 0)
  {
    if doc.None? {
      return Success(ResultsNotFound);
    }
    var all := doc.value.itemResults.GetOr([]);
    var kept := FilterLongMemEvalItems(all, filterType, categoryFilter);
    var buckets, totalInvalid := LongMemEvalCategoryStats(all);
    var headline := HeadlineOf(doc.value);
    if headline.Failure? {
      return Failure(headline.error);
    }
    KeptAreMembers(all, ItemFilter(filterType, LongMemEvalChoice(categoryFilter)));
    var cards := LongMemEvalCards(all, kept);
    return Success(ListView(headline.value, |kept|, |all|, cards, buckets, totalInvalid, totalInvalid > 0));
  }

  /** A card's link opens an item equal to the card's own, under the card's id. */
  lemma CardLinkOpensItem(all: seq<Item>, it: Item, categoryFilter: string)
    requires it in all
    ensures DetailLookup(all, LocomoCardOf(all, it, categoryFilter).link) == Found(it)
    ensures DetailLookup(all, LongMemEvalCardOf(all, it).link) == Found(it)
    ensures LocomoCardOf(all, it, categoryFilter).id == LocomoItemId(all[LocomoCardOf(all, it, categoryFilter).link], LocomoCardOf(all, it, categoryFilter).link)
  {
  }

  /**
   * The LoComo invalid total, and so the invalid filter button, counts only
   * questions of categories 1..4: an invalid question of any other category
   * does not show it.
   */
  lemma InvalidOutsideBucketsIgnored(q: Question)
    requires q.isInvalid && q.category == Num(5)
    ensures var qs := [q];
      SumInvalid([LocomoBucket(qs, 1), LocomoBucket(qs, 2), LocomoBucket(qs, 3), LocomoBucket(qs, 4)]) == 0
      && Tally(qs).invalid == 1
  {
    assert forall k :: 1 <= k <= 4 ==> Filter([q], InBucket(k)) == [] by {
      forall k | 1 <= k <= 4
        ensures Filter([q], InBucket(k)) == []
      {
        assert [q][..0] == [];
      }
    }
  }

  // ---------------------------------------------------------------- detail pages

  /** A detail route's outcome: a redirect, or the page's data. */
  datatype DetailView =
    | ToHome
    | ToList
    | Detail(id: string, accuracy: real, correct: int, total: int, invalid: int,
             questions: seq<(nat, Question)>, invalidFilterShown: bool,
             buckets: seq<Bucket>, markdown: string)

  predicate AnyInvalid(ds: seq<Question>) {
    exists i :: 0 <= i < |ds| && ds[i].isInvalid
  }

  /** `metrics.get("correct", 0)` and its siblings: a missing object or field reads as 0. */
  function MetricCorrect(it: Item): int {
    if it.metrics.None? then 0 else it.metrics.value.correct.GetOr(0)
  }

  function MetricTotal(it: Item): int {
    if it.metrics.None? then 0 else it.metrics.value.total.GetOr(0)
  }

  function MetricInvalid(it: Item): int {
    if it.metrics.None? then 0 else it.metrics.value.invalid.GetOr(0)
  }

  function MetricAccuracy(it: Item): real {
    if it.metrics.None? then 0.0 else it.metrics.value.accuracy.GetOr(0.0)
  }

  /** The four buckets a LoComo detail page shows. */
  function ItemBucketList(entries: seq<(string, StatsEntry)>): (r: seq<Bucket>)
    ensures |r| == 4 && forall k :: 1 <= k <= 4 ==> r[k - 1] == ItemBucket(entries, k)
  {
    [ItemBucket(entries, 1), ItemBucket(entries, 2), ItemBucket(entries, 3), ItemBucket(entries, 4)]
  }

  /** The LoComo detail page of `it`, requested as `item_idx`. */
  function LocomoDetailOf(it: Item, itemIdx: int, filterType: string, categoryFilter: string, format: real -> string): DetailView {
    var id := LocomoItemId(it, itemIdx);
    var buckets := ItemBucketList(StatsOf(it));
    Detail(id, MetricAccuracy(it), MetricCorrect(it), MetricTotal(it), MetricInvalid(it),
           Select(Details(it), LocomoQuestionFilter(filterType, categoryFilter)), AnyInvalid(Details(it)),
           buckets, MarkdownTable(id, format(MetricAccuracy(it)), buckets, format))
  }

  /**
   * `GET /locomo/{mode}/item/{item_idx}`: no results redirect home; an index
   * past the end redirects to the list; a negative one counts from the end
   * and one below `-len` raises; a `category_stats` key that is not an
   * integer raises; otherwise the page's data. `format` stands for Python's
   * one-decimal float formatting.
   */
  method LocomoDetailPage(doc: Option<Document>, itemIdx: int, filterType: string, categoryFilter: string,
                          format: real -> string)
    returns (r: Result<DetailView, Raised>)
    ensures doc.None? ==> r == Success(ToHome)
    ensures doc.Some? ==> match DetailLookup(LocomoItems(doc.value), itemIdx)
      case Redirect => r == Success(ToList)
      case IndexError => r == Failure(Raised.IndexError(itemIdx))
      case Found(it) =>
        && (r.Failure? <==> !AllKeysParse(StatsOf(it)))
        && (r.Success? ==> r.value == LocomoDetailOf(it, itemIdx, filterType, categoryFilter, format))
  {
    if doc.None? {
      return Success(ToHome);
    }
    var results := LocomoItems(doc.value);
    var lookup := DetailLookup(results, itemIdx);
    if lookup == Redirect {
      return Success(ToList);
    } else if lookup == Lookup.IndexError {
      return Failure(Raised.IndexError(itemIdx));
    }
    var item := lookup.item;
    var itemId := LocomoItemId(item, itemIdx);
    var accuracy := MetricAccuracy(item);
    var detailed := Details(item);
    var filtered := FilterLocomoQuestions(detailed, filterType, categoryFilter);
    var hasInvalid := AnyInvalid(detailed);
    var buckets := ItemBuckets(StatsOf(item));
    if buckets.Failure? {
      return Failure(ValueError("category_stats"));
    }
    var rows := BuildMarkdownRows(itemId, format(accuracy), buckets.value, format);
    var columns := ExportColumns(buckets.value);
    var markdown := HeaderLine(Names(columns)) + "\n" + SeparatorLine(|columns|) + "\n" + Concat(rows);
    assert buckets.value == ItemBucketList(StatsOf(item));
    return Success(Detail(itemId, accuracy, MetricCorrect(item), MetricTotal(item),
                          MetricInvalid(item), filtered, hasInvalid, buckets.value, markdown));
  }

  /** The LongMemEval detail page of `it`, requested as `item_idx`: no buckets, no markdown. */
  function LongMemEvalDetailOf(it: Item, itemIdx: int, filterType: string): DetailView {
    Detail(LongMemEvalItemId(it, itemIdx), MetricAccuracy(it), 0, 0, 0,
           Select(Details(it), QuestionFilter(filterType)), AnyInvalid(Details(it)), [], "")
  }

  /** `GET /longmemeval/item/{item_idx}`, with the same redirects and index rule. */
  method LongMemEvalDetailPage(doc: Option<Document>, itemIdx: int, filterType: string)
    returns (r: Result<DetailView, Raised>)
    ensures doc.None? ==> r == Success(ToHome)
    ensures doc.Some? ==> match DetailLookup(doc.value.itemResults.GetOr([]), itemIdx)
      case Redirect => r == Success(ToList)
      case IndexError => r == Failure(Raised.IndexError(itemIdx))
      case Found(it) => r == Success(LongMemEvalDetailOf(it, itemIdx, filterType))
  {
    if doc.None? {
      return Success(ToHome);
    }
    var results := doc.value.itemResults.GetOr([]);
    var lookup := DetailLookup(results, itemIdx);
    if lookup == Redirect {
      return Success(ToList);
    } else if lookup == Lookup.IndexError {
      return Failure(Raised.IndexError(itemIdx));
    }
    var item := lookup.item;
    var filtered := FilterLongMemEvalQuestions(Details(item), filterType);
    return Success(Detail(LongMemEvalItemId(item, itemIdx), MetricAccuracy(item), 0, 0, 0,
                          filtered, AnyInvalid(Details(item)), [], ""));
  }

  /**
   * What a LoComo detail page promises: every listed question is the one at
   * its number and passes the filters; the copied table is the header, the
   * separator and the row; with at least one exported category the header
   * and separator have two columns plus one per category and the row as
   * many plus one per pipe in the id; with none, header and separator have
   * three columns and the row two plus the id's pipes; and the invalid
   * filter is offered exactly when some question is invalid.
   */
  lemma LocomoDetailMeaning(it: Item, itemIdx: int, filterType: string, categoryFilter: string,
                            format: real -> string, k: nat)
    requires forall x :: NoPipe(format(x))
    ensures var page := LocomoDetailOf(it, itemIdx, filterType, categoryFilter, format);
      var names := Names(ExportColumns(page.buckets));
      var row := RowLine(page.id, format(page.accuracy), ExportCells(page.buckets, format));
      && page.markdown == HeaderLine(names) + "\n" + SeparatorLine(|names|) + "\n" + row
      && (|names| > 0 ==>
            && ColumnCount(HeaderLine(names)) == 2 + |names|
            && ColumnCount(SeparatorLine(|names|)) == 2 + |names|
            && ColumnCount(row) == 2 + |names| + PipeCount(page.id))
      && (|names| == 0 ==>
            && ColumnCount(HeaderLine(names)) == 3
            && ColumnCount(SeparatorLine(|names|)) == 3
            && ColumnCount(row) == 2 + PipeCount(page.id))
      && (page.invalidFilterShown <==> Tally(Details(it)).invalid > 0)
    ensures var page := LocomoDetailOf(it, itemIdx, filterType, categoryFilter, format);
      k < |page.questions| ==>
        page.questions[k].0 < |Details(it)| && Details(it)[page.questions[k].0] == page.questions[k].1
        && LocomoQuestionFilter(filterType, categoryFilter)(page.questions[k].1)
  {
    var page := LocomoDetailOf(it, itemIdx, filterType, categoryFilter, format);
    var columns := ExportColumns(page.buckets);
    var cells := ExportCells(page.buckets, format);
    forall i | 0 <= i < |columns|
      ensures NoPipe(Names(columns)[i]) && NoPipe(cells[i])
    {
      ColumnNamesHaveNoPipe(StatsOf(it), i);
    }
    if |columns| > 0 {
      ExportAligned(Names(columns), page.id, format(page.accuracy), cells);
    } else {
      EmptyExportMisaligned(page.id, format(page.accuracy));
    }
    TallyCounts(Details(it));
    AnyInvalidIsTally(Details(it));
    if k < |page.questions| {
      SelectSound(Details(it), LocomoQuestionFilter(filterType, categoryFilter), k);
    }
  }

  lemma AnyInvalidIsTally(ds: seq<Question>)
    ensures AnyInvalid(ds) <==> |Filter(ds, IsInvalid)| > 0
  {
    if AnyInvalid(ds) {
      var i :| 0 <= i < |ds| && ds[i].isInvalid;
      FilterMembers(ds, IsInvalid, ds[i]);
    }
    if |Filter(ds, IsInvalid)| > 0 {
      var x := Filter(ds, IsInvalid)[0];
      FilterMembers(ds, IsInvalid, x);
      var i :| 0 <= i < |ds| && ds[i] == x;
    }
  }

  /** The exported column names are the four category names, none of which holds a pipe. */
  lemma ColumnNamesHaveNoPipe(entries: seq<(string, StatsEntry)>, i: nat)
    requires i < |ExportColumns(ItemBucketList(entries))|
    ensures NoPipe(Names(ExportColumns(ItemBucketList(entries)))[i])
  {
    var buckets := ItemBucketList(entries);
    var b := ExportColumns(buckets)[i];
    FilterMembers(buckets, HasQuestions, b);
    assert b.name in {"Multi-hop", "Single-hop", "Temporal", "Open-domain"};
  }
}
