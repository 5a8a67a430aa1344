/**
 * The filterable item grid of the web front end
 * (visualizer-web/components/item-list.tsx): search by id, the item-level
 * correctness filter read off the item's own accuracy and invalid count,
 * the category filter and its choices, and the link of each card.
 */
module ItemList {
  import opened Wrappers
  import opened Strings
  import opened Records
  import opened Selection
  import opened Scoring
  import opened CategoryNames

  // ---------------------------------------------------------------- filters

  /** An empty search keeps everything; otherwise the id must contain it, ignoring case. */
  predicate PassesSearch(term: string, it: TypedItem) {
    term == [] || Contains(Lower(it.itemId), Lower(term))
  }

  /**
   * `invalid` keeps items with an invalid question, `correct` items at 100%
   * accuracy, `incorrect` items below 100% without invalid questions.
   */
  predicate PassesCorrectness(f: CorrectnessFilter, it: TypedItem) {
    match f
    case All => true
    case InvalidOnly => it.invalid > 0
    case CorrectOnly => it.accuracy >= 100.0
    case IncorrectOnly => !(it.accuracy >= 100.0 || it.invalid > 0)
  }

  /**
   * `"all"`, or some question whose category key is the selection; an item
   * without `detailed_results` has none.
   */
  predicate PassesCategory(selected: string, it: TypedItem) {
    selected == "all"
    || (it.detailedResults.Some?
        && exists i :: 0 <= i < |it.detailedResults.value| && CategoryKey(it.detailedResults.value[i].category) == selected)
  }

  function ItemPasses(term: string, f: CorrectnessFilter, selected: string): TypedItem -> bool {
    it => PassesSearch(term, it) && PassesCorrectness(f, it) && PassesCategory(selected, it)
  }

  /** The `filteredItems` memo. */
  function FilteredItems(items: seq<TypedItem>, term: string, f: CorrectnessFilter, selected: string): seq<TypedItem> {
    Filter(items, ItemPasses(term, f, selected))
  }

  /** With no search, no correctness and no category filter, every item is shown. */
  lemma NoFilterShowsAll(items: seq<TypedItem>)
    ensures FilteredItems(items, "", All, "all") == items
  {
    FilterAll(items, ItemPasses("", All, "all"));
  }

  /** The search ignores case, and an item's own id always finds it. */
  lemma SearchMeaning(term: string, it: TypedItem)
    ensures PassesSearch(term, it) <==> PassesSearch(Lower(term), it)
    ensures PassesSearch(it.itemId, it)
    ensures term != [] ==> (PassesSearch(term, it) <==> exists i: nat :: OccursAt(Lower(it.itemId), Lower(term), i))
  {
    LowerIdempotent(term);
    ContainsIffOccurs(Lower(it.itemId), Lower(term));
    ContainsIffOccurs(Lower(it.itemId), Lower(it.itemId));
    assert OccursAt(Lower(it.itemId), Lower(it.itemId), 0);
  }

  /**
   * Every item passes `correct`, `incorrect` or `invalid`; an item passing
   * `incorrect` passes neither of the others; `correct` and `invalid` can
   * both keep one item.
   */
  lemma CorrectnessCover(it: TypedItem)
    ensures PassesCorrectness(CorrectOnly, it) || PassesCorrectness(IncorrectOnly, it) || PassesCorrectness(InvalidOnly, it)
    ensures PassesCorrectness(IncorrectOnly, it) ==> !PassesCorrectness(CorrectOnly, it) && !PassesCorrectness(InvalidOnly, it)
    ensures var both := TypedItem("conv-1", 100.0, 1, None);
      PassesCorrectness(CorrectOnly, both) && PassesCorrectness(InvalidOnly, both)
  {
  }

  /** Choosing an offered category keeps every item holding a question of it, and only those. */
  lemma CategoryMeaning(items: seq<TypedItem>, selected: string, it: TypedItem)
    requires selected != "all"
    ensures it in FilteredItems(items, "", All, selected)
            <==> it in items && exists q :: q in TypedDetails(it) && CategoryKey(q.category) == selected
  {
    FilterMembers(items, ItemPasses("", All, selected), it);
    if exists q :: q in TypedDetails(it) && CategoryKey(q.category) == selected {
      var q :| q in TypedDetails(it) && CategoryKey(q.category) == selected;
      var i :| 0 <= i < |TypedDetails(it)| && TypedDetails(it)[i] == q;
    }
  }

  // ---------------------------------------------------------------- category choices

  /** One item's `detailed_results?.forEach` adding keys to the set. */
  method AddKeys(categorySet: seq<string>, ghost before: seq<Question>, ds: seq<Question>) returns (next: seq<string>)
    requires categorySet == FirstSeen(QuestionKeys(before))
    ensures next == FirstSeen(QuestionKeys(before + ds))
  {
    next := categorySet;
    assert before + ds[..0] == before;
    for j := 0 to |ds|
      invariant next == FirstSeen(QuestionKeys(before + ds[..j]))
    {
      var cat := CategoryKey(ds[j].category);
      ghost var seen := before + ds[..j];
      assert before + ds[..j + 1] == seen + [ds[j]];
      KeySetSnoc(seen, ds[j]);
      if cat !in next {
        next := next + [cat];
      }
    }
    assert ds[..|ds|] == ds;
  }

  /**
   * The `categories` memo: none unless categories are shown; otherwise the
   * distinct keys of all questions, sorted.
   */
  method Categories(items: seq<TypedItem>, showCategories: bool) returns (cats: seq<string>)
    ensures !showCategories ==> cats == []
    ensures showCategories ==> cats == Sort(FirstSeen(QuestionKeys(AllTypedQuestions(items))))
    ensures Sorted(cats) && Distinct(cats)
    ensures showCategories ==> forall c :: c in cats <==> c in QuestionKeys(AllTypedQuestions(items))
  {
    if !showCategories {
      return [];
    }
    var categorySet: seq<string> := [];
    for i := 0 to |items|
      invariant categorySet == FirstSeen(QuestionKeys(AllTypedQuestions(items[..i])))
    {
      assert items[..i + 1][..i] == items[..i];
      categorySet := AddKeys(categorySet, AllTypedQuestions(items[..i]), TypedDetails(items[i]));
    }
    assert items[..|items|] == items;
    FirstSeenMembers(QuestionKeys(AllTypedQuestions(items)));
    SortDistinct(categorySet);
    cats := Sort(categorySet);
  }

  /** Every offered category keeps at least one item. */
  lemma OfferedCategoryKeepsAnItem(items: seq<TypedItem>, c: string)
    requires c in QuestionKeys(AllTypedQuestions(items)) && c != "all"
    ensures |FilteredItems(items, "", All, c)| > 0
  {
    var i :| 0 <= i < |AllTypedQuestions(items)| && CategoryKey(AllTypedQuestions(items)[i].category) == c;
    var it := OwnerOf(items, i);
    CategoryMeaning(items, c, it);
    FilterMembers(items, ItemPasses("", All, c), it);
  }

  /** The item a question of the scan comes from. */
  lemma {:induction false} OwnerOf(items: seq<TypedItem>, i: nat) returns (it: TypedItem)
    requires i < |AllTypedQuestions(items)|
    ensures it in items && AllTypedQuestions(items)[i] in TypedDetails(it)
  {
    var init := items[..|items| - 1];
    if i < |AllTypedQuestions(init)| {
      it := OwnerOf(init, i);
    } else {
      it := items[|items| - 1];
      assert AllTypedQuestions(items)[i] == TypedDetails(it)[i - |AllTypedQuestions(init)|];
    }
  }

  // ---------------------------------------------------------------- cards

  /** A card: the index its link carries, the id shown, and its colour. */
  datatype Card = Card(link: int, id: string, band: Band)

  /** The link as written: the first item with the same id. */
  function CardAsWritten(items: seq<TypedItem>, it: TypedItem): Card {
    Card(FindFirst(items, (i: TypedItem) => i.itemId == it.itemId), it.itemId, BandOf(it.accuracy))
  }

  /**
   * Two items under one id: filtering for invalid questions shows only the
   * second, yet its card links to the first.
   */
  lemma DuplicateIdMisroutes()
    ensures var a := TypedItem("q-7", 100.0, 0, None);
      var b := TypedItem("q-7", 40.0, 2, None);
      var shown := FilteredItems([a, b], "", InvalidOnly, "all");
      && shown == [b]
      && CardAsWritten([a, b], shown[0]).link == 0
  {
    var a := TypedItem("q-7", 100.0, 0, None);
    var b := TypedItem("q-7", 40.0, 2, None);
    assert [a, b][..1] == [a];
    assert [a][..0] == [];
    assert Filter([a, b], ItemPasses("", InvalidOnly, "all")) == [b];
  }

  /** The cards as evidently intended: each kept item linked by its own position. */
  function Cards(items: seq<TypedItem>, term: string, f: CorrectnessFilter, selected: string): (r: seq<Card>)
    ensures |r| == |FilteredItems(items, term, f, selected)|
  {
    var kept := Select(items, ItemPasses(term, f, selected));
    SelectValues(items, ItemPasses(term, f, selected));
    seq(|kept|, k requires 0 <= k < |kept| => Card(kept[k].0, kept[k].1.itemId, BandOf(kept[k].1.accuracy)))
  }

  /**
   * Each intended card links to the item it shows, in the order shown; with
   * distinct ids it agrees with the card as written.
   */
  lemma CardsCorrect(items: seq<TypedItem>, term: string, f: CorrectnessFilter, selected: string, k: nat)
    requires k < |Cards(items, term, f, selected)|
    ensures var c := Cards(items, term, f, selected)[k];
      var shown := FilteredItems(items, term, f, selected)[k];
      && 0 <= c.link < |items| && items[c.link] == shown
      && c.id == shown.itemId && c.band == BandOf(shown.accuracy)
    ensures (forall i, j :: 0 <= i < j < |items| ==> items[i].itemId != items[j].itemId)
            ==> Cards(items, term, f, selected)[k] == CardAsWritten(items, FilteredItems(items, term, f, selected)[k])
  {
    SelectValues(items, ItemPasses(term, f, selected));
    SelectSound(items, ItemPasses(term, f, selected), k);
  }
}
