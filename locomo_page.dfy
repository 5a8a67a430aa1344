/**
 * The LoComo results page of the Next.js front end (visualizer/app/locomo/page.tsx):
 * its four category buckets over every item's questions, the invalid total,
 * the bucket cards and one card per item linked by position.
 */
module LocomoPage {
  import opened Wrappers
  import opened Records
  import opened Scoring
  import opened ServerStats
  import opened Selection
  import ItemList

  /**
   * The `categoryStats` scan: bucket `k` (1..4) counts every question whose
   * category is the number `k` (a string category never counts), and
   * `totalInvalid` adds up the buckets' invalid counters.
   */
  method CategoryStats(items: seq<TypedItem>) returns (buckets: seq<Bucket>, totalInvalid: int)
    ensures |buckets| == 4
    ensures forall k :: 1 <= k <= 4 ==> buckets[k - 1] == LocomoBucket(AllTypedQuestions(items), k)
    ensures totalInvalid == SumInvalid(buckets)
  {
    buckets := [Bucket("Multi-hop", NoCounts), Bucket("Single-hop", NoCounts),
                Bucket("Temporal", NoCounts), Bucket("Open-domain", NoCounts)];
    totalInvalid := 0;
    for i := 0 to |items|
      invariant BucketsOf(buckets, AllTypedQuestions(items[..i])) && totalInvalid == SumInvalid(buckets)
    {
      assert items[..i + 1][..i] == items[..i];
      buckets, totalInvalid := CountLocomoItem(buckets, totalInvalid, AllTypedQuestions(items[..i]), TypedDetails(items[i]));
    }
    assert items[..|items|] == items;
  }

  /** The page: all four bucket cards (empty ones too), the invalid card when due, one card per item. */
  datatype PageView =
    | NotFound
    | PageView(bucketCards: seq<BucketCard>, totalInvalid: int, invalidCardShown: bool, itemCards: seq<ItemList.Card>)

  /** The cards of the item grid: every item, linked by its own position. */
  function ItemCards(items: seq<TypedItem>): (r: seq<ItemList.Card>)
    ensures |r| == |items|
    ensures forall i :: 0 <= i < |items| ==> r[i] == ItemList.Card(i, items[i].itemId, BandOf(items[i].accuracy))
  {
    seq(|items|, i requires 0 <= i < |items| => ItemList.Card(i, items[i].itemId, BandOf(items[i].accuracy)))
  }

  /** `LoComoPage`: not found without data; otherwise the page built from the scan. */
  method Page(data: Option<seq<TypedItem>>) returns (r: PageView)
    ensures data.None? <==> r == NotFound
    ensures data.Some? ==>
      && |r.bucketCards| == 4
      && (forall k :: 1 <= k <= 4 ==> r.bucketCards[k - 1] == BucketCardOf(LocomoBucket(AllTypedQuestions(data.value), k)))
      && r.totalInvalid == SumInvalid([LocomoBucket(AllTypedQuestions(data.value), 1), LocomoBucket(AllTypedQuestions(data.value), 2),
                                       LocomoBucket(AllTypedQuestions(data.value), 3), LocomoBucket(AllTypedQuestions(data.value), 4)])
      && r.invalidCardShown == (r.totalInvalid > 0)
      && r.itemCards == ItemCards(data.value)
  {
    if data.None? {
      return NotFound;
    }
    var buckets, totalInvalid := CategoryStats(data.value);
    assert buckets == [buckets[0], buckets[1], buckets[2], buckets[3]];
    var cards := [BucketCardOf(buckets[0]), BucketCardOf(buckets[1]), BucketCardOf(buckets[2]), BucketCardOf(buckets[3])];
    r := PageView(cards, totalInvalid, totalInvalid > 0, ItemCards(data.value));
  }

  /**
   * What the page shows about the scanned questions: every bucket card's
   * accuracy lies in 0..100 with at most `total` correct answers, and the
   * names are the four category names in order.
   */
  lemma PageMeaning(items: seq<TypedItem>, k: int)
    requires 1 <= k <= 4
    ensures var card := BucketCardOf(LocomoBucket(AllTypedQuestions(items), k));
      0.0 <= card.accuracy <= 100.0 && 0 <= card.correct <= card.total
    ensures [LocomoBucket(AllTypedQuestions(items), 1).name, LocomoBucket(AllTypedQuestions(items), 2).name,
             LocomoBucket(AllTypedQuestions(items), 3).name, LocomoBucket(AllTypedQuestions(items), 4).name]
            == ["Multi-hop", "Single-hop", "Temporal", "Open-domain"]
  {
    LocomoBucketBounded(AllTypedQuestions(items), k);
  }

  /**
   * The item grid is the item list's grid with no search and no filter:
   * every item gets a card, in order, and each card's link opens the item
   * whose id and colour it shows.
   */
  lemma ItemCardsAreUnfilteredCards(items: seq<TypedItem>)
    ensures ItemCards(items) == ItemList.Cards(items, "", All, "all")
    ensures forall i :: 0 <= i < |items| ==>
      var c := ItemCards(items)[i];
      0 <= c.link < |items| && items[c.link].itemId == c.id && c.band == BandOf(items[c.link].accuracy)
  {
    ItemList.NoFilterShowsAll(items);
    SelectAll(items, ItemList.ItemPasses("", All, "all"));
  }
}
