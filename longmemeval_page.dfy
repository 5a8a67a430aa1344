/**
 * The LongMemEval results page of the Next.js front end
 * (visualizer/app/longmemeval/page.tsx): per-category counters keyed by the
 * category's text, created on first sight, then shown sorted by key.
 */
module LongMemEvalPage {
  import opened Wrappers
  import opened Strings
  import opened Records
  import opened Selection
  import opened Scoring
  import opened CategoryNames

  /** The questions counted under `key`. */
  function HasKey(key: string): Question -> bool {
    (q: Question) => CategoryKey(q.category) == key
  }

  /** The counters of `key`: every question keyed so, tallied. */
  function KeyCounts(qs: seq<Question>, key: string): Counts {
    Tally(Filter(qs, HasKey(key)))
  }

  /** `order` lists the keys of `stats` as first seen in `qs`, and each counter is its key's tally. */
  ghost predicate StatsFrom(order: seq<string>, stats: map<string, Counts>, qs: seq<Question>) {
    && order == FirstSeen(QuestionKeys(qs))
    && (forall key :: key in stats <==> key in order)
    && (forall key :: key in stats ==> stats[key] == KeyCounts(qs, key))
  }

  lemma KeyCountsSnoc(qs: seq<Question>, q: Question, key: string)
    ensures KeyCounts(qs + [q], key) == if CategoryKey(q.category) == key then Count(KeyCounts(qs, key), q) else KeyCounts(qs, key)
  {
    FilterSnoc(qs, q, HasKey(key));
    if CategoryKey(q.category) == key {
      TallySnoc(Filter(qs, HasKey(key)), q);
    }
  }

  /** A key no question carries has no questions. */
  lemma {:induction false} AbsentKeyCountsNothing(qs: seq<Question>, key: string)
    requires key !in QuestionKeys(qs)
    ensures Filter(qs, HasKey(key)) == []
  {
    if |qs| > 0 {
      var init := qs[..|qs| - 1];
      assert QuestionKeys(qs)[|qs| - 1] == CategoryKey(qs[|qs| - 1].category);
      assert QuestionKeys(qs) == QuestionKeys(init) + [CategoryKey(qs[|qs| - 1].category)];
      AbsentKeyCountsNothing(init, key);
    }
  }

  /** Counting one more question: its key is appended when new and its counter counts it. */
  lemma CountStep(order: seq<string>, stats: map<string, Counts>, before: seq<Question>, q: Question,
                  order': seq<string>, stats': map<string, Counts>)
    requires StatsFrom(order, stats, before)
    requires order' == if CategoryKey(q.category) in stats then order else order + [CategoryKey(q.category)]
    requires stats' == stats[CategoryKey(q.category) := Count(if CategoryKey(q.category) in stats then stats[CategoryKey(q.category)] else NoCounts, q)]
    ensures StatsFrom(order', stats', before + [q])
  {
    var key := CategoryKey(q.category);
    assert QuestionKeys([q]) == [key];
    QuestionKeysAppend(before, [q]);
    FirstSeenMembers(QuestionKeys(before));
    FirstSeenSnoc(QuestionKeys(before), key);
    assert order' == FirstSeen(QuestionKeys(before + [q]));
    CountStepValues(stats, before, q, stats');
  }

  /** The counter part of `CountStep`: every counter, the new one included, is its key's tally. */
  lemma CountStepValues(stats: map<string, Counts>, before: seq<Question>, q: Question, stats': map<string, Counts>)
    requires forall key :: key in stats ==> stats[key] == KeyCounts(before, key)
    requires CategoryKey(q.category) !in stats ==> CategoryKey(q.category) !in QuestionKeys(before)
    requires stats' == stats[CategoryKey(q.category) := Count(if CategoryKey(q.category) in stats then stats[CategoryKey(q.category)] else NoCounts, q)]
    ensures forall key :: key in stats' ==> stats'[key] == KeyCounts(before + [q], key)
  {
    var key := CategoryKey(q.category);
    if key !in stats {
      AbsentKeyCountsNothing(before, key);
    }
    forall k | k in stats'
      ensures stats'[k] == KeyCounts(before + [q], k)
    {
      KeyCountsSnoc(before, q, k);
    }
  }

  /** One question: create its key's counter if missing, then count it. */
  method CountQuestion(order: seq<string>, stats: map<string, Counts>, ghost before: seq<Question>, result: Question)
    returns (order': seq<string>, stats': map<string, Counts>)
    requires StatsFrom(order, stats, before)
    ensures StatsFrom(order', stats', before + [result])
  {
    var category := CategoryKey(result.category);
    order' := order;
    var c := NoCounts;
    if category in stats {
      c := stats[category];
    } else {
      order' := order' + [category];
    }
    c := c.(total := c.total + 1);
    if result.isInvalid {
      c := c.(invalid := c.invalid + 1);
    } else if result.isCorrect {
      c := c.(correct := c.correct + 1);
    }
    stats' := stats[category := c];
    CountStep(order, stats, before, result, order', stats');
  }

  /** One item's `detailed_results?.forEach`. */
  method CountItem(order: seq<string>, stats: map<string, Counts>, ghost before: seq<Question>, ds: seq<Question>)
    returns (order': seq<string>, stats': map<string, Counts>)
    requires StatsFrom(order, stats, before)
    ensures StatsFrom(order', stats', before + ds)
  {
    order', stats' := order, stats;
    assert before + ds[..0] == before;
    for j := 0 to |ds|
      invariant StatsFrom(order', stats', before + ds[..j])
    {
      assert before + ds[..j + 1] == (before + ds[..j]) + [ds[j]];
      order', stats' := CountQuestion(order', stats', before + ds[..j], ds[j]);
    }
    assert ds[..|ds|] == ds;
  }

  /**
   * The `categoryStats` scan over every item: one counter per category key
   * met, created at first sight, holding that key's tally; the keys in the
   * order first met.
   */
  method CategoryStats(items: seq<TypedItem>) returns (order: seq<string>, stats: map<string, Counts>)
    ensures order == FirstSeen(QuestionKeys(AllTypedQuestions(items)))
    ensures forall key :: key in stats <==> key in QuestionKeys(AllTypedQuestions(items))
    ensures forall key :: key in stats ==> stats[key] == KeyCounts(AllTypedQuestions(items), key)
  {
    order, stats := [], map[];
    for i := 0 to |items|
      invariant StatsFrom(order, stats, AllTypedQuestions(items[..i]))
    {
      assert items[..i + 1][..i] == items[..i];
      order, stats := CountItem(order, stats, AllTypedQuestions(items[..i]), TypedDetails(items[i]));
    }
    assert items[..|items|] == items;
    FirstSeenMembers(QuestionKeys(AllTypedQuestions(items)));
  }

  /**
   * The section's cards: `Object.entries(categoryStats)` sorted by key. One
   * card per listed key, every listed key gets one, each card holds its own
   * key's counters, and the cards are in key order.
   */
  function SortedBuckets(order: seq<string>, stats: map<string, Counts>): (r: seq<Bucket>)
    requires forall key :: key in order ==> key in stats
    ensures |r| == |order|
    ensures forall i :: 0 <= i < |r| ==> r[i].name in order && r[i].counts == stats[r[i].name]
    ensures forall key :: key in order ==> exists i :: 0 <= i < |r| && r[i].name == key
    ensures forall i, j :: 0 <= i < j < |r| ==> LexLe(r[i].name, r[j].name)
  {
    var keys := Sort(order);
    SortCorrect(order);
    SortMembers(order);
    var r := seq(|keys|, i requires 0 <= i < |keys| => Bucket(keys[i], stats[keys[i]]));
    assert forall i :: 0 <= i < |r| ==> r[i].name == keys[i];
    r
  }

  /**
   * The page: the category section appears only when some counter exists;
   * its cards show each sorted counter with its accuracy.
   */
  datatype PageView = NotFound | PageView(sectionShown: bool, cards: seq<BucketCard>)

  /** The counters the page holds: each first-seen key with its own tally. */
  function Counters(qs: seq<Question>): map<string, Counts> {
    map key | key in FirstSeen(QuestionKeys(qs)) :: KeyCounts(qs, key)
  }

  /** `.map` over the sorted entries: one card per bucket. */
  function CardsOf(buckets: seq<Bucket>): (r: seq<BucketCard>)
    ensures |r| == |buckets| && forall i :: 0 <= i < |buckets| ==> r[i] == BucketCardOf(buckets[i])
  {
    seq(|buckets|, i requires 0 <= i < |buckets| => BucketCardOf(buckets[i]))
  }

  method Page(data: Option<seq<TypedItem>>) returns (r: PageView)
    ensures data.None? <==> r == NotFound
    ensures data.Some? ==>
      var qs := AllTypedQuestions(data.value);
      var order := FirstSeen(QuestionKeys(qs));
      var buckets := SortedBuckets(order, Counters(qs));
      && (r.sectionShown <==> |qs| > 0)
      && |r.cards| == |buckets|
      && (forall i :: 0 <= i < |buckets| ==> r.cards[i] == BucketCardOf(buckets[i]))
  {
    if data.None? {
      return NotFound;
    }
    var order, stats := CategoryStats(data.value);
    ghost var qs := AllTypedQuestions(data.value);
    FirstSeenMembers(QuestionKeys(qs));
    assert stats == Counters(qs);
    if |qs| > 0 {
      assert QuestionKeys(qs)[0] in order;
    }
    var buckets := SortedBuckets(order, stats);
    r := PageView(|stats| > 0, CardsOf(buckets));
  }

  /**
   * A key's card: its accuracy is 0 when all of the key's questions are
   * invalid and otherwise lies in 0..100, and it never shows more correct
   * answers than questions.
   */
  lemma KeyCardMeaning(qs: seq<Question>, key: string)
    ensures var c := KeyCounts(qs, key);
      var card := BucketCardOf(Bucket(key, c));
      && card.name == key
      && (c.total - c.invalid == 0 ==> card.accuracy == 0.0)
      && 0.0 <= card.accuracy <= 100.0
      && 0 <= card.correct <= card.total
  {
    TallyCounts(Filter(qs, HasKey(key)));
    TallyAccuracyBounded(Filter(qs, HasKey(key)));
  }

  /** Sorted section: keys in order, each once, every key met exactly once. */
  lemma SectionMeaning(items: seq<TypedItem>)
    ensures var keys := Sort(FirstSeen(QuestionKeys(AllTypedQuestions(items))));
      && Sorted(keys) && Distinct(keys)
      && forall key :: key in keys <==> key in QuestionKeys(AllTypedQuestions(items))
  {
    FirstSeenMembers(QuestionKeys(AllTypedQuestions(items)));
    SortDistinct(FirstSeen(QuestionKeys(AllTypedQuestions(items))));
  }

  /** The totals of the counters for the keys in `order`, added up. */
  function SumTotals(order: seq<string>, qs: seq<Question>): int {
    if |order| == 0 then 0 else SumTotals(order[..|order| - 1], qs) + KeyCounts(qs, order[|order| - 1]).total
  }

  lemma {:induction false} SumTotalsSnoc(order: seq<string>, qs: seq<Question>, q: Question)
    requires Distinct(order)
    ensures SumTotals(order, qs + [q]) == SumTotals(order, qs) + (if CategoryKey(q.category) in order then 1 else 0)
  {
    if |order| > 0 {
      var init := order[..|order| - 1];
      var last := order[|order| - 1];
      assert Distinct(init);
      SumTotalsSnoc(init, qs, q);
      KeyCountsSnoc(qs, q, last);
      assert CategoryKey(q.category) in order <==> CategoryKey(q.category) in init || CategoryKey(q.category) == last;
      assert CategoryKey(q.category) == last ==> CategoryKey(q.category) !in init;
    }
  }

  /** Every question is counted under exactly one key: the totals add up to the number of questions. */
  lemma {:induction false} EveryQuestionCountedOnce(qs: seq<Question>)
    ensures SumTotals(FirstSeen(QuestionKeys(qs)), qs) == |qs|
  {
    if |qs| > 0 {
      var init := qs[..|qs| - 1];
      var q := qs[|qs| - 1];
      var order := FirstSeen(QuestionKeys(init));
      EveryQuestionCountedOnce(init);
      assert qs == init + [q];
      KeySetSnoc(init, q);
      FirstSeenMembers(QuestionKeys(init));
      SumTotalsSnoc(order, init, q);
      if CategoryKey(q.category) !in order {
        NewKeyTotal(init, q, order);
      }
    }
  }

  /** A new key's counter holds just the new question. */
  lemma NewKeyTotal(init: seq<Question>, q: Question, order: seq<string>)
    requires order == FirstSeen(QuestionKeys(init))
    requires CategoryKey(q.category) !in order
    ensures SumTotals(order + [CategoryKey(q.category)], init + [q]) == SumTotals(order, init + [q]) + 1
  {
    var key := CategoryKey(q.category);
    FirstSeenMembers(QuestionKeys(init));
    AbsentKeyCountsNothing(init, key);
    KeyCountsSnoc(init, q, key);
    assert (order + [key])[..|order|] == order;
  }
}
