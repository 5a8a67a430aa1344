/**
 * The global statistics of the Python server's list pages
 * (visualizer/visualizer/main.py): LoComo's four fixed category buckets
 * filled by scanning every question, and LongMemEval's open set of buckets
 * merged from each item's precomputed `category_stats`.
 */
module ServerStats {
  import opened Wrappers
  import opened Strings
  import opened Records
  import opened Selection
  import opened Scoring
  import opened CategoryNames

  // ---------------------------------------------------------------- LoComo

  /** The questions that belong to LoComo bucket `k`. */
  function InBucket(k: int): Question -> bool {
    (q: Question) => q.category == Num(k)
  }

  /** The bucket for key `k`, named as the server names it, counting every question of category `k`. */
  function LocomoBucket(qs: seq<Question>, k: int): Bucket {
    Bucket(NumberName(k), Tally(Filter(qs, InBucket(k))))
  }

  /** The invalid counters of the four buckets, added up. */
  function SumInvalid(buckets: seq<Bucket>): int
    requires |buckets| == 4
  {
    buckets[0].counts.invalid + buckets[1].counts.invalid + buckets[2].counts.invalid + buckets[3].counts.invalid
  }

  /** Counts one more question into the four buckets, as the body of the inner loop does. */
  method CountLocomoQuestion(buckets: seq<Bucket>, totalInvalid: int, result: Question)
    returns (buckets': seq<Bucket>, totalInvalid': int)
    requires |buckets| == 4
    ensures |buckets'| == 4
    ensures forall k :: 1 <= k <= 4 ==>
      buckets'[k - 1] == (if result.category == Num(k) then Bucket(buckets[k - 1].name, Count(buckets[k - 1].counts, result))
                          else buckets[k - 1])
    ensures totalInvalid' - totalInvalid == SumInvalid(buckets') - SumInvalid(buckets)
  {
    buckets', totalInvalid' := buckets, totalInvalid;
    if result.category.Num? && 1 <= result.category.n <= 4 {
      var k := result.category.n;
      var c := buckets[k - 1].counts;
      c := c.(total := c.total + 1);
      if result.isInvalid {
        c := c.(invalid := c.invalid + 1);
        totalInvalid' := totalInvalid + 1;
      } else if result.isCorrect {
        c := c.(correct := c.correct + 1);
      }
      buckets' := buckets[k - 1 := Bucket(buckets[k - 1].name, c)];
    }
  }

  /** `buckets` are the four LoComo buckets of the questions `qs`. */
  ghost predicate BucketsOf(buckets: seq<Bucket>, qs: seq<Question>) {
    |buckets| == 4 && forall k :: 1 <= k <= 4 ==> buckets[k - 1] == LocomoBucket(qs, k)
  }

  /** Scanning one more question changes only the bucket of its category. */
  lemma LocomoBucketSnoc(qs: seq<Question>, q: Question, k: int)
    ensures LocomoBucket(qs + [q], k)
            == if q.category == Num(k) then Bucket(NumberName(k), Count(LocomoBucket(qs, k).counts, q))
               else LocomoBucket(qs, k)
  {
    FilterSnoc(qs, q, InBucket(k));
    if q.category == Num(k) {
      TallySnoc(Filter(qs, InBucket(k)), q);
    } else {
      assert Filter(qs + [q], InBucket(k)) == Filter(qs, InBucket(k));
    }
  }

  /** The inner loop: counts the questions `ds` of one item into the buckets. */
  method CountLocomoItem(buckets: seq<Bucket>, totalInvalid: int, ghost before: seq<Question>, ds: seq<Question>)
    returns (buckets': seq<Bucket>, totalInvalid': int)
    requires BucketsOf(buckets, before) && totalInvalid == SumInvalid(buckets)
    ensures BucketsOf(buckets', before + ds) && totalInvalid' == SumInvalid(buckets')
  {
    buckets', totalInvalid' := buckets, totalInvalid;
    var j := 0;
    assert before + ds[..j] == before;
    while j < |ds|
      invariant 0 <= j <= |ds|
      invariant BucketsOf(buckets', before + ds[..j]) && totalInvalid' == SumInvalid(buckets')
    {
      ghost var seen := before + ds[..j];
      buckets', totalInvalid' := CountLocomoQuestion(buckets', totalInvalid', ds[j]);
      assert before + ds[..j + 1] == seen + [ds[j]];
      forall k | 1 <= k <= 4
        ensures buckets'[k - 1] == LocomoBucket(seen + [ds[j]], k)
      {
        LocomoBucketSnoc(seen, ds[j], k);
      }
      j := j + 1;
    }
    assert ds[..j] == ds;
  }

  /**
   * LoComo's global category statistics over all items: bucket `k` (1..4)
   * counts every question of category `k`; questions of any other category
   * are not counted; `total_invalid` is the sum of the buckets' invalid
   * counters.
   */
  method LocomoCategoryStats(items: seq<Item>) returns (buckets: seq<Bucket>, totalInvalid: int)
    ensures |buckets| == 4
    ensures forall k :: 1 <= k <= 4 ==> buckets[k - 1] == LocomoBucket(AllQuestions(items), k)
    ensures totalInvalid == SumInvalid(buckets)
  {
    buckets := [Bucket("Multi-hop", NoCounts), Bucket("Single-hop", NoCounts),
                Bucket("Temporal", NoCounts), Bucket("Open-domain", NoCounts)];
    totalInvalid := 0;
    var i := 0;
    while i < |items|
      invariant 0 <= i <= |items|
      invariant BucketsOf(buckets, AllQuestions(items[..i])) && totalInvalid == SumInvalid(buckets)
    {
      assert items[..i + 1][..i] == items[..i];
      buckets, totalInvalid := CountLocomoItem(buckets, totalInvalid, AllQuestions(items[..i]), Details(items[i]));
      i := i + 1;
    }
    assert items[..i] == items;
  }

  /** A LoComo bucket never holds more correct and invalid answers than questions. */
  lemma LocomoBucketBounded(qs: seq<Question>, k: int)
    ensures var c := LocomoBucket(qs, k).counts;
      0 <= c.correct && 0 <= c.invalid && c.correct + c.invalid <= c.total
      && c.correct <= c.total - c.invalid
      && 0.0 <= Accuracy(c) <= 100.0
  {
    TallyCounts(Filter(qs, InBucket(k)));
  }

  /** The fixed bucket names are `get_category_name`'s names of the keys 1..4. */
  lemma LocomoBucketNames(qs: seq<Question>, k: int)
    requires 1 <= k <= 4
    ensures LocomoBucket(qs, k).name == CategoryName(Num(k)) != "Unknown"
  {
  }

  /** A question marked both invalid and correct is counted as invalid and never as correct. */
  lemma InvalidCorrectCountsAsInvalid(qs: seq<Question>, q: Question, k: int)
    requires q.isInvalid && q.isCorrect && q.category == Num(k)
    ensures LocomoBucket(qs + [q], k).counts.invalid == LocomoBucket(qs, k).counts.invalid + 1
    ensures LocomoBucket(qs + [q], k).counts.correct == LocomoBucket(qs, k).counts.correct
    ensures LocomoBucket(qs + [q], k).counts.total == LocomoBucket(qs, k).counts.total + 1
  {
    FilterSnoc(qs, q, InBucket(k));
    TallySnoc(Filter(qs, InBucket(k)), q);
  }

  // ---------------------------------------------------------------- LongMemEval

  /** The keys of a sequence of `category_stats` entries, in order. */
  function Keys(entries: seq<(string, StatsEntry)>): (r: seq<string>)
    ensures |r| == |entries| && forall i :: 0 <= i < |entries| ==> r[i] == entries[i].0
  {
    seq(|entries|, i requires 0 <= i < |entries| => entries[i].0)
  }

  /** Every item's `category_stats` entries, item by item. */
  function AllEntries(items: seq<Item>): seq<(string, StatsEntry)> {
    if |items| == 0 then [] else AllEntries(items[..|items| - 1]) + StatsOf(items[|items| - 1])
  }

  /** The sum, with missing counters read as 0, of the entries for `key`. */
  function SumFor(entries: seq<(string, StatsEntry)>, key: string): Counts {
    if |entries| == 0 then NoCounts
    else
      var e := entries[|entries| - 1];
      var rest := SumFor(entries[..|entries| - 1], key);
      if e.0 == key then Add(rest, EntryCounts(e.1)) else rest
  }

  /** One bucket per key, in `order`, as `category_stats.values()` lists them. */
  function BucketsInOrder(order: seq<string>, stats: map<string, Counts>): (r: seq<Bucket>)
    requires forall i :: 0 <= i < |order| ==> order[i] in stats
    ensures |r| == |order|
    ensures forall i :: 0 <= i < |order| ==> r[i] == Bucket(order[i], stats[order[i]])
  {
    seq(|order|, i requires 0 <= i < |order| => Bucket(order[i], stats[order[i]]))
  }

  /** `order` and `stats` are the merged buckets of `entries`, keyed by category. */
  ghost predicate MergedFrom(order: seq<string>, stats: map<string, Counts>, entries: seq<(string, StatsEntry)>) {
    && order == FirstSeen(Keys(entries))
    && (forall key :: key in stats <==> key in order)
    && (forall key :: key in stats ==> stats[key] == SumFor(entries, key))
  }

  lemma MergeSnoc(entries: seq<(string, StatsEntry)>, e: (string, StatsEntry))
    ensures FirstSeen(Keys(entries + [e]))
            == if e.0 in FirstSeen(Keys(entries)) then FirstSeen(Keys(entries)) else FirstSeen(Keys(entries)) + [e.0]
    ensures forall key :: e.0 != key ==> SumFor(entries + [e], key) == SumFor(entries, key)
    ensures SumFor(entries + [e], e.0) == Add(SumFor(entries, e.0), EntryCounts(e.1))
  {
    FirstSeenMembers(Keys(entries));
    assert Keys(entries + [e]) == Keys(entries) + [e.0];
    assert (Keys(entries) + [e.0])[..|Keys(entries)|] == Keys(entries);
    assert (entries + [e])[..|entries|] == entries;
  }

  /** Merges one `category_stats` entry: add the key on first sight, then sum its counters. */
  method MergeEntry(order: seq<string>, stats: map<string, Counts>,
                    ghost seen: seq<(string, StatsEntry)>, category: string, entry: StatsEntry)
    returns (order': seq<string>, stats': map<string, Counts>)
    requires MergedFrom(order, stats, seen)
    ensures MergedFrom(order', stats', seen + [(category, entry)])
  {
    MergeSnoc(seen, (category, entry));
    order', stats' := order, stats;
    if category !in stats' {
      FirstSeenMembers(Keys(seen));
      SumForAbsent(seen, category);
      order' := order' + [category];
      stats' := stats'[category := NoCounts];
    }
    var c := stats'[category];
    stats' := stats'[category := Counts(c.correct + entry.correct.GetOr(0),
                                        c.total + entry.total.GetOr(0),
                                        c.invalid + entry.invalid.GetOr(0))];
    forall key | key in stats'
      ensures stats'[key] == SumFor(seen + [(category, entry)], key)
    {
      if key != category {
        assert stats'[key] == stats[key];
      }
    }
  }

  /** The inner loop over one item's `category_stats`. */
  method MergeItemStats(order: seq<string>, stats: map<string, Counts>,
                        ghost before: seq<(string, StatsEntry)>, entries: seq<(string, StatsEntry)>)
    returns (order': seq<string>, stats': map<string, Counts>)
    requires MergedFrom(order, stats, before)
    ensures MergedFrom(order', stats', before + entries)
  {
    order', stats' := order, stats;
    var j := 0;
    assert before + entries[..j] == before;
    while j < |entries|
      invariant 0 <= j <= |entries|
      invariant MergedFrom(order', stats', before + entries[..j])
    {
      var (category, entry) := entries[j];
      assert before + entries[..j + 1] == (before + entries[..j]) + [(category, entry)];
      order', stats' := MergeEntry(order', stats', before + entries[..j], category, entry);
      j := j + 1;
    }
    assert entries[..j] == entries;
  }

  /** The invalid-question loop over one item's `detailed_results`. */
  method CountInvalid(totalInvalid: int, ghost before: seq<Question>, ds: seq<Question>)
    returns (totalInvalid': int)
    requires totalInvalid == Tally(before).invalid
    ensures totalInvalid' == Tally(before + ds).invalid
  {
    totalInvalid' := totalInvalid;
    var k := 0;
    assert before + ds[..k] == before;
    while k < |ds|
      invariant 0 <= k <= |ds|
      invariant totalInvalid' == Tally(before + ds[..k]).invalid
    {
      TallySnoc(before + ds[..k], ds[k]);
      assert before + ds[..k + 1] == (before + ds[..k]) + [ds[k]];
      if ds[k].isInvalid {
        totalInvalid' := totalInvalid' + 1;
      }
      k := k + 1;
    }
    assert ds[..k] == ds;
  }

  /**
   * LongMemEval's global statistics: one bucket per `category_stats` key
   * found in any item, named by the key, in first-seen order, holding the
   * sum over all items of that key's counters; `total_invalid` counts the
   * invalid questions of every item.
   */
  method LongMemEvalCategoryStats(items: seq<Item>) returns (buckets: seq<Bucket>, totalInvalid: int)
    ensures |buckets| == |FirstSeen(Keys(AllEntries(items)))|
    ensures forall i :: 0 <= i < |buckets| ==>
      buckets[i] == var key := FirstSeen(Keys(AllEntries(items)))[i]; Bucket(key, SumFor(AllEntries(items), key))
    ensures totalInvalid == Tally(AllQuestions(items)).invalid
  {
    var order: seq<string> := [];
    var stats: map<string, Counts> := map[];
    totalInvalid := 0;
    var i := 0;
    while i < |items|
      invariant 0 <= i <= |items|
      invariant MergedFrom(order, stats, AllEntries(items[..i]))
      invariant totalInvalid == Tally(AllQuestions(items[..i])).invalid
    {
      assert items[..i + 1][..i] == items[..i];
      order, stats := MergeItemStats(order, stats, AllEntries(items[..i]), StatsOf(items[i]));
      totalInvalid := CountInvalid(totalInvalid, AllQuestions(items[..i]), Details(items[i]));
      i := i + 1;
    }
    assert items[..i] == items;
    buckets := BucketsInOrder(order, stats);
  }

  /** Two entries for the same key, from two items, merge into their sum. */
  lemma MergedKeySums(a: seq<(string, StatsEntry)>, key: string, x: StatsEntry, y: StatsEntry)
    requires forall i :: 0 <= i < |a| ==> a[i].0 != key
    ensures SumFor(a + [(key, x)] + [(key, y)], key) == Add(EntryCounts(x), EntryCounts(y))
    ensures FirstSeen(Keys(a + [(key, x)] + [(key, y)])) == FirstSeen(Keys(a)) + [key]
  {
    SumForAbsent(a, key);
    var s := a + [(key, x)] + [(key, y)];
    assert s[..|s| - 1] == a + [(key, x)];
    assert (a + [(key, x)])[..|a|] == a;
    assert Keys(s)[..|s| - 1] == Keys(a + [(key, x)]);
    assert Keys(a + [(key, x)])[..|a|] == Keys(a);
    assert key !in Keys(a);
  }

  lemma {:induction false} SumForAbsent(a: seq<(string, StatsEntry)>, key: string)
    requires forall i :: 0 <= i < |a| ==> a[i].0 != key
    ensures SumFor(a, key) == NoCounts
  {
    if |a| > 0 {
      SumForAbsent(a[..|a| - 1], key);
    }
  }
}
