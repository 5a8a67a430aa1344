/**
 * What the Python server derives for one item (visualizer/visualizer/main.py):
 * its displayed id, the lookup of a detail page's item, the accuracy shown
 * on a list card, the per-item category buckets and the markdown table
 * offered for copying.
 */
module ServerViews {
  import opened Wrappers
  import opened Strings
  import opened Records
  import opened Selection
  import opened Scoring
  import opened CategoryNames
  import opened ServerStats

  // ---------------------------------------------------------------- ids

  /** The placeholder id of the item at position `idx`: `f"item-{idx}"`. */
  function Placeholder(idx: int): string {
    "item-" + IntToDecimal(idx)
  }

  /** LoComo: `item_id`, else `sample_id`, else the placeholder. */
  function LocomoItemId(it: Item, idx: int): string {
    if it.itemId.Some? then it.itemId.value
    else if it.sampleId.Some? then it.sampleId.value
    else Placeholder(idx)
  }

  /** LongMemEval: `item_id`, else the placeholder. */
  function LongMemEvalItemId(it: Item, idx: int): string {
    it.itemId.GetOr(Placeholder(idx))
  }

  /** Placeholders tell positions apart. */
  lemma PlaceholderInjective(i: int, j: int)
    requires Placeholder(i) == Placeholder(j)
    ensures i == j
  {
    assert Placeholder(i)[5..] == IntToDecimal(i);
    assert Placeholder(j)[5..] == IntToDecimal(j);
    IntToDecimalInjective(i, j);
  }

  /** An item without ids is shown under the placeholder of its own position. */
  lemma IdFallback(it: Item, idx: int)
    requires it.itemId.None?
    ensures LongMemEvalItemId(it, idx) == Placeholder(idx)
    ensures it.sampleId.None? ==> LocomoItemId(it, idx) == Placeholder(idx)
    ensures it.sampleId.Some? ==> LocomoItemId(it, idx) == it.sampleId.value
  {
  }

  // ---------------------------------------------------------------- detail lookup

  /** What a detail route does with the requested `item_idx`. */
  datatype Lookup = Found(item: Item) | Redirect | IndexError

  /**
   * `results[item_idx]` after the `item_idx >= len(results)` redirect:
   * a negative index counts from the end, as in Python, and one below
   * `-len(results)` raises.
   */
  function DetailLookup(results: seq<Item>, itemIdx: int): (r: Lookup)
    ensures r == Redirect <==> itemIdx >= |results|
    ensures r == IndexError <==> itemIdx < -|results|
    ensures 0 <= itemIdx < |results| ==> r == Found(results[itemIdx])
    ensures -|results| <= itemIdx < 0 ==> r == Found(results[|results| + itemIdx])
  {
    if itemIdx >= |results| then Redirect
    else if itemIdx >= 0 then Found(results[itemIdx])
    else if itemIdx >= -|results| then Found(results[|results| + itemIdx])
    else IndexError
  }

  /** Following a list card's link opens the very item the card shows. */
  lemma LinkOpensItem(results: seq<Item>, p: Item -> bool, k: nat)
    requires k < |Select(results, p)|
    ensures DetailLookup(results, Select(results, p)[k].0) == Found(Select(results, p)[k].1)
  {
    SelectSound(results, p, k);
  }

  // ---------------------------------------------------------------- list cards

  /** The numbers a list card shows: accuracy, correct, total. */
  datatype CardStats = CardStats(accuracy: real, correct: int, total: int)

  predicate CorrectInCategory(id: int, q: Question) { q.category == Num(id) && q.isCorrect && !q.isInvalid }

  predicate ValidInCategory(id: int, q: Question) { q.category == Num(id) && !q.isInvalid }

  /**
   * With a (LoComo) category filter, a card counts only that category's
   * questions that are not invalid, with the zero-denominator rule;
   * otherwise it shows the item's own metrics, 0 when missing.
   */
  function CardNumbers(it: Item, categoryId: Option<int>): CardStats {
    match categoryId
    case Some(id) =>
      var ds := Details(it);
      var filteredCorrect := |Filter(ds, q => CorrectInCategory(id, q))|;
      var filteredTotal := |Filter(ds, q => ValidInCategory(id, q))|;
      var accuracy := if filteredTotal > 0 then filteredCorrect as real / filteredTotal as real * 100.0 else 0.0;
      CardStats(accuracy, filteredCorrect, filteredTotal)
    case None =>
      if it.metrics.None? then CardStats(0.0, 0, 0)
      else CardStats(it.metrics.value.accuracy.GetOr(0.0), it.metrics.value.correct.GetOr(0), it.metrics.value.total.GetOr(0))
  }

  lemma {:induction false} CategoryCountsAgree(ds: seq<Question>, id: int)
    ensures |Filter(ds, q => CorrectInCategory(id, q))| == Tally(Filter(ds, InBucket(id))).correct
    ensures |Filter(ds, q => ValidInCategory(id, q))|
            == Tally(Filter(ds, InBucket(id))).total - Tally(Filter(ds, InBucket(id))).invalid
  {
    if |ds| > 0 {
      var ds' := ds[..|ds| - 1];
      var q := ds[|ds| - 1];
      CategoryCountsAgree(ds', id);
      assert ds == ds' + [q];
      FilterSnoc(ds', q, InBucket(id));
      if q.category == Num(id) {
        TallySnoc(Filter(ds', InBucket(id)), q);
      }
    }
  }

  /**
   * A category-filtered card uses the same rule as the category buckets:
   * its numbers are the item's bucket for that category, so it never shows
   * more correct answers than scored ones, nor an accuracy outside 0..100.
   */
  lemma FilteredCardIsBucketAccuracy(it: Item, id: int)
    ensures var card := CardNumbers(it, Some(id));
      var c := Tally(Filter(Details(it), InBucket(id)));
      && card.accuracy == Accuracy(c)
      && card.correct == c.correct && card.total == c.total - c.invalid
      && 0 <= card.correct <= card.total
      && 0.0 <= card.accuracy <= 100.0
  {
    var ds := Details(it);
    var c := Tally(Filter(ds, InBucket(id)));
    CategoryCountsAgree(ds, id);
    TallyCounts(Filter(ds, InBucket(id)));
    var card := CardNumbers(it, Some(id));
    assert card.correct == c.correct && card.total == c.total - c.invalid;
    assert card.accuracy == Accuracy(c);
  }

  // ---------------------------------------------------------------- per-item buckets

  /** The last entry of `category_stats` whose key parses to `k`, if any. */
  function LastFor(entries: seq<(string, StatsEntry)>, k: int): Option<StatsEntry> {
    if |entries| == 0 then None
    else if ParseInt(entries[|entries| - 1].0) == Some(k) then Some(entries[|entries| - 1].1)
    else LastFor(entries[..|entries| - 1], k)
  }

  /** Bucket `k` of an item: zero unless an entry for `k` overwrote it. */
  function ItemBucket(entries: seq<(string, StatsEntry)>, k: int): Bucket {
    Bucket(NumberName(k), match LastFor(entries, k) case None => NoCounts case Some(e) => EntryCounts(e))
  }

  predicate AllKeysParse(entries: seq<(string, StatsEntry)>) {
    forall i :: 0 <= i < |entries| ==> ParseInt(entries[i].0).Some?
  }

  /**
   * The item's four buckets from its `category_stats`: every key is
   * `int()`-parsed (one that does not parse raises); an entry for 1..4
   * overwrites that bucket's counters, missing counters read as 0; any
   * other key is ignored.
   */
  method ItemBuckets(entries: seq<(string, StatsEntry)>) returns (r: Result<seq<Bucket>, int>)
    ensures r.Success? <==> AllKeysParse(entries)
    ensures r.Success? ==> |r.value| == 4 && forall k :: 1 <= k <= 4 ==> r.value[k - 1] == ItemBucket(entries, k)
  {
    var buckets := [Bucket("Multi-hop", NoCounts), Bucket("Single-hop", NoCounts),
                    Bucket("Temporal", NoCounts), Bucket("Open-domain", NoCounts)];
    var i := 0;
    while i < |entries|
      invariant 0 <= i <= |entries|
      invariant AllKeysParse(entries[..i])
      invariant |buckets| == 4 && forall k :: 1 <= k <= 4 ==> buckets[k - 1] == ItemBucket(entries[..i], k)
    {
      var (catIdStr, stats) := entries[i];
      var catId := ParseInt(catIdStr);
      assert entries[..i + 1] == entries[..i] + [(catIdStr, stats)];
      ItemBucketSnoc(entries[..i], (catIdStr, stats));
      if catId.None? {
        assert !AllKeysParse(entries) by { assert ParseInt(entries[i].0).None?; }
        return Failure(i);
      }
      ghost var prev := buckets;
      if 1 <= catId.value <= 4 {
        var k := catId.value;
        buckets := buckets[k - 1 := Bucket(buckets[k - 1].name,
          Counts(stats.correct.GetOr(0), stats.total.GetOr(0), stats.invalid.GetOr(0)))];
      }
      assert AllKeysParse(entries[..i + 1]);
      ghost var seen := entries[..i + 1];
      forall k: int | 1 <= k <= 4
        ensures buckets[k - 1] == ItemBucket(seen, k)
      {
        assert prev[k - 1] == ItemBucket(entries[..i], k);
        if catId == Some(k) {
          assert prev[k - 1].name == NumberName(k);
          assert buckets[k - 1] == Bucket(NumberName(k), EntryCounts(stats));
        }
      }
      i := i + 1;
    }
    assert entries[..i] == entries;
    return Success(buckets);
  }

  lemma ItemBucketSnoc(entries: seq<(string, StatsEntry)>, e: (string, StatsEntry))
    ensures forall k :: ParseInt(e.0) == Some(k) ==> ItemBucket(entries + [e], k) == Bucket(NumberName(k), EntryCounts(e.1))
    ensures forall k :: ParseInt(e.0) != Some(k) ==> ItemBucket(entries + [e], k) == ItemBucket(entries, k)
  {
    assert (entries + [e])[..|entries|] == entries;
  }

  /** A later entry for the same category replaces an earlier one rather than adding to it. */
  lemma LaterEntryOverwrites(entries: seq<(string, StatsEntry)>, key: string, e: StatsEntry)
    requires ParseInt(key).Some? && 1 <= ParseInt(key).value <= 4
    ensures ItemBucket(entries + [(key, e)], ParseInt(key).value).counts == EntryCounts(e)
  {
  }

  /** A key outside 1..4 leaves every bucket as it was. */
  lemma OtherKeyIgnored(entries: seq<(string, StatsEntry)>, key: string, e: StatsEntry, k: int)
    requires ParseInt(key).Some? && !(1 <= ParseInt(key).value <= 4) && 1 <= k <= 4
    ensures ItemBucket(entries + [(key, e)], k) == ItemBucket(entries, k)
  {
    assert (entries + [(key, e)])[..|entries|] == entries;
  }

  // ---------------------------------------------------------------- markdown export

  predicate HasQuestions(b: Bucket) { b.counts.total > 0 }

  /** The buckets that get a column: those with `total > 0`, in bucket order. */
  function ExportColumns(buckets: seq<Bucket>): seq<Bucket> {
    Filter(buckets, HasQuestions)
  }

  function Names(buckets: seq<Bucket>): (r: seq<string>)
    ensures |r| == |buckets| && forall i :: 0 <= i < |buckets| ==> r[i] == buckets[i].name
  {
    seq(|buckets|, i requires 0 <= i < |buckets| => buckets[i].name)
  }

  /** `sep.join(xs)`. */
  function Join(sep: string, xs: seq<string>): string {
    if |xs| == 0 then ""
    else if |xs| == 1 then xs[0]
    else Join(sep, xs[..|xs| - 1]) + sep + xs[|xs| - 1]
  }

  /** `[s for ...]` repeated `n` times. */
  function Repeat(s: string, n: nat): (r: seq<string>)
    ensures |r| == n && forall i :: 0 <= i < n ==> r[i] == s
  {
    seq(n, _ => s)
  }

  /** The header line, exactly as the source writes it. */
  function HeaderLine(names: seq<string>): string {
    "| Conversation | Overall |" + Join(" | ", names) + " |"
  }

  /** The separator line, exactly as the source writes it. */
  function SeparatorLine(n: nat): string {
    "|---|---|" + Join(" | ", Repeat("---", n)) + " |"
  }

  function Cells(cells: seq<string>): string {
    if |cells| == 0 then "" else Cells(cells[..|cells| - 1]) + " " + cells[|cells| - 1] + "% |"
  }

  /** The data row, `''.join(markdown_rows)`, from already formatted numbers. */
  function RowLine(itemId: string, overall: string, cells: seq<string>): string {
    RowHead(itemId, overall) + Cells(cells)
  }

  /** The formatted accuracy of every exported column, in column order. */
  function ExportCells(buckets: seq<Bucket>, format: real -> string): (r: seq<string>)
    ensures |r| == |ExportColumns(buckets)|
  {
    var columns := ExportColumns(buckets);
    seq(|columns|, i requires 0 <= i < |columns| => format(Accuracy(columns[i].counts)))
  }

  /** `''.join(xs)`. */
  function Concat(xs: seq<string>): string {
    if |xs| == 0 then "" else Concat(xs[..|xs| - 1]) + xs[|xs| - 1]
  }

  lemma ExportCellsSnoc(buckets: seq<Bucket>, b: Bucket, format: real -> string)
    ensures ExportCells(buckets + [b], format)
      == ExportCells(buckets, format) + (if HasQuestions(b) then [format(Accuracy(b.counts))] else [])
  {
    FilterSnoc(buckets, b, HasQuestions);
    var next := ExportCells(buckets + [b], format);
    var prev := ExportCells(buckets, format);
    var tail := if HasQuestions(b) then [format(Accuracy(b.counts))] else [];
    assert |next| == |prev + tail|;
    forall i | 0 <= i < |next|
      ensures next[i] == (prev + tail)[i]
    {
    }
  }

  /** One `f" {cat_accuracy:.1f}% |"` piece per formatted cell. */
  function Pieces(cells: seq<string>): (r: seq<string>)
    ensures |r| == |cells| && forall i :: 0 <= i < |cells| ==> r[i] == " " + cells[i] + "% |"
  {
    seq(|cells|, i requires 0 <= i < |cells| => " " + cells[i] + "% |")
  }

  function RowHead(itemId: string, overall: string): string {
    "| " + itemId + " | " + overall + "% |"
  }

  /** Joining the row's pieces gives the data row. */
  lemma {:induction false} RowsJoin(itemId: string, overall: string, cells: seq<string>)
    ensures Concat([RowHead(itemId, overall)] + Pieces(cells)) == RowLine(itemId, overall, cells)
  {
    var rows := [RowHead(itemId, overall)] + Pieces(cells);
    if |cells| > 0 {
      var init := cells[..|cells| - 1];
      RowsJoin(itemId, overall, init);
      assert rows[..|rows| - 1] == [RowHead(itemId, overall)] + Pieces(init);
    }
  }

  /**
   * The `markdown_rows` loop: the row's first cell pair, then one piece per
   * bucket with questions, in bucket order, holding that bucket's accuracy
   * as `format` prints it; joined, they are the table's data row.
   */
  method BuildMarkdownRows(itemId: string, overall: string, buckets: seq<Bucket>, format: real -> string)
    returns (rows: seq<string>)
    ensures rows == [RowHead(itemId, overall)] + Pieces(ExportCells(buckets, format))
    ensures Concat(rows) == RowLine(itemId, overall, ExportCells(buckets, format))
  {
    rows := ["| " + itemId + " | " + overall + "% |"];
    var i := 0;
    while i < |buckets|
      invariant 0 <= i <= |buckets|
      invariant rows == [RowHead(itemId, overall)] + Pieces(ExportCells(buckets[..i], format))
    {
      var cat := buckets[i];
      ExportCellsSnoc(buckets[..i], cat, format);
      assert buckets[..i + 1] == buckets[..i] + [cat];
      if cat.counts.total > 0 {
        var catAccuracy := if cat.counts.total - cat.counts.invalid > 0
          then cat.counts.correct as real / (cat.counts.total - cat.counts.invalid) as real * 100.0
          else 0.0;
        assert catAccuracy == Accuracy(cat.counts);
        rows := rows + [" " + format(catAccuracy) + "% |"];
      }
      i := i + 1;
    }
    assert buckets[..i] == buckets;
    RowsJoin(itemId, overall, ExportCells(buckets, format));
  }

  function PipeCount(s: string): nat {
    if |s| == 0 then 0 else PipeCount(s[..|s| - 1]) + (if s[|s| - 1] == '|' then 1 else 0)
  }

  /** Columns of a table line that starts and ends with a pipe. */
  function ColumnCount(s: string): int {
    PipeCount(s) - 1
  }

  predicate NoPipe(s: string) { '|' !in s }

  lemma {:induction false} PipeCountAppend(a: string, b: string)
    ensures PipeCount(a + b) == PipeCount(a) + PipeCount(b)
  {
    if |b| > 0 {
      assert (a + b)[..|a + b| - 1] == a + b[..|b| - 1];
      PipeCountAppend(a, b[..|b| - 1]);
    } else {
      assert a + b == a;
    }
  }

  lemma {:induction false} NoPipeCount(s: string)
    requires NoPipe(s)
    ensures PipeCount(s) == 0
  {
    if |s| > 0 {
      assert s[|s| - 1] in s;
      NoPipeCount(s[..|s| - 1]);
    }
  }

  /** A string adds no column exactly when it holds no pipe. */
  lemma {:induction false} PipeCountZero(s: string)
    ensures PipeCount(s) == 0 <==> NoPipe(s)
  {
    if NoPipe(s) {
      NoPipeCount(s);
    } else if |s| > 0 {
      var init := s[..|s| - 1];
      PipeCountZero(init);
      if s[|s| - 1] != '|' {
        assert s == init + [s[|s| - 1]];
        assert '|' in init;
      }
    }
  }

  lemma HeadPipes()
    ensures PipeCount("| Conversation | Overall |") == 3
  {
    assert "| Conversation | Overall |" == "|" + " Conversation " + "|" + " Overall " + "|";
    NoPipeCount(" Conversation ");
    NoPipeCount(" Overall ");
    PipeCountAppend("|" + " Conversation " + "|" + " Overall ", "|");
    PipeCountAppend("|" + " Conversation " + "|", " Overall ");
    PipeCountAppend("|" + " Conversation ", "|");
    PipeCountAppend("|", " Conversation ");
  }

  lemma SeparatorHeadPipes()
    ensures PipeCount("|---|---|") == 3
  {
    assert "|---|---|" == "|" + "---" + "|" + "---" + "|";
    NoPipeCount("---");
    PipeCountAppend("|" + "---" + "|" + "---", "|");
    PipeCountAppend("|" + "---" + "|", "---");
    PipeCountAppend("|" + "---", "|");
    PipeCountAppend("|", "---");
  }

  lemma LiteralPipes()
    ensures PipeCount(" |") == 1 && PipeCount(" | ") == 1 && PipeCount("| ") == 1 && PipeCount("% |") == 1
    ensures PipeCount(" ") == 0
  {
    NoPipeCount(" ");
    NoPipeCount("% ");
    assert " |" == " " + "|";
    PipeCountAppend(" ", "|");
    assert " | " == " |" + " ";
    PipeCountAppend(" |", " ");
    assert "| " == "|" + " ";
    PipeCountAppend("|", " ");
    assert "% |" == "% " + "|";
    PipeCountAppend("% ", "|");
  }

  lemma {:induction false} JoinPipes(xs: seq<string>)
    requires |xs| > 0
    requires forall i :: 0 <= i < |xs| ==> NoPipe(xs[i])
    ensures PipeCount(Join(" | ", xs)) == |xs| - 1
  {
    if |xs| == 1 {
      NoPipeCount(xs[0]);
    } else {
      var init := xs[..|xs| - 1];
      JoinPipes(init);
      NoPipeCount(xs[|xs| - 1]);
      LiteralPipes();
      PipeCountAppend(Join(" | ", init) + " | ", xs[|xs| - 1]);
      PipeCountAppend(Join(" | ", init), " | ");
    }
  }

  lemma {:induction false} CellsPipes(cells: seq<string>)
    requires forall i :: 0 <= i < |cells| ==> NoPipe(cells[i])
    ensures PipeCount(Cells(cells)) == |cells|
  {
    if |cells| > 0 {
      var init := cells[..|cells| - 1];
      var last := cells[|cells| - 1];
      CellsPipes(init);
      NoPipeCount(last);
      LiteralPipes();
      PipeCountAppend(Cells(init) + " " + last, "% |");
      PipeCountAppend(Cells(init) + " ", last);
      PipeCountAppend(Cells(init), " ");
    } else {
      assert Cells(cells) == "";
    }
  }

  /** The row has two columns plus one per cell, and one more per pipe inside the id. */
  lemma RowColumns(itemId: string, overall: string, cells: seq<string>)
    requires NoPipe(overall)
    requires forall i :: 0 <= i < |cells| ==> NoPipe(cells[i])
    ensures ColumnCount(RowLine(itemId, overall, cells)) == 2 + |cells| + PipeCount(itemId)
  {
    NoPipeCount(overall);
    CellsPipes(cells);
    LiteralPipes();
    PipeCountAppend(RowHead(itemId, overall), Cells(cells));
    PipeCountAppend("| " + itemId + " | " + overall, "% |");
    PipeCountAppend("| " + itemId + " | ", overall);
    PipeCountAppend("| " + itemId, " | ");
    PipeCountAppend("| ", itemId);
  }

  lemma HeaderPipes(names: seq<string>)
    requires |names| > 0
    requires forall i :: 0 <= i < |names| ==> NoPipe(names[i])
    ensures ColumnCount(HeaderLine(names)) == 2 + |names|
  {
    JoinPipes(names);
    LiteralPipes();
    HeadPipes();
    PipeCountAppend("| Conversation | Overall |" + Join(" | ", names), " |");
    PipeCountAppend("| Conversation | Overall |", Join(" | ", names));
  }

  lemma SeparatorPipes(n: nat)
    requires n > 0
    ensures ColumnCount(SeparatorLine(n)) == 2 + n
  {
    LiteralPipes();
    SeparatorHeadPipes();
    NoPipeCount("---");
    JoinPipes(Repeat("---", n));
    PipeCountAppend("|---|---|" + Join(" | ", Repeat("---", n)), " |");
    PipeCountAppend("|---|---|", Join(" | ", Repeat("---", n)));
  }

  /**
   * With at least one category column, the header and the separator have
   * two columns plus one per category; the data row has as many, plus one
   * per pipe in the item id, so it lines up exactly when the id has none.
   */
  lemma ExportAligned(names: seq<string>, itemId: string, overall: string, cells: seq<string>)
    requires |names| == |cells| > 0
    requires forall i :: 0 <= i < |names| ==> NoPipe(names[i]) && NoPipe(cells[i])
    requires NoPipe(overall)
    ensures ColumnCount(HeaderLine(names)) == 2 + |names|
    ensures ColumnCount(SeparatorLine(|names|)) == 2 + |names|
    ensures ColumnCount(RowLine(itemId, overall, cells)) == 2 + |names| + PipeCount(itemId)
    ensures ColumnCount(RowLine(itemId, overall, cells)) == ColumnCount(HeaderLine(names)) <==> NoPipe(itemId)
  {
    HeaderPipes(names);
    SeparatorPipes(|names|);
    RowColumns(itemId, overall, cells);
    PipeCountZero(itemId);
  }

  /**
   * With no category column the header and separator get a stray empty
   * third column that the two-cell data row does not have.
   */
  lemma EmptyExportMisaligned(itemId: string, overall: string)
    requires NoPipe(overall)
    ensures ColumnCount(HeaderLine([])) == 3
    ensures ColumnCount(SeparatorLine(0)) == 3
    ensures ColumnCount(RowLine(itemId, overall, [])) == 2 + PipeCount(itemId)
    ensures NoPipe(itemId) ==> ColumnCount(RowLine(itemId, overall, [])) == 2
  {
    PipeCountZero(itemId);
    LiteralPipes();
    HeadPipes();
    SeparatorHeadPipes();
    assert HeaderLine([]) == "| Conversation | Overall |" + " |";
    PipeCountAppend("| Conversation | Overall |", " |");
    assert SeparatorLine(0) == "|---|---|" + " |";
    PipeCountAppend("|---|---|", " |");
    RowColumns(itemId, overall, []);
  }

  /** The header as evidently intended: no stray column when there is no category. */
  function FixedHeaderLine(names: seq<string>): string {
    if names == [] then "| Conversation | Overall |" else HeaderLine(names)
  }

  function FixedSeparatorLine(n: nat): string {
    if n == 0 then "|---|---|" else SeparatorLine(n)
  }

  /**
   * The corrected export gives header and separator two columns plus one
   * per category for any number of categories, zero included, so the row
   * lines up with them exactly when the item id holds no pipe.
   */
  lemma FixedExportAligned(names: seq<string>, itemId: string, overall: string, cells: seq<string>)
    requires |names| == |cells|
    requires forall i :: 0 <= i < |names| ==> NoPipe(names[i]) && NoPipe(cells[i])
    requires NoPipe(overall)
    ensures ColumnCount(FixedHeaderLine(names)) == 2 + |names|
    ensures ColumnCount(FixedSeparatorLine(|names|)) == 2 + |names|
    ensures ColumnCount(RowLine(itemId, overall, cells)) == 2 + |names| + PipeCount(itemId)
    ensures ColumnCount(RowLine(itemId, overall, cells)) == ColumnCount(FixedHeaderLine(names)) <==> NoPipe(itemId)
  {
    PipeCountZero(itemId);
    if |names| > 0 {
      ExportAligned(names, itemId, overall, cells);
    } else {
      LiteralPipes();
      HeadPipes();
      SeparatorHeadPipes();
      RowColumns(itemId, overall, cells);
    }
  }

  /** The markdown table as the detail page writes it: header, separator and the joined row. */
  function MarkdownTable(itemId: string, overall: string, buckets: seq<Bucket>, format: real -> string): string {
    var columns := ExportColumns(buckets);
    HeaderLine(Names(columns)) + "\n" + SeparatorLine(|columns|) + "\n"
      + RowLine(itemId, overall, ExportCells(buckets, format))
  }

  /** The markdown table as evidently intended, built from the corrected header and separator. */
  function FixedMarkdownTable(itemId: string, overall: string, buckets: seq<Bucket>, format: real -> string): string {
    var columns := ExportColumns(buckets);
    FixedHeaderLine(Names(columns)) + "\n" + FixedSeparatorLine(|columns|) + "\n"
      + RowLine(itemId, overall, ExportCells(buckets, format))
  }

  /** The correction changes the table only when no category is exported. */
  lemma FixedTableDiffersOnlyWhenEmpty(itemId: string, overall: string, buckets: seq<Bucket>, format: real -> string)
    ensures FixedMarkdownTable(itemId, overall, buckets, format) == MarkdownTable(itemId, overall, buckets, format)
            <==> |ExportColumns(buckets)| > 0
  {
    if |ExportColumns(buckets)| == 0 {
      EmptyTablesDiffer(RowLine(itemId, overall, ExportCells(buckets, format)));
    }
  }

  /** With no column the two headers differ at the 27th character, whatever the row. */
  lemma EmptyTablesDiffer(row: string)
    ensures HeaderLine([]) + "\n" + SeparatorLine(0) + "\n" + row
            != FixedHeaderLine([]) + "\n" + FixedSeparatorLine(0) + "\n" + row
  {
    var head := "| Conversation | Overall |";
    assert Join(" | ", []) == "";
    assert HeaderLine([]) == head + " |";
    assert FixedHeaderLine([]) == head;
    var a := HeaderLine([]) + "\n" + SeparatorLine(0) + "\n" + row;
    var b := FixedHeaderLine([]) + "\n" + FixedSeparatorLine(0) + "\n" + row;
    assert |head| == 26;
    assert a[26] == (head + " |")[26] == ' ';
    assert b[26] == (head + "\n")[26] == '\n';
  }
}
