/**
 * The shapes of a result document as the engine reads them.
 *
 * The Python server reads the document as loose JSON: every nested field may
 * be missing and is read with a default. Those fields are `Option`s here and
 * the accessors at the end of this module supply the server's defaults. The
 * web pages read the document through the TypeScript interfaces of
 * visualizer/lib/types.ts, where `item_id`, `accuracy` and `invalid` are
 * present and only `detailed_results` is treated as possibly missing (`?.`).
 */
module Records {
  import opened Wrappers

  /** A question's category: LoComo writes the integers 1..4, LongMemEval free-form tags. */
  datatype Category = Num(n: int) | Tag(s: string)

  /**
   * One graded question, an entry of `detailed_results`. Both languages read
   * an absent `is_correct` or `is_invalid` as false, which is what the
   * booleans hold here.
   */
  datatype Question = Question(text: string, category: Category, isCorrect: bool, isInvalid: bool)

  /** The three mutually exclusive correctness classes; invalid takes precedence. */
  datatype Verdict = Invalid | Correct | Incorrect

  function Classify(q: Question): (v: Verdict)
    ensures v == Invalid <==> q.isInvalid
    ensures v == Correct <==> q.isCorrect && !q.isInvalid
    ensures v == Incorrect <==> !q.isCorrect && !q.isInvalid
  {
    if q.isInvalid then Invalid else if q.isCorrect then Correct else Incorrect
  }

  /** The four correctness filters offered to the user. */
  datatype CorrectnessFilter = All | CorrectOnly | IncorrectOnly | InvalidOnly

  /** The `{correct, total, invalid}` counters of a category bucket. */
  datatype Counts = Counts(correct: int, total: int, invalid: int)

  const NoCounts := Counts(0, 0, 0)

  /** A bucket as displayed: its name and its counters. */
  datatype Bucket = Bucket(name: string, counts: Counts)

  /** One value of a `category_stats` object; each counter may be missing. */
  datatype StatsEntry = StatsEntry(correct: Option<int>, total: Option<int>, invalid: Option<int>)

  /** `category_stats` read with `stats.get(field, 0)`. */
  function EntryCounts(e: StatsEntry): Counts {
    Counts(e.correct.GetOr(0), e.total.GetOr(0), e.invalid.GetOr(0))
  }

  /** The `metrics` object of an item, as loose JSON. `category_stats` keeps its key order. */
  datatype Metrics = Metrics(
    accuracy: Option<real>,
    correct: Option<int>,
    total: Option<int>,
    invalid: Option<int>,
    detailedResults: Option<seq<Question>>,
    categoryStats: Option<seq<(string, StatsEntry)>>)

  /** An entry of `item_results` (or `conversation_results`), as loose JSON. */
  datatype Item = Item(itemId: Option<string>, sampleId: Option<string>, metrics: Option<Metrics>)

  /**
   * The parts of the root object the engine reads: the item lists, and the
   * three headline numbers the server's list pages index with `data[...]`.
   */
  datatype Document = Document(
    itemResults: Option<seq<Item>>,
    conversationResults: Option<seq<Item>>,
    overallAccuracy: Option<real>,
    totalCorrect: Option<int>,
    totalQuestions: Option<int>)

  /** An item as typed by `ItemResult` for the web pages. */
  datatype TypedItem = TypedItem(itemId: string, accuracy: real, invalid: int, detailedResults: Option<seq<Question>>)

  /** `item.get("metrics", {}).get("detailed_results", [])`. */
  function Details(it: Item): seq<Question> {
    if it.metrics.Some? && it.metrics.value.detailedResults.Some? then it.metrics.value.detailedResults.value else []
  }

  /** `item.get("metrics", {}).get("category_stats", {})`, in key order. */
  function StatsOf(it: Item): seq<(string, StatsEntry)> {
    if it.metrics.Some? && it.metrics.value.categoryStats.Some? then it.metrics.value.categoryStats.value else []
  }

  /** `item.detailed_results ?? []` on the web pages. */
  function TypedDetails(it: TypedItem): seq<Question> {
    it.detailedResults.GetOr([])
  }

  /** Every question of every item, item by item, in document order. */
  function AllQuestions(items: seq<Item>): seq<Question> {
    if |items| == 0 then [] else AllQuestions(items[..|items| - 1]) + Details(items[|items| - 1])
  }

  /** The same over typed items. */
  function AllTypedQuestions(items: seq<TypedItem>): seq<Question> {
    if |items| == 0 then [] else AllTypedQuestions(items[..|items| - 1]) + TypedDetails(items[|items| - 1])
  }

  /** `data.get("item_results", data.get("conversation_results", []))`. */
  function LocomoItems(d: Document): seq<Item> {
    if d.itemResults.Some? then d.itemResults.value else d.conversationResults.GetOr([])
  }

  /** An item without metrics or without `detailed_results` adds no question to the scan. */
  lemma AllQuestionsSkipsEmpty(items: seq<Item>, it: Item)
    requires Details(it) == []
    ensures AllQuestions(items + [it]) == AllQuestions(items)
  {
    assert (items + [it])[..|items|] == items;
  }

  lemma {:induction false} AllQuestionsAppend(a: seq<Item>, b: seq<Item>)
    ensures AllQuestions(a + b) == AllQuestions(a) + AllQuestions(b)
    decreases |b|
  {
    if |b| > 0 {
      var b' := b[..|b| - 1];
      assert (a + b)[..|a + b| - 1] == a + b';
      AllQuestionsAppend(a, b');
    } else {
      assert a + b == a;
    }
  }
}
