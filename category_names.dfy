/**
 * How a category is shown: LoComo's four numbered categories get names and
 * tags pass through (`getCategoryName`); the web lists key a category by its
 * text, a number written in decimal (`category.toString()`).
 */
module CategoryNames {
  import opened Records
  import opened Strings
  import opened Wrappers

  /** The name of LoComo category `n`, or "Unknown" outside 1..4. */
  function NumberName(n: int): string {
    if n == 1 then "Multi-hop"
    else if n == 2 then "Single-hop"
    else if n == 3 then "Temporal"
    else if n == 4 then "Open-domain"
    else "Unknown"
  }

  /** `getCategoryName`: a string category is returned as it is, a number is looked up. */
  function CategoryName(c: Category): (r: string)
    ensures c.Tag? ==> r == c.s
    ensures c.Num? && !(1 <= c.n <= 4) ==> r == "Unknown"
  {
    match c
    case Tag(s) => s
    case Num(n) => NumberName(n)
  }

  /** The four LoComo categories have four different names, none of them "Unknown". */
  lemma NamesDistinct(m: int, n: int)
    requires 1 <= m <= 4 && 1 <= n <= 4
    ensures CategoryName(Num(m)) == CategoryName(Num(n)) <==> m == n
    ensures CategoryName(Num(m)) != "Unknown"
  {
  }

  /** The four names, in key order 1..4. */
  lemma NamesTable()
    ensures [CategoryName(Num(1)), CategoryName(Num(2)), CategoryName(Num(3)), CategoryName(Num(4))]
            == ["Multi-hop", "Single-hop", "Temporal", "Open-domain"]
  {
  }

  /** `typeof c === 'number' ? c.toString() : c`. */
  function CategoryKey(c: Category): (r: string)
    ensures c.Num? ==> ParseInt(r) == Some(c.n)
  {
    match c
    case Tag(s) => s
    case Num(n) => ParseIntRoundTrip(n); IntToDecimal(n)
  }

  /**
   * Two numbered categories share a key only when they are equal; a number
   * and the string of its digits share one.
   */
  lemma CategoryKeyCollisions(m: int, n: int)
    ensures CategoryKey(Num(m)) == CategoryKey(Num(n)) <==> m == n
    ensures CategoryKey(Num(n)) == CategoryKey(Tag(IntToDecimal(n)))
  {
    if CategoryKey(Num(m)) == CategoryKey(Num(n)) {
      IntToDecimalInjective(m, n);
    }
  }

  /** The keys of a sequence of questions, in order. */
  function QuestionKeys(qs: seq<Question>): (r: seq<string>)
    ensures |r| == |qs| && forall i :: 0 <= i < |qs| ==> r[i] == CategoryKey(qs[i].category)
  {
    seq(|qs|, i requires 0 <= i < |qs| => CategoryKey(qs[i].category))
  }

  lemma QuestionKeysAppend(a: seq<Question>, b: seq<Question>)
    ensures QuestionKeys(a + b) == QuestionKeys(a) + QuestionKeys(b)
  {
  }

  /** One more question adds its key to the first-seen keys when the key is new. */
  lemma KeySetSnoc(qs: seq<Question>, q: Question)
    ensures var key := CategoryKey(q.category);
      FirstSeen(QuestionKeys(qs + [q]))
      == if key in FirstSeen(QuestionKeys(qs)) then FirstSeen(QuestionKeys(qs)) else FirstSeen(QuestionKeys(qs)) + [key]
  {
    assert QuestionKeys([q]) == [CategoryKey(q.category)];
    QuestionKeysAppend(qs, [q]);
    FirstSeenSnoc(QuestionKeys(qs), CategoryKey(q.category));
  }
}
