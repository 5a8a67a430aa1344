/**
 * The question list of an item page (visualizer-web/components/question-list.tsx):
 * the category choices, the correctness and category filters, the icon of
 * each listed question and the question number it is shown under.
 */
module QuestionList {
  import opened Strings
  import opened Records
  import opened Selection
  import opened CategoryNames

  /** The name a question is listed and filtered under. */
  function DisplayCategory(q: Question): string {
    CategoryName(q.category)
  }

  function DisplayNames(qs: seq<Question>): (r: seq<string>)
    ensures |r| == |qs| && forall i :: 0 <= i < |qs| ==> r[i] == DisplayCategory(qs[i])
  {
    seq(|qs|, i requires 0 <= i < |qs| => DisplayCategory(qs[i]))
  }

  /**
   * The `categories` memo: the display names collected into a set in
   * question order, then sorted. The result is sorted, has no duplicates and
   * holds exactly the names some question is shown under.
   */
  method Categories(questions: seq<Question>) returns (cats: seq<string>)
    ensures cats == Sort(FirstSeen(DisplayNames(questions)))
    ensures Sorted(cats) && Distinct(cats)
    ensures forall c :: c in cats <==> exists i :: 0 <= i < |questions| && DisplayCategory(questions[i]) == c
  {
    var categorySet: seq<string> := [];
    for i := 0 to |questions|
      invariant categorySet == FirstSeen(DisplayNames(questions[..i]))
    {
      var cat := DisplayCategory(questions[i]);
      assert DisplayNames(questions[..i + 1]) == DisplayNames(questions[..i]) + [cat];
      FirstSeenSnoc(DisplayNames(questions[..i]), cat);
      if cat !in categorySet {
        categorySet := categorySet + [cat];
      }
    }
    assert questions[..|questions|] == questions;
    FirstSeenMembers(DisplayNames(questions));
    SortDistinct(categorySet);
    cats := Sort(categorySet);
    forall c | c in cats
      ensures exists i :: 0 <= i < |questions| && DisplayCategory(questions[i]) == c
    {
      var i :| 0 <= i < |DisplayNames(questions)| && DisplayNames(questions)[i] == c;
    }
  }

  /** The correctness filter on one question. */
  predicate PassesCorrectness(f: CorrectnessFilter, q: Question) {
    match f
    case All => true
    case InvalidOnly => q.isInvalid
    case CorrectOnly => q.isCorrect && !q.isInvalid
    case IncorrectOnly => !q.isCorrect && !q.isInvalid
  }

  /** The category filter on one question: `"all"` or the question's display name. */
  predicate PassesCategory(selected: string, q: Question) {
    selected == "all" || DisplayCategory(q) == selected
  }

  function QuestionPasses(f: CorrectnessFilter, selected: string): Question -> bool {
    q => PassesCorrectness(f, q) && PassesCategory(selected, q)
  }

  /** The `filteredQuestions` memo. */
  function FilteredQuestions(questions: seq<Question>, f: CorrectnessFilter, selected: string): seq<Question> {
    Filter(questions, QuestionPasses(f, selected))
  }

  /** Each correctness filter besides `All` keeps exactly one class of question. */
  lemma CorrectnessIsClass(f: CorrectnessFilter, q: Question)
    ensures f == InvalidOnly ==> (PassesCorrectness(f, q) <==> Classify(q) == Invalid)
    ensures f == CorrectOnly ==> (PassesCorrectness(f, q) <==> Classify(q) == Correct)
    ensures f == IncorrectOnly ==> (PassesCorrectness(f, q) <==> Classify(q) == Incorrect)
  {
  }

  /** A listed question passes both filters, and every question passing both is listed. */
  lemma FilteredMeaning(questions: seq<Question>, f: CorrectnessFilter, selected: string, q: Question)
    ensures q in FilteredQuestions(questions, f, selected)
            <==> q in questions && PassesCorrectness(f, q) && PassesCategory(selected, q)
  {
    FilterMembers(questions, QuestionPasses(f, selected), q);
  }

  /** Choosing any offered category, with no correctness filter, lists at least one question. */
  lemma OfferedCategoryListsSomething(questions: seq<Question>, c: string)
    requires exists i :: 0 <= i < |questions| && DisplayCategory(questions[i]) == c
    ensures |FilteredQuestions(questions, All, c)| > 0
  {
    var i :| 0 <= i < |questions| && DisplayCategory(questions[i]) == c;
    FilterMembers(questions, QuestionPasses(All, c), questions[i]);
  }

  /** The three filters besides `All` split the questions with nothing left over. */
  lemma {:induction false} FiltersPartition(questions: seq<Question>, selected: string)
    ensures |FilteredQuestions(questions, InvalidOnly, selected)| + |FilteredQuestions(questions, CorrectOnly, selected)|
            + |FilteredQuestions(questions, IncorrectOnly, selected)| == |FilteredQuestions(questions, All, selected)|
  {
    if |questions| > 0 {
      var init := questions[..|questions| - 1];
      var q := questions[|questions| - 1];
      FiltersPartition(init, selected);
      assert questions == init + [q];
      FilterSnoc(init, q, QuestionPasses(InvalidOnly, selected));
      FilterSnoc(init, q, QuestionPasses(CorrectOnly, selected));
      FilterSnoc(init, q, QuestionPasses(IncorrectOnly, selected));
      FilterSnoc(init, q, QuestionPasses(All, selected));
    }
  }

  // ---------------------------------------------------------------- one listed question

  /** The marker drawn before a question: warning, check mark or cross. */
  datatype Icon = Warning | Check | Cross

  /** `isInvalid ? '⚠️' : isCorrect ? '✅' : '❌'`, the border colour following suit. */
  function IconOf(q: Question): (icon: Icon)
    ensures icon == Warning <==> Classify(q) == Invalid
    ensures icon == Check <==> Classify(q) == Correct
    ensures icon == Cross <==> Classify(q) == Incorrect
  {
    if q.isInvalid then Warning else if q.isCorrect then Check else Cross
  }

  /** Under a correctness filter every listed question carries that filter's icon. */
  lemma FilteredIcons(questions: seq<Question>, f: CorrectnessFilter, selected: string, k: nat)
    requires k < |FilteredQuestions(questions, f, selected)|
    ensures var q := FilteredQuestions(questions, f, selected)[k];
      && (f == InvalidOnly ==> IconOf(q) == Warning)
      && (f == CorrectOnly ==> IconOf(q) == Check)
      && (f == IncorrectOnly ==> IconOf(q) == Cross)
  {
    var q := FilteredQuestions(questions, f, selected)[k];
    FilteredMeaning(questions, f, selected, q);
  }

  /**
   * The number a listed question is shown under, as written: one more than
   * the first position of a question with the same text.
   */
  function QuestionNumberAsWritten(questions: seq<Question>, listed: Question): int {
    FindFirst(questions, (q: Question) => q.text == listed.text) + 1
  }

  /**
   * Two questions with the same text but different verdicts: filtering for
   * incorrect answers lists only the second, yet it is numbered 1.
   */
  lemma DuplicateTextMisnumbers()
    ensures var first := Question("When?", Num(2), true, false);
      var second := Question("When?", Num(2), false, false);
      var listed := FilteredQuestions([first, second], IncorrectOnly, "all");
      && listed == [second]
      && QuestionNumberAsWritten([first, second], listed[0]) == 1
  {
    var first := Question("When?", Num(2), true, false);
    var second := Question("When?", Num(2), false, false);
    var p := QuestionPasses(IncorrectOnly, "all");
    assert [first, second][..1] == [first];
    assert [first][..0] == [];
    assert Filter([first, second], p) == [second];
  }

  /** The listed questions as evidently intended: each with its own position. */
  function NumberedQuestions(questions: seq<Question>, f: CorrectnessFilter, selected: string): seq<(nat, Question)> {
    Select(questions, QuestionPasses(f, selected))
  }

  /**
   * Numbering by carried position shows every listed question under its own
   * number, lists the same questions as the filter, and agrees with the
   * number as written whenever question texts are distinct.
   */
  lemma NumberedQuestionsCorrect(questions: seq<Question>, f: CorrectnessFilter, selected: string, k: nat)
    requires k < |NumberedQuestions(questions, f, selected)|
    ensures var n := NumberedQuestions(questions, f, selected);
      && n[k].0 < |questions| && questions[n[k].0] == n[k].1
      && Values(n) == FilteredQuestions(questions, f, selected)
    ensures var n := NumberedQuestions(questions, f, selected);
      (forall i, j :: 0 <= i < j < |questions| ==> questions[i].text != questions[j].text)
      ==> QuestionNumberAsWritten(questions, n[k].1) == n[k].0 + 1
  {
    var n := NumberedQuestions(questions, f, selected);
    SelectSound(questions, QuestionPasses(f, selected), k);
    SelectValues(questions, QuestionPasses(f, selected));
  }
}
