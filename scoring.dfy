/**
 * How questions are counted into a category bucket, the accuracy shown for
 * a bucket (with its zero-denominator rule), and the colour band an
 * accuracy is drawn in.
 */
module Scoring {
  import opened Records
  import opened Selection

  /**
   * The counters a scan of `qs` leaves in one bucket: every question adds 1
   * to `total`, then 1 to `invalid` if it is invalid, else 1 to `correct` if
   * it is correct.
   */
  function Tally(qs: seq<Question>): Counts {
    if |qs| == 0 then NoCounts else Count(Tally(qs[..|qs| - 1]), qs[|qs| - 1])
  }

  /** One question's contribution to a bucket. */
  function Count(c: Counts, q: Question): Counts {
    if q.isInvalid then Counts(c.correct, c.total + 1, c.invalid + 1)
    else if q.isCorrect then Counts(c.correct + 1, c.total + 1, c.invalid)
    else Counts(c.correct, c.total + 1, c.invalid)
  }

  lemma TallySnoc(qs: seq<Question>, q: Question)
    ensures Tally(qs + [q]) == Count(Tally(qs), q)
  {
    assert (qs + [q])[..|qs|] == qs;
  }

  predicate IsInvalid(q: Question) { q.isInvalid }

  predicate IsCorrectValid(q: Question) { q.isCorrect && !q.isInvalid }

  /**
   * A tally counts every question once, splits them by class, and so never
   * has more correct and invalid answers than questions.
   */
  lemma {:induction false} TallyCounts(qs: seq<Question>)
    ensures Tally(qs).total == |qs|
    ensures Tally(qs).invalid == |Filter(qs, IsInvalid)|
    ensures Tally(qs).correct == |Filter(qs, IsCorrectValid)|
    ensures 0 <= Tally(qs).correct && 0 <= Tally(qs).invalid
    ensures Tally(qs).correct + Tally(qs).invalid <= Tally(qs).total
  {
    if |qs| > 0 {
      TallyCounts(qs[..|qs| - 1]);
    }
  }

  /** Scanning two runs of questions one after the other adds their tallies. */
  lemma {:induction false} TallyAppend(a: seq<Question>, b: seq<Question>)
    ensures Tally(a + b) == Add(Tally(a), Tally(b))
    decreases |b|
  {
    if |b| > 0 {
      var b' := b[..|b| - 1];
      assert (a + b)[..|a + b| - 1] == a + b';
      TallyAppend(a, b');
    } else {
      assert a + b == a;
    }
  }

  function Add(x: Counts, y: Counts): Counts {
    Counts(x.correct + y.correct, x.total + y.total, x.invalid + y.invalid)
  }

  // ---------------------------------------------------------------- accuracy

  /**
   * A bucket's accuracy in percent: correct answers over the questions that
   * are not invalid, and 0 when there are none, so that a bucket holding
   * only invalid questions shows 0 rather than failing.
   */
  function Accuracy(c: Counts): (r: real)
    ensures c.total - c.invalid <= 0 ==> r == 0.0
    ensures 0 <= c.correct <= c.total - c.invalid ==> 0.0 <= r <= 100.0
    ensures 0 < c.correct == c.total - c.invalid ==> r == 100.0
  {
    if c.total - c.invalid > 0 then
      var d := (c.total - c.invalid) as real;
      AccuracyBound(c.correct as real, d);
      c.correct as real / d * 100.0
    else 0.0
  }

  lemma AccuracyBound(n: real, d: real)
    requires d > 0.0
    ensures 0.0 <= n <= d ==> 0.0 <= n / d * 100.0 <= 100.0
    ensures n == d ==> n / d * 100.0 == 100.0
  {
    if 0.0 <= n <= d {
      assert n / d <= 1.0;
    }
  }

  /** A tallied bucket always has an accuracy between 0 and 100. */
  lemma TallyAccuracyBounded(qs: seq<Question>)
    ensures 0.0 <= Accuracy(Tally(qs)) <= 100.0
  {
    TallyCounts(qs);
  }

  /**
   * A category card of the web pages: the bucket's name, its accuracy under
   * the zero-denominator rule, and its correct and total counters.
   */
  datatype BucketCard = BucketCard(name: string, accuracy: real, correct: int, total: int)

  function BucketCardOf(b: Bucket): BucketCard {
    BucketCard(b.name, Accuracy(b.counts), b.counts.correct, b.counts.total)
  }

  // ---------------------------------------------------------------- colour

  /** The colour an accuracy is drawn in: green, yellow, red. */
  datatype Band = Green | Yellow | Red

  /** `>= 70` green, else `>= 50` yellow, else red. */
  function BandOf(accuracy: real): (b: Band)
    ensures b == Green <==> accuracy >= 70.0
    ensures b == Yellow <==> 50.0 <= accuracy < 70.0
    ensures b == Red <==> accuracy < 50.0
  {
    if accuracy >= 70.0 then Green else if accuracy >= 50.0 then Yellow else Red
  }

  function Rank(b: Band): nat {
    match b
    case Red => 0
    case Yellow => 1
    case Green => 2
  }

  /** A higher accuracy is never drawn in a worse colour. */
  lemma BandMonotone(a: real, b: real)
    requires a <= b
    ensures Rank(BandOf(a)) <= Rank(BandOf(b))
  {
  }
}
