/**
 * Order-preserving selection over a sequence, and the two ways the source
 * finds an element's position again: Python's `list.index` and
 * JavaScript's `findIndex`.
 *
 * `Select` keeps the passing elements together with their original
 * positions; `Filter` keeps only the elements, as a list comprehension or
 * `Array.prototype.filter` does.
 */
module Selection {

  /** The passing elements of `s`, each paired with its position in `s`, in order. */
  function Select<T>(s: seq<T>, p: T -> bool): (r: seq<(nat, T)>)
    ensures |r| <= |s|
  {
    if |s| == 0 then []
    else
      var rest := Select(s[..|s| - 1], p);
      if p(s[|s| - 1]) then rest + [(|s| - 1, s[|s| - 1])] else rest
  }

  /** The passing elements of `s`, in order. */
  function Filter<T>(s: seq<T>, p: T -> bool): (r: seq<T>)
    ensures |r| <= |s|
  {
    if |s| == 0 then []
    else
      var rest := Filter(s[..|s| - 1], p);
      if p(s[|s| - 1]) then rest + [s[|s| - 1]] else rest
  }

  /** Filtering one more element appends it when it passes. */
  lemma FilterSnoc<T>(s: seq<T>, x: T, p: T -> bool)
    ensures Filter(s + [x], p) == Filter(s, p) + (if p(x) then [x] else [])
  {
    assert (s + [x])[..|s|] == s;
  }

  /** The elements of a sequence of pairs. */
  function Values<T>(r: seq<(nat, T)>): (v: seq<T>)
    ensures |v| == |r| && forall k :: 0 <= k < |r| ==> v[k] == r[k].1
  {
    seq(|r|, k requires 0 <= k < |r| => r[k].1)
  }

  /** Every element paired with its own position. */
  function Enumerate<T>(s: seq<T>): (r: seq<(nat, T)>)
    ensures |r| == |s| && forall i :: 0 <= i < |s| ==> r[i] == (i, s[i])
  {
    seq(|s|, i requires 0 <= i < |s| => (i, s[i]))
  }

  /** Each kept pair names a position of `s`, holds the element there, and passes. */
  lemma {:induction false} SelectSound<T>(s: seq<T>, p: T -> bool, k: nat)
    requires k < |Select(s, p)|
    ensures Select(s, p)[k].0 < |s|
    ensures s[Select(s, p)[k].0] == Select(s, p)[k].1
    ensures p(Select(s, p)[k].1)
  {
    var s' := s[..|s| - 1];
    var rest := Select(s', p);
    if k < |rest| {
      SelectSound(s', p, k);
    }
  }

  /** Positions are strictly increasing: the original order is kept. */
  lemma {:induction false} SelectIncreasing<T>(s: seq<T>, p: T -> bool, k: nat, l: nat)
    requires k < l < |Select(s, p)|
    ensures Select(s, p)[k].0 < Select(s, p)[l].0
  {
    var s' := s[..|s| - 1];
    var rest := Select(s', p);
    if l < |rest| {
      SelectIncreasing(s', p, k, l);
    } else {
      SelectSound(s', p, k);
    }
  }

  /** Every passing position is kept. */
  lemma {:induction false} SelectComplete<T>(s: seq<T>, p: T -> bool, i: nat)
    requires i < |s| && p(s[i])
    ensures exists k :: 0 <= k < |Select(s, p)| && Select(s, p)[k].0 == i
  {
    var s' := s[..|s| - 1];
    var r := Select(s, p);
    if i == |s| - 1 {
      assert r[|r| - 1].0 == i;
    } else {
      SelectComplete(s', p, i);
      var k :| 0 <= k < |Select(s', p)| && Select(s', p)[k].0 == i;
      assert r[k] == Select(s', p)[k];
    }
  }

  /** A position is kept exactly when its element passes. */
  lemma SelectKeepsExactly<T>(s: seq<T>, p: T -> bool, i: nat)
    requires i < |s|
    ensures p(s[i]) <==> exists k :: 0 <= k < |Select(s, p)| && Select(s, p)[k].0 == i
  {
    if p(s[i]) {
      SelectComplete(s, p, i);
    }
    if exists k :: 0 <= k < |Select(s, p)| && Select(s, p)[k].0 == i {
      var k :| 0 <= k < |Select(s, p)| && Select(s, p)[k].0 == i;
      SelectSound(s, p, k);
    }
  }

  /** Dropping the positions gives the source's own filtered list. */
  lemma {:induction false} SelectValues<T>(s: seq<T>, p: T -> bool)
    ensures Values(Select(s, p)) == Filter(s, p)
  {
    if |s| > 0 {
      SelectValues(s[..|s| - 1], p);
    }
  }

  /** When everything passes, every element is kept at its own position. */
  lemma {:induction false} SelectAll<T>(s: seq<T>, p: T -> bool)
    requires forall i :: 0 <= i < |s| ==> p(s[i])
    ensures Select(s, p) == Enumerate(s)
  {
    if |s| > 0 {
      var s' := s[..|s| - 1];
      SelectAll(s', p);
    }
  }

  /** The filtered list holds exactly the passing elements of `s`. */
  lemma {:induction false} FilterMembers<T>(s: seq<T>, p: T -> bool, x: T)
    ensures x in Filter(s, p) <==> x in s && p(x)
  {
    if |s| > 0 {
      var s' := s[..|s| - 1];
      FilterMembers(s', p, x);
      assert s == s' + [s[|s| - 1]];
    }
  }

  /** When everything passes, the filtered list is the whole list. */
  lemma {:induction false} FilterAll<T>(s: seq<T>, p: T -> bool)
    requires forall i :: 0 <= i < |s| ==> p(s[i])
    ensures Filter(s, p) == s
  {
    if |s| > 0 {
      var s' := s[..|s| - 1];
      FilterAll(s', p);
      assert s == s' + [s[|s| - 1]];
    }
  }

  /** Python's `list.index(x)`: the first position holding an element equal to `x`. */
  function IndexOf<T(==)>(s: seq<T>, x: T): (i: nat)
    requires x in s
    ensures i < |s| && s[i] == x
    ensures forall j :: 0 <= j < i ==> s[j] != x
  {
    if s[0] == x then 0 else 1 + IndexOf(s[1..], x)
  }

  /**
   * JavaScript's `findIndex(p)`: the first position whose element passes, or
   * -1 when there is none.
   */
  function FindFirst<T>(s: seq<T>, p: T -> bool): (r: int)
    ensures -1 <= r < |s|
    ensures r >= 0 ==> p(s[r]) && forall j :: 0 <= j < r ==> !p(s[j])
    ensures r == -1 ==> forall j :: 0 <= j < |s| ==> !p(s[j])
  {
    if |s| == 0 then -1
    else if p(s[0]) then 0
    else
      var r := FindFirst(s[1..], p);
      if r == -1 then -1 else r + 1
  }

  /**
   * Looking up a kept element with `list.index` lands at or before the
   * position carried with it, on an equal element, and exactly on it when no
   * earlier element is equal.
   */
  lemma IndexOfSelected<T>(s: seq<T>, p: T -> bool, k: nat)
    requires k < |Select(s, p)|
    ensures Select(s, p)[k].0 < |s|
    ensures Select(s, p)[k].1 in s
    ensures IndexOf(s, Select(s, p)[k].1) <= Select(s, p)[k].0
    ensures IndexOf(s, Select(s, p)[k].1) == Select(s, p)[k].0
            <==> forall j :: 0 <= j < Select(s, p)[k].0 ==> s[j] != Select(s, p)[k].1
  {
    SelectSound(s, p, k);
  }

  /** On a list without duplicates, `list.index` gives back every element's own position. */
  lemma IndexOfDistinct<T>(s: seq<T>, i: nat)
    requires i < |s|
    requires forall j, k :: 0 <= j < k < |s| ==> s[j] != s[k]
    ensures IndexOf(s, s[i]) == i
  {
  }
}
