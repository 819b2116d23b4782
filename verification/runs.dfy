/**
 * Runs of consecutive values, with the ace also counted as 1.
 *
 * Both straight detectors and the best-straight selector add a value 1 when an ace
 * (14) is present, reduce the values to a strictly increasing sequence and look
 * for five neighbours that differ by exactly one. This module states what that
 * search means: five consecutive integers in the set of values.
 */
module Runs {

  /** Values that increase strictly from left to right. */
  predicate StrictlyIncreasing(xs: seq<int>) {
    forall i, j :: 0 <= i < j < |xs| ==> xs[i] < xs[j]
  }

  /** The values usable in a straight: the values themselves, plus 1 when an ace (14) is among them. */
  function RankSet(values: seq<int>): set<int> {
    Elems(values) + (if 14 in values then {1} else {})
  }

  function Elems(xs: seq<int>): set<int> {
    set x | x in xs
  }

  /** `lo`, `lo + 1`, ..., `lo + 4` are all in `s`. */
  predicate RunFrom(s: set<int>, lo: int) {
    lo in s && lo + 1 in s && lo + 2 in s && lo + 3 in s && lo + 4 in s
  }

  /** More values give more ranks. */
  lemma RankSetGrows(a: seq<int>, b: seq<int>)
    requires forall v :: v in a ==> v in b
    ensures RankSet(a) <= RankSet(b)
  {
    forall x | x in RankSet(a)
      ensures x in RankSet(b)
    {
      if x in Elems(a) {
        assert x in a;
      } else {
        assert 14 in a;
      }
    }
  }

  /** `s` holds five consecutive integers. */
  ghost predicate HasRun(s: set<int>) {
    exists lo :: RunFrom(s, lo)
  }

  /** Five consecutive ranks stay five consecutive ranks when values are added. */
  lemma RunGrows(a: seq<int>, b: seq<int>)
    requires forall v :: v in a ==> v in b
    requires HasRun(RankSet(a))
    ensures HasRun(RankSet(b))
  {
    var lo :| RunFrom(RankSet(a), lo);
    RankSetGrows(a, b);
    assert RunFrom(RankSet(b), lo);
  }

  /** The entry at index `k` is one more than the entry before it. */
  predicate StepUp(xs: seq<int>, k: int)
    requires 0 < k < |xs|
  {
    xs[k] == xs[k - 1] + 1
  }

  /** The `len` entries of `xs` from index `a` on go up by exactly one at each step. */
  predicate Consec(xs: seq<int>, a: int, len: int) {
    && 0 <= a && 0 <= len && a + len <= |xs|
    && forall k :: a < k < a + len ==> StepUp(xs, k)
  }

  /** Inserts `x` into a strictly increasing sequence unless it is already there. */
  function InsertUnique(x: int, xs: seq<int>): (r: seq<int>)
    requires StrictlyIncreasing(xs)
    ensures StrictlyIncreasing(r)
    ensures forall y :: y in r <==> y == x || y in xs
  {
    if |xs| == 0 then [x]
    else if x < xs[0] then [x] + xs
    else if x == xs[0] then xs
    else
      var rest := InsertUnique(x, xs[1..]);
      assert forall y :: y in xs <==> y == xs[0] || y in xs[1..] by {
        assert xs == [xs[0]] + xs[1..];
      }
      assert forall j :: 0 <= j < |rest| ==> xs[0] < rest[j] by {
        forall j | 0 <= j < |rest|
          ensures xs[0] < rest[j]
        {
          assert rest[j] in rest;
        }
      }
      [xs[0]] + rest
  }

  /** The distinct values in increasing order: `sorted(set(values))`. */
  function SortedSet(xs: seq<int>): (r: seq<int>)
    ensures StrictlyIncreasing(r)
    ensures Elems(r) == Elems(xs)
  {
    if |xs| == 0 then []
    else
      var u := SortedSet(xs[1..]);
      var r := InsertUnique(xs[0], u);
      assert xs == [xs[0]] + xs[1..];
      forall y
        ensures y in Elems(r) <==> y in Elems(xs)
      {
        assert y in Elems(u) <==> y in u;
        assert y in Elems(xs[1..]) <==> y in xs[1..];
      }
      r
  }

  /** The values with a 1 appended when an ace is present. */
  function WithAceLow(values: seq<int>): (r: seq<int>)
    ensures Elems(r) == RankSet(values)
  {
    if 14 in values then values + [1] else values
  }

  /**
   * The scan over a strictly increasing sequence `u`: `consecutive` counts the run
   * of +1 steps ending at `u[i - 1]`; the scan answers true as soon as a run reaches
   * five values, and a gap restarts the count at one.
   */
  function ScanFrom(u: seq<int>, i: nat, consecutive: int): bool
    requires 1 <= i <= |u|
    decreases |u| - i
  {
    if i == |u| then false
    else if u[i] == u[i - 1] + 1 then
      consecutive + 1 >= 5 || ScanFrom(u, i + 1, consecutive + 1)
    else
      ScanFrom(u, i + 1, 1)
  }

  /** The scan started as the source starts it: a count of one at index 1; false on an empty sequence. */
  function FiveConsecutive(u: seq<int>): bool {
    |u| > 0 && ScanFrom(u, 1, 1)
  }

  /**
   * The scan from index `i`, with a count `c` matching a run that ends at `u[i - 1]`,
   * finds exactly the windows of five +1 steps that start at or after that run's start.
   */
  lemma {:induction false} ScanFromFindsWindow(u: seq<int>, i: nat, c: int)
    requires 1 <= i <= |u| && 1 <= c <= 4 && c <= i
    requires Consec(u, i - c, c)
    ensures ScanFrom(u, i, c) <==> exists k :: i - c <= k && Consec(u, k, 5)
    decreases |u| - i
  {
    if i < |u| {
      forall k | i - c <= k < i && Consec(u, k, 5)
        ensures StepUp(u, i)
      {
      }
    }
    if i == |u| {
    } else if u[i] == u[i - 1] + 1 {
      assert Consec(u, i - c, c + 1);
      if c + 1 >= 5 {
        assert Consec(u, i - c, 5);
      } else {
        ScanFromFindsWindow(u, i + 1, c + 1);
      }
    } else {
      ScanFromFindsWindow(u, i + 1, 1);
    }
  }

  /** The scan answers true exactly when some five neighbours go up by one at each step. */
  lemma FiveConsecutiveWindow(u: seq<int>)
    ensures FiveConsecutive(u) <==> exists k :: Consec(u, k, 5)
  {
    if |u| > 0 {
      assert Consec(u, 0, 1);
      ScanFromFindsWindow(u, 1, 1);
    }
  }

  /** In a strictly increasing sequence, if the successor of `xs[a]` occurs, it is `xs[a + 1]`. */
  lemma NextIsSuccessor(xs: seq<int>, a: int)
    requires StrictlyIncreasing(xs) && 0 <= a < |xs| && xs[a] + 1 in xs
    ensures a + 1 < |xs| && xs[a + 1] == xs[a] + 1
  {
    var p :| 0 <= p < |xs| && xs[p] == xs[a] + 1;
    assert a < p;
    assert xs[a] < xs[a + 1] <= xs[p];
  }

  /** Five entries going up by one give five consecutive values. */
  lemma WindowGivesRun(xs: seq<int>, k: int)
    requires Consec(xs, k, 5)
    ensures RunFrom(Elems(xs), xs[k])
  {
    assert StepUp(xs, k + 1) && StepUp(xs, k + 2) && StepUp(xs, k + 3) && StepUp(xs, k + 4);
    assert xs[k] in xs && xs[k + 1] in xs && xs[k + 2] in xs && xs[k + 3] in xs && xs[k + 4] in xs;
  }

  /** In strictly increasing values, five consecutive values sit side by side. */
  lemma RunGivesWindow(xs: seq<int>, lo: int)
    requires StrictlyIncreasing(xs) && RunFrom(Elems(xs), lo)
    ensures exists a :: Consec(xs, a, 5)
  {
    assert lo in xs;
    var a :| 0 <= a < |xs| && xs[a] == lo;
    NextIsSuccessor(xs, a);
    NextIsSuccessor(xs, a + 1);
    NextIsSuccessor(xs, a + 2);
    NextIsSuccessor(xs, a + 3);
    assert StepUp(xs, a + 1) && StepUp(xs, a + 2) && StepUp(xs, a + 3) && StepUp(xs, a + 4);
    assert Consec(xs, a, 5);
  }

  /**
   * For strictly increasing values, a window of five +1 steps exists exactly when
   * the set of values holds five consecutive integers.
   */
  lemma WindowIffRun(xs: seq<int>)
    requires StrictlyIncreasing(xs)
    ensures (exists k :: Consec(xs, k, 5)) <==> HasRun(Elems(xs))
  {
    if k :| Consec(xs, k, 5) {
      WindowGivesRun(xs, k);
    }
    if lo :| RunFrom(Elems(xs), lo) {
      RunGivesWindow(xs, lo);
    }
  }

  /**
   * The detector used by both straight tests: append 1 for an ace, take the sorted
   * distinct values and scan them. It holds exactly when the values, ace also as 1,
   * contain five consecutive integers.
   */
  function HasStraightValues(values: seq<int>): (b: bool)
    ensures b <==> HasRun(RankSet(values))
  {
    var u := SortedSet(WithAceLow(values));
    FiveConsecutiveWindow(u);
    WindowIffRun(u);
    FiveConsecutive(u)
  }
  /** The number of distinct values bounds the number of entries from below. */
  lemma {:induction false} ElemsBound(xs: seq<int>)
    ensures |Elems(xs)| <= |xs|
  {
    if |xs| > 0 {
      ElemsBound(xs[1..]);
      assert Elems(xs) == {xs[0]} + Elems(xs[1..]);
    }
  }

  lemma SubsetCard(a: set<int>, b: set<int>)
    requires a <= b
    ensures |a| <= |b|
  {
    assert b == a + (b - a);
  }

  /** The integers `a`, `a + 1`, ..., `a + n - 1`. */
  function Range(a: int, n: nat): (r: set<int>)
    ensures forall x :: x in r <==> a <= x < a + n
  {
    if n == 0 then {} else Range(a, n - 1) + {a + n - 1}
  }

  lemma {:induction false} RangeSize(a: int, n: nat)
    ensures |Range(a, n)| == n
  {
    if n > 0 {
      RangeSize(a, n - 1);
      var below := Range(a, n - 1);
      assert a + n - 1 !in below;
      assert |below + {a + n - 1}| == |below| + 1;
    }
  }

  /**
   * Two runs of five, the lower one not followed by its sixth value, are disjoint:
   * a set holding both has at least ten elements.
   */
  lemma TwoRunsNeedTen(s: set<int>, lo: int, hi: int)
    requires RunFrom(s, lo) && RunFrom(s, hi) && lo + 5 !in s
    ensures lo < hi ==> |s| >= 10
  {
    if lo < hi {
      assert hi <= lo + 5 ==> lo + 5 in {hi, hi + 1, hi + 2, hi + 3, hi + 4};
      RangesDisjoint(lo, hi);
      RangeInRun(s, lo);
      RangeInRun(s, hi);
      SubsetCard(Range(lo, 5) + Range(hi, 5), s);
    }
  }

  lemma RangeInRun(s: set<int>, lo: int)
    requires RunFrom(s, lo)
    ensures Range(lo, 5) <= s
  {
    forall x | x in Range(lo, 5)
      ensures x in s
    {
      assert x == lo || x == lo + 1 || x == lo + 2 || x == lo + 3 || x == lo + 4;
    }
  }

  lemma RangesDisjoint(lo: int, hi: int)
    requires lo + 5 < hi
    ensures |Range(lo, 5) + Range(hi, 5)| == 10
  {
    RangeSize(lo, 5);
    RangeSize(hi, 5);
    assert Range(lo, 5) * Range(hi, 5) == {};
  }

  /** Adding the low ace adds at most one value. */
  lemma RankSetSize(values: seq<int>)
    ensures |RankSet(values)| <= |values| + 1
  {
    ElemsBound(values);
  }

  /** In a set of at most nine values, a run of five not followed by its sixth value is the highest run. */
  lemma HighestRun(s: set<int>, lo: int)
    requires RunFrom(s, lo) && lo + 5 !in s && |s| <= 9
    ensures forall hi :: RunFrom(s, hi) ==> hi <= lo
  {
    forall hi | RunFrom(s, hi)
      ensures hi <= lo
    {
      TwoRunsNeedTen(s, lo, hi);
    }
  }

  /**
   * With values in 2 .. 14, a run starts at 1 (the wheel) to 10 (ending at the ace):
   * no run goes round from the king or the ace to the 2.
   */
  lemma RunsDoNotWrap(values: seq<int>, lo: int)
    requires forall i :: 0 <= i < |values| ==> 2 <= values[i] <= 14
    requires RunFrom(RankSet(values), lo)
    ensures 1 <= lo <= 10
  {
    assert lo in RankSet(values) && lo + 4 in RankSet(values);
  }

  /** Queen, king, ace, 2 and 3 are not a run: the ace counts as 14 or 1, never between them. */
  lemma WrapIsNoRun(values: seq<int>)
    requires Elems(values) == {12, 13, 14, 2, 3}
    ensures !HasRun(RankSet(values))
  {
    assert 14 in Elems(values);
    assert RankSet(values) == {1, 2, 3, 12, 13, 14};
  }

  /** Whether the values hold a run depends only on which values occur, not on repeats or order. */
  lemma RunSetOnly(v1: seq<int>, v2: seq<int>)
    requires Elems(v1) == Elems(v2)
    ensures RankSet(v1) == RankSet(v2)
    ensures HasStraightValues(v1) == HasStraightValues(v2)
  {
    assert (14 in v1) == (14 in Elems(v1));
    assert (14 in v2) == (14 in Elems(v2));
  }
}
