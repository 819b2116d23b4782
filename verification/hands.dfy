/**
 * The straight-flush test of src/poker/hands.py.
 *
 * The source collects, for each suit, the values of the cards of that suit in
 * input order; for every suit with at least five cards it appends 1 when an ace
 * is present, sorts the distinct values and scans for five that go up by one.
 */
module Hands {
  import opened Cards
  import opened Grouping
  import opened Runs

  /** The values of the cards of suit `s`, in input order: the source's per-suit list. */
  function SuitValues(cs: seq<Card>, s: char): seq<int> {
    ValuesOf(SuitGroup(cs, s))
  }

  /** One suit's check: at least five cards, and five consecutive values with the ace also as 1. */
  function SuitHasStraight(values: seq<int>): bool {
    |values| >= 5 && HasStraightValues(values)
  }

  /** The check on the suit of each card, in card order. */
  function SuitChecks(cs: seq<Card>): (bs: seq<bool>)
    ensures |bs| == |cs|
  {
    seq(|cs|, j requires 0 <= j < |cs| => SuitHasStraight(SuitValues(cs, cs[j].suit)))
  }

  /**
   * The loop over the suits, visited through the cards that carry them: it is true
   * when the check on the suit of some card at index `i` or later passes. Visiting a
   * suit again gives the same answer, so this is the loop over the distinct suits.
   */
  function AnySuitFrom(checks: seq<bool>, i: nat): bool
    decreases |checks| - i
  {
    i < |checks| && (checks[i] || AnySuitFrom(checks, i + 1))
  }

  lemma {:induction false} AnySuitFromSpec(checks: seq<bool>, i: nat)
    ensures AnySuitFrom(checks, i) <==> exists j :: i <= j < |checks| && checks[j]
    decreases |checks| - i
  {
    if i < |checks| {
      AnySuitFromSpec(checks, i + 1);
      if !checks[i] {
        forall j | i <= j < |checks| && checks[j]
          ensures i + 1 <= j
        {
        }
      }
    }
  }

  /** The straight-flush test over all the cards. */
  function StraightFlushIn(cs: seq<Card>): bool {
    AnySuitFrom(SuitChecks(cs), 0)
  }

  /** The test passes exactly when some suit has five cards or more and five consecutive values. */
  lemma StraightFlushInSpec(cs: seq<Card>)
    ensures StraightFlushIn(cs) <==> exists s :: SuitQualifies(cs, s)
  {
    var checks := SuitChecks(cs);
    AnySuitFromSpec(checks, 0);
    if StraightFlushIn(cs) {
      var j :| 0 <= j < |checks| && checks[j];
      SuitCheckIsQualifies(cs, cs[j].suit);
      assert SuitQualifies(cs, cs[j].suit);
    }
    if s :| SuitQualifies(cs, s) {
      var g := SuitGroup(cs, s);
      SuitGroupMultiset(cs, s);
      assert g[0] in multiset(g);
      var j :| 0 <= j < |cs| && cs[j] == g[0];
      SuitCheckIsQualifies(cs, s);
      assert checks[j];
    }
  }

  /** The source's per-suit check is `SuitQualifies`: the suit's list is as long as its group. */
  lemma SuitCheckIsQualifies(cs: seq<Card>, s: char)
    ensures SuitHasStraight(SuitValues(cs, s)) <==> SuitQualifies(cs, s)
  {
  }

  /**
   * `is_straight_flush(hand, board)`: some suit has at least five cards among which
   * five values are consecutive, the ace counting also as 1.
   */
  function IsStraightFlush(hand: seq<Card>, board: seq<Card>): (b: bool)
    ensures b <==> exists s :: SuitQualifies(hand + board, s)
  {
    StraightFlushInSpec(hand + board);
    StraightFlushIn(hand + board)
  }

  /** A value occurs in a suit's list exactly when some card of that suit has it. */
  lemma SuitValuesMembers(cs: seq<Card>, s: char, v: int)
    ensures v in SuitValues(cs, s) <==> Card(v, s) in cs
  {
    var g := SuitGroup(cs, s);
    SuitGroupMultiset(cs, s);
    if v in SuitValues(cs, s) {
      var i :| 0 <= i < |g| && g[i].value == v;
      assert g[i] in multiset(g);
      assert g[i] == Card(v, s);
    }
    if Card(v, s) in cs {
      assert Card(v, s) in multiset(g);
      var i :| 0 <= i < |g| && g[i] == Card(v, s);
      assert ValuesOf(g)[i] == v;
    }
  }

  /**
   * With values in 2 .. 14, five consecutive values (ace also as 1) need at least
   * five entries, so the source's "at least five cards" guard never changes the answer.
   */
  lemma RunNeedsFiveValues(values: seq<int>)
    requires forall i :: 0 <= i < |values| ==> ValidValue(values[i])
    requires HasRun(RankSet(values))
    ensures |values| >= 5
  {
    var lo :| RunFrom(RankSet(values), lo);
    FiveDistinctValues(values, lo);
    ElemsBound(values);
  }

  lemma FiveDistinctValues(values: seq<int>, lo: int)
    requires forall i :: 0 <= i < |values| ==> ValidValue(values[i])
    requires RunFrom(RankSet(values), lo)
    ensures |Elems(values)| >= 5
  {
    var e := Elems(values);
    if lo == 1 {
      assert 14 in values;
      assert 2 in e && 3 in e && 4 in e && 5 in e && 14 in e;
      FiveInSet(e, {14, 2, 3, 4, 5});
    } else {
      assert lo in values;
      assert lo in e && lo + 1 in e && lo + 2 in e && lo + 3 in e && lo + 4 in e;
      FiveConsecutiveInSet(e, lo);
    }
  }

  lemma FiveConsecutiveInSet(e: set<int>, lo: int)
    requires lo in e && lo + 1 in e && lo + 2 in e && lo + 3 in e && lo + 4 in e
    ensures |e| >= 5
  {
    FiveInSet(e, {lo, lo + 1, lo + 2, lo + 3, lo + 4});
  }

  lemma FiveInSet(e: set<int>, five: set<int>)
    requires five <= e && |five| == 5
    ensures |e| >= 5
  {
    SubsetCard(five, e);
  }

  /**
   * For parsed cards, the straight flush test depends only on which cards are
   * present: neither their order nor repeated cards change it.
   */
  lemma StraightFlushSetOnly(cs1: seq<Card>, cs2: seq<Card>)
    requires forall i :: 0 <= i < |cs1| ==> ValidValue(cs1[i].value)
    requires forall i :: 0 <= i < |cs2| ==> ValidValue(cs2[i].value)
    requires forall c :: c in cs1 <==> c in cs2
    ensures StraightFlushIn(cs1) == StraightFlushIn(cs2)
  {
    StraightFlushInSpec(cs1);
    StraightFlushInSpec(cs2);
    forall s
      ensures SuitQualifies(cs1, s) <==> SuitQualifies(cs2, s)
    {
      SuitSetOnly(cs1, cs2, s);
    }
    if StraightFlushIn(cs1) {
      var s :| SuitQualifies(cs1, s);
    }
    if StraightFlushIn(cs2) {
      var s :| SuitQualifies(cs2, s);
    }
  }

  /** Suit `s` has at least five cards, among which five values are consecutive. */
  ghost predicate SuitQualifies(cs: seq<Card>, s: char) {
    |SuitGroup(cs, s)| >= 5 && HasRun(RankSet(SuitValues(cs, s)))
  }

  /** One suit's check depends only on which parsed cards are present. */
  lemma SuitSetOnly(cs1: seq<Card>, cs2: seq<Card>, s: char)
    requires forall i :: 0 <= i < |cs1| ==> ValidValue(cs1[i].value)
    requires forall i :: 0 <= i < |cs2| ==> ValidValue(cs2[i].value)
    requires forall c :: c in cs1 <==> c in cs2
    ensures SuitQualifies(cs1, s) <==> SuitQualifies(cs2, s)
  {
    var v1, v2 := SuitValues(cs1, s), SuitValues(cs2, s);
    SuitValuesSame(cs1, cs2, s);
    ValidSuitValues(cs1, s);
    ValidSuitValues(cs2, s);
    if HasRun(RankSet(v1)) {
      RunGrows(v1, v2);
      RunNeedsFiveValues(v1);
      RunNeedsFiveValues(v2);
    } else if HasRun(RankSet(v2)) {
      RunGrows(v2, v1);
    }
  }

  /** The same cards give every suit the same values. */
  lemma SuitValuesSame(cs1: seq<Card>, cs2: seq<Card>, s: char)
    requires forall c :: c in cs1 <==> c in cs2
    ensures forall v :: v in SuitValues(cs1, s) <==> v in SuitValues(cs2, s)
  {
    forall v
      ensures v in SuitValues(cs1, s) <==> v in SuitValues(cs2, s)
    {
      SuitValuesMembers(cs1, s, v);
      SuitValuesMembers(cs2, s, v);
    }
  }

  lemma ValidSuitValues(cs: seq<Card>, s: char)
    requires forall i :: 0 <= i < |cs| ==> ValidValue(cs[i].value)
    ensures forall i :: 0 <= i < |SuitValues(cs, s)| ==> ValidValue(SuitValues(cs, s)[i])
  {
    var g := SuitGroup(cs, s);
    SuitGroupMultiset(cs, s);
    forall i | 0 <= i < |g|
      ensures ValidValue(g[i].value)
    {
      assert g[i] in multiset(g);
      assert g[i] in cs;
    }
  }

  /** A straight flush is in particular a straight: the suit's values are among all the values. */
  lemma StraightFlushIsStraight(cs: seq<Card>)
    requires StraightFlushIn(cs)
    ensures HasRun(RankSet(ValuesOf(cs)))
  {
    StraightFlushInSpec(cs);
    var s :| SuitQualifies(cs, s);
    var lo :| RunFrom(RankSet(SuitValues(cs, s)), lo);
    SuitValuesAmongValues(cs, s);
    RankSetGrows(SuitValues(cs, s), ValuesOf(cs));
    assert RunFrom(RankSet(ValuesOf(cs)), lo);
  }

  /** A suit's values are among all the values. */
  lemma SuitValuesAmongValues(cs: seq<Card>, s: char)
    ensures forall v :: v in SuitValues(cs, s) ==> v in ValuesOf(cs)
  {
    forall v | v in SuitValues(cs, s)
      ensures v in ValuesOf(cs)
    {
      SuitValuesMembers(cs, s, v);
      var i :| 0 <= i < |cs| && cs[i] == Card(v, s);
      assert ValuesOf(cs)[i] == v;
    }
  }

  /** A suit whose values hold five consecutive integers makes a straight flush. */
  lemma SuitRunIsStraightFlush(cs: seq<Card>, s: char, lo: int)
    requires forall i :: 0 <= i < |cs| ==> ValidValue(cs[i].value)
    requires RunFrom(RankSet(SuitValues(cs, s)), lo)
    ensures StraightFlushIn(cs)
  {
    StraightFlushInSpec(cs);
    ValidSuitValues(cs, s);
    RunNeedsFiveValues(SuitValues(cs, s));
    assert SuitQualifies(cs, s);
  }

  /** The wheel: ace, 2, 3, 4 and 5 of one suit make a straight flush, the ace counting as 1. */
  lemma WheelIsStraightFlush(cs: seq<Card>, s: char)
    requires forall i :: 0 <= i < |cs| ==> ValidValue(cs[i].value)
    requires Card(14, s) in cs && Card(2, s) in cs && Card(3, s) in cs && Card(4, s) in cs && Card(5, s) in cs
    ensures StraightFlushIn(cs)
  {
    SuitValuesMembers(cs, s, 14);
    SuitValuesMembers(cs, s, 2);
    SuitValuesMembers(cs, s, 3);
    SuitValuesMembers(cs, s, 4);
    SuitValuesMembers(cs, s, 5);
    SuitRunIsStraightFlush(cs, s, 1);
  }

  /** The royal flush: 10, jack, queen, king and ace of one suit make a straight flush. */
  lemma RoyalIsStraightFlush(cs: seq<Card>, s: char)
    requires forall i :: 0 <= i < |cs| ==> ValidValue(cs[i].value)
    requires Card(10, s) in cs && Card(11, s) in cs && Card(12, s) in cs && Card(13, s) in cs && Card(14, s) in cs
    ensures StraightFlushIn(cs)
  {
    SuitValuesMembers(cs, s, 10);
    SuitValuesMembers(cs, s, 11);
    SuitValuesMembers(cs, s, 12);
    SuitValuesMembers(cs, s, 13);
    SuitValuesMembers(cs, s, 14);
    SuitRunIsStraightFlush(cs, s, 10);
  }
}
