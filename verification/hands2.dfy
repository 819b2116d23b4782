/**
 * The category tests of src/hands2.py: straight, three of a kind, two pair, one
 * pair and high card over the seven cards `hand + board`.
 *
 * The pair-like tests count the values in a dictionary (`value_counts`) and then
 * look at the counts; `ValueCounts` is that dictionary, and each test is stated
 * against `Count`, the number of cards of a value.
 */
module Hands2 {
  import opened Cards
  import opened Grouping
  import opened Runs
  import Hands

  /** `is_straight(hand, board)`: five consecutive values, the ace counting also as 1. */
  function IsStraight(hand: seq<Card>, board: seq<Card>): (b: bool)
    ensures b <==> HasRun(RankSet(ValuesOf(hand + board)))
  {
    HasStraightValues(ValuesOf(hand + board))
  }

  /** The counting loop: `m[v] = m.get(v, 0) + 1` for each value in turn. */
  function Tally(m: map<int, nat>, values: seq<int>): (r: map<int, nat>)
    ensures r.Keys == m.Keys + Elems(values)
    ensures forall v :: v in r ==> r[v] == (if v in m then m[v] else 0) + multiset(values)[v]
    decreases |values|
  {
    if |values| == 0 then m
    else
      var v := values[0];
      assert values == [v] + values[1..];
      assert Elems(values) == {v} + Elems(values[1..]);
      Tally(m[v := (if v in m then m[v] else 0) + 1], values[1..])
  }

  /** `value_counts`: each value that occurs, mapped to how often it occurs. */
  function ValueCounts(values: seq<int>): (m: map<int, nat>)
    ensures m.Keys == Elems(values)
    ensures forall v :: v in m ==> m[v] == multiset(values)[v]
  {
    Tally(map[], values)
  }

  /** `any(count >= n for count in value_counts.values())`. */
  predicate SomeCountAtLeast(m: map<int, nat>, n: nat) {
    exists v | v in m :: m[v] >= n
  }

  /** The values counted at least twice: the pairs the two-pair test sums up. */
  function PairValues(m: map<int, nat>): set<int> {
    set v | v in m && m[v] >= 2
  }

  /** The number of cards of a value is the multiplicity of that value among the cards' values. */
  lemma {:induction false} CountIsMultiplicity(cs: seq<Card>, v: int)
    ensures Count(cs, v) == multiset(ValuesOf(cs))[v]
  {
    if |cs| > 0 {
      CountIsMultiplicity(cs[1..], v);
      assert cs == [cs[0]] + cs[1..];
      ValueGroupAppend([cs[0]], cs[1..], v);
      assert ValuesOf(cs) == [cs[0].value] + ValuesOf(cs[1..]);
    }
  }

  /** A value is a key of the dictionary exactly when some card has it, and its count is the cards' count. */
  lemma CountOfValue(cs: seq<Card>, v: int)
    ensures v in ValueCounts(ValuesOf(cs)) <==> exists c :: c in cs && c.value == v
    ensures v in ValueCounts(ValuesOf(cs)) ==> ValueCounts(ValuesOf(cs))[v] == Count(cs, v)
  {
    var vs := ValuesOf(cs);
    CountIsMultiplicity(cs, v);
    if v in vs {
      var i :| 0 <= i < |cs| && vs[i] == v;
      assert cs[i] in cs;
    }
    if c :| c in cs && c.value == v {
      var i :| 0 <= i < |cs| && cs[i] == c;
      assert vs[i] == v;
    }
  }

  /** The dictionary's counts are the cards' counts, for every card. */
  lemma CountsOfCards(cs: seq<Card>, n: nat)
    ensures SomeCountAtLeast(ValueCounts(ValuesOf(cs)), n) <==> exists c :: c in cs && Count(cs, c.value) >= n
  {
    var m := ValueCounts(ValuesOf(cs));
    if SomeCountAtLeast(m, n) {
      var v :| v in m && m[v] >= n;
      CountOfValue(cs, v);
      var c :| c in cs && c.value == v;
    }
    if c :| c in cs && Count(cs, c.value) >= n {
      CountOfValue(cs, c.value);
      assert c.value in m;
    }
  }

  /** `is_three_of_a_kind(hand, board)`: some value is held by at least three cards. */
  function IsThreeOfAKind(hand: seq<Card>, board: seq<Card>): (b: bool)
    ensures b <==> exists c :: c in hand + board && Count(hand + board, c.value) >= 3
  {
    CountsOfCards(hand + board, 3);
    SomeCountAtLeast(ValueCounts(ValuesOf(hand + board)), 3)
  }

  /** `is_one_pair(hand, board)`: some value is held by at least two cards. */
  function IsOnePair(hand: seq<Card>, board: seq<Card>): (b: bool)
    ensures b <==> exists c :: c in hand + board && Count(hand + board, c.value) >= 2
  {
    CountsOfCards(hand + board, 2);
    SomeCountAtLeast(ValueCounts(ValuesOf(hand + board)), 2)
  }

  lemma HasElement(s: set<int>)
    requires |s| > 0
    ensures exists x :: x in s
  {
    if forall x :: x !in s {
      assert false;
    }
  }

  /** A set has at least two elements exactly when it holds two different ones. */
  lemma TwoElements(s: set<int>)
    ensures |s| >= 2 <==> exists a, b :: a in s && b in s && a != b
  {
    if |s| >= 2 {
      HasElement(s);
      var a :| a in s;
      HasElement(s - {a});
      var b :| b in s - {a};
    }
    if a, b :| a in s && b in s && a != b {
      assert s == {a, b} + (s - {a, b});
    }
  }

  /** Two values counted at least twice exist exactly when two different cards' values are. */
  lemma TwoPairValues(cs: seq<Card>)
    ensures |PairValues(ValueCounts(ValuesOf(cs)))| >= 2 <==>
      exists c1, c2 :: c1 in cs && c2 in cs && c1.value != c2.value && Count(cs, c1.value) >= 2 && Count(cs, c2.value) >= 2
  {
    var pairs := PairValues(ValueCounts(ValuesOf(cs)));
    TwoElements(pairs);
    if |pairs| >= 2 {
      var a, b :| a in pairs && b in pairs && a != b;
      CountOfValue(cs, a);
      CountOfValue(cs, b);
      var c1 :| c1 in cs && c1.value == a;
      var c2 :| c2 in cs && c2.value == b;
    }
    if c1, c2 :| c1 in cs && c2 in cs && c1.value != c2.value && Count(cs, c1.value) >= 2 && Count(cs, c2.value) >= 2 {
      CountOfValue(cs, c1.value);
      CountOfValue(cs, c2.value);
      assert c1.value in pairs && c2.value in pairs;
    }
  }

  /** `is_two_pair(hand, board)`: two different values are each held by at least two cards. */
  function IsTwoPair(hand: seq<Card>, board: seq<Card>): (b: bool)
    ensures b <==> exists c1, c2 :: c1 in hand + board && c2 in hand + board && c1.value != c2.value
                                    && Count(hand + board, c1.value) >= 2 && Count(hand + board, c2.value) >= 2
  {
    TwoPairValues(hand + board);
    |PairValues(ValueCounts(ValuesOf(hand + board)))| >= 2
  }

  /** Two pair and three of a kind each contain a pair. */
  lemma StrongerHandsHavePair(hand: seq<Card>, board: seq<Card>)
    ensures IsTwoPair(hand, board) ==> IsOnePair(hand, board)
    ensures IsThreeOfAKind(hand, board) ==> IsOnePair(hand, board)
  {
  }

  /** What evaluating a test in the source gives: a truth value, or an exception for an undefined name. */
  datatype Outcome = Returned(value: bool) | NameError(name: string)

  /**
   * `is_high_card(hand, board)` as written: the disjunction is evaluated left to
   * right and stops at the first true test; its last test names `is_straight_flush`,
   * which this file neither defines nor imports, so reaching it raises NameError.
   */
  function IsHighCardAsWritten(hand: seq<Card>, board: seq<Card>): (r: Outcome)
    ensures r.Returned? ==> !r.value
    ensures r.NameError? ==> r.name == "is_straight_flush"
  {
    if IsOnePair(hand, board) || IsTwoPair(hand, board) || IsThreeOfAKind(hand, board) || IsStraight(hand, board)
    then Returned(false)
    else NameError("is_straight_flush")
  }

  /**
   * `is_high_card` as intended: none of the other combinations, the straight flush
   * being the test of src/poker/hands.py. It holds exactly when no value occurs
   * twice and there is no straight.
   */
  function IsHighCard(hand: seq<Card>, board: seq<Card>): (b: bool)
    ensures b <==> (forall c :: c in hand + board ==> Count(hand + board, c.value) < 2)
                   && !HasRun(RankSet(ValuesOf(hand + board)))
  {
    StraightFlushNeedsStraight(hand, board);
    !(IsOnePair(hand, board) || IsTwoPair(hand, board) || IsThreeOfAKind(hand, board)
      || IsStraight(hand, board) || Hands.IsStraightFlush(hand, board))
  }

  /**
   * The source's test raises NameError on exactly the hands that are high cards,
   * and answers correctly (false) on all the others: it never returns true.
   */
  lemma HighCardAsWrittenFailsOnHighCards(hand: seq<Card>, board: seq<Card>)
    ensures IsHighCardAsWritten(hand, board).NameError? <==> IsHighCard(hand, board)
    ensures IsHighCardAsWritten(hand, board).Returned? ==> IsHighCardAsWritten(hand, board).value == IsHighCard(hand, board)
  {
    StraightFlushNeedsStraight(hand, board);
  }

  lemma StraightFlushNeedsStraight(hand: seq<Card>, board: seq<Card>)
    ensures Hands.IsStraightFlush(hand, board) ==> IsStraight(hand, board)
  {
    if Hands.IsStraightFlush(hand, board) {
      Hands.StraightFlushIsStraight(hand + board);
    }
  }

  /** A hand with no repeated value and no straight makes the source's test raise. */
  lemma NoPairNoRunRaises(hand: seq<Card>, board: seq<Card>)
    requires forall c :: c in hand + board ==> Count(hand + board, c.value) < 2
    requires !HasRun(RankSet(ValuesOf(hand + board)))
    ensures IsHighCardAsWritten(hand, board) == NameError("is_straight_flush")
  {
    HighCardAsWrittenFailsOnHighCards(hand, board);
  }

  /** A plain high-card hand, 2S 7H | 10D JC QS 4H 3D: the source's test raises NameError on it. */
  lemma HighCardAsWrittenRaises(hand: seq<Card>, board: seq<Card>)
    requires hand == [Card(2, 'S'), Card(7, 'H')]
    requires board == [Card(10, 'D'), Card(11, 'C'), Card(12, 'S'), Card(4, 'H'), Card(3, 'D')]
    ensures IsHighCard(hand, board)
    ensures IsHighCardAsWritten(hand, board) == NameError("is_straight_flush")
  {
    ExampleValues(hand + board);
    ExampleNoRun(ValuesOf(hand + board));
    ExampleNoPair(hand + board);
    NoPairNoRunRaises(hand, board);
    HighCardAsWrittenFailsOnHighCards(hand, board);
  }

  lemma ExampleValues(cs: seq<Card>)
    requires cs == [Card(2, 'S'), Card(7, 'H'), Card(10, 'D'), Card(11, 'C'), Card(12, 'S'), Card(4, 'H'), Card(3, 'D')]
    ensures ValuesOf(cs) == [2, 7, 10, 11, 12, 4, 3]
  {
  }

  lemma ExampleNoRun(vs: seq<int>)
    requires vs == [2, 7, 10, 11, 12, 4, 3]
    ensures !HasRun(RankSet(vs))
  {
    assert Elems(vs) == {2, 7, 10, 11, 12, 4, 3};
  }

  lemma ExampleNoPair(cs: seq<Card>)
    requires ValuesOf(cs) == [2, 7, 10, 11, 12, 4, 3]
    ensures forall c :: c in cs ==> Count(cs, c.value) < 2
  {
    forall c | c in cs
      ensures Count(cs, c.value) < 2
    {
      CountIsMultiplicity(cs, c.value);
    }
  }
}
