/**
 * `best_five` of src/poker/game.py: the table from hand names to selectors, and
 * the five cards the selector picks for the category of the hand.
 *
 * The source asks `evaluate_hand` for the name; that function is not part of this
 * model, so the name is an input here.
 */
module Game {
  import opened Cards
  import opened Grouping
  import opened Selection
  import opened Runs
  import opened Pickers
  import Hands
  import Hands2

  /** The nine hand categories, the keys of the selector table. */
  datatype Category =
    | StraightFlush
    | FourOfAKind
    | FullHouse
    | Flush
    | StraightHand
    | ThreeOfAKind
    | TwoPair
    | OnePair
    | HighCard

  /** The name under which the table lists a category. */
  function Name(c: Category): string {
    match c
    case StraightFlush => "Straight Flush"
    case FourOfAKind => "Four of a Kind"
    case FullHouse => "Full House"
    case Flush => "Flush"
    case StraightHand => "Straight"
    case ThreeOfAKind => "Three of a Kind"
    case TwoPair => "Two Pair"
    case OnePair => "One Pair"
    case HighCard => "High Card"
  }

  /** `pickers[hand_name]`: the category listed under a name, or None where the source raises KeyError. */
  function CategoryOf(name: string): (r: Option<Category>)
    ensures r.Some? ==> Name(r.value) == name
  {
    if name == "Straight Flush" then Some(StraightFlush)
    else if name == "Four of a Kind" then Some(FourOfAKind)
    else if name == "Full House" then Some(FullHouse)
    else if name == "Flush" then Some(Flush)
    else if name == "Straight" then Some(StraightHand)
    else if name == "Three of a Kind" then Some(ThreeOfAKind)
    else if name == "Two Pair" then Some(TwoPair)
    else if name == "One Pair" then Some(OnePair)
    else if name == "High Card" then Some(HighCard)
    else None
  }

  /** Every category is found under its name: the table has no missing or shadowed key. */
  lemma CategoryOfName(c: Category)
    ensures CategoryOf(Name(c)) == Some(c)
  {
  }

  /**
   * What each selector needs of the cards so that the source does not raise
   * IndexError: a card for `_find_best_straight`'s `unique[0]`, a card outside the
   * four of a kind for `kickers[0]`, two pairs and a kicker for `_pick_two_pair`.
   */
  predicate Pickable(c: Category, cs: seq<Card>) {
    match c
    case StraightHand => |cs| > 0
    case FourOfAKind => |Without(cs, SkipOf(TopOfKind(cs, 4, {})))| > 0
    case TwoPair => TwoPairPickable(cs)
    case _ => true
  }

  /** The cards hold the combination the category names. */
  ghost predicate Present(c: Category, hand: seq<Card>, board: seq<Card>) {
    var cs := hand + board;
    match c
    case StraightFlush => Hands.IsStraightFlush(hand, board)
    case FourOfAKind => exists x :: x in cs && Count(cs, x.value) >= 4
    case FullHouse => exists x, y :: x in cs && y in cs && x.value != y.value && Count(cs, x.value) >= 3 && Count(cs, y.value) >= 2
    case Flush => exists x :: x in cs && |SuitGroup(cs, x.suit)| >= 5
    case StraightHand => Hands2.IsStraight(hand, board)
    case ThreeOfAKind => Hands2.IsThreeOfAKind(hand, board)
    case TwoPair => Hands2.IsTwoPair(hand, board)
    case OnePair => Hands2.IsOnePair(hand, board)
    case HighCard => true
  }

  /** A deal: two cards in the hand and five on the board, all well formed and distinct. */
  predicate Deal(hand: seq<Card>, board: seq<Card>) {
    |hand| == 2 && |board| == 5 && WellFormed(hand + board)
  }

  /**
   * `best_five(hand, board)` for the hand name `name`: None where the table has no
   * such name, otherwise the cards the category's selector picks from `hand + board`,
   * in the shape that selector promises. They are at most five cards drawn from the
   * hand and the board; for a deal that holds the named combination they are five
   * distinct cards.
   */
  method BestFive(hand: seq<Card>, board: seq<Card>, name: string) returns (r: Option<seq<Card>>)
    requires CategoryOf(name).Some? ==> Pickable(CategoryOf(name).value, hand + board)
    ensures r.None? <==> CategoryOf(name).None?
    ensures r.Some? ==> |r.value| <= 5 && multiset(r.value) <= multiset(hand + board)
    ensures r.Some? ==> PickedShape(CategoryOf(name).value, hand + board, r.value)
    ensures r.Some? && Deal(hand, board) && Present(CategoryOf(name).value, hand, board) ==>
              |r.value| == 5 && Distinct(r.value)
  {
    var category := CategoryOf(name);
    if category.None? {
      return None;
    }
    var cs := hand + board;
    var cards := Pick(category.value, cs);
    if Deal(hand, board) && Present(category.value, hand, board) {
      PickComplete(category.value, hand, board, cards);
      SubMultisetDistinct(cards, cs);
    }
    r := Some(cards);
  }

  /** Runs the selector of category `c`: `pickers[hand_name](all_cards)`. */
  method Pick(c: Category, cs: seq<Card>) returns (r: seq<Card>)
    requires Pickable(c, cs)
    ensures |r| <= 5 && multiset(r) <= multiset(cs)
    ensures PickedShape(c, cs, r)
  {
    match c {
      case StraightFlush =>
        r := PickStraightFlush(cs);
        StraightFlushWithin(cs);
      case FourOfAKind =>
        r := PickFourOfAKind(cs);
      case FullHouse =>
        r := PickFullHouse(cs);
      case Flush =>
        r := PickFlush(cs);
        FlushWithin(cs);
      case StraightHand =>
        r := PickStraight(cs);
        StraightWithin(cs);
      case ThreeOfAKind =>
        r := PickThreeOfAKind(cs);
        KindPickedSize(cs, 3, 2, r);
      case TwoPair =>
        r := PickTwoPair(cs);
      case OnePair =>
        r := PickOnePair(cs);
        KindPickedSize(cs, 2, 3, r);
      case HighCard =>
        r := PickHighCard(cs);
        TopCardsSize(r, cs, 5);
    }
  }

  /** The straight-flush selector picks at most five of the cards. */
  lemma StraightFlushWithin(cs: seq<Card>)
    ensures |PickStraightFlush(cs)| <= 5 && multiset(PickStraightFlush(cs)) <= multiset(cs)
  {
    PickStraightFlushCards(cs);
  }

  /** The flush selector picks at most five of the cards. */
  lemma FlushWithin(cs: seq<Card>)
    ensures |PickFlush(cs)| <= 5 && multiset(PickFlush(cs)) <= multiset(cs)
  {
    PickFlushCards(cs);
  }

  /** The straight selector picks at most five of the cards. */
  lemma StraightWithin(cs: seq<Card>)
    requires |cs| > 0
    ensures |PickStraight(cs)| <= 5 && multiset(PickStraight(cs)) <= multiset(cs)
  {
    PickStraightSpec(cs);
  }

  /**
   * What each category's selector promises about the cards it picks from `cs`:
   * the cards of the combination, in the order the selector takes them, then the
   * best kickers outside the combination's values.
   */
  ghost predicate PickedShape(c: Category, cs: seq<Card>, r: seq<Card>) {
    match c
    case StraightFlush => r == PickStraightFlush(cs)
    case FourOfAKind => |r| == (if TopOfKind(cs, 4, {}).Some? then 4 else 0) + 1 && KindPicked(cs, 4, 1, r)
    case FullHouse =>
      var t := TopOfKind(cs, 3, {});
      r == Take(cs, t, 3) + Take(cs, TopOfKind(cs, 2, SkipOf(t)), 2)
    case Flush => r == PickFlush(cs)
    case StraightHand => |cs| > 0 && r == PickStraight(cs)
    case ThreeOfAKind => KindPicked(cs, 3, 2, r)
    case TwoPair => TwoPairPicked(cs, r)
    case OnePair => KindPicked(cs, 2, 3, r)
    case HighCard => TopCards(r, cs, 5)
  }

  /** For a deal that holds the category's combination, the selector returns five cards. */
  lemma PickComplete(c: Category, hand: seq<Card>, board: seq<Card>, r: seq<Card>)
    requires Deal(hand, board) && Present(c, hand, board)
    requires PickedShape(c, hand + board, r)
    ensures |r| == 5
  {
    var cs := hand + board;
    match c {
      case StraightFlush =>
        StraightFlushComplete(cs, r);
      case FourOfAKind =>
        FourComplete(cs, r);
      case FullHouse =>
        var x, y :| x in cs && y in cs && x.value != y.value && Count(cs, x.value) >= 3 && Count(cs, y.value) >= 2;
        FullHouseComplete(cs, x, y);
      case Flush =>
        FlushComplete(cs, r);
      case StraightHand =>
        StraightComplete(cs, r);
      case ThreeOfAKind =>
        ThreeComplete(cs, r);
      case TwoPair =>
      case OnePair =>
        PairComplete(cs, r);
      case HighCard =>
    }
  }

  /** A value held four times makes the four-of-a-kind selector return five cards. */
  lemma FourComplete(cs: seq<Card>, r: seq<Card>)
    requires exists x :: x in cs && Count(cs, x.value) >= 4
    requires |r| == (if TopOfKind(cs, 4, {}).Some? then 4 else 0) + 1
    ensures |r| == 5
  {
    var x :| x in cs && Count(cs, x.value) >= 4;
    Found(cs, 4, {}, x);
  }

  /** Among seven cards, a value held three times makes the three-of-a-kind selector return five cards. */
  lemma ThreeComplete(cs: seq<Card>, r: seq<Card>)
    requires WellFormed(cs) && |cs| == 7
    requires exists x :: x in cs && Count(cs, x.value) >= 3
    requires var top := TopOfKind(cs, 3, {});
             var m := if top.Some? then 3 else 0;
             |r| >= m && TopCards(r[m..], Without(cs, SkipOf(top)), 2)
    ensures |r| == 5
  {
    var x :| x in cs && Count(cs, x.value) >= 3;
    KickersComplete(cs, 3, x);
  }

  /** Among seven cards, a value held twice makes the one-pair selector return five cards. */
  lemma PairComplete(cs: seq<Card>, r: seq<Card>)
    requires WellFormed(cs) && |cs| == 7
    requires exists x :: x in cs && Count(cs, x.value) >= 2
    requires var top := TopOfKind(cs, 2, {});
             var m := if top.Some? then 2 else 0;
             |r| >= m && TopCards(r[m..], Without(cs, SkipOf(top)), 3)
    ensures |r| == 5
  {
    var x :| x in cs && Count(cs, x.value) >= 2;
    KickersComplete(cs, 2, x);
  }

  /** A card whose value is held `n` times and not skipped makes the search succeed. */
  lemma Found(cs: seq<Card>, n: nat, skip: set<int>, x: Card)
    requires x in cs && x.value !in skip && Count(cs, x.value) >= n
    ensures TopOfKind(cs, n, skip).Some?
  {
    TopOfKindSpec(cs, n, skip);
  }

  /**
   * With seven cards of which the value of `x` is held `n` times, the selector finds
   * a value held `n` times, and at least three cards remain outside it: four cards
   * at most share a value.
   */
  lemma KickersComplete(cs: seq<Card>, n: nat, x: Card)
    requires WellFormed(cs) && |cs| == 7
    requires x in cs && Count(cs, x.value) >= n
    ensures var top := TopOfKind(cs, n, {});
            top.Some? && |Without(cs, SkipOf(top))| >= 3
  {
    Found(cs, n, {}, x);
    var top := TopOfKind(cs, n, {});
    SplitOffValue(cs, top.value);
    CountAtMostFour(cs, top.value);
  }

  /**
   * When the value of `x` is held three times and that of `y` twice, the full-house
   * selector finds both its three of a kind and, among the other values, its pair.
   */
  lemma FullHouseComplete(cs: seq<Card>, x: Card, y: Card)
    requires x in cs && y in cs && x.value != y.value && Count(cs, x.value) >= 3 && Count(cs, y.value) >= 2
    ensures var t := TopOfKind(cs, 3, {});
            t.Some? && TopOfKind(cs, 2, SkipOf(t)).Some?
  {
    Found(cs, 3, {}, x);
    var t := TopOfKind(cs, 3, {});
    if x.value != t.value {
      Found(cs, 2, SkipOf(t), x);
    } else {
      Found(cs, 2, SkipOf(t), y);
    }
  }

  /** A suit with five cards makes the flush selector return five cards. */
  lemma FlushComplete(cs: seq<Card>, r: seq<Card>)
    requires (exists x :: x in cs && |SuitGroup(cs, x.suit)| >= 5) && r == PickFlush(cs)
    ensures |r| == 5
  {
    PickFlushFound(cs);
    PickFlushCards(cs);
  }

  /** Five consecutive ranks make the straight selector return five cards. */
  lemma StraightComplete(cs: seq<Card>, r: seq<Card>)
    requires |cs| > 0 && HasRun(RankSet(ValuesOf(cs))) && r == PickStraight(cs)
    ensures |r| == 5
  {
    PickStraightSpec(cs);
  }

  /** Five consecutive ranks in one suit make the straight-flush selector return five cards. */
  lemma StraightFlushComplete(cs: seq<Card>, r: seq<Card>)
    requires Hands.StraightFlushIn(cs) && r == PickStraightFlush(cs)
    ensures |r| == 5
  {
    PickStraightFlushFound(cs);
    PickStraightFlushCards(cs);
  }

  /**
   * Every category but two pair can always be picked from a deal that holds it, so
   * `best_five` never fails on a named combination the evaluator finds.
   */
  lemma DealPickable(c: Category, hand: seq<Card>, board: seq<Card>)
    ensures Deal(hand, board) && Present(c, hand, board) && c != TwoPair ==> Pickable(c, hand + board)
  {
    var cs := hand + board;
    if c == FourOfAKind && Deal(hand, board) && Present(c, hand, board) {
      var x :| x in cs && Count(cs, x.value) >= 4;
      KickersComplete(cs, 4, x);
    }
  }

  /**
   * Two pair is the exception: a deal of four kings and three sevens holds two pair,
   * but no card lies outside the two pairs, so the selector's `kickers[0]` has
   * nothing to take.
   */
  lemma TwoPairUnpickable(hand: seq<Card>, board: seq<Card>)
    requires hand + board == KingsAndSevens && |hand| == 2
    ensures Deal(hand, board) && Present(TwoPair, hand, board) && !Pickable(TwoPair, hand + board)
  {
    KingsAndSevensWellFormed();
    KingsAndSevensValues();
    KingsAndSevensCount(13);
    KingsAndSevensCount(7);
    TwoValuesDeal(hand, board, 13, 7);
  }

  /** Four kings and three sevens. */
  const KingsAndSevens: seq<Card> :=
    [Card(13, 'S'), Card(13, 'H'), Card(13, 'D'), Card(13, 'C'), Card(7, 'S'), Card(7, 'H'), Card(7, 'D')]

  /** The seven cards are valid and distinct. */
  lemma KingsAndSevensWellFormed()
    ensures WellFormed(KingsAndSevens)
  {
    KingsAndSevensNoRepeats();
    NoRepeatsIsDistinct(KingsAndSevens);
  }

  /** No card of the seven occurs twice. */
  lemma KingsAndSevensNoRepeats()
    ensures NoRepeats(KingsAndSevens)
  {
    var cs := KingsAndSevens;
    forall i, j | 0 <= i < j < |cs|
      ensures cs[i] != cs[j]
    {
      if i < 4 && 4 <= j {
        assert cs[i].value == 13 && cs[j].value == 7;
      }
    }
  }

  /** Every one of the seven cards is a king or a seven. */
  lemma KingsAndSevensValues()
    ensures forall c :: c in KingsAndSevens ==> c.value == 13 || c.value == 7
  {
  }

  /** Among four kings and three sevens, the kings and the sevens are the only groups. */
  lemma KingsAndSevensCount(v: int)
    ensures Count(KingsAndSevens, v) == if v == 13 then 4 else if v == 7 then 3 else 0
  {
    var cs := KingsAndSevens;
    var kings, sevens := cs[..4], cs[4..];
    assert cs == kings + sevens;
    ValueGroupAppend(kings, sevens, v);
    ValueGroupOfUniform(kings, 13, v);
    ValueGroupOfUniform(sevens, 7, v);
  }

  /**
   * A deal of two values, each held at least twice, holds two pair, yet the
   * two-pair selector cannot pick from it.
   */
  lemma TwoValuesDeal(hand: seq<Card>, board: seq<Card>, v: int, w: int)
    requires Deal(hand, board) && v != w
    requires forall c :: c in hand + board ==> c.value == v || c.value == w
    requires Count(hand + board, v) >= 2 && Count(hand + board, w) >= 2
    ensures Present(TwoPair, hand, board) && !Pickable(TwoPair, hand + board)
  {
    var cs := hand + board;
    HeldValue(cs, v);
    HeldValue(cs, w);
    TwoValuesUnpickable(cs, v, w);
  }

  /**
   * Cards of only two values leave no kicker beside two pairs: whatever two values
   * the two-pair selector finds, no card lies outside them.
   */
  lemma TwoValuesUnpickable(cs: seq<Card>, v: int, w: int)
    requires forall c :: c in cs ==> c.value == v || c.value == w
    ensures !TwoPairPickable(cs)
  {
    var a := TopOfKind(cs, 2, {});
    var b := TopOfKind(cs, 2, SkipOf(a));
    if a.Some? && b.Some? {
      HeldValue(cs, a.value);
      HeldValue(cs, b.value);
      var rest := Without(cs, {a.value, b.value});
      if |rest| > 0 {
        WithoutMultiset(cs, {a.value, b.value});
        assert false;
      }
    }
  }

  /** A value counted at all is the value of one of the cards. */
  lemma HeldValue(cs: seq<Card>, v: int)
    requires Count(cs, v) > 0
    ensures exists c :: c in cs && c.value == v
  {
    var g := ValueGroup(cs, v);
    ValueGroupMultiset(cs, v);
    assert multiset(g)[g[0]] > 0;
  }
}
