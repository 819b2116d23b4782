# Texas Hold'em hand evaluation, modelled in Dafny

This project models the hand-evaluation engine of test_driven_poker. A player's
two hole cards are combined with five board cards. The engine:

- parses card tokens such as `"10S"` or `"AH"`;
- decides which poker categories the seven cards hold (straight flush, straight,
  three of a kind, two pair, one pair, high card);
- for a given category, picks the five cards that make up the best hand of that
  category (`best_five` and its nine `_pick_*` selectors).

Cards are `Card(value, suit)`, with value 2 .. 14 (the ace is 14) and suit a
character. The modules follow the source:

| module | file | models |
|---|---|---|
| `Cards` | cards.dfy | the rank table and `parse_card` (identical in src/poker/hands.py and src/hands2.py) |
| `Sorting` | sorting.dfy | Python's stable `sorted` and `list.sort` by an integer key |
| `Runs` | runs.dfy | the "ace also counts as 1, dedupe, sort, scan for five +1 steps" search shared by the straight tests |
| `Hands` | hands.dfy | `is_straight_flush` of src/poker/hands.py |
| `Hands2` | hands2.dfy | `is_straight`, `is_three_of_a_kind`, `is_two_pair`, `is_one_pair`, `is_high_card` |
| `Grouping` | grouping.dfy | `_group_by_value`, `_group_by_suit`, `_sort_descending` and the iteration over `sorted(groups.keys(), reverse=True)` |
| `Selection` | selection.dfy | "the highest value held at least n times" and "the k best cards" that the selectors compute |
| `Straight` | straight.dfy | `_find_best_straight` |
| `Pickers` | pickers.dfy | the nine `_pick_*` selectors |
| `Game` | game.dfy | `best_five`'s table from hand names to selectors |

How the Python is rendered:

- A dictionary built with `setdefault(key, []).append(card)` is an
  order-preserving filter of the input (`ValueGroup`, `SuitGroup`).
- Iterating the value groups in `sorted(groups.keys(), reverse=True)` order is a
  walk over `DescValues`, the strictly decreasing list of the values that occur.
- Iterating the suit groups in insertion order is a scan over the cards: the
  first card whose suit qualifies names the suit that is visited first.
- `sorted(..., reverse=True)` is stable and keeps cards of equal value in input
  order. It is modelled as a stable insertion sort on the negated value.
- The counting loops of src/hands2.py are kept as a `map<int, nat>` (`Tally`),
  and proved equal to the number of cards of each value.

The tests and selectors work on already-parsed cards. `ParseAll` models the
parsing step `[parse_card(c) for c in all_cards]` with its failure case.

## Model

| member | source | states |
|---|---|---|
| Cards.ParseCard | src/poker/hands.py:7-11 | an empty token or an unknown rank prefix is an error (where Python raises); a token parses exactly when the part before its last character is a key of the table; the value is then the table's value for that part, in 2..14, and the suit is the last character |
| Cards.RankName | src/poker/hands.py:1-4 | every value 2..14 has a rank name that the table maps back to that value |
| Cards.RankNameOfTable | src/poker/hands.py:1-4 | every table entry has a value in 2..14 and is the name `RankName` gives that value, so the table is one-to-one |
| Cards.ParseShow | src/poker/hands.py:7-11 | a card with a value in range, written as a token and parsed, gives the same card back |
| Cards.ShowParse | src/poker/hands.py:7-11 | a token that parses is exactly the token written for its card |
| Cards.ParseExamples | src/poker/hands.py:8 | `"10S"` gives (10, S), `"AH"` gives (14, H) and `"2D"` gives (2, D); `"1S"` and `""` are rejected |
| Cards.ParseAll | src/poker/hands.py:17 | parsing a token list succeeds exactly when every token parses, gives one card per token in order, and otherwise reports the error of the first failing token, every token before it parsing |
| Cards.ParseAllShow | src/poker/hands.py:17 | the tokens of cards with values in range parse back to the same list of cards |
| Sorting.KeyGroupMultiset | src/poker/game.py:4-10 | a group holds exactly the input elements with the key, each as often as in the input, and no others |
| Sorting.Sort | src/poker/game.py:22-24 | the sort is a permutation of its input, ordered by the key |
| Sorting.SortStable | src/poker/game.py:22-24 | elements with equal keys keep their input order |
| Grouping.ValueGroupMultiset | src/poker/game.py:4-10 | the group of a value is the input cards of that value, with multiplicities, and nothing else |
| Grouping.SuitGroupMultiset | src/poker/game.py:13-19 | the group of a suit is the input cards of that suit, with multiplicities, and nothing else |
| Grouping.WithoutMultiset | src/poker/game.py:84-86 | leaving out the skipped values keeps every other card exactly as often as the input has it |
| Grouping.GroupsPartitionCards | src/poker/game.py:4-10 | the value groups, taken over all the values, are together a permutation of the input |
| Grouping.SuitGroupsPartitionCards | src/poker/game.py:13-19 | the suit groups, taken once for each suit that occurs (as the dictionary's keys, in any order), are together a permutation of the input |
| Grouping.DescValues | src/poker/game.py:80 | the visiting order is strictly decreasing and lists exactly the values that occur |
| Grouping.SortDescending | src/poker/game.py:22-24 | `_sort_descending` is a permutation with non-increasing values |
| Grouping.SortDescendingStable | src/poker/game.py:22-24 | cards of the same value keep their input order |
| Grouping.GatherDescValues | src/poker/game.py:84-86 | the kickers gathered group by group are non-increasing and are a permutation of the cards outside the skipped values |
| Grouping.CountAtMostFour | src/poker/game.py:76-87 | among well-formed cards no value occurs more than four times |
| Selection.TopOfKindSpec | src/poker/game.py:80-83 | the value the selectors keep is the highest one held at least n times, and there is none exactly when no value is held n times |
| Selection.SortedPrefixIsTop | src/poker/game.py:159-160 | the first k cards of the descending sort are the k best cards: as many as available, non-increasing, drawn from the pool, none left out is higher, and same-value cards keep pool order |
| Runs.HasStraightValues | src/hands2.py:21-37 | the scan answers true exactly when the values, with 1 added for an ace, hold five consecutive integers |
| Runs.ScanFromFindsWindow | src/hands2.py:28-35 | the counting loop, from any point, finds exactly the windows of five +1 steps that start at or after the current run |
| Runs.WindowIffRun | src/hands2.py:25-35 | in strictly increasing values, five neighbours going up by one exist exactly when the set holds five consecutive integers |
| Runs.RunsDoNotWrap | src/hands2.py:30-35 | a run starts at 1 (the wheel) to 10; none goes round from the king or ace to the 2 |
| Runs.WrapIsNoRun | src/hands2.py:30-35 | queen, king, ace, 2, 3 are not a straight |
| Runs.RunSetOnly | src/hands2.py:25 | the answer depends only on which values occur, so repeated values never break a run |
| Runs.HighestRun | src/poker/game.py:47-62 | with at most nine distinct ranks, a run not followed by its sixth value is the highest run |
| Hands.IsStraightFlush | src/poker/hands.py:14-45 | true exactly when some suit has at least five cards whose values, ace also as 1, hold five consecutive integers |
| Hands.StraightFlushInSpec | src/poker/hands.py:14-45 | true exactly when some suit has at least five cards whose values, ace also as 1, hold five consecutive integers |
| Hands.AnySuitFromSpec | src/poker/hands.py:25-43 | the loop over the suits, visited through the per-card suit checks from a given card on, succeeds exactly when one of those checks passes |
| Hands.RunNeedsFiveValues | src/poker/hands.py:26-27 | five consecutive values need five cards, so the "at least five cards" guard never changes the answer |
| Hands.StraightFlushSetOnly | src/poker/hands.py:21-22 | the test depends only on which cards are present, not on their order or repeats |
| Hands.StraightFlushIsStraight | src/poker/hands.py:14-45 | a straight flush's values also make a straight |
| Hands.WheelIsStraightFlush | src/poker/hands.py:29-31 | ace, 2, 3, 4, 5 of one suit is a straight flush |
| Hands.RoyalIsStraightFlush | src/poker/hands.py:29-31 | 10, J, Q, K, A of one suit is a straight flush |
| Hands.SuitRunIsStraightFlush | src/poker/hands.py:24-41 | five consecutive values in one suit make a straight flush |
| Hands2.IsStraight | src/hands2.py:15-37 | true exactly when the values, with 1 added for an ace, hold five consecutive integers |
| Hands2.Tally | src/hands2.py:47-49 | the counting loop maps each value to the number of times it occurs and has exactly the values as keys |
| Hands2.CountOfValue | src/hands2.py:47-49 | a value is counted exactly when some card has it, and its count is the number of cards of that value |
| Hands2.IsThreeOfAKind | src/hands2.py:40-52 | true exactly when some value is held by at least three cards |
| Hands2.TwoPairValues | src/hands2.py:66-69 | at least two values counted twice exist exactly when two cards of different values each have a count of at least two |
| Hands2.IsTwoPair | src/hands2.py:55-69 | true exactly when two different values are each held by at least two cards |
| Hands2.IsOnePair | src/hands2.py:72-84 | true exactly when some value is held by at least two cards |
| Hands2.StrongerHandsHavePair | src/hands2.py:40-84 | two pair and three of a kind each imply one pair |
| Hands2.IsHighCardAsWritten | src/hands2.py:87-97 | the test as written never returns true: it returns false, or raises NameError for `is_straight_flush` |
| Hands2.HighCardAsWrittenFailsOnHighCards | src/hands2.py:91-97 | the test as written raises exactly on high-card hands and returns the correct false on all others, in particular whenever a pair is present |
| Hands2.HighCardAsWrittenRaises | src/hands2.py:96 | on 2S 7H / 10D JC QS 4H 3D the intended answer is true and the test as written raises NameError |
| Hands2.IsHighCard | src/hands2.py:87-97 | the intended test holds exactly when no value occurs twice and there is no straight |
| Straight.Entries | src/poker/game.py:30-34 | every entry pairs an input card with a rank it stands for, and the ranks are the values plus 1 for an ace |
| Straight.DedupeRank | src/poker/game.py:39-45 | the dedupe keeps only input entries whose rank was not yet seen, and its ranks are exactly the input ranks not yet seen |
| Straight.UniqueFirst | src/poker/game.py:36-45 | each kept entry is the first entry of its rank in input order, the sort being stable |
| Straight.UniqueRanks | src/poker/game.py:30-45 | the ranks of `unique` are the card values plus 1 when an ace is present |
| Straight.LongestRun | src/poker/game.py:47-58 | the scan returns a maximal run of +1 steps, and no run is longer |
| Straight.TopOfRun | src/poker/game.py:60-62 | the last five entries of a run of at least five are consecutive, and the next rank above them is absent |
| Straight.FindBestStraight | src/poker/game.py:27-63 | the result is empty or five cards, each one of the input cards; which five is stated by the `FindBestStraightFound`, `FindBestStraightShape`, `FindBestStraightCards`, `FindBestStraightDistinct` and `FindBestStraightHighest` rows |
| Straight.FindBestStraightFound | src/poker/game.py:27-63 | the result is non-empty exactly when the values, ace also as 1, hold five consecutive ranks |
| Straight.EntriesFirst | src/poker/game.py:30-45 | the entry kept for a rank is the first card of that value in input order; for rank 1, when no card has value 1, the first ace |
| Straight.ValueEntriesFirst | src/poker/game.py:30 | among the value entries, the first of rank k holds the first card of value k, and there is none when no card has that value |
| Straight.AceEntriesFirst | src/poker/game.py:33 | among the low ace entries, the first holds the first ace, and there is none without an ace |
| Straight.FindBestStraightShape | src/poker/game.py:60-62 | a non-empty result is five cards at ranks lo .. lo+4 in ascending order, lo+5 is absent, and each card is the first entry of its rank among the entries |
| Straight.FindBestStraightCards | src/poker/game.py:27-63 | a non-empty result is five cards at ranks lo .. lo+4, no card has rank lo+5, and the card at each rank is the first input card of that value (the first ace for rank 1) |
| Straight.FindBestStraightDistinct | src/poker/game.py:27-63 | the result is distinct cards drawn from the input |
| Straight.FindBestStraightHighest | src/poker/game.py:47-62 | with at most eight cards, the straight returned is the highest one present |
| Pickers.SplitGroups | src/poker/game.py:77-86 | the loop over values keeps the first n cards of the highest value held n times, and gathers every other value's cards as kickers |
| Pickers.PickFourOfAKind | src/poker/game.py:76-87 | four cards of the highest value held four times, then the single best card of the other values; drawn from the input |
| Pickers.PickFullHouse | src/poker/game.py:90-100 | three cards of the highest value held three times, then two of the highest other value held at least twice, so a second triple becomes the pair; drawn from the input |
| Pickers.HouseLoop | src/poker/game.py:90-100 | the loop over distinct values ends holding the first three cards of the first value met that is held three times, and the first two cards of the first other value met that is held at least twice |
| Pickers.PickThreeOfAKind | src/poker/game.py:117-128 | three cards of the highest value held three times, then the two best cards of the other values in descending order; drawn from the input |
| Pickers.PickTwoPair | src/poker/game.py:131-142 | two cards of the highest pair, two of the next pair, then the best card of the other values; drawn from the input |
| Pickers.CollectPairsOver | src/poker/game.py:133-140 | the loop keeps the first two pairs met in descending order and gathers everything else as kickers |
| Pickers.PickOnePair | src/poker/game.py:145-156 | two cards of the highest value held twice, then the three best cards of the other values in descending order; drawn from the input |
| Pickers.PickHighCard | src/poker/game.py:159-160 | the five best cards, highest first |
| Pickers.PickStraightFlush | src/poker/game.py:66-73 | the result is the best straight of the cards of the first suit, in card order, whose cards hold a straight, and is empty when no suit's cards do; this first suit is what the dictionary's insertion order visits first |
| Pickers.FirstStraightSuit | src/poker/game.py:67-72 | the position found is the first card, from the given one on, whose suit has at least five cards holding a straight; every card before it belongs to a suit without one |
| Pickers.StraightFlushFromFirst | src/poker/game.py:67-73 | the scan over the cards returns the best straight of the suit at the first qualifying position, or nothing when there is none |
| Pickers.PickStraightFlushFound | src/poker/game.py:66-73 | the selector finds cards exactly when some suit's cards hold a straight |
| Pickers.PickStraightFlushCards | src/poker/game.py:66-73 | a non-empty result is five distinct cards of one suit at five consecutive ranks, lowest first, drawn from the input; it is the best straight of that suit's cards, and that suit is the suit of the first card whose suit qualifies |
| Pickers.PickStraightFlushHighest | src/poker/game.py:66-73 | with at most eight cards, the straight flush returned is the highest straight among the cards of its suit |
| Pickers.PickFlush | src/poker/game.py:103-110 | the result is the five highest cards, lowest first, of the first suit, in card order, that has at least five cards, and is empty when no suit has five |
| Pickers.FirstFlushSuit | src/poker/game.py:104-106 | the position found is the first card, from the given one on, whose suit has at least five cards; every card before it belongs to a suit with fewer |
| Pickers.FlushFromFirst | src/poker/game.py:104-110 | the scan over the cards returns the five highest cards of the suit at the first qualifying position, or nothing when there is none |
| Pickers.PickFlushFound | src/poker/game.py:103-110 | the selector finds cards exactly when some suit has at least five cards |
| Pickers.PickFlushCards | src/poker/game.py:103-110 | a non-empty result is five cards of a suit with at least five, in ascending order, drawn from the input, and no card of that suit left out is higher than the lowest kept; that suit is the suit of the first card whose suit has five cards |
| Pickers.PickStraight | src/poker/game.py:113-114 | the result is empty or five cards; the `PickStraightSpec` row states which |
| Pickers.PickStraightSpec | src/poker/game.py:113-114 | the selector finds cards exactly when there is a straight, and then returns five distinct input cards at consecutive ranks |
| Game.CategoryOf | src/poker/game.py:172-184 | a known name finds the category listed under it; an unknown name is the KeyError case |
| Game.CategoryOfName | src/poker/game.py:172-182 | each category is found under its own name |
| Game.BestFive | src/poker/game.py:163-185 | unknown names fail; otherwise at most five cards drawn from hand and board, in the shape the named selector promises (`PickedShape`: which cards of the combination, in which order, and which kickers); for a deal of two plus five well-formed cards that holds the category, exactly five distinct cards |
| Game.DealPickable | src/poker/game.py:49-87 | a deal that holds any category but two pair meets that selector's needs: a first entry for the straight search, a kicker beside four of a kind |
| Game.TwoPairUnpickable | src/poker/game.py:131-142 | four kings and three sevens, dealt two and five, hold two pair, yet no kicker lies outside the two pairs for `kickers[0]` |
| Game.TwoValuesDeal | src/poker/game.py:131-142 | any deal of just two values, each held twice or more, holds two pair and leaves the two-pair selector no kicker |
| Game.TwoValuesUnpickable | src/poker/game.py:135-142 | among cards of only two values, whatever two pairs the loop takes, no card is left for the kickers |
| Game.Pick | src/poker/game.py:172-184 | the selector the category names returns at most five of the cards, in the shape that selector promises (`PickedShape`) |
| Game.PickComplete | src/poker/game.py:172-184 | for a deal that holds the category, the selector the table names returns five cards |
| Game.KickersComplete | src/poker/game.py:117-156 | among seven dealt cards, a value held n times is found and at least three cards remain for the kickers |
| Game.FullHouseComplete | src/poker/game.py:90-100 | when a value is held three times and another twice, both the three and the pair are found |

## Left out

- `compare_hands` and `determine_winner` are called by the tests, but their bodies are not part of this model.
- `evaluate_hand` is imported from `src.poker.hands` at src/poker/game.py:1. `is_flush`, `is_full_house` and `is_four_of_a_kind` are imported from the same module only by the tests (tests/test_flush.py:1, tests/test_full_house.py:1, tests/test_four_of_kind.py:1). None of the four is defined in src/poker/hands.py, and none is part of this model. `best_five` therefore takes the hand name as an input, and its result is the card list only; the name half of the returned pair is that input.
- Game.BestFive: the IndexError cases of the selectors are preconditions (`Pickable`) rather than modelled exceptions. They are: no card for `unique[0]` in `_find_best_straight`, no kicker outside the four of a kind, and fewer than two pairs or no kicker for two pair. `DealPickable` shows that only two pair can miss its precondition on a deal that holds the category. `TwoPairUnpickable` gives one such deal: four kings and three sevens. `evaluate_hand` is not part of this model. Its categories are expected to be checked strongest first, so that deal would be named four of a kind. The model does not show this for every two-pair deal the selector cannot serve.
- Pickers.PickFourOfAKind: the card beyond the four is required to exist, for the same reason (`kickers[0]`).
- Pickers.PickTwoPair: two pairs and a kicker are required to exist (`pairs[1]`, `kickers[0]`).
- Pickers.PickStraight: at least one card is required (`unique[0]`).
- Pickers.PickStraightFlushHighest: stated for at most eight cards, as `FindBestStraightHighest` below.
- Straight.FindBestStraightHighest: stated for at most eight cards. With ten or more distinct ranks, two runs of equal length can occur. The scan keeps the first, lower one (the strict `>` at src/poker/game.py:54 and 57). No seven-card deal can show this.
- The categories, selectors and straight search work on parsed cards. `ParseAll` models the parse and its failure, but the category tests are not re-stated over token lists.
- The straight-flush test's concrete examples from its test file are represented by the generic wheel and royal lemmas, not by literal seven-card hands.
- Iteration over suit groups follows insertion order. It is modelled as the first card whose suit qualifies, which is the same suit.

## Findings

| source | as written | input that shows it | evidently intended | confidence | as-written member | corrected member |
|---|---|---|---|---|---|---|
| src/hands2.py:96 | `is_high_card` ends its `or` chain with `is_straight_flush`, which src/hands2.py neither defines nor imports, so it raises NameError whenever no pair, trips or straight is found, i.e. on exactly the high-card hands | hand 2S 7H, board 10D JC QS 4H 3D | return true when no other combination is present, using the straight-flush test of src/poker/hands.py | not executed | Hands2.HighCardAsWrittenRaises | Hands2.IsHighCard |
