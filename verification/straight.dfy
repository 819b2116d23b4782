/**
 * `_find_best_straight` of src/poker/game.py: the five cards of the best straight
 * among some cards, in ascending order, or nothing.
 *
 * The source pairs every card with its value, adds a second entry of rank 1 for
 * each ace, sorts the entries by rank (stably), keeps the first entry of each rank,
 * finds the longest run of ranks that go up by one (the first such run on a tie)
 * and returns the cards of the top five entries of that run when it has at least five.
 */
module Straight {
  import opened Cards
  import opened Runs
  import Sorting
  import Grouping

  /** A card entered under a rank: its value, or 1 for the low use of an ace. */
  datatype Entry = Entry(rank: int, card: Card)

  function Rank(e: Entry): int { e.rank }

  /** A card can stand at rank `k`: its value is `k`, or it is an ace and `k` is 1. */
  predicate RankMatches(c: Card, k: int) {
    c.value == k || (k == 1 && c.value == 14)
  }

  /** `[(value, c) for c in cards]`. */
  function ValueEntries(cs: seq<Card>): (es: seq<Entry>)
    ensures |es| == |cs|
    ensures forall i :: 0 <= i < |cs| ==> es[i] == Entry(cs[i].value, cs[i])
  {
    if |cs| == 0 then [] else [Entry(cs[0].value, cs[0])] + ValueEntries(cs[1..])
  }

  /** `[(1, c) for v, c in card_values if v == 14]`: one low entry per ace, in input order. */
  function AceEntries(cs: seq<Card>): (es: seq<Entry>)
    ensures forall e :: e in es <==> e.rank == 1 && e.card in cs && e.card.value == 14
  {
    if |cs| == 0 then []
    else
      var rest := AceEntries(cs[1..]);
      assert forall c :: c in cs <==> c == cs[0] || c in cs[1..];
      if cs[0].value == 14 then [Entry(1, cs[0])] + rest else rest
  }

  /** All the entries, before sorting. */
  function Entries(cs: seq<Card>): (es: seq<Entry>)
    ensures forall e :: e in es ==> e.card in cs && RankMatches(e.card, e.rank)
    ensures forall k :: k in RanksOf(es) <==> k in RankSet(ValuesOf(cs))
  {
    var ve := ValueEntries(cs);
    var es := ve + AceEntries(cs);
    forall k
      ensures k in RanksOf(es) <==> k in RankSet(ValuesOf(cs))
    {
      RankMembers(es, k);
      if k in ValuesOf(cs) {
        var i :| 0 <= i < |cs| && ValuesOf(cs)[i] == k;
        assert es[i] == Entry(k, cs[i]);
      }
      if 14 in ValuesOf(cs) && k == 1 {
        var i :| 0 <= i < |cs| && ValuesOf(cs)[i] == 14;
        assert cs[i] in cs;
        assert Entry(1, cs[i]) in es;
      }
      if e :| e in es && e.rank == k {
        if e in ve {
          var i :| 0 <= i < |ve| && ve[i] == e;
          assert ValuesOf(cs)[i] == k;
        } else {
          var i :| 0 <= i < |cs| && cs[i] == e.card;
          assert ValuesOf(cs)[i] == 14;
        }
      }
    }
    es
  }

  /** The ranks of a sequence of entries. */
  function RanksOf(es: seq<Entry>): (ks: seq<int>)
    ensures |ks| == |es|
    ensures forall i :: 0 <= i < |es| ==> ks[i] == es[i].rank
  {
    seq(|es|, i requires 0 <= i < |es| => es[i].rank)
  }

  lemma RankMembers(es: seq<Entry>, k: int)
    ensures k in RanksOf(es) <==> exists e :: e in es && e.rank == k
  {
    if k in RanksOf(es) {
      var i :| 0 <= i < |es| && RanksOf(es)[i] == k;
      assert es[i] in es;
    }
    if e :| e in es && e.rank == k {
      var i :| 0 <= i < |es| && es[i] == e;
      assert RanksOf(es)[i] == k;
    }
  }

  /** The cards of a sequence of entries: `[c for _, c in run]`. */
  function CardsOf(es: seq<Entry>): (cs: seq<Card>)
    ensures |cs| == |es|
    ensures forall i :: 0 <= i < |es| ==> cs[i] == es[i].card
  {
    if |es| == 0 then [] else [es[0].card] + CardsOf(es[1..])
  }

  /** The first entry of rank `k`, or nothing when no entry has that rank. */
  function FirstOfRank(es: seq<Entry>, k: int): Option<Entry> {
    if |es| == 0 then None
    else if es[0].rank == k then Some(es[0])
    else FirstOfRank(es[1..], k)
  }

  /**
   * The first entry of rank `k` is nothing exactly when no entry has that rank, and
   * otherwise an entry of that rank with none of that rank before it.
   */
  lemma {:induction false} FirstOfRankSpec(es: seq<Entry>, k: int)
    ensures FirstOfRank(es, k).None? <==> forall e :: e in es ==> e.rank != k
    ensures FirstOfRank(es, k).Some? ==>
      exists i :: 0 <= i < |es| && es[i] == FirstOfRank(es, k).value && es[i].rank == k
                  && forall j :: 0 <= j < i ==> es[j].rank != k
  {
    if |es| > 0 && es[0].rank != k {
      var r := FirstOfRank(es[1..], k);
      FirstOfRankSpec(es[1..], k);
      assert es == [es[0]] + es[1..];
      if r.Some? {
        var i :| 0 <= i < |es[1..]| && es[1..][i] == r.value && es[1..][i].rank == k
                 && forall j :: 0 <= j < i ==> es[1..][j].rank != k;
        assert es[i + 1] == r.value;
        forall j | 0 <= j < i + 1
          ensures es[j].rank != k
        {
          if j > 0 {
            assert es[j] == es[1..][j - 1];
          }
        }
      }
    }
  }

  /** Looking for a rank in two sequences finds the first one's entry when it has one, else the second's. */
  lemma {:induction false} FirstOfRankAppend(a: seq<Entry>, b: seq<Entry>, k: int)
    ensures FirstOfRank(a + b, k) == if FirstOfRank(a, k).Some? then FirstOfRank(a, k) else FirstOfRank(b, k)
  {
    if |a| > 0 {
      FirstOfRankAppend(a[1..], b, k);
      assert (a + b)[1..] == a[1..] + b;
    } else {
      assert a + b == b;
    }
  }

  /**
   * The card `_find_best_straight` keeps for rank `k`: the first card of value `k`
   * in input order, or for rank 1, when no card has value 1, the first ace.
   */
  function RankCard(cs: seq<Card>, k: int): Option<Card> {
    var g := Grouping.ValueGroup(cs, k);
    var aces := Grouping.ValueGroup(cs, 14);
    if g != [] then Some(g[0])
    else if k == 1 && aces != [] then Some(aces[0])
    else None
  }

  /** Among the value entries, the first of rank `k` holds the first card of value `k`. */
  lemma {:induction false} ValueEntriesFirst(cs: seq<Card>, k: int)
    ensures var g := Grouping.ValueGroup(cs, k);
            FirstOfRank(ValueEntries(cs), k) == if g == [] then None else Some(Entry(k, g[0]))
  {
    if |cs| > 0 {
      ValueEntriesFirst(cs[1..], k);
      assert ValueEntries(cs)[1..] == ValueEntries(cs[1..]);
    }
  }

  /** Among the low ace entries, the first holds the first ace. */
  lemma {:induction false} AceEntriesFirst(cs: seq<Card>)
    ensures var aces := Grouping.ValueGroup(cs, 14);
            FirstOfRank(AceEntries(cs), 1) == if aces == [] then None else Some(Entry(1, aces[0]))
  {
    if |cs| > 0 {
      AceEntriesFirst(cs[1..]);
    }
  }

  /**
   * The first entry of rank `k` among all the entries holds `RankCard(cs, k)`: the
   * value entries come first, so an ace stands at rank 1 only when no card has value 1.
   */
  lemma EntriesFirst(cs: seq<Card>, k: int)
    ensures FirstOfRank(Entries(cs), k) == if RankCard(cs, k).Some? then Some(Entry(k, RankCard(cs, k).value)) else None
  {
    FirstOfRankAppend(ValueEntries(cs), AceEntries(cs), k);
    ValueEntriesFirst(cs, k);
    if k == 1 {
      AceEntriesFirst(cs);
    } else {
      FirstOfRankSpec(AceEntries(cs), k);
    }
  }

  /**
   * The dedupe loop: walks the entries keeping one whose rank has not been `seen`
   * yet, so each rank keeps its first entry.
   */
  function Dedupe(es: seq<Entry>, seen: set<int>): (r: seq<Entry>)
    ensures forall e :: e in r ==> e in es && e.rank !in seen
  {
    if |es| == 0 then []
    else
      var e := es[0];
      if e.rank in seen then Dedupe(es[1..], seen)
      else [e] + Dedupe(es[1..], seen + {e.rank})
  }

  /** The dedupe keeps rank `k` exactly when it was not seen before and some entry has it. */
  lemma {:induction false} DedupeRank(es: seq<Entry>, seen: set<int>, k: int)
    ensures k in RanksOf(Dedupe(es, seen)) <==> k !in seen && k in RanksOf(es)
  {
    if |es| > 0 {
      var e := es[0];
      assert es == [e] + es[1..];
      RanksCons(e, es[1..], k);
      if e.rank in seen {
        DedupeRank(es[1..], seen, k);
      } else {
        var rest := Dedupe(es[1..], seen + {e.rank});
        DedupeRank(es[1..], seen + {e.rank}, k);
        RanksCons(e, rest, k);
      }
    }
  }

  /** The ranks of an entry followed by more entries. */
  lemma RanksCons(e: Entry, rest: seq<Entry>, k: int)
    ensures k in RanksOf([e] + rest) <==> k == e.rank || k in RanksOf(rest)
  {
    var es := [e] + rest;
    if k in RanksOf(rest) {
      var i :| 0 <= i < |rest| && RanksOf(rest)[i] == k;
      assert RanksOf(es)[i + 1] == k;
    }
    if k in RanksOf(es) {
      var i :| 0 <= i < |es| && RanksOf(es)[i] == k;
      if i > 0 {
        assert RanksOf(rest)[i - 1] == k;
      }
    }
    assert RanksOf(es)[0] == e.rank;
  }

  /** Deduping entries sorted by rank leaves ranks that strictly increase. */
  lemma {:induction false} DedupeIncreasing(es: seq<Entry>, seen: set<int>)
    requires Sorting.SortedBy(es, Rank)
    ensures StrictlyIncreasing(RanksOf(Dedupe(es, seen)))
  {
    if |es| > 0 {
      var e := es[0];
      Sorting.SortedTail(es, Rank);
      if e.rank in seen {
        assert Dedupe(es, seen) == Dedupe(es[1..], seen);
        DedupeIncreasing(es[1..], seen);
      } else {
        var rest := Dedupe(es[1..], seen + {e.rank});
        assert Dedupe(es, seen) == [e] + rest;
        DedupeIncreasing(es[1..], seen + {e.rank});
        DedupeAbove(es[1..], seen + {e.rank}, e.rank);
        EntryConsIncreasing(e, rest);
      }
    }
  }

  /** When every entry ranks at least `x` and `x` has been seen, every kept rank is above `x`. */
  lemma DedupeAbove(es: seq<Entry>, seen: set<int>, x: int)
    requires forall e :: e in es ==> x <= e.rank
    requires x in seen
    ensures forall k :: k in RanksOf(Dedupe(es, seen)) ==> x < k
  {
    forall k | k in RanksOf(Dedupe(es, seen))
      ensures x < k
    {
      DedupeRank(es, seen, k);
      RankMembers(es, k);
    }
  }

  lemma EntryConsIncreasing(e: Entry, rest: seq<Entry>)
    requires StrictlyIncreasing(RanksOf(rest))
    requires forall k :: k in RanksOf(rest) ==> e.rank < k
    ensures StrictlyIncreasing(RanksOf([e] + rest))
  {
    IncreasingCons(e.rank, RanksOf(rest));
    assert RanksOf([e] + rest) == [e.rank] + RanksOf(rest);
  }

  lemma IncreasingCons(x: int, ks: seq<int>)
    requires StrictlyIncreasing(ks)
    requires forall k :: k in ks ==> x < k
    ensures StrictlyIncreasing([x] + ks)
  {
    forall i, j | 0 <= i < j < |[x] + ks|
      ensures ([x] + ks)[i] < ([x] + ks)[j]
    {
      assert ks[j - 1] in ks;
      if i > 0 {
        assert ([x] + ks)[i] == ks[i - 1];
      }
    }
  }

  /** Each entry dedupe keeps is the first entry of its rank. */
  lemma {:induction false} DedupeKeepsFirst(es: seq<Entry>, seen: set<int>)
    ensures forall i :: 0 <= i < |Dedupe(es, seen)| ==> FirstOfRank(es, Dedupe(es, seen)[i].rank) == Some(Dedupe(es, seen)[i])
  {
    if |es| > 0 {
      var e := es[0];
      assert es == [e] + es[1..];
      if e.rank in seen {
        DedupeKeepsFirst(es[1..], seen);
        var r := Dedupe(es[1..], seen);
        forall i | 0 <= i < |r|
          ensures FirstOfRank(es, r[i].rank) == Some(r[i])
        {
          assert r[i] in r;
        }
      } else {
        DedupeKeepsFirst(es[1..], seen + {e.rank});
        var rest := Dedupe(es[1..], seen + {e.rank});
        var r := [e] + rest;
        forall i | 0 <= i < |r|
          ensures FirstOfRank(es, r[i].rank) == Some(r[i])
        {
          if i > 0 {
            assert r[i] == rest[i - 1];
            assert rest[i - 1] in rest;
          }
        }
      }
    }
  }

  /** The first entry of a rank is the head of that rank's group. */
  lemma {:induction false} FirstIsGroupHead(es: seq<Entry>, k: int)
    ensures FirstOfRank(es, k) == if Sorting.KeyGroup(es, Rank, k) == [] then None else Some(Sorting.KeyGroup(es, Rank, k)[0])
  {
    if |es| > 0 {
      FirstIsGroupHead(es[1..], k);
    }
  }

  /** A stable sort by rank keeps the first entry of each rank. */
  lemma SortKeepsFirst(es: seq<Entry>, k: int)
    ensures FirstOfRank(Sorting.Sort(es, Rank), k) == FirstOfRank(es, k)
  {
    Sorting.SortStable(es, Rank, k);
    FirstIsGroupHead(es, k);
    FirstIsGroupHead(Sorting.Sort(es, Rank), k);
  }

  /** `unique`: the first entry of each rank, in increasing rank order. */
  function Unique(cs: seq<Card>): (u: seq<Entry>)
    ensures StrictlyIncreasing(RanksOf(u))
  {
    var sorted := Sorting.Sort(Entries(cs), Rank);
    DedupeIncreasing(sorted, {});
    Dedupe(sorted, {})
  }

  /** The ranks of `unique` are the card values, plus 1 when an ace is present. */
  lemma UniqueRanks(cs: seq<Card>)
    ensures Elems(RanksOf(Unique(cs))) == RankSet(ValuesOf(cs))
  {
    forall k
      ensures k in Elems(RanksOf(Unique(cs))) <==> k in RankSet(ValuesOf(cs))
    {
      UniqueRank(cs, k);
    }
  }

  lemma UniqueRank(cs: seq<Card>, k: int)
    ensures k in RanksOf(Unique(cs)) <==> k in RankSet(ValuesOf(cs))
  {
    var es := Entries(cs);
    var sorted := Sorting.Sort(es, Rank);
    RankMembers(es, k);
    RankMembers(sorted, k);
    DedupeRank(sorted, {}, k);
    if e :| e in es && e.rank == k {
      assert e in multiset(es);
    }
    if e :| e in sorted && e.rank == k {
      assert e in multiset(sorted);
    }
  }

  /** Each entry of `unique` is for a card of the input that can stand at the entry's rank. */
  lemma UniqueCards(cs: seq<Card>)
    ensures forall e :: e in Unique(cs) ==> e.card in cs && RankMatches(e.card, e.rank)
  {
    var sorted := Sorting.Sort(Entries(cs), Rank);
    forall e | e in Unique(cs)
      ensures e in Entries(cs)
    {
      assert e in multiset(sorted);
    }
  }

  /** Each entry of `unique` is the first entry of its rank among all the entries. */
  lemma UniqueFirst(cs: seq<Card>)
    ensures forall e :: e in Unique(cs) ==> FirstOfRank(Entries(cs), e.rank) == Some(e)
  {
    var es := Entries(cs);
    var sorted := Sorting.Sort(es, Rank);
    var u := Unique(cs);
    DedupeKeepsFirst(sorted, {});
    forall e | e in u
      ensures FirstOfRank(es, e.rank) == Some(e)
    {
      var i :| 0 <= i < |u| && u[i] == e;
      SortKeepsFirst(es, e.rank);
    }
  }

  /** A stretch of `unique`: `len` entries from index `start` on. */
  datatype Span = Span(start: nat, len: nat)

  /** No +1 step enters the stretch starting at `a` from the left. */
  predicate LeftMaximal(u: seq<int>, a: nat)
    requires a < |u|
  {
    a == 0 || u[a] != u[a - 1] + 1
  }

  /** A stretch of +1 steps that no +1 step extends to the left or to the right. */
  predicate MaximalRun(u: seq<int>, r: Span) {
    && r.len >= 1
    && Consec(u, r.start, r.len)
    && LeftMaximal(u, r.start)
    && (r.start + r.len == |u| || u[r.start + r.len] != u[r.start + r.len - 1] + 1)
  }

  /** A stretch of +1 steps that reaches past the left end of a left-maximal stretch starts there or later. */
  lemma NoCrossing(u: seq<int>, a: nat, x: int, len: int)
    requires a < |u| && LeftMaximal(u, a)
    requires Consec(u, x, len) && a < x + len
    ensures a <= x
  {
    assert x < a ==> StepUp(u, a);
  }

  /**
   * The run loop from index `i`: `a` starts the current run (`current_run` is
   * `u[a..i]`), `best` is the longest run closed so far; a longer current run
   * replaces it only when strictly longer, at a gap and at the end.
   */
  function ScanRuns(u: seq<int>, i: nat, a: nat, best: Span): (r: Span)
    requires 1 <= i <= |u| && a < i
    requires Consec(u, a, i - a) && LeftMaximal(u, a)
    requires best.start + best.len <= a
    requires best.len > 0 ==> MaximalRun(u, best)
    requires forall x, len :: Consec(u, x, len) && x + len <= a ==> len <= best.len
    ensures MaximalRun(u, r)
    ensures forall x, len :: Consec(u, x, len) ==> len <= r.len
    decreases |u| - i
  {
    if i == |u| then
      var r := if i - a > best.len then Span(a, i - a) else best;
      assert forall x, len :: Consec(u, x, len) ==> len <= r.len by {
        forall x, len | Consec(u, x, len)
          ensures len <= r.len
        {
          if a < x + len {
            NoCrossing(u, a, x, len);
          }
        }
      }
      r
    else if u[i] == u[i - 1] + 1 then
      ScanRuns(u, i + 1, a, best)
    else
      var nb := if i - a > best.len then Span(a, i - a) else best;
      assert forall x, len :: Consec(u, x, len) && x + len <= i ==> len <= nb.len by {
        forall x, len | Consec(u, x, len) && x + len <= i
          ensures len <= nb.len
        {
          if a < x + len {
            NoCrossing(u, a, x, len);
          }
        }
      }
      ScanRuns(u, i + 1, i, nb)
  }

  /** The longest run of +1 steps, the first one on a tie: `best_run` after the loop. */
  function LongestRun(u: seq<int>): (r: Span)
    requires |u| > 0
    ensures MaximalRun(u, r)
    ensures forall x, len :: Consec(u, x, len) ==> len <= r.len
  {
    ScanRuns(u, 1, 0, Span(0, 0))
  }

  /** Five cards standing at the ranks `lo`, `lo + 1`, ..., `lo + 4`, in that order. */
  predicate StraightFrom(r: seq<Card>, lo: int) {
    |r| == 5 && forall k :: 0 <= k < 5 ==> RankMatches(r[k], lo + k)
  }

  /** With at least one card there is at least one entry. */
  lemma UniqueNonEmpty(cs: seq<Card>)
    requires |cs| > 0
    ensures |Unique(cs)| > 0
  {
    assert ValuesOf(cs)[0] == cs[0].value;
    UniqueRank(cs, cs[0].value);
  }

  /**
   * The entries behind the result, given `unique`: the top five entries of the
   * longest run, or nothing when that run is shorter than five.
   */
  function TopFive(u: seq<Entry>): (t: seq<Entry>)
    requires |u| > 0 && StrictlyIncreasing(RanksOf(u))
    ensures t == [] || |t| == 5
    ensures forall e :: e in t ==> e in u
    ensures t != [] ==> forall k :: 0 <= k < 5 ==> t[k].rank == t[0].rank + k
    ensures t != [] ==> t[0].rank + 5 !in Elems(RanksOf(u))
  {
    var run := LongestRun(RanksOf(u));
    if run.len >= 5 then
      TopEntries(u, run);
      u[run.start + run.len - 5 .. run.start + run.len]
    else []
  }

  /** The top five entries of a maximal run of five or more have consecutive ranks, and the next rank up is absent. */
  lemma TopEntries(u: seq<Entry>, run: Span)
    requires StrictlyIncreasing(RanksOf(u)) && MaximalRun(RanksOf(u), run) && run.len >= 5
    ensures var t := u[run.start + run.len - 5 .. run.start + run.len];
      && (forall e :: e in t ==> e in u)
      && (forall k :: 0 <= k < 5 ==> t[k].rank == t[0].rank + k)
      && t[0].rank + 5 !in Elems(RanksOf(u))
  {
    var ks := RanksOf(u);
    var top := run.start + run.len;
    var t := u[top - 5 .. top];
    TopOfRun(ks, run);
    assert forall e :: e in t ==> e in u;
    forall k | 0 <= k < 5
      ensures t[k].rank == t[0].rank + k
    {
      assert t[k] == u[top - 5 + k];
      assert ks[top - 5 + k] == ks[top - 5] + k;
    }
  }

  /**
   * `_find_best_straight(cards)`: the cards of the top five entries of the longest
   * run, lowest first, or nothing when that run is shorter than five. The source
   * reads `unique[0]`, so it needs at least one card.
   */
  function FindBestStraight(cs: seq<Card>): (r: seq<Card>)
    requires |cs| > 0
    ensures r == [] || |r| == 5
    ensures forall k :: 0 <= k < |r| ==> r[k] in cs
  {
    UniqueNonEmpty(cs);
    var t := TopFive(Unique(cs));
    UniqueCards(cs);
    forall k | 0 <= k < |t|
      ensures t[k].card in cs
    {
      assert t[k] in t;
    }
    CardsOf(t)
  }
  /** The entries of a run of +1 steps go up by exactly their distance. */
  lemma {:induction false} ConsecOffsets(xs: seq<int>, a: int, len: int)
    requires Consec(xs, a, len)
    ensures forall j :: a <= j < a + len ==> xs[j] == xs[a] + (j - a)
    decreases len
  {
    if len > 1 {
      ConsecOffsets(xs, a, len - 1);
      assert StepUp(xs, a + len - 1);
    }
  }

  /** The longest run has five entries exactly when the ranks hold five consecutive integers. */
  lemma LongestRunFive(ks: seq<int>)
    requires |ks| > 0 && StrictlyIncreasing(ks)
    ensures LongestRun(ks).len >= 5 <==> HasRun(Elems(ks))
  {
    var run := LongestRun(ks);
    WindowIffRun(ks);
    if run.len >= 5 {
      assert Consec(ks, run.start, 5);
    }
  }

  /**
   * The top five entries of a maximal run of five or more: consecutive ranks from
   * `lo`, and `lo + 5` is not a rank at all.
   */
  lemma TopOfRun(ks: seq<int>, run: Span)
    requires StrictlyIncreasing(ks) && MaximalRun(ks, run) && run.len >= 5
    ensures var top := run.start + run.len;
      && (forall j :: top - 5 <= j < top ==> ks[j] == ks[top - 5] + (j - (top - 5)))
      && ks[top - 5] + 5 !in Elems(ks)
  {
    var top := run.start + run.len;
    ConsecOffsets(ks, run.start, run.len);
    if ks[top - 5] + 5 in Elems(ks) {
      assert ks[top - 1] == ks[top - 5] + 4;
      NextIsSuccessor(ks, top - 1);
    }
  }

  /**
   * The result is non-empty exactly when the values, ace also as 1, hold five
   * consecutive ranks.
   */
  lemma FindBestStraightFound(cs: seq<Card>)
    requires |cs| > 0
    ensures FindBestStraight(cs) != [] <==> HasRun(RankSet(ValuesOf(cs)))
  {
    UniqueRanks(cs);
    UniqueNonEmpty(cs);
    TopFiveFound(Unique(cs));
  }

  /** The top five exist exactly when the ranks hold five consecutive integers. */
  lemma TopFiveFound(u: seq<Entry>)
    requires |u| > 0 && StrictlyIncreasing(RanksOf(u))
    ensures TopFive(u) != [] <==> HasRun(Elems(RanksOf(u)))
  {
    LongestRunFive(RanksOf(u));
  }

  /**
   * A non-empty result is five cards standing at five consecutive ranks `lo` ..
   * `lo + 4`, lowest first, each the first entry of its rank, and `lo + 5` is not a
   * rank of the cards: the five are the top of their run.
   */
  lemma FindBestStraightShape(cs: seq<Card>)
    requires |cs| > 0 && FindBestStraight(cs) != []
    ensures exists lo :: BestShape(Entries(cs), RankSet(ValuesOf(cs)), FindBestStraight(cs), lo)
  {
    UniqueNonEmpty(cs);
    var u := Unique(cs);
    var t := TopFive(u);
    assert FindBestStraight(cs) == CardsOf(t);
    UniqueHeads(cs, u);
    var lo := TopShape(Entries(cs), RankSet(ValuesOf(cs)), u, t);
  }

  /**
   * The cards of a non-empty result, in terms of the input: five cards at ranks
   * lo .. lo+4, no card at rank lo+5, and at each rank the first card of that value
   * in input order (the first ace for rank 1 when no card has value 1).
   */
  lemma FindBestStraightCards(cs: seq<Card>)
    requires |cs| > 0
    ensures var r := FindBestStraight(cs);
            r != [] ==> exists lo :: && StraightFrom(r, lo)
                                     && lo + 5 !in RankSet(ValuesOf(cs))
                                     && forall k :: 0 <= k < 5 ==> RankCard(cs, lo + k) == Some(r[k])
  {
    var r := FindBestStraight(cs);
    if r != [] {
      FindBestStraightShape(cs);
      var lo :| BestShape(Entries(cs), RankSet(ValuesOf(cs)), r, lo);
      ShapeCards(cs, r, lo);
    }
  }

  /** The first entries of a best shape hold the rank cards of the input. */
  lemma ShapeCards(cs: seq<Card>, r: seq<Card>, lo: int)
    requires BestShape(Entries(cs), RankSet(ValuesOf(cs)), r, lo)
    ensures forall k :: 0 <= k < 5 ==> RankCard(cs, lo + k) == Some(r[k])
  {
    forall k | 0 <= k < 5
      ensures RankCard(cs, lo + k) == Some(r[k])
    {
      EntriesFirst(cs, lo + k);
    }
  }

  /** What the shape of the result needs to know of `unique`. */
  lemma UniqueHeads(cs: seq<Card>, u: seq<Entry>)
    requires u == Unique(cs)
    ensures Elems(RanksOf(u)) == RankSet(ValuesOf(cs))
    ensures forall e :: e in u ==> FirstOfRank(Entries(cs), e.rank) == Some(e) && RankMatches(e.card, e.rank)
  {
    UniqueRanks(cs);
    UniqueCards(cs);
    UniqueFirst(cs);
  }

  /**
   * Five entries at consecutive ranks, drawn from entries that head their ranks in
   * `es`, with the next rank up absent: a straight in the shape of `BestShape`.
   */
  lemma TopShape(es: seq<Entry>, ranks: set<int>, u: seq<Entry>, t: seq<Entry>) returns (lo: int)
    requires forall e :: e in u ==> FirstOfRank(es, e.rank) == Some(e) && RankMatches(e.card, e.rank)
    requires |t| == 5 && forall e :: e in t ==> e in u
    requires forall k :: 0 <= k < 5 ==> t[k].rank == t[0].rank + k
    requires t[0].rank + 5 !in ranks
    ensures BestShape(es, ranks, CardsOf(t), lo)
  {
    lo := t[0].rank;
    var r := CardsOf(t);
    forall k | 0 <= k < 5
      ensures RankMatches(r[k], lo + k)
      ensures FirstOfRank(es, lo + k) == Some(Entry(lo + k, r[k]))
    {
      HeadAt(es, u, t, k);
      assert t[k] == Entry(lo + k, r[k]);
    }
  }

  /** One of the five heads its rank. */
  lemma HeadAt(es: seq<Entry>, u: seq<Entry>, t: seq<Entry>, k: int)
    requires forall e :: e in u ==> FirstOfRank(es, e.rank) == Some(e) && RankMatches(e.card, e.rank)
    requires forall e :: e in t ==> e in u
    requires 0 <= k < |t|
    ensures FirstOfRank(es, t[k].rank) == Some(t[k]) && RankMatches(t[k].card, t[k].rank)
  {
    assert t[k] in t;
  }

  /**
   * Five cards at the ranks `lo` .. `lo + 4`, lowest first, the next rank up
   * absent from `ranks`, each card the first entry of its rank in `es`.
   */
  ghost predicate BestShape(es: seq<Entry>, ranks: set<int>, r: seq<Card>, lo: int) {
    && StraightFrom(r, lo)
    && lo + 5 !in ranks
    && forall k :: 0 <= k < 5 ==> FirstOfRank(es, lo + k) == Some(Entry(lo + k, r[k]))
  }

  /** One card stands at two different ranks only as an ace, at 1 and at 14: thirteen apart. */
  lemma OneCardTwoRanks(c: Card, d: Card, i: int, j: int)
    requires RankMatches(c, i) && RankMatches(d, j) && i < j
    ensures c == d ==> i == 1 && j == 14
  {
  }

  /** The five cards of a straight are five different cards. */
  lemma StraightNoRepeats(r: seq<Card>, lo: int)
    requires StraightFrom(r, lo)
    ensures NoRepeats(r)
  {
    forall i, j | 0 <= i < j < |r|
      ensures r[i] != r[j]
    {
      OneCardTwoRanks(r[i], r[j], lo + i, lo + j);
    }
  }

  /** The result holds distinct cards of the input, each at most as often as the input has it. */
  lemma FindBestStraightDistinct(cs: seq<Card>)
    requires |cs| > 0
    ensures Distinct(FindBestStraight(cs))
    ensures multiset(FindBestStraight(cs)) <= multiset(cs)
  {
    var r := FindBestStraight(cs);
    if r != [] {
      FindBestStraightShape(cs);
      var lo :| BestShape(Entries(cs), RankSet(ValuesOf(cs)), r, lo);
      StraightNoRepeats(r, lo);
    }
    NoRepeatsIsDistinct(r);
    DistinctSubMultiset(r, cs);
  }

  /** A card of the input standing at rank `k` makes `k` one of the input's ranks. */
  lemma RankOfCard(cs: seq<Card>, c: Card, k: int)
    requires c in cs && RankMatches(c, k)
    ensures k in RankSet(ValuesOf(cs))
  {
    var i :| 0 <= i < |cs| && cs[i] == c;
    assert ValuesOf(cs)[i] == c.value;
  }

  /** `r` is a straight on lo..lo+4 and no five consecutive ranks of `ranks` start above lo. */
  ghost predicate HighestStraight(r: seq<Card>, ranks: set<int>)
  {
    exists lo :: StraightFrom(r, lo) && forall hi :: RunFrom(ranks, hi) ==> hi <= lo
  }

  /**
   * With at most eight cards (seven in a deal), the result is the highest straight:
   * no five consecutive ranks of the input start above its lowest rank.
   */
  lemma FindBestStraightHighest(cs: seq<Card>)
    requires 0 < |cs| <= 8 && FindBestStraight(cs) != []
    ensures HighestStraight(FindBestStraight(cs), RankSet(ValuesOf(cs)))
  {
    var r := FindBestStraight(cs);
    FindBestStraightShape(cs);
    var lo :| BestShape(Entries(cs), RankSet(ValuesOf(cs)), r, lo);
    StraightRanks(cs, r, lo);
    RankSetSize(ValuesOf(cs));
    HighestRun(RankSet(ValuesOf(cs)), lo);
  }

  /** Five cards of the input at ranks `lo` .. `lo + 4` make those ranks a run of the input. */
  lemma StraightRanks(cs: seq<Card>, r: seq<Card>, lo: int)
    requires StraightFrom(r, lo) && forall k :: 0 <= k < |r| ==> r[k] in cs
    ensures RunFrom(RankSet(ValuesOf(cs)), lo)
  {
    var s := RankSet(ValuesOf(cs));
    assert lo in s by { RankOfCard(cs, r[0], lo); }
    assert lo + 1 in s by { RankOfCard(cs, r[1], lo + 1); }
    assert lo + 2 in s by { RankOfCard(cs, r[2], lo + 2); }
    assert lo + 3 in s by { RankOfCard(cs, r[3], lo + 3); }
    assert lo + 4 in s by { RankOfCard(cs, r[4], lo + 4); }
  }
}
