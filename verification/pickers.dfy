/**
 * The per-category selectors of src/poker/game.py (`_pick_*`) and `best_five`.
 *
 * The value-based selectors walk the values from highest to lowest, take the
 * first cards of the first value that has enough of them, and put every other
 * card aside as kickers, which they sort highest first and cut. Each one is a
 * method with the source's loop, proved against the reference description of
 * module Selection: the highest qualifying value, and the best remaining cards.
 */
module Pickers {
  import opened Cards
  import opened Grouping
  import opened Selection
  import opened Runs
  import Straight
  import Hands

  /**
   * The loop shared by the four-of-a-kind, three-of-a-kind and one-pair selectors:
   * the first `n` cards of the first value (highest first) that has at least `n`
   * cards, and the cards of every other value, gathered value by value.
   */
  method SplitGroups(cs: seq<Card>, n: nat) returns (taken: seq<Card>, kickers: seq<Card>)
    requires n > 0
    ensures taken == Take(cs, TopOfKind(cs, n, {}), n)
    ensures kickers == Gather(cs, DescValues(cs), SkipOf(TopOfKind(cs, n, {})))
  {
    var vs := DescValues(cs);
    taken := [];
    kickers := [];
    var i := 0;
    SplitStart(cs, vs, i, n, taken, kickers);
    while i < |vs|
      invariant 0 <= i <= |vs|
      invariant SplitState(cs, vs[..i], n, taken, kickers)
    {
      var g := ValueGroup(cs, vs[i]);
      ghost var taken0, kickers0 := taken, kickers;
      if |g| >= n && taken == [] {
        taken := g[..n];
      } else {
        kickers := kickers + g;
      }
      SplitAdvance(cs, vs, i, n, taken0, kickers0, taken, kickers);
      i := i + 1;
    }
    SplitEnd(cs, n, taken, kickers);
  }

  /** What the loop holds after the values `p`: the first `n` of the first value qualifying so far, and the other cards. */
  ghost predicate SplitState(cs: seq<Card>, p: seq<int>, n: nat, taken: seq<Card>, kickers: seq<Card>) {
    && taken == Take(cs, FirstOfKind(cs, p, n, {}), n)
    && kickers == Gather(cs, p, SkipOf(FirstOfKind(cs, p, n, {})))
  }

  /** Before the loop nothing is taken or gathered. */
  lemma SplitStart(cs: seq<Card>, vs: seq<int>, i: nat, n: nat, taken: seq<Card>, kickers: seq<Card>)
    requires i == 0 && taken == [] && kickers == []
    ensures i <= |vs| && SplitState(cs, vs[..i], n, taken, kickers)
  {
    assert vs[..i] == [];
  }

  /** After the last value the loop has visited every value of the cards. */
  lemma SplitEnd(cs: seq<Card>, n: nat, taken: seq<Card>, kickers: seq<Card>)
    requires SplitState(cs, DescValues(cs)[..|DescValues(cs)|], n, taken, kickers)
    ensures taken == Take(cs, TopOfKind(cs, n, {}), n)
    ensures kickers == Gather(cs, DescValues(cs), SkipOf(TopOfKind(cs, n, {})))
  {
    var vs := DescValues(cs);
    assert vs[..|vs|] == vs;
  }

  /** The loop's state after the turn on `vs[i]`, from its state before. */
  lemma SplitAdvance(cs: seq<Card>, vs: seq<int>, i: int, n: nat,
                     taken0: seq<Card>, kickers0: seq<Card>, taken: seq<Card>, kickers: seq<Card>)
    requires StrictlyDecreasing(vs) && 0 <= i < |vs| && n > 0
    requires SplitState(cs, vs[..i], n, taken0, kickers0)
    requires var g := ValueGroup(cs, vs[i]);
             if |g| >= n && taken0 == [] then taken == g[..n] && kickers == kickers0
             else taken == taken0 && kickers == kickers0 + g
    ensures SplitState(cs, vs[..i + 1], n, taken, kickers)
  {
    SplitStep(cs, vs, i, n);
  }

  /** One turn of the loop: the value `vs[i]` is taken when it is the first to qualify, else gathered. */
  lemma SplitStep(cs: seq<Card>, vs: seq<int>, i: int, n: nat)
    requires StrictlyDecreasing(vs) && 0 <= i < |vs| && n > 0
    ensures var before := FirstOfKind(cs, vs[..i], n, {});
            var after := FirstOfKind(cs, vs[..i + 1], n, {});
            var g := ValueGroup(cs, vs[i]);
            && (Take(cs, before, n) == [] <==> before.None?)
            && if |g| >= n && before.None? then
                 && Take(cs, after, n) == g[..n]
                 && Gather(cs, vs[..i + 1], SkipOf(after)) == Gather(cs, vs[..i], SkipOf(before))
               else
                 && Take(cs, after, n) == Take(cs, before, n)
                 && Gather(cs, vs[..i + 1], SkipOf(after)) == Gather(cs, vs[..i], SkipOf(before)) + g
  {
    assert vs[..i + 1] == vs[..i] + [vs[i]];
    AbsentFromPrefix(vs, i);
    StepOn(cs, vs[..i], vs[i], n);
  }

  lemma StepOn(cs: seq<Card>, p: seq<int>, x: int, n: nat)
    requires forall j :: 0 <= j < |p| ==> p[j] != x
    requires n > 0
    ensures var before := FirstOfKind(cs, p, n, {});
            var after := FirstOfKind(cs, p + [x], n, {});
            var g := ValueGroup(cs, x);
            && (Take(cs, before, n) == [] <==> before.None?)
            && if |g| >= n && before.None? then
                 && Take(cs, after, n) == g[..n]
                 && Gather(cs, p + [x], SkipOf(after)) == Gather(cs, p, SkipOf(before))
               else
                 && Take(cs, after, n) == Take(cs, before, n)
                 && Gather(cs, p + [x], SkipOf(after)) == Gather(cs, p, SkipOf(before)) + g
  {
    var before := FirstOfKind(cs, p, n, {});
    FirstOfKindSnoc(cs, p, x, n, {});
    GatherSnoc(cs, p, x, SkipOf(before));
    if |ValueGroup(cs, x)| >= n && before.None? {
      GatherSkipListed(cs, p, {}, {x});
      GatherSnoc(cs, p, x, {x});
    }
  }

  /** A listing without repeats does not repeat its `i`-th value before index `i`. */
  lemma AbsentFromPrefix(vs: seq<int>, i: int)
    requires NoRepeats(vs) && 0 <= i < |vs|
    ensures forall j :: 0 <= j < |vs[..i]| ==> vs[..i][j] != vs[i]
  {
  }

  /**
   * Sorting the gathered kickers highest first and keeping `k` of them gives the
   * `k` best cards outside the skipped values.
   */
  lemma BestKickers(cs: seq<Card>, skip: set<int>, k: nat)
    ensures var kickers := Gather(cs, DescValues(cs), skip);
            && |kickers| == |Without(cs, skip)|
            && TopCards(Prefix(SortDescending(kickers), k), Without(cs, skip), k)
  {
    var kickers := Gather(cs, DescValues(cs), skip);
    GatherDescValues(cs, skip);
    assert |kickers| == |multiset(kickers)| == |multiset(Without(cs, skip))| == |Without(cs, skip)|;
    SortedPrefixIsTop(kickers, k);
    forall v
      ensures ValueGroup(kickers, v) == ValueGroup(Without(cs, skip), v)
    {
    }
    TopCardsSamePool(Prefix(SortDescending(kickers), k), kickers, Without(cs, skip), k);
  }

  /** The cards taken of one value, followed by cards drawn from the other values, are drawn from the cards. */
  lemma TakenAndKickers(cs: seq<Card>, o: Option<int>, n: nat, kick: seq<Card>)
    requires o.Some? ==> Count(cs, o.value) >= n
    requires multiset(kick) <= multiset(Without(cs, SkipOf(o)))
    ensures multiset(Take(cs, o, n) + kick) <= multiset(cs)
  {
    if o.Some? {
      var g := ValueGroup(cs, o.value);
      assert g == g[..n] + g[n..];
      SplitOffValue(cs, o.value);
    } else {
      WithoutMultiset(cs, {});
      assert multiset(Without(cs, {})) == multiset(cs);
    }
  }

  /**
   * The shape of an `n` of a kind pick: the first `n` cards of the highest value
   * held `n` times (none when no value is), then the `k` best cards of the other values.
   */
  ghost predicate KindPicked(cs: seq<Card>, n: nat, k: nat, r: seq<Card>) {
    var top := TopOfKind(cs, n, {});
    var m := if top.Some? then n else 0;
    && |r| >= m
    && r[..m] == Take(cs, top, n)
    && TopCards(r[m..], Without(cs, SkipOf(top)), k)
  }

  /** A pick of `n` of a kind and `k` kickers has at most `n + k` cards. */
  lemma KindPickedSize(cs: seq<Card>, n: nat, k: nat, r: seq<Card>)
    requires KindPicked(cs, n, k, r)
    ensures |r| <= n + k
  {
  }

  /**
   * The shape of a two-pair pick: the first two cards of the highest value held
   * twice, the first two of the next such value, then the best card of the rest.
   */
  ghost predicate TwoPairPicked(cs: seq<Card>, r: seq<Card>) {
    var a := TopOfKind(cs, 2, {});
    var b := TopOfKind(cs, 2, SkipOf(a));
    && |r| == 5
    && r[..2] == Take(cs, a, 2)
    && r[2..4] == Take(cs, b, 2)
    && TopCards(r[4..], Without(cs, {a.value, b.value}), 1)
  }

  /**
   * `_pick_four_of_a_kind`: the first four cards of the highest value held four
   * times (none if there is no such value), then the best card of the other values.
   * The source indexes `kickers[0]`, so it needs a card outside the four.
   */
  method PickFourOfAKind(cs: seq<Card>) returns (r: seq<Card>)
    requires |Without(cs, SkipOf(TopOfKind(cs, 4, {})))| > 0
    ensures |r| == (if TopOfKind(cs, 4, {}).Some? then 4 else 0) + 1
    ensures KindPicked(cs, 4, 1, r)
    ensures multiset(r) <= multiset(cs)
  {
    var top := TopOfKind(cs, 4, {});
    var four, kickers := SplitGroups(cs, 4);
    var sorted := SortDescending(kickers);
    BestKickers(cs, SkipOf(top), 1);
    PrefixOne(sorted);
    var best := [sorted[0]];
    r := four + best;
    assert r[|four|..] == best;
    TakenAndKickers(cs, top, 4, best);
  }

  /**
   * `_pick_three_of_a_kind`: the first three cards of the highest value held three
   * times (none if there is no such value), then the two best cards of the other values.
   */
  method PickThreeOfAKind(cs: seq<Card>) returns (r: seq<Card>)
    ensures KindPicked(cs, 3, 2, r)
    ensures multiset(r) <= multiset(cs)
  {
    var top := TopOfKind(cs, 3, {});
    var three, kickers := SplitGroups(cs, 3);
    BestKickers(cs, SkipOf(top), 2);
    var best := Prefix(SortDescending(kickers), 2);
    r := three + best;
    assert r[|three|..] == best;
    TakenAndKickers(cs, top, 3, best);
  }

  /**
   * `_pick_one_pair`: the first two cards of the highest value held twice (none if
   * there is no such value), then the three best cards of the other values.
   */
  method PickOnePair(cs: seq<Card>) returns (r: seq<Card>)
    ensures KindPicked(cs, 2, 3, r)
    ensures multiset(r) <= multiset(cs)
  {
    var top := TopOfKind(cs, 2, {});
    var pair, kickers := SplitGroups(cs, 2);
    BestKickers(cs, SkipOf(top), 3);
    var best := Prefix(SortDescending(kickers), 3);
    r := pair + best;
    assert r[|pair|..] == best;
    TakenAndKickers(cs, top, 2, best);
  }

  lemma PrefixOne<T>(s: seq<T>)
    requires |s| > 0
    ensures Prefix(s, 1) == [s[0]]
  {
  }

  /** The values of a full house among the first values `vs`: the trips value, then the pair value. */
  function HouseOf(cs: seq<Card>, vs: seq<int>): (Option<int>, Option<int>) {
    var t := FirstOfKind(cs, vs, 3, {});
    (t, FirstOfKind(cs, vs, 2, SkipOf(t)))
  }

  /**
   * `_pick_full_house`: the first three cards of the highest value held three times,
   * then the first two cards of the highest other value held at least twice. Either
   * part is empty when no value qualifies for it.
   */
  method PickFullHouse(cs: seq<Card>) returns (r: seq<Card>)
    ensures var t := TopOfKind(cs, 3, {});
            var p := TopOfKind(cs, 2, SkipOf(t));
            r == Take(cs, t, 3) + Take(cs, p, 2)
    ensures multiset(r) <= multiset(cs)
  {
    var vs := DescValues(cs);
    assert NoRepeats(vs);
    var three, pair := HouseLoop(cs, vs);
    r := three + pair;
    FullHouseCards(cs);
  }

  /** The full-house loop over the distinct values `vs`, in that order. */
  method HouseLoop(cs: seq<Card>, vs: seq<int>) returns (three: seq<Card>, pair: seq<Card>)
    requires NoRepeats(vs)
    ensures three == Take(cs, HouseOf(cs, vs).0, 3) && pair == Take(cs, HouseOf(cs, vs).1, 2)
  {
    three, pair := [], [];
    var i := 0;
    while i < |vs|
      invariant 0 <= i <= |vs|
      invariant three == Take(cs, HouseOf(cs, vs[..i]).0, 3)
      invariant pair == Take(cs, HouseOf(cs, vs[..i]).1, 2)
    {
      assert vs[..i + 1] == vs[..i] + [vs[i]];
      AbsentFromPrefix(vs, i);
      FullHouseTurn(cs, vs[..i], vs[i], three, pair);
      var g := ValueGroup(cs, vs[i]);
      if |g| >= 3 && three == [] {
        three := g[..3];
      } else if |g| >= 2 && pair == [] {
        pair := g[..2];
      }
      i := i + 1;
    }
    assert vs[..i] == vs;
  }

  /** The loop's two lists after one more turn, over the value `x`, are those of the values `p + [x]`. */
  lemma FullHouseTurn(cs: seq<Card>, p: seq<int>, x: int, three: seq<Card>, pair: seq<Card>)
    requires forall j :: 0 <= j < |p| ==> p[j] != x
    requires three == Take(cs, HouseOf(cs, p).0, 3) && pair == Take(cs, HouseOf(cs, p).1, 2)
    ensures var g := ValueGroup(cs, x);
            var takeThree := |g| >= 3 && three == [];
            && (if takeThree then g[..3] else three) == Take(cs, HouseOf(cs, p + [x]).0, 3)
            && (if !takeThree && |g| >= 2 && pair == [] then g[..2] else pair) == Take(cs, HouseOf(cs, p + [x]).1, 2)
  {
    FullHouseStep(cs, p, x);
  }

  /** One turn of the full-house loop over the value `x`, which the values `p` before it do not repeat. */
  lemma FullHouseStep(cs: seq<Card>, p: seq<int>, x: int)
    requires forall j :: 0 <= j < |p| ==> p[j] != x
    ensures var (t, q) := HouseOf(cs, p);
            var (t', q') := HouseOf(cs, p + [x]);
            var g := ValueGroup(cs, x);
            && (Take(cs, t, 3) == [] <==> t.None?)
            && (Take(cs, q, 2) == [] <==> q.None?)
            && if |g| >= 3 && t.None? then Take(cs, t', 3) == g[..3] && q' == q
               else if |g| >= 2 && q.None? then t' == t && Take(cs, q', 2) == g[..2]
               else t' == t && q' == q
  {
    var (t, q) := HouseOf(cs, p);
    FirstOfKindSnoc(cs, p, x, 3, {});
    FirstOfKindSnoc(cs, p, x, 2, SkipOf(t));
    if Count(cs, x) >= 3 && t.None? {
      FirstOfKindSnoc(cs, p, x, 2, {x});
      FirstOfKindSkipListed(cs, p, 2, {}, {x});
    }
  }

  /** The trips and the pair have different values, so together they are drawn from the cards. */
  lemma FullHouseCards(cs: seq<Card>)
    ensures var t := TopOfKind(cs, 3, {});
            var p := TopOfKind(cs, 2, SkipOf(t));
            multiset(Take(cs, t, 3) + Take(cs, p, 2)) <= multiset(cs)
  {
    var t := TopOfKind(cs, 3, {});
    TwoTakes(cs, t, TopOfKind(cs, 2, SkipOf(t)));
  }

  lemma TwoTakes(cs: seq<Card>, t: Option<int>, p: Option<int>)
    requires t.Some? ==> Count(cs, t.value) >= 3
    requires p.Some? ==> p.value !in SkipOf(t) && Count(cs, p.value) >= 2
    ensures multiset(Take(cs, t, 3) + Take(cs, p, 2)) <= multiset(cs)
  {
    var pair := Take(cs, p, 2);
    if p.Some? {
      var g := ValueGroup(cs, p.value);
      assert g == g[..2] + g[2..];
      WithoutGroupCards(cs, SkipOf(t), p.value);
    }
    assert multiset(pair) <= multiset(Without(cs, SkipOf(t)));
    TakenAndKickers(cs, t, 3, pair);
  }

  /** A value outside `skip` keeps all its cards after the others are left out. */
  lemma WithoutGroupCards(cs: seq<Card>, skip: set<int>, v: int)
    requires v !in skip
    ensures multiset(ValueGroup(cs, v)) <= multiset(Without(cs, skip))
  {
    ValueGroupMultiset(cs, v);
    WithoutMultiset(cs, skip);
  }

  /** The two pair values among the first values `vs`: the highest held twice, then the next. */
  function PairsOf(cs: seq<Card>, vs: seq<int>): (Option<int>, Option<int>) {
    var a := FirstOfKind(cs, vs, 2, {});
    (a, FirstOfKind(cs, vs, 2, SkipOf(a)))
  }

  /**
   * What `_pick_two_pair` needs to return: two values held at least twice, and a
   * card of some other value for `kickers[0]`.
   */
  predicate TwoPairPickable(cs: seq<Card>) {
    var a := TopOfKind(cs, 2, {});
    var b := TopOfKind(cs, 2, SkipOf(a));
    a.Some? && b.Some? && |Without(cs, {a.value, b.value})| > 0
  }

  /**
   * `_pick_two_pair`: the first two cards of the highest value held twice, the first
   * two of the next such value, then the best card of the other values.
   */
  method PickTwoPair(cs: seq<Card>) returns (r: seq<Card>)
    requires TwoPairPickable(cs)
    ensures TwoPairPicked(cs, r)
    ensures multiset(r) <= multiset(cs)
  {
    var pairs, kickers := CollectPairs(cs);
    TwoPairKickers(cs, pairs, kickers);
    var sorted := SortDescending(kickers);
    PrefixOne(sorted);
    r := pairs[0] + pairs[1] + [sorted[0]];
    TwoPairPost(cs, pairs, kickers, r);
  }

  /** The loop's outcome when two pairs exist: two pairs of two, and at least one kicker. */
  lemma TwoPairKickers(cs: seq<Card>, pairs: seq<seq<Card>>, kickers: seq<Card>)
    requires TwoPairPickable(cs)
    requires var a := TopOfKind(cs, 2, {});
             var b := TopOfKind(cs, 2, SkipOf(a));
             && |pairs| == (if a.Some? then 1 else 0) + (if b.Some? then 1 else 0)
             && (a.Some? ==> pairs[0] == Take(cs, a, 2))
             && (b.Some? ==> pairs[1] == Take(cs, b, 2))
             && kickers == Gather(cs, DescValues(cs), SkipOf(a) + SkipOf(b))
    ensures |pairs| == 2 && |pairs[0]| == 2 && |pairs[1]| == 2 && |kickers| > 0
  {
    var a := TopOfKind(cs, 2, {});
    var b := TopOfKind(cs, 2, SkipOf(a));
    assert SkipOf(a) + SkipOf(b) == {a.value, b.value};
    TwoPairResult(cs, a.value, b.value, pairs, kickers);
  }

  /** The contract of `_pick_two_pair`, from the loop's outcome. */
  lemma TwoPairPost(cs: seq<Card>, pairs: seq<seq<Card>>, kickers: seq<Card>, r: seq<Card>)
    requires TwoPairPickable(cs)
    requires var a := TopOfKind(cs, 2, {});
             var b := TopOfKind(cs, 2, SkipOf(a));
             && |pairs| == (if a.Some? then 1 else 0) + (if b.Some? then 1 else 0)
             && (a.Some? ==> pairs[0] == Take(cs, a, 2))
             && (b.Some? ==> pairs[1] == Take(cs, b, 2))
             && kickers == Gather(cs, DescValues(cs), SkipOf(a) + SkipOf(b))
    requires |pairs| == 2 && r == pairs[0] + pairs[1] + Prefix(SortDescending(kickers), 1)
    ensures TwoPairPicked(cs, r)
    ensures multiset(r) <= multiset(cs)
  {
    var a := TopOfKind(cs, 2, {});
    var b := TopOfKind(cs, 2, SkipOf(a));
    var v, w := a.value, b.value;
    assert v != w && SkipOf(a) + SkipOf(b) == {v, w};
    assert pairs[0] == ValueGroup(cs, v)[..2] && pairs[1] == ValueGroup(cs, w)[..2];
    var k := Prefix(SortDescending(kickers), 1);
    TwoPairResult(cs, v, w, pairs, kickers);
    TwoPairParts(pairs[0], pairs[1], k, r);
  }

  lemma TwoPairParts(p: seq<Card>, q: seq<Card>, k: seq<Card>, r: seq<Card>)
    requires |p| == 2 && |q| == 2 && |k| == 1 && r == p + q + k
    ensures |r| == 5 && r[..2] == p && r[2..4] == q && r[4..] == k
  {
  }

  /** The loop of `_pick_two_pair`: up to two pairs, highest first, and the cards of every other value. */
  method CollectPairs(cs: seq<Card>) returns (pairs: seq<seq<Card>>, kickers: seq<Card>)
    ensures var a := TopOfKind(cs, 2, {});
            var b := TopOfKind(cs, 2, SkipOf(a));
            && |pairs| == (if a.Some? then 1 else 0) + (if b.Some? then 1 else 0)
            && (a.Some? ==> pairs[0] == Take(cs, a, 2))
            && (b.Some? ==> pairs[1] == Take(cs, b, 2))
            && kickers == Gather(cs, DescValues(cs), SkipOf(a) + SkipOf(b))
  {
    pairs, kickers := CollectPairsOver(cs, DescValues(cs));
  }

  method CollectPairsOver(cs: seq<Card>, vs: seq<int>) returns (pairs: seq<seq<Card>>, kickers: seq<Card>)
    requires NoRepeats(vs)
    ensures PairsState(cs, vs, pairs, kickers)
  {
    pairs := [];
    kickers := [];
    var i := 0;
    assert vs[..0] == [];
    PairsStateEmpty(cs);
    while i < |vs|
      invariant 0 <= i <= |vs|
      invariant PairsState(cs, vs[..i], pairs, kickers)
    {
      assert vs[..i + 1] == vs[..i] + [vs[i]];
      AbsentFromPrefix(vs, i);
      PairsLoopStep(cs, vs[..i], vs[i], pairs, kickers);
      var g := ValueGroup(cs, vs[i]);
      if |g| >= 2 && |pairs| < 2 {
        pairs := pairs + [g[..2]];
      } else {
        kickers := kickers + g;
      }
      i := i + 1;
    }
    assert vs[..i] == vs;
  }

  /** What the two-pair loop holds after the values `p`: the pairs found so far, and the other cards. */
  ghost predicate PairsState(cs: seq<Card>, p: seq<int>, pairs: seq<seq<Card>>, kickers: seq<Card>) {
    var a := PairsOf(cs, p).0;
    var b := PairsOf(cs, p).1;
    && (a.None? ==> b.None?)
    && |pairs| == (if a.Some? then 1 else 0) + (if b.Some? then 1 else 0)
    && (a.Some? ==> pairs[0] == Take(cs, a, 2))
    && (b.Some? ==> pairs[1] == Take(cs, b, 2))
    && kickers == Gather(cs, p, SkipOf(a) + SkipOf(b))
  }

  lemma PairsStateEmpty(cs: seq<Card>)
    ensures PairsState(cs, [], [], [])
  {
  }

  /** One turn of the two-pair loop keeps its state. */
  lemma PairsLoopStep(cs: seq<Card>, p: seq<int>, x: int, pairs: seq<seq<Card>>, kickers: seq<Card>)
    requires forall j :: 0 <= j < |p| ==> p[j] != x
    requires PairsState(cs, p, pairs, kickers)
    ensures var g := ValueGroup(cs, x);
            if |g| >= 2 && |pairs| < 2 then PairsState(cs, p + [x], pairs + [g[..2]], kickers)
            else PairsState(cs, p + [x], pairs, kickers + g)
  {
    var a := PairsOf(cs, p).0;
    var b := PairsOf(cs, p).1;
    PairsStep(cs, p, x);
    var a' := PairsOf(cs, p + [x]).0;
    var b' := PairsOf(cs, p + [x]).1;
    PairsGatherStep(cs, p, x, a, b, a', b');
  }

  /** After the two-pair loop, with pair values `v` and `w`: the result's parts as the contract states them. */
  lemma TwoPairResult(cs: seq<Card>, v: int, w: int, pairs: seq<seq<Card>>, kickers: seq<Card>)
    requires v != w && Count(cs, v) >= 2 && Count(cs, w) >= 2 && |Without(cs, {v, w})| > 0
    requires |pairs| == 2 && pairs[0] == ValueGroup(cs, v)[..2] && pairs[1] == ValueGroup(cs, w)[..2]
    requires kickers == Gather(cs, DescValues(cs), {v, w})
    ensures |kickers| > 0
    ensures TopCards(Prefix(SortDescending(kickers), 1), Without(cs, {v, w}), 1)
    ensures multiset(pairs[0] + pairs[1] + Prefix(SortDescending(kickers), 1)) <= multiset(cs)
  {
    BestKickers(cs, {v, w}, 1);
    TwoPairCards(cs, v, w, Prefix(SortDescending(kickers), 1));
  }

  lemma TwoPairCards(cs: seq<Card>, v: int, w: int, kick: seq<Card>)
    requires v != w && Count(cs, v) >= 2 && Count(cs, w) >= 2
    requires multiset(kick) <= multiset(Without(cs, {v, w}))
    ensures multiset(ValueGroup(cs, v)[..2] + ValueGroup(cs, w)[..2] + kick) <= multiset(cs)
  {
    var g := ValueGroup(cs, v);
    var h := ValueGroup(cs, w);
    assert g == g[..2] + g[2..];
    assert h == h[..2] + h[2..];
    SplitOffTwoValues(cs, v, w);
  }

  /** One turn of the two-pair loop over the value `x`, which the values `p` before it do not repeat. */
  lemma PairsStep(cs: seq<Card>, p: seq<int>, x: int)
    requires forall j :: 0 <= j < |p| ==> p[j] != x
    ensures var a := PairsOf(cs, p).0;
            var b := PairsOf(cs, p).1;
            var a' := PairsOf(cs, p + [x]).0;
            var b' := PairsOf(cs, p + [x]).1;
            && (a.None? ==> b.None?)
            && (a'.None? ==> b'.None?)
            && (a.Some? ==> a.value in p)
            && (b.Some? ==> b.value in p)
            && if Count(cs, x) >= 2 && b.None? then
                 if a.None? then a' == Some(x) && b' == None else a' == a && b' == Some(x)
               else a' == a && b' == b
  {
    var (a, b) := PairsOf(cs, p);
    FirstOfKindSnoc(cs, p, x, 2, {});
    FirstOfKindSnoc(cs, p, x, 2, SkipOf(a));
    if Count(cs, x) >= 2 && a.None? {
      FirstOfKindSnoc(cs, p, x, 2, {x});
      FirstOfKindSkipListed(cs, p, 2, {}, {x});
    }
  }

  /** The kickers' side of one turn of the two-pair loop. */
  lemma PairsGatherStep(cs: seq<Card>, p: seq<int>, x: int, a: Option<int>, b: Option<int>, a': Option<int>, b': Option<int>)
    requires forall j :: 0 <= j < |p| ==> p[j] != x
    requires a.Some? ==> a.value in p
    requires b.Some? ==> b.value in p
    requires if Count(cs, x) >= 2 && b.None? then
               if a.None? then a' == Some(x) && b' == None else a' == a && b' == Some(x)
             else a' == a && b' == b
    ensures if Count(cs, x) >= 2 && b.None? then
              Gather(cs, p + [x], SkipOf(a') + SkipOf(b')) == Gather(cs, p, SkipOf(a) + SkipOf(b))
            else
              Gather(cs, p + [x], SkipOf(a') + SkipOf(b')) == Gather(cs, p, SkipOf(a) + SkipOf(b)) + ValueGroup(cs, x)
  {
    GatherSnoc(cs, p, x, SkipOf(a') + SkipOf(b'));
    GatherSkipListed(cs, p, SkipOf(a') + SkipOf(b'), SkipOf(a) + SkipOf(b));
  }

  /** A suit's cards hold a straight the selector can return: five cards, and a run among them. */
  predicate SuitStraight(cs: seq<Card>, s: char) {
    |SuitGroup(cs, s)| >= 5 && Straight.FindBestStraight(SuitGroup(cs, s)) != []
  }

  /**
   * The loop of `_pick_straight_flush` from the card at index `i` on: the suits are
   * met in the order of their first cards, and the first suit with at least five
   * cards that hold a straight gives the best straight among its cards.
   */
  function StraightFlushFrom(cs: seq<Card>, i: nat): (r: seq<Card>)
    ensures r == [] <==> forall j :: i <= j < |cs| ==> !SuitStraight(cs, cs[j].suit)
    ensures r != [] ==> exists j :: i <= j < |cs| && SuitStraight(cs, cs[j].suit)
                                    && r == Straight.FindBestStraight(SuitGroup(cs, cs[j].suit))
    decreases |cs| - i
  {
    if i >= |cs| then []
    else if SuitStraight(cs, cs[i].suit) then Straight.FindBestStraight(SuitGroup(cs, cs[i].suit))
    else StraightFlushFrom(cs, i + 1)
  }

  /**
   * The index of the first card from `i` on whose suit holds a straight the selector
   * can return, or an index past the cards when there is none.
   */
  function FirstStraightSuit(cs: seq<Card>, i: nat): (j: nat)
    ensures i <= j
    ensures j < |cs| ==> SuitStraight(cs, cs[j].suit)
    ensures forall k :: i <= k < j && k < |cs| ==> !SuitStraight(cs, cs[k].suit)
    decreases |cs| - i
  {
    if i >= |cs| || SuitStraight(cs, cs[i].suit) then i else FirstStraightSuit(cs, i + 1)
  }

  /**
   * The loop stops at the first card whose suit qualifies: dict insertion order
   * puts the suits in the order of their first cards.
   */
  lemma {:induction false} StraightFlushFromFirst(cs: seq<Card>, i: nat)
    ensures var j := FirstStraightSuit(cs, i);
            StraightFlushFrom(cs, i) == if j < |cs| then Straight.FindBestStraight(SuitGroup(cs, cs[j].suit)) else []
    decreases |cs| - i
  {
    if i < |cs| && !SuitStraight(cs, cs[i].suit) {
      StraightFlushFromFirst(cs, i + 1);
    }
  }

  /**
   * `_pick_straight_flush`: the best straight among the cards of the first suit, in
   * card order, whose cards hold a straight; empty when no suit does.
   */
  function PickStraightFlush(cs: seq<Card>): (r: seq<Card>)
    ensures var j := FirstStraightSuit(cs, 0);
            r == if j < |cs| then Straight.FindBestStraight(SuitGroup(cs, cs[j].suit)) else []
  {
    StraightFlushFromFirst(cs, 0);
    StraightFlushFrom(cs, 0)
  }

  /** The straight-flush selector finds cards exactly when the straight-flush test of src/poker/hands.py holds. */
  lemma PickStraightFlushFound(cs: seq<Card>)
    ensures PickStraightFlush(cs) == [] <==> !Hands.StraightFlushIn(cs)
  {
    Hands.StraightFlushInSpec(cs);
    forall s
      ensures SuitStraight(cs, s) <==> Hands.SuitQualifies(cs, s)
    {
      if |SuitGroup(cs, s)| >= 5 {
        Straight.FindBestStraightFound(SuitGroup(cs, s));
      }
    }
    if Hands.StraightFlushIn(cs) {
      var s :| Hands.SuitQualifies(cs, s);
      var g := SuitGroup(cs, s);
      SuitGroupMultiset(cs, s);
      assert g[0] in multiset(g);
      var j :| 0 <= j < |cs| && cs[j] == g[0];
      assert SuitStraight(cs, cs[j].suit);
    }
  }

  /**
   * A non-empty result of the straight-flush selector is five different cards of
   * one suit, drawn from the cards, at five consecutive ranks, lowest first.
   */
  lemma PickStraightFlushCards(cs: seq<Card>)
    ensures var r := PickStraightFlush(cs);
            r != [] ==> && (exists lo :: Straight.StraightFrom(r, lo))
                        && (forall k :: 0 <= k < |r| ==> r[k].suit == r[0].suit)
                        && Distinct(r) && multiset(r) <= multiset(cs)
                        && r == Straight.FindBestStraight(SuitGroup(cs, r[0].suit))
                        && FirstStraightSuit(cs, 0) < |cs| && cs[FirstStraightSuit(cs, 0)].suit == r[0].suit
  {
    var r := PickStraightFlush(cs);
    StraightFlushFromFirst(cs, 0);
    if r != [] {
      var j := FirstStraightSuit(cs, 0);
      SuitStraightCards(cs, cs[j].suit);
    }
  }

  /**
   * With at most eight cards, the straight flush picked is the highest straight
   * among the cards of its suit.
   */
  lemma PickStraightFlushHighest(cs: seq<Card>)
    requires |cs| <= 8
    ensures var r := PickStraightFlush(cs);
            r != [] ==> Straight.HighestStraight(r, RankSet(ValuesOf(SuitGroup(cs, r[0].suit))))
  {
    var r := PickStraightFlush(cs);
    StraightFlushFromFirst(cs, 0);
    if r != [] {
      var s := cs[FirstStraightSuit(cs, 0)].suit;
      SuitStraightCards(cs, s);
      Straight.FindBestStraightHighest(SuitGroup(cs, s));
    }
  }

  /** The best straight of one suit's cards: five different cards of that suit, drawn from the cards. */
  lemma SuitStraightCards(cs: seq<Card>, s: char)
    requires SuitStraight(cs, s)
    ensures var r := Straight.FindBestStraight(SuitGroup(cs, s));
            && (exists lo :: Straight.StraightFrom(r, lo))
            && (forall k :: 0 <= k < |r| ==> r[k].suit == s)
            && Distinct(r) && multiset(r) <= multiset(cs)
  {
    var g := SuitGroup(cs, s);
    var r := Straight.FindBestStraight(g);
    Straight.FindBestStraightShape(g);
    var lo :| Straight.BestShape(Straight.Entries(g), RankSet(ValuesOf(g)), r, lo);
    Straight.FindBestStraightDistinct(g);
    forall k | 0 <= k < |r|
      ensures r[k].suit == s
    {
      assert r[k] in multiset(g);
    }
    SuitGroupMultiset(cs, s);
    assert multiset(g) <= multiset(cs);
  }

  /** `sorted(cards, key=value)[-5:]`: the last five cards of the ascending sort. */
  function LastFiveAscending(g: seq<Card>): (r: seq<Card>)
    requires |g| >= 5
  {
    var a := SortAscending(g);
    a[|a| - 5..]
  }

  /**
   * The last five cards of the ascending sort: five cards of the group, lowest first,
   * and no card left out of them is higher than the lowest of them.
   */
  lemma LastFiveAreHighest(g: seq<Card>)
    requires |g| >= 5
    ensures var r := LastFiveAscending(g);
            && |r| == 5
            && (forall i, j :: 0 <= i < j < |r| ==> r[i].value <= r[j].value)
            && multiset(r) <= multiset(g)
            && forall c :: c in multiset(g) - multiset(r) ==> c.value <= r[0].value
  {
    var a := SortAscending(g);
    var r := a[|a| - 5..];
    assert r == LastFiveAscending(g);
    AscendingSuffix(a, |a| - 5);
    assert multiset(a) == multiset(g);
  }

  /** A suffix of a sequence sorted by ascending value is sorted and outranks the rest. */
  lemma AscendingSuffix(a: seq<Card>, m: nat)
    requires m < |a|
    requires forall i, j :: 0 <= i < j < |a| ==> a[i].value <= a[j].value
    ensures forall i, j :: 0 <= i < j < |a[m..]| ==> a[m..][i].value <= a[m..][j].value
    ensures multiset(a[m..]) <= multiset(a)
    ensures forall c :: c in multiset(a) - multiset(a[m..]) ==> c.value <= a[m..][0].value
  {
    SplitMultiset(a, m);
    forall c | c in multiset(a[..m])
      ensures c.value <= a[m..][0].value
    {
      var i :| 0 <= i < m && a[..m][i] == c;
      assert a[i] == c && a[m..][0] == a[m];
    }
  }

  /**
   * The loop of `_pick_flush` from the card at index `i` on: the first suit, in the
   * order of first cards, with at least five cards gives its five highest cards.
   */
  function FlushFrom(cs: seq<Card>, i: nat): (r: seq<Card>)
    ensures r == [] <==> forall j :: i <= j < |cs| ==> |SuitGroup(cs, cs[j].suit)| < 5
    ensures r != [] ==> exists j :: i <= j < |cs| && |SuitGroup(cs, cs[j].suit)| >= 5
                                    && r == LastFiveAscending(SuitGroup(cs, cs[j].suit))
    decreases |cs| - i
  {
    if i >= |cs| then []
    else if |SuitGroup(cs, cs[i].suit)| >= 5 then LastFiveAscending(SuitGroup(cs, cs[i].suit))
    else FlushFrom(cs, i + 1)
  }

  /** The index of the first card from `i` on whose suit has at least five cards, or an index past the cards. */
  function FirstFlushSuit(cs: seq<Card>, i: nat): (j: nat)
    ensures i <= j
    ensures j < |cs| ==> |SuitGroup(cs, cs[j].suit)| >= 5
    ensures forall k :: i <= k < j && k < |cs| ==> |SuitGroup(cs, cs[k].suit)| < 5
    decreases |cs| - i
  {
    if i >= |cs| || |SuitGroup(cs, cs[i].suit)| >= 5 then i else FirstFlushSuit(cs, i + 1)
  }

  /** The flush loop stops at the first card whose suit has at least five cards. */
  lemma {:induction false} FlushFromFirst(cs: seq<Card>, i: nat)
    ensures var j := FirstFlushSuit(cs, i);
            FlushFrom(cs, i) == if j < |cs| then LastFiveAscending(SuitGroup(cs, cs[j].suit)) else []
    decreases |cs| - i
  {
    if i < |cs| && |SuitGroup(cs, cs[i].suit)| < 5 {
      FlushFromFirst(cs, i + 1);
    }
  }

  /**
   * `_pick_flush`: the five highest cards, lowest first, of the first suit in card
   * order that has at least five cards; empty when no suit does.
   */
  function PickFlush(cs: seq<Card>): (r: seq<Card>)
    ensures var j := FirstFlushSuit(cs, 0);
            r == if j < |cs| then LastFiveAscending(SuitGroup(cs, cs[j].suit)) else []
  {
    FlushFromFirst(cs, 0);
    FlushFrom(cs, 0)
  }

  /** The flush selector finds cards exactly when some suit has at least five cards. */
  lemma PickFlushFound(cs: seq<Card>)
    ensures PickFlush(cs) == [] <==> forall c :: c in cs ==> |SuitGroup(cs, c.suit)| < 5
  {
    forall c | c in cs
      ensures exists j :: 0 <= j < |cs| && cs[j].suit == c.suit
    {
      var j :| 0 <= j < |cs| && cs[j] == c;
    }
  }

  /**
   * A non-empty result of the flush selector is five cards of one suit that has at
   * least five, lowest first, drawn from the cards, and no other card of that suit
   * is higher than the lowest of them.
   */
  lemma PickFlushCards(cs: seq<Card>)
    ensures var r := PickFlush(cs);
            r != [] ==> && |r| == 5
                        && |SuitGroup(cs, r[0].suit)| >= 5
                        && (forall k :: 0 <= k < 5 ==> r[k].suit == r[0].suit)
                        && (forall i, j :: 0 <= i < j < 5 ==> r[i].value <= r[j].value)
                        && multiset(r) <= multiset(cs)
                        && (forall c :: c in multiset(SuitGroup(cs, r[0].suit)) - multiset(r) ==> c.value <= r[0].value)
                        && FirstFlushSuit(cs, 0) < |cs| && cs[FirstFlushSuit(cs, 0)].suit == r[0].suit
  {
    var r := PickFlush(cs);
    FlushFromFirst(cs, 0);
    if r != [] {
      var j := FirstFlushSuit(cs, 0);
      FlushSuitCards(cs, cs[j].suit);
    }
  }

  /** The five highest cards of a suit with at least five: of that suit, sorted, drawn from the cards. */
  lemma FlushSuitCards(cs: seq<Card>, s: char)
    requires |SuitGroup(cs, s)| >= 5
    ensures var r := LastFiveAscending(SuitGroup(cs, s));
            && |r| == 5
            && r[0].suit == s
            && (forall k :: 0 <= k < 5 ==> r[k].suit == s)
            && (forall i, j :: 0 <= i < j < 5 ==> r[i].value <= r[j].value)
            && multiset(r) <= multiset(cs)
            && forall c :: c in multiset(SuitGroup(cs, s)) - multiset(r) ==> c.value <= r[0].value
  {
    var g := SuitGroup(cs, s);
    var r := LastFiveAscending(g);
    LastFiveAreHighest(g);
    SameSuitPart(r, g, s);
    assert multiset(g) <= multiset(cs) by {
      SuitGroupMultiset(cs, s);
    }
  }

  /** Cards drawn from cards of one suit are of that suit. */
  lemma SameSuitPart(r: seq<Card>, g: seq<Card>, s: char)
    requires multiset(r) <= multiset(g) && forall i :: 0 <= i < |g| ==> g[i].suit == s
    ensures forall k :: 0 <= k < |r| ==> r[k].suit == s
  {
    forall k | 0 <= k < |r|
      ensures r[k].suit == s
    {
      assert r[k] in multiset(g);
    }
  }

  /** `_pick_straight`: the best straight among all the cards; the source needs at least one card. */
  function PickStraight(cs: seq<Card>): (r: seq<Card>)
    requires |cs| > 0
    ensures r == [] || |r| == 5
  {
    Straight.FindBestStraight(cs)
  }

  /**
   * The straight selector finds cards exactly when the values, ace also as 1, hold
   * five consecutive ranks, and then returns five different cards of the input.
   */
  lemma PickStraightSpec(cs: seq<Card>)
    requires |cs| > 0
    ensures PickStraight(cs) != [] <==> HasRun(RankSet(ValuesOf(cs)))
    ensures PickStraight(cs) != [] ==> exists lo :: Straight.StraightFrom(PickStraight(cs), lo)
    ensures Distinct(PickStraight(cs)) && multiset(PickStraight(cs)) <= multiset(cs)
  {
    Straight.FindBestStraightFound(cs);
    Straight.FindBestStraightDistinct(cs);
    if PickStraight(cs) != [] {
      Straight.FindBestStraightShape(cs);
      var lo :| Straight.BestShape(Straight.Entries(cs), RankSet(ValuesOf(cs)), PickStraight(cs), lo);
    }
  }

  /** `_pick_high_card`: the five best cards, highest first. */
  function PickHighCard(cs: seq<Card>): (r: seq<Card>)
    ensures TopCards(r, cs, 5)
  {
    SortedPrefixIsTop(cs, 5);
    Prefix(SortDescending(cs), 5)
  }
}
