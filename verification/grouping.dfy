/**
 * The grouping and ordering helpers of the best-five selector (src/poker/game.py).
 *
 * The source groups the cards in dictionaries built with `setdefault(...).append`,
 * so each group holds the cards of one value (or one suit) in input order. Here a
 * group is the order-preserving filter of the cards, and the dictionary's keys,
 * visited as `sorted(groups.keys(), reverse=True)`, are `DescValues`.
 */
module Grouping {
  import opened Cards
  import Sorting
  import Runs

  /** The cards of value `v`, in input order: one entry of `_group_by_value`. */
  function ValueGroup(cs: seq<Card>, v: int): (g: seq<Card>)
    ensures |g| <= |cs|
    ensures forall i :: 0 <= i < |g| ==> g[i].value == v
  {
    Sorting.KeyGroup(cs, Value, v)
  }

  /** A value's group holds each card of that value as often as the cards do, and nothing else. */
  lemma ValueGroupMultiset(cs: seq<Card>, v: int)
    ensures forall c :: multiset(ValueGroup(cs, v))[c] == if c.value == v then multiset(cs)[c] else 0
  {
    Sorting.KeyGroupMultiset(cs, Value, v);
  }

  function SuitKey(c: Card): int { c.suit as int }

  /** The cards of suit `s`, in input order: one entry of `_group_by_suit`. */
  function SuitGroup(cs: seq<Card>, s: char): (g: seq<Card>)
    ensures |g| <= |cs|
    ensures forall i :: 0 <= i < |g| ==> g[i].suit == s
  {
    Sorting.KeyGroup(cs, SuitKey, s as int)
  }

  /** A suit's group holds each card of that suit as often as the cards do, and nothing else. */
  lemma SuitGroupMultiset(cs: seq<Card>, s: char)
    ensures forall c :: multiset(SuitGroup(cs, s))[c] == if c.suit == s then multiset(cs)[c] else 0
  {
    Sorting.KeyGroupMultiset(cs, SuitKey, s as int);
    forall c
      ensures SuitKey(c) == s as int <==> c.suit == s
    {
    }
  }

  /** How many cards have value `v`. */
  function Count(cs: seq<Card>, v: int): nat {
    |ValueGroup(cs, v)|
  }

  /** The cards whose value is not in `skip`, in input order. */
  function Without(cs: seq<Card>, skip: set<int>): (r: seq<Card>)
    ensures |r| <= |cs|
    ensures forall i :: 0 <= i < |r| ==> r[i].value !in skip
  {
    if |cs| == 0 then []
    else if cs[0].value in skip then Without(cs[1..], skip)
    else [cs[0]] + Without(cs[1..], skip)
  }

  /** Leaving out the values in `skip` keeps every other card as often as the cards have it. */
  lemma {:induction false} WithoutMultiset(cs: seq<Card>, skip: set<int>)
    ensures forall c :: multiset(Without(cs, skip))[c] == if c.value in skip then 0 else multiset(cs)[c]
  {
    if |cs| > 0 {
      WithoutMultiset(cs[1..], skip);
      assert cs == [cs[0]] + cs[1..];
    }
  }

  /** Values never increase from left to right. */
  predicate NonIncreasing(cs: seq<Card>) {
    forall i, j :: 0 <= i < j < |cs| ==> cs[i].value >= cs[j].value
  }

  predicate StrictlyDecreasing(vs: seq<int>) {
    forall i, j :: 0 <= i < j < |vs| ==> vs[i] > vs[j]
  }

  function Reverse(xs: seq<int>): (r: seq<int>)
    ensures |r| == |xs|
    ensures forall i :: 0 <= i < |xs| ==> r[i] == xs[|xs| - 1 - i]
  {
    if |xs| == 0 then [] else Reverse(xs[1..]) + [xs[0]]
  }

  /** The distinct values of the cards, highest first: `sorted(groups.keys(), reverse=True)`. */
  function DescValues(cs: seq<Card>): (vs: seq<int>)
    ensures StrictlyDecreasing(vs)
    ensures forall v :: v in vs <==> exists i :: 0 <= i < |cs| && cs[i].value == v
  {
    var u := Runs.SortedSet(ValuesOf(cs));
    SameElems(u, ValuesOf(cs));
    ReverseDecreasing(u);
    ReverseMembers(u);
    SortedValuesMembers(cs, u);
    Reverse(u)
  }

  /** Reversing a strictly increasing sequence gives a strictly decreasing one. */
  lemma ReverseDecreasing(u: seq<int>)
    requires Runs.StrictlyIncreasing(u)
    ensures StrictlyDecreasing(Reverse(u))
  {
    var vs := Reverse(u);
    forall i, j | 0 <= i < j < |vs|
      ensures vs[i] > vs[j]
    {
      assert vs[i] == u[|u| - 1 - i] && vs[j] == u[|u| - 1 - j];
    }
  }

  /** Reversing keeps the elements. */
  lemma {:induction false} ReverseMembers(u: seq<int>)
    ensures forall v :: v in Reverse(u) <==> v in u
  {
    if |u| > 0 {
      ReverseMembers(u[1..]);
      assert u == [u[0]] + u[1..];
    }
  }

  /** A sequence with the members of the card values holds exactly the values of the cards. */
  lemma SortedValuesMembers(cs: seq<Card>, u: seq<int>)
    requires forall v :: v in u <==> v in ValuesOf(cs)
    ensures forall v :: v in u <==> exists i :: 0 <= i < |cs| && cs[i].value == v
  {
    ValuesOfMembers(cs);
  }

  /** Sequences with the same element sets have the same members. */
  lemma SameElems(a: seq<int>, b: seq<int>)
    requires Runs.Elems(a) == Runs.Elems(b)
    ensures forall v :: v in a <==> v in b
  {
    forall v
      ensures v in a <==> v in b
    {
      assert v in a <==> v in Runs.Elems(a);
      assert v in b <==> v in Runs.Elems(b);
    }
  }

  /** A value is among the card values exactly when some card has it. */
  lemma ValuesOfMembers(cs: seq<Card>)
    ensures forall v :: v in ValuesOf(cs) <==> exists i :: 0 <= i < |cs| && cs[i].value == v
  {
    var xs := ValuesOf(cs);
    forall v
      ensures v in xs <==> exists i :: 0 <= i < |cs| && cs[i].value == v
    {
      if v in xs {
        var i :| 0 <= i < |xs| && xs[i] == v;
        assert cs[i].value == v;
      }
      if i :| 0 <= i < |cs| && cs[i].value == v {
        assert xs[i] == v;
      }
    }
  }

  /** `_sort_descending`: a stable sort by value, highest first. */
  function SortDescending(cs: seq<Card>): (r: seq<Card>)
    ensures multiset(r) == multiset(cs) && |r| == |cs|
    ensures NonIncreasing(r)
  {
    var r := Sorting.Sort(cs, NegValue);
    assert Sorting.SortedBy(r, NegValue);
    r
  }

  /** Python's `sorted(cards, key=value)`: a stable sort by value, lowest first. */
  function SortAscending(cs: seq<Card>): (r: seq<Card>)
    ensures multiset(r) == multiset(cs) && |r| == |cs|
    ensures forall i, j :: 0 <= i < j < |r| ==> r[i].value <= r[j].value
  {
    var r := Sorting.Sort(cs, Value);
    assert Sorting.SortedBy(r, Value);
    r
  }

  /** The slice `s[:k]`: the first `k` elements, or all of them when there are fewer. */
  function Prefix<T>(s: seq<T>, k: nat): (r: seq<T>)
    ensures |r| == if |s| <= k then |s| else k
    ensures r <= s
  {
    if |s| <= k then s else s[..k]
  }

  /**
   * The groups of the values `vs`, in that order, skipping the values in `skip`:
   * what the selector's loops collect as kickers.
   */
  function Gather(cs: seq<Card>, vs: seq<int>, skip: set<int>): (r: seq<Card>)
    ensures forall i :: 0 <= i < |r| ==> r[i].value in vs && r[i].value !in skip
  {
    if |vs| == 0 then []
    else
      var g := if vs[0] in skip then [] else ValueGroup(cs, vs[0]);
      var rest := Gather(cs, vs[1..], skip);
      assert forall i :: 0 <= i < |rest| ==> rest[i].value in vs;
      g + rest
  }

  /** Sorting by value descending keeps the cards of each value in input order. */
  lemma SortDescendingStable(cs: seq<Card>, v: int)
    ensures ValueGroup(SortDescending(cs), v) == ValueGroup(cs, v)
  {
    var s := SortDescending(cs);
    assert ValueGroup(s, v) == Sorting.KeyGroup(s, NegValue, -v) by {
      NegValueGroup(s, v);
    }
    assert Sorting.KeyGroup(s, NegValue, -v) == Sorting.KeyGroup(cs, NegValue, -v) by {
      assert s == Sorting.Sort(cs, NegValue);
      Sorting.SortStable(cs, NegValue, -v);
    }
    NegValueGroup(cs, v);
  }

  /** The cards of value `v` are the cards of negated value `-v`. */
  lemma NegValueGroup(cs: seq<Card>, v: int)
    ensures ValueGroup(cs, v) == Sorting.KeyGroup(cs, NegValue, -v)
  {
    Sorting.KeyGroupSameClass(cs, NegValue, -v, Value, v);
  }

  /** Grouping distributes over concatenation. */
  lemma ValueGroupAppend(a: seq<Card>, b: seq<Card>, v: int)
    ensures ValueGroup(a + b, v) == ValueGroup(a, v) + ValueGroup(b, v)
  {
    Sorting.KeyGroupAppend(a, b, Value, v);
  }

  /** A sequence that has only cards of value `w` groups to itself under `w` and to nothing otherwise. */
  lemma {:induction false} ValueGroupOfUniform(g: seq<Card>, w: int, v: int)
    requires forall i :: 0 <= i < |g| ==> g[i].value == w
    ensures ValueGroup(g, v) == if v == w then g else []
  {
    if |g| > 0 {
      ValueGroupOfUniform(g[1..], w, v);
      assert g == [g[0]] + g[1..];
    }
  }

  /** A value that no card has has an empty group. */
  lemma {:induction false} ValueGroupAbsent(cs: seq<Card>, v: int)
    requires forall i :: 0 <= i < |cs| ==> cs[i].value != v
    ensures ValueGroup(cs, v) == []
  {
    if |cs| > 0 {
      ValueGroupAbsent(cs[1..], v);
    }
  }

  /** Sequences with the same group for every value hold the same cards. */
  lemma SameGroupsSameCards(a: seq<Card>, b: seq<Card>)
    requires forall v :: ValueGroup(a, v) == ValueGroup(b, v)
    ensures multiset(a) == multiset(b)
  {
    forall c
      ensures multiset(a)[c] == multiset(b)[c]
    {
      ValueGroupMultiset(a, c.value);
      ValueGroupMultiset(b, c.value);
      assert multiset(ValueGroup(a, c.value))[c] == multiset(a)[c];
      assert multiset(ValueGroup(b, c.value))[c] == multiset(b)[c];
    }
  }

  /** Leaving out the values in `skip` leaves the other groups as they are. */
  lemma {:induction false} WithoutGroups(cs: seq<Card>, skip: set<int>, v: int)
    ensures ValueGroup(Without(cs, skip), v) == if v in skip then [] else ValueGroup(cs, v)
  {
    if |cs| > 0 {
      WithoutGroups(cs[1..], skip, v);
      assert cs == [cs[0]] + cs[1..];
      ValueGroupAppend([cs[0]], cs[1..], v);
      ValueGroupAppend([cs[0]], Without(cs[1..], skip), v);
    }
  }

  /**
   * Gathering the groups of distinct values `vs` gives, for each value, its whole
   * group when the value is listed and not skipped, and nothing otherwise.
   */
  lemma {:induction false} GatherGroups(cs: seq<Card>, vs: seq<int>, skip: set<int>, w: int)
    requires NoRepeats(vs)
    ensures ValueGroup(Gather(cs, vs, skip), w) == if w in vs && w !in skip then ValueGroup(cs, w) else []
  {
    if |vs| > 0 {
      var g := if vs[0] in skip then [] else ValueGroup(cs, vs[0]);
      var rest := Gather(cs, vs[1..], skip);
      GatherGroups(cs, vs[1..], skip, w);
      ValueGroupAppend(g, rest, w);
      ValueGroupOfUniform(g, vs[0], w);
      assert vs == [vs[0]] + vs[1..];
      assert w == vs[0] ==> w !in vs[1..];
    }
  }

  /** Gathering along strictly decreasing values puts the cards in non-increasing value order. */
  lemma {:induction false} GatherNonIncreasing(cs: seq<Card>, vs: seq<int>, skip: set<int>)
    requires StrictlyDecreasing(vs)
    ensures NonIncreasing(Gather(cs, vs, skip))
  {
    if |vs| > 0 {
      var g := if vs[0] in skip then [] else ValueGroup(cs, vs[0]);
      var rest := Gather(cs, vs[1..], skip);
      assert StrictlyDecreasing(vs[1..]);
      GatherNonIncreasing(cs, vs[1..], skip);
      forall i | 0 <= i < |rest|
        ensures rest[i].value < vs[0]
      {
        assert rest[i].value in vs[1..];
      }
    }
  }

  /**
   * Gathering the groups in `DescValues` order, skipping `skip`, yields the cards
   * outside `skip` sorted by value, highest first, each value's cards in input order.
   */
  lemma GatherDescValues(cs: seq<Card>, skip: set<int>)
    ensures NonIncreasing(Gather(cs, DescValues(cs), skip))
    ensures multiset(Gather(cs, DescValues(cs), skip)) == multiset(Without(cs, skip))
    ensures forall v :: ValueGroup(Gather(cs, DescValues(cs), skip), v) == ValueGroup(Without(cs, skip), v)
  {
    var vs := DescValues(cs);
    var r := Gather(cs, vs, skip);
    GatherNonIncreasing(cs, vs, skip);
    forall v
      ensures ValueGroup(r, v) == ValueGroup(Without(cs, skip), v)
    {
      GatherGroups(cs, vs, skip, v);
      WithoutGroups(cs, skip, v);
      if v !in vs {
        ValueGroupAbsent(cs, v);
      }
    }
    SameGroupsSameCards(r, Without(cs, skip));
  }

  /**
   * The value groups, taken highest value first, are together a permutation of the
   * cards: every card lands in exactly one group.
   */
  lemma GroupsPartitionCards(cs: seq<Card>)
    ensures multiset(Gather(cs, DescValues(cs), {})) == multiset(cs)
  {
    GatherDescValues(cs, {});
    assert Without(cs, {}) == cs by {
      WithoutNothing(cs);
    }
  }

  /** The suit groups for the suits `ss`, one after another. */
  function GatherSuits(cs: seq<Card>, ss: seq<char>): seq<Card>
  {
    if |ss| == 0 then [] else SuitGroup(cs, ss[0]) + GatherSuits(cs, ss[1..])
  }

  /**
   * The suit groups, one per suit that occurs (in any order, such as the order in
   * which the suits first appear), are together a permutation of the cards.
   */
  lemma SuitGroupsPartitionCards(cs: seq<Card>, ss: seq<char>)
    requires NoRepeats(ss)
    requires forall c :: c in cs ==> c.suit in ss
    ensures multiset(GatherSuits(cs, ss)) == multiset(cs)
  {
    GatherSuitsMultiset(cs, ss);
    forall c
      ensures multiset(GatherSuits(cs, ss))[c] == multiset(cs)[c]
    {
      if c.suit !in ss {
        assert c !in cs;
      }
    }
  }

  /** A card lands in the gathered groups as often as in the cards when its suit is listed. */
  lemma {:induction false} GatherSuitsMultiset(cs: seq<Card>, ss: seq<char>)
    requires NoRepeats(ss)
    ensures forall c :: multiset(GatherSuits(cs, ss))[c] == if c.suit in ss then multiset(cs)[c] else 0
  {
    if |ss| > 0 {
      var rest := ss[1..];
      assert NoRepeats(rest) by {
        forall i, j | 0 <= i < j < |rest|
          ensures rest[i] != rest[j]
        {
          assert rest[i] == ss[i + 1] && rest[j] == ss[j + 1];
        }
      }
      GatherSuitsMultiset(cs, rest);
      SuitGroupMultiset(cs, ss[0]);
      assert ss[0] !in rest by {
        forall j | 0 <= j < |rest|
          ensures rest[j] != ss[0]
        {
          assert rest[j] == ss[j + 1];
        }
      }
      forall c: Card
        ensures c.suit in ss <==> c.suit == ss[0] || c.suit in rest
      {
        assert ss == [ss[0]] + rest;
      }
    }
  }

  lemma {:induction false} WithoutNothing(cs: seq<Card>)
    ensures Without(cs, {}) == cs
  {
    if |cs| > 0 {
      WithoutNothing(cs[1..]);
      assert cs == [cs[0]] + cs[1..];
    }
  }

  /** Gathering one more value appends that value's group, unless it is skipped. */
  lemma {:induction false} GatherSnoc(cs: seq<Card>, vs: seq<int>, x: int, skip: set<int>)
    ensures Gather(cs, vs + [x], skip) == Gather(cs, vs, skip) + (if x in skip then [] else ValueGroup(cs, x))
  {
    if |vs| > 0 {
      assert (vs + [x])[1..] == vs[1..] + [x];
      GatherSnoc(cs, vs[1..], x, skip);
    } else {
      assert vs + [x] == [x];
    }
  }

  /** Only the skipped values that are listed matter. */
  lemma {:induction false} GatherSkipListed(cs: seq<Card>, vs: seq<int>, a: set<int>, b: set<int>)
    requires forall i :: 0 <= i < |vs| ==> (vs[i] in a <==> vs[i] in b)
    ensures Gather(cs, vs, a) == Gather(cs, vs, b)
  {
    if |vs| > 0 {
      GatherSkipListed(cs, vs[1..], a, b);
    }
  }

  /** The cards of value `v` and the cards of the other values together are all the cards. */
  lemma SplitOffValue(cs: seq<Card>, v: int)
    ensures multiset(ValueGroup(cs, v)) + multiset(Without(cs, {v})) == multiset(cs)
    ensures Count(cs, v) + |Without(cs, {v})| == |cs|
  {
    ValueGroupMultiset(cs, v);
    WithoutMultiset(cs, {v});
    assert multiset(ValueGroup(cs, v)) + multiset(Without(cs, {v})) == multiset(cs);
  }

  /** The same for two different values `v` and `w`. */
  lemma SplitOffTwoValues(cs: seq<Card>, v: int, w: int)
    requires v != w
    ensures multiset(ValueGroup(cs, v)) + multiset(ValueGroup(cs, w)) + multiset(Without(cs, {v, w})) == multiset(cs)
    ensures Count(cs, v) + Count(cs, w) + |Without(cs, {v, w})| == |cs|
  {
    ValueGroupMultiset(cs, v);
    ValueGroupMultiset(cs, w);
    WithoutMultiset(cs, {v, w});
    assert multiset(ValueGroup(cs, v)) + multiset(ValueGroup(cs, w)) + multiset(Without(cs, {v, w})) == multiset(cs);
  }

  /** Among well-formed cards no value occurs more than four times: once per suit. */
  lemma CountAtMostFour(cs: seq<Card>, v: int)
    requires WellFormed(cs)
    ensures Count(cs, v) <= 4
  {
    var g := ValueGroup(cs, v);
    var four := multiset{Card(v, 'S'), Card(v, 'H'), Card(v, 'D'), Card(v, 'C')};
    GroupWithinSuits(cs, v, four);
    SubMultisetSize(multiset(g), four);
    assert |four| == 4;
  }

  /** Each card of a value's group is one of the four cards of that value, once. */
  lemma GroupWithinSuits(cs: seq<Card>, v: int, four: multiset<Card>)
    requires WellFormed(cs)
    requires four == multiset{Card(v, 'S'), Card(v, 'H'), Card(v, 'D'), Card(v, 'C')}
    ensures multiset(ValueGroup(cs, v)) <= four
  {
    var g := ValueGroup(cs, v);
    ValueGroupMultiset(cs, v);
    forall c
      ensures multiset(g)[c] <= four[c]
    {
      if c in multiset(g) {
        assert c in cs;
        var i :| 0 <= i < |cs| && cs[i] == c;
        assert c.suit in Suits;
      }
    }
  }

  /** Cutting a sequence at `m` splits its multiset into the two parts. */
  lemma SplitMultiset(a: seq<Card>, m: nat)
    requires m <= |a|
    ensures multiset(a) - multiset(a[m..]) == multiset(a[..m])
    ensures multiset(a[m..]) <= multiset(a)
  {
    assert a == a[..m] + a[m..];
  }

  lemma SubMultisetSize(a: multiset<Card>, b: multiset<Card>)
    requires a <= b
    ensures |a| <= |b|
  {
    assert b == a + (b - a);
  }
}
