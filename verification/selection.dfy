/**
 * Reference descriptions of what the best-five selector picks, stated without its
 * loops: the highest value having enough cards, and the highest remaining cards.
 */
module Selection {
  import opened Cards
  import opened Grouping

  /** The first value of `vs` outside `skip` that has at least `n` cards. */
  function FirstOfKind(cs: seq<Card>, vs: seq<int>, n: nat, skip: set<int>): (r: Option<int>)
    ensures r.Some? ==> r.value in vs && r.value !in skip && Count(cs, r.value) >= n
    ensures r.None? ==> forall i :: 0 <= i < |vs| ==> vs[i] in skip || Count(cs, vs[i]) < n
  {
    if |vs| == 0 then None
    else if vs[0] !in skip && Count(cs, vs[0]) >= n then Some(vs[0])
    else
      var r := FirstOfKind(cs, vs[1..], n, skip);
      assert forall i :: 1 <= i < |vs| ==> vs[i] == vs[1..][i - 1];
      r
  }

  /** Along strictly decreasing values, the first qualifying value is the highest one. */
  lemma {:induction false} FirstOfKindHighest(cs: seq<Card>, vs: seq<int>, n: nat, skip: set<int>)
    requires StrictlyDecreasing(vs)
    ensures var r := FirstOfKind(cs, vs, n, skip);
            r.Some? ==> forall i :: 0 <= i < |vs| && vs[i] !in skip && Count(cs, vs[i]) >= n ==> vs[i] <= r.value
  {
    if |vs| > 0 && !(vs[0] !in skip && Count(cs, vs[0]) >= n) {
      assert StrictlyDecreasing(vs[1..]);
      FirstOfKindHighest(cs, vs[1..], n, skip);
      assert forall i :: 1 <= i < |vs| ==> vs[i] == vs[1..][i - 1];
    }
  }

  /**
   * The highest value outside `skip` held by at least `n` cards, or None when no
   * value qualifies.
   */
  function TopOfKind(cs: seq<Card>, n: nat, skip: set<int>): (r: Option<int>)
    ensures r.Some? ==> r.value !in skip && Count(cs, r.value) >= n
  {
    FirstOfKind(cs, DescValues(cs), n, skip)
  }

  /** `TopOfKind` is the highest qualifying value, and it is None exactly when no card's value qualifies. */
  lemma TopOfKindSpec(cs: seq<Card>, n: nat, skip: set<int>)
    ensures var r := TopOfKind(cs, n, skip);
            && (r.Some? ==> forall c :: c in cs && c.value !in skip && Count(cs, c.value) >= n ==> c.value <= r.value)
            && (r.None? <==> forall c :: c in cs && c.value !in skip ==> Count(cs, c.value) < n)
  {
    var vs := DescValues(cs);
    var r := FirstOfKind(cs, vs, n, skip);
    FirstOfKindHighest(cs, vs, n, skip);
    forall c | c in cs
      ensures c.value in vs
    {
      var i :| 0 <= i < |cs| && cs[i] == c;
    }
    if r.Some? {
      assert r.value in vs;
      var i :| 0 <= i < |cs| && cs[i].value == r.value;
      assert cs[i] in cs;
    }
  }

  /** The values to leave out once `o` has been taken: `{o.value}`, or nothing. */
  function SkipOf(o: Option<int>): set<int> {
    if o.Some? then {o.value} else {}
  }

  /** The first `n` cards of value `o.value`, or nothing when `o` is None. */
  function Take(cs: seq<Card>, o: Option<int>, n: nat): (r: seq<Card>)
    requires o.Some? ==> Count(cs, o.value) >= n
    ensures o.Some? ==> |r| == n
    ensures o.Some? ==> forall i :: 0 <= i < |r| ==> r[i].value == o.value
    ensures o.None? ==> r == []
  {
    if o.Some? then ValueGroup(cs, o.value)[..n] else []
  }

  /**
   * `kickers` are the `k` best cards of `pool` (all of them if it has fewer): highest
   * value first, drawn from the pool, no card left out of them is higher than a card
   * in them, and of each value they take the pool's cards in the pool's order.
   */
  ghost predicate TopCards(kickers: seq<Card>, pool: seq<Card>, k: nat) {
    && |kickers| == (if |pool| <= k then |pool| else k)
    && NonIncreasing(kickers)
    && multiset(kickers) <= multiset(pool)
    && (forall c, j :: c in multiset(pool) - multiset(kickers) && 0 <= j < |kickers| ==> c.value <= kickers[j].value)
    && (forall v :: ValueGroup(kickers, v) <= ValueGroup(pool, v))
  }

  /** The best `k` cards are at most `k` cards. */
  lemma TopCardsSize(kickers: seq<Card>, pool: seq<Card>, k: nat)
    requires TopCards(kickers, pool, k)
    ensures |kickers| <= k
  {
  }

  /** The first `k` cards of the stable descending sort are the `k` best cards. */
  lemma SortedPrefixIsTop(pool: seq<Card>, k: nat)
    ensures TopCards(Prefix(SortDescending(pool), k), pool, k)
  {
    var s := SortDescending(pool);
    var kk := Prefix(s, k);
    assert kk == s[..|kk|];
    PrefixOutranksRest(s, |kk|);
    SplitMultiset(s, |kk|);
    PrefixGroups(pool, k);
  }

  /** Each value's cards among the first `k` of the sort are a prefix of that value's group. */
  lemma PrefixGroups(pool: seq<Card>, k: nat)
    ensures forall v :: ValueGroup(Prefix(SortDescending(pool), k), v) <= ValueGroup(pool, v)
  {
    var s := SortDescending(pool);
    var kk := Prefix(s, k);
    var rest := s[|kk|..];
    assert s == kk + rest;
    forall v
      ensures ValueGroup(kk, v) <= ValueGroup(pool, v)
    {
      ValueGroupAppend(kk, rest, v);
      SortDescendingStable(pool, v);
    }
  }

  /** In a non-increasing sequence, no card after position `m` is higher than one before it. */
  lemma PrefixOutranksRest(s: seq<Card>, m: nat)
    requires NonIncreasing(s) && m <= |s|
    ensures NonIncreasing(s[..m])
    ensures forall c, j :: c in multiset(s[m..]) && 0 <= j < m ==> c.value <= s[..m][j].value
  {
    forall c, j | c in multiset(s[m..]) && 0 <= j < m
      ensures c.value <= s[..m][j].value
    {
      var i :| 0 <= i < |s[m..]| && s[m..][i] == c;
      assert s[m + i] == c;
    }
  }

  /** Being the best cards depends only on the pool's groups, not on its order. */
  lemma TopCardsSamePool(kickers: seq<Card>, p1: seq<Card>, p2: seq<Card>, k: nat)
    requires forall v :: ValueGroup(p1, v) == ValueGroup(p2, v)
    requires TopCards(kickers, p1, k)
    ensures TopCards(kickers, p2, k)
  {
    SameGroupsSameCards(p1, p2);
    assert |p1| == |multiset(p1)| == |multiset(p2)| == |p2|;
  }

  /** Looking at one more value finds it only when nothing was found before and it qualifies. */
  lemma {:induction false} FirstOfKindSnoc(cs: seq<Card>, vs: seq<int>, x: int, n: nat, skip: set<int>)
    ensures FirstOfKind(cs, vs + [x], n, skip) ==
      if FirstOfKind(cs, vs, n, skip).Some? then FirstOfKind(cs, vs, n, skip)
      else if x !in skip && Count(cs, x) >= n then Some(x)
      else None
  {
    if |vs| > 0 {
      assert (vs + [x])[1..] == vs[1..] + [x];
      FirstOfKindSnoc(cs, vs[1..], x, n, skip);
    } else {
      assert vs + [x] == [x];
    }
  }

  /** Only the skipped values that are listed matter. */
  lemma {:induction false} FirstOfKindSkipListed(cs: seq<Card>, vs: seq<int>, n: nat, a: set<int>, b: set<int>)
    requires forall i :: 0 <= i < |vs| ==> (vs[i] in a <==> vs[i] in b)
    ensures FirstOfKind(cs, vs, n, a) == FirstOfKind(cs, vs, n, b)
  {
    if |vs| > 0 {
      FirstOfKindSkipListed(cs, vs[1..], n, a, b);
    }
  }
}
