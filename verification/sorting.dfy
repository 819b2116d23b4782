/**
 * Stable sorting by an integer key: the behaviour of Python's `sorted(xs, key=k)`.
 *
 * Python's `sorted(xs, key=k, reverse=True)` is also stable (elements with equal
 * keys keep their input order), so it is the same as sorting ascending on the
 * negated key; the card modules use that to model `_sort_descending`.
 */
module Sorting {

  /** The elements of `xs` whose key is `k`, in their original order. */
  function KeyGroup<T(==,!new)>(xs: seq<T>, key: T -> int, k: int): (r: seq<T>)
    ensures |r| <= |xs|
    ensures forall i :: 0 <= i < |r| ==> key(r[i]) == k
  {
    if |xs| == 0 then []
    else if key(xs[0]) == k then [xs[0]] + KeyGroup(xs[1..], key, k)
    else KeyGroup(xs[1..], key, k)
  }

  /** The group of key `k` holds each element of key `k` as often as `xs` does, and nothing else. */
  lemma {:induction false} KeyGroupMultiset<T(!new)>(xs: seq<T>, key: T -> int, k: int)
    ensures forall x :: multiset(KeyGroup(xs, key, k))[x] == if key(x) == k then multiset(xs)[x] else 0
  {
    if |xs| > 0 {
      KeyGroupMultiset(xs[1..], key, k);
      assert xs == [xs[0]] + xs[1..];
    }
  }

  /** Keys never decrease from left to right. */
  predicate SortedBy<T>(xs: seq<T>, key: T -> int) {
    forall i, j :: 0 <= i < j < |xs| ==> key(xs[i]) <= key(xs[j])
  }

  /**
   * Puts `x` in front of the first element whose key is at least `key(x)`, so that
   * `x` precedes every element of `xs` with the same key.
   */
  function Insert<T(==)>(x: T, xs: seq<T>, key: T -> int): (r: seq<T>)
    ensures multiset(r) == multiset(xs) + multiset{x}
    ensures SortedBy(xs, key) ==> SortedBy(r, key)
  {
    if |xs| == 0 || key(x) <= key(xs[0]) then [x] + xs
    else
      assert xs == [xs[0]] + xs[1..];
      var rest := Insert(x, xs[1..], key);
      if SortedBy(xs, key) then
        SortedTail(xs, key);
        forall j | 0 <= j < |rest|
          ensures key(xs[0]) <= key(rest[j])
        {
          assert rest[j] in multiset(rest);
          if rest[j] != x {
            assert rest[j] in multiset(xs[1..]);
          }
        }
        [xs[0]] + rest
      else
        [xs[0]] + rest
  }

  lemma SortedTail<T>(xs: seq<T>, key: T -> int)
    requires |xs| > 0 && SortedBy(xs, key)
    ensures SortedBy(xs[1..], key)
    ensures forall y :: y in xs[1..] ==> key(xs[0]) <= key(y)
  {
    forall i, j | 0 <= i < j < |xs[1..]|
      ensures key(xs[1..][i]) <= key(xs[1..][j])
    {
      assert xs[1..][i] == xs[i + 1] && xs[1..][j] == xs[j + 1];
    }
  }

  /** Stable insertion sort, ascending by key. */
  function Sort<T(==)>(xs: seq<T>, key: T -> int): (r: seq<T>)
    ensures multiset(r) == multiset(xs)
    ensures |r| == |xs|
    ensures SortedBy(r, key)
  {
    if |xs| == 0 then []
    else
      assert xs == [xs[0]] + xs[1..];
      var r := Insert(xs[0], Sort(xs[1..], key), key);
      assert |r| == |multiset(r)|;
      r
  }

  /** Grouping by key distributes over concatenation. */
  lemma {:induction false} KeyGroupAppend<T(!new)>(a: seq<T>, b: seq<T>, key: T -> int, k: int)
    ensures KeyGroup(a + b, key, k) == KeyGroup(a, key, k) + KeyGroup(b, key, k)
  {
    if |a| == 0 {
      assert a + b == b;
    } else {
      assert (a + b)[1..] == a[1..] + b;
      KeyGroupAppend(a[1..], b, key, k);
    }
  }

  /** Inserting `x` puts it in front of the other elements that share its key. */
  lemma {:induction false} KeyGroupInsert<T(!new)>(x: T, xs: seq<T>, key: T -> int, k: int)
    ensures KeyGroup(Insert(x, xs, key), key, k)
         == (if key(x) == k then [x] else []) + KeyGroup(xs, key, k)
  {
    if |xs| == 0 || key(x) <= key(xs[0]) {
      assert ([x] + xs)[1..] == xs;
    } else {
      var rest := Insert(x, xs[1..], key);
      assert ([xs[0]] + rest)[1..] == rest;
      KeyGroupInsert(x, xs[1..], key, k);
    }
  }

  /** Sorting is stable: the elements with any one key keep their input order. */
  lemma {:induction false} SortStable<T(!new)>(xs: seq<T>, key: T -> int, k: int)
    ensures KeyGroup(Sort(xs, key), key, k) == KeyGroup(xs, key, k)
  {
    if |xs| > 0 {
      SortStable(xs[1..], key, k);
      KeyGroupInsert(xs[0], Sort(xs[1..], key), key, k);
    }
  }

  /** Two keys that single out the same elements give the same group. */
  lemma {:induction false} KeyGroupSameClass<T(!new)>(xs: seq<T>, key1: T -> int, k1: int, key2: T -> int, k2: int)
    requires forall x :: key1(x) == k1 <==> key2(x) == k2
    ensures KeyGroup(xs, key1, k1) == KeyGroup(xs, key2, k2)
  {
    if |xs| > 0 {
      KeyGroupSameClass(xs[1..], key1, k1, key2, k2);
    }
  }
}
