/** The list operations the SQL queries and the React filters are built from:
    filtering (WHERE, Array.filter), counting (COUNT(*)), limiting (LIMIT) and
    ordering (ORDER BY). */
module Seqs {

  /** The elements of `s` that satisfy `p`, in their original order. */
  function Filter<T(!new)>(s: seq<T>, p: T -> bool): (r: seq<T>)
    ensures |r| <= |s|
    ensures forall x :: x in r <==> x in s && p(x)
    ensures multiset(r) <= multiset(s)
  {
    if s == [] then []
    else
      var rest := Filter(s[1..], p);
      assert s == [s[0]] + s[1..];
      if p(s[0]) then [s[0]] + rest else rest
  }

  /** Filtering distributes over concatenation: the relative order of the kept
      elements is the order they had in the input. */
  lemma {:induction false} FilterConcat<T(!new)>(a: seq<T>, b: seq<T>, p: T -> bool)
    ensures Filter(a + b, p) == Filter(a, p) + Filter(b, p)
  {
    if a == [] {
      assert a + b == b;
    } else {
      assert (a + b)[1..] == a[1..] + b;
      FilterConcat(a[1..], b, p);
    }
  }

  /** Filtering keeps everything exactly when every element satisfies `p`. */
  lemma {:induction false} FilterKeepsAll<T(!new)>(s: seq<T>, p: T -> bool)
    requires forall x :: x in s ==> p(x)
    ensures Filter(s, p) == s
  {
    if s != [] {
      FilterKeepsAll(s[1..], p);
    }
  }

  /** Filtering twice by the same predicate is the same as filtering once. */
  lemma FilterIdempotent<T(!new)>(s: seq<T>, p: T -> bool)
    ensures Filter(Filter(s, p), p) == Filter(s, p)
  {
    FilterKeepsAll(Filter(s, p), p);
  }

  /** Filtering keeps every copy of an element that satisfies `p` and no copy
      of one that does not. */
  lemma {:induction false} FilterCount<T(!new)>(s: seq<T>, p: T -> bool)
    ensures forall x :: multiset(Filter(s, p))[x] == if p(x) then multiset(s)[x] else 0
  {
    if s != [] {
      FilterCount(s[1..], p);
      assert s == [s[0]] + s[1..];
    }
  }

  /** Filtering drops the one element between two parts that the filter keeps whole. */
  lemma {:induction false} FilterDropsOne<T(!new)>(a: seq<T>, x: T, b: seq<T>, p: T -> bool)
    requires forall y :: y in a ==> p(y)
    requires forall y :: y in b ==> p(y)
    requires !p(x)
    ensures Filter(a + [x] + b, p) == a + b
  {
    var ax := a + [x];
    FilterConcat(ax, b, p);
    FilterConcat(a, [x], p);
    FilterKeepsAll(a, p);
    FilterKeepsAll(b, p);
    assert [x][1..] == [];
    assert Filter([x], p) == [];
    assert Filter(ax, p) == a;
  }

  /** Reordering the input does not change what a filter keeps, only its order. */
  lemma FilterPermutation<T(!new)>(a: seq<T>, b: seq<T>, p: T -> bool)
    requires multiset(a) == multiset(b)
    ensures multiset(Filter(a, p)) == multiset(Filter(b, p))
    ensures |Filter(a, p)| == |Filter(b, p)|
  {
    FilterCount(a, p);
    FilterCount(b, p);
    assert forall x :: multiset(Filter(a, p))[x] == multiset(Filter(b, p))[x];
    assert |multiset(Filter(a, p))| == |Filter(a, p)|;
  }

  /** Every element is kept by exactly one of `p` and its negation. */
  lemma {:induction false} FilterPartition<T(!new)>(s: seq<T>, p: T -> bool, q: T -> bool)
    requires forall x :: q(x) == !p(x)
    ensures |Filter(s, p)| + |Filter(s, q)| == |s|
  {
    if s != [] {
      FilterPartition(s[1..], p, q);
    }
  }

  /** The first `n` elements of `s` (SQL `LIMIT n`). */
  function Take<T(!new)>(s: seq<T>, n: nat): (r: seq<T>)
    ensures |r| <= n && |r| <= |s|
    ensures |s| <= n ==> r == s
    ensures |s| > n ==> |r| == n
    ensures forall i :: 0 <= i < |r| ==> r[i] == s[i]
  {
    if |s| <= n then s else s[..n]
  }

  /** `s` is ordered by non-decreasing `key`. */
  ghost predicate SortedBy<T(!new)>(s: seq<T>, key: T -> int) {
    forall i, j :: 0 <= i < j < |s| ==> key(s[i]) <= key(s[j])
  }

  /** Inserts `x` into a sorted list before the first element with a larger or equal key. */
  function InsertBy<T(!new)>(x: T, s: seq<T>, key: T -> int): (r: seq<T>)
    requires SortedBy(s, key)
    ensures SortedBy(r, key)
    ensures multiset(r) == multiset(s) + multiset{x}
    ensures forall y :: y in r <==> y == x || y in s
  {
    if s == [] then [x]
    else if key(x) <= key(s[0]) then [x] + s
    else
      var rest := InsertBy(x, s[1..], key);
      assert s == [s[0]] + s[1..];
      assert forall y :: y in rest ==> key(s[0]) <= key(y);
      SortedCons(s[0], rest, key);
      [s[0]] + rest
  }

  /** A head no larger than anything after it keeps a sorted list sorted. */
  lemma SortedCons<T(!new)>(h: T, s: seq<T>, key: T -> int)
    requires SortedBy(s, key)
    requires forall y :: y in s ==> key(h) <= key(y)
    ensures SortedBy([h] + s, key)
  {
    var r := [h] + s;
    forall i, j | 0 <= i < j < |r| ensures key(r[i]) <= key(r[j]) {
      assert r[j] == s[j - 1];
      if i > 0 { assert r[i] == s[i - 1]; }
    }
  }

  /** `s` ordered by `key` (SQL `ORDER BY key ASC`; for `DESC` pass the negated key).
      Rows with equal keys may come back in any order in SQL; this insertion
      sort picks one of the admissible orders. */
  function SortBy<T(!new)>(s: seq<T>, key: T -> int): (r: seq<T>)
    ensures SortedBy(r, key)
    ensures multiset(r) == multiset(s)
    ensures forall x :: x in r <==> x in s
    ensures |r| == |s|
  {
    if s == [] then []
    else
      assert s == [s[0]] + s[1..];
      InsertBy(s[0], SortBy(s[1..], key), key)
  }

  /** A prefix of a sorted list is sorted, and holds only elements of the
      list, each at most as often as the list does. */
  lemma TakeSorted<T(!new)>(s: seq<T>, n: nat, key: T -> int)
    requires SortedBy(s, key)
    ensures SortedBy(Take(s, n), key)
    ensures forall x :: x in Take(s, n) ==> x in s
    ensures multiset(Take(s, n)) <= multiset(s)
  {
    var r := Take(s, n);
    assert forall i, j :: 0 <= i < j < |r| ==> r[i] == s[i] && r[j] == s[j];
    if |s| > n {
      assert s == r + s[n..];
    }
  }

  /** `ORDER BY key LIMIT n`: at most `n` elements, exactly `n` when there are
      more, all of them when there are not; sorted; drawn from the input
      without repeating any element more often than the input does; and no
      element left out has a smaller key than one kept. */
  lemma SortedPrefix<T(!new)>(s: seq<T>, n: nat, key: T -> int)
    ensures var r := Take(SortBy(s, key), n);
      && |r| <= n && (|s| > n ==> |r| == n)
      && (|s| <= n ==> multiset(r) == multiset(s))
      && SortedBy(r, key)
      && (forall x :: x in r ==> x in s)
      && multiset(r) <= multiset(s)
      && (forall x, y :: x in r && y in s && y !in r ==> key(x) <= key(y))
  {
    var sorted := SortBy(s, key);
    TakeSorted(sorted, n, key);
    TakeSortedSmallest(sorted, n, key);
  }

  /** The first `n` elements of a sorted list are the ones with the smallest
      keys: no element left out has a smaller key than one kept. */
  lemma TakeSortedSmallest<T(!new)>(s: seq<T>, n: nat, key: T -> int)
    requires SortedBy(s, key)
    ensures forall x, y :: x in Take(s, n) && y in s && y !in Take(s, n) ==> key(x) <= key(y)
  {
    var r := Take(s, n);
    assert forall k :: 0 <= k < |r| ==> s[k] in r;
    forall x, y | x in r && y in s && y !in r
      ensures key(x) <= key(y)
    {
      var i :| 0 <= i < |r| && r[i] == x;
      var j :| 0 <= j < |s| && s[j] == y;
      assert i < |r| <= j;
    }
  }
}
