/**
 * Sequence operations that stand for the store's query clauses: `Filter` for the
 * `.eq(...)`/`.filter(...)` parts of a select, and `SortBy` for `.order(...)`.
 */
module Seqs {

  /** The elements of `s` that satisfy `p`, in their original order. */
  function Filter<T>(s: seq<T>, p: T -> bool): (r: seq<T>)
    ensures |r| <= |s|
    ensures forall x :: x in r ==> x in s && p(x)
  {
    if s == [] then []
    else (if p(s[0]) then [s[0]] else []) + Filter(s[1..], p)
  }

  /** The elements whose key is `k`. */
  function KeyIs<T, K(==)>(f: T -> K, k: K): T -> bool {
    (x: T) => f(x) == k
  }

  /** How many times the element `x` adds to the count of `y`: once when it is kept and equal to `y`. */
  function Counted<T(==)>(x: T, y: T, kept: bool): nat {
    if kept && x == y then 1 else 0
  }

  /** The count of `y` in a filtered list: the head's share plus the count in the filtered tail. */
  lemma FilterCountHead<T>(s: seq<T>, p: T -> bool, y: T)
    requires s != []
    ensures multiset(Filter(s, p))[y] == Counted(s[0], y, p(s[0])) + multiset(Filter(s[1..], p))[y]
  {
  }

  /** The count of `y` in a list: the head's share plus the count in the tail. */
  lemma CountHead<T>(s: seq<T>, y: T)
    requires s != []
    ensures multiset(s)[y] == Counted(s[0], y, true) + multiset(s[1..])[y]
  {
    assert s == [s[0]] + s[1..];
  }

  /** Filtering distributes over concatenation: the filter keeps relative order. */
  lemma {:induction false} FilterAppend<T>(a: seq<T>, b: seq<T>, p: T -> bool)
    ensures Filter(a + b, p) == Filter(a, p) + Filter(b, p)
  {
    if a == [] {
      assert a + b == b;
    } else {
      assert (a + b)[0] == a[0];
      assert (a + b)[1..] == a[1..] + b;
      FilterAppend(a[1..], b, p);
    }
  }

  /** An element is kept exactly when it occurs in the input and satisfies the predicate. */
  lemma {:induction false} FilterMember<T>(s: seq<T>, p: T -> bool, x: T)
    ensures x in Filter(s, p) <==> x in s && p(x)
  {
    if s != [] {
      FilterMember(s[1..], p, x);
      assert x in s <==> x == s[0] || x in s[1..];
    }
  }

  /** When every element satisfies the predicate, nothing is dropped. */
  lemma {:induction false} FilterAll<T>(s: seq<T>, p: T -> bool)
    requires forall i :: 0 <= i < |s| ==> p(s[i])
    ensures Filter(s, p) == s
  {
    if s != [] {
      FilterAll(s[1..], p);
      assert [s[0]] + s[1..] == s;
    }
  }

  /** When no element satisfies the predicate, the result is empty. */
  lemma {:induction false} FilterNone<T>(s: seq<T>, p: T -> bool)
    requires forall i :: 0 <= i < |s| ==> !p(s[i])
    ensures Filter(s, p) == []
  {
    if s != [] {
      FilterNone(s[1..], p);
    }
  }

  /** `le` is a total preorder: every two elements compare, and comparison chains. */
  ghost predicate TotalPreorder<T(!new)>(le: (T, T) -> bool) {
    && (forall a, b :: le(a, b) || le(b, a))
    && (forall a, b, c :: le(a, b) && le(b, c) ==> le(a, c))
  }

  /** Every earlier element is `le` every later one. */
  ghost predicate SortedBy<T>(s: seq<T>, le: (T, T) -> bool) {
    forall i, j :: 0 <= i < j < |s| ==> le(s[i], s[j])
  }

  /** Inserts `x` before the first element it is `le`, keeping equal elements in order. */
  function InsertBy<T>(x: T, s: seq<T>, le: (T, T) -> bool): seq<T>
  {
    if s == [] then [x]
    else if le(x, s[0]) then [x] + s
    else [s[0]] + InsertBy(x, s[1..], le)
  }

  /** A stable insertion sort: the in-memory stand-in for an `.order(...)` clause. */
  function SortBy<T>(s: seq<T>, le: (T, T) -> bool): seq<T>
  {
    if s == [] then [] else InsertBy(s[0], SortBy(s[1..], le), le)
  }

  lemma {:induction false} InsertByPermutes<T>(x: T, s: seq<T>, le: (T, T) -> bool)
    ensures multiset(InsertBy(x, s, le)) == multiset(s) + multiset{x}
  {
    if s != [] && !le(x, s[0]) {
      InsertByPermutes(x, s[1..], le);
      assert s == [s[0]] + s[1..];
    }
  }

  /** Sorting only reorders: the result holds exactly the input's elements. */
  lemma {:induction false} SortByPermutes<T>(s: seq<T>, le: (T, T) -> bool)
    ensures multiset(SortBy(s, le)) == multiset(s)
  {
    if s != [] {
      SortByPermutes(s[1..], le);
      InsertByPermutes(s[0], SortBy(s[1..], le), le);
      assert s == [s[0]] + s[1..];
    }
  }

  /** A lower bound of `x` and of every element of `s` bounds every element of the insertion. */
  lemma {:induction false} InsertByBounded<T>(y: T, x: T, s: seq<T>, le: (T, T) -> bool)
    requires le(y, x)
    requires forall k :: 0 <= k < |s| ==> le(y, s[k])
    ensures forall k :: 0 <= k < |InsertBy(x, s, le)| ==> le(y, InsertBy(x, s, le)[k])
  {
    if s != [] && !le(x, s[0]) {
      InsertByBounded(y, x, s[1..], le);
      var rest := InsertBy(x, s[1..], le);
      assert InsertBy(x, s, le) == [s[0]] + rest;
    }
  }

  lemma {:induction false} InsertBySorted<T(!new)>(x: T, s: seq<T>, le: (T, T) -> bool)
    requires TotalPreorder(le)
    requires SortedBy(s, le)
    ensures SortedBy(InsertBy(x, s, le), le)
  {
    if s != [] && !le(x, s[0]) {
      var rest := InsertBy(x, s[1..], le);
      InsertBySorted(x, s[1..], le);
      InsertByBounded(s[0], x, s[1..], le);
      var r := InsertBy(x, s, le);
      assert r == [s[0]] + rest;
      forall i, j | 0 <= i < j < |r| ensures le(r[i], r[j]) {
        if i == 0 {
          assert r[j] == rest[j - 1];
        } else {
          assert r[i] == rest[i - 1] && r[j] == rest[j - 1];
        }
      }
    }
  }

  /** Under a total preorder, the sorted result is in order. */
  lemma {:induction false} SortBySorted<T(!new)>(s: seq<T>, le: (T, T) -> bool)
    requires TotalPreorder(le)
    ensures SortedBy(SortBy(s, le), le)
  {
    if s != [] {
      SortBySorted(s[1..], le);
      InsertBySorted(s[0], SortBy(s[1..], le), le);
    }
  }

  /** The length of a sort is the length of its input. */
  lemma SortByLength<T>(s: seq<T>, le: (T, T) -> bool)
    ensures |SortBy(s, le)| == |s|
  {
    SortByPermutes(s, le);
    assert |multiset(SortBy(s, le))| == |multiset(s)|;
  }

  /** An element occurs in the sorted result exactly when it occurs in the input. */
  lemma SortByMember<T>(s: seq<T>, le: (T, T) -> bool, x: T)
    ensures x in SortBy(s, le) <==> x in s
  {
    SortByPermutes(s, le);
    assert x in SortBy(s, le) <==> x in multiset(SortBy(s, le));
    assert x in s <==> x in multiset(s);
  }

  /** `.order(key, { ascending: false })`: larger keys first. */
  function Descending<T>(key: T -> int): (T, T) -> bool {
    (a: T, b: T) => key(a) >= key(b)
  }

  /** `.order(key, { ascending: true })`: smaller keys first. */
  function Ascending<T>(key: T -> int): (T, T) -> bool {
    (a: T, b: T) => key(a) <= key(b)
  }

  /** Sorting by a key, largest first, reorders the input into non-increasing key order. */
  lemma SortDescendingSpec<T(!new)>(s: seq<T>, key: T -> int)
    ensures var r := SortBy(s, Descending(key));
      && multiset(r) == multiset(s)
      && forall i, j :: 0 <= i < j < |r| ==> key(r[i]) >= key(r[j])
  {
    var le := Descending(key);
    assert TotalPreorder(le);
    SortByPermutes(s, le);
    SortBySorted(s, le);
    var r := SortBy(s, le);
    forall i, j | 0 <= i < j < |r| ensures key(r[i]) >= key(r[j]) {
      assert le(r[i], r[j]);
    }
  }

  /** Sorting by a key, smallest first, reorders the input into non-decreasing key order. */
  lemma SortAscendingSpec<T(!new)>(s: seq<T>, key: T -> int)
    ensures var r := SortBy(s, Ascending(key));
      && multiset(r) == multiset(s)
      && forall i, j :: 0 <= i < j < |r| ==> key(r[i]) <= key(r[j])
  {
    var le := Ascending(key);
    assert TotalPreorder(le);
    SortByPermutes(s, le);
    SortBySorted(s, le);
    var r := SortBy(s, le);
    forall i, j | 0 <= i < j < |r| ensures key(r[i]) <= key(r[j]) {
      assert le(r[i], r[j]);
    }
  }

  /** Filtering with two predicates that agree everywhere gives the same list. */
  lemma {:induction false} FilterAgree<T>(s: seq<T>, p: T -> bool, q: T -> bool)
    requires forall x :: p(x) == q(x)
    ensures Filter(s, p) == Filter(s, q)
  {
    if s != [] {
      FilterAgree(s[1..], p, q);
    }
  }
}
