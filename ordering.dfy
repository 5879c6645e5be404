/**
 * Sorting by a JavaScript comparator. `Array.prototype.sort` is stable and, for a comparator
 * that orders its inputs consistently, yields the one stable order that comparator
 * describes; the model is a stable insertion sort. The comparator returns a number, and a
 * result at most 0 keeps `a` before `b`.
 */
module Ordering {

  /** Inserts `x` before the first element it may precede. */
  function InsertBy<T(==)>(x: T, l: seq<T>, cmp: (T, T) -> int): (r: seq<T>)
    ensures |r| == |l| + 1 && multiset(r) == multiset{x} + multiset(l)
  {
    if l == [] then [x]
    else if cmp(x, l[0]) <= 0 then [x] + l
    else
      assert l == [l[0]] + l[1..];
      [l[0]] + InsertBy(x, l[1..], cmp)
  }

  /** `[...xs].sort(cmp)`: each element is inserted into the sorted rest after it, which keeps ties in input order. */
  function SortBy<T(==)>(xs: seq<T>, cmp: (T, T) -> int): (r: seq<T>)
    ensures |r| == |xs| && multiset(r) == multiset(xs)
  {
    if xs == [] then []
    else
      assert xs == [xs[0]] + xs[1..];
      InsertBy(xs[0], SortBy(xs[1..], cmp), cmp)
  }

  ghost predicate SortedBy<T>(r: seq<T>, cmp: (T, T) -> int) {
    forall i, j :: 0 <= i < j < |r| ==> cmp(r[i], r[j]) <= 0
  }

  /** On the elements of `d`, `cmp(a, b) <= 0` is total and transitive. */
  ghost predicate ConsistentOn<T>(d: seq<T>, cmp: (T, T) -> int) {
    && (forall a, b :: a in d && b in d ==> cmp(a, b) <= 0 || cmp(b, a) <= 0)
    && (forall a, b, c :: a in d && b in d && c in d && cmp(a, b) <= 0 && cmp(b, c) <= 0 ==> cmp(a, c) <= 0)
  }

  /** Sorting keeps exactly the elements it is given. */
  lemma SortByMembers<T>(xs: seq<T>, cmp: (T, T) -> int, x: T)
    ensures x in SortBy(xs, cmp) <==> x in xs
  {
    assert x in SortBy(xs, cmp) <==> x in multiset(SortBy(xs, cmp));
  }

  lemma InsertByMembers<T>(x: T, l: seq<T>, cmp: (T, T) -> int)
    ensures forall z :: z in InsertBy(x, l, cmp) ==> z == x || z in l
  {
    forall z | z in InsertBy(x, l, cmp)
      ensures z == x || z in l
    {
      assert z in multiset(InsertBy(x, l, cmp));
    }
  }

  lemma {:induction false} InsertBySorted<T>(x: T, l: seq<T>, cmp: (T, T) -> int, d: seq<T>)
    requires SortedBy(l, cmp) && ConsistentOn(d, cmp)
    requires x in d && forall y :: y in l ==> y in d
    ensures SortedBy(InsertBy(x, l, cmp), cmp)
  {
    if l == [] {
    } else if cmp(x, l[0]) <= 0 {
      InsertFrontSorted(x, l, cmp, d);
    } else {
      assert forall y :: y in l[1..] ==> y in l;
      assert SortedBy(l[1..], cmp);
      InsertBySorted(x, l[1..], cmp, d);
      InsertLaterSorted(x, l, cmp, d);
    }
  }

  lemma InsertLaterSorted<T>(x: T, l: seq<T>, cmp: (T, T) -> int, d: seq<T>)
    requires SortedBy(l, cmp) && ConsistentOn(d, cmp)
    requires x in d && forall y :: y in l ==> y in d
    requires l != [] && cmp(x, l[0]) > 0
    requires SortedBy(InsertBy(x, l[1..], cmp), cmp)
    ensures SortedBy(InsertBy(x, l, cmp), cmp)
  {
    var rest := InsertBy(x, l[1..], cmp);
    assert l[0] in l;
    assert cmp(l[0], x) <= 0;
    InsertByMembers(x, l[1..], cmp);
    forall z | z in rest
      ensures cmp(l[0], z) <= 0
    {
      if z != x {
        var k :| 0 <= k < |l[1..]| && l[1..][k] == z;
        assert l[k + 1] == z;
      }
    }
    HeadSorted(l[0], rest, cmp);
  }

  lemma InsertFrontSorted<T>(x: T, l: seq<T>, cmp: (T, T) -> int, d: seq<T>)
    requires SortedBy(l, cmp) && ConsistentOn(d, cmp)
    requires x in d && forall y :: y in l ==> y in d
    requires l != [] && cmp(x, l[0]) <= 0
    ensures SortedBy([x] + l, cmp)
  {
    var r := [x] + l;
    forall i, j | 0 <= i < j < |r|
      ensures cmp(r[i], r[j]) <= 0
    {
      if i == 0 && j > 1 {
        assert l[0] in l && l[j - 1] in l;
        assert cmp(l[0], l[j - 1]) <= 0;
      }
    }
  }

  /** A sorted `rest` stays sorted behind a head that may precede every one of its elements. */
  lemma HeadSorted<T>(h: T, rest: seq<T>, cmp: (T, T) -> int)
    requires SortedBy(rest, cmp)
    requires forall z :: z in rest ==> cmp(h, z) <= 0
    ensures SortedBy([h] + rest, cmp)
  {
    var r := [h] + rest;
    forall i, j | 0 <= i < j < |r|
      ensures cmp(r[i], r[j]) <= 0
    {
      if i == 0 {
        assert r[j] in rest;
      }
    }
  }

  /** With a comparator that is consistent on the input, the result is in comparator order. */
  lemma {:induction false} SortBySorted<T>(xs: seq<T>, cmp: (T, T) -> int)
    requires ConsistentOn(xs, cmp)
    ensures SortedBy(SortBy(xs, cmp), cmp)
  {
    SortBySortedIn(xs, cmp, xs);
  }

  lemma {:induction false} SortBySortedIn<T>(xs: seq<T>, cmp: (T, T) -> int, d: seq<T>)
    requires ConsistentOn(d, cmp) && forall y :: y in xs ==> y in d
    ensures SortedBy(SortBy(xs, cmp), cmp)
  {
    if xs != [] {
      var rest := SortBy(xs[1..], cmp);
      assert xs[0] in xs;
      SortBySortedIn(xs[1..], cmp, d);
      forall y | y in rest
        ensures y in d
      {
        assert y in multiset(rest);
        assert y in xs[1..];
      }
      InsertBySorted(xs[0], rest, cmp, d);
    }
  }
}
