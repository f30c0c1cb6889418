/** `Array.prototype.sort(compare)`: a stable sort driven by a comparator that returns a
    negative number, zero or a positive number. The result is given by insertion sort;
    for a consistent comparator every stable sort yields that same list. */
module Sorting {

  /** The comparator orders the elements of `xs` consistently: swapping the arguments flips
      the sign, and "not after" is transitive. */
  ghost predicate ConsistentOn<T>(cmp: (T, T) -> int, xs: seq<T>) {
    && (forall a, b | a in xs && b in xs :: cmp(a, b) <= 0 <==> cmp(b, a) >= 0)
    && (forall a, b, c | a in xs && b in xs && c in xs ::
          cmp(a, b) <= 0 && cmp(b, c) <= 0 ==> cmp(a, c) <= 0)
  }

  lemma ConsistentOnFewer<T>(cmp: (T, T) -> int, xs: seq<T>, ys: seq<T>)
    requires ConsistentOn(cmp, ys)
    requires forall y | y in xs :: y in ys
    ensures ConsistentOn(cmp, xs)
  {
  }

  /** No element is placed after one the comparator puts after it. */
  predicate SortedBy<T>(s: seq<T>, cmp: (T, T) -> int) {
    forall i, j | 0 <= i < j < |s| :: cmp(s[i], s[j]) <= 0
  }

  /** Places `x` after every element it does not precede. */
  function Insert<T>(x: T, s: seq<T>, cmp: (T, T) -> int): (r: seq<T>)
    ensures multiset(r) == multiset(s) + multiset{x}
  {
    if s == [] then [x]
    else if cmp(x, s[0]) < 0 then [x] + s
    else
      assert s == [s[0]] + s[1..];
      [s[0]] + Insert(x, s[1..], cmp)
  }

  /** `s.slice().sort(cmp)`: a permutation of `s`. */
  function SortBy<T>(s: seq<T>, cmp: (T, T) -> int): (r: seq<T>)
    ensures multiset(r) == multiset(s)
    ensures |r| == |s|
  {
    if s == [] then []
    else
      assert s == s[..|s| - 1] + [s[|s| - 1]];
      var r := Insert(s[|s| - 1], SortBy(s[..|s| - 1], cmp), cmp);
      assert |r| == |multiset(r)|;
      r
  }

  lemma {:induction false} InsertSorted<T>(x: T, s: seq<T>, cmp: (T, T) -> int)
    requires SortedBy(s, cmp)
    requires ConsistentOn(cmp, s + [x])
    ensures SortedBy(Insert(x, s, cmp), cmp)
  {
    if s == [] {
    } else if cmp(x, s[0]) < 0 {
      InsertFirst(x, s, cmp);
    } else {
      var tail := s[1..];
      forall y | y in tail + [x] ensures y in s + [x] {
        if y in tail { assert y in s; }
      }
      ConsistentOnFewer(cmp, tail + [x], s + [x]);
      InsertSorted(x, tail, cmp);
      assert s[0] in s + [x] && x in s + [x];
      InsertAfterHead(x, s, cmp);
    }
  }

  lemma InsertFirst<T>(x: T, s: seq<T>, cmp: (T, T) -> int)
    requires s != [] && cmp(x, s[0]) < 0
    requires SortedBy(s, cmp)
    requires ConsistentOn(cmp, s + [x])
    ensures SortedBy([x] + s, cmp)
  {
    assert s[0] in s + [x] && x in s + [x];
    forall j | 0 <= j < |s|
      ensures cmp(x, s[j]) <= 0
    {
      assert s[j] in s + [x];
    }
  }

  lemma InsertAfterHead<T>(x: T, s: seq<T>, cmp: (T, T) -> int)
    requires s != [] && cmp(x, s[0]) >= 0
    requires SortedBy(s, cmp)
    requires SortedBy(Insert(x, s[1..], cmp), cmp)
    requires cmp(s[0], x) <= 0 <==> cmp(x, s[0]) >= 0
    ensures SortedBy([s[0]] + Insert(x, s[1..], cmp), cmp)
  {
    var tail := s[1..];
    var r := Insert(x, tail, cmp);
    forall j | 0 <= j < |r|
      ensures cmp(s[0], r[j]) <= 0
    {
      assert r[j] in multiset(r);
      if r[j] != x {
        assert r[j] in multiset(tail);
        var k :| 0 <= k < |tail| && tail[k] == r[j];
        assert s[k + 1] == r[j];
      }
    }
  }

  /** With a consistent comparator the result is in order. */
  lemma {:induction false} SortBySorted<T>(s: seq<T>, cmp: (T, T) -> int)
    requires ConsistentOn(cmp, s)
    ensures SortedBy(SortBy(s, cmp), cmp)
  {
    if s != [] {
      var init, last := s[..|s| - 1], s[|s| - 1];
      assert s == init + [last];
      ConsistentOnFewer(cmp, init, s);
      SortBySorted(init, cmp);
      var sorted := SortBy(init, cmp);
      forall y | y in sorted + [last] ensures y in s {
        if y in sorted {
          assert y in multiset(init);
        }
      }
      ConsistentOnFewer(cmp, sorted + [last], s);
      InsertSorted(last, sorted, cmp);
    }
  }
}
