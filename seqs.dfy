/** Lists as JavaScript's `Array.prototype.filter` and plain objects (insertion-ordered
    key/value records) use them. */
module Seqs {
  import opened Wrappers

  /** `s.filter(p)`: the elements satisfying `p`, in their original order. */
  function Filter<T>(s: seq<T>, p: T -> bool): (r: seq<T>)
    ensures |r| <= |s|
    ensures forall i | 0 <= i < |r| :: r[i] in s && p(r[i])
    ensures forall i | 0 <= i < |s| && p(s[i]) :: s[i] in r
  {
    if s == [] then [] else Filter(s[..|s| - 1], p) + (if p(s[|s| - 1]) then [s[|s| - 1]] else [])
  }

  /** `a` is `b` with some elements left out and the rest in the same order. */
  predicate IsSubsequence<T(==)>(a: seq<T>, b: seq<T>)
    decreases |b|
  {
    if a == [] then true
    else if b == [] then false
    else if a[|a| - 1] == b[|b| - 1] then IsSubsequence(a[..|a| - 1], b[..|b| - 1])
    else IsSubsequence(a, b[..|b| - 1])
  }

  lemma {:induction false} SubsequenceOfSelf<T>(s: seq<T>)
    ensures IsSubsequence(s, s)
  {
    if s != [] {
      SubsequenceOfSelf(s[..|s| - 1]);
    }
  }

  lemma {:induction false} SubsequenceOfPrefix<T>(a: seq<T>, b: seq<T>, x: T)
    requires IsSubsequence(a, b)
    ensures IsSubsequence(a, b + [x])
    decreases |b|, 1
  {
    var b' := b + [x];
    assert b'[..|b'| - 1] == b;
    if a != [] && a[|a| - 1] == x {
      SubsequenceDropLast(a, b);
    }
  }

  lemma {:induction false} SubsequenceDropLast<T>(a: seq<T>, b: seq<T>)
    requires a != [] && IsSubsequence(a, b)
    ensures IsSubsequence(a[..|a| - 1], b)
    decreases |b|, 0
  {
    var a' := a[..|a| - 1];
    if a[|a| - 1] == b[|b| - 1] {
      SubsequenceOfPrefix(a', b[..|b| - 1], b[|b| - 1]);
      assert b[..|b| - 1] + [b[|b| - 1]] == b;
    } else {
      SubsequenceDropLast(a, b[..|b| - 1]);
      SubsequenceOfPrefix(a', b[..|b| - 1], b[|b| - 1]);
      assert b[..|b| - 1] + [b[|b| - 1]] == b;
    }
  }

  /** Filtering keeps the relative order of what it keeps. */
  lemma {:induction false} FilterIsSubsequence<T>(s: seq<T>, p: T -> bool)
    ensures IsSubsequence(Filter(s, p), s)
  {
    if s != [] {
      var init, x := s[..|s| - 1], s[|s| - 1];
      FilterIsSubsequence(init, p);
      assert init + [x] == s;
      if p(x) {
        assert Filter(s, p)[..|Filter(s, p)| - 1] == Filter(init, p);
      } else {
        assert Filter(s, p) == Filter(init, p);
        SubsequenceOfPrefix(Filter(init, p), init, x);
      }
    }
  }

  /** Filtering by `p` and by its negation `q` splits the list: every element lands in exactly one part. */
  lemma {:induction false} FilterSplits<T>(s: seq<T>, p: T -> bool, q: T -> bool)
    requires forall i | 0 <= i < |s| :: q(s[i]) == !p(s[i])
    ensures multiset(Filter(s, p)) + multiset(Filter(s, q)) == multiset(s)
  {
    if s != [] {
      var init, x := s[..|s| - 1], s[|s| - 1];
      assert s == init + [x];
      FilterSplits(init, p, q);
      FilterSnoc(init, x, p);
      FilterSnoc(init, x, q);
      SplitSnoc(Filter(init, p), Filter(init, q), init, x, p(x));
    }
  }

  /** Filtering keeps every copy of each element that passes. */
  lemma FilterMultiplicity<T>(s: seq<T>, p: T -> bool)
    ensures forall x | p(x) :: multiset(Filter(s, p))[x] == multiset(s)[x]
  {
    var q := (x: T) => !p(x);
    FilterSplits(s, p, q);
    forall x | p(x)
      ensures multiset(Filter(s, p))[x] == multiset(s)[x]
    {
      assert x !in Filter(s, q);
    }
  }

  /** Filtering a list with one more element at the end. */
  lemma FilterSnoc<T>(init: seq<T>, x: T, p: T -> bool)
    ensures Filter(init + [x], p) == Filter(init, p) + (if p(x) then [x] else [])
  {
    assert (init + [x])[..|init|] == init;
  }

  /** Adding one element to exactly one of two parts of a list adds it to the whole. */
  lemma SplitSnoc<T>(a: seq<T>, b: seq<T>, whole: seq<T>, x: T, toA: bool)
    requires multiset(a) + multiset(b) == multiset(whole)
    ensures multiset(a + (if toA then [x] else [])) + multiset(b + (if toA then [] else [x])) == multiset(whole + [x])
  {
    if toA {
      assert multiset(a + [x]) == multiset(a) + multiset{x};
      assert b + [] == b;
    } else {
      assert multiset(b + [x]) == multiset(b) + multiset{x};
      assert a + [] == a;
    }
  }

  lemma {:induction false} FilterAppend<T>(a: seq<T>, b: seq<T>, p: T -> bool)
    ensures Filter(a + b, p) == Filter(a, p) + Filter(b, p)
  {
    if b != [] {
      var b' := b[..|b| - 1];
      FilterAppend(a, b', p);
      assert (a + b)[..|a + b| - 1] == a + b';
    } else {
      assert a + b == a;
    }
  }

  /** When every element passes, filtering changes nothing. */
  lemma {:induction false} FilterKeepsAll<T>(s: seq<T>, p: T -> bool)
    requires forall i | 0 <= i < |s| :: p(s[i])
    ensures Filter(s, p) == s
  {
    if s != [] {
      FilterKeepsAll(s[..|s| - 1], p);
    }
  }

  /** The first element kept is the first element of `s` that satisfies `p`. */
  lemma {:induction false} FilterFirst<T>(s: seq<T>, p: T -> bool, i: int)
    requires 0 <= i < |s| && p(s[i])
    requires forall j | 0 <= j < i :: !p(s[j])
    ensures Filter(s, p) != [] && Filter(s, p)[0] == s[i]
  {
    var init := s[..|s| - 1];
    if i == |s| - 1 {
      FilterNone(init, p);
    } else {
      FilterFirst(init, p, i);
    }
  }

  /** When no element passes, nothing is kept. */
  lemma {:induction false} FilterNone<T>(s: seq<T>, p: T -> bool)
    requires forall j | 0 <= j < |s| :: !p(s[j])
    ensures Filter(s, p) == []
  {
    if s != [] {
      FilterNone(s[..|s| - 1], p);
    }
  }

  /** `s.map(f)`. */
  function Map<T, U>(s: seq<T>, f: T -> U): (r: seq<U>)
    ensures |r| == |s|
    ensures forall i | 0 <= i < |s| :: r[i] == f(s[i])
  {
    if s == [] then [] else Map(s[..|s| - 1], f) + [f(s[|s| - 1])]
  }

  /** `s.map(f)` where `f` may throw (None): None as soon as one element fails. */
  function MapAll<T, U>(s: seq<T>, f: T -> Option<U>): (r: Option<seq<U>>)
    ensures r.Some? <==> forall i | 0 <= i < |s| :: f(s[i]).Some?
    ensures r.Some? ==> |r.value| == |s| && forall i | 0 <= i < |s| :: Some(r.value[i]) == f(s[i])
  {
    if s == [] then Some([])
    else
      match f(s[0])
      case None => None
      case Some(first) =>
        var tail := MapAll(s[1..], f);
        assert forall i | 1 <= i < |s| :: s[1..][i - 1] == s[i];
        if tail.None? then None else Some([first] + tail.value)
  }

  /** `s.find(p)`: the first element satisfying `p`. */
  function Find<T>(s: seq<T>, p: T -> bool): (r: Option<T>)
    ensures r.Some? <==> exists i | 0 <= i < |s| :: p(s[i])
    ensures r.Some? ==> r.value in s && p(r.value)
  {
    if s == [] then None else if p(s[0]) then Some(s[0]) else Find(s[1..], p)
  }

  // ---- plain objects: keys in insertion order, as `Object.entries` lists them ----

  /** `obj[k]` for an object held as its entry list. */
  function Lookup<K(==), V>(obj: seq<(K, V)>, k: K): (r: Option<V>)
    ensures r.Some? <==> k in Keys(obj)
  {
    if obj == [] then None else if obj[0].0 == k then Some(obj[0].1) else Lookup(obj[1..], k)
  }

  /** `Object.keys(obj)`. */
  function Keys<K, V>(obj: seq<(K, V)>): (ks: seq<K>)
    ensures |ks| == |obj|
    ensures forall i | 0 <= i < |obj| :: ks[i] == obj[i].0
  {
    if obj == [] then [] else [obj[0].0] + Keys(obj[1..])
  }

  predicate DistinctKeys<K(==), V>(obj: seq<(K, V)>) {
    forall i, j | 0 <= i < j < |obj| :: obj[i].0 != obj[j].0
  }

  /** `obj[k] = v`: an existing key keeps its place, a new key goes last. */
  function Put<K(==), V>(obj: seq<(K, V)>, k: K, v: V): (r: seq<(K, V)>)
    ensures k in Keys(obj) ==> Keys(r) == Keys(obj)
    ensures k !in Keys(obj) ==> Keys(r) == Keys(obj) + [k]
  {
    if obj == [] then [(k, v)]
    else if obj[0].0 == k then
      ConsFacts(obj[0], obj[1..]);
      ConsFacts((k, v), obj[1..]);
      [(k, v)] + obj[1..]
    else
      var rest := Put(obj[1..], k, v);
      ConsFacts(obj[0], obj[1..]);
      ConsFacts(obj[0], rest);
      [obj[0]] + rest
  }

  /** After `obj[k] = v`, `obj[k]` is `v` and every other key reads as before. */
  lemma {:induction false} PutLookup<K, V>(obj: seq<(K, V)>, k: K, v: V, k': K)
    ensures Lookup(Put(obj, k, v), k') == if k' == k then Some(v) else Lookup(obj, k')
  {
    if obj != [] && obj[0].0 != k {
      PutLookup(obj[1..], k, v, k');
      ConsFacts(obj[0], Put(obj[1..], k, v));
    }
  }

  lemma ConsFacts<K, V>(e: (K, V), rest: seq<(K, V)>)
    ensures Keys([e] + rest) == [e.0] + Keys(rest)
    ensures forall k' | k' != e.0 :: Lookup([e] + rest, k') == Lookup(rest, k')
  {
    assert ([e] + rest)[1..] == rest;
  }
}
