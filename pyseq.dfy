/** Python's built-in `sum`, `functools.reduce(add, ...)` and filtering of a
    sequence of records, together with the algebra used by the rest of the model. */
module PySeq {
  import opened Wrappers

  /** Reference definition of the sum of a sequence of integers. */
  function Total(xs: seq<int>): int
  {
    if xs == [] then 0 else xs[0] + Total(xs[1..])
  }

  /** The left fold that both `sum` and `reduce` perform: start from `acc`
      and add the elements one by one, from the front. */
  function FoldAdd(acc: int, xs: seq<int>): (r: int)
    ensures r == acc + Total(xs)
    decreases xs
  {
    if xs == [] then acc else FoldAdd(acc + xs[0], xs[1..])
  }

  /** Python's `sum(xs)`: the fold started at 0. */
  function Sum(xs: seq<int>): (r: int)
    ensures r == Total(xs)
    ensures xs == [] ==> r == 0
  {
    FoldAdd(0, xs)
  }

  /** `functools.reduce(lambda a, b: a + b, xs)` with no initial value:
      the fold started at the first element; on an empty sequence Python
      raises TypeError, modelled as None. */
  function Reduce(xs: seq<int>): (r: Option<int>)
    ensures r.None? <==> xs == []
    ensures r.Some? ==> r.value == Total(xs)
  {
    if xs == [] then None else Some(FoldAdd(xs[0], xs[1..]))
  }

  lemma {:induction false} TotalConcat(a: seq<int>, b: seq<int>)
    ensures Total(a + b) == Total(a) + Total(b)
  {
    if a == [] {
      assert a + b == b;
    } else {
      assert (a + b)[1..] == a[1..] + b;
      TotalConcat(a[1..], b);
    }
  }

  lemma TotalAppend(a: seq<int>, x: int)
    ensures Total(a + [x]) == Total(a) + x
  {
    TotalConcat(a, [x]);
  }

  lemma {:induction false} TotalNonNegative(xs: seq<int>)
    requires forall i :: 0 <= i < |xs| ==> xs[i] >= 0
    ensures Total(xs) >= 0
  {
    if xs != [] {
      TotalNonNegative(xs[1..]);
    }
  }

  /** The sum does not depend on the order of the elements. */
  lemma {:induction false} TotalPermutation(a: seq<int>, b: seq<int>)
    requires multiset(a) == multiset(b)
    ensures Total(a) == Total(b)
    decreases |a|
  {
    if a == [] {
      assert |b| == |multiset(b)| == 0;
    } else {
      var x := a[0];
      assert x in multiset(b);
      var j :| 0 <= j < |b| && b[j] == x;
      var rest := b[..j] + b[j + 1..];
      assert b == b[..j] + [x] + b[j + 1..];
      assert a == [x] + a[1..];
      assert multiset(a) == multiset{x} + multiset(a[1..]);
      assert multiset(b) == multiset(b[..j]) + multiset{x} + multiset(b[j + 1..]);
      assert multiset(rest) == multiset(b[..j]) + multiset(b[j + 1..]);
      assert multiset(a[1..]) == multiset(a) - multiset{x};
      assert multiset(rest) == multiset(b) - multiset{x};
      TotalPermutation(a[1..], rest);
      TotalConcat(b[..j] + [x], b[j + 1..]);
      TotalConcat(b[..j], [x]);
      TotalConcat(b[..j], b[j + 1..]);
    }
  }

  /** The elements of `s` satisfying `p`, in their original order. */
  function Filter<T(!new)>(s: seq<T>, p: T -> bool): (r: seq<T>)
    ensures |r| <= |s|
    ensures forall x :: x in r <==> x in s && p(x)
  {
    if s == [] then []
    else if p(s[0]) then [s[0]] + Filter(s[1..], p)
    else Filter(s[1..], p)
  }

  /** `sub` is obtained from `s` by deleting some elements. */
  predicate IsSubsequence<T(==)>(sub: seq<T>, s: seq<T>)
    decreases |s|
  {
    if sub == [] then true
    else if s == [] then false
    else if sub[0] == s[0] then IsSubsequence(sub[1..], s[1..])
    else IsSubsequence(sub, s[1..])
  }

  lemma {:induction false} FilterIsSubsequence<T(!new)>(s: seq<T>, p: T -> bool)
    ensures IsSubsequence(Filter(s, p), s)
  {
    if s != [] {
      FilterIsSubsequence(s[1..], p);
      if p(s[0]) {
        var f := Filter(s, p);
        assert f[0] == s[0] && f[1..] == Filter(s[1..], p);
      } else {
        var f := Filter(s, p);
        assert f == Filter(s[1..], p);
        assert f != [] ==> p(f[0]) && f[0] != s[0];
      }
    }
  }

  lemma {:induction false} FilterConcat<T(!new)>(a: seq<T>, b: seq<T>, p: T -> bool)
    ensures Filter(a + b, p) == Filter(a, p) + Filter(b, p)
  {
    if a == [] {
      assert a + b == b;
    } else {
      assert (a + b)[0] == a[0];
      assert (a + b)[1..] == a[1..] + b;
      FilterConcat(a[1..], b, p);
    }
  }

  /** Filtering twice is filtering on the conjunction. */
  lemma {:induction false} FilterFilter<T(!new)>(s: seq<T>, p: T -> bool, q: T -> bool, pq: T -> bool)
    requires forall x :: pq(x) == (p(x) && q(x))
    ensures Filter(s, pq) == Filter(Filter(s, p), q)
  {
    if s != [] {
      FilterFilter(s[1..], p, q, pq);
    }
  }

  /** A filter whose predicate holds of every element keeps the whole sequence. */
  lemma {:induction false} FilterAll<T(!new)>(s: seq<T>, p: T -> bool)
    requires forall i :: 0 <= i < |s| ==> p(s[i])
    ensures Filter(s, p) == s
  {
    if s != [] {
      FilterAll(s[1..], p);
    }
  }
}
