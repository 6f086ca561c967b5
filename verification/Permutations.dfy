/** Filters, images and totals of a sequence, and that they do not depend on the
    order of its elements. */
module Permutations {

  function Filter<T(!new)>(p: T -> bool, s: seq<T>): (r: seq<T>)
    ensures forall x :: x in r <==> x in s && p(x)
    ensures |r| <= |s|
  {
    if s == [] then []
    else
      var rest := Filter(p, s[1..]);
      assert forall x :: x in s <==> x == s[0] || x in s[1..];
      if p(s[0]) then [s[0]] + rest else rest
  }

  function Map<T, U>(f: T -> U, s: seq<T>): (r: seq<U>)
    ensures |r| == |s| && forall i :: 0 <= i < |s| ==> r[i] == f(s[i])
  {
    seq(|s|, i requires 0 <= i < |s| => f(s[i]))
  }

  function Total<T>(f: T -> real, s: seq<T>): real {
    if s == [] then 0.0 else Total(f, s[..|s| - 1]) + f(s[|s| - 1])
  }

  // ---------------------------------------------------------------- appending

  lemma {:induction false} FilterAppends<T(!new)>(p: T -> bool, s: seq<T>, x: T)
    ensures Filter(p, s + [x]) == Filter(p, s) + (if p(x) then [x] else [])
  {
    if s != [] {
      assert (s + [x])[1..] == s[1..] + [x];
      FilterAppends(p, s[1..], x);
    }
  }

  /** An element anywhere contributes its own value. */
  lemma {:induction false} TotalSplit<T>(f: T -> real, s: seq<T>, k: nat)
    requires k < |s|
    ensures Total(f, s) == Total(f, s[..k] + s[k + 1..]) + f(s[k])
    decreases |s|
  {
    var n := |s| - 1;
    if k == n {
      assert s[..k] + s[k + 1..] == s[..n];
    } else {
      TotalSplit(f, s[..n], k);
      var rest := s[..k] + s[k + 1..];
      assert rest[..|rest| - 1] == s[..n][..k] + s[..n][k + 1..];
      assert rest[|rest| - 1] == s[n] && s[..n][k] == s[k];
    }
  }

  // ---------------------------------------------------------------- permuting

  lemma SplitOff<T>(s: seq<T>, k: nat)
    requires k < |s|
    ensures multiset(s[..k] + s[k + 1..]) == multiset(s) - multiset{s[k]}
  {
    assert s == s[..k] + [s[k]] + s[k + 1..];
  }

  /** Removing one occurrence of the last element of a from b. */
  lemma Without<T>(a: seq<T>, b: seq<T>) returns (k: nat)
    requires multiset(a) == multiset(b) && a != []
    ensures k < |b| && b[k] == a[|a| - 1]
    ensures multiset(a[..|a| - 1]) == multiset(b[..k] + b[k + 1..])
  {
    var n := |a| - 1;
    assert a[n] in multiset(a);
    assert a[n] in b;
    k :| 0 <= k < |b| && b[k] == a[n];
    assert a == a[..n] + [a[n]];
    SplitOff(b, k);
    assert multiset(a) == multiset(a[..n]) + multiset{a[n]};
    assert multiset(a[..n]) == multiset(a) - multiset{a[n]};
  }

  lemma {:induction false} TotalPermutes<T>(f: T -> real, a: seq<T>, b: seq<T>)
    requires multiset(a) == multiset(b)
    ensures Total(f, a) == Total(f, b)
    decreases |a|
  {
    assert |multiset(a)| == |a| && |multiset(b)| == |b|;
    if a != [] {
      var k := Without(a, b);
      TotalPermutes(f, a[..|a| - 1], b[..k] + b[k + 1..]);
      TotalSplit(f, b, k);
    }
  }

  lemma {:induction false} FilterCounts<T(!new)>(p: T -> bool, s: seq<T>, x: T)
    ensures multiset(Filter(p, s))[x] == if p(x) then multiset(s)[x] else 0
  {
    if s != [] {
      assert s == [s[0]] + s[1..];
      FilterCounts(p, s[1..], x);
    }
  }

  lemma FilterPermutes<T(!new)>(p: T -> bool, a: seq<T>, b: seq<T>)
    requires multiset(a) == multiset(b)
    ensures multiset(Filter(p, a)) == multiset(Filter(p, b))
  {
    forall x: T ensures multiset(Filter(p, a))[x] == multiset(Filter(p, b))[x] {
      FilterCounts(p, a, x);
      FilterCounts(p, b, x);
    }
  }

  lemma MapWithout<T, U>(f: T -> U, s: seq<T>, k: nat)
    requires k < |s|
    ensures multiset(Map(f, s)) == multiset(Map(f, s[..k] + s[k + 1..])) + multiset{f(s[k])}
  {
    var image := Map(f, s);
    SplitOff(image, k);
    assert Map(f, s[..k] + s[k + 1..]) == image[..k] + image[k + 1..];
    assert image[k] in multiset(image);
  }

  lemma {:induction false} MapPermutes<T, U>(f: T -> U, a: seq<T>, b: seq<T>)
    requires multiset(a) == multiset(b)
    ensures multiset(Map(f, a)) == multiset(Map(f, b))
    decreases |a|
  {
    assert |multiset(a)| == |a| && |multiset(b)| == |b|;
    if a == [] {
      assert Map(f, a) == Map(f, b);
    } else {
      var n := |a| - 1;
      var k := Without(a, b);
      MapPermutes(f, a[..n], b[..k] + b[k + 1..]);
      MapWithout(f, b, k);
      MapWithout(f, a, n);
      assert a[..n] + a[n + 1..] == a[..n];
    }
  }

  /** A filter and its complement are the whole. */
  lemma {:induction false} FilterSplits<T(!new)>(p: T -> bool, q: T -> bool, s: seq<T>)
    requires forall x :: x in s ==> q(x) == !p(x)
    ensures multiset(Filter(p, s)) + multiset(Filter(q, s)) == multiset(s)
    ensures |Filter(p, s)| + |Filter(q, s)| == |s|
  {
    if s != [] {
      assert s == [s[0]] + s[1..];
      FilterSplits(p, q, s[1..]);
    }
  }
}
