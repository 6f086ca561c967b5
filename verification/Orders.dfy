/** Orders the relay sorts by, and what sorting with a strict total order gives. */
module Orders {

  // ---------------------------------------------------------------- strings

  /** Byte-wise comparison of strings, Go's `<`. */
  predicate StringLess(a: string, b: string) {
    b != [] && (a == [] || a[0] < b[0] || (a[0] == b[0] && StringLess(a[1..], b[1..])))
  }

  lemma {:induction false} StringLessIsTotal(a: string, b: string)
    ensures a != b ==> StringLess(a, b) || StringLess(b, a)
    ensures !(StringLess(a, b) && StringLess(b, a))
    ensures !StringLess(a, a)
  {
    if a != [] && b != [] {
      StringLessIsTotal(a[1..], b[1..]);
      StringLessIsTotal(a[1..], a[1..]);
      if a[0] == b[0] && a[1..] == b[1..] {
        assert a == [a[0]] + a[1..] && b == [b[0]] + b[1..];
      }
    } else if a != [] {
      StringLessIsTotal(a[1..], a[1..]);
    }
  }

  lemma {:induction false} StringLessIsTransitive(a: string, b: string, c: string)
    requires StringLess(a, b) && StringLess(b, c)
    ensures StringLess(a, c)
  {
    if a != [] && a[0] == b[0] == c[0] {
      StringLessIsTransitive(a[1..], b[1..], c[1..]);
    }
  }

  // ---------------------------------------------------------------- sequences

  ghost predicate Distinct<T>(s: seq<T>) {
    forall i, j :: 0 <= i < j < |s| ==> s[i] != s[j]
  }

  /** s lists every element of the set, once. */
  ghost predicate Lists<T>(s: seq<T>, elements: set<T>) {
    Distinct(s) && (forall i :: 0 <= i < |s| ==> s[i] in elements) && (forall x :: x in elements ==> x in s)
  }

  lemma ListsOneMore<T>(s: seq<T>, elements: set<T>, x: T)
    requires Lists(s, elements) && x !in elements
    ensures Lists(s + [x], elements + {x})
  {
  }

  /** Walking a set: x is one of the wanted elements, or it is not. */
  lemma VisitTakes<T>(s: seq<T>, wanted: set<T>, todo: set<T>, x: T)
    requires Lists(s, wanted - todo) && x in wanted && x in todo
    ensures Lists(s + [x], wanted - (todo - {x}))
  {
    ListsOneMore(s, wanted - todo, x);
    assert wanted - (todo - {x}) == wanted - todo + {x};
  }

  lemma VisitSkips<T>(s: seq<T>, wanted: set<T>, todo: set<T>, x: T)
    requires Lists(s, wanted - todo) && x !in wanted
    ensures Lists(s, wanted - (todo - {x}))
  {
    assert wanted - (todo - {x}) == wanted - todo;
  }

  lemma SubsetSize<T>(a: set<T>, b: set<T>)
    requires a <= b
    ensures |a| <= |b| && (|a| == |b| ==> a == b)
  {
    assert b == a + (b - a);
  }

  // ---------------------------------------------------------------- sorting

  ghost predicate StrictTotalOn<T>(less: (T, T) -> bool, s: seq<T>) {
    && (forall x :: x in s ==> !less(x, x))
    && (forall x, y :: x in s && y in s && x != y ==> less(x, y) || less(y, x))
    && (forall x, y, z :: x in s && y in s && z in s && less(x, y) && less(y, z) ==> less(x, z))
  }

  ghost predicate SortedBy<T>(less: (T, T) -> bool, s: seq<T>) {
    forall i, j :: 0 <= i < j < |s| ==> less(s[i], s[j])
  }

  /** slices.SortFunc, as any stable algorithm would do it: an insertion sort. */
  function Sort<T>(less: (T, T) -> bool, s: seq<T>): (r: seq<T>)
    ensures multiset(r) == multiset(s) && |r| == |s|
  {
    if s == [] then []
    else
      assert s == [s[0]] + s[1..];
      Insert(less, s[0], Sort(less, s[1..]))
  }

  function Insert<T>(less: (T, T) -> bool, x: T, s: seq<T>): (r: seq<T>)
    ensures multiset(r) == multiset{x} + multiset(s) && |r| == |s| + 1
  {
    if s == [] || !less(s[0], x) then [x] + s
    else
      assert s == [s[0]] + s[1..];
      [s[0]] + Insert(less, x, s[1..])
  }

  lemma SameElements<T>(a: seq<T>, b: seq<T>)
    requires multiset(a) == multiset(b)
    ensures forall x :: x in a <==> x in b
    ensures |a| == |b|
  {
    assert forall x :: x in a <==> x in multiset(a);
    assert forall x :: x in b <==> x in multiset(b);
    assert |multiset(a)| == |a| && |multiset(b)| == |b|;
  }

  lemma DistinctByMultiset<T>(a: seq<T>, b: seq<T>)
    requires multiset(a) == multiset(b) && Distinct(a)
    ensures Distinct(b)
  {
    forall i, j | 0 <= i < j < |b| ensures b[i] != b[j] {
      if b[i] == b[j] {
        TwiceInMultiset(b, i, j);
        OnceInMultiset(a, b[i]);
        assert false;
      }
    }
  }

  lemma TwiceInMultiset<T>(s: seq<T>, i: nat, j: nat)
    requires i < j < |s| && s[i] == s[j]
    ensures multiset(s)[s[i]] >= 2
  {
    assert s == s[..i] + [s[i]] + s[i + 1..j] + [s[j]] + s[j + 1..];
  }

  lemma {:induction false} OnceInMultiset<T>(s: seq<T>, x: T)
    requires Distinct(s)
    ensures multiset(s)[x] <= 1
  {
    if s != [] {
      assert s == [s[0]] + s[1..];
      OnceInMultiset(s[1..], x);
      if s[0] == x {
        assert x !in s[1..];
      }
    }
  }

  lemma TotalOnFewer<T>(less: (T, T) -> bool, s: seq<T>, t: seq<T>)
    requires StrictTotalOn(less, s) && forall x :: x in t ==> x in s
    ensures StrictTotalOn(less, t)
  {
  }

  lemma TotalOnSame<T>(less: (T, T) -> bool, s: seq<T>, t: seq<T>)
    requires StrictTotalOn(less, s) && multiset(s) == multiset(t)
    ensures StrictTotalOn(less, t)
  {
    SameElements(s, t);
    TotalOnFewer(less, s, t);
  }

  lemma {:induction false} InsertKeepsSorted<T>(less: (T, T) -> bool, x: T, s: seq<T>)
    requires SortedBy(less, s) && StrictTotalOn(less, [x] + s) && x !in s
    ensures SortedBy(less, Insert(less, x, s))
  {
    if s != [] {
      assert s[0] in [x] + s && x in [x] + s && x != s[0];
      if less(s[0], x) {
        TotalOnFewer(less, [x] + s, [x] + s[1..]);
        InsertKeepsSorted(less, x, s[1..]);
        var r := Insert(less, x, s[1..]);
        BelowAll(less, s[0], x, s[1..], r);
        SortedCons(less, s[0], r);
      } else {
        forall i | 0 <= i < |s| ensures less(x, s[i]) {
          assert s[i] in [x] + s;
        }
      }
    }
  }

  lemma SortedCons<T>(less: (T, T) -> bool, x: T, s: seq<T>)
    requires SortedBy(less, s) && forall i :: 0 <= i < |s| ==> less(x, s[i])
    ensures SortedBy(less, [x] + s)
  {
  }

  lemma BelowAll<T>(less: (T, T) -> bool, low: T, x: T, s: seq<T>, r: seq<T>)
    requires less(low, x) && forall i :: 0 <= i < |s| ==> less(low, s[i])
    requires multiset(r) == multiset{x} + multiset(s)
    ensures forall i :: 0 <= i < |r| ==> less(low, r[i])
  {
    forall i | 0 <= i < |r| ensures less(low, r[i]) {
      assert r[i] in multiset(r);
      assert r[i] == x || r[i] in multiset(s);
    }
  }

  /** Sorting distinct elements by a strict total order sorts them. */
  lemma {:induction false} SortSorts<T>(less: (T, T) -> bool, s: seq<T>)
    requires StrictTotalOn(less, s) && Distinct(s)
    ensures SortedBy(less, Sort(less, s))
  {
    if s != [] {
      TotalOnFewer(less, s, s[1..]);
      SortSorts(less, s[1..]);
      var t := Sort(less, s[1..]);
      SameElements(t, s[1..]);
      assert s == [s[0]] + s[1..];
      TotalOnSame(less, s, [s[0]] + t);
      InsertKeepsSorted(less, s[0], t);
    }
  }

  lemma FirstIsLess<T>(less: (T, T) -> bool, s: seq<T>, i: nat)
    requires SortedBy(less, s) && i < |s|
    ensures i == 0 || less(s[0], s[i])
  {
  }

  lemma SameFirst<T>(less: (T, T) -> bool, a: seq<T>, b: seq<T>)
    requires multiset(a) == multiset(b) && SortedBy(less, a) && SortedBy(less, b) && StrictTotalOn(less, a)
    requires a != [] && b != []
    ensures a[0] == b[0]
  {
    SameElements(a, b);
    assert a[0] in b && b[0] in a;
    var i :| 0 <= i < |a| && a[i] == b[0];
    var j :| 0 <= j < |b| && b[j] == a[0];
    FirstIsLess(less, a, i);
    FirstIsLess(less, b, j);
  }

  lemma TailMultiset<T>(s: seq<T>)
    requires s != []
    ensures multiset(s[1..]) == multiset(s) - multiset{s[0]}
  {
    assert s == [s[0]] + s[1..];
  }

  lemma HeadAndTail<T>(a: seq<T>, b: seq<T>)
    requires a != [] && b != [] && a[0] == b[0] && a[1..] == b[1..]
    ensures a == b
  {
    assert a == [a[0]] + a[1..] && b == [b[0]] + b[1..];
  }

  lemma TailIsSorted<T>(less: (T, T) -> bool, s: seq<T>)
    requires s != [] && SortedBy(less, s)
    ensures SortedBy(less, s[1..])
  {
  }

  /** There is only one way to sort by a strict total order. */
  lemma {:induction false} SortedIsUnique<T>(less: (T, T) -> bool, a: seq<T>, b: seq<T>)
    requires multiset(a) == multiset(b) && SortedBy(less, a) && SortedBy(less, b) && StrictTotalOn(less, a)
    ensures a == b
    decreases |a|
  {
    SameElements(a, b);
    if a != [] {
      SameFirst(less, a, b);
      TailMultiset(a);
      TailMultiset(b);
      TailIsSorted(less, a);
      TailIsSorted(less, b);
      TotalOnFewer(less, a, a[1..]);
      SortedIsUnique(less, a[1..], b[1..]);
      HeadAndTail(a, b);
    }
  }

  /** Sorting forgets the order the elements came in. */
  lemma SortForgetsOrder<T>(less: (T, T) -> bool, a: seq<T>, b: seq<T>)
    requires multiset(a) == multiset(b) && StrictTotalOn(less, a) && Distinct(a)
    ensures Sort(less, a) == Sort(less, b)
  {
    DistinctByMultiset(a, b);
    TotalOnSame(less, a, b);
    SortSorts(less, a);
    SortSorts(less, b);
    var r := Sort(less, a);
    TotalOnSame(less, a, r);
    SortedIsUnique(less, r, Sort(less, b));
  }
}
