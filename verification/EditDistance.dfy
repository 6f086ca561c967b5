/** The suggestion for an unknown setting name in cmd/relay-server/config.go. */
module EditDistance {
  import opened Orders

  function Min(x: nat, y: nat): nat { if x <= y then x else y }

  function Cost(x: char, y: char): nat { if x == y then 0 else 1 }

  /** The recurrence on the last characters. */
  function Distance(a: string, b: string): nat
    decreases |a| + |b|
  {
    if a == [] then |b|
    else if b == [] then |a|
    else
      var m, n := |a| - 1, |b| - 1;
      Min(Min(Distance(a[..m], b) + 1, Distance(a, b[..n]) + 1), Distance(a[..m], b[..n]) + Cost(a[m], b[n]))
  }

  // ---------------------------------------------------------------- what it measures

  /** One character inserted, deleted or replaced. */
  ghost predicate OneEdit(s: string, t: string) {
    || (exists i, x :: 0 <= i <= |s| && t == s[..i] + [x] + s[i..])
    || (exists i :: 0 <= i < |s| && t == s[..i] + s[i + 1..])
    || (exists i, x :: 0 <= i < |s| && t == s[..i] + [x] + s[i + 1..])
  }

  /** A way from a to b by single edits; it makes |c| - 1 of them. */
  ghost predicate Chain(a: string, b: string, c: seq<string>) {
    c != [] && c[0] == a && c[|c| - 1] == b && forall i :: 0 <= i < |c| - 1 ==> OneEdit(c[i], c[i + 1])
  }

  /** One step of the recurrence, with the last characters split off. */
  lemma Unfold(a: string, x: char, b: string, y: char)
    ensures Distance(a + [x], b + [y]) ==
            Min(Min(Distance(a, b + [y]) + 1, Distance(a + [x], b) + 1), Distance(a, b) + Cost(x, y))
  {
    assert (a + [x])[..|a|] == a && (b + [y])[..|b|] == b;
  }

  lemma LastOf(b: string)
    requires b != []
    ensures b == b[..|b| - 1] + [b[|b| - 1]]
  {
  }

  /** Adding a last character to either side costs at most one. */
  lemma OneLonger(a: string, b: string, x: char)
    ensures Distance(a, b + [x]) <= Distance(a, b) + 1 && Distance(a + [x], b) <= Distance(a, b) + 1
  {
    assert (b + [x])[..|b|] == b && (a + [x])[..|a|] == a;
  }

  lemma {:induction false} LastDropped(p: string, x: char, b: string)
    ensures Distance(p, b) <= Distance(p + [x], b) + 1
    decreases |b|
  {
    if b != [] {
      var n := |b| - 1;
      LastOf(b);
      Unfold(p, x, b[..n], b[n]);
      LastDropped(p, x, b[..n]);
      OneLonger(p, b[..n], b[n]);
    }
  }

  /** A character inserted anywhere changes the distance by at most one. */
  lemma {:induction false} InsertIsClose(p: string, x: char, q: string, b: string)
    ensures Distance(p + [x] + q, b) <= Distance(p + q, b) + 1 && Distance(p + q, b) <= Distance(p + [x] + q, b) + 1
    decreases |q| + |b|
  {
    if q == [] {
      assert p + [x] + q == p + [x] && p + q == p;
      OneLonger(p, b, x);
      LastDropped(p, x, b);
    } else if b != [] {
      var q', y, b', z := q[..|q| - 1], q[|q| - 1], b[..|b| - 1], b[|b| - 1];
      LastOf(q);
      LastOf(b);
      assert p + [x] + q == (p + [x] + q') + [y] && p + q == (p + q') + [y];
      Unfold(p + [x] + q', y, b', z);
      Unfold(p + q', y, b', z);
      InsertIsClose(p, x, q', b);
      InsertIsClose(p, x, q, b');
      InsertIsClose(p, x, q', b');
    }
  }

  lemma {:induction false} LastReplaced(p: string, x: char, w: char, b: string)
    ensures Distance(p + [x], b) <= Distance(p + [w], b) + 1
    decreases |b|
  {
    if b != [] {
      var b', z := b[..|b| - 1], b[|b| - 1];
      LastOf(b);
      LastReplaced(p, x, w, b');
      Unfold(p, x, b', z);
      Unfold(p, w, b', z);
    }
  }

  /** So does a character replaced anywhere. */
  lemma {:induction false} ReplaceIsClose(p: string, x: char, w: char, q: string, b: string)
    ensures Distance(p + [x] + q, b) <= Distance(p + [w] + q, b) + 1
    decreases |q| + |b|
  {
    if q == [] {
      assert p + [x] + q == p + [x] && p + [w] + q == p + [w];
      LastReplaced(p, x, w, b);
    } else if b != [] {
      var q', y, b', z := q[..|q| - 1], q[|q| - 1], b[..|b| - 1], b[|b| - 1];
      LastOf(q);
      LastOf(b);
      assert p + [x] + q == (p + [x] + q') + [y] && p + [w] + q == (p + [w] + q') + [y];
      Unfold(p + [x] + q', y, b', z);
      Unfold(p + [w] + q', y, b', z);
      ReplaceIsClose(p, x, w, q', b);
      ReplaceIsClose(p, x, w, q, b');
      ReplaceIsClose(p, x, w, q', b');
    }
  }

  lemma InsertionIsClose(s: string, t: string, b: string, i: nat, x: char)
    requires i <= |s| && t == s[..i] + [x] + s[i..]
    ensures Distance(s, b) <= Distance(t, b) + 1 && Distance(t, b) <= Distance(s, b) + 1
  {
    InsertIsClose(s[..i], x, s[i..], b);
    assert s == s[..i] + s[i..];
  }

  lemma DeletionIsClose(s: string, t: string, b: string, i: nat)
    requires i < |s| && t == s[..i] + s[i + 1..]
    ensures Distance(s, b) <= Distance(t, b) + 1
  {
    InsertIsClose(s[..i], s[i], s[i + 1..], b);
    assert s == s[..i] + [s[i]] + s[i + 1..];
  }

  lemma ReplacementIsClose(s: string, t: string, b: string, i: nat, x: char)
    requires i < |s| && t == s[..i] + [x] + s[i + 1..]
    ensures Distance(s, b) <= Distance(t, b) + 1
  {
    ReplaceIsClose(s[..i], s[i], x, s[i + 1..], b);
    assert s == s[..i] + [s[i]] + s[i + 1..];
  }

  lemma EditIsClose(s: string, t: string, b: string)
    requires OneEdit(s, t)
    ensures Distance(s, b) <= Distance(t, b) + 1
  {
    if i, x :| 0 <= i <= |s| && t == s[..i] + [x] + s[i..] {
      InsertionIsClose(s, t, b, i, x);
    } else if i :| 0 <= i < |s| && t == s[..i] + s[i + 1..] {
      DeletionIsClose(s, t, b, i);
    } else {
      var i, x :| 0 <= i < |s| && t == s[..i] + [x] + s[i + 1..];
      ReplacementIsClose(s, t, b, i, x);
    }
  }

  lemma {:induction false} SelfDistance(a: string)
    ensures Distance(a, a) == 0
  {
    if a != [] {
      SelfDistance(a[..|a| - 1]);
    }
  }

  /** No way from a to b takes fewer edits than the distance. */
  lemma {:induction false} DistanceIsLowerBound(a: string, b: string, c: seq<string>)
    requires Chain(a, b, c)
    ensures Distance(a, b) <= |c| - 1
    decreases |c|
  {
    if |c| == 1 {
      SelfDistance(a);
    } else {
      assert OneEdit(c[0], c[1]);
      EditIsClose(c[0], c[1], b);
      forall i | 0 <= i < |c[1..]| - 1 ensures OneEdit(c[1..][i], c[1..][i + 1]) {
        assert OneEdit(c[i + 1], c[i + 2]);
      }
      DistanceIsLowerBound(c[1], b, c[1..]);
    }
  }

  /** A chain with the same character appended to every string. */
  ghost function Extended(c: seq<string>, x: char): seq<string> {
    seq(|c|, i requires 0 <= i < |c| => c[i] + [x])
  }

  lemma InsertionExtends(s: string, i: nat, x: char, z: char)
    requires i <= |s|
    ensures OneEdit(s + [z], s[..i] + [x] + s[i..] + [z])
  {
    var s' := s + [z];
    assert s[..i] + [x] + s[i..] + [z] == s'[..i] + [x] + s'[i..];
  }

  lemma DeletionExtends(s: string, i: nat, z: char)
    requires i < |s|
    ensures OneEdit(s + [z], s[..i] + s[i + 1..] + [z])
  {
    var s' := s + [z];
    assert s[..i] + s[i + 1..] + [z] == s'[..i] + s'[i + 1..];
  }

  lemma ReplacementExtends(s: string, i: nat, x: char, z: char)
    requires i < |s|
    ensures OneEdit(s + [z], s[..i] + [x] + s[i + 1..] + [z])
  {
    var s' := s + [z];
    assert s[..i] + [x] + s[i + 1..] + [z] == s'[..i] + [x] + s'[i + 1..];
  }

  lemma EditExtends(s: string, t: string, z: char)
    requires OneEdit(s, t)
    ensures OneEdit(s + [z], t + [z])
  {
    if i, x :| 0 <= i <= |s| && t == s[..i] + [x] + s[i..] {
      InsertionExtends(s, i, x, z);
    } else if i :| 0 <= i < |s| && t == s[..i] + s[i + 1..] {
      DeletionExtends(s, i, z);
    } else {
      var i, x :| 0 <= i < |s| && t == s[..i] + [x] + s[i + 1..];
      ReplacementExtends(s, i, x, z);
    }
  }

  lemma ChainExtends(a: string, b: string, c: seq<string>, z: char)
    requires Chain(a, b, c)
    ensures Chain(a + [z], b + [z], Extended(c, z))
  {
    forall i | 0 <= i < |c| - 1 ensures OneEdit(Extended(c, z)[i], Extended(c, z)[i + 1]) {
      EditExtends(c[i], c[i + 1], z);
    }
  }

  lemma ChainPrepends(a: string, m: string, b: string, c: seq<string>)
    requires Chain(m, b, c) && OneEdit(a, m)
    ensures Chain(a, b, [a] + c)
  {
    forall i | 0 <= i < |[a] + c| - 1 ensures OneEdit(([a] + c)[i], ([a] + c)[i + 1]) {
      if i > 0 {
        assert ([a] + c)[i] == c[i - 1] && ([a] + c)[i + 1] == c[i];
      }
    }
  }

  lemma DropLast(a: string)
    requires a != []
    ensures OneEdit(a, a[..|a| - 1])
  {
    assert a[..|a| - 1] == a[..|a| - 1] + a[|a|..];
  }

  lemma ReplaceLast(a: string, x: char)
    requires a != []
    ensures OneEdit(a, a[..|a| - 1] + [x])
  {
    assert a[..|a| - 1] + [x] == a[..|a| - 1] + [x] + a[|a|..];
  }

  lemma AddLast(a: string, x: char)
    ensures OneEdit(a, a + [x])
  {
    assert a + [x] == a[..|a|] + [x] + a[|a|..];
  }

  /** Some way from a to b takes exactly as many edits as the distance. */
  lemma {:induction false} DistanceIsReached(a: string, b: string) returns (c: seq<string>)
    ensures Chain(a, b, c) && |c| - 1 == Distance(a, b)
    decreases |a| + |b|
  {
    if a == [] && b == [] {
      c := [a];
    } else if b == [] || (a != [] && Distance(a, b) == Distance(a[..|a| - 1], b) + 1) {
      c := DistanceIsReached(a[..|a| - 1], b);
      DropLast(a);
      ChainPrepends(a, a[..|a| - 1], b, c);
      c := [a] + c;
    } else if a == [] || Distance(a, b) == Distance(a, b[..|b| - 1]) + 1 {
      var n := |b| - 1;
      c := DistanceIsReached(a, b[..n]);
      ChainExtends(a, b[..n], c, b[n]);
      AddLast(a, b[n]);
      LastOf(b);
      ChainPrepends(a, a + [b[n]], b, Extended(c, b[n]));
      c := [a] + Extended(c, b[n]);
    } else {
      var m, n := |a| - 1, |b| - 1;
      c := DistanceIsReached(a[..m], b[..n]);
      ChainExtends(a[..m], b[..n], c, b[n]);
      LastOf(a);
      LastOf(b);
      c := Extended(c, b[n]);
      if a[m] != b[n] {
        ReplaceLast(a, b[n]);
        ChainPrepends(a, a[..m] + [b[n]], b, c);
        c := [a] + c;
      }
    }
  }

  // ---------------------------------------------------------------- the two-row loop

  /** The row holds the distances of one prefix of a to every prefix of b. */
  ghost predicate RowOf(row: seq<nat>, a: string, b: string) {
    |row| == |b| + 1 && forall k :: 0 <= k <= |b| ==> row[k] == Distance(a, b[..k])
  }

  /** Cell j of a row by the recurrence, from the row before. */
  function Cell(previous: seq<nat>, x: char, b: string, left: nat, j: nat): nat
    requires 1 <= j <= |b| && |previous| == |b| + 1
  {
    Min(Min(previous[j] + 1, left + 1), previous[j - 1] + Cost(x, b[j - 1]))
  }

  /** The first n + 1 cells of the row. */
  function Row(previous: seq<nat>, x: char, b: string, i: nat, n: nat): (r: seq<nat>)
    requires n <= |b| && |previous| == |b| + 1
    ensures |r| == n + 1
  {
    if n == 0 then [i]
    else
      var before := Row(previous, x, b, i, n - 1);
      before + [Cell(previous, x, b, before[n - 1], n)]
  }

  lemma CellIsDistance(previous: seq<nat>, a: string, x: char, b: string, n: nat)
    requires RowOf(previous, a, b) && 1 <= n <= |b|
    ensures Cell(previous, x, b, Distance(a + [x], b[..n - 1]), n) == Distance(a + [x], b[..n])
  {
    assert b[..n] == b[..n - 1] + [b[n - 1]];
    Unfold(a, x, b[..n - 1], b[n - 1]);
  }

  lemma {:induction false} RowIsRow(previous: seq<nat>, a: string, x: char, b: string, n: nat, k: nat)
    requires RowOf(previous, a, b) && k <= n <= |b|
    ensures Row(previous, x, b, |a| + 1, n)[k] == Distance(a + [x], b[..k])
  {
    if n > 0 {
      RowIsRow(previous, a, x, b, n - 1, if k < n then k else n - 1);
      CellIsDistance(previous, a, x, b, n);
    }
  }

  /** The inner loop. */
  method FillRow(x: char, b: string, previous: array<nat>, current: array<nat>, i: nat)
    requires previous != current && previous.Length == current.Length == |b| + 1
    modifies current
    ensures current[..] == Row(previous[..], x, b, i, |b|)
  {
    current[0] := i;
    var j := 1;
    while j <= |b|
      invariant 1 <= j <= |b| + 1 && current[..j] == Row(previous[..], x, b, i, j - 1)
    {
      var cost := 1;
      if x == b[j - 1] {
        cost := 0;
      }
      ghost var before := current[..j];
      assert before[j - 1] == current[j - 1];
      current[j] := Min(Min(previous[j] + 1, current[j - 1] + 1), previous[j - 1] + cost);
      assert current[..j + 1] == before + [current[j]];
      j := j + 1;
    }
    assert current[..] == current[..j];
  }

  method ComputeDistance(a: string, b: string) returns (d: nat)
    ensures d == Distance(a, b)
  {
    var previous, current := new nat[|b| + 1], new nat[|b| + 1];
    for j := 0 to previous.Length
      invariant forall k :: 0 <= k < j ==> previous[k] == k
    {
      previous[j] := j;
    }
    var i := 1;
    while i <= |a|
      invariant 1 <= i <= |a| + 1 && previous != current && previous.Length == current.Length == |b| + 1
      invariant fresh(previous) && fresh(current)
      invariant RowOf(previous[..], a[..i - 1], b)
    {
      FillRow(a[i - 1], b, previous, current, i);
      assert a[..i] == a[..i - 1] + [a[i - 1]];
      forall k | 0 <= k <= |b| ensures current[..][k] == Distance(a[..i], b[..k]) {
        RowIsRow(previous[..], a[..i - 1], a[i - 1], b, |b|, k);
      }
      previous, current := current, previous;
      i := i + 1;
    }
    assert a[..|a|] == a && b[..|b|] == b;
    d := previous[..][|b|];
  }

  // ---------------------------------------------------------------- the nearest name

  function Threshold(name: string): nat { |name| / 2 + 2 }

  function DistanceFrom(name: string): string -> nat { (k: string) => Distance(name, k) }

  /** r is nearer than k, or as near and earlier in the alphabet. */
  predicate Preferred(d: string -> nat, r: string, k: string) {
    d(r) < d(k) || (d(r) == d(k) && (r == k || StringLess(r, k)))
  }

  method ListNames(names: set<string>) returns (list: seq<string>)
    ensures Lists(list, names)
  {
    list := [];
    var left := names;
    while left != {}
      invariant left <= names && Lists(list, names - left)
      decreases |left|
    {
      var x :| x in left;
      ListsOneMore(list, names - left, x);
      assert names - (left - {x}) == names - left + {x};
      list, left := list + [x], left - {x};
    }
  }

  lemma NamesSorted(list: seq<string>, names: set<string>)
    requires Lists(list, names)
    ensures var s := Sort(StringLess, list);
            SortedBy(StringLess, s) && (forall i :: 0 <= i < |s| ==> s[i] in names) && forall k :: k in names ==> k in s
  {
    forall x, y | x in list && y in list
      ensures !StringLess(x, x) && (x != y ==> StringLess(x, y) || StringLess(y, x))
    {
      StringLessIsTotal(x, y);
    }
    forall x, y, z | x in list && y in list && z in list && StringLess(x, y) && StringLess(y, z)
      ensures StringLess(x, z)
    {
      StringLessIsTransitive(x, y, z);
    }
    SortSorts(StringLess, list);
    SameElements(Sort(StringLess, list), list);
  }

  /** The first of the nearest among sorted candidates, if any is nearer than the
      limit. */
  method PickNearest(name: string, candidates: seq<string>, limit: nat) returns (best: string, found: bool)
    requires SortedBy(StringLess, candidates)
    ensures var d := DistanceFrom(name);
            if found then best in candidates && d(best) < limit && forall k :: k in candidates ==> Preferred(d, best, k)
            else best == "" && forall k :: k in candidates ==> d(k) >= limit
  {
    ghost var d := DistanceFrom(name);
    best, found := "", false;
    var bestDistance := limit;
    for i := 0 to |candidates|
      invariant !found ==> best == "" && bestDistance == limit && forall k :: 0 <= k < i ==> d(candidates[k]) >= limit
      invariant found ==> best in candidates && bestDistance == d(best) < limit
      invariant found ==> forall k :: 0 <= k < i ==> Preferred(d, best, candidates[k])
      invariant found ==> exists k :: 0 <= k < i && candidates[k] == best
    {
      var distance := ComputeDistance(name, candidates[i]);
      assert distance == d(candidates[i]);
      assert forall k :: 0 <= k < i ==> StringLess(candidates[k], candidates[i]);
      if distance < bestDistance {
        best, bestDistance, found := candidates[i], distance, true;
      }
    }
  }

  /** The first name in alphabetical order among the nearest ones, if any is
      nearer than the threshold. */
  method NearestEnvName(name: string, names: set<string>) returns (best: string)
    ensures var d := DistanceFrom(name);
            if exists k :: k in names && d(k) < Threshold(name)
            then best in names && d(best) < Threshold(name) && forall k :: k in names ==> Preferred(d, best, k)
            else best == ""
  {
    var list := ListNames(names);
    NamesSorted(list, names);
    var found;
    best, found := PickNearest(name, Sort(StringLess, list), Threshold(name));
  }
}
