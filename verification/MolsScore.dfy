/** The grid scores of portal/discovery/mols.go: how an accepted pair ranks the
    columns, and how the congestion score turns that ranking round. */
module MolsScore {
  import opened MolsGrid

  /** One client's view of the grid: its cell, the chosen pair and the order. */
  datatype Grid = Grid(row: nat, col: nat, m: Multipliers, order: nat)

  ghost predicate GridOk(g: Grid) {
    && g.order > 0 && g.row < g.order && g.col < g.order
    && 1 <= g.m.m1 && 1 <= g.m.m2
    && (g.m.ok ==> PairValid(g.order, g.m.m1, g.m.m2))
  }

  function T1(g: Grid): nat requires g.order > 0 { Target(g.m.m1, g.row, g.col, g.order) }
  function T2(g: Grid): nat requires g.order > 0 { Target(g.m.m2, g.row, g.col, g.order) }

  /** How far column j lies behind target t, going round the grid. */
  function Distance(j: nat, t: nat, order: nat): nat
    requires j < order && t < order
  {
    (j - t + order) % order
  }

  /** The score of column j with targets t1 and t2. */
  function TargetScore(order: nat, j: nat, t1: nat, t2: nat): int
    requires j < order && t1 < order && t2 < order
  {
    var d1, d2 := Distance(j, t1, order), Distance(j, t2, order);
    var bonus := (if j == t1 then 2 * order * order else 0) + (if j == t2 then order * order else 0);
    bonus + (order - d1) * order + (order - d2) + 1
  }

  /** The score of column j when only one Latin square is in use. */
  function SingleSquareScore(order: nat, offset: int, j: nat): int
    requires order > 0
  {
    ((offset + j) % order) * order + 1
  }

  function Score(g: Grid, j: nat): int
    requires g.order > 0 && j < g.order
  {
    if !g.m.ok || g.order <= 1 then SingleSquareScore(g.order, g.m.m1 * g.row, j)
    else TargetScore(g.order, j, T1(g), T2(g))
  }

  function MaxScore(order: nat): nat {
    3 * order * order + order * order + order + 1
  }

  function Mirror(order: nat, j: nat): nat
    requires j < order
  {
    (order - 1) - j
  }

  function CongestionScore(g: Grid, j: nat): int
    requires g.order > 0 && j < g.order
  {
    MaxScore(g.order) - Score(g, Mirror(g.order, j))
  }

  // ---------------------------------------------------------------- arithmetic

  /** The distance without a modulus. */
  lemma DistanceCases(j: nat, t: nat, order: nat)
    requires j < order && t < order
    ensures Distance(j, t, order) == if j >= t then j - t else j - t + order
  {
    if j >= t {
      ModUnique(j - t + order, order, 1, j - t);
    } else {
      ModUnique(j - t + order, order, 0, j - t + order);
    }
  }

  lemma Distributes(a: int, b: int, c: int)
    ensures (a - b) * c == a * c - b * c
  {
  }

  lemma ProductIsNatural(a: int, b: int)
    requires a >= 0 && b >= 0
    ensures a * b >= 0
  {
  }

  lemma RowProduct(n: int, d: int)
    requires n > 0 && 0 <= d < n
    ensures (n - d) * n == n * n - d * n
    ensures d >= 1 ==> n <= d * n
    ensures n <= n * n - d * n <= n * n
  {
    Distributes(n, d, n);
    Distributes(n - d, 1, n);
    ProductIsNatural(n - d - 1, n);
    ProductIsNatural(d, n);
    if d >= 1 {
      Distributes(d, 1, n);
      ProductIsNatural(d - 1, n);
    }
  }

  lemma RowOrder(n: int, d: int, e: int)
    requires n > 0 && 0 <= d < e < n
    ensures d * n + n <= e * n
  {
    assert (e - d - 1) * n >= 0;
    assert (e - d - 1) * n == e * n - d * n - n;
  }

  // ---------------------------------------------------------------- ranking

  /** The score of one column, split by the target it hits. */
  lemma ScoreValue(n: nat, j: nat, t1: nat, t2: nat)
    requires j < n && t1 < n && t2 < n
    ensures var d1, d2 := Distance(j, t1, n), Distance(j, t2, n);
            && (j == t1 <==> d1 == 0) && (j == t2 <==> d2 == 0)
            && d1 < n && d2 < n
            && TargetScore(n, j, t1, t2) ==
                 (if d1 == 0 then 2 * (n * n) else 0) + (if d2 == 0 then n * n else 0)
                 + n * n - d1 * n + (n - d2) + 1
  {
    DistanceCases(j, t1, n);
    DistanceCases(j, t2, n);
    RowProduct(n, Distance(j, t1, n));
    assert 2 * n * n == 2 * (n * n);
  }

  /** The primary target outranks every other column. */
  lemma PrimaryTargetRanksFirst(g: Grid, j: nat)
    requires GridOk(g) && g.m.ok && g.order >= 2 && j < g.order && j != T1(g)
    ensures Score(g, T1(g)) > Score(g, j)
  {
    ScoreValue(g.order, T1(g), T1(g), T2(g));
    ScoreValue(g.order, j, T1(g), T2(g));
    RowProduct(g.order, Distance(j, T1(g), g.order));
  }

  /** The secondary target, when it is another column, outranks all the rest. */
  lemma SecondaryTargetRanksSecond(g: Grid, j: nat)
    requires GridOk(g) && g.m.ok && g.order >= 2 && j < g.order && j != T1(g) && j != T2(g)
    ensures Score(g, T2(g)) > Score(g, j)
  {
    ScoreValue(g.order, T2(g), T1(g), T2(g));
    ScoreValue(g.order, j, T1(g), T2(g));
    RowProduct(g.order, Distance(j, T1(g), g.order));
    RowProduct(g.order, Distance(T2(g), T1(g), g.order));
  }

  /** Columns that are no target rank strictly by cyclic distance from the primary one. */
  lemma OthersRankByDistance(g: Grid, j: nat, k: nat)
    requires GridOk(g) && g.m.ok && g.order >= 2 && j < g.order && k < g.order
    requires j != T1(g) && j != T2(g) && k != T1(g) && k != T2(g)
    requires Distance(j, T1(g), g.order) < Distance(k, T1(g), g.order)
    ensures Score(g, j) > Score(g, k)
  {
    ScoreValue(g.order, j, T1(g), T2(g));
    ScoreValue(g.order, k, T1(g), T2(g));
    RowOrder(g.order, Distance(j, T1(g), g.order), Distance(k, T1(g), g.order));
  }

  lemma DistanceIsInjective(j: nat, k: nat, t: nat, order: nat)
    requires j < order && k < order && t < order && j != k
    ensures Distance(j, t, order) != Distance(k, t, order)
  {
    DistanceCases(j, t, order);
    DistanceCases(k, t, order);
  }

  lemma SingleSquareIsInjective(n: nat, offset: int, j: nat, k: nat)
    requires j < n && k < n && j != k
    ensures SingleSquareScore(n, offset, j) != SingleSquareScore(n, offset, k)
  {
    var p := ModDecompose(offset + j, n);
    var q := ModDecompose(offset + k, n);
    var u, v := (offset + j) % n, (offset + k) % n;
    if u == v {
      SameRowSameColumn(offset, n, j, k, p, q);
      assert false;
    }
    if u < v { RowOrder(n, u, v); } else { RowOrder(n, v, u); }
  }

  /** No two columns of a row share a score, whichever formula is in use. */
  lemma ScoreIsInjective(g: Grid, j: nat, k: nat)
    requires GridOk(g) && j < g.order && k < g.order && j != k
    ensures Score(g, j) != Score(g, k)
  {
    if !g.m.ok || g.order <= 1 {
      SingleSquareIsInjective(g.order, g.m.m1 * g.row, j, k);
    } else if j == T1(g) {
      PrimaryTargetRanksFirst(g, k);
    } else if k == T1(g) {
      PrimaryTargetRanksFirst(g, j);
    } else if j == T2(g) {
      SecondaryTargetRanksSecond(g, k);
    } else if k == T2(g) {
      SecondaryTargetRanksSecond(g, j);
    } else {
      DistanceIsInjective(j, k, T1(g), g.order);
      if Distance(j, T1(g), g.order) < Distance(k, T1(g), g.order) {
        OthersRankByDistance(g, j, k);
      } else {
        OthersRankByDistance(g, k, j);
      }
    }
  }

  /** MaxScore bounds every score from above and no score is below one. */
  lemma ScoreIsBounded(g: Grid, j: nat)
    requires GridOk(g) && j < g.order
    ensures 1 <= Score(g, j) <= MaxScore(g.order)
  {
    var n := g.order;
    assert 3 * n * n == 3 * (n * n);
    if !g.m.ok || n <= 1 {
      var r := (g.m.m1 * g.row + j) % n;
      assert 0 <= r < n;
      RowProduct(n, r);
      assert r * n >= 0;
    } else {
      ScoreValue(g.order, j, T1(g), T2(g));
      RowProduct(n, Distance(j, T1(g), n));
    }
  }

  /** The bound is exact: a client in row 0 gives its own column that score. */
  lemma MaxScoreIsReached(order: nat, col: nat, m: Multipliers)
    requires order >= 2 && col < order && m.ok && 1 <= m.m1 && 1 <= m.m2 && PairValid(order, m.m1, m.m2)
    ensures Score(Grid(0, col, m, order), col) == MaxScore(order)
  {
    var g := Grid(0, col, m, order);
    ModUnique(m.m1 * 0 + col, order, 0, col);
    ModUnique(m.m2 * 0 + col, order, 0, col);
    ScoreValue(g.order, col, T1(g), T2(g));
    DistanceCases(col, col, order);
    assert 3 * order * order == 3 * (order * order);
  }

  /** The congestion score is never negative and ranks the columns exactly as
      the score ranks their mirror images, in reverse. */
  lemma CongestionReversesMirroredRanking(g: Grid, j: nat, k: nat)
    requires GridOk(g) && j < g.order && k < g.order
    ensures CongestionScore(g, j) >= 0
    ensures CongestionScore(g, j) > CongestionScore(g, k)
            <==> Score(g, Mirror(g.order, j)) < Score(g, Mirror(g.order, k))
    ensures j != k ==> CongestionScore(g, j) != CongestionScore(g, k)
  {
    ScoreIsBounded(g, Mirror(g.order, j));
    if j != k {
      ScoreIsInjective(g, Mirror(g.order, j), Mirror(g.order, k));
    }
  }
}
