/** RankRelayPool of portal/discovery/mols.go: from the states of the eligible
    relays to an order of their URLs. Means, deviations and percentiles are exact
    reals here. */
module Ranking {
  import opened Identity
  import opened Orders
  import opened Permutations
  import opened RelayState
  import opened MolsGrid
  import opened MolsScore

  const CONGESTION_RTT := 500 * MILLISECOND
  const FALLBACK_RTT := 2 * SECOND
  const MIN_ACTIVE := 2
  const CV_THRESHOLD := 0.6
  const PRESSURE_DELTA := 0.3

  /** The ranking key of a client: the keyed digest of a string, as the number its
      sixteen bytes spell, and the client's own address. */
  datatype Client = Client(digest: string -> nat, address: string)

  function Url(r: Relay): string { r.desc.url }

  predicate Fallback(r: Relay) { r.rttAt != 0 && EffectiveRTT(r) > FALLBACK_RTT }

  predicate Leading(r: Relay) { !Fallback(r) }

  /** Conversion of a float to a duration: toward zero. */
  function Trunc(x: real): int { if x >= 0.0 then x.Floor else -((-x).Floor) }

  // ---------------------------------------------------------------- pressure

  /** PercentileTracker.Get for 0 < p <= 1. */
  function Percentile(samples: seq<int>, p: real): int
    requires 0.0 < p <= 1.0
  {
    if samples == [] then 0
    else if |samples| == 1 then samples[0]
    else
      var s := Sort((a: int, b: int) => a < b, samples);
      var rank := p * (|s| - 1) as real;
      RankInRange(p, |s| - 1);
      var k := rank.Floor;
      Trunc(s[k] as real + (if k + 1 < |s| then (rank - k as real) * (s[k + 1] - s[k]) as real else 0.0))
  }

  lemma RankInRange(p: real, n: nat)
    requires 0.0 < p <= 1.0
    ensures 0 <= (p * n as real).Floor <= n
  {
    assert p * n as real <= n as real;
    assert 0.0 <= p * n as real;
  }

  function Pressure(r: Relay): real {
    var p50, p90 := Percentile(r.samples, 0.5), Percentile(r.samples, 0.9);
    if p50 > 0 && p90 > p50 then (p90 - p50) as real / p50 as real else 0.0
  }

  // ---------------------------------------------------------------- congestion

  function CountOf(r: Relay): real { if r.rttAt != 0 then 1.0 else 0.0 }

  function RttOf(r: Relay): real { if r.rttAt != 0 then EffectiveRTT(r) as real else 0.0 }

  function SquareOf(mean: real): Relay -> real {
    (r: Relay) => if r.rttAt != 0 then (EffectiveRTT(r) as real - mean) * (EffectiveRTT(r) as real - mean) else 0.0
  }

  /** Whether the mean is above 500 ms, and whether the coefficient of variation
      is above 0.6: the variance against 0.36 of the squared mean. */
  function Modes(active: seq<Relay>): (bool, bool) {
    var count := Total(CountOf, active);
    if count == 0.0 then (false, false)
    else
      var mean := Total(RttOf, active) / count;
      (Trunc(mean) > CONGESTION_RTT,
       count != 1.0 && mean > 0.0
       && Total(SquareOf(mean), active) / count > CV_THRESHOLD * CV_THRESHOLD * (mean * mean))
  }

  lemma ModesForgetOrder(a: seq<Relay>, b: seq<Relay>)
    requires multiset(a) == multiset(b)
    ensures Modes(a) == Modes(b)
  {
    TotalPermutes(CountOf, a, b);
    TotalPermutes(RttOf, a, b);
    var count := Total(CountOf, a);
    if count != 0.0 {
      TotalPermutes(SquareOf(Total(RttOf, a) / count), a, b);
    }
  }

  // ---------------------------------------------------------------- columns and scores

  function ByDigest(c: Client): (string, string) -> bool {
    (a: string, b: string) => c.digest(a) < c.digest(b) || (c.digest(a) == c.digest(b) && StringLess(a, b))
  }

  /** The relay of each column. */
  function Columns(pool: seq<Relay>, c: Client): (r: seq<string>)
    ensures |r| == |pool| && multiset(r) == multiset(Map(Url, pool))
  {
    Sort(ByDigest(c), Map(Url, pool))
  }

  /** Where a URL stands; the last place wins. */
  function ColumnOf(cols: seq<string>, u: string): (k: nat)
    requires u in cols
    ensures k < |cols| && cols[k] == u
  {
    var n := |cols| - 1;
    if cols[n] == u then n else ColumnOf(cols[..n], u)
  }

  /** The relay and the score of each column. */
  datatype Board = Board(cols: seq<string>, scores: seq<int>) {
    ghost predicate Valid() { |scores| == |cols| && Distinct(scores) }
  }

  /** The client's cell, from the first two big-endian words of its digest. */
  function Row(c: Client, order: nat): nat
    requires order > 0
  {
    c.digest(c.address) / 0x1_0000_0000_0000_0000_0000_0000 % 0x1_0000_0000 % order
  }

  function Col(c: Client, order: nat): nat
    requires order > 0
  {
    c.digest(c.address) / 0x1_0000_0000_0000_0000 % 0x1_0000_0000 % order
  }

  function CellScore(g: Grid, congested: bool, j: nat): int
    requires j < g.order
  {
    if congested then CongestionScore(g, j) else Score(g, j)
  }

  function AllScores(g: Grid, congested: bool): (r: seq<int>)
    ensures |r| == g.order
  {
    seq(g.order, j requires 0 <= j < g.order => CellScore(g, congested, j))
  }

  /** No two columns have the same score. */
  lemma ScoresAreDistinct(g: Grid, congested: bool)
    requires GridOk(g)
    ensures Distinct(AllScores(g, congested))
  {
    forall j, k | 0 <= j < k < g.order ensures CellScore(g, congested, j) != CellScore(g, congested, k) {
      CongestionReversesMirroredRanking(g, j, k);
      ScoreIsInjective(g, j, k);
    }
  }

  function MakeGrid(c: Client, order: nat, nonLinear: bool): (g: Grid)
    requires order > 0
    ensures GridOk(g) && g.order == order
  {
    ChoiceSucceedsExactly(order, nonLinear);
    Grid(Row(c, order), Col(c, order), Choose(order, nonLinear), order)
  }

  function MakeBoard(pool: seq<Relay>, c: Client): (b: Board)
    requires pool != []
    ensures b.Valid()
  {
    var modes := Modes(Filter(Leading, pool));
    var g := MakeGrid(c, |pool|, modes.1);
    ScoresAreDistinct(g, modes.0);
    Board(Columns(pool, c), AllScores(g, modes.0))
  }

  function ScoreOf(b: Board, u: string): int {
    if u in b.cols && |b.scores| == |b.cols| then b.scores[ColumnOf(b.cols, u)] else 0
  }

  /** betterMOLSCandidate, without its last tie-break: equal URLs keep their
      order because the sort is stable. */
  function Better(b: Board): (Relay, Relay) -> bool {
    (x: Relay, y: Relay) =>
      || ScoreOf(b, Url(x)) > ScoreOf(b, Url(y))
      || (ScoreOf(b, Url(x)) == ScoreOf(b, Url(y)) && StringLess(Url(x), Url(y)))
  }

  // ---------------------------------------------------------------- tiers

  predicate Quicker(x: Relay, y: Relay) {
    EffectiveRTT(x) < EffectiveRTT(y) || (EffectiveRTT(x) == EffectiveRTT(y) && StringLess(Url(x), Url(y)))
  }

  function Promoted(active: nat, fallbacks: nat): nat {
    if active >= MIN_ACTIVE then 0 else if MIN_ACTIVE - active <= fallbacks then MIN_ACTIVE - active else fallbacks
  }

  /** The leading tier and the rest. */
  function Tiers(pool: seq<Relay>): (seq<Relay>, seq<Relay>) {
    var active, fallbacks := Filter(Leading, pool), Filter(Fallback, pool);
    var k := Promoted(|active|, |fallbacks|);
    if k == 0 then (active, fallbacks)
    else
      var sorted := Sort(Quicker, fallbacks);
      (active + sorted[..k], sorted[k..])
  }

  /** The top two exchanged when the first is under more pressure. */
  function Exchanged(s: seq<Relay>): (r: seq<Relay>)
    ensures multiset(r) == multiset(s) && |r| == |s|
  {
    if |s| >= 2 && Pressure(s[0]) - Pressure(s[1]) > PRESSURE_DELTA then
      ExchangeIsPermutation(s);
      [s[1], s[0]] + s[2..]
    else s
  }

  lemma ExchangeIsPermutation(s: seq<Relay>)
    requires |s| >= 2
    ensures multiset([s[1], s[0]] + s[2..]) == multiset(s)
  {
    assert s == [s[0], s[1]] + s[2..];
  }

  /** One tier, by score. */
  function RankTier(b: Board, states: seq<Relay>): (r: seq<Relay>)
    ensures multiset(r) == multiset(states) && |r| == |states|
  {
    Exchanged(Sort(Better(b), states))
  }

  function RankedStates(pool: seq<Relay>, c: Client): seq<Relay> {
    if pool == [] then []
    else RankTier(MakeBoard(pool, c), Tiers(pool).0) + RankTier(MakeBoard(pool, c), Tiers(pool).1)
  }

  function Rank(pool: seq<Relay>, c: Client): seq<string> { Map(Url, RankedStates(pool, c)) }

  // ---------------------------------------------------------------- permutation

  lemma PromotionSplits(active: seq<Relay>, sorted: seq<Relay>, k: nat)
    requires k <= |sorted|
    ensures multiset((active + sorted[..k]) + sorted[k..]) == multiset(active) + multiset(sorted)
  {
    assert sorted == sorted[..k] + sorted[k..];
  }

  lemma TiersSplit(pool: seq<Relay>)
    ensures multiset(Tiers(pool).0 + Tiers(pool).1) == multiset(pool)
  {
    var active, fallbacks := Filter(Leading, pool), Filter(Fallback, pool);
    FilterSplits(Leading, Fallback, pool);
    PromotionSplits(active, Sort(Quicker, fallbacks), Promoted(|active|, |fallbacks|));
  }

  /** Every relay of the pool is ranked, once for each time it occurs. */
  lemma RankIsPermutation(pool: seq<Relay>, c: Client)
    ensures multiset(RankedStates(pool, c)) == multiset(pool)
    ensures multiset(Rank(pool, c)) == multiset(Map(Url, pool)) && |Rank(pool, c)| == |pool|
  {
    TiersSplit(pool);
    MapPermutes(Url, RankedStates(pool, c), pool);
    assert |multiset(Rank(pool, c))| == |multiset(Map(Url, pool))|;
  }

  // ---------------------------------------------------------------- independence of the listing order

  ghost predicate DistinctUrls(s: seq<Relay>) { Distinct(Map(Url, s)) }

  lemma DistinctByUrl(s: seq<Relay>)
    requires DistinctUrls(s)
    ensures Distinct(s)
    ensures forall x, y :: x in s && y in s && x != y ==> Url(x) != Url(y)
  {
    var urls := Map(Url, s);
    forall i, j | 0 <= i < j < |s| ensures s[i] != s[j] {
      assert urls[i] != urls[j];
    }
    forall x, y | x in s && y in s && x != y ensures Url(x) != Url(y) {
      var i :| 0 <= i < |s| && s[i] == x;
      var j :| 0 <= j < |s| && s[j] == y;
      assert urls[i] != urls[j];
    }
  }

  lemma DistinctPermutes(a: seq<Relay>, b: seq<Relay>)
    requires DistinctUrls(a) && multiset(a) == multiset(b)
    ensures DistinctUrls(b)
  {
    MapPermutes(Url, a, b);
    DistinctByMultiset(Map(Url, a), Map(Url, b));
  }

  /** A URL order breaks all ties among distinct URLs. */
  lemma ByDigestIsTotal(c: Client, urls: seq<string>)
    ensures StrictTotalOn(ByDigest(c), urls)
  {
    var less := ByDigest(c);
    forall x, y | x in urls && y in urls ensures !less(x, x) && (x != y ==> less(x, y) || less(y, x)) {
      StringLessIsTotal(x, y);
    }
    forall x, y, z | x in urls && y in urls && z in urls && less(x, y) && less(y, z) ensures less(x, z) {
      if StringLess(x, y) && StringLess(y, z) {
        StringLessIsTransitive(x, y, z);
      }
    }
  }

  lemma BetterIsTotal(b: Board, s: seq<Relay>)
    requires DistinctUrls(s)
    ensures StrictTotalOn(Better(b), s)
  {
    var less := Better(b);
    DistinctByUrl(s);
    forall x, y | x in s && y in s ensures !less(x, x) && (x != y ==> less(x, y) || less(y, x)) {
      StringLessIsTotal(Url(x), Url(y));
    }
    forall x, y, z | x in s && y in s && z in s && less(x, y) && less(y, z) ensures less(x, z) {
      if StringLess(Url(x), Url(y)) && StringLess(Url(y), Url(z)) {
        StringLessIsTransitive(Url(x), Url(y), Url(z));
      }
    }
  }

  lemma QuickerIsTotal(s: seq<Relay>)
    requires DistinctUrls(s)
    ensures StrictTotalOn(Quicker, s)
  {
    DistinctByUrl(s);
    forall x, y | x in s && y in s ensures !Quicker(x, x) && (x != y ==> Quicker(x, y) || Quicker(y, x)) {
      StringLessIsTotal(Url(x), Url(y));
    }
    forall x, y, z | x in s && y in s && z in s && Quicker(x, y) && Quicker(y, z) ensures Quicker(x, z) {
      if StringLess(Url(x), Url(y)) && StringLess(Url(y), Url(z)) {
        StringLessIsTransitive(Url(x), Url(y), Url(z));
      }
    }
  }

  lemma BoardForgetsOrder(a: seq<Relay>, b: seq<Relay>, c: Client)
    requires a != [] && b != [] && multiset(a) == multiset(b) && DistinctUrls(a)
    ensures MakeBoard(a, c) == MakeBoard(b, c)
  {
    SameElements(a, b);
    FilterPermutes(Leading, a, b);
    ModesForgetOrder(Filter(Leading, a), Filter(Leading, b));
    MapPermutes(Url, a, b);
    ByDigestIsTotal(c, Map(Url, a));
    SortForgetsOrder(ByDigest(c), Map(Url, a), Map(Url, b));
  }

  lemma {:induction false} DistinctFilter(p: Relay -> bool, s: seq<Relay>)
    requires DistinctUrls(s)
    ensures DistinctUrls(Filter(p, s))
  {
    if s != [] {
      var urls := Map(Url, s);
      assert Map(Url, s[1..]) == urls[1..];
      DistinctFilter(p, s[1..]);
      var rest := Filter(p, s[1..]);
      forall i | 0 <= i < |rest| ensures Url(rest[i]) != Url(s[0]) {
        assert rest[i] in s[1..];
        var k :| 0 <= k < |s[1..]| && s[1..][k] == rest[i];
        assert urls[0] != urls[k + 1];
      }
      var all := Filter(p, s);
      forall i, j | 0 <= i < j < |all| ensures Map(Url, all)[i] != Map(Url, all)[j] {
        if p(s[0]) && i > 0 {
          assert Map(Url, rest)[i - 1] != Map(Url, rest)[j - 1];
        } else if !p(s[0]) {
          assert all == rest;
        }
      }
    }
  }

  lemma TiersForgetOrder(a: seq<Relay>, b: seq<Relay>)
    requires multiset(a) == multiset(b) && DistinctUrls(a)
    ensures multiset(Tiers(a).0) == multiset(Tiers(b).0) && multiset(Tiers(a).1) == multiset(Tiers(b).1)
  {
    FilterPermutes(Leading, a, b);
    FilterPermutes(Fallback, a, b);
    SameElements(Filter(Leading, a), Filter(Leading, b));
    SameElements(Filter(Fallback, a), Filter(Fallback, b));
    DistinctFilter(Fallback, a);
    DistinctByUrl(Filter(Fallback, a));
    QuickerIsTotal(Filter(Fallback, a));
    SortForgetsOrder(Quicker, Filter(Fallback, a), Filter(Fallback, b));
  }

  lemma TierForgetsOrder(board: Board, a: seq<Relay>, b: seq<Relay>)
    requires multiset(a) == multiset(b) && DistinctUrls(a)
    ensures RankTier(board, a) == RankTier(board, b)
  {
    BetterIsTotal(board, a);
    DistinctByUrl(a);
    SortForgetsOrder(Better(board), a, b);
  }

  lemma TiersAreDistinct(pool: seq<Relay>)
    requires DistinctUrls(pool)
    ensures DistinctUrls(Tiers(pool).0) && DistinctUrls(Tiers(pool).1)
  {
    var lead, rest := Tiers(pool).0, Tiers(pool).1;
    TiersSplit(pool);
    DistinctPermutes(pool, lead + rest);
    var urls := Map(Url, lead + rest);
    assert Map(Url, lead) == urls[..|lead|] && Map(Url, rest) == urls[|lead|..];
  }

  /** The ranking depends on which relays are eligible, not on the order in which
      a map iteration happened to list them. */
  lemma RankForgetsOrder(a: seq<Relay>, b: seq<Relay>, c: Client)
    requires multiset(a) == multiset(b) && DistinctUrls(a)
    ensures RankedStates(a, c) == RankedStates(b, c) && Rank(a, c) == Rank(b, c)
  {
    SameElements(a, b);
    if a != [] {
      BoardForgetsOrder(a, b, c);
      TiersForgetOrder(a, b);
      TiersAreDistinct(a);
      TierForgetsOrder(MakeBoard(a, c), Tiers(a).0, Tiers(b).0);
      TierForgetsOrder(MakeBoard(a, c), Tiers(a).1, Tiers(b).1);
    }
  }

  // ---------------------------------------------------------------- what the order is

  lemma ScoresDiffer(b: Board, u: string, v: string)
    requires b.Valid() && u in b.cols && v in b.cols && u != v
    ensures ScoreOf(b, u) != ScoreOf(b, v)
  {
  }

  function Scores(b: Board): string -> int { (u: string) => ScoreOf(b, u) }

  ghost predicate Descending(score: string -> int, s: seq<Relay>) {
    forall i, j :: 0 <= i < j < |s| ==> score(Url(s[i])) > score(Url(s[j]))
  }

  /** The two relays stand in order of score, unless pressure exchanged them. */
  ghost predicate InOrder(score: string -> int, s: seq<Relay>, i: nat, j: nat)
    requires i < j < |s|
  {
    if i == 0 && j == 1 && score(Url(s[0])) < score(Url(s[1])) then Pressure(s[1]) - Pressure(s[0]) > PRESSURE_DELTA
    else score(Url(s[i])) > score(Url(s[j])) && (i == 0 && j == 1 ==> Pressure(s[0]) - Pressure(s[1]) <= PRESSURE_DELTA)
  }

  lemma ExchangeKeepsOrder(score: string -> int, s: seq<Relay>, i: nat, j: nat)
    requires Descending(score, s)
    requires i < j < |s|
    ensures |Exchanged(s)| == |s| && InOrder(score, Exchanged(s), i, j)
  {
    var t := Exchanged(s);
    assert t[i] == s[i] || (i < 2 && t[i] == s[1 - i]);
    assert t[j] == s[j] || (j < 2 && t[j] == s[1 - j]);
    if j >= 2 {
      assert score(Url(t[i])) > score(Url(s[j]));
    }
  }

  lemma ExchangedIsInOrder(score: string -> int, s: seq<Relay>)
    requires Descending(score, s)
    ensures forall i, j :: 0 <= i < j < |s| ==> InOrder(score, Exchanged(s), i, j)
  {
    forall i, j | 0 <= i < j < |s| ensures InOrder(score, Exchanged(s), i, j) {
      ExchangeKeepsOrder(score, s, i, j);
    }
  }

  lemma SortedByScore(b: Board, states: seq<Relay>)
    requires b.Valid() && DistinctUrls(states) && forall r :: r in states ==> Url(r) in b.cols
    ensures Descending(Scores(b), Sort(Better(b), states))
  {
    var less, s := Better(b), Sort(Better(b), states);
    BetterIsTotal(b, states);
    DistinctByUrl(states);
    SortSorts(less, states);
    SameElements(s, states);
    DistinctByMultiset(states, s);
    forall i, j | 0 <= i < j < |s| ensures Scores(b)(Url(s[i])) > Scores(b)(Url(s[j])) {
      assert less(s[i], s[j]) && s[i] in states && s[j] in states && s[i] != s[j];
      ScoresDiffer(b, Url(s[i]), Url(s[j]));
    }
  }

  /** A tier is strictly by score, except that its first relay gives way to the
      second exactly when its pressure is higher by more than the margin. */
  lemma TierIsByScore(b: Board, states: seq<Relay>)
    requires b.Valid() && DistinctUrls(states) && forall r :: r in states ==> Url(r) in b.cols
    ensures |RankTier(b, states)| == |states|
    ensures forall i, j :: 0 <= i < j < |states| ==> InOrder(Scores(b), RankTier(b, states), i, j)
  {
    SortedByScore(b, states);
    ExchangedIsInOrder(Scores(b), Sort(Better(b), states));
  }

  /** The size of the leading tier. */
  function LeadSize(active: nat, all: nat): nat
    requires active <= all
  {
    if active >= MIN_ACTIVE then active else if all < MIN_ACTIVE then all else MIN_ACTIVE
  }

  lemma FrontIsQuicker(sorted: seq<Relay>, k: nat, p: Relay, q: Relay)
    requires SortedBy(Quicker, sorted) && k <= |sorted| && p in sorted[..k] && q in sorted[k..]
    ensures Quicker(p, q)
  {
    var i :| 0 <= i < k && sorted[..k][i] == p;
    var j :| 0 <= j < |sorted| - k && sorted[k..][j] == q;
    assert sorted[i] == p && sorted[k + j] == q;
  }

  /** The fallbacks in the order in which they are promoted. */
  lemma FallbacksSorted(pool: seq<Relay>)
    requires DistinctUrls(pool)
    ensures var sorted := Sort(Quicker, Filter(Fallback, pool));
            SortedBy(Quicker, sorted) && forall r :: r in sorted ==> Fallback(r)
  {
    var fallbacks := Filter(Fallback, pool);
    SameElements(Sort(Quicker, fallbacks), fallbacks);
    DistinctFilter(Fallback, pool);
    DistinctByUrl(fallbacks);
    QuickerIsTotal(fallbacks);
    SortSorts(Quicker, fallbacks);
  }

  lemma LeadHasSize(pool: seq<Relay>)
    ensures |Filter(Leading, pool)| <= |pool| && |Tiers(pool).0| == LeadSize(|Filter(Leading, pool)|, |pool|)
  {
    FilterSplits(Leading, Fallback, pool);
  }

  lemma TiersAreOrdered(pool: seq<Relay>)
    requires DistinctUrls(pool)
    ensures forall r :: r in Tiers(pool).1 ==> Fallback(r)
    ensures forall p, q :: p in Tiers(pool).0 && q in Tiers(pool).1 && Fallback(p) ==> Quicker(p, q)
  {
    FallbacksSorted(pool);
    var active, fallbacks := Filter(Leading, pool), Filter(Fallback, pool);
    var sorted, k := Sort(Quicker, fallbacks), Promoted(|active|, |fallbacks|);
    if k > 0 {
      forall p, q | p in active + sorted[..k] && q in sorted[k..] && Fallback(p) ensures Quicker(p, q) {
        FrontIsQuicker(sorted, k, p, q);
      }
    }
  }

  lemma BoardHoldsPool(pool: seq<Relay>, c: Client, r: Relay)
    requires pool != [] && (r in Tiers(pool).0 || r in Tiers(pool).1)
    ensures Url(r) in MakeBoard(pool, c).cols
  {
    TiersSplit(pool);
    SameElements(Tiers(pool).0 + Tiers(pool).1, pool);
    SameElements(Columns(pool, c), Map(Url, pool));
    assert r in Tiers(pool).0 + Tiers(pool).1;
    var i :| 0 <= i < |pool| && pool[i] == r;
    assert Map(Url, pool)[i] == Url(r);
  }

  /** Both tiers of a pool are by score. */
  lemma TiersAreByScore(pool: seq<Relay>, c: Client)
    requires DistinctUrls(pool) && pool != []
    ensures var b, lead := MakeBoard(pool, c), Tiers(pool).0;
            |RankTier(b, lead)| == |lead| && forall i, j :: 0 <= i < j < |lead| ==>
              InOrder(Scores(b), RankTier(b, lead), i, j)
    ensures var b, rest := MakeBoard(pool, c), Tiers(pool).1;
            |RankTier(b, rest)| == |rest| && forall i, j :: 0 <= i < j < |rest| ==>
              InOrder(Scores(b), RankTier(b, rest), i, j)
  {
    TiersAreDistinct(pool);
    forall r | r in Tiers(pool).0 || r in Tiers(pool).1 ensures Url(r) in MakeBoard(pool, c).cols {
      BoardHoldsPool(pool, c, r);
    }
    TierIsByScore(MakeBoard(pool, c), Tiers(pool).0);
    TierIsByScore(MakeBoard(pool, c), Tiers(pool).1);
  }

  /** s is a leading tier of k relays, then the rest. Only fallback relays are in
      the rest; a fallback relay of the leading tier is quicker than all of them. */
  ghost predicate Tiered(s: seq<Relay>, k: nat)
    requires k <= |s|
  {
    && (forall j :: k <= j < |s| ==> Fallback(s[j]))
    && (forall i, j :: 0 <= i < k <= j < |s| && Fallback(s[i]) ==> Quicker(s[i], s[j]))
  }

  lemma JoinedIsTiered(lead: seq<Relay>, rest: seq<Relay>, top: seq<Relay>, tail: seq<Relay>)
    requires multiset(lead) == multiset(top) && multiset(rest) == multiset(tail)
    requires forall r :: r in rest ==> Fallback(r)
    requires forall p, q :: p in lead && q in rest && Fallback(p) ==> Quicker(p, q)
    ensures |lead| <= |top + tail| && Tiered(top + tail, |lead|)
  {
    SameElements(lead, top);
    SameElements(rest, tail);
    var s, k := top + tail, |lead|;
    forall j | k <= j < |s| ensures s[j] in rest {
      assert s[j] == tail[j - k];
    }
    forall i | 0 <= i < k ensures s[i] in lead {
      assert s[i] == top[i];
    }
  }

  /** The ranking of a pool with distinct URLs is in two tiers, the leading one
      holding every relay that is not a fallback and filled up to two with the
      fallbacks of lowest effective RTT; each tier is by score, up to the
      exchange of its first two. */
  lemma RankOrder(pool: seq<Relay>, c: Client) returns (k: nat)
    requires DistinctUrls(pool) && pool != []
    ensures k == LeadSize(|Filter(Leading, pool)|, |pool|) && k <= |pool| == |RankedStates(pool, c)|
    ensures Tiered(RankedStates(pool, c), k)
    ensures forall i, j :: 0 <= i < j < k ==> InOrder(Scores(MakeBoard(pool, c)), RankedStates(pool, c)[..k], i, j)
    ensures forall i, j :: 0 <= i < j < |pool| - k ==>
              InOrder(Scores(MakeBoard(pool, c)), RankedStates(pool, c)[k..], i, j)
  {
    var b, lead, rest := MakeBoard(pool, c), Tiers(pool).0, Tiers(pool).1;
    k := |lead|;
    RankIsPermutation(pool, c);
    SameElements(RankedStates(pool, c), pool);
    LeadHasSize(pool);
    TiersAreOrdered(pool);
    JoinedIsTiered(lead, rest, RankTier(b, lead), RankTier(b, rest));
    TiersAreByScore(pool, c);
    var s := RankedStates(pool, c);
    assert s[..k] == RankTier(b, lead) && s[k..] == RankTier(b, rest);
  }

  // ---------------------------------------------------------------- the loops

  /** The first loop of molsRTTStats. */
  method SumRTT(active: seq<Relay>) returns (count: real, sum: real)
    ensures count == Total(CountOf, active) && sum == Total(RttOf, active)
  {
    count, sum := 0.0, 0.0;
    for i := 0 to |active|
      invariant count == Total(CountOf, active[..i]) && sum == Total(RttOf, active[..i])
    {
      assert active[..i + 1][..i] == active[..i];
      if active[i].rttAt != 0 {
        count, sum := count + 1.0, sum + EffectiveRTT(active[i]) as real;
      }
    }
    assert active[..|active|] == active;
  }

  /** Its second loop. */
  method SumSquares(active: seq<Relay>, mean: real) returns (squares: real)
    ensures squares == Total(SquareOf(mean), active)
  {
    squares := 0.0;
    for i := 0 to |active|
      invariant squares == Total(SquareOf(mean), active[..i])
    {
      assert active[..i + 1][..i] == active[..i];
      if active[i].rttAt != 0 {
        var d := EffectiveRTT(active[i]) as real - mean;
        squares := squares + d * d;
      }
    }
    assert active[..|active|] == active;
  }

  method RTTModes(active: seq<Relay>) returns (congested: bool, nonLinear: bool)
    ensures congested == Modes(active).0 && nonLinear == Modes(active).1
  {
    var count, sum := SumRTT(active);
    if count == 0.0 {
      return false, false;
    }
    var mean := sum / count;
    congested := Trunc(mean) > CONGESTION_RTT;
    if count == 1.0 {
      return congested, false;
    }
    var squares := SumSquares(active, mean);
    nonLinear := mean > 0.0 && squares / count > CV_THRESHOLD * CV_THRESHOLD * (mean * mean);
  }

  method Split(pool: seq<Relay>) returns (active: seq<Relay>, fallbacks: seq<Relay>)
    ensures active == Filter(Leading, pool) && fallbacks == Filter(Fallback, pool)
  {
    active, fallbacks := [], [];
    for i := 0 to |pool|
      invariant active == Filter(Leading, pool[..i]) && fallbacks == Filter(Fallback, pool[..i])
    {
      assert pool[..i + 1] == pool[..i] + [pool[i]];
      FilterAppends(Leading, pool[..i], pool[i]);
      FilterAppends(Fallback, pool[..i], pool[i]);
      if Fallback(pool[i]) {
        fallbacks := fallbacks + [pool[i]];
      } else {
        active := active + [pool[i]];
      }
    }
    assert pool[..|pool|] == pool;
  }

  method ListUrls(states: seq<Relay>) returns (urls: seq<string>)
    ensures urls == Map(Url, states)
  {
    urls := [];
    for i := 0 to |states|
      invariant urls == Map(Url, states[..i])
    {
      urls := urls + [Url(states[i])];
    }
    assert states[..|states|] == states;
  }

  method RankOneTier(b: Board, states: seq<Relay>) returns (urls: seq<string>)
    ensures urls == Map(Url, RankTier(b, states))
  {
    var s := Sort(Better(b), states);
    if |s| >= 2 && Pressure(s[0]) - Pressure(s[1]) > PRESSURE_DELTA {
      ghost var was := s;
      s := s[0 := s[1]][1 := s[0]];
      assert s == [was[1], was[0]] + was[2..];
    }
    urls := ListUrls(s);
  }

  method Promote(active: seq<Relay>, fallbacks: seq<Relay>) returns (lead: seq<Relay>, rest: seq<Relay>)
    ensures var k, sorted := Promoted(|active|, |fallbacks|), Sort(Quicker, fallbacks);
            (lead, rest) == if k == 0 then (active, fallbacks) else (active + sorted[..k], sorted[k..])
  {
    lead, rest := active, fallbacks;
    if |active| < MIN_ACTIVE && |fallbacks| > 0 {
      var sorted := Sort(Quicker, fallbacks);
      var promote := if MIN_ACTIVE - |active| <= |sorted| then MIN_ACTIVE - |active| else |sorted|;
      lead, rest := active + sorted[..promote], sorted[promote..];
    }
  }

  method BuildBoard(pool: seq<Relay>, active: seq<Relay>, c: Client) returns (b: Board)
    requires pool != [] && active == Filter(Leading, pool)
    ensures b == MakeBoard(pool, c)
  {
    var congested, nonLinear := RTTModes(active);
    var order := |pool|;
    var m := MolsMultipliers(order, nonLinear);
    var g := Grid(Row(c, order), Col(c, order), m, order);
    var scores := [];
    for j := 0 to order
      invariant |scores| == j && forall k :: 0 <= k < j ==> scores[k] == CellScore(g, congested, k)
    {
      scores := scores + [CellScore(g, congested, j)];
    }
    assert scores == AllScores(g, congested);
    var urls := ListUrls(pool);
    b := Board(Sort(ByDigest(c), urls), scores);
  }

  lemma RankInTwo(b: Board, lead: seq<Relay>, rest: seq<Relay>)
    ensures Map(Url, RankTier(b, lead) + RankTier(b, rest)) == Map(Url, RankTier(b, lead)) + Map(Url, RankTier(b, rest))
  {
  }

  method RankRelayPool(pool: seq<Relay>, c: Client) returns (urls: seq<string>)
    ensures urls == Rank(pool, c)
  {
    if |pool| == 0 {
      return [];
    }
    var active, fallbacks := Split(pool);
    var b := BuildBoard(pool, active, c);
    var lead, rest := Promote(active, fallbacks);
    var first := RankOneTier(b, lead);
    var second := RankOneTier(b, rest);
    RankInTwo(b, lead, rest);
    urls := first + second;
  }
}
