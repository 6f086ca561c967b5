/** SelectPriority and applyActiveStickiness of portal/discovery/mols.go, and the
    pool filter and SelectRelays of portal/discovery/relayset.go. */
module Selection {
  import opened Identity
  import opened Orders
  import opened Permutations
  import opened RelayState
  import opened Ranking

  const DEFAULT_MAX_ACTIVE := 3
  const STICKY_PRESSURE := 0.5

  /** What a listener asks for. */
  datatype Route = Route(explicit: seq<string>, active: seq<string>, maxActive: int, udp: bool, tcp: bool,
                         client: Client)

  predicate Supports(r: Relay, route: Route, now: Time) {
    !Observed(r) || !(r.desc.expiresAt > now) || ((route.udp ==> r.desc.udp) && (route.tcp ==> r.desc.tcp))
  }

  /** filterCandidatePool. */
  function Eligible(route: Route, now: Time): Relay -> bool {
    (r: Relay) =>
      && (r.verified || (r.bootstrap && !Observed(r)))
      && Url(r) !in route.explicit && !r.banned && !r.dead
      && (Observed(r) ==> r.desc.expiresAt > now && Supports(r, route, now))
      && !Suppressed(r, now)
  }

  predicate Usable(states: seq<Relay>, u: string, route: Route, now: Time) {
    exists k :: 0 <= k < |states| && Url(states[k]) == u && !states[k].banned && !states[k].dead
                && !Suppressed(states[k], now) && Supports(states[k], route, now)
  }

  /** The usable explicit relays among the first n, each once. */
  function Explicit(states: seq<Relay>, route: Route, now: Time, n: nat): seq<string>
    requires n <= |route.explicit|
  {
    if n == 0 then []
    else
      var u, before := route.explicit[n - 1], Explicit(states, route, now, n - 1);
      if u in route.explicit[..n - 1] || !Usable(states, u, route, now) then before else before + [u]
  }

  function Quota(route: Route): nat { if route.maxActive <= 0 then DEFAULT_MAX_ACTIVE else route.maxActive }

  // ---------------------------------------------------------------- stickiness

  function LastState(states: seq<Relay>, u: string): Option<Relay> {
    if states == [] then None
    else if Url(states[|states| - 1]) == u then Some(states[|states| - 1])
    else LastState(states[..|states| - 1], u)
  }

  predicate Healthy(s: Option<Relay>) {
    s.Some? && !Fallback(s.value) && !(Pressure(s.value) > STICKY_PRESSURE)
  }

  function HealthyIn(states: seq<Relay>): string -> bool { (u: string) => Healthy(LastState(states, u)) }

  /** The active relays retained after the first n. */
  function Kept(ranked: seq<string>, active: seq<string>, healthy: string -> bool, quota: nat, n: nat): seq<string>
    requires n <= |active|
  {
    if n == 0 then []
    else
      var u, before := active[n - 1], Kept(ranked, active, healthy, quota, n - 1);
      if |before| < quota && healthy(u) && u in ranked && u !in before then before + [u] else before
  }

  /** selected, then the first n ranked relays it lacks. */
  function Filled(selected: seq<string>, ranked: seq<string>, n: nat): seq<string>
    requires n <= |ranked|
  {
    if n == 0 then selected
    else
      var before := Filled(selected, ranked, n - 1);
      if ranked[n - 1] in before then before else before + [ranked[n - 1]]
  }

  function Sticky(ranked: seq<string>, active: seq<string>, healthy: string -> bool, quota: nat): seq<string> {
    if ranked == [] || quota == 0 || active == [] then ranked
    else Filled(Kept(ranked, active, healthy, quota, |active|), ranked, |ranked|)
  }

  function Take(s: seq<string>, n: nat): seq<string> { if |s| > n then s[..n] else s }

  /** The ranked pool. */
  function Ranked(states: seq<Relay>, route: Route, now: Time): seq<string> {
    Rank(Filter(Eligible(route, now), states), route.client)
  }

  function Auto(states: seq<Relay>, route: Route, now: Time): seq<string> {
    Take(Sticky(Ranked(states, route, now), route.active, HealthyIn(states), Quota(route)), Quota(route))
  }

  function Select(states: seq<Relay>, route: Route, now: Time): seq<string> {
    if states == [] then [] else Explicit(states, route, now, |route.explicit|) + Auto(states, route, now)
  }

  // ---------------------------------------------------------------- stickiness permutes

  lemma {:induction false} KeptFacts(ranked: seq<string>, active: seq<string>, healthy: string -> bool, quota: nat,
                                     n: nat)
    requires n <= |active|
    ensures var k := Kept(ranked, active, healthy, quota, n);
            Distinct(k) && |k| <= quota && forall u :: u in k ==> u in ranked && u in active && healthy(u)
  {
    if n > 0 {
      KeptFacts(ranked, active, healthy, quota, n - 1);
    }
  }

  lemma {:induction false} FilledFacts(selected: seq<string>, ranked: seq<string>, n: nat)
    requires n <= |ranked| && Distinct(selected)
    ensures var f := Filled(selected, ranked, n);
            Distinct(f) && selected <= f && forall u :: u in f <==> u in selected || u in ranked[..n]
  {
    if n > 0 {
      FilledFacts(selected, ranked, n - 1);
      assert ranked[..n] == ranked[..n - 1] + [ranked[n - 1]];
    }
  }

  lemma SameDistinct<T>(a: seq<T>, b: seq<T>)
    requires Distinct(a) && Distinct(b) && forall x :: x in a <==> x in b
    ensures multiset(a) == multiset(b)
  {
    forall x: T ensures multiset(a)[x] == multiset(b)[x] {
      OnceInMultiset(a, x);
      OnceInMultiset(b, x);
      assert x in a <==> x in multiset(a);
      assert x in b <==> x in multiset(b);
    }
  }

  /** Stickiness moves relays, it neither drops nor adds one. */
  lemma StickinessPermutes(ranked: seq<string>, active: seq<string>, healthy: string -> bool, quota: nat)
    requires Distinct(ranked)
    ensures multiset(Sticky(ranked, active, healthy, quota)) == multiset(ranked)
  {
    var kept := Kept(ranked, active, healthy, quota, |active|);
    KeptFacts(ranked, active, healthy, quota, |active|);
    FilledFacts(kept, ranked, |ranked|);
    assert ranked[..|ranked|] == ranked;
    SameDistinct(Filled(kept, ranked, |ranked|), ranked);
  }

  /** The healthy active relays of the ranking. */
  function Wanted(ranked: seq<string>, active: seq<string>, healthy: string -> bool): set<string> {
    set u | u in active && u in ranked && healthy(u)
  }

  lemma {:induction false} DistinctSize<T>(s: seq<T>)
    requires Distinct(s)
    ensures |set x | x in s| == |s|
  {
    if s != [] {
      DistinctSize(s[1..]);
      assert (set x | x in s) == {s[0]} + set x | x in s[1..];
    }
  }

  /** The same relays in the order the listener has them, each once. */
  function InActiveOrder(ranked: seq<string>, active: seq<string>, healthy: string -> bool, n: nat): seq<string>
    requires n <= |active|
  {
    if n == 0 then []
    else
      var u, before := active[n - 1], InActiveOrder(ranked, active, healthy, n - 1);
      if healthy(u) && u in ranked && u !in active[..n - 1] then before + [u] else before
  }

  lemma {:induction false} InActiveOrderFacts(ranked: seq<string>, active: seq<string>, healthy: string -> bool, n: nat)
    requires n <= |active|
    ensures var w := InActiveOrder(ranked, active, healthy, n);
            Distinct(w) && forall u :: u in w <==> u in Wanted(ranked, active[..n], healthy)
  {
    if n > 0 {
      InActiveOrderFacts(ranked, active, healthy, n - 1);
      var before := InActiveOrder(ranked, active, healthy, n - 1);
      assert forall i :: 0 <= i < |before| ==> before[i] in before;
      assert forall u :: u in before ==> u in active[..n - 1];
      assert active[..n] == active[..n - 1] + [active[n - 1]];
    }
  }

  /** The loop with its early break keeps the first of them that fit. */
  lemma {:induction false} KeptAreTheFirst(ranked: seq<string>, active: seq<string>, healthy: string -> bool,
                                           quota: nat, n: nat)
    requires n <= |active|
    ensures Kept(ranked, active, healthy, quota, n) == Take(InActiveOrder(ranked, active, healthy, n), quota)
  {
    if n > 0 {
      KeptAreTheFirst(ranked, active, healthy, quota, n - 1);
      InActiveOrderFacts(ranked, active, healthy, n - 1);
    }
  }

  lemma KeptLead(ranked: seq<string>, active: seq<string>, healthy: string -> bool, quota: nat)
    ensures Take(InActiveOrder(ranked, active, healthy, |active|), quota) <=
            Take(Sticky(ranked, active, healthy, quota), quota)
  {
    KeptAreTheFirst(ranked, active, healthy, quota, |active|);
    KeptFacts(ranked, active, healthy, quota, |active|);
    FilledFacts(Kept(ranked, active, healthy, quota, |active|), ranked, |ranked|);
    InActiveOrderFacts(ranked, active, healthy, |active|);
    var w := InActiveOrder(ranked, active, healthy, |active|);
    if ranked == [] && w != [] {
      assert w[0] in w;
    }
  }

  /** The automatic part begins with the healthy active relays of the eligible
      pool, in active order, as many as fit the quota: if they fill it, it is
      exactly the first of them. */
  lemma HealthyActiveLead(states: seq<Relay>, route: Route, now: Time)
    ensures var w := InActiveOrder(Ranked(states, route, now), route.active, HealthyIn(states), |route.active|);
            && Take(w, Quota(route)) <= Auto(states, route, now)
            && (|w| >= Quota(route) ==> Auto(states, route, now) == w[..Quota(route)])
  {
    KeptLead(Ranked(states, route, now), route.active, HealthyIn(states), Quota(route));
  }

  /** If the healthy active relays of the eligible pool fit the quota, all of
      them stay selected. */
  lemma HealthyActiveAreKept(states: seq<Relay>, route: Route, now: Time, u: string)
    requires |Wanted(Ranked(states, route, now), route.active, HealthyIn(states))| <= Quota(route)
    requires u in Wanted(Ranked(states, route, now), route.active, HealthyIn(states))
    ensures u in Auto(states, route, now)
  {
    var ranked, active, healthy := Ranked(states, route, now), route.active, HealthyIn(states);
    var w := InActiveOrder(ranked, active, healthy, |active|);
    InActiveOrderFacts(ranked, active, healthy, |active|);
    assert active[..|active|] == active;
    DistinctSize(w);
    assert (set x | x in w) == Wanted(ranked, active, healthy);
    HealthyActiveLead(states, route, now);
    var i :| 0 <= i < |w| && w[i] == u;
    assert Auto(states, route, now)[i] == u;
  }

  // ---------------------------------------------------------------- what is selected

  lemma {:induction false} ExplicitFacts(states: seq<Relay>, route: Route, now: Time, n: nat)
    requires n <= |route.explicit|
    ensures var e := Explicit(states, route, now, n);
            Distinct(e) && forall u :: u in e ==> u in route.explicit[..n] && Usable(states, u, route, now)
  {
    if n > 0 {
      ExplicitFacts(states, route, now, n - 1);
      assert route.explicit[..n] == route.explicit[..n - 1] + [route.explicit[n - 1]];
    }
  }

  /** A state with that URL and that property. */
  ghost predicate Backed(states: seq<Relay>, u: string, p: Relay -> bool) {
    exists k :: 0 <= k < |states| && Url(states[k]) == u && p(states[k])
  }

  lemma RankedFacts(states: seq<Relay>, p: Relay -> bool, c: Client)
    requires DistinctUrls(states)
    ensures Distinct(Rank(Filter(p, states), c))
    ensures forall u :: u in Rank(Filter(p, states), c) <==> Backed(states, u, p)
  {
    var pool := Filter(p, states);
    var ranked := Rank(pool, c);
    DistinctFilter(p, states);
    RankIsPermutation(pool, c);
    DistinctByMultiset(Map(Url, pool), ranked);
    SameElements(Map(Url, pool), ranked);
    forall u ensures u in ranked <==> Backed(states, u, p) {
      PoolUrls(states, p, u);
    }
  }

  lemma PoolUrls(states: seq<Relay>, p: Relay -> bool, u: string)
    ensures u in Map(Url, Filter(p, states)) <==> Backed(states, u, p)
  {
    var pool := Filter(p, states);
    if u in Map(Url, pool) {
      var i :| 0 <= i < |pool| && Map(Url, pool)[i] == u;
      assert pool[i] in states;
      var k :| 0 <= k < |states| && states[k] == pool[i];
      assert Url(states[k]) == u;
    }
    if Backed(states, u, p) {
      var k :| 0 <= k < |states| && Url(states[k]) == u && p(states[k]);
      assert states[k] in pool;
      var i :| 0 <= i < |pool| && pool[i] == states[k];
      assert Map(Url, pool)[i] == u;
    }
  }

  lemma TakenFacts(ranked: seq<string>, active: seq<string>, healthy: string -> bool, quota: nat)
    requires Distinct(ranked)
    ensures var t := Take(Sticky(ranked, active, healthy, quota), quota);
            |t| <= quota && Distinct(t) && forall u :: u in t ==> u in ranked
  {
    var all := Sticky(ranked, active, healthy, quota);
    StickinessPermutes(ranked, active, healthy, quota);
    DistinctByMultiset(ranked, all);
    SameElements(ranked, all);
    assert forall u :: u in Take(all, quota) ==> u in all;
  }

  lemma AutoFacts(states: seq<Relay>, route: Route, now: Time)
    requires DistinctUrls(states)
    ensures |Auto(states, route, now)| <= Quota(route) && Distinct(Auto(states, route, now))
    ensures forall u :: u in Auto(states, route, now) ==> Backed(states, u, Eligible(route, now))
  {
    RankedFacts(states, Eligible(route, now), route.client);
    TakenFacts(Ranked(states, route, now), route.active, HealthyIn(states), Quota(route));
  }

  ghost predicate InService(states: seq<Relay>, u: string, now: Time) {
    exists k :: 0 <= k < |states| && Url(states[k]) == u && !states[k].banned && !states[k].dead
                && !Suppressed(states[k], now)
  }

  lemma EligibleIsInService(states: seq<Relay>, u: string, route: Route, now: Time)
    requires Backed(states, u, Eligible(route, now))
    ensures InService(states, u, now) && u !in route.explicit
  {
    var k :| 0 <= k < |states| && Url(states[k]) == u && Eligible(route, now)(states[k]);
  }

  lemma UsableIsInService(states: seq<Relay>, u: string, route: Route, now: Time)
    requires Usable(states, u, route, now)
    ensures InService(states, u, now)
  {
  }

  /** The selection has no duplicates, nothing in it is banned, dead or
      suppressed, and its automatic part stays within the quota. */
  lemma SelectionIsSound(states: seq<Relay>, route: Route, now: Time)
    requires DistinctUrls(states)
    ensures Distinct(Select(states, route, now))
    ensures forall u :: u in Select(states, route, now) ==> InService(states, u, now)
    ensures |Auto(states, route, now)| <= Quota(route)
  {
    var e, a := Explicit(states, route, now, |route.explicit|), Auto(states, route, now);
    ExplicitFacts(states, route, now, |route.explicit|);
    AutoFacts(states, route, now);
    assert route.explicit[..|route.explicit|] == route.explicit;
    forall u | u in e ensures InService(states, u, now) && u in route.explicit {
      UsableIsInService(states, u, route, now);
    }
    forall u | u in a ensures InService(states, u, now) && u !in route.explicit {
      EligibleIsInService(states, u, route, now);
    }
    Joined(e, a);
  }

  lemma Joined<T>(a: seq<T>, b: seq<T>)
    requires Distinct(a) && Distinct(b) && forall x :: x in a ==> x !in b
    ensures Distinct(a + b) && forall x :: x in a + b <==> x in a || x in b
  {
    forall i, j | 0 <= i < j < |a + b| ensures (a + b)[i] != (a + b)[j] {
      if i < |a| <= j {
        assert a[i] in a && b[j - |a|] in b;
      }
    }
  }

  // ---------------------------------------------------------------- independence of the listing order

  lemma {:induction false} LastStateIsTheState(states: seq<Relay>, u: string)
    ensures LastState(states, u).Some? ==> LastState(states, u).value in states && Url(LastState(states, u).value) == u
    ensures LastState(states, u).None? ==> forall r :: r in states ==> Url(r) != u
  {
    if states != [] {
      var n := |states| - 1;
      LastStateIsTheState(states[..n], u);
      assert states == states[..n] + [states[n]];
    }
  }

  lemma LastStateForgetsOrder(a: seq<Relay>, b: seq<Relay>, u: string)
    requires multiset(a) == multiset(b) && DistinctUrls(a)
    ensures LastState(a, u) == LastState(b, u)
  {
    SameElements(a, b);
    LastStateIsTheState(a, u);
    LastStateIsTheState(b, u);
    DistinctByUrl(a);
  }

  lemma {:induction false} KeptForgetsOrder(ranked: seq<string>, active: seq<string>, a: seq<Relay>, b: seq<Relay>,
                                            quota: nat, n: nat)
    requires multiset(a) == multiset(b) && DistinctUrls(a) && n <= |active|
    ensures Kept(ranked, active, HealthyIn(a), quota, n) == Kept(ranked, active, HealthyIn(b), quota, n)
  {
    if n > 0 {
      KeptForgetsOrder(ranked, active, a, b, quota, n - 1);
      LastStateForgetsOrder(a, b, active[n - 1]);
    }
  }

  lemma UsableForgetsOrder(a: seq<Relay>, b: seq<Relay>, u: string, route: Route, now: Time)
    requires multiset(a) == multiset(b) && Usable(a, u, route, now)
    ensures Usable(b, u, route, now)
  {
    SameElements(a, b);
    var k :| 0 <= k < |a| && Url(a[k]) == u && !a[k].banned && !a[k].dead && !Suppressed(a[k], now)
             && Supports(a[k], route, now);
    assert a[k] in b;
    var j :| 0 <= j < |b| && b[j] == a[k];
  }

  lemma {:induction false} ExplicitForgetsOrder(a: seq<Relay>, b: seq<Relay>, route: Route, now: Time, n: nat)
    requires multiset(a) == multiset(b) && n <= |route.explicit|
    ensures Explicit(a, route, now, n) == Explicit(b, route, now, n)
  {
    if n > 0 {
      ExplicitForgetsOrder(a, b, route, now, n - 1);
      var u := route.explicit[n - 1];
      if Usable(a, u, route, now) {
        UsableForgetsOrder(a, b, u, route, now);
      } else if Usable(b, u, route, now) {
        UsableForgetsOrder(b, a, u, route, now);
      }
    }
  }

  /** The selection does not depend on the order a map iteration lists the
      states in. */
  lemma SelectForgetsOrder(a: seq<Relay>, b: seq<Relay>, route: Route, now: Time)
    requires multiset(a) == multiset(b) && DistinctUrls(a)
    ensures Select(a, route, now) == Select(b, route, now)
  {
    SameElements(a, b);
    ExplicitForgetsOrder(a, b, route, now, |route.explicit|);
    var e := Eligible(route, now);
    FilterPermutes(e, a, b);
    DistinctFilter(e, a);
    RankForgetsOrder(Filter(e, a), Filter(e, b), route.client);
    KeptForgetsOrder(Rank(Filter(e, a), route.client), route.active, a, b, Quota(route), |route.active|);
  }

  // ---------------------------------------------------------------- the loops

  method FilterPool(states: seq<Relay>, route: Route, now: Time) returns (pool: seq<Relay>)
    ensures pool == Filter(Eligible(route, now), states)
  {
    pool := [];
    var eligible := Eligible(route, now);
    for i := 0 to |states|
      invariant pool == Filter(eligible, states[..i])
    {
      assert states[..i + 1] == states[..i] + [states[i]];
      FilterAppends(eligible, states[..i], states[i]);
      if eligible(states[i]) {
        pool := pool + [states[i]];
      }
    }
    assert states[..|states|] == states;
  }

  method FindUsable(states: seq<Relay>, u: string, route: Route, now: Time) returns (found: bool)
    ensures found == Usable(states, u, route, now)
  {
    for k := 0 to |states|
      invariant forall j :: 0 <= j < k ==> !(Url(states[j]) == u && !states[j].banned && !states[j].dead
                                             && !Suppressed(states[j], now) && Supports(states[j], route, now))
    {
      var s := states[k];
      if Url(s) == u && !s.banned && !s.dead && !Suppressed(s, now) && Supports(s, route, now) {
        return true;
      }
    }
    return false;
  }

  method SelectExplicit(states: seq<Relay>, route: Route, now: Time) returns (chosen: seq<string>)
    ensures chosen == Explicit(states, route, now, |route.explicit|)
  {
    chosen := [];
    var seen := {};
    for n := 0 to |route.explicit|
      invariant chosen == Explicit(states, route, now, n)
      invariant forall u :: u in seen <==> u in route.explicit[..n]
    {
      var u := route.explicit[n];
      assert route.explicit[..n + 1] == route.explicit[..n] + [u];
      if u !in seen {
        seen := seen + {u};
        var usable := FindUsable(states, u, route, now);
        if usable {
          chosen := chosen + [u];
        }
      }
    }
  }

  method MapStates(states: seq<Relay>) returns (byUrl: map<string, Relay>)
    ensures forall u :: LastState(states, u) == if u in byUrl then Some(byUrl[u]) else None
  {
    byUrl := map[];
    for i := 0 to |states|
      invariant forall u :: LastState(states[..i], u) == if u in byUrl then Some(byUrl[u]) else None
    {
      assert states[..i + 1][..i] == states[..i];
      byUrl := byUrl[Url(states[i]) := states[i]];
    }
    assert states[..|states|] == states;
  }

  lemma {:induction false} FullStaysFull(ranked: seq<string>, active: seq<string>, healthy: string -> bool, quota: nat,
                                         n: nat, m: nat)
    requires n <= m <= |active| && |Kept(ranked, active, healthy, quota, n)| >= quota
    ensures Kept(ranked, active, healthy, quota, m) == Kept(ranked, active, healthy, quota, n)
  {
    if n < m {
      FullStaysFull(ranked, active, healthy, quota, n, m - 1);
    }
  }

  method ApplyActiveStickiness(ranked: seq<string>, active: seq<string>, states: seq<Relay>, maxActive: int)
    returns (selected: seq<string>)
    ensures selected == Sticky(ranked, active, HealthyIn(states), if maxActive <= 0 then 0 else maxActive)
  {
    if |ranked| == 0 || maxActive <= 0 || |active| == 0 {
      return ranked;
    }
    var byUrl := MapStates(states);
    ghost var healthy := HealthyIn(states);
    selected := [];
    var n := 0;
    while n < |active| && |selected| < maxActive
      invariant n <= |active| && selected == Kept(ranked, active, healthy, maxActive, n)
    {
      var u := active[n];
      if u in byUrl && !Fallback(byUrl[u]) && !(Pressure(byUrl[u]) > STICKY_PRESSURE) {
        if u in ranked && u !in selected {
          selected := selected + [u];
        }
      }
      n := n + 1;
    }
    if n < |active| {
      FullStaysFull(ranked, active, healthy, maxActive, n, |active|);
    }
    for i := 0 to |ranked|
      invariant selected == Filled(Kept(ranked, active, healthy, maxActive, |active|), ranked, i)
    {
      if ranked[i] !in selected {
        selected := selected + [ranked[i]];
      }
    }
  }

  method SelectAuto(states: seq<Relay>, route: Route, now: Time) returns (auto: seq<string>)
    ensures auto == Auto(states, route, now)
  {
    var pool := FilterPool(states, route, now);
    auto := RankRelayPool(pool, route.client);
    var maxActive := if route.maxActive <= 0 then DEFAULT_MAX_ACTIVE else route.maxActive;
    auto := ApplyActiveStickiness(auto, route.active, states, maxActive);
    if |auto| > maxActive {
      auto := auto[..maxActive];
    }
  }

  method SelectPriority(states: seq<Relay>, route: Route, now: Time) returns (urls: seq<string>)
    ensures urls == Select(states, route, now)
  {
    if |states| == 0 {
      return [];
    }
    var explicit := SelectExplicit(states, route, now);
    var auto := SelectAuto(states, route, now);
    urls := explicit + auto;
  }
}
