/** SelectRelays of portal/discovery/relayset.go, and what bans and trust mean for
    it over the runs of the relay set. */
module SelectionRuns {
  import opened Identity
  import opened Orders
  import opened Permutations
  import opened RelayState
  import opened RelayBook
  import opened RelayRuns
  import opened RelayTrust
  import opened Ranking
  import opened Selection

  /** The states in the order the map iteration gives. */
  function StatesOf(relays: map<string, Relay>, order: seq<string>): seq<Relay>
    requires forall i :: 0 <= i < |order| ==> order[i] in relays
  {
    seq(|order|, i requires 0 <= i < |order| => relays[order[i]])
  }

  /** Fresh states for the first n explicit URLs that have none. */
  function Added(relays: map<string, Relay>, explicit: seq<string>, n: nat): seq<Relay>
    requires n <= |explicit|
  {
    if n == 0 then []
    else
      var u, before := explicit[n - 1], Added(relays, explicit, n - 1);
      if u == "" || u in relays || u in explicit[..n - 1] then before else before + [NewRelay(u)]
  }

  /** The list SelectRelays hands on, from relays whose expired bans are cleared. */
  function StatesFor(relays: map<string, Relay>, order: seq<string>, explicit: seq<string>): seq<Relay>
    requires forall i :: 0 <= i < |order| ==> order[i] in relays
  {
    StatesOf(relays, order) + Added(relays, explicit, |explicit|)
  }

  /** SelectRelays at clock reading `now`; `later` is the one SelectPriority takes. */
  function SelectRelays(b: Book, order: seq<string>, route: Route, now: Time, later: Time): seq<string>
    requires forall i :: 0 <= i < |order| ==> order[i] in ClearBans(b.relays, now)
  {
    Select(StatesFor(ClearBans(b.relays, now), order, route.explicit), route, later)
  }

  lemma {:induction false} AddedFacts(relays: map<string, Relay>, explicit: seq<string>, n: nat)
    requires n <= |explicit|
    ensures DistinctUrls(Added(relays, explicit, n))
    ensures forall r :: r in Added(relays, explicit, n) ==>
              r == NewRelay(Url(r)) && Url(r) !in relays && Url(r) in explicit[..n]
  {
    if n > 0 {
      AddedFacts(relays, explicit, n - 1);
      var before, u := Added(relays, explicit, n - 1), explicit[n - 1];
      assert explicit[..n] == explicit[..n - 1] + [u];
      assert Map(Url, before + [NewRelay(u)]) == Map(Url, before) + [u];
      assert u !in explicit[..n - 1] ==> forall i :: 0 <= i < |before| ==> before[i] in before;
    }
  }

  lemma StatesAreDistinct(relays: map<string, Relay>, order: seq<string>)
    requires Filed(relays) && Lists(order, relays.Keys)
    ensures Map(Url, StatesOf(relays, order)) == order
  {
  }

  /** The states handed to SelectPriority have distinct URLs, and the one for a
      known URL is the known one. */
  lemma OfferedFacts(relays: map<string, Relay>, order: seq<string>, explicit: seq<string>)
    requires Filed(relays) && Lists(order, relays.Keys)
    ensures DistinctUrls(StatesFor(relays, order, explicit))
    ensures forall r :: r in StatesFor(relays, order, explicit) ==>
              if Url(r) in relays then r == relays[Url(r)] else r == NewRelay(Url(r))
  {
    var known, added := StatesOf(relays, order), Added(relays, explicit, |explicit|);
    StatesAreDistinct(relays, order);
    AddedFacts(relays, explicit, |explicit|);
    assert Map(Url, known + added) == order + Map(Url, added);
    forall u | u in order ensures u !in Map(Url, added) {
      assert forall i :: 0 <= i < |added| ==> added[i] in added;
    }
    Joined(order, Map(Url, added));
  }

  lemma ClearedIsFiled(relays: map<string, Relay>, now: Time)
    requires Filed(relays)
    ensures Filed(ClearBans(relays, now))
  {
  }

  /** In every run, whatever the map order and the route, SelectRelays returns no
      duplicates, nothing banned, dead or suppressed, and at most the quota of
      automatic relays. */
  lemma RunSelectsSoundly(urls: set<string>, es: seq<Event>, bs: seq<Book>, n: nat, order: seq<string>, route: Route,
                          now: Time, later: Time)
    requires Run(urls, es, bs) && n <= |es| && Lists(order, ClearBans(bs[n].relays, now).Keys)
    ensures var relays, chosen := ClearBans(bs[n].relays, now), SelectRelays(bs[n], order, route, now, later);
            && Distinct(chosen)
            && (forall u :: u in chosen && u in relays ==>
                  !relays[u].banned && !relays[u].dead && !Suppressed(relays[u], later))
            && |Auto(StatesFor(relays, order, route.explicit), route, later)| <= Quota(route)
  {
    EntriesStayFiled(urls, es, bs, n);
    var relays := ClearBans(bs[n].relays, now);
    ClearedIsFiled(bs[n].relays, now);
    OfferedFacts(relays, order, route.explicit);
    var states := StatesFor(relays, order, route.explicit);
    SelectionIsSound(states, route, later);
    forall u | u in Select(states, route, later) && u in relays
      ensures !relays[u].banned && !relays[u].dead && !Suppressed(relays[u], later)
    {
      ServiceIsKnown(states, relays, u, later);
    }
  }

  lemma ServiceIsKnown(states: seq<Relay>, relays: map<string, Relay>, u: string, now: Time)
    requires InService(states, u, now) && u in relays
    requires forall r :: r in states ==> if Url(r) in relays then r == relays[Url(r)] else r == NewRelay(Url(r))
    ensures !relays[u].banned && !relays[u].dead && !Suppressed(relays[u], now)
  {
    var k :| 0 <= k < |states| && Url(states[k]) == u && !states[k].banned && !states[k].dead
             && !Suppressed(states[k], now);
    assert states[k] in states;
  }

  /** From BanRelayURL until AllowRelayURL or DeactivateRelayURL names it, a URL is
      not selected, neither automatically nor explicitly. */
  lemma BannedIsNeverSelected(urls: set<string>, es: seq<Event>, bs: seq<Book>, i: nat, j: nat, u: string,
                              order: seq<string>, route: Route, now: Time, later: Time)
    requires Run(urls, es, bs) && i < j <= |es| && es[i] == Banned(u)
    requires forall m :: i < m < j ==> es[m] != Allowed(u) && !(es[m].Deactivated? && es[m].url == u)
    requires Lists(order, ClearBans(bs[j].relays, now).Keys)
    ensures u !in SelectRelays(bs[j], order, route, now, later)
  {
    BanLasts(urls, es, bs, i, j, u);
    assert Barred(ClearBans(bs[j].relays, now), u);
    RunSelectsSoundly(urls, es, bs, j, order, route, now, later);
  }

  lemma EligibleIsTrusted(states: seq<Relay>, relays: map<string, Relay>, u: string, route: Route, now: Time)
    requires Backed(states, u, Eligible(route, now))
    requires forall r :: r in states ==> if Url(r) in relays then r == relays[Url(r)] else r == NewRelay(Url(r))
    ensures u in relays && (relays[u].verified || (relays[u].bootstrap && !Observed(relays[u])))
  {
    var k :| 0 <= k < |states| && Url(states[k]) == u && Eligible(route, now)(states[k]);
    assert states[k] in states;
  }

  /** Whatever is selected automatically was polled directly earlier in the run,
      or is a configured bootstrap URL with no observed descriptor on file.
      Gossip and announcements alone never get a relay selected. */
  lemma SelectedWasPolled(urls: set<string>, es: seq<Event>, bs: seq<Book>, n: nat, order: seq<string>, route: Route,
                          now: Time, later: Time, u: string) returns (i: nat)
    requires Run(urls, es, bs) && n <= |es| && Lists(order, ClearBans(bs[n].relays, now).Keys)
    requires u in Auto(StatesFor(ClearBans(bs[n].relays, now), order, route.explicit), route, later)
    ensures u in bs[n].relays
    ensures (i < n && Polls(bs[i], es[i], u)) || (bs[n].relays[u].bootstrap && !Observed(bs[n].relays[u]))
  {
    EntriesStayFiled(urls, es, bs, n);
    var relays := ClearBans(bs[n].relays, now);
    ClearedIsFiled(bs[n].relays, now);
    OfferedFacts(relays, order, route.explicit);
    var states := StatesFor(relays, order, route.explicit);
    AutoFacts(states, route, later);
    EligibleIsTrusted(states, relays, u, route, later);
    i := 0;
    if relays[u].verified {
      i := VerifiedWasPolled(urls, es, bs, n, u);
    }
  }
}
