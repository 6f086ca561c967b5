/** RelaySet of portal/discovery/relayset.go: the relays and rollback anchors it
    updates in place under its lock. Deleting a prefix of a sorted list is
    written as deleting the first element over and over. */
module DiscoverySet {
  import opened Identity
  import opened RelayState
  import opened RelayBook
  import opened RelayRuns
  import opened Orders
  import opened Selection
  import SelectionRuns

  /** The clock sweep, restricted to the keys already visited. */
  ghost function Swept(relays: map<string, Relay>, now: Time, left: set<string>): map<string, Relay> {
    map u | u in relays && (u in left || (BanExpired(relays[u], now) ==> relays[u].bootstrap)) ::
      if u !in left && BanExpired(relays[u], now)
        then relays[u].(banned := false, suppressUntil := 0, unhealthySince := 0) else relays[u]
  }

  lemma SweepNext(relays: map<string, Relay>, now: Time, left: set<string>, u: string)
    requires u in left && u in relays
    ensures var before, after, r := Swept(relays, now, left), Swept(relays, now, left - {u}), relays[u];
            && u in before && before[u] == r
            && after == if !BanExpired(r, now) then before
                        else if !r.bootstrap then before - {u}
                        else before[u := r.(banned := false, suppressUntil := 0, unhealthySince := 0)]
  {
  }

  /** out was taken from pool, first those that are evicted first. */
  ghost predicate Front(relays: map<string, Relay>, pool: set<string>, out: set<string>)
    requires pool <= relays.Keys
  {
    out <= pool && forall e, k :: e in out && k in pool && k !in out ==> EvictedFirst(relays[e], relays[k])
  }

  lemma FrontGrows(relays: map<string, Relay>, pool: set<string>, out: set<string>, u: string)
    requires pool <= relays.Keys && Front(relays, pool, out) && u in pool - out
    requires forall k :: k in pool - out ==> EvictedFirst(relays[u], relays[k])
    ensures Front(relays, pool, out + {u})
  {
  }

  lemma OneLess(relays: map<string, Relay>, pool: set<string>, out: set<string>, u: string)
    requires u in pool && u !in out
    ensures pool - out - {u} == pool - (out + {u}) && relays - out - {u} == relays - (out + {u})
    ensures |out + {u}| == |out| + 1
    ensures |pool - out - {u}| == |pool - out| - 1
  {
  }

  class RelaySet {
    var relays: map<string, Relay>
    var anchors: map<string, Anchor>
    ghost var log: seq<Descriptor>

    ghost function View(): Book
      reads this
    {
      Book(relays, anchors, log)
    }

    /** NewRelaySet. */
    constructor (urls: seq<string>)
      ensures View() == Bootstrapped(set i | 0 <= i < |urls| :: urls[i])
    {
      relays, anchors, log := map[], map[], [];
      new;
      for i := 0 to |urls|
        invariant relays == Bootstrapped(set j | 0 <= j < i :: urls[j]).relays && anchors == map[] && log == []
      {
        relays := relays[urls[i] := NewRelay(urls[i]).(bootstrap := true)];
      }
    }

    method ClearExpiredBans(now: Time)
      modifies this
      ensures View() == old(View()).(relays := ClearBans(old(relays), now))
    {
      var left := relays.Keys;
      while left != {}
        invariant left <= old(relays).Keys && anchors == old(anchors) && log == old(log)
        invariant relays == Swept(old(relays), now, left)
        decreases |left|
      {
        var u :| u in left;
        SweepNext(old(relays), now, left, u);
        var state := relays[u];
        left := left - {u};
        if state.banned && state.suppressUntil != 0 && !(state.suppressUntil > now) {
          if !state.bootstrap {
            relays := relays - {u};
          } else {
            relays := relays[u := state.(banned := false, suppressUntil := 0, unhealthySince := 0)];
          }
        }
      }
    }

    method BanRelayURL(u: string)
      modifies this
      ensures Step(old(View()), Banned(u), View())
    {
      var state := if u in relays then relays[u] else NewRelay(u);
      relays := relays[u := state.(suppressUntil := 0, banned := true)];
    }

    method AllowRelayURL(u: string)
      modifies this
      ensures Step(old(View()), Allowed(u), View())
    {
      var state := if u in relays then relays[u] else NewRelay(u);
      relays := relays[u := state.(banned := false, suppressUntil := 0, unhealthySince := 0)];
    }

    method DeactivateRelayURL(u: string, now: Time)
      modifies this
      ensures Step(old(View()), Deactivated(u, now), View())
    {
      if u in relays {
        relays := relays[u := relays[u].(suppressUntil := now + RECOVERY_BACKOFF)];
      }
    }

    method EnsureRelayURL(u: string)
      modifies this
      ensures Step(old(View()), Ensured(u), View())
    {
      if u !in relays {
        relays := relays[u := NewRelay(u)];
      }
    }

    method RecordDiscoveryRTT(u: string, rtt: int, at: Time)
      modifies this
      ensures Step(old(View()), Measured(u, rtt, at), View())
    {
      if u in relays {
        relays := relays[u := relays[u].(samples := AddSample(relays[u].samples, rtt), rtt := rtt, rttAt := at)];
      }
    }

    method RecordDiscoveryFailure(u: string, budget: int, now: Time) returns (backedOff: bool, count: nat)
      modifies this
      ensures Step(old(View()), DiscoveryFailed(u, budget, now), View())
      ensures backedOff && u != "" ==>
                u in relays && (relays[u].banned || (relays[u].dead && relays[u].nextRefreshAt > now))
    {
      ClearExpiredBans(now);
      if u !in relays || relays[u].banned {
        return false, 0;
      }
      count := relays[u].discoveryFailures + 1;
      var state := relays[u].(discoveryFailures := count);
      if state.unhealthySince == 0 {
        state := state.(unhealthySince := now);
      }
      if !(state.unhealthySince + ANNOUNCE_MAX_VALIDITY > now) {
        backedOff := true;
        if u != "" {
          relays := relays[u := NewRelay(u).(bootstrap := relays[u].bootstrap, banned := true,
                                             suppressUntil := now + POOL_BAN_TTL)];
        }
        return;
      }
      if budget <= 0 || count < budget {
        relays := relays[u := state];
        return false, count;
      }
      BackoffIsPositive(count - budget);
      relays := relays[u := state.(dead := true, nextRefreshAt := now + Backoff(count - budget))];
      backedOff := true;
    }

    method RecordActiveFailure(u: string, budget: int, now: Time) returns (backedOff: bool, count: nat)
      modifies this
      ensures Step(old(View()), ActiveFailed(u, budget, now), View())
      ensures backedOff ==> u in relays && relays[u].suppressUntil > now
    {
      ClearExpiredBans(now);
      if u !in relays || relays[u].banned {
        return false, 0;
      }
      count := relays[u].activeFailures + 1;
      var state := relays[u].(activeFailures := count);
      backedOff := !(budget <= 0 || count < budget);
      if backedOff {
        BackoffIsPositive(count - budget);
        state := state.(suppressUntil := now + Backoff(count - budget));
      }
      relays := relays[u := state];
    }

    /** currentRelayStates: the states in an arbitrary order. */
    method CurrentStates(now: Time) returns (states: seq<Relay>, ghost order: seq<string>)
      modifies this
      ensures Step(old(View()), Listed(now), View())
      ensures Lists(order, relays.Keys) && states == SelectionRuns.StatesOf(relays, order)
    {
      ClearExpiredBans(now);
      states, order := [], [];
      var left := relays.Keys;
      while left != {}
        invariant View() == old(View()).(relays := ClearBans(old(relays), now))
        invariant left <= relays.Keys && Lists(order, relays.Keys - left)
        invariant states == SelectionRuns.StatesOf(relays, order)
        decreases |left|
      {
        var u :| u in left;
        ListsOneMore(order, relays.Keys - left, u);
        assert relays.Keys - (left - {u}) == relays.Keys - left + {u};
        states, order, left := states + [relays[u]], order + [u], left - {u};
      }
    }

    /** SelectRelays; `later` is the clock reading of SelectPriority. */
    method SelectRelays(route: Route, now: Time, later: Time) returns (urls: seq<string>, ghost order: seq<string>)
      modifies this
      ensures Step(old(View()), Listed(now), View())
      ensures Lists(order, relays.Keys) && urls == SelectionRuns.SelectRelays(old(View()), order, route, now, later)
    {
      var states;
      states, order := CurrentStates(now);
      var seen := relays.Keys;
      ghost var known := states;
      for n := 0 to |route.explicit|
        invariant View() == old(View()).(relays := ClearBans(old(relays), now))
        invariant states == known + SelectionRuns.Added(relays, route.explicit, n)
        invariant forall u :: u in seen <==> u in relays || (u != "" && u in route.explicit[..n])
      {
        var u := route.explicit[n];
        assert route.explicit[..n + 1] == route.explicit[..n] + [u];
        if u != "" && u !in seen {
          states, seen := states + [NewRelay(u)], seen + {u};
        }
      }
      urls := SelectPriority(states, route, later);
    }

    // -------------------------------------------------------------- eviction

    /** The entry of a pool that is evicted first. */
    method FirstOut(pool: set<string>) returns (first: string)
      requires pool != {} && pool <= relays.Keys
      ensures first in pool && forall k :: k in pool ==> EvictedFirst(relays[first], relays[k])
    {
      first :| first in pool;
      var left := pool - {first};
      while left != {}
        invariant left <= pool && first in pool && first !in left
        invariant forall k :: k in pool - left ==> EvictedFirst(relays[first], relays[k])
        decreases |left|
      {
        var u :| u in left;
        left := left - {u};
        if !EvictedFirst(relays[first], relays[u]) {
          first := u;
        }
      }
    }

    method Evict(pool: set<string>, count: nat) returns (ghost out: set<string>)
      requires pool <= relays.Keys && count <= |pool|
      modifies this
      ensures relays == old(relays) - out && anchors == old(anchors) && log == old(log)
      ensures Front(old(relays), pool, out) && |out| == count
    {
      var n, left := 0, pool;
      out := {};
      while n < count
        invariant n <= count && |out| == n && left == pool - out && |left| == |pool| - n
        invariant relays == old(relays) - out && anchors == old(anchors) && log == old(log)
        invariant Front(old(relays), pool, out)
      {
        var u := FirstOut(left);
        FrontGrows(old(relays), pool, out, u);
        OneLess(old(relays), pool, out, u);
        relays := relays - {u};
        left, out, n := left - {u}, out + {u}, n + 1;
      }
    }

    method EnforceIdentityCap(address: string) returns (ghost out: set<string>)
      modifies this
      ensures relays == old(relays) - out && anchors == old(anchors) && log == old(log)
      ensures IdentityEviction(old(relays), address, out)
    {
      out := {};
      assert relays - out == relays;
      if address != "" {
        var owned := set u | u in relays && !relays[u].bootstrap && !relays[u].banned && !relays[u].verified
                     && relays[u].desc.address == address;
        if |owned| > MAX_PER_IDENTITY {
          out := Evict(owned, |owned| - MAX_PER_IDENTITY);
        }
      }
    }

    /** enforceCapLocked, at the clock reading `wall` it takes itself. */
    method EnforceCap(wall: Time) returns (ghost out: set<string>)
      modifies this
      ensures View() == RelayBook.EnforceCap(old(View()), wall, out)
      ensures CapEviction(ClearBans(old(relays), wall), out)
    {
      ClearExpiredBans(wall);
      SweepAnchors(wall);
      out := {};
      assert relays - out == relays;
      if |relays| > MAX_ANNOUNCED {
        var pool := set u | u in relays && !relays[u].bootstrap && !relays[u].banned;
        var excess := |relays| - MAX_ANNOUNCED;
        out := Evict(pool, if excess <= |pool| then excess else |pool|);
      }
    }

    method SweepAnchors(now: Time)
      modifies this
      ensures View() == old(View()).(anchors := RelayBook.SweepAnchors(old(anchors), now))
    {
      var left := anchors.Keys;
      while left != {}
        invariant left <= anchors.Keys && relays == old(relays) && log == old(log)
        invariant anchors ==
                  map a | a in old(anchors) && (a in left || a in RelayBook.SweepAnchors(old(anchors), now)) ::
                    old(anchors)[a]
        decreases |left|
      {
        var a :| a in left;
        left := left - {a};
        if anchors[a].until != 0 && now > anchors[a].until {
          anchors := anchors - {a};
        }
      }
    }

    // -------------------------------------------------------------- upsert

    /** The anchor part of descriptorRollbackResultLocked. */
    method ConsultAnchor(d: Descriptor, now: Time) returns (older: bool)
      modifies this`anchors
      ensures anchors == FreshAnchors(old(anchors), d.address, now) && older == RollsBack(anchors, d)
    {
      if d.address !in anchors {
        return false;
      }
      var previous := anchors[d.address];
      if previous.until != 0 && now > previous.until {
        anchors := anchors - {d.address};
        return false;
      }
      older := d.issuedAt < previous.issuedAt;
    }

    /** upsertDescriptorLocked. */
    method Upsert(r: Relay, now: Time, takeover: bool) returns (verdict: RelayBook.Upsert, ghost out: set<string>)
      modifies this
      ensures (View(), verdict) == UpsertDescriptor(old(View()), r, now, takeover, out)
      ensures OutOk(old(View()), r, now, takeover, out)
    {
      out := {};
      var d := r.desc;
      if d.url == "" || (d.url in relays && relays[d.url].banned) {
        return Rejected, out;
      }
      if d.url in relays && relays[d.url].desc.address == d.address && relays[d.url].desc.issuedAt == d.issuedAt
         && relays[d.url].desc != d {
        return Conflicting, out;
      }
      if d.address != "" {
        var older := ConsultAnchor(d, now);
        if older {
          verdict := RollbackResult(relays, d, now);
          return;
        }
      }
      if !takeover && TakeoverBlocked(relays, d, now) {
        return Rejected, out;
      }
      relays := relays[d.url := r];
      if d.address != "" {
        anchors := Raise(anchors, d);
      }
      log := log + [d];
      out := EnforceIdentityCap(d.address);
      verdict := Accepted;
    }

    /** InsertCandidate under the lock. */
    method InsertLocked(i: Item, now: Time, wall: Time)
      returns (e: InsertError, ghost out: set<string>, ghost capOut: set<string>)
      requires SignedOk(i) && Offered(i, now)
      modifies this
      ensures Step(old(View()), Inserted(i, now, wall, out, capOut), View())
      ensures e == RelayBook.InsertCandidate(old(View()), i, now, wall, out, capOut).1
    {
      out, capOut := {}, {};
      ClearExpiredBans(now);
      var u := i.desc.url;
      var r := FromItem(i, now);
      if u in relays {
        if relays[u].banned {
          return RelayBanned, out, capOut;
        }
        r := Merge(r, relays[u]);
      }
      var verdict;
      verdict, out := Upsert(r, now, false);
      match verdict {
        case Accepted =>
          capOut := EnforceCap(wall);
          e := NoError;
        case Ignored => e := NoError;
        case Rejected => e := GuardRejected;
        case Conflicting => e := Contradiction;
      }
    }

    method InsertCandidate(i: Item, now: Time, wall: Time)
      returns (e: InsertError, ghost out: set<string>, ghost capOut: set<string>)
      requires SignedOk(i)
      modifies this
      ensures Step(old(View()), Inserted(i, now, wall, out, capOut), View())
      ensures e == RelayBook.InsertCandidate(old(View()), i, now, wall, out, capOut).1
    {
      out, capOut := {}, {};
      if !i.signed || !Fresh(i.desc, now) {
        return NotFresh, out, capOut;
      }
      if !i.public {
        return NotPublic, out, capOut;
      }
      e, out, capOut := InsertLocked(i, now, wall);
    }

    // -------------------------------------------------------------- discovery responses

    /** The first loop of ApplyRelayDiscoveryResponse. */
    method Collect(items: seq<Item>, target: string, now: Time) returns (order: seq<string>, found: map<string, Relay>)
      ensures (order, found) == Discover(relays, items, target, now)
    {
      order, found := [], map[];
      for n := 0 to |items|
        invariant (order, found) == Discover(relays, items[..n], target, now)
      {
        assert items[..n + 1][..n] == items[..n];
        var i := items[n];
        if Admissible(relays, i, target, now) {
          if i.desc.url !in found {
            order := order + [i.desc.url];
          }
          found := found[i.desc.url := FromItem(i, now)];
        }
      }
      assert items[..|items|] == items;
    }

    /** One round of its second loop. */
    method IngestOne(found: Relay, direct: bool, now: Time)
      returns (verdict: RelayBook.Upsert, changed: bool, ghost out: set<string>)
      modifies this
      ensures (View(), verdict) == Ingest(old(View()), found, direct, now, out)
      ensures OutOk(old(View()), Discovered(old(relays), found, direct), now, direct, out)
      ensures changed == RoundChanges(old(View()), found, direct, now)
    {
      var u := found.desc.url;
      var present := u in relays;
      var existing := if present then relays[u] else ZERO_RELAY;
      var r := Merge(found, existing);
      if direct {
        r := MarkVerified(r);
      }
      verdict, out := Upsert(r, now, direct);
      changed := verdict == Accepted && (!present || existing != r);
      if verdict != Accepted && verdict != Conflicting && direct && present && Troubled(existing) {
        relays := relays[u := MarkVerified(existing)];
        changed := true;
      }
    }

    method IngestFound(order: seq<string>, found: map<string, Relay>, target: string, direct: bool, now: Time)
      returns (conflict: bool, changed: bool, ghost outs: seq<set<string>>)
      requires forall i :: 0 <= i < |order| ==> order[i] in found
      modifies this
      ensures |outs| == |order|
      ensures Progress(old(View()), order, found, target, direct, now, outs, |order|, View(), conflict, changed)
    {
      conflict, changed := false, false;
      outs := seq(|order|, i => {});
      ghost var b := View();
      for n := 0 to |order|
        invariant |outs| == |order|
        invariant Progress(b, order, found, target, direct, now, outs, n, View(), conflict, changed)
      {
        ghost var before := View();
        var isTarget := direct && order[n] == target;
        var verdict, change;
        ghost var out;
        verdict, change, out := IngestOne(found[order[n]], isTarget, now);
        ProgressStep(b, order, found, target, direct, now, outs, n, before, conflict, changed, out);
        conflict, changed := conflict || (verdict == Conflicting && isTarget), changed || change;
        outs := outs[n := out];
      }
    }

    /** ApplyRelayDiscoveryResponse up to the cap. */
    method ApplyLoops(target: string, items: seq<Item>, compatible: bool, now: Time)
      returns (missing: bool, conflict: bool, changed: bool, ghost outs: seq<set<string>>)
      modifies this
      ensures missing == Missing(old(View()), target, items, now)
      ensures Responded(old(View()), target, items, compatible, now, outs, View(), conflict, changed)
    {
      ghost var b0 := View();
      ClearExpiredBans(now);
      DiscoverResult(relays, items, target, now);
      var order, found := Collect(items, target, now);
      missing := target !in found;
      conflict, changed, outs := IngestFound(order, found, target, target != "" && compatible && target in found, now);
    }

    /** ApplyRelayDiscoveryResponse under the lock. */
    method ApplyLocked(target: string, items: seq<Item>, compatible: bool, now: Time, wall: Time)
      returns (missing: bool, conflict: bool, changed: bool, ghost outs: seq<set<string>>, ghost capOut: set<string>)
      requires forall i :: 0 <= i < |items| ==> SignedOk(items[i])
      modifies this
      ensures Step(old(View()), Applied(target, items, compatible, now, wall, outs, capOut), View())
      ensures missing == Missing(old(View()), target, items, now)
      ensures conflict == InResponse(Contradicted(now), old(View()), target, items, compatible, now, outs)
      ensures changed == InResponse(Changed(now), old(View()), target, items, compatible, now, outs)
    {
      missing, conflict, changed, outs := ApplyLoops(target, items, compatible, now);
      ghost var looped := View();
      RespondedMeans(old(View()), target, items, compatible, now, outs, looped, conflict, changed);
      capOut := EnforceCap(wall);
      ResponseStep(old(View()), target, items, compatible, now, wall, outs, capOut, looped);
    }

    /** ApplyRelayDiscoveryResponse; of the two metadata lists only the lengths
        matter here. */
    method ApplyResponse(target: string, items: seq<Item>, incompatible: nat, releases: nat, compatible: bool,
                         now: Time, wall: Time)
      returns (e: ApplyError, changed: bool, ghost outs: seq<set<string>>, ghost capOut: set<string>)
      requires forall i :: 0 <= i < |items| ==> SignedOk(items[i])
      modifies this
      ensures e == TooLarge <==>
              |items| > MAX_ANNOUNCED + 1 || incompatible > MAX_ANNOUNCED || releases > MAX_ANNOUNCED
      ensures e == TooLarge ==> View() == old(View()) && !changed
      ensures e != TooLarge ==> Step(old(View()), Applied(target, items, compatible, now, wall, outs, capOut), View())
      ensures e != TooLarge ==> changed == InResponse(Changed(now), old(View()), target, items, compatible, now, outs)
      ensures e == Mismatch <==> e != TooLarge && target != "" && !compatible
      ensures e == TargetMissing <==>
              e !in {TooLarge, Mismatch} && target != "" && Missing(old(View()), target, items, now)
      ensures e == TargetConflicts <==>
        e !in {TooLarge, Mismatch, TargetMissing}
        && InResponse(Contradicted(now), old(View()), target, items, compatible, now, outs)
    {
      outs, capOut, changed := [], {}, false;
      if |items| > MAX_ANNOUNCED + 1 || incompatible > MAX_ANNOUNCED || releases > MAX_ANNOUNCED {
        return TooLarge, changed, outs, capOut;
      }
      var missing, conflict;
      missing, conflict, changed, outs, capOut := ApplyLocked(target, items, compatible, now, wall);
      e := if !compatible && target != "" then Mismatch
           else if target != "" && missing then TargetMissing
           else if conflict then TargetConflicts
           else Done;
    }
  }

  datatype ApplyError = Done | TooLarge | Mismatch | TargetMissing | TargetConflicts

  /** What one round did, from the book before it, the descriptor and whether it
      is the polled URL's own. */
  type RoundTest = (Book, Relay, bool) -> bool

  /** A signed contradiction from the polled URL itself. */
  function Contradicted(now: Time): RoundTest {
    (b: Book, found: Relay, direct: bool) => direct && Verdict(b, found.desc, now, true) == Conflicting
  }

  /** The round counts as a change of the set: a new or different entry, or the
      credit for being reached. */
  predicate RoundChanges(b: Book, found: Relay, direct: bool, now: Time) {
    var u, verdict := found.desc.url, Verdict(b, found.desc, now, direct);
    if verdict == Accepted then u !in b.relays || b.relays[u] != Discovered(b.relays, found, direct)
    else verdict != Conflicting && direct && u in b.relays && Troubled(b.relays[u])
  }

  function Changed(now: Time): RoundTest {
    (b: Book, found: Relay, direct: bool) => RoundChanges(b, found, direct, now)
  }

  ghost predicate RoundIs(test: RoundTest, b: Book, order: seq<string>, found: map<string, Relay>, target: string,
                          direct: bool,
                          now: Time, outs: seq<set<string>>, k: nat)
    requires k < |order| == |outs| && forall i :: 0 <= i < |order| ==> order[i] in found
  {
    test(IngestAll(b, order, found, target, direct, now, outs, k), found[order[k]], direct && order[k] == target)
  }

  /** The state of the second loop after n rounds. */
  ghost predicate Progress(b: Book, order: seq<string>, found: map<string, Relay>, target: string, direct: bool,
                           now: Time,
                           outs: seq<set<string>>, n: nat, view: Book, conflict: bool, changed: bool)
    requires n <= |order| == |outs| && forall i :: 0 <= i < |order| ==> order[i] in found
  {
    && view == IngestAll(b, order, found, target, direct, now, outs, n)
    && (forall k :: 0 <= k < n ==> RoundOk(b, order, found, target, direct, now, outs, k))
    && conflict == SomeRound(Contradicted(now), b, order, found, target, direct, now, outs, n)
    && changed == SomeRound(Changed(now), b, order, found, target, direct, now, outs, n)
  }

  lemma ProgressStep(b: Book, order: seq<string>, found: map<string, Relay>, target: string, direct: bool, now: Time,
                     outs: seq<set<string>>, n: nat, view: Book, conflict: bool, changed: bool, out: set<string>)
    requires n < |order| == |outs| && (forall i :: 0 <= i < |order| ==> order[i] in found)
    requires Progress(b, order, found, target, direct, now, outs, n, view, conflict, changed)
    requires var isTarget := direct && order[n] == target;
             OutOk(view, Discovered(view.relays, found[order[n]], isTarget), now, isTarget, out)
    ensures var f, isTarget := found[order[n]], direct && order[n] == target;
            Progress(b, order, found, target, direct, now, outs[n := out], n + 1, Ingest(view, f, isTarget, now, out).0,
                     conflict || Contradicted(now)(view, f, isTarget), changed || Changed(now)(view, f, isTarget))
  {
    var next := outs[n := out];
    RoundsAgree(b, order, found, target, direct, now, outs, next, n);
    SomeRoundAgrees(Contradicted(now), b, order, found, target, direct, now, outs, next, n);
    SomeRoundAgrees(Changed(now), b, order, found, target, direct, now, outs, next, n);
  }

  /** What the response's loop makes of the set, every eviction as the identity
      cap says. */
  ghost predicate LoopsTo(b0: Book, target: string, items: seq<Item>, compatible: bool, now: Time,
                          outs: seq<set<string>>, looped: Book) {
    var b := b0.(relays := ClearBans(b0.relays, now));
    var (order, found) := Discover(b.relays, items, target, now);
    var direct := Direct(b.relays, items, target, compatible, now);
    && |outs| == |order| && (forall i :: 0 <= i < |order| ==> order[i] in found)
    && OutsOk(b, order, found, target, direct, now, outs)
    && looped == IngestAll(b, order, found, target, direct, now, outs, |order|)
  }

  /** Both loops have been run over the response. */
  ghost predicate Responded(b0: Book, target: string, items: seq<Item>, compatible: bool, now: Time,
                            outs: seq<set<string>>, view: Book, conflict: bool, changed: bool) {
    var b := b0.(relays := ClearBans(b0.relays, now));
    var (order, found) := Discover(b.relays, items, target, now);
    && |outs| == |order| && (forall i :: 0 <= i < |order| ==> order[i] in found)
    && Progress(b, order, found, target, Direct(b.relays, items, target, compatible, now), now, outs, |order|,
                view, conflict, changed)
  }

  lemma RespondedMeans(b0: Book, target: string, items: seq<Item>, compatible: bool, now: Time,
                       outs: seq<set<string>>, view: Book, conflict: bool, changed: bool)
    requires Responded(b0, target, items, compatible, now, outs, view, conflict, changed)
    ensures LoopsTo(b0, target, items, compatible, now, outs, view)
    ensures conflict == InResponse(Contradicted(now), b0, target, items, compatible, now, outs)
    ensures changed == InResponse(Changed(now), b0, target, items, compatible, now, outs)
  {
  }

  /** The loop and the cap together are one step of the set. */
  lemma ResponseStep(b0: Book, target: string, items: seq<Item>, compatible: bool, now: Time, wall: Time,
                     outs: seq<set<string>>,
                     capOut: set<string>, looped: Book)
    requires forall i :: 0 <= i < |items| ==> SignedOk(items[i])
    requires LoopsTo(b0, target, items, compatible, now, outs, looped)
    requires CapEviction(ClearBans(looped.relays, wall), capOut)
    ensures Step(b0, Applied(target, items, compatible, now, wall, outs, capOut),
                 RelayBook.EnforceCap(looped, wall, capOut))
  {
  }

  ghost predicate SomeRound(test: RoundTest, b: Book, order: seq<string>, found: map<string, Relay>, target: string,
                            direct: bool,
                            now: Time, outs: seq<set<string>>, n: nat)
    requires n <= |order| == |outs| && forall i :: 0 <= i < |order| ==> order[i] in found
  {
    exists k :: 0 <= k < n && RoundIs(test, b, order, found, target, direct, now, outs, k)
  }

  /** Some round of the response did. */
  ghost predicate InResponse(test: RoundTest, b0: Book, target: string, items: seq<Item>, compatible: bool, now: Time,
                             outs: seq<set<string>>) {
    var b := b0.(relays := ClearBans(b0.relays, now));
    var (order, found) := Discover(b.relays, items, target, now);
    && |outs| == |order| && (forall i :: 0 <= i < |order| ==> order[i] in found)
    && SomeRound(test, b, order, found, target, Direct(b.relays, items, target, compatible, now), now, outs, |order|)
  }

  /** The response has no admissible descriptor of the polled URL. */
  predicate Missing(b: Book, target: string, items: seq<Item>, now: Time) {
    target !in Discover(ClearBans(b.relays, now), items, target, now).1
  }

  lemma SomeRoundAgrees(test: RoundTest, b: Book, order: seq<string>, found: map<string, Relay>, target: string,
                        direct: bool,
                        now: Time, outs: seq<set<string>>, outs': seq<set<string>>, n: nat)
    requires n < |order| == |outs| == |outs'| && outs' == outs[n := outs'[n]]
    requires forall i :: 0 <= i < |order| ==> order[i] in found
    ensures SomeRound(test, b, order, found, target, direct, now, outs', n + 1) ==
            (SomeRound(test, b, order, found, target, direct, now, outs, n)
             || RoundIs(test, b, order, found, target, direct, now, outs, n))
  {
    forall k | 0 <= k <= n
      ensures RoundIs(test, b, order, found, target, direct, now, outs', k) ==
              RoundIs(test, b, order, found, target, direct, now, outs, k)
    {
      assert outs[..k] == outs'[..k];
      IngestAllAgrees(b, order, found, target, direct, now, outs, outs', k);
    }
  }

  /** Rounds read only the evictions made so far. */
  lemma {:induction false} IngestAllAgrees(b: Book, order: seq<string>, found: map<string, Relay>, target: string,
                                           direct: bool, now: Time,
                                           outs: seq<set<string>>, outs': seq<set<string>>, n: nat)
    requires n <= |order| == |outs| == |outs'| && outs[..n] == outs'[..n]
    requires forall i :: 0 <= i < |order| ==> order[i] in found
    ensures IngestAll(b, order, found, target, direct, now, outs, n) ==
            IngestAll(b, order, found, target, direct, now, outs', n)
  {
    if n > 0 {
      assert outs[..n][..n - 1] == outs[..n - 1] && outs'[..n][..n - 1] == outs'[..n - 1];
      assert outs[n - 1] == outs[..n][n - 1] == outs'[..n][n - 1] == outs'[n - 1];
      IngestAllAgrees(b, order, found, target, direct, now, outs, outs', n - 1);
    }
  }

  lemma RoundAgrees(b: Book, order: seq<string>, found: map<string, Relay>, target: string, direct: bool, now: Time,
                    outs: seq<set<string>>, outs': seq<set<string>>, k: nat)
    requires k < |order| == |outs| == |outs'| && outs[..k + 1] == outs'[..k + 1]
    requires forall i :: 0 <= i < |order| ==> order[i] in found
    requires RoundOk(b, order, found, target, direct, now, outs, k)
    ensures RoundOk(b, order, found, target, direct, now, outs', k)
  {
    assert outs[..k + 1][..k] == outs[..k] && outs'[..k + 1][..k] == outs'[..k];
    assert outs[k] == outs[..k + 1][k] == outs'[..k + 1][k] == outs'[k];
    IngestAllAgrees(b, order, found, target, direct, now, outs, outs', k);
  }

  lemma RoundsAgree(b: Book, order: seq<string>, found: map<string, Relay>, target: string, direct: bool, now: Time,
                    outs: seq<set<string>>, outs': seq<set<string>>, n: nat)
    requires n < |order| == |outs| == |outs'| && outs' == outs[n := outs'[n]]
    requires forall i :: 0 <= i < |order| ==> order[i] in found
    requires forall k :: 0 <= k < n ==> RoundOk(b, order, found, target, direct, now, outs, k)
    requires var b1 := IngestAll(b, order, found, target, direct, now, outs, n);
             OutOk(b1, Discovered(b1.relays, found[order[n]], direct && order[n] == target), now,
                   direct && order[n] == target, outs'[n])
    ensures forall k :: 0 <= k <= n ==> RoundOk(b, order, found, target, direct, now, outs', k)
    ensures IngestAll(b, order, found, target, direct, now, outs', n) ==
            IngestAll(b, order, found, target, direct, now, outs, n)
  {
    IngestAllAgrees(b, order, found, target, direct, now, outs, outs', n);
    forall k | 0 <= k < n ensures RoundOk(b, order, found, target, direct, now, outs', k) {
      assert outs[..k + 1] == outs'[..k + 1];
      RoundAgrees(b, order, found, target, direct, now, outs, outs', k);
    }
  }

  lemma BackoffIsPositive(over: nat)
    ensures RECOVERY_BACKOFF <= Backoff(over) <= MAX_RECOVERY_BACKOFF
  {
    var k: nat := if over < 3 then over else 3;
    assert Doubled(0) == 1 && Doubled(1) == 2 && Doubled(2) == 4 && Doubled(3) == 8;
    assert k == 0 || k == 1 || k == 2 || k == 3;
  }
}
