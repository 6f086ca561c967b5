/** Whom a direct poll credits: the loop of ApplyRelayDiscoveryResponse in
    portal/discovery/relayset.go, for the polled URL itself. */
module RelayCredit {
  import opened Identity
  import opened RelayState
  import opened RelayBook
  import opened RelayRuns
  import opened RelayTrust
  import opened RelayClock

  /** u was not verified, and now is, as another identity than the one at
      `address`. */
  ghost predicate Credits(relays: map<string, Relay>, relays': map<string, Relay>, u: string, address: string) {
    IsVerified(relays', u) && relays'[u].desc.address != address && !IsVerified(relays, u)
  }

  /** Another identity holds the URL of d as a candidate in trouble. */
  predicate OtherTroubled(relays: map<string, Relay>, d: Descriptor) {
    d.url in relays && !relays[d.url].verified && relays[d.url].desc.address != d.address && Troubled(relays[d.url])
  }

  /** The anchors make d a rollback at `now`. */
  predicate Meets(anchors: map<string, Anchor>, d: Descriptor, now: Time) {
    RollsBack(FreshAnchors(anchors, d.address, now), d)
  }

  /** d is turned down by what is on file for its URL. */
  predicate Opposed(relays: map<string, Relay>, d: Descriptor, now: Time) {
    Contradicts(relays, d) || TakeoverBlocked(relays, d, now)
  }

  /** f is a newer statement of d's identity, and nothing on file opposes it. */
  predicate Outdoes(relays: map<string, Relay>, f: Descriptor, d: Descriptor, now: Time) {
    f.address == d.address && d.issuedAt < f.issuedAt && !Opposed(relays, f, now)
  }

  // ---------------------------------------------------------------- one round

  predicate NotBanned(relays: map<string, Relay>, u: string) { u in relays ==> !relays[u].banned }

  /** The round of the polled URL. */
  lemma RoundCredits(b: Book, found: Relay, now: Time, out: set<string>)
    requires found.desc.url != "" && found.desc.address != "" && NotBanned(b.relays, found.desc.url)
    ensures Credits(b.relays, Ingest(b, found, true, now, out).0.relays, found.desc.url, found.desc.address) <==>
            OtherTroubled(b.relays, found.desc) && Meets(b.anchors, found.desc, now)
    ensures Credits(b.relays, Ingest(b, found, true, now, out).0.relays, found.desc.url, found.desc.address) ==>
              !Ingest(b, found, true, now, out).0.relays[found.desc.url].banned
  {
  }

  /** A round of another URL makes d a rollback exactly when it states something
      newer of the same identity and nothing on file opposes it. */
  lemma RoundRaises(b: Book, found: Relay, now: Time, out: set<string>, d: Descriptor)
    requires found.desc.url != "" && found.desc.address != "" && Fresh(found.desc, now)
    requires NotBanned(b.relays, found.desc.url)
    ensures Meets(Ingest(b, found, false, now, out).0.anchors, d, now) <==>
            Meets(b.anchors, d, now) || Outdoes(b.relays, found.desc, d, now)
  {
    var f, anchors := found.desc, b.anchors;
    var after := UpsertDescriptor(b, Discovered(b.relays, found, false), now, false, out).0.anchors;
    if f.address != d.address {
      assert d.address in after <==> d.address in anchors;
      assert d.address in anchors ==> after[d.address] == anchors[d.address];
    }
  }

  // ---------------------------------------------------------------- the rounds before

  /** One of the first n rounds evicted w. */
  ghost predicate Evicted(outs: seq<set<string>>, n: nat, w: string)
    requires n <= |outs|
  {
    exists j :: 0 <= j < n && w in outs[j]
  }

  /** What is on file for a URL whose turn has not come is what was before, unless
      it was evicted. */
  lemma {:induction false} WaitingEntry(b: Book, order: seq<string>, found: map<string, Relay>, target: string,
                                        direct: bool,
                                        now: Time, outs: seq<set<string>>, n: nat, w: string)
    requires n <= |order| == |outs| && (forall i :: 0 <= i < |order| ==> order[i] in found) && FoundOk(found, now)
    requires w !in order[..n]
    requires forall i :: 0 <= i < n ==> RoundOk(b, order, found, target, direct, now, outs, i)
    ensures var m := IngestAll(b, order, found, target, direct, now, outs, n).relays;
            && (w in m <==> w in b.relays && !Evicted(outs, n, w))
            && (w in m ==> m[w] == b.relays[w])
  {
    if n > 0 {
      var k := n - 1;
      assert order[..n] == order[..k] + [order[k]];
      WaitingEntry(b, order, found, target, direct, now, outs, k, w);
      WaitingRound(b, order, found, target, direct, now, outs, k, w);
      EvictedOneMore(outs, k, w);
    }
  }

  lemma EvictedOneMore(outs: seq<set<string>>, k: nat, w: string)
    requires k < |outs|
    ensures Evicted(outs, k + 1, w) <==> Evicted(outs, k, w) || w in outs[k]
  {
  }

  lemma WaitingRound(b: Book, order: seq<string>, found: map<string, Relay>, target: string, direct: bool, now: Time,
                     outs: seq<set<string>>, k: nat, w: string)
    requires k < |order| == |outs| && (forall i :: 0 <= i < |order| ==> order[i] in found) && FoundOk(found, now)
    requires w != order[k] && RoundOk(b, order, found, target, direct, now, outs, k)
    ensures var m := IngestAll(b, order, found, target, direct, now, outs, k).relays;
            var m' := IngestAll(b, order, found, target, direct, now, outs, k + 1).relays;
            (w in m' <==> w in m && w !in outs[k]) && (w in m' ==> m'[w] == m[w])
  {
    OtherEntryWaits(IngestAll(b, order, found, target, direct, now, outs, k), found[order[k]],
                    direct && order[k] == target, now, outs[k], w);
  }

  lemma OtherEntryWaits(b: Book, found: Relay, direct: bool, now: Time, out: set<string>, w: string)
    requires found.desc.url != w && OutOk(b, Discovered(b.relays, found, direct), now, direct, out)
    ensures var m := Ingest(b, found, direct, now, out).0.relays;
            (w in m <==> w in b.relays && w !in out) && (w in m ==> m[w] == b.relays[w])
  {
  }

  lemma OpposedAsBefore(before: map<string, Relay>, relays: map<string, Relay>, f: Descriptor, now: Time)
    requires f.url in relays ==> f.url in before && relays[f.url] == before[f.url]
    ensures Opposed(relays, f, now) <==> f.url in relays && Opposed(before, f, now)
  {
  }

  /** Round j states something newer of d's identity, and nothing on file opposes
      it, or what did was evicted before. */
  ghost predicate Raises(relays: map<string, Relay>, order: seq<string>, found: map<string, Relay>, now: Time,
                         outs: seq<set<string>>, j: nat, d: Descriptor)
    requires j < |order| == |outs| && forall i :: 0 <= i < |order| ==> order[i] in found
  {
    var f := found[order[j]].desc;
    && f.address == d.address && d.issuedAt < f.issuedAt
    && (Opposed(relays, f, now) ==> Evicted(outs, j, order[j]))
  }

  lemma RoundRaisesAt(b: Book, order: seq<string>, found: map<string, Relay>, target: string, direct: bool, now: Time,
                      outs: seq<set<string>>, k: nat, d: Descriptor)
    requires k < |order| == |outs| && (forall i :: 0 <= i < |order| ==> order[i] in found) && FoundOk(found, now)
    requires order[k] !in order[..k] && order[k] != target && NotBanned(b.relays, order[k])
    requires forall i :: 0 <= i < k ==> RoundOk(b, order, found, target, direct, now, outs, i)
    ensures Meets(IngestAll(b, order, found, target, direct, now, outs, k + 1).anchors, d, now) <==>
            || Meets(IngestAll(b, order, found, target, direct, now, outs, k).anchors, d, now)
            || Raises(b.relays, order, found, now, outs, k, d)
  {
    WaitingEntry(b, order, found, target, direct, now, outs, k, order[k]);
    var m := IngestAll(b, order, found, target, direct, now, outs, k);
    RoundRaises(m, found[order[k]], now, outs[k], d);
    OpposedAsBefore(b.relays, m.relays, found[order[k]].desc, now);
  }

  /** The rounds before that of the polled URL: d has become a rollback exactly
      when it was one before the call, or one of them raised its anchor. */
  lemma {:induction false} RoundsRaise(b: Book, order: seq<string>, found: map<string, Relay>, target: string,
                                       direct: bool, now: Time,
                                       outs: seq<set<string>>, n: nat, d: Descriptor)
    requires n <= |order| == |outs| && (forall i :: 0 <= i < |order| ==> order[i] in found) && FoundOk(found, now)
    requires (forall i, j :: 0 <= i < j < |order| ==> order[i] != order[j]) && target !in order[..n]
    requires forall i :: 0 <= i < |order| ==> NotBanned(b.relays, order[i])
    requires forall i :: 0 <= i < n ==> RoundOk(b, order, found, target, direct, now, outs, i)
    ensures Meets(IngestAll(b, order, found, target, direct, now, outs, n).anchors, d, now) <==>
            || Meets(b.anchors, d, now)
            || exists j :: 0 <= j < n && Raises(b.relays, order, found, now, outs, j, d)
  {
    if n > 0 {
      var k := n - 1;
      assert order[..n] == order[..k] + [order[k]];
      RoundsRaise(b, order, found, target, direct, now, outs, k, d);
      RoundRaisesAt(b, order, found, target, direct, now, outs, k, d);
    }
  }

  // ---------------------------------------------------------------- the rounds after

  /** The entry of u, if it is verified. */
  ghost function Trusted(relays: map<string, Relay>, u: string): Option<Relay> {
    if IsVerified(relays, u) then Some(relays[u]) else None
  }

  lemma OtherRoundKeepsTrust(b: Book, found: Relay, now: Time, out: set<string>, u: string)
    requires found.desc.url != u && OutOk(b, Discovered(b.relays, found, false), now, false, out)
    ensures Trusted(Ingest(b, found, false, now, out).0.relays, u) == Trusted(b.relays, u)
  {
  }

  lemma LaterRoundKeepsTrust(b: Book, order: seq<string>, found: map<string, Relay>, target: string, direct: bool,
                             now: Time, outs: seq<set<string>>, n: nat)
    requires n < |order| == |outs| && (forall i :: 0 <= i < |order| ==> order[i] in found) && FoundOk(found, now)
    requires order[n] != target && OutsOk(b, order, found, target, direct, now, outs)
    ensures Trusted(IngestAll(b, order, found, target, direct, now, outs, n + 1).relays, target) ==
            Trusted(IngestAll(b, order, found, target, direct, now, outs, n).relays, target)
  {
    RoundOkAt(b, order, found, target, direct, now, outs, n);
    OtherRoundKeepsTrust(IngestAll(b, order, found, target, direct, now, outs, n), found[order[n]], now, outs[n],
                         target);
  }

  lemma {:induction false} Constant<T>(f: nat -> T, k: nat, n: nat)
    requires k <= n && forall i :: k <= i < n ==> f(i + 1) == f(i)
    ensures f(n) == f(k)
  {
    if k < n {
      Constant(f, k, n - 1);
      assert f(n - 1 + 1) == f(n - 1);
    }
  }

  /** f gives what is verified for the polled URL after each number of rounds. */
  ghost predicate Follows(b: Book, order: seq<string>, found: map<string, Relay>, target: string, direct: bool,
                          now: Time, outs: seq<set<string>>, f: nat -> Option<Relay>)
    requires |order| == |outs| && forall i :: 0 <= i < |order| ==> order[i] in found
  {
    forall n: nat {:trigger f(n)} :: n <= |order| ==>
      f(n) == Trusted(IngestAll(b, order, found, target, direct, now, outs, n).relays, target)
  }

  lemma LaterRoundsAreSteady(b: Book, order: seq<string>, found: map<string, Relay>, target: string, direct: bool,
                             now: Time, outs: seq<set<string>>, k: nat, f: nat -> Option<Relay>)
    requires |order| == |outs| && (forall i :: 0 <= i < |order| ==> order[i] in found) && FoundOk(found, now)
    requires (forall i :: k < i < |order| ==> order[i] != target) && OutsOk(b, order, found, target, direct, now, outs)
    requires Follows(b, order, found, target, direct, now, outs, f)
    ensures forall i :: k < i < |order| ==> f(i + 1) == f(i)
  {
    forall i | k < i < |order| ensures f(i + 1) == f(i) {
      LaterRoundKeepsTrust(b, order, found, target, direct, now, outs, i);
    }
  }

  lemma LaterRoundsKeepTrust(b: Book, order: seq<string>, found: map<string, Relay>, target: string, direct: bool,
                             now: Time, outs: seq<set<string>>, k: nat, f: nat -> Option<Relay>)
    requires k < |order| == |outs| && (forall i :: 0 <= i < |order| ==> order[i] in found) && FoundOk(found, now)
    requires (forall i :: k < i < |order| ==> order[i] != target) && OutsOk(b, order, found, target, direct, now, outs)
    requires Follows(b, order, found, target, direct, now, outs, f)
    ensures f(|order|) == f(k + 1)
  {
    LaterRoundsAreSteady(b, order, found, target, direct, now, outs, k, f);
    Constant(f, k + 1, |order|);
  }

  // ---------------------------------------------------------------- the whole poll

  /** The round of a URL. */
  function TurnOf(order: seq<string>, u: string): (k: nat)
    requires u in order
    ensures k < |order| && order[k] == u
  {
    if order[0] == u then 0 else 1 + TurnOf(order[1..], u)
  }

  /** Before the polled URL's round d becomes a rollback, and the troubled
      candidate is not evicted. */
  ghost predicate Misses(b: Book, order: seq<string>, found: map<string, Relay>, target: string, now: Time,
                         outs: seq<set<string>>, k: nat)
    requires k < |order| == |outs| && (forall i :: 0 <= i < |order| ==> order[i] in found) && target in found
  {
    var d := found[target].desc;
    && OtherTroubled(b.relays, d)
    && !Evicted(outs, k, target)
    && (Meets(b.anchors, d, now) || exists j :: 0 <= j < k && Raises(b.relays, order, found, now, outs, j, d))
  }

  lemma TrustFollows(b: Book, order: seq<string>, found: map<string, Relay>, target: string, direct: bool, now: Time,
                     outs: seq<set<string>>) returns (f: nat -> Option<Relay>)
    requires |order| == |outs| && forall i :: 0 <= i < |order| ==> order[i] in found
    ensures Follows(b, order, found, target, direct, now, outs, f)
  {
    f := (n: nat) =>
      if n <= |order| then Trusted(IngestAll(b, order, found, target, direct, now, outs, n).relays, target) else None;
  }

  lemma LoopKeepsTrust(b: Book, order: seq<string>, found: map<string, Relay>, target: string, now: Time,
                       outs: seq<set<string>>, k: nat)
    requires k < |order| == |outs| && (forall i :: 0 <= i < |order| ==> order[i] in found) && FoundOk(found, now)
    requires (forall i :: k < i < |order| ==> order[i] != target) && OutsOk(b, order, found, target, true, now, outs)
    ensures Trusted(IngestAll(b, order, found, target, true, now, outs, |order|).relays, target) ==
            Trusted(IngestAll(b, order, found, target, true, now, outs, k + 1).relays, target)
  {
    var f := TrustFollows(b, order, found, target, true, now, outs);
    LaterRoundsKeepTrust(b, order, found, target, true, now, outs, k, f);
    assert f(|order|) == f(k + 1);
  }

  /** The round of the polled URL, after those before it. */
  lemma TurnCredits(b: Book, order: seq<string>, found: map<string, Relay>, target: string, now: Time,
                    outs: seq<set<string>>, k: nat)
    requires k < |order| == |outs| && (forall i :: 0 <= i < |order| ==> order[i] in found) && FoundOk(found, now)
    requires (forall i, j :: 0 <= i < j < |order| ==> order[i] != order[j]) && order[k] == target
    requires OutsOk(b, order, found, target, true, now, outs)
    requires forall i :: 0 <= i < |order| ==> NotBanned(b.relays, order[i])
    ensures var after := IngestAll(b, order, found, target, true, now, outs, k + 1).relays;
            && (Credits(b.relays, after, target, found[target].desc.address) <==>
                Misses(b, order, found, target, now, outs, k))
            && (Credits(b.relays, after, target, found[target].desc.address) ==> !after[target].banned)
  {
    WaitingEntry(b, order, found, target, true, now, outs, k, target);
    RoundsRaise(b, order, found, target, true, now, outs, k, found[target].desc);
    RoundCredits(IngestAll(b, order, found, target, true, now, outs, k), found[target], now, outs[k]);
  }

  lemma CreditsByTrust(relays: map<string, Relay>, m: map<string, Relay>, m': map<string, Relay>, u: string,
                       address: string)
    requires Trusted(m', u) == Trusted(m, u)
    ensures Credits(relays, m', u, address) <==> Credits(relays, m, u, address)
    ensures Credits(relays, m, u, address) ==> m'[u] == m[u]
  {
  }

  lemma LoopCredits(b: Book, order: seq<string>, found: map<string, Relay>, target: string, now: Time,
                    outs: seq<set<string>>, k: nat, after: map<string, Relay>)
    requires k < |order| == |outs| && (forall i :: 0 <= i < |order| ==> order[i] in found) && FoundOk(found, now)
    requires (forall i, j :: 0 <= i < j < |order| ==> order[i] != order[j]) && order[k] == target
    requires OutsOk(b, order, found, target, true, now, outs)
    requires forall i :: 0 <= i < |order| ==> NotBanned(b.relays, order[i])
    requires after == IngestAll(b, order, found, target, true, now, outs, |order|).relays
    ensures Credits(b.relays, after, target, found[target].desc.address) <==>
            Misses(b, order, found, target, now, outs, k)
    ensures Credits(b.relays, after, target, found[target].desc.address) ==> !after[target].banned
  {
    TurnCredits(b, order, found, target, now, outs, k);
    LoopKeepsTrust(b, order, found, target, now, outs, k);
    CreditsByTrust(b.relays, IngestAll(b, order, found, target, true, now, outs, k + 1).relays, after, target,
                   found[target].desc.address);
  }

  lemma CapKeepsCredit(b: Book, wall: Time, out: set<string>, relays: map<string, Relay>, u: string, address: string)
    requires Credits(relays, b.relays, u, address) ==> !b.relays[u].banned
    ensures Credits(relays, EnforceCap(b, wall, out).relays, u, address) <==>
            Credits(relays, b.relays, u, address) && u !in out
  {
  }

  function Lifted(b: Book, now: Time): Book { b.(relays := ClearBans(b.relays, now)) }

  /** The descriptor of u in the response of a direct poll of u. */
  ghost function Answer(b: Book, e: Event, u: string): Descriptor
    requires Polls(b, e, u)
  {
    Discover(ClearBans(b.relays, e.now), e.items, u, e.now).1[u].desc
  }

  /** The condition, on the book before the poll and the response: another
      identity holds u as a candidate in trouble; the answer is older than what
      was accepted from its identity, before the call or from an item ahead of it
      in the response that nothing on file opposes, or whose opponent an earlier
      round evicted; and neither cap evicts u. */
  ghost predicate Misplaced(b: Book, e: Event, u: string)
    requires Enabled(b, e) && Polls(b, e, u)
  {
    var b1 := Lifted(b, e.now);
    var (order, found) := Discover(b1.relays, e.items, u, e.now);
    DiscoverResult(b1.relays, e.items, u, e.now);
    Misses(b1, order, found, u, e.now, e.outs, TurnOf(order, u)) && u !in e.capOut
  }

  lemma AdmittedAreNotBanned(relays: map<string, Relay>, items: seq<Item>, target: string, now: Time)
    ensures var order := Discover(relays, items, target, now).0;
            forall i :: 0 <= i < |order| ==> NotBanned(relays, order[i])
  {
    DiscoverResult(relays, items, target, now);
    var (order, found) := Discover(relays, items, target, now);
    forall i | 0 <= i < |order| ensures NotBanned(relays, order[i]) {
      assert FromItems(relays, items, target, now, order[i], found[order[i]]);
    }
  }

  lemma PollLoopCredits(b: Book, e: Event, u: string, m: Book)
    requires Enabled(b, e) && Polls(b, e, u) && m == Looped(b, u, e.items, e.compatible, e.now, e.outs)
    ensures Credits(Lifted(b, e.now).relays, m.relays, u, Answer(b, e, u).address) && u !in e.capOut <==>
            Misplaced(b, e, u)
    ensures Credits(Lifted(b, e.now).relays, m.relays, u, Answer(b, e, u).address) ==> !m.relays[u].banned
  {
    var b1 := Lifted(b, e.now);
    DiscoverResult(b1.relays, e.items, u, e.now);
    FoundAreSigned(b1.relays, e.items, u, e.now);
    AdmittedAreNotBanned(b1.relays, e.items, u, e.now);
    var (order, found) := Discover(b1.relays, e.items, u, e.now);
    LoopCredits(b1, order, found, u, e.now, e.outs, TurnOf(order, u), m.relays);
  }

  /** Exactly when a direct poll of u leaves u newly verified as an identity that
      is not the one that answered. */
  lemma PollCreditsAnother(b: Book, e: Event, b': Book, u: string)
    requires Step(b, e, b') && Polls(b, e, u)
    ensures Credits(Lifted(b, e.now).relays, b'.relays, u, Answer(b, e, u).address) <==> Misplaced(b, e, u)
  {
    var m := Looped(b, u, e.items, e.compatible, e.now, e.outs);
    PollLoopCredits(b, e, u, m);
    CapKeepsCredit(m, e.wall, e.capOut, Lifted(b, e.now).relays, u, Answer(b, e, u).address);
    assert b' == EnforceCap(m, e.wall, e.capOut);
  }

  /** An item ahead of u in the response outdoes d. */
  ghost predicate OutdoneBy(relays: map<string, Relay>, items: seq<Item>, u: string, now: Time, d: Descriptor) {
    var (order, found) := Discover(relays, items, u, now);
    && u in order && (forall j :: 0 <= j < |order| ==> order[j] in found)
    && exists j :: 0 <= j < TurnOf(order, u) && Outdoes(relays, found[order[j]].desc, d, now)
  }

  lemma UncrowdedRounds(b: Book, order: seq<string>, found: map<string, Relay>, target: string, now: Time,
                        outs: seq<set<string>>, k: nat)
    requires k < |order| == |outs| && (forall i :: 0 <= i < |order| ==> order[i] in found) && FoundOk(found, now)
    requires (forall i, j :: 0 <= i < j < |order| ==> order[i] != order[j]) && order[k] == target
    requires forall j :: 0 <= j < |outs| ==> outs[j] == {}
    ensures Misses(b, order, found, target, now, outs, k) <==>
            && OtherTroubled(b.relays, found[target].desc)
            && (Meets(b.anchors, found[target].desc, now)
                || exists j :: 0 <= j < k && Outdoes(b.relays, found[order[j]].desc, found[target].desc, now))
  {
    assert forall j, w :: 0 <= j <= k ==> !Evicted(outs, j, w);
    forall j | 0 <= j < k
      ensures Raises(b.relays, order, found, now, outs, j, found[target].desc) ==
              Outdoes(b.relays, found[order[j]].desc, found[target].desc, now)
    {
      assert !Evicted(outs, j, order[j]);
    }
  }

  /** When no identity is over its cap, the condition is one on the book before
      the poll and the response alone. */
  lemma UncrowdedCondition(b: Book, e: Event, u: string)
    requires Enabled(b, e) && Polls(b, e, u) && (forall j :: 0 <= j < |e.outs| ==> e.outs[j] == {})
    ensures Misplaced(b, e, u) <==>
            && OtherTroubled(Lifted(b, e.now).relays, Answer(b, e, u)) && u !in e.capOut
            && (Meets(b.anchors, Answer(b, e, u), e.now)
                || OutdoneBy(Lifted(b, e.now).relays, e.items, u, e.now, Answer(b, e, u)))
  {
    var b1 := Lifted(b, e.now);
    DiscoverResult(b1.relays, e.items, u, e.now);
    FoundAreSigned(b1.relays, e.items, u, e.now);
    var (order, found) := Discover(b1.relays, e.items, u, e.now);
    UncrowdedRounds(b1, order, found, u, e.now, e.outs, TurnOf(order, u));
  }

  // ---------------------------------------------------------------- it does happen

  /** "b" announces u and a discovery poll of u fails. */
  lemma ExampleStart() returns (es: seq<Event>, bs: seq<Book>)
    ensures Run({}, es, bs) && |es| == 2 && "a" !in bs[2].anchors
    ensures bs[2].relays == map["u" := FIRST.(discoveryFailures := 1, unhealthySince := START)]
  {
    es, bs := [], [Bootstrapped({})];
    var b1 := Announced();
    RunGrows({}, es, bs, Insert(Stated("u", "b", START), START), b1);
    es, bs := es + [Insert(Stated("u", "b", START), START)], bs + [b1];
    var b2 := Failed(b1);
    RunGrows({}, es, bs, DiscoveryFailed("u", 0, START), b2);
    es, bs := es + [DiscoveryFailed("u", 0, START)], bs + [b2];
  }

  /** Then "a" announces v. */
  lemma ExampleMiddle() returns (es: seq<Event>, bs: seq<Book>)
    ensures Run({}, es, bs) && |es| == 3 && Small(bs[3].relays)
    ensures "u" in bs[3].relays && bs[3].relays["u"] == FIRST.(discoveryFailures := 1, unhealthySince := START)
    ensures "a" in bs[3].anchors && bs[3].anchors["a"] == Anchor(START, START + ANNOUNCE_MAX_VALIDITY)
  {
    es, bs := ExampleStart();
    var b3 := AlsoAnnounced(bs[2]);
    RunGrows({}, es, bs, Insert(Stated("v", "a", START), START), b3);
    es, bs := es + [Insert(Stated("v", "a", START), START)], bs + [b3];
  }

  /** Then a poll of u answers with an older statement of "a", and the candidate
      "b" is credited. */
  lemma PollCreditsAnotherExample() returns (es: seq<Event>, bs: seq<Book>)
    ensures Run({}, es, bs) && |es| == 4 && Polls(bs[3], es[3], "u") && Answer(bs[3], es[3], "u").address == "a"
    ensures !IsVerified(bs[3].relays, "u") && IsVerified(bs[4].relays, "u") && bs[4].relays["u"].desc.address == "b"
  {
    es, bs := ExampleMiddle();
    var b4 := Polled(bs[3]);
    RunGrows({}, es, bs, POLL, b4);
    es, bs := es + [POLL], bs + [b4];
  }

  const POLL := Applied("u", [Stated("u", "a", START - HOUR)], true, START, START, [{}], {})

  const FIRST := FromItem(Stated("u", "b", START), START)

  lemma Announced() returns (b1: Book)
    ensures Step(Bootstrapped({}), Insert(Stated("u", "b", START), START), b1)
    ensures b1.relays == map["u" := FIRST] && "a" !in b1.anchors
  {
    var b0, i := Bootstrapped({}), Stated("u", "b", START);
    assert b0.relays == map[];
    InsertIsEnabled(b0, i, START);
    InsertResult(b0, i, START);
    b1 := InsertCandidate(b0, i, START, START, {}, {}).0;
  }

  lemma Failed(b1: Book) returns (b2: Book)
    requires b1.relays == map["u" := FIRST]
    ensures Step(b1, DiscoveryFailed("u", 0, START), b2)
    ensures b2.relays == map["u" := FIRST.(discoveryFailures := 1, unhealthySince := START)] && b2.anchors == b1.anchors
  {
    assert ClearBans(b1.relays, START) == b1.relays;
    b2 := Next(b1, DiscoveryFailed("u", 0, START));
  }

  lemma AlsoAnnounced(b2: Book) returns (b3: Book)
    requires b2.relays.Keys == {"u"} && !b2.relays["u"].banned && "a" !in b2.anchors
    ensures Step(b2, Insert(Stated("v", "a", START), START), b3)
    ensures b3.relays == b2.relays["v" := FromItem(Stated("v", "a", START), START)] && Small(b3.relays)
    ensures "a" in b3.anchors && b3.anchors["a"] == Anchor(START, START + ANNOUNCE_MAX_VALIDITY)
  {
    var i := Stated("v", "a", START);
    InsertIsEnabled(b2, i, START);
    InsertResult(b2, i, START);
    b3 := InsertCandidate(b2, i, START, START, {}, {}).0;
  }

  lemma PollDiscovers(b: Book)
    requires Small(b.relays)
    ensures ClearBans(b.relays, START) == b.relays
    ensures Discover(b.relays, POLL.items, "u", START) == (["u"], map["u" := FromItem(POLL.items[0], START)])
  {
    SmallEvictsNothing(b.relays, "", START);
    DiscoverOne(b.relays, Stated("u", "a", START - HOUR), "u", START);
  }

  lemma DiscoverOne(relays: map<string, Relay>, i: Item, target: string, now: Time)
    requires Admissible(relays, i, target, now)
    ensures Discover(relays, [i], target, now) == ([i.desc.url], map[i.desc.url := FromItem(i, now)])
  {
    assert [i][..0] == [];
    assert Discover(relays, [i][..0], target, now) == ([], map[]);
    assert [] + [i.desc.url] == [i.desc.url];
  }

  /** The one round of the poll. */
  ghost function PollRound(b: Book): Book { Ingest(b, FromItem(POLL.items[0], START), true, START, {}).0 }

  lemma PollLoops(b: Book)
    requires Small(b.relays) && "u" in b.relays && Meets(b.anchors, POLL.items[0].desc, START)
    requires b.relays["u"].desc.address == "b"
    ensures Looped(b, "u", POLL.items, true, START, [{}]) == PollRound(b) && Small(PollRound(b).relays)
    ensures "u" in PollRound(b).relays && PollRound(b).relays["u"].desc.address == "b"
  {
    PollDiscovers(b);
    var found := map["u" := FromItem(POLL.items[0], START)];
    assert IngestAll(b, ["u"], found, "u", true, START, [{}], 0) == b;
    assert IngestAll(b, ["u"], found, "u", true, START, [{}], 1) == PollRound(b);
    assert PollRound(b).relays.Keys == b.relays.Keys;
  }

  lemma PollRoundOk(b: Book)
    requires Meets(b.anchors, POLL.items[0].desc, START) && "u" in b.relays && b.relays["u"].desc.address == "b"
    ensures OutsOk(b, ["u"], map["u" := FromItem(POLL.items[0], START)], "u", true, START, [{}])
  {
    var found := map["u" := FromItem(POLL.items[0], START)];
    assert IngestAll(b, ["u"], found, "u", true, START, [{}], 0) == b;
  }

  lemma PollIsEnabled(b: Book)
    requires Small(b.relays) && "u" in b.relays && Meets(b.anchors, POLL.items[0].desc, START)
    requires b.relays["u"].desc.address == "b"
    ensures Enabled(b, POLL) && Polls(b, POLL, "u") && Answer(b, POLL, "u") == POLL.items[0].desc
    ensures "u" in Next(b, POLL).relays ==> Next(b, POLL).relays["u"].desc.address == "b"
  {
    PollDiscovers(b);
    PollLoops(b);
    PollRoundOk(b);
    SmallEvictsNothing(PollRound(b).relays, "", START);
  }

  lemma Polled(b3: Book) returns (b4: Book)
    requires Small(b3.relays) && "u" in b3.relays
    requires b3.relays["u"] == FIRST.(discoveryFailures := 1, unhealthySince := START)
    requires "a" in b3.anchors && b3.anchors["a"] == Anchor(START, START + ANNOUNCE_MAX_VALIDITY)
    ensures Step(b3, POLL, b4) && Polls(b3, POLL, "u") && Answer(b3, POLL, "u").address == "a"
    ensures IsVerified(b4.relays, "u") && b4.relays["u"].desc.address == "b"
  {
    PollIsEnabled(b3);
    b4 := Next(b3, POLL);
    SmallEvictsNothing(b3.relays, "", START);
    UncrowdedCondition(b3, POLL, "u");
    PollCreditsAnother(b3, POLL, b4, "u");
  }
}
