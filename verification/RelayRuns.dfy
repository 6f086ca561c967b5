/** What the relay set keeps over every run of its operations. */
module RelayRuns {
  import opened Identity
  import opened RelayState
  import opened RelayBook

  datatype Event =
    | Inserted(item: Item, now: Time, wall: Time, out: set<string>, capOut: set<string>)
    | Applied(target: string, items: seq<Item>, compatible: bool, now: Time, wall: Time, outs: seq<set<string>>,
              capOut: set<string>)
    | Banned(url: string)
    | Allowed(url: string)
    | Deactivated(url: string, now: Time)
    | Ensured(url: string)
    | Measured(url: string, rtt: int, at: Time)
    | DiscoveryFailed(url: string, budget: int, now: Time)
    | ActiveFailed(url: string, budget: int, now: Time)
    | Listed(now: Time)

  /** Verification refuses a descriptor without an address or a URL. */
  ghost predicate SignedOk(i: Item) { i.signed ==> i.desc.address != "" && i.desc.url != "" }

  /** The item passes the checks made before the lock is taken. */
  predicate Offered(i: Item, now: Time) { i.signed && Fresh(i.desc, now) && i.public }

  /** An accepted upsert evicts what the identity cap says, any other nothing. */
  ghost predicate OutOk(b: Book, r: Relay, now: Time, takeover: bool, out: set<string>) {
    if Verdict(b, r.desc, now, takeover) == Accepted
    then IdentityEviction(b.relays[r.desc.url := r], r.desc.address, out)
    else out == {}
  }

  /** The relay InsertCandidate hands to the upsert. */
  function Candidate(relays: map<string, Relay>, i: Item, now: Time): Relay {
    if i.desc.url in relays then Merge(FromItem(i, now), relays[i.desc.url]) else FromItem(i, now)
  }

  /** The relay one round of ApplyRelayDiscoveryResponse hands to the upsert. */
  function Discovered(relays: map<string, Relay>, found: Relay, direct: bool): Relay {
    var merged := Merge(found, if found.desc.url in relays then relays[found.desc.url] else ZERO_RELAY);
    if direct then MarkVerified(merged) else merged
  }

  /** Round n of the loop evicts what the identity cap says. */
  ghost predicate RoundOk(b: Book, order: seq<string>, found: map<string, Relay>, target: string, direct: bool,
                          now: Time,
                          outs: seq<set<string>>, n: nat)
    requires n < |order| == |outs| && forall i :: 0 <= i < |order| ==> order[i] in found
  {
    var b1 := IngestAll(b, order, found, target, direct, now, outs, n);
    OutOk(b1, Discovered(b1.relays, found[order[n]], direct && order[n] == target), now,
          direct && order[n] == target, outs[n])
  }

  ghost predicate OutsOk(b: Book, order: seq<string>, found: map<string, Relay>, target: string, direct: bool,
                         now: Time,
                         outs: seq<set<string>>)
    requires |outs| == |order| && forall i :: 0 <= i < |order| ==> order[i] in found
  {
    forall n :: 0 <= n < |order| ==> RoundOk(b, order, found, target, direct, now, outs, n)
  }

  /** The book after the loop of a discovery response, before the cap. */
  function Looped(b0: Book, target: string, items: seq<Item>, compatible: bool, now: Time, outs: seq<set<string>>): Book
    requires |outs| == |Discover(ClearBans(b0.relays, now), items, target, now).0|
  {
    var b := b0.(relays := ClearBans(b0.relays, now));
    DiscoverResult(b.relays, items, target, now);
    var (order, found) := Discover(b.relays, items, target, now);
    IngestAll(b, order, found, target, Direct(b.relays, items, target, compatible, now), now, outs, |order|)
  }

  ghost predicate Enabled(b: Book, e: Event) {
    match e
    case Inserted(i, now, wall, out, capOut) =>
      var b1 := b.(relays := ClearBans(b.relays, now));
      var r := Candidate(b1.relays, i, now);
      && SignedOk(i)
      && (Offered(i, now) ==> OutOk(b1, r, now, false, out))
      && (Offered(i, now) && Verdict(b1, r.desc, now, false) == Accepted ==>
            CapEviction(ClearBans(b1.relays[i.desc.url := r] - out, wall), capOut))
    case Applied(target, items, compatible, now, wall, outs, capOut) =>
      var b1 := b.(relays := ClearBans(b.relays, now));
      var (order, found) := Discover(b1.relays, items, target, now);
      && (forall i :: 0 <= i < |items| ==> SignedOk(items[i])) && |outs| == |order|
      && (forall i :: 0 <= i < |order| ==> order[i] in found)
      && OutsOk(b1, order, found, target, Direct(b1.relays, items, target, compatible, now), now, outs)
      && CapEviction(ClearBans(Looped(b, target, items, compatible, now, outs).relays, wall), capOut)
    case _ => true
  }

  function Next(b: Book, e: Event): Book
    requires Enabled(b, e)
  {
    match e
    case Inserted(i, now, wall, out, capOut) => InsertCandidate(b, i, now, wall, out, capOut).0
    case Applied(target, items, compatible, now, wall, outs, capOut) => ApplyResponse(b, target, items, compatible, now,
                                                                                      wall, outs, capOut)
    case Banned(u) => Ban(b, u)
    case Allowed(u) => Allow(b, u)
    case Deactivated(u, now) => Deactivate(b, u, now)
    case Ensured(u) => Ensure(b, u)
    case Measured(u, rtt, at) => RecordRTT(b, u, rtt, at)
    case DiscoveryFailed(u, budget, now) => DiscoveryFailure(b, u, budget, now)
    case ActiveFailed(u, budget, now) => ActiveFailure(b, u, budget, now)
    case Listed(now) => b.(relays := ClearBans(b.relays, now))
  }

  ghost predicate Step(b: Book, e: Event, b': Book) { Enabled(b, e) && b' == Next(b, e) }

  /** The set as NewRelaySet makes it, from bootstrap URLs. */
  function Bootstrapped(urls: set<string>): Book {
    Book(map u | u in urls :: NewRelay(u).(bootstrap := true), map[], [])
  }

  ghost predicate Run(urls: set<string>, es: seq<Event>, bs: seq<Book>) {
    && |bs| == |es| + 1 && bs[0] == Bootstrapped(urls)
    && forall i :: 0 <= i < |es| ==> Step(bs[i], es[i], bs[i + 1])
  }

  lemma RunStep(urls: set<string>, es: seq<Event>, bs: seq<Book>, k: nat)
    requires Run(urls, es, bs) && k < |es|
    ensures Step(bs[k], es[k], bs[k + 1])
  {
  }

  /** The next step of a run. */
  lemma RunGrows(urls: set<string>, es: seq<Event>, bs: seq<Book>, e: Event, b': Book)
    requires Run(urls, es, bs) && Step(bs[|es|], e, b')
    ensures Run(urls, es + [e], bs + [b'])
  {
    forall i | 0 <= i < |es + [e]| ensures Step((bs + [b'])[i], (es + [e])[i], (bs + [b'])[i + 1]) == true {
      if i < |es| {
        StepCongruent((bs + [b'])[i], (es + [e])[i], (bs + [b'])[i + 1], bs[i], es[i], bs[i + 1]);
      } else {
        StepCongruent((bs + [b'])[i], (es + [e])[i], (bs + [b'])[i + 1], bs[|es|], e, b');
      }
    }
  }

  lemma StepCongruent(b: Book, e: Event, c: Book, b': Book, e': Event, c': Book)
    requires b == b' && e == e' && c == c'
    ensures Step(b, e, c) == Step(b', e', c')
  {
  }

  // ---------------------------------------------------------------- rollback anchors

  /** The anchor of d's identity is at least as new as d, or the replay window
      of d had closed by `horizon`. */
  ghost predicate Covered(anchors: map<string, Anchor>, d: Descriptor, horizon: Time) {
    || (d.address in anchors && anchors[d.address].issuedAt >= d.issuedAt)
    || d.issuedAt + ANNOUNCE_MAX_VALIDITY < horizon
  }

  /** An anchor is kept at least as long as its descriptor could be replayed. */
  ghost predicate AnchorsLast(anchors: map<string, Anchor>) {
    forall a :: a in anchors ==> anchors[a].until >= anchors[a].issuedAt + ANNOUNCE_MAX_VALIDITY
  }

  /** The history invariant. It holds whatever the clock does: `horizon` is any
      bound on the readings taken so far. */
  ghost predicate Anchored(b: Book, horizon: Time) {
    && AnchorsLast(b.anchors)
    && forall i :: 0 <= i < |b.log| ==> Covered(b.anchors, b.log[i], horizon)
  }

  /** The descriptors accepted from position n on are not older than any accepted
      before them from the same identity. */
  ghost predicate NewestFrom(log: seq<Descriptor>, n: nat) {
    forall i, j :: 0 <= i < j < |log| && n <= j && log[i].address == log[j].address ==>
      log[i].issuedAt <= log[j].issuedAt
  }

  ghost predicate NeverDecreases(log: seq<Descriptor>) { NewestFrom(log, 0) }

  /** Forgetting an anchor whose window has closed loses nothing. */
  lemma ForgetKeepsCover(anchors: map<string, Anchor>, anchors': map<string, Anchor>, d: Descriptor, now: Time,
                         horizon: Time)
    requires AnchorsLast(anchors) && now <= horizon && Covered(anchors, d, horizon)
    requires d.address in anchors && d.address !in anchors' ==> now > anchors[d.address].until
    requires d.address in anchors' ==> d.address in anchors && anchors'[d.address] == anchors[d.address]
    ensures Covered(anchors', d, horizon)
  {
  }

  lemma ConsultKeepsAnchored(b: Book, d: Descriptor, now: Time, horizon: Time)
    requires Anchored(b, horizon) && now <= horizon
    ensures Anchored(b.(anchors := Consulted(b, d, now)), horizon)
  {
    forall i | 0 <= i < |b.log| ensures Covered(Consulted(b, d, now), b.log[i], horizon) {
      ForgetKeepsCover(b.anchors, Consulted(b, d, now), b.log[i], now, horizon);
    }
  }

  lemma AcceptKeepsAnchored(b: Book, r: Relay, out: set<string>, horizon: Time)
    requires Anchored(b, horizon) && r.desc.address != ""
    ensures Anchored(Book(b.relays[r.desc.url := r] - out, Raise(b.anchors, r.desc), b.log + [r.desc]), horizon)
  {
    forall i | 0 <= i < |b.log| ensures Covered(Raise(b.anchors, r.desc), b.log[i], horizon) {
      assert Covered(b.anchors, b.log[i], horizon);
    }
  }

  lemma UpsertKeepsAnchored(b: Book, r: Relay, now: Time, takeover: bool, out: set<string>, horizon: Time)
    requires Anchored(b, horizon) && now <= horizon && r.desc.address != ""
    ensures Anchored(UpsertDescriptor(b, r, now, takeover, out).0, horizon)
  {
    ConsultKeepsAnchored(b, r.desc, now, horizon);
    if Verdict(b, r.desc, now, takeover) == Accepted {
      AcceptKeepsAnchored(b.(anchors := Consulted(b, r.desc, now)), r, out, horizon);
    }
  }

  lemma CapKeepsAnchored(b: Book, wall: Time, out: set<string>, horizon: Time)
    requires Anchored(b, horizon) && wall <= horizon
    ensures Anchored(EnforceCap(b, wall, out), horizon)
  {
    forall i | 0 <= i < |b.log| ensures Covered(SweepAnchors(b.anchors, wall), b.log[i], horizon) {
      ForgetKeepsCover(b.anchors, SweepAnchors(b.anchors, wall), b.log[i], wall, horizon);
    }
  }

  // ---------------------------------------------------------------- what is accepted

  /** The heart of the argument: an older descriptor than one accepted before
      either meets the anchor or has already expired. */
  lemma AcceptedIsNewest(anchors: map<string, Anchor>, previous: Descriptor, d: Descriptor, now: Time)
    requires Covered(anchors, previous, now) && previous.address == d.address && Fresh(d, now) && !RollsBack(anchors, d)
    ensures previous.issuedAt <= d.issuedAt
  {
  }

  /** An upsert whose reading is a horizon appends nothing older. */
  lemma UpsertIsNewest(b: Book, r: Relay, now: Time, takeover: bool, out: set<string>, n: nat)
    requires Anchored(b, now) && Fresh(r.desc, now) && r.desc.address != "" && NewestFrom(b.log, n)
    ensures NewestFrom(UpsertDescriptor(b, r, now, takeover, out).0.log, n)
  {
    ConsultKeepsAnchored(b, r.desc, now, now);
    if Verdict(b, r.desc, now, takeover) == Accepted {
      forall i | 0 <= i < |b.log| && b.log[i].address == r.desc.address ensures b.log[i].issuedAt <= r.desc.issuedAt {
        AcceptedIsNewest(Consulted(b, r.desc, now), b.log[i], r.desc, now);
      }
    }
  }

  // ---------------------------------------------------------------- operations

  lemma InsertKeepsAnchored(b: Book, i: Item, now: Time, wall: Time, out: set<string>, capOut: set<string>,
                            horizon: Time)
    requires Anchored(b, horizon) && now <= horizon && wall <= horizon && SignedOk(i)
    ensures Anchored(InsertCandidate(b, i, now, wall, out, capOut).0, horizon)
  {
    var b1 := b.(relays := ClearBans(b.relays, now));
    assert Anchored(b1, horizon);
    if i.signed {
      var r := Candidate(b1.relays, i, now);
      UpsertKeepsAnchored(b1, r, now, false, out, horizon);
      CapKeepsAnchored(UpsertDescriptor(b1, r, now, false, out).0, wall, capOut, horizon);
    }
  }

  lemma InsertIsNewest(b: Book, i: Item, now: Time, wall: Time, out: set<string>, capOut: set<string>)
    requires Anchored(b, now) && SignedOk(i)
    ensures NewestFrom(InsertCandidate(b, i, now, wall, out, capOut).0.log, |b.log|)
  {
    var b1 := b.(relays := ClearBans(b.relays, now));
    assert Anchored(b1, now);
    if i.signed && Fresh(i.desc, now) {
      UpsertIsNewest(b1, Candidate(b1.relays, i, now), now, false, out, |b.log|);
    }
  }

  /** Discovered descriptors are fresh and signed, each filed under its URL. */
  ghost predicate FoundOk(found: map<string, Relay>, now: Time) {
    forall u :: u in found ==> Fresh(found[u].desc, now) && found[u].desc.address != "" && found[u].desc.url == u != ""
  }

  lemma IngestKeepsAnchored(b: Book, found: Relay, direct: bool, now: Time, out: set<string>, horizon: Time)
    requires Anchored(b, horizon) && now <= horizon && found.desc.address != ""
    ensures Anchored(Ingest(b, found, direct, now, out).0, horizon)
  {
    UpsertKeepsAnchored(b, Discovered(b.relays, found, direct), now, direct, out, horizon);
  }

  lemma IngestIsNewest(b: Book, found: Relay, direct: bool, now: Time, out: set<string>, n: nat)
    requires Anchored(b, now) && Fresh(found.desc, now) && found.desc.address != "" && NewestFrom(b.log, n)
    ensures NewestFrom(Ingest(b, found, direct, now, out).0.log, n)
  {
    UpsertIsNewest(b, Discovered(b.relays, found, direct), now, direct, out, n);
  }

  lemma {:induction false} IngestAllKeepsAnchored(b: Book, order: seq<string>, found: map<string, Relay>,
                                                  target: string, direct: bool,
                                                  now: Time, outs: seq<set<string>>, n: nat, horizon: Time)
    requires n <= |order| && n <= |outs| && (forall i :: 0 <= i < |order| ==> order[i] in found)
    requires Anchored(b, horizon) && now <= horizon && FoundOk(found, now)
    ensures Anchored(IngestAll(b, order, found, target, direct, now, outs, n), horizon)
  {
    if n > 0 {
      IngestAllKeepsAnchored(b, order, found, target, direct, now, outs, n - 1, horizon);
      IngestKeepsAnchored(IngestAll(b, order, found, target, direct, now, outs, n - 1), found[order[n - 1]],
                          direct && order[n - 1] == target, now, outs[n - 1], horizon);
    }
  }

  lemma {:induction false} IngestAllIsNewest(b: Book, order: seq<string>, found: map<string, Relay>, target: string,
                                             direct: bool,
                                             now: Time, outs: seq<set<string>>, n: nat)
    requires n <= |order| && n <= |outs| && (forall i :: 0 <= i < |order| ==> order[i] in found)
    requires Anchored(b, now) && FoundOk(found, now)
    ensures NewestFrom(IngestAll(b, order, found, target, direct, now, outs, n).log, |b.log|)
  {
    if n > 0 {
      IngestAllIsNewest(b, order, found, target, direct, now, outs, n - 1);
      IngestAllKeepsAnchored(b, order, found, target, direct, now, outs, n - 1, now);
      IngestIsNewest(IngestAll(b, order, found, target, direct, now, outs, n - 1), found[order[n - 1]],
                     direct && order[n - 1] == target, now, outs[n - 1], |b.log|);
    }
  }

  lemma FoundAreSigned(relays: map<string, Relay>, items: seq<Item>, target: string, now: Time)
    requires forall i :: 0 <= i < |items| ==> SignedOk(items[i])
    ensures FoundOk(Discover(relays, items, target, now).1, now)
  {
    DiscoverResult(relays, items, target, now);
    var found := Discover(relays, items, target, now).1;
    forall u | u in found
      ensures Fresh(found[u].desc, now) && found[u].desc.address != "" && found[u].desc.url == u != ""
    {
      assert FromItems(relays, items, target, now, u, found[u]);
    }
  }

  lemma ApplyKeepsAnchored(b: Book, e: Event, horizon: Time)
    requires e.Applied? && Enabled(b, e) && Anchored(b, horizon) && e.now <= horizon && e.wall <= horizon
    ensures Anchored(Next(b, e), horizon)
  {
    var b1 := b.(relays := ClearBans(b.relays, e.now));
    assert Anchored(b1, horizon);
    FoundAreSigned(b1.relays, e.items, e.target, e.now);
    var (order, found) := Discover(b1.relays, e.items, e.target, e.now);
    var direct := Direct(b1.relays, e.items, e.target, e.compatible, e.now);
    IngestAllKeepsAnchored(b1, order, found, e.target, direct, e.now, e.outs, |order|, horizon);
    CapKeepsAnchored(IngestAll(b1, order, found, e.target, direct, e.now, e.outs, |order|), e.wall, e.capOut, horizon);
  }

  lemma ApplyIsNewest(b: Book, e: Event)
    requires e.Applied? && Enabled(b, e) && Anchored(b, e.now)
    ensures NewestFrom(Next(b, e).log, |b.log|)
  {
    var b1 := b.(relays := ClearBans(b.relays, e.now));
    assert Anchored(b1, e.now);
    FoundAreSigned(b1.relays, e.items, e.target, e.now);
    var (order, found) := Discover(b1.relays, e.items, e.target, e.now);
    IngestAllIsNewest(b1, order, found, e.target, Direct(b1.relays, e.items, e.target, e.compatible, e.now), e.now,
                      e.outs, |order|);
  }

  // ---------------------------------------------------------------- whole runs

  predicate Ingests(e: Event) { e.Inserted? || e.Applied? }

  /** No clock reading of the first n operations is later than h. */
  ghost predicate NoneLater(es: seq<Event>, n: nat, h: Time)
    requires n <= |es|
  {
    forall i :: 0 <= i < n && Ingests(es[i]) ==> es[i].now <= h && es[i].wall <= h
  }

  lemma OtherStepsKeepAnchors(b: Book, e: Event, b': Book)
    requires Step(b, e, b') && !Ingests(e)
    ensures b'.anchors == b.anchors && b'.log == b.log
  {
  }

  lemma StepKeepsAnchored(b: Book, e: Event, b': Book, horizon: Time)
    requires Anchored(b, horizon) && Step(b, e, b') && (Ingests(e) ==> e.now <= horizon && e.wall <= horizon)
    ensures Anchored(b', horizon)
  {
    if e.Inserted? {
      InsertKeepsAnchored(b, e.item, e.now, e.wall, e.out, e.capOut, horizon);
    } else if e.Applied? {
      ApplyKeepsAnchored(b, e, horizon);
    } else {
      OtherStepsKeepAnchors(b, e, b');
    }
  }

  /** The history invariant in every run, whatever its clock does. */
  lemma {:induction false} AnchorsHold(urls: set<string>, es: seq<Event>, bs: seq<Book>, n: nat, horizon: Time)
    requires Run(urls, es, bs) && n <= |es| && NoneLater(es, n, horizon)
    ensures Anchored(bs[n], horizon)
  {
    if n > 0 {
      var k := n - 1;
      AnchorsHold(urls, es, bs, k, horizon);
      RunStep(urls, es, bs, k);
      StepKeepsAnchored(bs[k], es[k], bs[k + 1], horizon);
    }
  }

  /** In every run, an operation whose reading is not below any earlier one
      accepts nothing older than what was accepted from the same identity before:
      not across URL changes, not across eviction, not across dropped or swept
      anchors. What the other readings do does not matter. */
  lemma AcceptanceNeverRollsBack(urls: set<string>, es: seq<Event>, bs: seq<Book>, k: nat)
    requires Run(urls, es, bs) && k < |es| && (Ingests(es[k]) ==> NoneLater(es, k, es[k].now))
    ensures NewestFrom(bs[k + 1].log, |bs[k].log|) && bs[k].log <= bs[k + 1].log
  {
    var e := es[k];
    RunStep(urls, es, bs, k);
    LogGrows(bs[k], e, bs[k + 1]);
    if e.Inserted? {
      AnchorsHold(urls, es, bs, k, e.now);
      InsertIsNewest(bs[k], e.item, e.now, e.wall, e.out, e.capOut);
    } else if e.Applied? {
      AnchorsHold(urls, es, bs, k, e.now);
      ApplyIsNewest(bs[k], e);
    } else {
      OtherStepsKeepAnchors(bs[k], e, bs[k + 1]);
    }
  }

  lemma {:induction false} IngestAllGrowsLog(b: Book, order: seq<string>, found: map<string, Relay>, target: string,
                                             direct: bool,
                                             now: Time, outs: seq<set<string>>, n: nat)
    requires n <= |order| && n <= |outs| && (forall i :: 0 <= i < |order| ==> order[i] in found)
    ensures b.log <= IngestAll(b, order, found, target, direct, now, outs, n).log
  {
    if n > 0 {
      IngestAllGrowsLog(b, order, found, target, direct, now, outs, n - 1);
    }
  }

  lemma LogGrows(b: Book, e: Event, b': Book)
    requires Step(b, e, b')
    ensures b.log <= b'.log
  {
    if e.Applied? {
      var b1 := b.(relays := ClearBans(b.relays, e.now));
      var (order, found) := Discover(b1.relays, e.items, e.target, e.now);
      IngestAllGrowsLog(b1, order, found, e.target, Direct(b1.relays, e.items, e.target, e.compatible, e.now), e.now,
                        e.outs, |order|);
    }
  }

  lemma NewestJoin(log: seq<Descriptor>, log': seq<Descriptor>)
    requires NeverDecreases(log) && log <= log' && NewestFrom(log', |log|)
    ensures NeverDecreases(log')
  {
  }

  /** If that holds of every operation, the IssuedAt values accepted for one
      signing identity never decrease over the run. */
  lemma {:induction false} AcceptedNeverRollBack(urls: set<string>, es: seq<Event>, bs: seq<Book>, n: nat)
    requires Run(urls, es, bs) && n <= |es|
    requires forall k :: 0 <= k < n && Ingests(es[k]) ==> NoneLater(es, k, es[k].now)
    ensures NeverDecreases(bs[n].log)
  {
    if n > 0 {
      var k := n - 1;
      AcceptedNeverRollBack(urls, es, bs, k);
      AcceptanceNeverRollsBack(urls, es, bs, k);
      NewestJoin(bs[k].log, bs[k + 1].log);
    }
  }
}
