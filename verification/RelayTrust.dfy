/** Trust, bans and caps of the relay set. */
module RelayTrust {
  import opened Identity
  import opened RelayState
  import opened RelayBook
  import opened RelayRuns

  predicate IsVerified(relays: map<string, Relay>, u: string) { u in relays && relays[u].verified }

  /** In the second map u is verified only as the same identity that was
      verified in the first. */
  ghost predicate TrustKept(relays: map<string, Relay>, relays': map<string, Relay>, u: string) {
    IsVerified(relays', u) ==> IsVerified(relays, u) && relays[u].desc.address == relays'[u].desc.address
  }

  // ---------------------------------------------------------------- who becomes verified

  /** The step polled exactly u, with our protocol, and got a fresh signed
      descriptor of u. */
  ghost predicate Polls(b: Book, e: Event, u: string) {
    e.Applied? && e.target == u && Direct(ClearBans(b.relays, e.now), e.items, e.target, e.compatible, e.now)
  }

  lemma UpsertTrust(b: Book, r: Relay, now: Time, takeover: bool, out: set<string>, u: string)
    requires u == r.desc.url && r.verified ==> IsVerified(b.relays, u) && b.relays[u].desc.address == r.desc.address
    ensures TrustKept(b.relays, UpsertDescriptor(b, r, now, takeover, out).0.relays, u)
  {
  }

  lemma UpsertElsewhere(b: Book, r: Relay, now: Time, takeover: bool, out: set<string>, u: string)
    requires u != r.desc.url
    ensures TrustKept(b.relays, UpsertDescriptor(b, r, now, takeover, out).0.relays, u)
  {
  }

  lemma InsertTrust(b: Book, i: Item, now: Time, wall: Time, out: set<string>, capOut: set<string>, u: string)
    ensures TrustKept(b.relays, InsertCandidate(b, i, now, wall, out, capOut).0.relays, u)
  {
    var b1 := b.(relays := ClearBans(b.relays, now));
    assert TrustKept(b.relays, b1.relays, u);
    UpsertTrust(b1, Candidate(b1.relays, i, now), now, false, out, u);
  }

  lemma IngestTrust(b: Book, found: Relay, direct: bool, now: Time, out: set<string>, u: string)
    requires !found.verified && !(direct && u == found.desc.url)
    ensures TrustKept(b.relays, Ingest(b, found, direct, now, out).0.relays, u)
  {
    var r := Discovered(b.relays, found, direct);
    if u == found.desc.url {
      UpsertTrust(b, r, now, direct, out, u);
    } else {
      UpsertElsewhere(b, r, now, direct, out, u);
    }
  }

  lemma {:induction false} IngestAllTrust(b: Book, order: seq<string>, found: map<string, Relay>, target: string,
                                          direct: bool,
                                          now: Time, outs: seq<set<string>>, n: nat, u: string)
    requires n <= |order| && n <= |outs| && (forall i :: 0 <= i < |order| ==> order[i] in found)
    requires forall v :: v in found ==> !found[v].verified && found[v].desc.url == v
    requires !(direct && u == target)
    ensures TrustKept(b.relays, IngestAll(b, order, found, target, direct, now, outs, n).relays, u)
  {
    if n > 0 {
      IngestAllTrust(b, order, found, target, direct, now, outs, n - 1, u);
      IngestTrust(IngestAll(b, order, found, target, direct, now, outs, n - 1), found[order[n - 1]],
                  direct && order[n - 1] == target, now, outs[n - 1], u);
    }
  }

  lemma LoopTrust(b: Book, target: string, items: seq<Item>, compatible: bool, now: Time, outs: seq<set<string>>,
                  u: string)
    requires |outs| == |Discover(b.relays, items, target, now).0|
    requires !(u == target && Direct(b.relays, items, target, compatible, now))
    ensures DiscoverOk(b.relays, items, target, now, Discover(b.relays, items, target, now).0,
                       Discover(b.relays, items, target, now).1)
    ensures TrustKept(b.relays, IngestAll(b, Discover(b.relays, items, target, now).0,
                                          Discover(b.relays, items, target, now).1, target,
                                          Direct(b.relays, items, target, compatible, now),
                                          now, outs, |outs|).relays, u)
  {
    DiscoverResult(b.relays, items, target, now);
    var (order, found) := Discover(b.relays, items, target, now);
    forall v | v in found ensures !found[v].verified && found[v].desc.url == v {
      assert FromItems(b.relays, items, target, now, v, found[v]);
    }
    IngestAllTrust(b, order, found, target, Direct(b.relays, items, target, compatible, now), now, outs, |order|, u);
  }

  lemma ApplyTrust(b: Book, e: Event, u: string)
    requires e.Applied? && |e.outs| == |Discover(ClearBans(b.relays, e.now), e.items, e.target, e.now).0|
    requires !Polls(b, e, u)
    ensures TrustKept(b.relays,
                      ApplyResponse(b, e.target, e.items, e.compatible, e.now, e.wall, e.outs, e.capOut).relays, u)
  {
    var b1 := b.(relays := ClearBans(b.relays, e.now));
    assert TrustKept(b.relays, b1.relays, u);
    LoopTrust(b1, e.target, e.items, e.compatible, e.now, e.outs, u);
    var b2 := Looped(b, e.target, e.items, e.compatible, e.now, e.outs);
    assert TrustKept(b2.relays, EnforceCap(b2, e.wall, e.capOut).relays, u);
  }

  /** Outside a direct poll of u, whatever the step (gossip, announce, bans,
      failures, caps), u is verified afterwards only as the identity it was
      verified as before: nothing promotes it, and an identity change makes it a
      candidate again. */
  lemma TrustStep(b: Book, e: Event, b': Book, u: string)
    requires Step(b, e, b') && !Polls(b, e, u)
    ensures TrustKept(b.relays, b'.relays, u)
  {
    if e.Inserted? {
      InsertTrust(b, e.item, e.now, e.wall, e.out, e.capOut, u);
    } else if e.Applied? {
      ApplyTrust(b, e, u);
    }
  }

  /** A direct poll found a fresh signed descriptor of the URL in its response. */
  lemma PollFoundDescriptor(b: Book, e: Event, u: string) returns (k: nat)
    requires Enabled(b, e) && Polls(b, e, u)
    ensures k < |e.items| && e.items[k].signed && Fresh(e.items[k].desc, e.now) && e.items[k].desc.url == u
    ensures e.compatible
  {
    var relays := ClearBans(b.relays, e.now);
    DiscoverResult(relays, e.items, e.target, e.now);
    var found := Discover(relays, e.items, e.target, e.now).1;
    assert FromItems(relays, e.items, e.target, e.now, u, found[u]);
    k :| 0 <= k < |e.items| && Admissible(relays, e.items[k], e.target, e.now) && e.items[k].desc.url == u;
  }

  /** In every run a verified entry was polled directly, and has kept the
      identity it had after that poll. */
  lemma {:induction false} VerifiedWasPolled(urls: set<string>, es: seq<Event>, bs: seq<Book>, n: nat, u: string)
    returns (i: nat)
    requires Run(urls, es, bs) && n <= |es| && IsVerified(bs[n].relays, u)
    ensures i < n && Polls(bs[i], es[i], u)
    ensures forall m :: i < m <= n ==>
              IsVerified(bs[m].relays, u) && bs[m].relays[u].desc.address == bs[n].relays[u].desc.address
  {
    var k := n - 1;
    RunStep(urls, es, bs, k);
    if Polls(bs[k], es[k], u) {
      i := k;
    } else {
      TrustStep(bs[k], es[k], bs[k + 1], u);
      i := VerifiedWasPolled(urls, es, bs, k, u);
    }
  }

  // ---------------------------------------------------------------- bans

  /** Banned by the operator, without an end. */
  predicate Barred(relays: map<string, Relay>, u: string) {
    u in relays && relays[u].banned && relays[u].suppressUntil == 0
  }

  lemma UpsertKeepsBar(b: Book, r: Relay, now: Time, takeover: bool, out: set<string>, u: string)
    requires Barred(b.relays, u) && OutOk(b, r, now, takeover, out)
    ensures Barred(UpsertDescriptor(b, r, now, takeover, out).0.relays, u)
  {
  }

  lemma CapKeepsBar(b: Book, wall: Time, out: set<string>, u: string)
    requires Barred(b.relays, u) && CapEviction(ClearBans(b.relays, wall), out)
    ensures Barred(EnforceCap(b, wall, out).relays, u)
  {
  }

  lemma IngestKeepsBar(b: Book, found: Relay, direct: bool, now: Time, out: set<string>, u: string)
    requires Barred(b.relays, u) && OutOk(b, Discovered(b.relays, found, direct), now, direct, out)
    ensures Barred(Ingest(b, found, direct, now, out).0.relays, u)
  {
    UpsertKeepsBar(b, Discovered(b.relays, found, direct), now, direct, out, u);
  }

  lemma RoundKeepsBar(b: Book, order: seq<string>, found: map<string, Relay>, target: string, direct: bool, now: Time,
                      outs: seq<set<string>>, n: nat, u: string)
    requires n < |order| == |outs| && (forall i :: 0 <= i < |order| ==> order[i] in found)
    requires RoundOk(b, order, found, target, direct, now, outs, n)
    requires Barred(IngestAll(b, order, found, target, direct, now, outs, n).relays, u)
    ensures Barred(IngestAll(b, order, found, target, direct, now, outs, n + 1).relays, u)
  {
    var b1 := IngestAll(b, order, found, target, direct, now, outs, n);
    IngestKeepsBar(b1, found[order[n]], direct && order[n] == target, now, outs[n], u);
  }

  lemma RoundOkAt(b: Book, order: seq<string>, found: map<string, Relay>, target: string, direct: bool, now: Time,
                  outs: seq<set<string>>, k: nat)
    requires k < |order| == |outs| && (forall i :: 0 <= i < |order| ==> order[i] in found)
    requires OutsOk(b, order, found, target, direct, now, outs)
    ensures RoundOk(b, order, found, target, direct, now, outs, k)
  {
  }

  lemma IngestAllKeepsBar(b: Book, order: seq<string>, found: map<string, Relay>, target: string, direct: bool,
                          now: Time, outs: seq<set<string>>, n: nat, u: string)
    requires n <= |order| == |outs| && (forall i :: 0 <= i < |order| ==> order[i] in found)
    requires OutsOk(b, order, found, target, direct, now, outs) && Barred(b.relays, u)
    ensures Barred(IngestAll(b, order, found, target, direct, now, outs, n).relays, u)
  {
    var k := 0;
    while k < n
      invariant k <= n && Barred(IngestAll(b, order, found, target, direct, now, outs, k).relays, u)
    {
      RoundOkAt(b, order, found, target, direct, now, outs, k);
      RoundKeepsBar(b, order, found, target, direct, now, outs, k, u);
      k := k + 1;
    }
  }

  lemma InsertKeepsBar(b: Book, e: Event, u: string)
    requires e.Inserted? && Enabled(b, e) && Barred(b.relays, u)
    ensures Barred(Next(b, e).relays, u)
  {
    if Offered(e.item, e.now) {
      var b1 := b.(relays := ClearBans(b.relays, e.now));
      var r := Candidate(b1.relays, e.item, e.now);
      UpsertKeepsBar(b1, r, e.now, false, e.out, u);
      var (b2, verdict) := UpsertDescriptor(b1, r, e.now, false, e.out);
      if verdict == Accepted {
        assert b2.relays == b1.relays[e.item.desc.url := r] - e.out;
        CapKeepsBar(b2, e.wall, e.capOut, u);
      }
    }
  }

  lemma ApplyKeepsBar(b: Book, e: Event, u: string)
    requires e.Applied? && Enabled(b, e) && Barred(b.relays, u)
    ensures Barred(Next(b, e).relays, u)
  {
    var b1 := b.(relays := ClearBans(b.relays, e.now));
    var (order, found) := Discover(b1.relays, e.items, e.target, e.now);
    var direct := Direct(b1.relays, e.items, e.target, e.compatible, e.now);
    IngestAllKeepsBar(b1, order, found, e.target, direct, e.now, e.outs, |order|, u);
    CapKeepsBar(Looped(b, e.target, e.items, e.compatible, e.now, e.outs), e.wall, e.capOut, u);
  }

  lemma BarStep(b: Book, e: Event, b': Book, u: string)
    requires Step(b, e, b') && Barred(b.relays, u) && e != Allowed(u) && !(e.Deactivated? && e.url == u)
    ensures Barred(b'.relays, u)
  {
    if e.Inserted? {
      InsertKeepsBar(b, e, u);
    } else if e.Applied? {
      ApplyKeepsBar(b, e, u);
    }
  }

  /** A ban lasts through the whole run, until AllowRelayURL or
      DeactivateRelayURL names the URL. */
  lemma {:induction false} BanLasts(urls: set<string>, es: seq<Event>, bs: seq<Book>, i: nat, j: nat, u: string)
    requires Run(urls, es, bs) && i < j <= |es| && es[i] == Banned(u)
    requires forall m :: i < m < j ==> es[m] != Allowed(u) && !(es[m].Deactivated? && es[m].url == u)
    ensures Barred(bs[j].relays, u)
  {
    var k := j - 1;
    RunStep(urls, es, bs, k);
    if i < k {
      BanLasts(urls, es, bs, i, k, u);
      BarStep(bs[k], es[k], bs[k + 1], u);
    }
  }

  /** Why deactivation is excluded: it gives the ban an end, a minute away. The
      first sweep after that lifts it. */
  lemma DeactivationEndsBan(b: Book, u: string, now: Time, later: Time)
    requires Barred(b.relays, u) && now + RECOVERY_BACKOFF != 0
    ensures var relays := ClearBans(Deactivate(b, u, now).relays, later);
            (u in relays && relays[u].banned) <==> later < now + RECOVERY_BACKOFF
  {
  }

  // ---------------------------------------------------------------- caps and keys

  lemma SizeWithout<T>(s: set<T>, out: set<T>)
    requires out <= s
    ensures |s - out| == |s| - |out|
  {
    assert s == (s - out) + out;
  }

  lemma OwnedWithout(relays: map<string, Relay>, out: set<string>, address: string)
    ensures Owned(relays - out, address) == Owned(relays, address) - out
  {
  }

  lemma EvictableWithout(relays: map<string, Relay>, out: set<string>)
    ensures Evictable(relays - out) == Evictable(relays) - out && (relays - out).Keys == relays.Keys - out
  {
  }

  /** After the identity cap one identity holds at most four candidates, the
      latest seen ones; verified, bootstrap and banned entries are not given up. */
  lemma IdentityCapHolds(relays: map<string, Relay>, address: string, out: set<string>)
    requires IdentityEviction(relays, address, out) && address != ""
    ensures |Owned(relays - out, address)| <= MAX_PER_IDENTITY
    ensures forall u :: u in out ==> !relays[u].verified && !relays[u].bootstrap && !relays[u].banned
    ensures forall e, k :: e in out && k in Owned(relays - out, address) ==>
              relays[e].lastSeenAt <= relays[k].lastSeenAt
  {
    OwnedWithout(relays, out, address);
    SizeWithout(Owned(relays, address), out);
  }

  /** After the global cap at most 1024 entries are left, or nothing that may be
      evicted. */
  lemma CapHolds(relays: map<string, Relay>, out: set<string>)
    requires CapEviction(relays, out)
    ensures |(relays - out).Keys| <= MAX_ANNOUNCED || Evictable(relays - out) == {}
    ensures forall u :: u in out ==> !relays[u].bootstrap && !relays[u].banned
  {
    EvictableWithout(relays, out);
    SizeWithout(Evictable(relays), out);
    SizeWithout(relays.Keys, out);
    assert |relays| == |relays.Keys|;
  }

  /** Entries are filed under their own URL, with at most a hundred samples. */
  ghost predicate Filed(relays: map<string, Relay>) {
    forall u :: u in relays ==> relays[u].desc.url == u && |relays[u].samples| <= MAX_SAMPLES
  }

  lemma IngestKeepsFiled(b: Book, found: Relay, direct: bool, now: Time, out: set<string>)
    requires Filed(b.relays) && found.samples == []
    ensures Filed(Ingest(b, found, direct, now, out).0.relays)
  {
  }

  lemma {:induction false} IngestAllKeepsFiled(b: Book, order: seq<string>, found: map<string, Relay>, target: string,
                                               direct: bool,
                                               now: Time, outs: seq<set<string>>, n: nat)
    requires n <= |order| && n <= |outs| && (forall i :: 0 <= i < |order| ==> order[i] in found)
    requires (forall v :: v in found ==> found[v].samples == []) && Filed(b.relays)
    ensures Filed(IngestAll(b, order, found, target, direct, now, outs, n).relays)
  {
    if n > 0 {
      IngestAllKeepsFiled(b, order, found, target, direct, now, outs, n - 1);
      IngestKeepsFiled(IngestAll(b, order, found, target, direct, now, outs, n - 1), found[order[n - 1]],
                       direct && order[n - 1] == target, now, outs[n - 1]);
    }
  }

  lemma LoopKeepsFiled(b: Book, target: string, items: seq<Item>, compatible: bool, now: Time, outs: seq<set<string>>)
    requires |outs| == |Discover(b.relays, items, target, now).0| && Filed(b.relays)
    ensures DiscoverOk(b.relays, items, target, now, Discover(b.relays, items, target, now).0,
                       Discover(b.relays, items, target, now).1)
    ensures Filed(IngestAll(b, Discover(b.relays, items, target, now).0, Discover(b.relays, items, target, now).1,
                            target,
                            Direct(b.relays, items, target, compatible, now), now, outs, |outs|).relays)
  {
    DiscoverResult(b.relays, items, target, now);
    var (order, found) := Discover(b.relays, items, target, now);
    forall v | v in found ensures found[v].samples == [] {
      assert FromItems(b.relays, items, target, now, v, found[v]);
    }
    IngestAllKeepsFiled(b, order, found, target, Direct(b.relays, items, target, compatible, now), now, outs, |order|);
  }

  lemma ApplyKeepsFiled(b: Book, e: Event)
    requires e.Applied? && |e.outs| == |Discover(ClearBans(b.relays, e.now), e.items, e.target, e.now).0|
    requires Filed(b.relays)
    ensures Filed(ApplyResponse(b, e.target, e.items, e.compatible, e.now, e.wall, e.outs, e.capOut).relays)
  {
    var b1 := b.(relays := ClearBans(b.relays, e.now));
    LoopKeepsFiled(b1, e.target, e.items, e.compatible, e.now, e.outs);
    var b2 := Looped(b, e.target, e.items, e.compatible, e.now, e.outs);
    assert Filed(EnforceCap(b2, e.wall, e.capOut).relays);
  }

  lemma UpsertKeepsFiled(b: Book, r: Relay, now: Time, takeover: bool, out: set<string>)
    requires Filed(b.relays) && |r.samples| <= MAX_SAMPLES
    ensures Filed(UpsertDescriptor(b, r, now, takeover, out).0.relays)
  {
  }

  lemma InsertKeepsFiled(b: Book, i: Item, now: Time, wall: Time, out: set<string>, capOut: set<string>)
    requires Filed(b.relays)
    ensures Filed(InsertCandidate(b, i, now, wall, out, capOut).0.relays)
  {
    var b1 := b.(relays := ClearBans(b.relays, now));
    var r := Candidate(b1.relays, i, now);
    UpsertKeepsFiled(b1, r, now, false, out);
    var b2 := UpsertDescriptor(b1, r, now, false, out).0;
    assert Filed(EnforceCap(b2, wall, capOut).relays);
  }

  lemma DiscoveryFailureKeepsFiled(b: Book, u: string, budget: int, now: Time)
    requires Filed(b.relays)
    ensures Filed(DiscoveryFailure(b, u, budget, now).relays)
  {
  }

  lemma ActiveFailureKeepsFiled(b: Book, u: string, budget: int, now: Time)
    requires Filed(b.relays)
    ensures Filed(ActiveFailure(b, u, budget, now).relays)
  {
  }

  lemma StepKeepsFiled(b: Book, e: Event, b': Book)
    requires Step(b, e, b') && Filed(b.relays)
    ensures Filed(b'.relays)
  {
    if e.Applied? {
      ApplyKeepsFiled(b, e);
    } else if e.Inserted? {
      InsertKeepsFiled(b, e.item, e.now, e.wall, e.out, e.capOut);
    } else if e.DiscoveryFailed? {
      DiscoveryFailureKeepsFiled(b, e.url, e.budget, e.now);
    } else if e.ActiveFailed? {
      ActiveFailureKeepsFiled(b, e.url, e.budget, e.now);
    }
  }

  /** In every run each entry is filed under the URL its descriptor names. */
  lemma {:induction false} EntriesStayFiled(urls: set<string>, es: seq<Event>, bs: seq<Book>, n: nat)
    requires Run(urls, es, bs) && n <= |es|
    ensures Filed(bs[n].relays)
  {
    if n > 0 {
      var k := n - 1;
      EntriesStayFiled(urls, es, bs, k);
      RunStep(urls, es, bs, k);
      StepKeepsFiled(bs[k], es[k], bs[k + 1]);
    }
  }
}
