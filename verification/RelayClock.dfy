/** Why the rollback guard needs a clock that does not go back. */
module RelayClock {
  import opened Identity
  import opened RelayState
  import opened RelayBook
  import opened RelayRuns

  const START: Time := 100 * HOUR

  function Stated(url: string, address: string, issuedAt: Time): Item {
    Item(Descriptor(url, address, issuedAt, issuedAt + ANNOUNCE_MAX_VALIDITY, true, true, ""), true, true)
  }

  function Insert(i: Item, now: Time): Event { Inserted(i, now, now, {}, {}) }

  /** A book of a few relays, none of them banned. */
  ghost predicate Small(relays: map<string, Relay>) {
    |relays.Keys| <= 4 && forall u :: u in relays ==> !relays[u].banned
  }

  lemma SmallEvictsNothing(relays: map<string, Relay>, address: string, now: Time)
    requires Small(relays)
    ensures ClearBans(relays, now) == relays == relays - {} && IdentityEviction(relays, address, {})
    ensures CapEviction(relays, {})
  {
    var owned := Owned(relays, address);
    assert relays.Keys == owned + (relays.Keys - owned);
    assert |relays| == |relays.Keys|;
  }

  lemma StaysSmall(relays: map<string, Relay>, u: string, r: Relay)
    requires Small(relays) && |relays.Keys| <= 3 && u !in relays && !r.banned
    ensures Small(relays[u := r])
  {
    assert relays[u := r].Keys == relays.Keys + {u};
  }

  lemma InsertIsEnabled(b: Book, i: Item, now: Time)
    requires SignedOk(i) && i.desc.url !in b.relays && |b.relays.Keys| <= 3 && Small(b.relays)
    ensures Enabled(b, Insert(i, now))
  {
    StaysSmall(b.relays, i.desc.url, FromItem(i, now));
    SmallEvictsNothing(b.relays, "", now);
    SmallEvictsNothing(b.relays[i.desc.url := FromItem(i, now)], i.desc.address, now);
  }

  /** The upsert of a new URL that no anchor opposes. */
  lemma UpsertResult(b: Book, i: Item, now: Time)
    requires SignedOk(i) && i.signed && i.desc.url !in b.relays
    requires !RollsBack(FreshAnchors(b.anchors, i.desc.address, now), i.desc)
    ensures UpsertDescriptor(b, FromItem(i, now), now, false, {}).1 == Accepted
    ensures var b1 := UpsertDescriptor(b, FromItem(i, now), now, false, {}).0;
            && b1.relays == b.relays[i.desc.url := FromItem(i, now)] && b1.log == b.log + [i.desc]
            && b1.anchors == Raise(FreshAnchors(b.anchors, i.desc.address, now), i.desc)
  {
  }

  lemma InsertResult(b: Book, i: Item, now: Time)
    requires SignedOk(i) && i.signed && i.public && Fresh(i.desc, now)
    requires i.desc.url !in b.relays && |b.relays.Keys| <= 3 && Small(b.relays)
    requires !RollsBack(FreshAnchors(b.anchors, i.desc.address, now), i.desc)
    ensures var relays := b.relays[i.desc.url := FromItem(i, now)];
            var anchors := SweepAnchors(Raise(FreshAnchors(b.anchors, i.desc.address, now), i.desc), now);
            Small(relays) && InsertCandidate(b, i, now, now, {}, {}).0 == Book(relays, anchors, b.log + [i.desc])
  {
    StaysSmall(b.relays, i.desc.url, FromItem(i, now));
    SmallEvictsNothing(b.relays, "", now);
    SmallEvictsNothing(b.relays[i.desc.url := FromItem(i, now)], "", now);
    UpsertResult(b, i, now);
  }

  lemma InsertStep(b: Book, i: Item, now: Time) returns (b': Book)
    requires SignedOk(i) && i.signed && i.public && Fresh(i.desc, now)
    requires i.desc.url !in b.relays && |b.relays.Keys| <= 3 && Small(b.relays)
    requires !RollsBack(FreshAnchors(b.anchors, i.desc.address, now), i.desc)
    ensures Step(b, Insert(i, now), b') && Small(b'.relays) && b'.relays.Keys == b.relays.Keys + {i.desc.url}
    ensures b'.anchors == SweepAnchors(Raise(FreshAnchors(b.anchors, i.desc.address, now), i.desc), now)
    ensures b'.log == b.log + [i.desc]
  {
    InsertIsEnabled(b, i, now);
    InsertResult(b, i, now);
    b' := InsertCandidate(b, i, now, now, {}, {}).0;
  }

  lemma EmptyBook()
    ensures Bootstrapped({}) == Book(map[], map[], []) && Small(Bootstrapped({}).relays)
  {
    assert Bootstrapped({}).relays == map[];
  }

  lemma FirstInsert() returns (b1: Book)
    ensures Step(Bootstrapped({}), Insert(Stated("u", "a", START), START), b1)
    ensures b1.anchors == map["a" := Anchor(START, START + ANNOUNCE_MAX_VALIDITY)] && Small(b1.relays)
    ensures b1.relays.Keys == {"u"}
    ensures b1.log == [Stated("u", "a", START).desc]
  {
    EmptyBook();
    b1 := InsertStep(Bootstrapped({}), Stated("u", "a", START), START);
  }

  /** The second insertion sweeps the anchor of "a". */
  lemma SecondInsert(b1: Book) returns (b2: Book)
    requires b1.anchors == map["a" := Anchor(START, START + ANNOUNCE_MAX_VALIDITY)] && Small(b1.relays)
    requires b1.relays.Keys == {"u"}
    ensures Step(b1, Insert(Stated("v", "b", START + 25 * HOUR), START + 25 * HOUR), b2)
    ensures "a" !in b2.anchors && Small(b2.relays) && b2.relays.Keys == {"u", "v"} && |b2.log| == |b1.log| + 1
    ensures b1.log <= b2.log
  {
    b2 := InsertStep(b1, Stated("v", "b", START + 25 * HOUR), START + 25 * HOUR);
  }

  lemma ThirdInsert(b2: Book) returns (b3: Book)
    requires "a" !in b2.anchors && Small(b2.relays) && b2.relays.Keys == {"u", "v"}
    requires |b2.log| == 2 && b2.log[0] == Stated("u", "a", START).desc
    ensures Step(b2, Insert(Stated("w", "a", START - HOUR), START), b3) && !NeverDecreases(b3.log)
  {
    b3 := InsertStep(b2, Stated("w", "a", START - HOUR), START);
    assert b3.log[0].issuedAt > b3.log[2].issuedAt;
  }

  lemma TwoInserts() returns (es: seq<Event>, bs: seq<Book>)
    ensures Run({}, es, bs) && |es| == 2
    ensures "a" !in bs[2].anchors && Small(bs[2].relays) && bs[2].relays.Keys == {"u", "v"}
    ensures |bs[2].log| == 2 && bs[2].log[0] == Stated("u", "a", START).desc
  {
    es, bs := [], [Bootstrapped({})];
    var b1 := FirstInsert();
    RunGrows({}, es, bs, Insert(Stated("u", "a", START), START), b1);
    es, bs := es + [Insert(Stated("u", "a", START), START)], bs + [b1];
    var b2 := SecondInsert(b1);
    RunGrows({}, es, bs, Insert(Stated("v", "b", START + 25 * HOUR), START + 25 * HOUR), b2);
    es, bs := es + [Insert(Stated("v", "b", START + 25 * HOUR), START + 25 * HOUR)], bs + [b2];
  }

  /** With a reading that goes back the claim fails: identity "a" states URL u, a
      day passes and another insertion sweeps the anchor of "a", then a reading
      from before that day accepts an older statement of "a". */
  lemma ClockBackAllowsRollback() returns (es: seq<Event>, bs: seq<Book>)
    ensures Run({}, es, bs) && |es| == 3 && !NeverDecreases(bs[3].log)
  {
    es, bs := TwoInserts();
    var b3 := ThirdInsert(bs[2]);
    RunGrows({}, es, bs, Insert(Stated("w", "a", START - HOUR), START), b3);
    es, bs := es + [Insert(Stated("w", "a", START - HOUR), START)], bs + [b3];
  }

  // ---------------------------------------------------------------- exactly when

  /** Nothing on file for the URL of d turns it down. */
  predicate Unopposed(relays: map<string, Relay>, d: Descriptor, now: Time) {
    && (d.url in relays ==> !relays[d.url].banned)
    && !Contradicts(relays, d) && !TakeoverBlocked(relays, d, now)
  }

  lemma InsertAccepts(b: Book, e: Event, b': Book)
    requires Step(b, e, b') && e.Inserted?
    ensures b'.log == b.log + [e.item.desc] <==>
            && Offered(e.item, e.now) && Unopposed(ClearBans(b.relays, e.now), e.item.desc, e.now)
            && !RollsBack(FreshAnchors(b.anchors, e.item.desc.address, e.now), e.item.desc)
  {
    assert b.log != b.log + [e.item.desc];
  }

  /** An anchor that opposes a fresh descriptor has not lapsed. */
  lemma OpposingAnchorLasts(anchors: map<string, Anchor>, d: Descriptor, now: Time)
    requires AnchorsLast(anchors) && Fresh(d, now)
    ensures RollsBack(FreshAnchors(anchors, d.address, now), d) <==> RollsBack(anchors, d)
  {
  }

  /** Exactly when an insertion accepts a descriptor older than an accepted one of
      the same identity, in any run: it is offered, nothing on file opposes it,
      and the anchor left for the identity is not newer. Then some earlier
      operation read a time after the replay window of the newer descriptor, and
      this one reads a time within it. */
  lemma RollbackExactly(urls: set<string>, es: seq<Event>, bs: seq<Book>, k: nat, j: nat) returns (m: nat)
    requires Run(urls, es, bs) && k < |es| && es[k].Inserted? && j < |bs[k].log|
    requires var d := es[k].item.desc; bs[k].log[j].address == d.address && d.issuedAt < bs[k].log[j].issuedAt
    ensures var (d, now) := (es[k].item.desc, es[k].now);
            && (bs[k + 1].log == bs[k].log + [d] <==>
                && Offered(es[k].item, now) && Unopposed(ClearBans(bs[k].relays, now), d, now)
                && !RollsBack(bs[k].anchors, d))
            && (bs[k + 1].log == bs[k].log + [d] ==>
                  && m < k && Ingests(es[m])
                  && now < bs[k].log[j].issuedAt + ANNOUNCE_MAX_VALIDITY < Later(es[m].now, es[m].wall))
  {
    var (d, now, newer) := (es[k].item.desc, es[k].now, bs[k].log[j]);
    RunStep(urls, es, bs, k);
    InsertAccepts(bs[k], es[k], bs[k + 1]);
    m := 0;
    if Offered(es[k].item, now) {
      AnchorsAlwaysLast(urls, es, bs, k);
      OpposingAnchorLasts(bs[k].anchors, d, now);
      if !RollsBack(bs[k].anchors, d) {
        m := LaterReading(urls, es, bs, k, j);
      }
    }
  }

  function Later(a: Time, b: Time): Time { if a < b then b else a }

  /** A bound on all readings of the first n operations. */
  lemma {:induction false} ReadingsAreBounded(es: seq<Event>, n: nat) returns (h: Time)
    requires n <= |es|
    ensures NoneLater(es, n, h)
  {
    h := 0;
    if n > 0 {
      h := ReadingsAreBounded(es, n - 1);
      if Ingests(es[n - 1]) {
        h := Later(h, Later(es[n - 1].now, es[n - 1].wall));
      }
    }
  }

  lemma AnchorsAlwaysLast(urls: set<string>, es: seq<Event>, bs: seq<Book>, n: nat)
    requires Run(urls, es, bs) && n <= |es|
    ensures AnchorsLast(bs[n].anchors)
  {
    var h := ReadingsAreBounded(es, n);
    AnchorsHold(urls, es, bs, n, h);
  }

  /** A descriptor loses its anchor only to a reading after its replay window. */
  lemma LaterReading(urls: set<string>, es: seq<Event>, bs: seq<Book>, k: nat, j: nat) returns (m: nat)
    requires Run(urls, es, bs) && k <= |es| && j < |bs[k].log|
    requires var d := bs[k].log[j];
             d.address !in bs[k].anchors || bs[k].anchors[d.address].issuedAt < d.issuedAt
    ensures m < k && Ingests(es[m])
    ensures bs[k].log[j].issuedAt + ANNOUNCE_MAX_VALIDITY < Later(es[m].now, es[m].wall)
  {
    var h := bs[k].log[j].issuedAt + ANNOUNCE_MAX_VALIDITY;
    if NoneLater(es, k, h) {
      AnchorsHold(urls, es, bs, k, h);
    }
    m :| 0 <= m < k && Ingests(es[m]) && !(es[m].now <= h && es[m].wall <= h);
  }
}
