/** The relay set of portal/discovery/relayset.go: what each operation under its
    lock does to the relays and the rollback anchors. Where the code sorts
    entries of equal age or walks a map, the choice it makes is an argument. */
module RelayBook {
  import opened Identity
  import opened RelayState

  /** The newest IssuedAt accepted for an identity, kept until `until`. */
  datatype Anchor = Anchor(issuedAt: Time, until: Time)

  /** RelaySet, with the log of descriptors it has accepted. */
  datatype Book = Book(relays: map<string, Relay>, anchors: map<string, Anchor>, log: seq<Descriptor>)

  datatype Upsert = Rejected | Accepted | Ignored | Conflicting

  // ---------------------------------------------------------------- bans

  predicate BanExpired(r: Relay, now: Time) {
    r.banned && r.suppressUntil != 0 && !(r.suppressUntil > now)
  }

  /** clearExpiredPoolBansLocked. */
  function ClearBans(relays: map<string, Relay>, now: Time): map<string, Relay> {
    map u | u in relays && (BanExpired(relays[u], now) ==> relays[u].bootstrap) ::
      if BanExpired(relays[u], now) then relays[u].(banned := false, suppressUntil := 0, unhealthySince := 0)
      else relays[u]
  }

  function RelayAt(b: Book, u: string): Relay {
    if u in b.relays then b.relays[u] else NewRelay(u)
  }

  function Ban(b: Book, u: string): Book {
    b.(relays := b.relays[u := RelayAt(b, u).(suppressUntil := 0, banned := true)])
  }

  function Allow(b: Book, u: string): Book {
    b.(relays := b.relays[u := RelayAt(b, u).(banned := false, suppressUntil := 0, unhealthySince := 0)])
  }

  function Deactivate(b: Book, u: string, now: Time): Book {
    if u in b.relays then b.(relays := b.relays[u := b.relays[u].(suppressUntil := now + RECOVERY_BACKOFF)]) else b
  }

  function Ensure(b: Book, u: string): Book {
    if u in b.relays then b else b.(relays := b.relays[u := NewRelay(u)])
  }

  function BanFromPool(b: Book, u: string, now: Time): Book {
    if u == "" then b
    else b.(relays := b.relays[u := NewRelay(u).(bootstrap := u in b.relays && b.relays[u].bootstrap, banned := true,
                                                 suppressUntil := now + POOL_BAN_TTL)])
  }

  // ---------------------------------------------------------------- health

  function RecordRTT(b: Book, u: string, rtt: int, at: Time): Book {
    if u !in b.relays then b
    else b.(relays := b.relays[u := b.relays[u].(samples := AddSample(b.relays[u].samples, rtt), rtt := rtt,
                                                 rttAt := at)])
  }

  function Doubled(n: nat): nat { if n == 0 then 1 else 2 * Doubled(n - 1) }

  function Backoff(over: nat): int {
    var d := RECOVERY_BACKOFF * Doubled(if over < 3 then over else 3);
    if d < MAX_RECOVERY_BACKOFF then d else MAX_RECOVERY_BACKOFF
  }

  function DiscoveryFailure(b0: Book, u: string, budget: int, now: Time): Book {
    var b := b0.(relays := ClearBans(b0.relays, now));
    if u !in b.relays || b.relays[u].banned then b
    else
      var failures := b.relays[u].discoveryFailures + 1;
      var since := if b.relays[u].unhealthySince == 0 then now else b.relays[u].unhealthySince;
      var r := b.relays[u].(discoveryFailures := failures, unhealthySince := since);
      if !(since + ANNOUNCE_MAX_VALIDITY > now) then BanFromPool(b, u, now)
      else if budget <= 0 || failures < budget then b.(relays := b.relays[u := r])
      else b.(relays := b.relays[u := r.(dead := true, nextRefreshAt := now + Backoff(failures - budget))])
  }

  function ActiveFailure(b0: Book, u: string, budget: int, now: Time): Book {
    var b := b0.(relays := ClearBans(b0.relays, now));
    if u !in b.relays || b.relays[u].banned then b
    else
      var failures := b.relays[u].activeFailures + 1;
      var r := b.relays[u].(activeFailures := failures);
      if budget <= 0 || failures < budget then b.(relays := b.relays[u := r])
      else b.(relays := b.relays[u := r.(suppressUntil := now + Backoff(failures - budget))])
  }

  // ---------------------------------------------------------------- eviction

  /** The candidates of one identity. */
  function Owned(relays: map<string, Relay>, address: string): set<string> {
    set u | u in relays && !relays[u].bootstrap && !relays[u].banned && !relays[u].verified
            && relays[u].desc.address == address
  }

  /** The oldest candidates of the identity beyond its cap, ties either way. */
  ghost predicate IdentityEviction(relays: map<string, Relay>, address: string, out: set<string>) {
    var owned := Owned(relays, address);
    && out <= owned
    && |out| == (if address == "" || |owned| <= MAX_PER_IDENTITY then 0 else |owned| - MAX_PER_IDENTITY)
    && forall e, k :: e in out && k in owned && k !in out ==> relays[e].lastSeenAt <= relays[k].lastSeenAt
  }

  function Evictable(relays: map<string, Relay>): set<string> {
    set u | u in relays && !relays[u].bootstrap && !relays[u].banned
  }

  /** Candidates before verified entries, then the older first. */
  predicate EvictedFirst(a: Relay, b: Relay) {
    (!a.verified && b.verified) || (a.verified == b.verified && a.lastSeenAt <= b.lastSeenAt)
  }

  ghost predicate CapEviction(relays: map<string, Relay>, out: set<string>) {
    var pool := Evictable(relays);
    && out <= pool
    && |out| == (if |relays| <= MAX_ANNOUNCED then 0
                 else if |relays| - MAX_ANNOUNCED <= |pool| then |relays| - MAX_ANNOUNCED else |pool|)
    && forall e, k :: e in out && k in pool && k !in out ==> EvictedFirst(relays[e], relays[k])
  }

  /** Anchors whose replay window has closed are forgotten. */
  function SweepAnchors(anchors: map<string, Anchor>, now: Time): map<string, Anchor> {
    map a | a in anchors && !(anchors[a].until != 0 && now > anchors[a].until) :: anchors[a]
  }

  /** enforceCapLocked, at the clock reading it takes itself. */
  function EnforceCap(b: Book, now: Time, out: set<string>): Book {
    b.(relays := ClearBans(b.relays, now) - out, anchors := SweepAnchors(b.anchors, now))
  }

  // ---------------------------------------------------------------- upsert

  /** A stale anchor is dropped before it is consulted. */
  function FreshAnchors(anchors: map<string, Anchor>, address: string, now: Time): map<string, Anchor> {
    if address in anchors && anchors[address].until != 0 && now > anchors[address].until then anchors - {address}
    else anchors
  }

  predicate RollsBack(anchors: map<string, Anchor>, d: Descriptor) {
    d.address in anchors && d.issuedAt < anchors[d.address].issuedAt
  }

  function RollbackResult(relays: map<string, Relay>, d: Descriptor, now: Time): Upsert {
    if d.url in relays && relays[d.url].desc.address == d.address && relays[d.url].desc.expiresAt > now
       && relays[d.url].desc.issuedAt >= d.issuedAt
    then Ignored else Rejected
  }

  predicate TakeoverBlocked(relays: map<string, Relay>, d: Descriptor, now: Time) {
    d.url in relays && relays[d.url].desc.address != "" && d.address != "" && relays[d.url].desc.address != d.address
    && relays[d.url].desc.expiresAt != 0 && relays[d.url].desc.expiresAt > now
  }

  predicate Contradicts(relays: map<string, Relay>, d: Descriptor) {
    d.url in relays && relays[d.url].desc.address == d.address && relays[d.url].desc.issuedAt == d.issuedAt
    && relays[d.url].desc != d
  }

  function Raise(anchors: map<string, Anchor>, d: Descriptor): map<string, Anchor> {
    var issuedAt, until := d.issuedAt, d.issuedAt + ANNOUNCE_MAX_VALIDITY;
    if d.address in anchors then
      var prev := anchors[d.address];
      anchors[d.address := Anchor(if prev.issuedAt > issuedAt then prev.issuedAt else issuedAt,
                                  if prev.until > until then prev.until else until)]
    else anchors[d.address := Anchor(issuedAt, until)]
  }

  /** What upsertDescriptorLocked decides, before it stores anything. */
  function Verdict(b: Book, d: Descriptor, now: Time, takeover: bool): Upsert {
    if d.url == "" then Rejected
    else if d.url in b.relays && b.relays[d.url].banned then Rejected
    else if Contradicts(b.relays, d) then Conflicting
    else if d.address != "" && RollsBack(FreshAnchors(b.anchors, d.address, now), d)
      then RollbackResult(b.relays, d, now)
    else if !takeover && TakeoverBlocked(b.relays, d, now) then Rejected
    else Accepted
  }

  /** The anchors after the decision: consulting them may drop a stale one. */
  function Consulted(b: Book, d: Descriptor, now: Time): map<string, Anchor> {
    if d.url == "" || (d.url in b.relays && b.relays[d.url].banned) || Contradicts(b.relays, d) || d.address == ""
      then b.anchors
    else FreshAnchors(b.anchors, d.address, now)
  }

  function UpsertDescriptor(b: Book, r: Relay, now: Time, takeover: bool, out: set<string>): (Book, Upsert) {
    var d, anchors := r.desc, Consulted(b, r.desc, now);
    var verdict := Verdict(b, d, now, takeover);
    if verdict != Accepted then (b.(anchors := anchors), verdict)
    else (Book(b.relays[d.url := r] - out, if d.address != "" then Raise(anchors, d) else anchors, b.log + [d]),
          Accepted)
  }

  // ---------------------------------------------------------------- announce

  /** A descriptor as it arrives: whether its signature verifies (then it names
      an identity and a URL), and whether its URL is public. */
  datatype Item = Item(desc: Descriptor, signed: bool, public: bool)

  datatype InsertError = NoError | NotFresh | NotPublic | RelayBanned | GuardRejected | Contradiction

  function FromItem(i: Item, now: Time): Relay { NewRelay("").(desc := i.desc, lastSeenAt := now) }

  /** InsertCandidate; `wall` is the clock reading of the cap. */
  function InsertCandidate(b0: Book, i: Item, now: Time, wall: Time, out: set<string>,
                           capOut: set<string>): (Book, InsertError) {
    if !i.signed || !Fresh(i.desc, now) then (b0, NotFresh)
    else if !i.public then (b0, NotPublic)
    else
      var b := b0.(relays := ClearBans(b0.relays, now));
      var u := i.desc.url;
      if u in b.relays && b.relays[u].banned then (b, RelayBanned)
      else
        var r := if u in b.relays then Merge(FromItem(i, now), b.relays[u]) else FromItem(i, now);
        var (b1, verdict) := UpsertDescriptor(b, r, now, false, out);
        match verdict
        case Accepted => (EnforceCap(b1, wall, capOut), NoError)
        case Ignored => (b1, NoError)
        case Rejected => (b1, GuardRejected)
        case Conflicting => (b1, Contradiction)
  }

  // ---------------------------------------------------------------- discovery responses

  /** discoveryRelayStateLocked: what may be admitted from a response of `target`. */
  predicate Admissible(relays: map<string, Relay>, i: Item, target: string, now: Time) {
    && i.signed && Fresh(i.desc, now)
    && (i.public || (i.desc.url == target && target in relays && relays[target].bootstrap))
    && !(i.desc.url in relays && relays[i.desc.url].banned)
  }

  /** The admitted descriptors: URLs in order of first appearance, the last
      descriptor for each. */
  function Discover(relays: map<string, Relay>, items: seq<Item>, target: string,
                    now: Time): (seq<string>, map<string, Relay>) {
    if items == [] then ([], map[])
    else
      var n := |items| - 1;
      var (order, found) := Discover(relays, items[..n], target, now);
      var i := items[n];
      if !Admissible(relays, i, target, now) then (order, found)
      else (if i.desc.url in found then order else order + [i.desc.url], found[i.desc.url := FromItem(i, now)])
  }

  /** One round of the loop: `direct` holds for the polled URL's own descriptor. */
  function Ingest(b: Book, found: Relay, direct: bool, now: Time, out: set<string>): (Book, Upsert) {
    var u := found.desc.url;
    var merged := Merge(found, if u in b.relays then b.relays[u] else ZERO_RELAY);
    var r := if direct then MarkVerified(merged) else merged;
    var (b1, verdict) := UpsertDescriptor(b, r, now, direct, out);
    if verdict == Accepted || verdict == Conflicting || !direct || u !in b.relays || !Troubled(b.relays[u])
      then (b1, verdict)
    else (b1.(relays := b1.relays[u := MarkVerified(b.relays[u])]), verdict)
  }

  /** The loop over the first n discovered URLs; outs are the evictions. */
  function IngestAll(b: Book, order: seq<string>, found: map<string, Relay>, target: string, direct: bool, now: Time,
                     outs: seq<set<string>>, n: nat): Book
    requires n <= |order| && n <= |outs| && forall i :: 0 <= i < |order| ==> order[i] in found
  {
    if n == 0 then b
    else
      var b1 := IngestAll(b, order, found, target, direct, now, outs, n - 1);
      Ingest(b1, found[order[n - 1]], direct && order[n - 1] == target, now, outs[n - 1]).0
  }

  /** u was admitted from some item of the response. */
  ghost predicate FromItems(relays: map<string, Relay>, items: seq<Item>, target: string, now: Time, u: string,
                            r: Relay) {
    exists k :: 0 <= k < |items| && Admissible(relays, items[k], target, now)
                && items[k].desc.url == u && r == FromItem(items[k], now)
  }

  ghost predicate DiscoverOk(relays: map<string, Relay>, items: seq<Item>, target: string, now: Time,
                             order: seq<string>, found: map<string, Relay>) {
    && (forall i :: 0 <= i < |order| ==> order[i] in found)
    && (forall u :: u in found ==> u in order && FromItems(relays, items, target, now, u, found[u]))
    && (forall i, j :: 0 <= i < j < |order| ==> order[i] != order[j])
  }

  lemma {:induction false} DiscoverResult(relays: map<string, Relay>, items: seq<Item>, target: string, now: Time)
    ensures DiscoverOk(relays, items, target, now, Discover(relays, items, target, now).0,
                       Discover(relays, items, target, now).1)
  {
    if items != [] {
      var n := |items| - 1;
      DiscoverResult(relays, items[..n], target, now);
      var (order, found) := Discover(relays, items[..n], target, now);
      var (order', found') := Discover(relays, items, target, now);
      forall u | u in found' ensures u in order' && FromItems(relays, items, target, now, u, found'[u]) {
        if Admissible(relays, items[n], target, now) && u == items[n].desc.url {
          assert FromItems(relays, items, target, now, u, FromItem(items[n], now));
          assert u !in found ==> order'[|order'| - 1] == u;
        } else {
          var k :| 0 <= k < n && Admissible(relays, items[..n][k], target, now) && items[..n][k].desc.url == u
                   && found[u] == FromItem(items[..n][k], now);
          assert items[k] == items[..n][k];
        }
      }
    }
  }

  /** The response comes from a direct poll of `target` with our protocol and
      contains a fresh signed descriptor of that URL. */
  predicate Direct(relays: map<string, Relay>, items: seq<Item>, target: string, compatible: bool, now: Time) {
    target != "" && compatible && target in Discover(relays, items, target, now).1
  }

  /** ApplyRelayDiscoveryResponse for a response within the size limits. */
  function ApplyResponse(b0: Book, target: string, items: seq<Item>, compatible: bool, now: Time, wall: Time,
                         outs: seq<set<string>>, capOut: set<string>): Book
    requires |outs| == |Discover(ClearBans(b0.relays, now), items, target, now).0|
  {
    var b := b0.(relays := ClearBans(b0.relays, now));
    DiscoverResult(b.relays, items, target, now);
    var (order, found) := Discover(b.relays, items, target, now);
    EnforceCap(IngestAll(b, order, found, target, Direct(b.relays, items, target, compatible, now), now, outs, |order|),
               wall, capOut)
  }
}
