/** The lease registry of portal/lease.go and portal/record.go. Each function is
    one section under the registry lock. Records are named by ids, because the
    code compares record pointers; a record outlives its place in the list. */
module LeaseState {
  import opened Identity
  import opened Orders

  type RecordId = nat
  type BridgeId = nat

  const BRIDGE_LIMIT := 128
  const CHALLENGE_TTL := 2 * MINUTE
  const PENDING_PER_SOURCE := 32
  const PENDING_LIMIT := 256

  datatype Access = Routable | Pending | Denied

  datatype Challenge = Challenge(id: string, key: ServiceKey)

  /** A public connection: cancelled once its context is, attached once it has
      taken a reverse stream. */
  datatype Bridge = Bridge(cancelled: bool, attached: bool)

  /** leaseRecord: a pending challenge or a lease. `reverse` is the presence of
      its reverse pool. */
  datatype Record = Record(key: ServiceKey, id: string, expiresAt: Time, source: string, registerSource: string,
                           hostname: string, canonical: string, challenge: Option<Challenge>,
                           udp: bool, tcpPort: int, reverse: bool, closed: bool, bridges: map<BridgeId, Bridge>)

  datatype Blocked = Blocked(pushedAt: Time, access: Access)

  datatype Registry = Registry(records: seq<RecordId>, store: map<RecordId, Record>,
                               blocked: map<ServiceKey, Blocked>, revision: nat)

  const EMPTY := Registry([], map[], map[], 0)

  datatype Error = LeaseNotFound | Rejected | Closed | HostnameConflict | UDPCapacity | TCPCapacity
    | Unauthorized | ChallengePending | ChallengeNotFound | ChallengeExpired | ChallengeInvalid | BudgetExceeded

  datatype Outcome<T> = Ok(value: T) | Fail(error: Error)

  /** The list leads to records. */
  ghost predicate Linked(records: seq<RecordId>, store: map<RecordId, Record>) {
    forall i :: 0 <= i < |records| ==> records[i] in store
  }

  ghost predicate WellFormed(g: Registry) { Linked(g.records, g.store) && Distinct(g.records) }

  function At(g: Registry, i: nat): Record
    requires Linked(g.records, g.store) && i < |g.records|
  {
    g.store[g.records[i]]
  }

  predicate IsExpired(r: Record, now: Time) { now != 0 && !(now < r.expiresAt) }
  predicate IsPublic(r: Record) { r.canonical != "" }
  predicate IsRoutable(g: Registry, key: ServiceKey) { key !in g.blocked }

  // ---------------------------------------------------------------- lookup

  predicate LiveLease(r: Record, key: ServiceKey, now: Time) {
    r.reverse && !IsExpired(r, now) && r.key == key
  }

  /** recordByKey from position i on. */
  function FindLease(g: Registry, key: ServiceKey, now: Time, i: nat): Option<RecordId>
    requires Linked(g.records, g.store)
    decreases |g.records| - i
  {
    if i >= |g.records| then None
    else if LiveLease(At(g, i), key, now) then Some(g.records[i])
    else FindLease(g, key, now, i + 1)
  }

  function RecordByKey(g: Registry, key: ServiceKey, now: Time): Option<RecordId>
    requires Linked(g.records, g.store)
  {
    FindLease(g, key, now, 0)
  }

  /** recordByLease(record.ServiceKey(), record.id, now) == record. */
  predicate IsCurrent(g: Registry, r: RecordId, now: Time)
    requires Linked(g.records, g.store) && r in g.store
  {
    RecordByKey(g, g.store[r].key, now) == Some(r)
  }

  // ---------------------------------------------------------------- access decisions

  function CancelAll(bridges: map<BridgeId, Bridge>): map<BridgeId, Bridge> {
    map b | b in bridges :: bridges[b].(cancelled := true)
  }

  /** The records of the identity that are in the list lose their bridges. */
  function Revoke(g: Registry, key: ServiceKey): map<RecordId, Record>
    requires Linked(g.records, g.store)
  {
    map r | r in g.store ::
      if r in g.records && g.store[r].key == key then g.store[r].(bridges := CancelAll(g.store[r].bridges))
      else g.store[r]
  }

  /** applyIdentityAccessLocked. */
  function ApplyAccess(g: Registry, key: ServiceKey, access: Access, now: Time): Registry
    requires Linked(g.records, g.store)
  {
    if access == Routable then g.(blocked := g.blocked - {key})
    else g.(blocked := g.blocked[key := Blocked(now, access)], store := Revoke(g, key))
  }

  /** setIdentityAccess: an older revision than one already seen changes nothing. */
  function SetAccess(g: Registry, key: ServiceKey, access: Access, revision: nat, now: Time): (Registry, bool)
    requires Linked(g.records, g.store)
  {
    if !key.Valid() then (g, true)
    else if revision < g.revision then (g, false)
    else (ApplyAccess(g, key, access, now).(revision := revision), true)
  }

  function Suspend(g: Registry, key: ServiceKey, now: Time): Registry
    requires Linked(g.records, g.store)
  {
    ApplyAccess(g, key, Pending, now)
  }

  // ---------------------------------------------------------------- bridges

  /** admitBridge; b names the new bridge and `done` is the caller's context. */
  function AdmitBridge(g: Registry, r: RecordId, b: BridgeId, done: bool, now: Time): (Registry, Outcome<BridgeId>)
    requires Linked(g.records, g.store) && r in g.store
  {
    var rec := g.store[r];
    if !IsCurrent(g, r, now) then (g, Fail(LeaseNotFound))
    else if !IsRoutable(g, rec.key) then (g, Fail(Rejected))
    else if rec.closed || done then (g, Fail(Closed))
    else if |rec.bridges| >= BRIDGE_LIMIT then (g, Fail(Rejected))
    else (g.(store := g.store[r := rec.(bridges := rec.bridges[b := Bridge(false, false)])]), Ok(b))
  }

  function ActivateBridge(g: Registry, r: RecordId, b: BridgeId, now: Time): (Registry, Outcome<BridgeId>)
    requires Linked(g.records, g.store) && r in g.store
  {
    var rec := g.store[r];
    if !IsCurrent(g, r, now) then (g, Fail(LeaseNotFound))
    else if !IsRoutable(g, rec.key) then (g, Fail(Rejected))
    else if b !in rec.bridges || rec.closed || rec.bridges[b].cancelled then (g, Fail(Closed))
    else (g.(store := g.store[r := rec.(bridges := rec.bridges[b := rec.bridges[b].(attached := true)])]), Ok(b))
  }

  /** The context of one bridge ends: releaseBridge's first section, or the caller's doing. */
  function CancelBridge(g: Registry, r: RecordId, b: BridgeId): Registry
    requires r in g.store
  {
    var rec := g.store[r];
    if b !in rec.bridges then g
    else g.(store := g.store[r := rec.(bridges := rec.bridges[b := rec.bridges[b].(cancelled := true)])])
  }

  /** releaseBridge's second section. */
  function RemoveBridge(g: Registry, r: RecordId, b: BridgeId): Registry
    requires r in g.store
  {
    g.(store := g.store[r := g.store[r].(bridges := g.store[r].bridges - {b})])
  }

  /** leaseRecord.Close. */
  function CloseRecord(g: Registry, r: RecordId): Registry
    requires r in g.store
  {
    if g.store[r].closed then g
    else g.(store := g.store[r := g.store[r].(closed := true, bridges := CancelAll(g.store[r].bridges))])
  }

  // ---------------------------------------------------------------- the list

  /** deleteRecord: the last record moves into the gap. */
  function SwapDelete(s: seq<RecordId>, i: nat): seq<RecordId>
    requires i < |s|
  {
    s[i := s[|s| - 1]][..|s| - 1]
  }

  /** The loops that delete while they walk: a moved record is looked at next. */
  function Purge(s: seq<RecordId>, i: nat, drop: set<RecordId>): seq<RecordId>
    requires i <= |s|
    decreases |s| - i
  {
    if i == |s| then s
    else if s[i] in drop then Purge(SwapDelete(s, i), i, drop)
    else Purge(s, i + 1, drop)
  }

  function IndexOf(s: seq<RecordId>, r: RecordId): (i: nat)
    requires r in s
    ensures i < |s| && s[i] == r
  {
    if s[0] == r then 0 else 1 + IndexOf(s[1..], r)
  }

  // ---------------------------------------------------------------- registration

  datatype Policy = Policy(udpMax: int, tcpMax: int, allowFallback: bool)

  /** An unexpired public record of another identity. */
  predicate Rival(r: Record, key: ServiceKey, now: Time) {
    !IsExpired(r, now) && IsPublic(r) && r.key != key
  }

  predicate CanonicalTaken(g: Registry, rec: Record, now: Time)
    requires Linked(g.records, g.store)
  {
    exists i :: 0 <= i < |g.records| && Rival(At(g, i), rec.key, now) && At(g, i).canonical == rec.canonical
  }

  predicate NameTaken(g: Registry, rec: Record, now: Time)
    requires Linked(g.records, g.store)
  {
    rec.hostname != "" &&
    exists i :: 0 <= i < |g.records| && Rival(At(g, i), rec.key, now) && At(g, i).hostname == rec.hostname
  }

  /** The leases of other identities that hold a UDP (or TCP) port, among the first n records. */
  function Holders(g: Registry, key: ServiceKey, now: Time, udp: bool, n: nat): nat
    requires Linked(g.records, g.store) && n <= |g.records|
  {
    if n == 0 then 0
    else
      var r := At(g, n - 1);
      Holders(g, key, now, udp, n - 1) +
      (if !IsExpired(r, now) && r.key != key && (if udp then r.udp else r.tcpPort > 0) then 1 else 0)
  }

  /** The first lease of the identity, expired or not. */
  function FirstLease(g: Registry, key: ServiceKey, i: nat): Option<nat>
    requires Linked(g.records, g.store)
    decreases |g.records| - i
  {
    if i >= |g.records| then None
    else if At(g, i).reverse && At(g, i).key == key then Some(i)
    else FirstLease(g, key, i + 1)
  }

  /** Records without a reverse pool that hold the new lease's canonical name. */
  function Stale(g: Registry, rec: Record): set<RecordId>
    requires Linked(g.records, g.store)
  {
    set r | r in g.records && r in g.store && !g.store[r].reverse && IsPublic(g.store[r]) && g.store[r].key == rec.key
            && g.store[r].canonical == rec.canonical
  }

  /** The second section of Register: rec becomes record r, or is refused. */
  function Commit(g: Registry, r: RecordId, rec: Record, policy: Policy,
                  now: Time): (Registry, Outcome<Option<RecordId>>)
    requires Linked(g.records, g.store)
    requires Stale(g, rec) == {}
  {
    if CanonicalTaken(g, rec, now) || (NameTaken(g, rec, now) && !policy.allowFallback) then (g, Fail(HostnameConflict))
    else if rec.udp && policy.udpMax > 0 && Holders(g, rec.key, now, true, |g.records|) >= policy.udpMax
      then (g, Fail(UDPCapacity))
    else if rec.tcpPort > 0 && policy.tcpMax > 0 && Holders(g, rec.key, now, false, |g.records|) >= policy.tcpMax
      then (g, Fail(TCPCapacity))
    else
      var named := if NameTaken(g, rec, now) then rec.(hostname := "") else rec;
      var store := g.store[r := named];
      match FirstLease(g, rec.key, 0)
      case Some(i) =>
        FirstLeaseInRange(g, rec.key, 0);
        (g.(records := g.records[i := r], store := store), Ok(Some(g.records[i])))
      case None => (g.(records := g.records + [r], store := store), Ok(None))
  }

  lemma {:induction false} FirstLeaseInRange(g: Registry, key: ServiceKey, i: nat)
    requires Linked(g.records, g.store)
    ensures var f := FirstLease(g, key, i);
            && (f.Some? ==> i <= f.value < |g.records| && At(g, f.value).reverse && At(g, f.value).key == key)
            && (f.None? ==> forall j :: i <= j < |g.records| ==> !(At(g, j).reverse && At(g, j).key == key))
            && (f.Some? ==> forall j :: i <= j < f.value ==> !(At(g, j).reverse && At(g, j).key == key))
    decreases |g.records| - i
  {
    if i < |g.records| && !(At(g, i).reverse && At(g, i).key == key) {
      FirstLeaseInRange(g, key, i + 1);
    }
  }

  /** Renew, once its token is verified; the lookup ignores expiry. */
  function Renew(g: Registry, key: ServiceKey, id: string, expiresAt: Time,
                 source: string): (Registry, Outcome<RecordId>)
    requires Linked(g.records, g.store)
  {
    match RecordByKey(g, key, 0)
    case None => (g, Fail(LeaseNotFound))
    case Some(r) =>
      FoundInStore(g, key, 0, 0);
      if g.store[r].id != id then (g, Fail(Unauthorized))
      else
        var seen := if source != "" then source else g.store[r].source;
        (g.(store := g.store[r := g.store[r].(expiresAt := expiresAt, source := seen)]), Ok(r))
  }

  lemma {:induction false} FoundInStore(g: Registry, key: ServiceKey, now: Time, i: nat)
    requires Linked(g.records, g.store)
    ensures var f := FindLease(g, key, now, i);
            && (f.Some? ==> f.value in g.records && f.value in g.store && LiveLease(g.store[f.value], key, now))
            && (f.None? ==> forall j :: i <= j < |g.records| ==> !LiveLease(At(g, j), key, now))
    decreases |g.records| - i
  {
    if i < |g.records| && !LiveLease(At(g, i), key, now) {
      FoundInStore(g, key, now, i + 1);
    }
  }

  /** Takes record r out of the list. */
  function DropRecord(g: Registry, r: RecordId): Registry
    requires r in g.records
  {
    g.(records := SwapDelete(g.records, IndexOf(g.records, r)))
  }

  /** Unregister, once its token is verified. */
  function Unregister(g: Registry, key: ServiceKey, id: string): (Registry, Outcome<RecordId>)
    requires Linked(g.records, g.store)
  {
    match RecordByKey(g, key, 0)
    case None => (g, Fail(Unauthorized))
    case Some(r) =>
      FoundInStore(g, key, 0, 0);
      if g.store[r].id != id then (g, Fail(Unauthorized)) else (DropRecord(g, r), Ok(r))
  }

  // ---------------------------------------------------------------- challenges

  function ExpiredChallenges(g: Registry, now: Time): set<RecordId>
    requires Linked(g.records, g.store)
  {
    set r | r in g.records && r in g.store && g.store[r].challenge.Some? && IsExpired(g.store[r], now)
  }

  /** Pending challenges among the records, of one source or of all. */
  function PendingCount(store: map<RecordId, Record>, s: seq<RecordId>, source: Option<string>): nat
    requires Linked(s, store)
  {
    if s == [] then 0
    else
      var n := |s| - 1;
      PendingCount(store, s[..n], source) +
      (if store[s[n]].challenge.Some? && (source.None? || store[s[n]].source == source.value) then 1 else 0)
  }

  function ChallengeRecord(c: Challenge, expiresAt: Time, source: string): Record {
    Record(ServiceKey("", ""), "", expiresAt, source, "", "", "", Some(c), false, 0, false, false, map[])
  }

  /** issueRegisterChallenge: expired challenges go first, then the caps decide. */
  function IssueChallenge(g: Registry, r: RecordId, c: Challenge, expiresAt: Time, source: string,
                          now: Time): (Registry, Outcome<string>)
    requires WellFormed(g)
  {
    var kept := Purge(g.records, 0, ExpiredChallenges(g, now));
    PurgeResult(g.records, 0, ExpiredChallenges(g, now), g.store);
    var g1 := g.(records := kept);
    if PendingCount(g.store, kept, Some(source)) >= PENDING_PER_SOURCE
       || PendingCount(g.store, kept, None) >= PENDING_LIMIT
    then (g1, Fail(ChallengePending))
    else (g1.(records := kept + [r], store := g.store[r := ChallengeRecord(c, expiresAt, source)]), Ok(c.id))
  }

  /** The first record with this challenge id, from position i on. */
  function FindChallenge(g: Registry, id: string, i: nat): Option<nat>
    requires Linked(g.records, g.store)
    decreases |g.records| - i
  {
    if i >= |g.records| then None
    else if At(g, i).challenge.Some? && At(g, i).challenge.value.id == id then Some(i)
    else FindChallenge(g, id, i + 1)
  }

  /** consumeVerifiedRegisterChallenge; `verified` is what checking the signed
      answer says. */
  function ConsumeChallenge(g: Registry, id: string, verified: bool, now: Time): (Registry, Outcome<Challenge>)
    requires Linked(g.records, g.store)
  {
    match FindChallenge(g, id, 0)
    case None => (g, Fail(ChallengeNotFound))
    case Some(i) =>
      FindChallengeInRange(g, id, 0);
      var rec := At(g, i);
      if !(now < rec.expiresAt) then (g.(records := SwapDelete(g.records, i)), Fail(ChallengeExpired))
      else if !verified then (g, Fail(ChallengeInvalid))
      else (g.(records := SwapDelete(g.records, i)), Ok(rec.challenge.value))
  }

  lemma {:induction false} FindChallengeInRange(g: Registry, id: string, i: nat)
    requires Linked(g.records, g.store)
    ensures var f := FindChallenge(g, id, i);
            && (f.Some? ==> i <= f.value < |g.records| && At(g, f.value).challenge.Some?
                            && At(g, f.value).challenge.value.id == id)
            && (f.None? ==> forall j :: i <= j < |g.records| ==>
                  !(At(g, j).challenge.Some? && At(g, j).challenge.value.id == id))
    decreases |g.records| - i
  {
    if i < |g.records| && !(At(g, i).challenge.Some? && At(g, i).challenge.value.id == id) {
      FindChallengeInRange(g, id, i + 1);
    }
  }

  // ---------------------------------------------------------------- cleanup

  function ExpiredRecords(g: Registry, now: Time): set<RecordId>
    requires Linked(g.records, g.store)
  {
    set r | r in g.records && r in g.store && IsExpired(g.store[r], now)
  }

  /** cleanupExpired. */
  function Cleanup(g: Registry, now: Time): Registry
    requires WellFormed(g)
  {
    PurgeResult(g.records, 0, ExpiredRecords(g, now), g.store);
    var g1 := g.(records := Purge(g.records, 0, ExpiredRecords(g, now)));
    g1.(blocked := map k | k in g.blocked &&
                     (now - g.blocked[k].pushedAt <= CHALLENGE_TTL || RecordByKey(g1, k, now).Some?) :: g.blocked[k])
  }

  // ---------------------------------------------------------------- purging

  lemma SwapDeleteResult(s: seq<RecordId>, i: nat)
    requires i < |s| && Distinct(s)
    ensures var t := SwapDelete(s, i);
            && Distinct(t) && |t| == |s| - 1
            && (forall x :: x in t <==> x in s && x != s[i])
            && (forall j :: 0 <= j < i ==> t[j] == s[j])
  {
    var t := SwapDelete(s, i);
    forall x | x in s && x != s[i] ensures x in t {
      var j :| 0 <= j < |s| && s[j] == x;
      if j == |s| - 1 { assert t[i] == x; } else { assert t[j] == x; }
    }
  }

  /** Purging removes exactly the named records. */
  lemma {:induction false} PurgeResult(s: seq<RecordId>, i: nat, drop: set<RecordId>, store: map<RecordId, Record>)
    requires i <= |s| && Distinct(s) && Linked(s, store)
    requires forall j :: 0 <= j < i ==> s[j] !in drop
    ensures var t := Purge(s, i, drop);
            Distinct(t) && Linked(t, store) && forall x :: x in t <==> x in s && x !in drop
    decreases |s| - i
  {
    if i < |s| {
      if s[i] in drop {
        SwapDeleteResult(s, i);
        var t := SwapDelete(s, i);
        assert forall j :: 0 <= j < |t| ==> t[j] in t;
        PurgeResult(t, i, drop, store);
      } else {
        PurgeResult(s, i + 1, drop, store);
      }
    }
  }
}
