/** Unexpired leases of different identities never share a hostname, exactly as
    long as a renewal only extends a lease that Register would still accept. */
module HostnameSafety {
  import opened Identity
  import opened LeaseState
  import opened LeaseRuns
  import Hostnames

  /** The two leases have no hostname of the same kind in common. */
  ghost predicate Apart(a: Record, b: Record) {
    a.canonical != b.canonical && (a.hostname != "" ==> a.hostname != b.hostname)
  }

  /** x is an unexpired lease of the list. */
  predicate Held(g: Registry, x: RecordId, now: Time) {
    x in g.records && IsLease(g, x) && !IsExpired(g.store[x], now)
  }

  ghost predicate Exclusive(g: Registry, now: Time) {
    forall x, y :: Held(g, x, now) && Held(g, y, now) && g.store[x].key != g.store[y].key ==>
      Apart(g.store[x], g.store[y])
  }

  /** Time passing only helps. */
  lemma ExclusiveLater(g: Registry, now: Time, later: Time)
    requires Exclusive(g, now) && 0 < now <= later
    ensures Exclusive(g, later)
  {
  }

  // ---------------------------------------------------------------- steps

  /** What an accepted registration leaves: the new lease and old records. */
  lemma CommitMembers(g: Registry, r: RecordId, rec: Record, policy: Policy, now: Time)
    requires Linked(g.records, g.store) && r !in g.store && Stale(g, rec) == {} && Commit(g, r, rec, policy, now).1.Ok?
    ensures var g' := Commit(g, r, rec, policy, now).0;
            && g'.store == g.store[r := if NameTaken(g, rec, now) then rec.(hostname := "") else rec]
            && forall x :: x in g'.records && x != r ==> x in g.records && x in g.store
  {
    var g' := Commit(g, r, rec, policy, now).0;
    FirstLeaseInRange(g, rec.key, 0);
    forall x | x in g'.records && x != r ensures x in g.records && x in g.store {
      var j :| 0 <= j < |g'.records| && g'.records[j] == x;
      assert g.records[j] == x;
    }
  }

  lemma CommitKeepsExclusive(g: Registry, r: RecordId, rec: Record, policy: Policy, now: Time)
    requires Shape(g) && Exclusive(g, now) && r !in g.store && NewLease(rec) && Stale(g, rec) == {}
    ensures Exclusive(Commit(g, r, rec, policy, now).0, now)
  {
    if Commit(g, r, rec, policy, now).1.Ok? {
      CommitMembers(g, r, rec, policy, now);
      var g' := Commit(g, r, rec, policy, now).0;
      assert !CanonicalTaken(g, rec, now);
      forall x | Held(g', x, now) && x != r ensures Held(g, x, now) && g'.store[x] == g.store[x] {}
      forall x | Held(g', x, now) && x != r && g'.store[x].key != rec.key
        ensures Apart(g'.store[r], g'.store[x]) && Apart(g'.store[x], g'.store[r])
      {
        NotTaken(g, rec, policy, now, x);
      }
    }
  }

  /** A registration that is accepted differs from every rival. */
  lemma NotTaken(g: Registry, rec: Record, policy: Policy, now: Time, x: RecordId)
    requires Linked(g.records, g.store) && x in g.records && Rival(g.store[x], rec.key, now)
    requires !CanonicalTaken(g, rec, now)
    ensures var named := if NameTaken(g, rec, now) then rec.(hostname := "") else rec;
            Apart(named, g.store[x]) && Apart(g.store[x], named)
  {
    var i :| 0 <= i < |g.records| && g.records[i] == x;
    assert Rival(At(g, i), rec.key, now);
  }

  lemma ExpiryUnmoved(g: Registry, e: Event, g': Registry)
    requires Step(g, e, g') && ChangesInPlace(e) && !e.Renewed?
    ensures forall r :: r in g.store ==> r in g'.store && g'.store[r].expiresAt == g.store[r].expiresAt
  {
  }

  lemma UnmovedKeepsExclusive(g: Registry, g': Registry, now: Time)
    requires Exclusive(g, now) && InPlace(g, g')
    requires forall r :: r in g.store ==> r in g'.store && g'.store[r].expiresAt == g.store[r].expiresAt
    ensures Exclusive(g', now)
  {
  }

  lemma IssueKeepsExclusive(g: Registry, r: RecordId, c: Challenge, expiresAt: Time, source: string, now: Time,
                            at: Time)
    requires WellFormed(g) && Exclusive(g, at) && r !in g.store
    ensures Exclusive(IssueChallenge(g, r, c, expiresAt, source, now).0, at)
  {
    PurgeResult(g.records, 0, ExpiredChallenges(g, now), g.store);
  }

  // ---------------------------------------------------------------- renewal

  /** The lease a renewal finds, whatever its expiry. */
  ghost predicate Finds(g: Registry, key: ServiceKey, id: string, r: RecordId)
    requires Linked(g.records, g.store)
  {
    RecordByKey(g, key, 0) == Some(r) && r in g.store && g.store[r].id == id
  }

  /** Some other identity's unexpired lease has a hostname of this record: the
      conflict Register checks for. */
  predicate Conflicted(g: Registry, rec: Record, now: Time)
    requires Linked(g.records, g.store)
  {
    CanonicalTaken(g, rec, now) || NameTaken(g, rec, now)
  }

  lemma RivalsAreApart(g: Registry, r: RecordId, now: Time)
    requires Shape(g) && Exclusive(g, now) && Held(g, r, now)
    ensures !Conflicted(g, g.store[r], now)
  {
    forall i | 0 <= i < |g.records| && Rival(At(g, i), g.store[r].key, now) ensures Apart(g.store[r], At(g, i)) {
      assert g.records[i] in g.records;
    }
  }

  lemma UnconflictedRenewal(g: Registry, g': Registry, r: RecordId, now: Time)
    requires Shape(g) && Exclusive(g, now) && r in g.store && !Conflicted(g, g.store[r], now)
    requires InPlace(g, g') && forall x :: x in g.store && x != r ==> g'.store[x] == g.store[x]
    ensures Exclusive(g', now)
  {
    forall x | Held(g, x, now) && x != r && g.store[x].key != g.store[r].key
      ensures Apart(g'.store[r], g'.store[x]) && Apart(g'.store[x], g'.store[r])
    {
      UnconflictedApart(g, g.store[r], now, x);
    }
  }

  lemma ConflictedRenewal(g: Registry, g': Registry, r: RecordId, now: Time)
    requires Shape(g) && r in g.store && Conflicted(g, g.store[r], now) && Held(g', r, now)
    requires InPlace(g, g') && forall x :: x in g.store && x != r ==> g'.store[x] == g.store[x]
    ensures !Exclusive(g', now)
  {
    var i :| 0 <= i < |g.records| && Rival(At(g, i), g.store[r].key, now) &&
             (At(g, i).canonical == g.store[r].canonical
              || (g.store[r].hostname != "" && At(g, i).hostname == g.store[r].hostname));
    assert g.records[i] in g.records;
    assert !Apart(g'.store[r], g'.store[g.records[i]]);
  }

  /** Exactly when a renewal that makes the lease live keeps hostnames
      exclusive: when Register's own conflict check would let the lease in now.
      Renew does not make that check. */
  lemma RenewIsSafeExactly(g: Registry, key: ServiceKey, id: string, r: RecordId, expiresAt: Time, source: string,
                           now: Time)
    requires Shape(g) && Exclusive(g, now) && Finds(g, key, id, r) && 0 < now < expiresAt
    ensures Exclusive(Renew(g, key, id, expiresAt, source).0, now) <==> !Conflicted(g, g.store[r], now)
  {
    FoundInStore(g, key, 0, 0);
    var g' := Renew(g, key, id, expiresAt, source).0;
    assert Held(g', r, now);
    if Conflicted(g, g.store[r], now) {
      ConflictedRenewal(g, g', r, now);
    } else {
      UnconflictedRenewal(g, g', r, now);
    }
  }

  lemma UnconflictedApart(g: Registry, rec: Record, now: Time, x: RecordId)
    requires Shape(g) && !Conflicted(g, rec, now) && Held(g, x, now) && g.store[x].key != rec.key
    ensures Apart(rec, g.store[x]) && Apart(g.store[x], rec)
  {
    var i :| 0 <= i < |g.records| && g.records[i] == x;
    assert Rival(At(g, i), rec.key, now);
  }

  /** A lease that has not expired passes that check, so its renewal is safe. */
  lemma LiveLeaseIsUnconflicted(g: Registry, e: Event, now: Time)
    requires Shape(g) && Exclusive(g, now) && e.Renewed? && RenewsLiveLease(g, e, now)
    ensures RenewsUnconflicted(g, e, now)
  {
    FoundInStore(g, e.key, 0, 0);
    FirstLeaseInRange(g, e.key, 0);
    forall r | r in g.store && Finds(g, e.key, e.id, r) ensures !Conflicted(g, g.store[r], now) {
      RivalsAreApart(g, r, now);
    }
  }

  /** A renewal that Register's check would let pass, or that leaves the lease
      expired, is safe. */
  lemma UnconflictedRenewalIsSafe(g: Registry, e: Event, now: Time)
    requires Shape(g) && Exclusive(g, now) && 0 < now && e.Renewed? && RenewsUnconflicted(g, e, now)
    ensures Exclusive(Renew(g, e.key, e.id, e.expiresAt, e.source).0, now)
  {
    FoundInStore(g, e.key, 0, 0);
    var found := RecordByKey(g, e.key, 0);
    if found.Some? && g.store[found.value].id == e.id {
      assert Finds(g, e.key, e.id, found.value);
      if now < e.expiresAt {
        RenewIsSafeExactly(g, e.key, e.id, found.value, e.expiresAt, e.source, now);
      }
    }
  }

  /** A renewal of a lease that has not expired is always safe. */
  lemma RenewOfLiveLeaseIsSafe(g: Registry, e: Event, now: Time)
    requires Shape(g) && Exclusive(g, now) && 0 < now && e.Renewed? && RenewsLiveLease(g, e, now)
    ensures Exclusive(Renew(g, e.key, e.id, e.expiresAt, e.source).0, now)
  {
    LiveLeaseIsUnconflicted(g, e, now);
    UnconflictedRenewalIsSafe(g, e, now);
  }

  // ---------------------------------------------------------------- whole runs

  /** Clock readings of the sections: positive and never going back. */
  ghost predicate Clocked(es: seq<Event>, clock: seq<Time>) {
    && |clock| == |es|
    && (forall i :: 0 <= i < |clock| ==> 0 < clock[i])
    && (forall i, j :: 0 <= i <= j < |clock| ==> clock[i] <= clock[j])
    && (forall i :: 0 <= i < |es| && es[i].Committed? ==> es[i].now == clock[i])
  }

  /** The renewal leaves the lease expired, or Register's conflict check would let
      the lease in. */
  ghost predicate RenewsUnconflicted(g: Registry, e: Event, now: Time)
    requires e.Renewed?
  {
    WellFormed(g) && forall r :: r in g.store && Finds(g, e.key, e.id, r) && now < e.expiresAt ==>
      !Conflicted(g, g.store[r], now)
  }

  /** So does every renewal among the first n sections of the run. */
  ghost predicate RenewsSafely(es: seq<Event>, gs: seq<Registry>, clock: seq<Time>, n: nat)
    requires Run(es, gs) && |clock| == |es| && n <= |es|
  {
    forall i :: 0 <= i < n && es[i].Renewed? ==> RenewsUnconflicted(gs[i], es[i], clock[i])
  }

  /** Every renewal of the run found an unexpired lease. */
  ghost predicate RenewsLive(es: seq<Event>, gs: seq<Registry>, clock: seq<Time>)
    requires Run(es, gs) && |clock| == |es|
  {
    forall i :: 0 <= i < |es| && es[i].Renewed? ==> RenewsLiveLease(gs[i], es[i], clock[i])
  }

  ghost predicate RenewsLiveLease(g: Registry, e: Event, now: Time)
    requires e.Renewed?
  {
    WellFormed(g) && forall r :: r in g.store && Finds(g, e.key, e.id, r) ==> !IsExpired(g.store[r], now)
  }

  lemma StepKeepsExclusive(g: Registry, e: Event, g': Registry, now: Time)
    requires Shape(g) && Exclusive(g, now) && Step(g, e, g') && 0 < now
    requires e.Committed? ==> e.now == now
    requires e.Renewed? ==> RenewsUnconflicted(g, e, now)
    ensures Exclusive(g', now)
  {
    if e.Renewed? {
      UnconflictedRenewalIsSafe(g, e, now);
    } else if ChangesInPlace(e) {
      InPlaceSteps(g, e, g');
      ExpiryUnmoved(g, e, g');
      UnmovedKeepsExclusive(g, g', now);
    } else if OnlyThins(e) {
      ThinningSteps(g, e, g');
    } else if e.Committed? {
      CommitKeepsExclusive(g, e.r, e.rec, e.policy, e.now);
    } else {
      IssueKeepsExclusive(g, e.r, e.c, e.expiresAt, e.source, e.now, now);
    }
  }

  /** In every run in which each renewal that revives a lease would pass
      Register's own conflict check, unexpired leases of different identities
      share no hostname, at any later time. */
  lemma {:induction false} HostnamesAreExclusive(es: seq<Event>, gs: seq<Registry>, clock: seq<Time>, n: nat, now: Time)
    requires Run(es, gs) && Clocked(es, clock) && n <= |es| && RenewsSafely(es, gs, clock, n)
    requires 0 < now && (n > 0 ==> clock[n - 1] <= now)
    ensures Exclusive(gs[n], now)
  {
    if n > 0 {
      var k := n - 1;
      HostnamesAreExclusive(es, gs, clock, k, clock[k]);
      RecordsKeepTheirShape(es, gs, k);
      StepKeepsExclusive(gs[k], es[k], gs[k + 1], clock[k]);
      ExclusiveLater(gs[n], clock[k], now);
    }
  }

  /** That is so when renewals only extend unexpired leases. */
  lemma {:induction false} LiveRenewalsAreSafe(es: seq<Event>, gs: seq<Registry>, clock: seq<Time>, n: nat)
    requires Run(es, gs) && Clocked(es, clock) && RenewsLive(es, gs, clock) && n <= |es|
    ensures RenewsSafely(es, gs, clock, n)
  {
    if n > 0 {
      var k := n - 1;
      LiveRenewalsAreSafe(es, gs, clock, k);
      HostnamesAreExclusive(es, gs, clock, k, clock[k]);
      RecordsKeepTheirShape(es, gs, k);
      if es[k].Renewed? {
        LiveLeaseIsUnconflicted(gs[k], es[k], clock[k]);
      }
    }
  }

  // ---------------------------------------------------------------- a collision

  /** A fresh lease with the names Register builds for a short plain name. */
  function Fresh(root: string, name: string, address: string, id: string, expiresAt: Time): Record {
    Record(ServiceKey(name, address), id, expiresAt, "", "", name + "." + root, name + "-" + address + "." + root,
           None, false, 0, true, false, map[])
  }

  /** Without that condition it fails, for every short name and every two
      addresses: the lease of one identity expires, a second identity registers
      the same friendly name before the first lease is swept, and the first
      renews. */
  lemma RenewOfExpiredLeaseCanCollide(hash: string -> string, root: string, name: string, x: string, y: string)
    returns (es: seq<Event>, gs: seq<Registry>, clock: seq<Time>)
    requires Hostnames.HashOk(hash) && root != "" && Hostnames.ShortName(name) && x != y
    requires Hostnames.LowerAddress(x) && Hostnames.LowerAddress(y)
    ensures Run(es, gs) && Clocked(es, clock) && |es| == 3 && es[2].Renewed? && !Exclusive(gs[3], clock[2])
    ensures forall i :: 0 <= i < 3 && es[i].Committed? ==> NamesBuilt(hash, root, es[i].rec)
  {
    var a, b := Fresh(root, name, x, "lease_a", 20), Fresh(root, name, y, "lease_b", 60);
    Hostnames.ShortNamesAreBuilt(hash, root, name, x);
    Hostnames.ShortNamesAreBuilt(hash, root, name, y);
    assert NamesBuilt(hash, root, a) && NamesBuilt(hash, root, b);
    AddressesAreNotEmpty(x, y);
    es, gs, clock := Collision(a, b);
  }

  lemma AddressesAreNotEmpty(x: string, y: string)
    requires Hostnames.LowerAddress(x) && Hostnames.LowerAddress(y)
    ensures x != "" && y != ""
  {
  }

  lemma Collision(a: Record, b: Record) returns (es: seq<Event>, gs: seq<Registry>, clock: seq<Time>)
    requires NewLease(a) && NewLease(b) && a.key != b.key && a.hostname == b.hostname != ""
    requires a.expiresAt == 20 && b.expiresAt == 60 && a.id == "lease_a" && a.source == ""
    ensures Run(es, gs) && Clocked(es, clock) && |es| == 3 && !Exclusive(gs[3], clock[2])
    ensures es[0].Committed? && es[0].rec == a && es[1].Committed? && es[1].rec == b && es[2].Renewed?
  {
    var policy := Policy(0, 0, false);
    es := [Committed(0, a, policy, 10), Committed(1, b, policy, 25), Renewed(a.key, "lease_a", 90, "", 26)];
    clock := [10, 25, 26];
    var g1 := EMPTY.(records := [0], store := map[0 := a]);
    var g2 := g1.(records := [0, 1], store := map[0 := a, 1 := b]);
    var g3 := g2.(store := map[0 := a.(expiresAt := 90), 1 := b]);
    gs := [EMPTY, g1, g2, g3];
    FirstCommit(a, policy);
    SecondCommit(a, b, g1, policy);
    ThirdRenewal(a, b, g2);
    assert Held(g3, 0, 26) && Held(g3, 1, 26) && !Apart(g3.store[0], g3.store[1]);
  }

  lemma FirstCommit(rec: Record, policy: Policy)
    requires NewLease(rec) && policy.udpMax == policy.tcpMax == 0
    ensures Step(EMPTY, Committed(0, rec, policy, 10), EMPTY.(records := [0], store := map[0 := rec]))
  {
    assert Stale(EMPTY, rec) == {};
  }

  lemma SecondCommit(a: Record, b: Record, g: Registry, policy: Policy)
    requires NewLease(a) && NewLease(b) && a.key != b.key && a.expiresAt == 20 && policy.udpMax == policy.tcpMax == 0
    requires g == EMPTY.(records := [0], store := map[0 := a])
    ensures Step(g, Committed(1, b, policy, 25), g.(records := [0, 1], store := map[0 := a, 1 := b]))
  {
    assert Stale(g, b) == {};
    assert At(g, 0) == a && IsExpired(a, 25);
    assert FirstLease(g, b.key, 0) == FirstLease(g, b.key, 1) == None;
    assert g.store[1 := b] == map[0 := a, 1 := b];
  }

  lemma ThirdRenewal(a: Record, b: Record, g: Registry)
    requires NewLease(a) && NewLease(b) && a.id == "lease_a" && a.source == ""
    requires g == EMPTY.(records := [0, 1], store := map[0 := a, 1 := b])
    ensures Step(g, Renewed(a.key, "lease_a", 90, "", 26), g.(store := map[0 := a.(expiresAt := 90), 1 := b]))
  {
    assert At(g, 0) == a && LiveLease(a, a.key, 0);
    assert g.store[0 := a.(expiresAt := 90)] == map[0 := a.(expiresAt := 90), 1 := b];
  }

  // ---------------------------------------------------------------- both kinds of hostname

  /** The record's hostnames are the ones Register builds for some identity. */
  ghost predicate NamesBuilt(hash: string -> string, root: string, rec: Record)
    requires Hostnames.HashOk(hash)
  {
    exists name: string, address: string :: Hostnames.Built(hash, root, name, address, rec.canonical, rec.hostname)
  }

  function HostnamesOf(rec: Record): set<string> {
    {rec.canonical} + (if rec.hostname != "" then {rec.hostname} else {})
  }

  lemma FriendlyIsNotCanonical(hash: string -> string, root: string, a: Record, b: Record)
    requires Hostnames.HashOk(hash) && NamesBuilt(hash, root, a) && NamesBuilt(hash, root, b)
    ensures a.hostname != "" ==> a.hostname != b.canonical
  {
    if a.hostname != "" {
      var n1: string, a1: string :| Hostnames.Built(hash, root, n1, a1, a.canonical, a.hostname);
      var n2: string, a2: string :| Hostnames.Built(hash, root, n2, a2, b.canonical, b.hostname);
      Hostnames.BuiltNamesNeverCross(hash, root, n1, a1, a.canonical, a.hostname, n2, a2, b.canonical, b.hostname);
    }
  }

  lemma DisjointNames(a: Record, b: Record)
    requires Apart(a, b) && (a.hostname != "" ==> a.hostname != b.canonical)
    requires (b.hostname != "" ==> b.hostname != a.canonical)
    ensures HostnamesOf(a) !! HostnamesOf(b)
  {
  }

  /** With the names Register builds, two exclusive leases share no hostname at
      all: a friendly one is never the other's canonical one. */
  lemma NoHostnameIsShared(hash: string -> string, root: string, a: Record, b: Record)
    requires Hostnames.HashOk(hash) && NamesBuilt(hash, root, a) && NamesBuilt(hash, root, b) && Apart(a, b)
    ensures HostnamesOf(a) !! HostnamesOf(b)
  {
    FriendlyIsNotCanonical(hash, root, a, b);
    FriendlyIsNotCanonical(hash, root, b, a);
    DisjointNames(a, b);
  }

  ghost predicate AllNamesBuilt(hash: string -> string, root: string, g: Registry)
    requires Hostnames.HashOk(hash)
  {
    forall r :: r in g.store && g.store[r].reverse ==> NamesBuilt(hash, root, g.store[r])
  }

  lemma CommitKeepsNames(hash: string -> string, root: string, g: Registry, r: RecordId, rec: Record, policy: Policy,
                         now: Time)
    requires Hostnames.HashOk(hash) && AllNamesBuilt(hash, root, g) && NamesBuilt(hash, root, rec)
    requires Linked(g.records, g.store) && r !in g.store && Stale(g, rec) == {}
    ensures AllNamesBuilt(hash, root, Commit(g, r, rec, policy, now).0)
  {
    if Commit(g, r, rec, policy, now).1.Ok? {
      CommitMembers(g, r, rec, policy, now);
      Unnamed(hash, root, rec);
    }
  }

  lemma SameFaceKeepsNames(hash: string -> string, root: string, g: Registry, g': Registry)
    requires Hostnames.HashOk(hash) && AllNamesBuilt(hash, root, g) && InPlace(g, g')
    ensures AllNamesBuilt(hash, root, g')
  {
    forall r | r in g'.store && g'.store[r].reverse ensures NamesBuilt(hash, root, g'.store[r]) {
      assert NamesBuilt(hash, root, g.store[r]);
    }
  }

  lemma StepKeepsNames(hash: string -> string, root: string, g: Registry, e: Event, g': Registry)
    requires Hostnames.HashOk(hash) && AllNamesBuilt(hash, root, g) && Step(g, e, g')
    requires e.Committed? ==> NamesBuilt(hash, root, e.rec)
    ensures AllNamesBuilt(hash, root, g')
  {
    if ChangesInPlace(e) {
      InPlaceSteps(g, e, g');
      SameFaceKeepsNames(hash, root, g, g');
    } else if OnlyThins(e) {
      ThinningSteps(g, e, g');
    } else if e.Committed? {
      CommitKeepsNames(hash, root, g, e.r, e.rec, e.policy, e.now);
    }
  }

  /** Giving up the friendly name leaves built names. */
  lemma Unnamed(hash: string -> string, root: string, rec: Record)
    requires Hostnames.HashOk(hash) && NamesBuilt(hash, root, rec)
    ensures NamesBuilt(hash, root, rec.(hostname := ""))
  {
    var name: string, address: string :| Hostnames.Built(hash, root, name, address, rec.canonical, rec.hostname);
    assert Hostnames.Built(hash, root, name, address, rec.canonical, "");
  }

  lemma {:induction false} NamesStayBuilt(hash: string -> string, root: string, es: seq<Event>, gs: seq<Registry>,
                                          n: nat)
    requires Hostnames.HashOk(hash) && Run(es, gs) && n <= |es|
    requires forall i :: 0 <= i < |es| && es[i].Committed? ==> NamesBuilt(hash, root, es[i].rec)
    ensures AllNamesBuilt(hash, root, gs[n])
  {
    if n > 0 {
      NamesStayBuilt(hash, root, es, gs, n - 1);
      StepKeepsNames(hash, root, gs[n - 1], es[n - 1], gs[n]);
    }
  }

  /** The claim for the hostnames the relay hands out: in such a run two
      unexpired leases of different identities have disjoint sets of hostnames. */
  lemma LeasesShareNoHostname(hash: string -> string, root: string, es: seq<Event>, gs: seq<Registry>, clock: seq<Time>,
                              n: nat,
                              now: Time, x: RecordId, y: RecordId)
    requires Hostnames.HashOk(hash) && Run(es, gs) && Clocked(es, clock) && n <= |es| && RenewsSafely(es, gs, clock, n)
    requires forall i :: 0 <= i < |es| && es[i].Committed? ==> NamesBuilt(hash, root, es[i].rec)
    requires 0 < now && (n > 0 ==> clock[n - 1] <= now)
    requires Held(gs[n], x, now) && Held(gs[n], y, now) && gs[n].store[x].key != gs[n].store[y].key
    ensures HostnamesOf(gs[n].store[x]) !! HostnamesOf(gs[n].store[y])
  {
    HostnamesAreExclusive(es, gs, clock, n, now);
    NamesStayBuilt(hash, root, es, gs, n);
    NoHostnameIsShared(hash, root, gs[n].store[x], gs[n].store[y]);
  }
}
