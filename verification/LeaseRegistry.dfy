/** leaseRegistry of portal/lease.go as the code writes it: a slice of records
    searched, overwritten and swap-deleted in place. */
module LeaseRegistry {
  import opened Identity
  import Hostnames
  import opened LeaseState
  import opened LeaseRuns

  class Leases {
    var records: seq<RecordId>
    var store: map<RecordId, Record>
    var blocked: map<ServiceKey, Blocked>
    var revision: nat

    ghost function View(): Registry reads this { Registry(records, store, blocked, revision) }

    constructor ()
      ensures View() == EMPTY
    {
      records, store, blocked, revision := [], map[], map[], 0;
    }

    /** recordByKey. */
    method FindByKey(key: ServiceKey, now: Time) returns (found: Option<RecordId>)
      requires Linked(records, store)
      ensures found == RecordByKey(View(), key, now)
    {
      var i := 0;
      while i < |records|
        invariant i <= |records| && FindLease(View(), key, now, 0) == FindLease(View(), key, now, i)
      {
        var rec := store[records[i]];
        if rec.reverse && !IsExpired(rec, now) && rec.key == key {
          return Some(records[i]);
        }
        i := i + 1;
      }
      found := None;
    }

    // -------------------------------------------------------------- access

    /** revokeBridgesLocked. */
    method RevokeBridges(r: RecordId)
      requires r in store
      modifies this`store
      ensures store == old(store)[r := old(store)[r].(bridges := CancelAll(old(store)[r].bridges))]
    {
      ghost var start := store[r].bridges;
      var bridges, todo := store[r].bridges, store[r].bridges.Keys;
      while todo != {}
        invariant todo <= start.Keys
        invariant bridges == map b | b in start :: if b in todo then start[b] else start[b].(cancelled := true)
        decreases |todo|
      {
        var b :| b in todo;
        todo := todo - {b};
        bridges := bridges[b := bridges[b].(cancelled := true)];
      }
      assert bridges == CancelAll(start);
      store := store[r := store[r].(bridges := bridges)];
    }

    /** applyIdentityAccessLocked. */
    method ApplyIdentityAccess(key: ServiceKey, access: Access, now: Time)
      requires WellFormed(View())
      modifies this
      ensures View() == ApplyAccess(old(View()), key, access, now)
    {
      if access == Routable {
        blocked := blocked - {key};
        return;
      }
      blocked := blocked[key := Blocked(now, access)];
      RevokeAll(key);
    }

    /** The loop over the records of a denied identity. */
    method RevokeAll(key: ServiceKey)
      requires WellFormed(View())
      modifies this`store
      ensures store == Revoke(old(View()), key)
    {
      ghost var g := View();
      var i := 0;
      while i < |records|
        invariant i <= |records| && store.Keys == g.store.Keys
        invariant forall r :: r in g.store ==>
                    store[r] == if r in records[..i] && g.store[r].key == key
                                then g.store[r].(bridges := CancelAll(g.store[r].bridges)) else g.store[r]
      {
        var r := records[i];
        assert r !in records[..i];
        assert forall x :: x in records[..i + 1] <==> x in records[..i] || x == r;
        if store[r].key == key {
          RevokeBridges(r);
        }
        i := i + 1;
      }
      assert records[..i] == records;
    }

    method SetIdentityAccess(key: ServiceKey, access: Access, rev: nat, now: Time) returns (applied: bool)
      requires WellFormed(View())
      modifies this
      ensures (View(), applied) == SetAccess(old(View()), key, access, rev, now)
    {
      if !key.Valid() {
        return true;
      }
      if rev < revision {
        return false;
      }
      revision := rev;
      ApplyIdentityAccess(key, access, now);
      applied := true;
    }

    // -------------------------------------------------------------- bridges

    method Admit(r: RecordId, b: BridgeId, done: bool, now: Time) returns (outcome: Outcome<BridgeId>)
      requires Linked(records, store) && r in store
      modifies this
      ensures (View(), outcome) == AdmitBridge(old(View()), r, b, done, now)
    {
      var current := FindByKey(store[r].key, now);
      if current != Some(r) {
        return Fail(LeaseNotFound);
      }
      if store[r].key in blocked {
        return Fail(Rejected);
      }
      if store[r].closed || done {
        return Fail(Closed);
      }
      if |store[r].bridges| >= BRIDGE_LIMIT {
        return Fail(Rejected);
      }
      store := store[r := store[r].(bridges := store[r].bridges[b := Bridge(false, false)])];
      outcome := Ok(b);
    }

    method Activate(r: RecordId, b: BridgeId, now: Time) returns (outcome: Outcome<BridgeId>)
      requires Linked(records, store) && r in store
      modifies this
      ensures (View(), outcome) == ActivateBridge(old(View()), r, b, now)
    {
      var current := FindByKey(store[r].key, now);
      if current != Some(r) {
        return Fail(LeaseNotFound);
      }
      if store[r].key in blocked {
        return Fail(Rejected);
      }
      var bridges := store[r].bridges;
      if b !in bridges || store[r].closed || bridges[b].cancelled {
        return Fail(Closed);
      }
      store := store[r := store[r].(bridges := bridges[b := bridges[b].(attached := true)])];
      outcome := Ok(b);
    }

    /** leaseRecord.Close, up to its first unlock. */
    method Close(r: RecordId)
      requires r in store
      modifies this`store
      ensures View() == CloseRecord(old(View()), r)
    {
      if store[r].closed {
        return;
      }
      store := store[r := store[r].(closed := true)];
      RevokeBridges(r);
    }

    // -------------------------------------------------------------- the list

    method DeleteRecord(i: nat)
      requires i < |records|
      modifies this`records
      ensures records == SwapDelete(old(records), i)
    {
      var last := |records| - 1;
      records := records[i := records[last]];
      records := records[..last];
    }

    // -------------------------------------------------------------- registration

    /** The scan of Register over the other records. */
    method ScanRivals(rec: Record, allowFallback: bool, now: Time)
      returns (conflict: bool, hostname: string, replaced: int, udp: nat, tcp: nat)
      requires Linked(records, store)
      ensures conflict <==> CanonicalTaken(View(), rec, now) || (NameTaken(View(), rec, now) && !allowFallback)
      ensures !conflict ==> hostname == if NameTaken(View(), rec, now) then "" else rec.hostname
      ensures !conflict ==> udp == Holders(View(), rec.key, now, true, |records|)
      ensures !conflict ==> tcp == Holders(View(), rec.key, now, false, |records|)
      ensures !conflict ==> FirstLease(View(), rec.key, 0) == if replaced < 0 then None else Some(replaced)
    {
      conflict, hostname, replaced, udp, tcp := false, rec.hostname, -1, 0, 0;
      var i := 0;
      while i < |records|
        invariant i <= |records| && !conflict && -1 <= replaced < i
        invariant udp == Holders(View(), rec.key, now, true, i) && tcp == Holders(View(), rec.key, now, false, i)
        invariant if replaced < 0 then FirstLease(View(), rec.key, 0) == FirstLease(View(), rec.key, i)
                  else FirstLease(View(), rec.key, 0) == Some(replaced)
        invariant forall j :: 0 <= j < i && Rival(At(View(), j), rec.key, now) ==>
                    At(View(), j).canonical != rec.canonical
        invariant hostname == rec.hostname || (hostname == "" && rec.hostname != "" && allowFallback &&
                    exists j :: 0 <= j < i && Rival(At(View(), j), rec.key, now)
                                && At(View(), j).hostname == rec.hostname)
        invariant hostname == rec.hostname && rec.hostname != "" ==>
                    forall j :: 0 <= j < i && Rival(At(View(), j), rec.key, now) ==>
                      At(View(), j).hostname != rec.hostname
      {
        var existing := store[records[i]];
        assert existing == At(View(), i);
        if replaced < 0 && existing.reverse && existing.key == rec.key {
          replaced := i;
        }
        if !IsExpired(existing, now) && existing.key != rec.key {
          if existing.udp {
            udp := udp + 1;
          }
          if existing.tcpPort > 0 {
            tcp := tcp + 1;
          }
          if IsPublic(existing) {
            assert Rival(At(View(), i), rec.key, now);
            if existing.canonical == rec.canonical {
              conflict := true;
              return;
            }
            if existing.hostname != "" && existing.hostname == hostname {
              if !allowFallback {
                conflict := true;
                return;
              }
              hostname := "";
            }
          }
        }
        i := i + 1;
      }
    }

    /** The loop of Register that deletes leftovers of the identity. */
    method DeleteStale(rec: Record)
      requires WellFormed(View())
      modifies this`records
      ensures records == Purge(old(records), 0, Stale(old(View()), rec))
    {
      ghost var drop := Stale(View(), rec);
      var i := 0;
      while i < |records|
        invariant i <= |records| && WellFormed(View()) && (forall x :: x in records ==> x in old(records))
        invariant Purge(records, i, drop) == Purge(old(records), 0, drop)
        decreases |records| - i
      {
        var existing := store[records[i]];
        assert records[i] in records;
        if !existing.reverse && IsPublic(existing) && existing.key == rec.key && existing.canonical == rec.canonical {
          SwapDeleteResult(records, i);
          DeleteRecord(i);
          assert forall j :: 0 <= j < |records| ==> records[j] in records;
        } else {
          i := i + 1;
        }
      }
    }

    /** The second section of Register. */
    method Register(r: RecordId, rec: Record, policy: Policy, now: Time) returns (outcome: Outcome<Option<RecordId>>)
      requires Shape(View()) && r !in store
      modifies this
      ensures Stale(old(View()), rec) == {}
      ensures (View(), outcome) == Commit(old(View()), r, rec, policy, now)
    {
      DeleteLoopIsIdle(View(), rec);
      var conflict, hostname, replaced, udp, tcp := ScanRivals(rec, policy.allowFallback, now);
      if conflict {
        return Fail(HostnameConflict);
      }
      if rec.udp && policy.udpMax > 0 && udp >= policy.udpMax {
        return Fail(UDPCapacity);
      }
      if rec.tcpPort > 0 && policy.tcpMax > 0 && tcp >= policy.tcpMax {
        return Fail(TCPCapacity);
      }
      FirstLeaseInRange(View(), rec.key, 0);
      DeleteStale(rec);
      store := store[r := rec.(hostname := hostname)];
      if replaced >= 0 {
        outcome := Ok(Some(records[replaced]));
        records := records[replaced := r];
      } else {
        outcome := Ok(None);
        records := records + [r];
      }
    }

    /** Renew once the token is verified: the lookup uses the zero time. */
    method RenewLease(key: ServiceKey, id: string, expiresAt: Time, source: string) returns (outcome: Outcome<RecordId>)
      requires Linked(records, store)
      modifies this
      ensures (View(), outcome) == Renew(old(View()), key, id, expiresAt, source)
    {
      var found := FindByKey(key, 0);
      FoundInStore(View(), key, 0, 0);
      if found.None? {
        return Fail(LeaseNotFound);
      }
      var r := found.value;
      if store[r].id != id {
        return Fail(Unauthorized);
      }
      store := store[r := store[r].(expiresAt := expiresAt,
                                    source := if source != "" then source else store[r].source)];
      outcome := Ok(r);
    }

    method UnregisterLease(key: ServiceKey, id: string) returns (outcome: Outcome<RecordId>)
      requires Linked(records, store)
      modifies this
      ensures (View(), outcome) == Unregister(old(View()), key, id)
    {
      var found := FindByKey(key, 0);
      FoundInStore(View(), key, 0, 0);
      if found.None? || store[found.value].id != id {
        return Fail(Unauthorized);
      }
      DeleteRecord(IndexOf(records, found.value));
      outcome := Ok(found.value);
    }

    // -------------------------------------------------------------- challenges

    /** issueRegisterChallenge under the lock. */
    method Issue(r: RecordId, c: Challenge, expiresAt: Time, source: string, now: Time)
      returns (outcome: Outcome<string>)
      requires WellFormed(View()) && r !in store
      modifies this
      ensures (View(), outcome) == IssueChallenge(old(View()), r, c, expiresAt, source, now)
    {
      var pending, global := CountPending(source, now);
      if pending >= PENDING_PER_SOURCE || global >= PENDING_LIMIT {
        return Fail(ChallengePending);
      }
      records := records + [r];
      store := store[r := ChallengeRecord(c, expiresAt, source)];
      outcome := Ok(c.id);
    }

    /** An expired challenge leaves the list in the middle of that loop. */
    method DropPending(i: nat, ghost drop: set<RecordId>)
      requires i < |records| && WellFormed(View()) && records[i] in drop
      modifies this`records
      ensures i <= |records| == |old(records)| - 1 && WellFormed(View()) && records[..i] == old(records)[..i]
      ensures forall x :: x in records ==> x in old(records)
      ensures Purge(records, i, drop) == Purge(old(records), i, drop)
    {
      SwapDeleteResult(records, i);
      DeleteRecord(i);
      assert forall j :: 0 <= j < |records| ==> records[j] in records;
    }

    lemma CountOneMore(i: nat, source: string)
      requires i < |records| && Linked(records, store)
      ensures var rec := store[records[i]];
              && PendingCount(store, records[..i + 1], None) ==
                 PendingCount(store, records[..i], None) + (if rec.challenge.Some? then 1 else 0)
              && PendingCount(store, records[..i + 1], Some(source)) ==
                 PendingCount(store, records[..i], Some(source)) +
                 (if rec.challenge.Some? && rec.source == source then 1 else 0)
    {
      assert records[..i + 1][..i] == records[..i];
    }

    /** The loop that drops expired challenges and counts the others. */
    method CountPending(source: string, now: Time) returns (pending: nat, global: nat)
      requires WellFormed(View())
      modifies this`records
      ensures records == Purge(old(records), 0, ExpiredChallenges(old(View()), now)) && Linked(records, store)
      ensures pending == PendingCount(store, records, Some(source)) && global == PendingCount(store, records, None)
    {
      ghost var drop := ExpiredChallenges(View(), now);
      pending, global := 0, 0;
      var i := 0;
      while i < |records|
        invariant i <= |records| && WellFormed(View()) && (forall x :: x in records ==> x in old(records))
        invariant Purge(records, i, drop) == Purge(old(records), 0, drop)
        invariant pending == PendingCount(store, records[..i], Some(source))
        invariant global == PendingCount(store, records[..i], None)
        decreases |records| - i
      {
        var rec := store[records[i]];
        assert records[i] in records;
        if rec.challenge.Some? && IsExpired(rec, now) {
          DropPending(i, drop);
        } else {
          CountOneMore(i, source);
          if rec.challenge.Some? {
            global := global + 1;
            if rec.source == source {
              pending := pending + 1;
            }
          }
          i := i + 1;
        }
      }
      assert records[..i] == records;
    }

    /** consumeVerifiedRegisterChallenge, for the challenge id as it arrives. */
    method Consume(rawID: string, verified: bool, now: Time) returns (outcome: Outcome<Challenge>)
      requires Linked(records, store)
      modifies this
      ensures var id := Hostnames.TrimSpace(rawID);
              (View(), outcome) ==
              if id == "" then (old(View()), Fail(ChallengeNotFound))
              else ConsumeChallenge(old(View()), id, verified, now)
    {
      var id := Hostnames.TrimSpace(rawID);
      if id == "" {
        return Fail(ChallengeNotFound);
      }
      var i := 0;
      while i < |records|
        invariant i <= |records| && View() == old(View())
        invariant FindChallenge(View(), id, 0) == FindChallenge(View(), id, i)
      {
        var rec := store[records[i]];
        if rec.challenge.Some? && rec.challenge.value.id == id {
          if !(now < rec.expiresAt) {
            DeleteRecord(i);
            return Fail(ChallengeExpired);
          }
          if !verified {
            return Fail(ChallengeInvalid);
          }
          DeleteRecord(i);
          return Ok(rec.challenge.value);
        }
        i := i + 1;
      }
      outcome := Fail(ChallengeNotFound);
    }

    // -------------------------------------------------------------- cleanup

    method CleanupExpired(now: Time)
      requires WellFormed(View())
      modifies this
      ensures View() == Cleanup(old(View()), now)
    {
      ghost var g := View();
      PurgeResult(records, 0, ExpiredRecords(g, now), store);
      DeleteExpired(now);
      ForgetDecisions(now);
    }

    method DeleteExpired(now: Time)
      requires WellFormed(View())
      modifies this`records
      ensures records == Purge(old(records), 0, ExpiredRecords(old(View()), now))
    {
      ghost var drop := ExpiredRecords(View(), now);
      var i := 0;
      while i < |records|
        invariant i <= |records| && WellFormed(View()) && (forall x :: x in records ==> x in old(records))
        invariant Purge(records, i, drop) == Purge(old(records), 0, drop)
        decreases |records| - i
      {
        assert records[i] in records;
        if IsExpired(store[records[i]], now) {
          SwapDeleteResult(records, i);
          DeleteRecord(i);
          assert forall j :: 0 <= j < |records| ==> records[j] in records;
        } else {
          i := i + 1;
        }
      }
    }

    /** Stale decisions about identities without a lease are dropped. */
    method ForgetDecisions(now: Time)
      requires Linked(records, store)
      modifies this`blocked
      ensures blocked == map k | k in old(blocked) &&
                (now - old(blocked)[k].pushedAt <= CHALLENGE_TTL
                 || RecordByKey(old(View()), k, now).Some?) :: old(blocked)[k]
    {
      ghost var g := View();
      var todo := blocked.Keys;
      while todo != {}
        invariant todo <= blocked.Keys
        invariant blocked == map k | k in g.blocked && (k in todo || now - g.blocked[k].pushedAt <= CHALLENGE_TTL
                                       || RecordByKey(g, k, now).Some?) :: g.blocked[k]
        decreases |todo|
      {
        var k :| k in todo;
        todo := todo - {k};
        if now - blocked[k].pushedAt > CHALLENGE_TTL {
          var found := FindByKey(k, now);
          SameLookup(g, View(), k, now, 0);
          if found.None? {
            blocked := blocked - {k};
          }
        }
      }
    }

    lemma {:induction false} SameLookup(g: Registry, h: Registry, key: ServiceKey, now: Time, i: nat)
      requires Linked(g.records, g.store) && h.records == g.records && h.store == g.store
      ensures FindLease(g, key, now, i) == FindLease(h, key, now, i)
      decreases |g.records| - i
    {
      if i < |g.records| { SameLookup(g, h, key, now, i + 1); }
    }
  }
}
