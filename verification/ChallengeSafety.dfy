/** Registration challenges: bounded in number, each used at most once. */
module ChallengeSafety {
  import opened Identity
  import opened Orders
  import opened LeaseState
  import opened LeaseRuns

  predicate IsPending(store: map<RecordId, Record>, r: RecordId, source: Option<string>) {
    r in store && store[r].challenge.Some? && (source.None? || store[r].source == source.value)
  }

  function PendingIn(store: map<RecordId, Record>, s: seq<RecordId>, source: Option<string>): set<RecordId> {
    set r | r in s && IsPending(store, r, source)
  }

  /** The pending challenges, of one source or of all. */
  function PendingSet(g: Registry, source: Option<string>): set<RecordId> {
    PendingIn(g.store, g.records, source)
  }

  ghost predicate Capped(g: Registry) {
    |PendingSet(g, None)| <= PENDING_LIMIT && forall s: string :: |PendingSet(g, Some(s))| <= PENDING_PER_SOURCE
  }

  lemma FewerPending(g: Registry, g': Registry)
    requires Capped(g) && forall s :: PendingSet(g', s) <= PendingSet(g, s)
    ensures Capped(g')
  {
    SubsetSize(PendingSet(g', None), PendingSet(g, None));
    forall s: string ensures |PendingSet(g', Some(s))| <= PENDING_PER_SOURCE {
      SubsetSize(PendingSet(g', Some(s)), PendingSet(g, Some(s)));
    }
  }

  lemma OneMoreInList(store: map<RecordId, Record>, s: seq<RecordId>, r: RecordId, source: Option<string>)
    requires r !in s
    ensures PendingIn(store, s + [r], source) ==
            PendingIn(store, s, source) + (if IsPending(store, r, source) then {r} else {})
    ensures r !in PendingIn(store, s, source)
  {
  }

  /** Counting along the list counts the set. */
  lemma {:induction false} CountIsSize(store: map<RecordId, Record>, s: seq<RecordId>, source: Option<string>)
    requires Linked(s, store) && Distinct(s)
    ensures PendingCount(store, s, source) == |PendingIn(store, s, source)|
  {
    if s == [] {
      assert PendingIn(store, s, source) == {};
    } else {
      var n := |s| - 1;
      CountIsSize(store, s[..n], source);
      assert s == s[..n] + [s[n]] && s[n] !in s[..n];
      OneMoreInList(store, s[..n], s[n], source);
    }
  }

  lemma IssueKeepsCaps(g: Registry, r: RecordId, c: Challenge, expiresAt: Time, source: string, now: Time)
    requires Shape(g) && Capped(g) && r !in g.store
    ensures Capped(IssueChallenge(g, r, c, expiresAt, source, now).0)
  {
    PurgeResult(g.records, 0, ExpiredChallenges(g, now), g.store);
    var kept := Purge(g.records, 0, ExpiredChallenges(g, now));
    var g1 := g.(records := kept);
    FewerPending(g, g1);
    CountIsSize(g.store, kept, Some(source));
    CountIsSize(g.store, kept, None);
    if IssueChallenge(g, r, c, expiresAt, source, now).1.Ok? {
      AppendedChallenge(g1, r, ChallengeRecord(c, expiresAt, source));
    }
  }

  lemma AppendedPending(g: Registry, r: RecordId, rec: Record, s: Option<string>)
    requires Linked(g.records, g.store) && r !in g.store
    ensures var g' := g.(records := g.records + [r], store := g.store[r := rec]);
            |PendingSet(g', s)| == |PendingSet(g, s)| + (if IsPending(g'.store, r, s) then 1 else 0)
  {
    ListedIsStored(g.records, g.store);
    OneMoreInList(g.store[r := rec], g.records, r, s);
    PendingUnmoved(g.store, g.records, r, rec, s);
  }

  lemma ListedIsStored(s: seq<RecordId>, store: map<RecordId, Record>)
    requires Linked(s, store)
    ensures forall x :: x in s ==> x in store
  {
  }

  lemma PendingUnmoved(store: map<RecordId, Record>, s: seq<RecordId>, r: RecordId, rec: Record, source: Option<string>)
    requires r !in s
    ensures PendingIn(store[r := rec], s, source) == PendingIn(store, s, source)
  {
  }

  lemma AppendedChallenge(g: Registry, r: RecordId, rec: Record)
    requires Linked(g.records, g.store) && Capped(g) && r !in g.store && rec.challenge.Some?
    requires |PendingSet(g, None)| < PENDING_LIMIT && |PendingSet(g, Some(rec.source))| < PENDING_PER_SOURCE
    ensures Capped(g.(records := g.records + [r], store := g.store[r := rec]))
  {
    AppendedPending(g, r, rec, None);
    forall s: string
      ensures |PendingSet(g.(records := g.records + [r], store := g.store[r := rec]), Some(s))| <= PENDING_PER_SOURCE
    {
      AppendedPending(g, r, rec, Some(s));
    }
  }

  lemma CommitKeepsPending(g: Registry, r: RecordId, rec: Record, policy: Policy, now: Time, s: Option<string>)
    requires Shape(g) && r !in g.store && NewLease(rec) && Stale(g, rec) == {}
    ensures PendingSet(Commit(g, r, rec, policy, now).0, s) <= PendingSet(g, s)
  {
    var (g', outcome) := Commit(g, r, rec, policy, now);
    if outcome.Ok? {
      FirstLeaseInRange(g, rec.key, 0);
      forall x | x in PendingSet(g', s) ensures x in PendingSet(g, s) {
        var j :| 0 <= j < |g'.records| && g'.records[j] == x;
        assert x != r;
        assert g.records[j] == x;
      }
    }
  }

  /** No step in place turns a lease into a challenge or moves a challenge to
      another source. */
  /** The pending challenges keep their source. */
  ghost predicate KeepsSources(g: Registry, g': Registry) {
    forall r :: r in g.records && r in g.store && g.store[r].challenge.Some? ==>
      r in g'.store && g'.store[r].source == g.store[r].source
  }

  lemma LeaseStepKeepsSources(g: Registry, e: Event, g': Registry)
    requires Shape(g) && Step(g, e, g') && (e.Renewed? || e.Touched?)
    ensures KeepsSources(g, g')
  {
    if e.Renewed? { FoundInStore(g, e.key, 0, 0); }
  }

  lemma RevokingStepKeepsSources(g: Registry, e: Event, g': Registry)
    requires Step(g, e, g') && (e.Decide? || e.Suspended?)
    ensures KeepsSources(g, g')
  {
  }

  lemma BridgeStepKeepsSources(g: Registry, e: Event, g': Registry)
    requires Step(g, e, g') && (e.Admit? || e.Activate? || e.Cancel? || e.Remove? || e.Close?)
    ensures KeepsSources(g, g')
  {
  }

  lemma PendingStays(g: Registry, g': Registry, s: Option<string>)
    requires InPlace(g, g') && KeepsSources(g, g')
    ensures PendingSet(g', s) <= PendingSet(g, s)
  {
  }

  lemma InPlaceKeepsPending(g: Registry, e: Event, g': Registry, s: Option<string>)
    requires Shape(g) && Step(g, e, g') && ChangesInPlace(e)
    ensures PendingSet(g', s) <= PendingSet(g, s)
  {
    InPlaceSteps(g, e, g');
    if e.Renewed? || e.Touched? {
      LeaseStepKeepsSources(g, e, g');
    } else if e.Decide? || e.Suspended? {
      RevokingStepKeepsSources(g, e, g');
    } else {
      BridgeStepKeepsSources(g, e, g');
    }
    PendingStays(g, g', s);
  }

  lemma StepKeepsCaps(g: Registry, e: Event, g': Registry)
    requires Shape(g) && Capped(g) && Step(g, e, g')
    ensures Capped(g')
  {
    if e.Issued? {
      IssueKeepsCaps(g, e.r, e.c, e.expiresAt, e.source, e.now);
    } else {
      forall s ensures PendingSet(g', s) <= PendingSet(g, s) {
        if ChangesInPlace(e) {
          InPlaceKeepsPending(g, e, g', s);
        } else if OnlyThins(e) {
          ThinningSteps(g, e, g');
        } else {
          CommitKeepsPending(g, e.r, e.rec, e.policy, e.now, s);
        }
      }
      FewerPending(g, g');
    }
  }

  /** In every run at most 256 challenges are pending, and at most 32 of one source. */
  lemma {:induction false} ChallengesAreCapped(es: seq<Event>, gs: seq<Registry>, n: nat)
    requires Run(es, gs) && n <= |es|
    ensures Capped(gs[n])
  {
    if n == 0 {
      assert forall s :: PendingSet(gs[0], s) == {};
    } else {
      ChallengesAreCapped(es, gs, n - 1);
      RecordsKeepTheirShape(es, gs, n - 1);
      StepKeepsCaps(gs[n - 1], es[n - 1], gs[n]);
    }
  }

  // ---------------------------------------------------------------- single use

  /** Challenge ids are drawn fresh. */
  ghost predicate FreshChallenges(es: seq<Event>) {
    forall i, j :: 0 <= i < j < |es| && es[i].Issued? && es[j].Issued? ==> es[i].c.id != es[j].c.id
  }

  ghost predicate Consumes(g: Registry, e: Event, id: string) {
    e.Consumed? && e.id == id && Enabled(g, e) && ConsumeChallenge(g, id, e.verified, e.now).1.Ok?
  }

  lemma StoreStep(g: Registry, e: Event, g': Registry, r: RecordId)
    requires Step(g, e, g') && r in g.store
    ensures r in g'.store && g'.store[r].challenge == g.store[r].challenge
    ensures r in g'.records ==> r in g.records
  {
    if ChangesInPlace(e) {
      InPlaceSteps(g, e, g');
    } else if OnlyThins(e) {
      ThinningSteps(g, e, g');
    } else if e.Committed? {
      if r in g'.records { CommittedStep(g, e, g', r); }
    } else {
      PurgeResult(g.records, 0, ExpiredChallenges(g, e.now), g.store);
    }
  }

  lemma CommittedStep(g: Registry, e: Event, g': Registry, r: RecordId)
    requires Step(g, e, g') && e.Committed? && r in g.store && r in g'.records
    ensures r in g.records
  {
    FirstLeaseInRange(g, e.rec.key, 0);
    var j :| 0 <= j < |g'.records| && g'.records[j] == r;
    if Commit(g, e.r, e.rec, e.policy, e.now).1.Ok? {
      assert g.records[j] == r;
    }
  }

  /** A challenge record was issued with the challenge it carries. */
  lemma {:induction false} ChallengeOrigin(es: seq<Event>, gs: seq<Registry>, n: nat, r: RecordId) returns (k: nat)
    requires Run(es, gs) && n <= |es| && r in gs[n].store && gs[n].store[r].challenge.Some?
    ensures k < n && es[k].Issued? && es[k].r == r && es[k].c == gs[n].store[r].challenge.value
  {
    var m := n - 1;
    assert Step(gs[m], es[m], gs[m + 1]);
    if r in gs[m].store {
      StoreStep(gs[m], es[m], gs[m + 1], r);
      k := ChallengeOrigin(es, gs, m, r);
    } else {
      NewInStore(gs[m], es[m], gs[m + 1], r);
      k := m;
    }
  }

  lemma NewInStore(g: Registry, e: Event, g': Registry, r: RecordId)
    requires Step(g, e, g') && r !in g.store && r in g'.store && g'.store[r].challenge.Some?
    ensures e.Issued? && e.r == r && e.c == g'.store[r].challenge.value
  {
    if ChangesInPlace(e) {
      InPlaceSteps(g, e, g');
    } else if OnlyThins(e) {
      ThinningSteps(g, e, g');
    }
  }

  lemma {:induction false} GoneStaysGone(es: seq<Event>, gs: seq<Registry>, i: nat, j: nat, r: RecordId)
    requires Run(es, gs) && i <= j <= |es| && r in gs[i].store && r !in gs[i].records
    ensures r in gs[j].store && r !in gs[j].records
  {
    if i < j {
      var k := j - 1;
      GoneStaysGone(es, gs, i, k, r);
      StoreStep(gs[k], es[k], gs[k + 1], r);
    }
  }

  /** A challenge is consumed at most once in a run. */
  lemma ConsumedAtMostOnce(es: seq<Event>, gs: seq<Registry>, i: nat, j: nat, id: string)
    requires Run(es, gs) && FreshChallenges(es) && i < j < |es| && Consumes(gs[i], es[i], id)
    ensures !Consumes(gs[j], es[j], id)
  {
    assert Step(gs[i], es[i], gs[i + 1]);
    FindChallengeInRange(gs[i], id, 0);
    var f := FindChallenge(gs[i], id, 0).value;
    var x := gs[i].records[f];
    SwapDeleteResult(gs[i].records, f);
    GoneStaysGone(es, gs, i + 1, j, x);
    var k := ChallengeOrigin(es, gs, i, x);
    if es[j].Consumed? && es[j].id == id && Enabled(gs[j], es[j]) && FindChallenge(gs[j], id, 0).Some? {
      FindChallengeInRange(gs[j], id, 0);
      var y := gs[j].records[FindChallenge(gs[j], id, 0).value];
      var k' := ChallengeOrigin(es, gs, j, y);
    }
  }
}
