/** What the lease registry keeps over every interleaving of its lock sections. */
module LeaseRuns {
  import opened Identity
  import opened Orders
  import opened LeaseState

  datatype Event =
    | Decide(key: ServiceKey, access: Access, revision: nat, now: Time)
    | Suspended(key: ServiceKey, now: Time)
    | Admit(r: RecordId, b: BridgeId, done: bool, now: Time)
    | Activate(r: RecordId, b: BridgeId, now: Time)
    | Cancel(r: RecordId, b: BridgeId)
    | Remove(r: RecordId, b: BridgeId)
    | Close(r: RecordId)
    | Committed(r: RecordId, rec: Record, policy: Policy, now: Time)
    | Renewed(key: ServiceKey, id: string, expiresAt: Time, source: string, now: Time)
    | Touched(r: RecordId, source: string)
    | Unregistered(key: ServiceKey, id: string)
    | Dropped(r: RecordId)                  // a refused challenge, or a registration undone
    | Issued(r: RecordId, c: Challenge, expiresAt: Time, source: string, now: Time)
    | Consumed(id: string, verified: bool, now: Time)
    | Sweep(now: Time)
    | CloseAll

  /** A lease as Register builds it. */
  ghost predicate NewLease(rec: Record) {
    rec.challenge.None? && rec.reverse && rec.canonical != "" && rec.key.Valid() && !rec.closed && rec.bridges == map[]
  }

  ghost predicate Enabled(g: Registry, e: Event) {
    WellFormed(g) &&
    match e
    case Admit(r, b, _, _) => r in g.store && b !in g.store[r].bridges
    case Activate(r, b, _) => r in g.store
    case Cancel(r, b) => r in g.store
    case Remove(r, b) => r in g.store
    case Close(r) => r in g.store
    case Committed(r, rec, _, _) => r !in g.store && NewLease(rec) && Stale(g, rec) == {}
    case Touched(r, _) => r in g.store && g.store[r].reverse
    case Dropped(r) => r in g.records
    case Issued(r, _, _, _, _) => r !in g.store
    case _ => true
  }

  function Next(g: Registry, e: Event): Registry
    requires Enabled(g, e)
  {
    match e
    case Decide(key, access, revision, now) => SetAccess(g, key, access, revision, now).0
    case Suspended(key, now) => Suspend(g, key, now)
    case Admit(r, b, done, now) => AdmitBridge(g, r, b, done, now).0
    case Activate(r, b, now) => ActivateBridge(g, r, b, now).0
    case Cancel(r, b) => CancelBridge(g, r, b)
    case Remove(r, b) => RemoveBridge(g, r, b)
    case Close(r) => CloseRecord(g, r)
    case Committed(r, rec, policy, now) => Commit(g, r, rec, policy, now).0
    case Renewed(key, id, expiresAt, source, now) => Renew(g, key, id, expiresAt, source).0
    case Touched(r, source) => g.(store := g.store[r := g.store[r].(source := source)])
    case Unregistered(key, id) => Unregister(g, key, id).0
    case Dropped(r) => DropRecord(g, r)
    case Issued(r, c, expiresAt, source, now) => IssueChallenge(g, r, c, expiresAt, source, now).0
    case Consumed(id, verified, now) => ConsumeChallenge(g, id, verified, now).0
    case Sweep(now) => Cleanup(g, now)
    case CloseAll => g.(records := [])
  }

  ghost predicate Step(g: Registry, e: Event, g': Registry) { Enabled(g, e) && g' == Next(g, e) }

  ghost predicate Run(es: seq<Event>, gs: seq<Registry>) {
    && |gs| == |es| + 1 && gs[0] == EMPTY
    && forall i :: 0 <= i < |es| ==> Step(gs[i], es[i], gs[i + 1])
  }

  lemma RunStep(es: seq<Event>, gs: seq<Registry>, k: nat)
    requires Run(es, gs) && k < |es|
    ensures Step(gs[k], es[k], gs[k + 1])
  {
  }

  // ---------------------------------------------------------------- shape of the list

  /** A challenge or a lease, never both, never neither. */
  ghost predicate KindOk(rec: Record) {
    || (rec.challenge.Some? && !rec.reverse && rec.canonical == "")
    || (rec.challenge.None? && rec.reverse && rec.canonical != "" && rec.key.Valid())
  }

  ghost predicate Kinds(g: Registry) {
    forall r :: r in g.records ==> r in g.store && KindOk(g.store[r])
  }

  predicate IsLease(g: Registry, r: RecordId) { r in g.store && g.store[r].reverse }

  ghost predicate OneLeasePerKey(g: Registry) {
    forall x, y :: x in g.records && y in g.records && x != y && IsLease(g, x) && IsLease(g, y) ==>
      g.store[x].key != g.store[y].key
  }

  ghost predicate Shape(g: Registry) { WellFormed(g) && Kinds(g) && OneLeasePerKey(g) }

  /** What the shape of the list depends on. */
  ghost predicate SameFace(a: Record, b: Record) {
    && a.key == b.key && a.challenge == b.challenge && a.reverse == b.reverse
    && a.canonical == b.canonical && a.hostname == b.hostname
  }

  /** Records may change in place, but not their faces. */
  ghost predicate InPlace(g: Registry, g': Registry) {
    && g'.records == g.records && g'.store.Keys == g.store.Keys
    && forall r :: r in g.store ==> SameFace(g.store[r], g'.store[r])
  }

  /** Records may leave the list. */
  ghost predicate Thinned(g: Registry, g': Registry) {
    && g'.store == g.store && Distinct(g'.records) && forall r :: r in g'.records ==> r in g.records
  }

  ghost predicate ChangesInPlace(e: Event) {
    e.Decide? || e.Suspended? || e.Admit? || e.Activate? || e.Cancel? || e.Remove? || e.Close? || e.Renewed?
    || e.Touched?
  }

  ghost predicate OnlyThins(e: Event) {
    e.Unregistered? || e.Dropped? || e.Consumed? || e.Sweep? || e.CloseAll?
  }

  lemma RevokingSteps(g: Registry, e: Event, g': Registry)
    requires Step(g, e, g') && (e.Decide? || e.Suspended?)
    ensures InPlace(g, g')
  {
  }

  lemma BridgeSteps(g: Registry, e: Event, g': Registry)
    requires Step(g, e, g') && (e.Admit? || e.Activate? || e.Cancel? || e.Remove? || e.Close?)
    ensures InPlace(g, g')
  {
  }

  lemma LeaseSteps(g: Registry, e: Event, g': Registry)
    requires Step(g, e, g') && (e.Renewed? || e.Touched?)
    ensures InPlace(g, g')
  {
    if e.Renewed? {
      FoundInStore(g, e.key, 0, 0);
    }
  }

  lemma InPlaceSteps(g: Registry, e: Event, g': Registry)
    requires Step(g, e, g') && ChangesInPlace(e)
    ensures InPlace(g, g') == true
  {
    if e.Decide? || e.Suspended? {
      RevokingSteps(g, e, g');
    } else if e.Renewed? || e.Touched? {
      LeaseSteps(g, e, g');
    } else {
      BridgeSteps(g, e, g');
    }
  }

  lemma ThinningSteps(g: Registry, e: Event, g': Registry)
    requires Step(g, e, g') && OnlyThins(e)
    ensures Thinned(g, g')
  {
    match e
    case Unregistered(key, id) =>
      FoundInStore(g, key, 0, 0);
      if RecordByKey(g, key, 0).Some? {
        SwapDeleteResult(g.records, IndexOf(g.records, RecordByKey(g, key, 0).value));
      }
    case Dropped(r) => SwapDeleteResult(g.records, IndexOf(g.records, r));
    case Consumed(id, verified, now) =>
      FindChallengeInRange(g, id, 0);
      if FindChallenge(g, id, 0).Some? {
        SwapDeleteResult(g.records, FindChallenge(g, id, 0).value);
      }
    case Sweep(now) => PurgeResult(g.records, 0, ExpiredRecords(g, now), g.store);
    case CloseAll =>
  }

  lemma InPlaceKeepsShape(g: Registry, g': Registry)
    requires Shape(g) && InPlace(g, g')
    ensures Shape(g')
  {
  }

  lemma ThinnedKeepsShape(g: Registry, g': Registry)
    requires Shape(g) && Thinned(g, g')
    ensures Shape(g')
  {
    forall i | 0 <= i < |g'.records| ensures g'.records[i] in g'.store {
      assert g'.records[i] in g'.records;
    }
  }

  /** The delete loop of Register finds nothing to delete, so the index it
      computed before that loop still names the replaced lease after it. */
  lemma DeleteLoopIsIdle(g: Registry, rec: Record)
    requires Shape(g)
    ensures Stale(g, rec) == {} && Purge(g.records, 0, Stale(g, rec)) == g.records
  {
    assert Stale(g, rec) == {};
    PurgeNothing(g.records, 0);
  }

  lemma {:induction false} PurgeNothing(s: seq<RecordId>, i: nat)
    requires i <= |s|
    ensures Purge(s, i, {}) == s
    decreases |s| - i
  {
    if i < |s| { PurgeNothing(s, i + 1); }
  }

  lemma AppendKeepsShape(g: Registry, r: RecordId, rec: Record)
    requires Shape(g) && r !in g.store && KindOk(rec)
    requires rec.reverse ==> forall x :: x in g.records && g.store[x].reverse ==> g.store[x].key != rec.key
    ensures Shape(g.(records := g.records + [r], store := g.store[r := rec]))
  {
  }

  lemma ReplaceKeepsShape(g: Registry, i: nat, r: RecordId, rec: Record)
    requires Shape(g) && r !in g.store && KindOk(rec) && i < |g.records| && At(g, i).reverse && At(g, i).key == rec.key
    ensures Shape(g.(records := g.records[i := r], store := g.store[r := rec]))
  {
    var g' := g.(records := g.records[i := r], store := g.store[r := rec]);
    forall x | x in g'.records && x != r ensures x in g.records && x != g.records[i] {
      var j :| 0 <= j < |g'.records| && g'.records[j] == x;
      assert g.records[j] == x;
    }
    assert g.records[i] in g.records;
  }

  lemma CommitKeepsShape(g: Registry, r: RecordId, rec: Record, policy: Policy, now: Time)
    requires Shape(g) && r !in g.store && NewLease(rec) && Stale(g, rec) == {}
    ensures Shape(Commit(g, r, rec, policy, now).0)
  {
    var (g', outcome) := Commit(g, r, rec, policy, now);
    if outcome.Ok? {
      var named := if NameTaken(g, rec, now) then rec.(hostname := "") else rec;
      FirstLeaseInRange(g, rec.key, 0);
      if FirstLease(g, rec.key, 0).Some? {
        ReplaceKeepsShape(g, FirstLease(g, rec.key, 0).value, r, named);
      } else {
        forall x | x in g.records && g.store[x].reverse ensures g.store[x].key != rec.key {
          var j :| 0 <= j < |g.records| && g.records[j] == x;
          assert !(At(g, j).reverse && At(g, j).key == rec.key);
        }
        AppendKeepsShape(g, r, named);
      }
    }
  }

  lemma IssueKeepsShape(g: Registry, r: RecordId, c: Challenge, expiresAt: Time, source: string, now: Time)
    requires Shape(g) && r !in g.store
    ensures Shape(IssueChallenge(g, r, c, expiresAt, source, now).0)
  {
    var kept := Purge(g.records, 0, ExpiredChallenges(g, now));
    PurgeResult(g.records, 0, ExpiredChallenges(g, now), g.store);
    var g1 := g.(records := kept);
    ThinnedKeepsShape(g, g1);
    AppendKeepsShape(g1, r, ChallengeRecord(c, expiresAt, source));
  }

  lemma StepKeepsShape(g: Registry, e: Event, g': Registry)
    requires Shape(g) && Step(g, e, g')
    ensures Shape(g')
  {
    if ChangesInPlace(e) {
      InPlaceSteps(g, e, g');
      InPlaceKeepsShape(g, g');
    } else if OnlyThins(e) {
      ThinningSteps(g, e, g');
      ThinnedKeepsShape(g, g');
    } else if e.Committed? {
      CommitKeepsShape(g, e.r, e.rec, e.policy, e.now);
    } else {
      IssueKeepsShape(g, e.r, e.c, e.expiresAt, e.source, e.now);
    }
  }

  /** In every run every record is a challenge or a lease, and no identity has
      two leases. */
  lemma {:induction false} RecordsKeepTheirShape(es: seq<Event>, gs: seq<Registry>, n: nat)
    requires Run(es, gs) && n <= |es|
    ensures Shape(gs[n])
  {
    if n > 0 {
      RecordsKeepTheirShape(es, gs, n - 1);
      StepKeepsShape(gs[n - 1], es[n - 1], gs[n]);
    }
  }

  // ---------------------------------------------------------------- revisions

  /** Decision e takes effect in g. */
  predicate Takes(g: Registry, e: Event) { e.Decide? && e.key.Valid() && g.revision <= e.revision }

  lemma RevisionStep(g: Registry, e: Event, g': Registry)
    requires Step(g, e, g')
    ensures g.revision <= g'.revision && (Takes(g, e) ==> g'.revision == e.revision)
  {
    if ChangesInPlace(e) {
      InPlaceRevision(g, e, g');
    } else if e.Committed? {
      FirstLeaseInRange(g, e.rec.key, 0);
    }
  }

  lemma InPlaceRevision(g: Registry, e: Event, g': Registry)
    requires Step(g, e, g') && ChangesInPlace(e)
    ensures g'.revision == if Takes(g, e) then e.revision else g.revision
  {
    if e.Renewed? {
      FoundInStore(g, e.key, 0, 0);
    }
  }

  /** In every run the recorded revision never decreases. */
  lemma {:induction false} RevisionsNeverDecrease(es: seq<Event>, gs: seq<Registry>, i: nat, j: nat)
    requires Run(es, gs) && i <= j <= |es|
    ensures gs[i].revision <= gs[j].revision
  {
    if i < j {
      var k := j - 1;
      RevisionsNeverDecrease(es, gs, i, k);
      RunStep(es, gs, k);
      RevisionStep(gs[k], es[k], gs[k + 1]);
    }
  }

  /** A decision older than one that took effect does nothing for the rest of the
      run, and says so. */
  lemma OlderDecisionIsIdle(es: seq<Event>, gs: seq<Registry>, i: nat, j: nat)
    requires Run(es, gs) && i < j < |es| && Takes(gs[i], es[i])
    requires es[j].Decide? && es[j].key.Valid() && es[j].revision < es[i].revision
    ensures gs[j + 1] == gs[j]
    ensures WellFormed(gs[j]) && !SetAccess(gs[j], es[j].key, es[j].access, es[j].revision, es[j].now).1
  {
    RunStep(es, gs, i);
    RevisionStep(gs[i], es[i], gs[i + 1]);
    RevisionsNeverDecrease(es, gs, i + 1, j);
    RunStep(es, gs, j);
  }
}
