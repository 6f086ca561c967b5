/** Admission, activation and revocation of the bridges of a lease. */
module BridgeSafety {
  import opened Identity
  import opened LeaseState
  import opened LeaseRuns

  /** Pending and active bridges together stay within the limit, and a closed
      lease has none that could still activate. */
  ghost predicate BridgesOk(rec: Record) {
    |rec.bridges| <= BRIDGE_LIMIT && (rec.closed ==> forall b :: b in rec.bridges ==> rec.bridges[b].cancelled)
  }

  ghost predicate Bounded(g: Registry) { forall r :: r in g.store ==> BridgesOk(g.store[r]) }

  lemma CancelAllSameSize(bridges: map<BridgeId, Bridge>)
    ensures |CancelAll(bridges)| == |bridges|
  {
    assert CancelAll(bridges).Keys == bridges.Keys;
    assert |CancelAll(bridges)| == |CancelAll(bridges).Keys| && |bridges| == |bridges.Keys|;
  }

  lemma UpdateSize(bridges: map<BridgeId, Bridge>, b: BridgeId, v: Bridge)
    ensures |bridges[b := v]| == if b in bridges then |bridges| else |bridges| + 1
    ensures |bridges - {b}| <= |bridges|
  {
    assert bridges[b := v].Keys == bridges.Keys + {b};
    assert |bridges| == |bridges.Keys| && |bridges[b := v]| == |bridges[b := v].Keys|;
    assert (bridges - {b}).Keys == bridges.Keys - {b};
    assert |bridges - {b}| == |(bridges - {b}).Keys|;
  }

  lemma RevokeKeepsBounded(g: Registry, key: ServiceKey)
    requires Linked(g.records, g.store) && Bounded(g)
    ensures forall r :: r in Revoke(g, key) ==> BridgesOk(Revoke(g, key)[r])
  {
    forall r | r in g.store ensures BridgesOk(Revoke(g, key)[r]) {
      CancelAllSameSize(g.store[r].bridges);
    }
  }

  /** The records of the list a bridge step touches: only r. */
  lemma OneRecordKeepsBounded(g: Registry, r: RecordId, rec: Record)
    requires Bounded(g) && BridgesOk(rec)
    ensures Bounded(g.(store := g.store[r := rec]))
  {
  }

  lemma AdmitKeepsBounded(g: Registry, r: RecordId, b: BridgeId, done: bool, now: Time)
    requires Bounded(g) && Linked(g.records, g.store) && r in g.store && b !in g.store[r].bridges
    ensures Bounded(AdmitBridge(g, r, b, done, now).0)
  {
    var rec := g.store[r];
    UpdateSize(rec.bridges, b, Bridge(false, false));
    if !rec.closed && |rec.bridges| < BRIDGE_LIMIT {
      OneRecordKeepsBounded(g, r, rec.(bridges := rec.bridges[b := Bridge(false, false)]));
    }
  }

  lemma RemoveKeepsBounded(g: Registry, r: RecordId, b: BridgeId)
    requires Bounded(g) && r in g.store
    ensures Bounded(RemoveBridge(g, r, b))
  {
    var rec := g.store[r];
    UpdateSize(rec.bridges, b, Bridge(false, false));
    OneRecordKeepsBounded(g, r, rec.(bridges := rec.bridges - {b}));
  }

  lemma AttachStep(g: Registry, e: Event, g': Registry)
    requires Bounded(g) && Step(g, e, g') && (e.Activate? || e.Cancel?)
    ensures Bounded(g')
  {
    var rec := g.store[e.r];
    if e.b in rec.bridges {
      UpdateSize(rec.bridges, e.b, rec.bridges[e.b].(attached := true));
      UpdateSize(rec.bridges, e.b, rec.bridges[e.b].(cancelled := true));
    }
    assert BridgesOk(g'.store[e.r]);
  }

  lemma CloseStep(g: Registry, r: RecordId, g': Registry)
    requires Bounded(g) && Step(g, Close(r), g')
    ensures Bounded(g')
  {
    CancelAllSameSize(g.store[r].bridges);
    assert BridgesOk(g'.store[r]);
  }

  lemma StepKeepsBounded(g: Registry, e: Event, g': Registry)
    requires Bounded(g) && Step(g, e, g')
    ensures Bounded(g')
  {
    if e.Decide? || e.Suspended? {
      RevokeKeepsBounded(g, e.key);
    } else if e.Admit? {
      AdmitKeepsBounded(g, e.r, e.b, e.done, e.now);
    } else if e.Remove? {
      RemoveKeepsBounded(g, e.r, e.b);
    } else if e.Activate? || e.Cancel? {
      AttachStep(g, e, g');
    } else if e.Close? {
      CloseStep(g, e.r, g');
    } else if e.Renewed? {
      FoundInStore(g, e.key, 0, 0);
    }
  }

  /** In every run no lease, current or not, ever has more than 128 bridges, and
      every bridge of a closed one is cancelled. */
  lemma {:induction false} BridgesStayBounded(es: seq<Event>, gs: seq<Registry>, n: nat)
    requires Run(es, gs) && n <= |es|
    ensures Bounded(gs[n])
  {
    if n > 0 {
      BridgesStayBounded(es, gs, n - 1);
      StepKeepsBounded(gs[n - 1], es[n - 1], gs[n]);
    }
  }

  lemma ClosedStep(g: Registry, e: Event, g': Registry, r: RecordId)
    requires Step(g, e, g') && r in g.store
    ensures r in g'.store && (g.store[r].closed ==> g'.store[r].closed)
  {
    if e.Renewed? { FoundInStore(g, e.key, 0, 0); }
  }

  lemma {:induction false} ClosedStaysClosed(es: seq<Event>, gs: seq<Registry>, i: nat, j: nat, r: RecordId)
    requires Run(es, gs) && i <= j <= |es| && r in gs[i].store && gs[i].store[r].closed
    ensures r in gs[j].store && gs[j].store[r].closed
  {
    if i < j {
      var k := j - 1;
      ClosedStaysClosed(es, gs, i, k, r);
      ClosedStep(gs[k], es[k], gs[k + 1], r);
    }
  }

  /** A lease once closed admits and activates nothing for the rest of the run. */
  lemma ClosedLeaseAdmitsNothing(es: seq<Event>, gs: seq<Registry>, i: nat, j: nat, r: RecordId)
    requires Run(es, gs) && i <= j < |es| && r in gs[i].store && gs[i].store[r].closed
    requires (es[j].Admit? || es[j].Activate?) && es[j].r == r
    ensures gs[j + 1] == gs[j]
  {
    ClosedStaysClosed(es, gs, i, j, r);
    assert Step(gs[j], es[j], gs[j + 1]);
  }

  // ---------------------------------------------------------------- activation

  /** Section e, run in state g, denies or suspends the identity. */
  ghost predicate Denies(g: Registry, e: Event, key: ServiceKey) {
    || (e.Decide? && e.key == key && key.Valid() && e.access != Routable && e.revision >= g.revision)
    || (e.Suspended? && e.key == key)
  }

  ghost predicate Admits(g: Registry, e: Event, r: RecordId, b: BridgeId) {
    e.Admit? && e.r == r && e.b == b && Enabled(g, e) && AdmitBridge(g, r, b, e.done, e.now).1.Ok?
  }

  ghost predicate Activates(g: Registry, e: Event) {
    e.Activate? && Enabled(g, e) && ActivateBridge(g, e.r, e.b, e.now).1.Ok?
  }

  ghost predicate LiveBridge(g: Registry, r: RecordId, b: BridgeId) {
    r in g.records && r in g.store && b in g.store[r].bridges && !g.store[r].bridges[b].cancelled
  }

  lemma DecisionStep(g: Registry, e: Event, g': Registry, r: RecordId, b: BridgeId)
    requires Step(g, e, g') && (e.Decide? || e.Suspended?) && LiveBridge(g', r, b)
    ensures LiveBridge(g, r, b) && !Denies(g, e, g.store[r].key) && g.store[r].key == g'.store[r].key
  {
    if Denies(g, e, e.key) {
      assert g'.store == Revoke(g, e.key);
    }
  }

  lemma LocalStep(g: Registry, e: Event, g': Registry, r: RecordId, b: BridgeId)
    requires Step(g, e, g')
    requires (e.Admit? || e.Activate? || e.Cancel? || e.Remove? || e.Close? || e.Renewed? || e.Touched?)
    requires LiveBridge(g', r, b) && !Admits(g, e, r, b)
    ensures LiveBridge(g, r, b) && g.store[r].key == g'.store[r].key
  {
    if e.Renewed? { FoundInStore(g, e.key, 0, 0); }
  }

  /** A bridge that could activate after a step could before it, unless the step
      admitted it; and the step did not deny its identity. */
  lemma LiveBridgeStep(g: Registry, e: Event, g': Registry, r: RecordId, b: BridgeId)
    requires Step(g, e, g') && LiveBridge(g', r, b) && !Admits(g, e, r, b)
    ensures LiveBridge(g, r, b) && !Denies(g, e, g.store[r].key) && g.store[r].key == g'.store[r].key
  {
    if e.Decide? || e.Suspended? {
      DecisionStep(g, e, g', r, b);
    } else if ChangesInPlace(e) {
      LocalStep(g, e, g', r, b);
    } else if OnlyThins(e) {
      ThinningSteps(g, e, g');
    } else {
      GrowthStep(g, e, g', r, b);
    }
  }

  lemma GrowthStep(g: Registry, e: Event, g': Registry, r: RecordId, b: BridgeId)
    requires Step(g, e, g') && (e.Committed? || e.Issued?) && LiveBridge(g', r, b)
    ensures LiveBridge(g, r, b) && g'.store[r] == g.store[r]
  {
    if e.Issued? {
      PurgeResult(g.records, 0, ExpiredChallenges(g, e.now), g.store);
    } else {
      FirstLeaseInRange(g, e.rec.key, 0);
      var i := FirstLease(g, e.rec.key, 0);
      assert r != e.r;
      if Commit(g, e.r, e.rec, e.policy, e.now).1.Ok? {
        var j :| 0 <= j < |g'.records| && g'.records[j] == r;
        assert g.records[j] == r;
      }
    }
  }

  /** Every bridge of a listed lease that could still activate was admitted, and
      since then its identity was neither denied nor suspended. */
  lemma {:induction false} LiveBridgeHistory(es: seq<Event>, gs: seq<Registry>, n: nat, r: RecordId, b: BridgeId)
    returns (a: nat)
    requires Run(es, gs) && n <= |es| && LiveBridge(gs[n], r, b)
    ensures a < n && Admits(gs[a], es[a], r, b)
    ensures forall m :: a < m < n ==> !Denies(gs[m], es[m], gs[n].store[r].key)
  {
    var k := n - 1;
    assert Step(gs[k], es[k], gs[k + 1]);
    if Admits(gs[k], es[k], r, b) {
      a := k;
    } else {
      LiveBridgeStep(gs[k], es[k], gs[k + 1], r, b);
      a := LiveBridgeHistory(es, gs, k, r, b);
    }
  }

  /** Whenever a bridge activates: its lease is the current unexpired record of
      its identity, the identity is routable, and between the bridge's admission
      and now no section denied or suspended it. So a revoked bridge never
      activates, even after the identity is approved again. */
  lemma ActivationIsAuthorized(es: seq<Event>, gs: seq<Registry>, n: nat) returns (a: nat)
    requires Run(es, gs) && n < |es| && Activates(gs[n], es[n])
    ensures var g, r, key := gs[n], es[n].r, gs[n].store[es[n].r].key;
            && r in g.records && !IsExpired(g.store[r], es[n].now) && g.store[r].reverse
            && (forall x :: x in g.records && IsLease(g, x) && g.store[x].key == key ==> x == r)
            && IsRoutable(g, key) && !g.store[r].closed
            && a < n && Admits(gs[a], es[a], r, es[n].b)
            && forall m :: a < m < n ==> !Denies(gs[m], es[m], key)
  {
    var g, r := gs[n], es[n].r;
    RecordsKeepTheirShape(es, gs, n);
    FoundInStore(g, g.store[r].key, es[n].now, 0);
    a := LiveBridgeHistory(es, gs, n, r, es[n].b);
  }
}
