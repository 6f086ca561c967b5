/** Cached content never outlives the relay's decision to route its owner: the
    argument that spans portal/api_server.go, portal/lease.go and portal/cache. */
module Revocation {
  import opened Identity
  import opened Orders
  import opened StaticCache
  import opened CacheWorld
  import CacheSafety

  // ---------------------------------------------------------------- the fence

  /** Not blocked, or blocked by a denial that still holds the registry lock. */
  ghost predicate Tolerated(blocked: set<ServiceKey>, denying: Option<ServiceKey>, key: ServiceKey) {
    key !in blocked || denying == Some(key)
  }

  /** Lease id is still in the generation a request captured. */
  ghost predicate Current(c: Cache, id: string, g: nat) {
    id in c.leases && c.leases[id].generation == g
  }

  ghost predicate LeasesOk(c: Cache) {
    forall id :: id in c.leases ==>
      c.leases[id].lease.id == id && c.leases[id].lease.owner.Valid() && c.leases[id].generation <= c.generation
  }

  /** A site prepared under generation g may still be published only if its
      owner is tolerated. */
  ghost predicate SiteOk(c: Cache, blocked: set<ServiceKey>, denying: Option<ServiceKey>, site: Site, g: nat) {
    && g <= c.generation && site.owner.Valid()
    && (Current(c, site.leaseID, g) ==>
          c.leases[site.leaseID].lease.owner == site.owner && Tolerated(blocked, denying, site.owner))
  }

  ghost predicate ThreadOk(c: Cache, blocked: set<ServiceKey>, denying: Option<ServiceKey>, t: Thread) {
    match t
    case Captured(id, key, g) => g <= c.generation && (Current(c, id, g) ==> c.leases[id].lease.owner == key)
    case Checked(id, g) => g <= c.generation
                           && (Current(c, id, g) ==> Tolerated(blocked, denying, c.leases[id].lease.owner))
    case Admitted(site, g) => SiteOk(c, blocked, denying, site, g)
    case Staged(id, g) => id in c.sites && SiteOk(c, blocked, denying, c.sites[id], g)
  }

  ghost predicate EntryOk(c: Cache, blocked: set<ServiceKey>, denying: Option<ServiceKey>, h: string)
    requires h in c.entries
  {
    c.entries[h] in c.sites && c.sites[c.entries[h]].owner.Valid()
    && Tolerated(blocked, denying, c.sites[c.entries[h]].owner)
  }

  ghost predicate Fenced(c: Cache, blocked: set<ServiceKey>, denying: Option<ServiceKey>, threads: map<nat, Thread>) {
    && LeasesOk(c)
    && (forall t :: t in threads ==> ThreadOk(c, blocked, denying, threads[t]))
    && (forall h :: h in c.entries ==> EntryOk(c, blocked, denying, h))
  }

  ghost predicate FencedWorld(w: World) { Fenced(w.c, w.blocked, w.denying, w.threads) }

  // ---------------------------------------------------------------- moves that keep it

  /** c' publishes nothing new, keeps who sites belong to, and keeps the leases
      or gives them generations never handed out before. */
  ghost predicate Quiet(c: Cache, c': Cache) {
    && c.generation <= c'.generation
    && (forall h :: h in c'.entries ==> h in c.entries && c'.entries[h] == c.entries[h])
    && (forall id :: id in c.sites ==> id in c'.sites && c'.sites[id].owner == c.sites[id].owner
                                       && c'.sites[id].leaseID == c.sites[id].leaseID)
    && (forall id :: id in c'.leases && c'.leases[id].generation <= c.generation ==>
          id in c.leases && c'.leases[id].generation == c.leases[id].generation
          && c'.leases[id].lease.owner == c.leases[id].lease.owner)
  }

  lemma QuietThread(c: Cache, c': Cache, blocked: set<ServiceKey>, denying: Option<ServiceKey>, t: Thread)
    requires Quiet(c, c') && ThreadOk(c, blocked, denying, t)
    ensures ThreadOk(c', blocked, denying, t)
  {
  }

  lemma QuietKeepsFence(c: Cache, c': Cache, blocked: set<ServiceKey>, denying: Option<ServiceKey>,
                        threads: map<nat, Thread>)
    requires Quiet(c, c') && LeasesOk(c') && Fenced(c, blocked, denying, threads)
    ensures Fenced(c', blocked, denying, threads)
  {
    forall t | t in threads ensures ThreadOk(c', blocked, denying, threads[t]) {
      QuietThread(c, c', blocked, denying, threads[t]);
    }
  }

  lemma RegisteredIsQuiet(c: Cache, cfg: Config, lease: Lease, req: Request)
    requires LeasesOk(c) && lease.owner.Valid()
    ensures Quiet(c, Registered(c, cfg, lease, req)) && LeasesOk(Registered(c, cfg, lease, req))
  {
  }

  lemma RenewedIsQuiet(w: World, lease: Lease, now: Time)
    requires WellFormed(w.c) && LeasesOk(w.c) && RegistryFacts(w, lease)
    ensures Quiet(w.c, Renewed(w.c, lease, now)) && LeasesOk(Renewed(w.c, lease, now))
  {
    var c := w.c;
    if lease.id in c.leases {
      var state := c.leases[lease.id].(lease := lease);
      var c1 := c.(leases := c.leases[lease.id := state]);
      LeaseUpdateIsQuiet(w, lease);
      var h := lease.hostname;
      if h in c.entries && SiteAt(c, h).leaseID == lease.id {
        if now < SiteAt(c, h).expiresAt {
          TouchIsQuiet(c, c1, h, CacheExpiry(state));
        } else {
          RetiredToo(c, c1, h);
        }
      }
    }
  }

  lemma LeaseUpdateIsQuiet(w: World, lease: Lease)
    requires LeasesOk(w.c) && RegistryFacts(w, lease) && lease.id in w.c.leases
    ensures var c1 := w.c.(leases := w.c.leases[lease.id := w.c.leases[lease.id].(lease := lease)]);
            Quiet(w.c, c1) && LeasesOk(c1)
  {
  }

  lemma TouchIsQuiet(c: Cache, c1: Cache, h: string, expiresAt: Time)
    requires WellFormed(c) && Quiet(c, c1) && c1.sites == c.sites && h in c.entries
    ensures Quiet(c, c1.(sites := c.sites[c.entries[h] := SiteAt(c, h).(expiresAt := expiresAt)]))
  {
  }

  lemma RetiredToo(c: Cache, c1: Cache, h: string)
    requires Quiet(c, c1) && h in c1.entries
    ensures Quiet(c, Retire(c1, h))
  {
  }

  lemma DetachedIsQuiet(c: Cache, lease: Lease, now: Time)
    requires WellFormed(c) && LeasesOk(c)
    ensures Quiet(c, Detached(c, lease, now)) && LeasesOk(Detached(c, lease, now))
  {
    var at := CacheSafety.DetachCases(c, lease, now);
  }

  lemma SweptIsQuiet(c: Cache, now: Time, order: seq<string>)
    requires WellFormed(c) && Lists(order, ExpiredHosts(c, now))
    ensures Quiet(c, Swept(c, now, order).0)
  {
  }

  /** The end of a denial: nothing of the owner stays published, and no request
      under way holds the owner's new generation. */
  lemma RevokedIsFenced(c: Cache, blocked: set<ServiceKey>, owner: ServiceKey, order: seq<string>,
                        threads: map<nat, Thread>)
    requires WellFormed(c) && Lists(order, HostsOf(c, owner)) && Fenced(c, blocked, Some(owner), threads)
    ensures Fenced(OwnerRevoked(c, owner, order), blocked, None, threads)
  {
    var c' := OwnerRevoked(c, owner, order);
    forall t | t in threads ensures ThreadOk(c', blocked, None, threads[t]) {
      RevokedThread(c, blocked, owner, order, threads[t]);
    }
    forall h | h in c'.entries ensures EntryOk(c', blocked, None, h) {
      assert EntryOk(c, blocked, Some(owner), h);
    }
  }

  lemma RevokedThread(c: Cache, blocked: set<ServiceKey>, owner: ServiceKey, order: seq<string>, t: Thread)
    requires WellFormed(c) && Lists(order, HostsOf(c, owner)) && LeasesOk(c) && ThreadOk(c, blocked, Some(owner), t)
    ensures ThreadOk(OwnerRevoked(c, owner, order), blocked, None, t)
  {
  }

  // ---------------------------------------------------------------- every step

  lemma DecisionStep(w: World, e: Event)
    requires FencedWorld(w) && Enabled(w, e) && (e.DenyBegin? || e.DenyEnd? || e.Allow? || e.Forget?)
    ensures FencedWorld(Next(w, e))
  {
    if e.DenyEnd? {
      RevokedIsFenced(w.c, w.blocked, w.denying.value, e.order, w.threads);
    } else {
      var w' := Next(w, e);
      ToleranceKept(w.c, w.blocked, w.denying, w'.blocked, w'.denying, w.threads);
    }
  }

  lemma ToleranceKept(c: Cache, b: set<ServiceKey>, d: Option<ServiceKey>, b': set<ServiceKey>, d': Option<ServiceKey>,
                      threads: map<nat, Thread>)
    requires Fenced(c, b, d, threads) && forall k :: Tolerated(b, d, k) ==> Tolerated(b', d', k)
    ensures Fenced(c, b', d', threads)
  {
    forall t | t in threads ensures ThreadOk(c, b', d', threads[t]) {
      assert ThreadOk(c, b, d, threads[t]);
    }
    forall h | h in c.entries ensures EntryOk(c, b', d', h) {
      assert EntryOk(c, b, d, h);
    }
  }

  lemma QuietStep(w: World, e: Event)
    requires FencedWorld(w) && Enabled(w, e)
    requires e.Register? || e.Renew? || e.Detach? || e.Sweep? || e.Evict? || e.Delete? || e.Probe? || e.Discard?
    ensures Quiet(w.c, Next(w, e).c) && LeasesOk(Next(w, e).c)
  {
    match e
    case Register(lease, req) => RegisteredIsQuiet(w.c, w.cfg, lease, req);
    case Renew(lease, now) => RenewedIsQuiet(w, lease, now);
    case Detach(lease, now) => DetachedIsQuiet(w.c, lease, now);
    case Sweep(now, order) => SweptIsQuiet(w.c, now, order);
    case _ => RetiringIsQuiet(w, e);
  }

  lemma RetireIsQuiet(c: Cache, c': Cache, h: string)
    requires LeasesOk(c) && (c' == c || (h in c.entries && c' == Retire(c, h)))
    ensures Quiet(c, c') && LeasesOk(c')
  {
  }

  lemma RetiringIsQuiet(w: World, e: Event)
    requires FencedWorld(w) && Enabled(w, e) && (e.Evict? || e.Delete? || e.Probe? || e.Discard?)
    ensures Quiet(w.c, Next(w, e).c) && LeasesOk(Next(w, e).c)
  {
    if e.Discard? {
      RetireIsQuiet(w.c, Discarded(w.c, w.pins[e.r]), w.c.sites[w.pins[e.r]].host);
    } else if e.Evict? {
      RetireIsQuiet(w.c, Retire(w.c, e.host), e.host);
    } else if e.Delete? {
      RetireIsQuiet(w.c, Deleted(w.c, e.host, e.id, e.generation, e.now), e.host);
    } else {
      RetireIsQuiet(w.c, Probed(w.c, e.host, e.id, e.digest, e.generation, e.now).0, e.host);
    }
  }

  lemma SitesMoveQuietly(c: Cache, c': Cache)
    requires LeasesOk(c) && c'.leases == c.leases && c'.generation == c.generation && c'.entries == c.entries
    requires c'.sites.Keys == c.sites.Keys
    requires forall id :: id in c.sites ==> c'.sites[id].owner == c.sites[id].owner
                                            && c'.sites[id].leaseID == c.sites[id].leaseID
    ensures Quiet(c, c') && LeasesOk(c')
  {
  }

  lemma AcquiredIsQuiet(c: Cache, h: string, now: Time)
    requires WellFormed(c) && LeasesOk(c)
    ensures Quiet(c, Acquired(c, h, now)) && LeasesOk(Acquired(c, h, now))
  {
    SitesMoveQuietly(c, Acquired(c, h, now));
  }

  lemma ReleasedIsQuiet(c: Cache, id: SiteId)
    requires LeasesOk(c) && id in c.sites && c.sites[id].readers > 0
    ensures Quiet(c, Released(c, id)) && LeasesOk(Released(c, id))
  {
    SitesMoveQuietly(c, Released(c, id));
  }

  lemma ReaderStepIsQuiet(w: World, e: Event)
    requires LeasesOk(w.c) && Enabled(w, e)
    requires e.MakeDir? || e.RemoveDir? || e.Dispose? || e.Acquire? || e.Release?
    ensures Quiet(w.c, Next(w, e).c) == true
    ensures LeasesOk(Next(w, e).c) == true
  {
    if e.Acquire? {
      AcquiredIsQuiet(w.c, e.host, e.now);
    } else if e.Release? {
      ReleasedIsQuiet(w.c, w.pins[e.r]);
    } else {
      SitesMoveQuietly(w.c, Next(w, e).c);
    }
  }

  /** Reading the generation before the routability check is what fences a
      request: found routable, it holds a generation no denial has replaced. */
  lemma RequestStep(w: World, e: Event)
    requires FencedWorld(w) && Enabled(w, e) && (e.Capture? || e.Check? || e.Admit? || e.Drop?)
    ensures FencedWorld(Next(w, e))
  {
    if e.Check? || e.Admit? {
      assert ThreadOk(w.c, w.blocked, w.denying, w.threads[e.t]);
    }
    var w' := Next(w, e);
    forall t | t in w'.threads ensures ThreadOk(w.c, w.blocked, w.denying, w'.threads[t]) {
      if t != e.t {
        assert ThreadOk(w.c, w.blocked, w.denying, w.threads[t]);
      }
    }
  }

  lemma ReserveStep(w: World, t: nat, id: SiteId)
    requires FencedWorld(w) && Enabled(w, Reserve(t, id))
    ensures FencedWorld(Next(w, Reserve(t, id)))
  {
    var w' := Next(w, Reserve(t, id));
    assert ThreadOk(w.c, w.blocked, w.denying, w.threads[t]);
    QuietKeepsFence(w.c, w'.c, w.blocked, w.denying, w.threads);
  }

  lemma LeaveStep(w: World, c: Cache, t: nat)
    requires FencedWorld(w) && Quiet(w.c, c) && LeasesOk(c)
    ensures Fenced(c, w.blocked, w.denying, w.threads - {t})
  {
    QuietKeepsFence(w.c, c, w.blocked, w.denying, w.threads);
  }

  lemma PublishStep(w: World, t: nat, now: Time)
    requires FencedWorld(w) && Enabled(w, Publish(t, now))
    ensures FencedWorld(Next(w, Publish(t, now)))
  {
    var Staged(id, g) := w.threads[t];
    var (c, ok) := Published(w.c, id, g, now);
    if ok {
      var h := w.c.sites[id].host;
      assert ThreadOk(w.c, w.blocked, w.denying, w.threads[t]);
      var without := c.(entries := c.entries - {h});
      assert Quiet(w.c, without);
      LeaveStep(w, without, t);
      forall t' | t' in w.threads - {t} ensures ThreadOk(c, w.blocked, w.denying, (w.threads - {t})[t']) {
        assert ThreadOk(without, w.blocked, w.denying, (w.threads - {t})[t']);
      }
      forall k | k in c.entries ensures EntryOk(c, w.blocked, w.denying, k) {
        if k != h { assert EntryOk(without, w.blocked, w.denying, k); }
      }
    }
  }

  lemma StepKeepsFence(w: World, e: Event, w': World)
    requires FencedWorld(w) && Step(w, e, w')
    ensures FencedWorld(w')
  {
    if e.DenyBegin? || e.DenyEnd? || e.Allow? || e.Forget? {
      DecisionStep(w, e);
    } else if e.Capture? || e.Check? || e.Admit? || e.Drop? {
      RequestStep(w, e);
    } else if e.Reserve? {
      ReserveStep(w, e.t, e.site);
    } else if e.Publish? {
      PublishStep(w, e.t, e.now);
    } else if e.Abandon? {
      LeaveStep(w, w'.c, e.t);
    } else {
      if e.Register? || e.Renew? || e.Detach? || e.Sweep? || e.Evict? || e.Delete? || e.Probe? || e.Discard? {
        QuietStep(w, e);
      } else {
        ReaderStepIsQuiet(w, e);
      }
      QuietKeepsFence(w.c, w'.c, w.blocked, w.denying, w.threads);
    }
  }

  lemma {:induction false} RunKeepsFence(cfg: Config, es: seq<Event>, ws: seq<World>, n: nat)
    requires Run(cfg, es, ws) && n <= |es|
    ensures FencedWorld(ws[n])
  {
    if n > 0 {
      RunKeepsFence(cfg, es, ws, n - 1);
      StepKeepsFence(ws[n - 1], es[n - 1], ws[n]);
    }
  }

  // ---------------------------------------------------------------- the claim

  /** In every interleaving of uploads with denials, suspensions and
      re-approvals: whenever the registry's write lock is free, no published
      site belongs to a blocked identity. */
  lemma NoBlockedContentIsPublished(cfg: Config, es: seq<Event>, ws: seq<World>, n: nat, h: string)
    requires Run(cfg, es, ws) && n <= |es| && ws[n].denying.None? && h in ws[n].c.entries
    ensures ws[n].c.entries[h] in ws[n].c.sites && ws[n].c.sites[ws[n].c.entries[h]].owner !in ws[n].blocked
  {
    RunKeepsFence(cfg, es, ws, n);
    assert EntryOk(ws[n].c, ws[n].blocked, ws[n].denying, h);
  }

  /** A generation handed out earlier that lease id no longer has. */
  ghost predicate Stale(c: Cache, id: string, g: nat) {
    g <= c.generation && !Current(c, id, g)
  }

  /** Leases come with generations never handed out before, or stay as they are. */
  ghost predicate LeasesQuiet(c: Cache, c': Cache) {
    && c.generation <= c'.generation
    && forall id :: id in c'.leases && c'.leases[id].generation <= c.generation ==>
         id in c.leases && c'.leases[id].generation == c.leases[id].generation
         && c'.leases[id].lease.owner == c.leases[id].lease.owner
  }

  lemma SameLeasesAreQuiet(c: Cache, c': Cache)
    requires c'.leases == c.leases && c'.generation == c.generation
    ensures LeasesQuiet(c, c')
  {
  }

  lemma QuietLeases(c: Cache, c': Cache)
    requires Quiet(c, c')
    ensures LeasesQuiet(c, c')
  {
  }

  lemma RevokedLeases(c: Cache, owner: ServiceKey, order: seq<string>)
    requires WellFormed(c) && Lists(order, HostsOf(c, owner))
    ensures LeasesQuiet(c, OwnerRevoked(c, owner, order))
  {
  }

  lemma LeasesStep(w: World, e: Event, w': World)
    requires FencedWorld(w) && Step(w, e, w')
    ensures LeasesQuiet(w.c, w'.c) == true
  {
    if e.Register? || e.Renew? || e.Detach? || e.Sweep? || e.Evict? || e.Delete? || e.Probe? || e.Discard? {
      QuietStep(w, e);
      QuietLeases(w.c, w'.c);
    } else if e.DenyEnd? {
      RevokedLeases(w.c, w.denying.value, e.order);
    } else {
      SameLeasesAreQuiet(w.c, w'.c);
    }
  }

  /** A generation once replaced is never current again. */
  lemma {:induction false} StaleStaysStale(cfg: Config, es: seq<Event>, ws: seq<World>, i: nat, j: nat, id: string,
                                           g: nat)
    requires Run(cfg, es, ws) && i <= j <= |es| && Stale(ws[i].c, id, g)
    ensures Stale(ws[j].c, id, g)
  {
    if i < j {
      var k := j - 1;
      StaleStaysStale(cfg, es, ws, i, k, id, g);
      RunKeepsFence(cfg, es, ws, k);
      RunStep(cfg, es, ws, k);
      LeasesStep(ws[k], es[k], ws[k + 1]);
    }
  }

  /** A generation that is current was so all along, with the same owner. */
  lemma {:induction false} CurrentAllAlong(cfg: Config, es: seq<Event>, ws: seq<World>, i: nat, j: nat, id: string,
                                           g: nat)
    requires Run(cfg, es, ws) && i <= j <= |es| && g <= ws[i].c.generation && Current(ws[j].c, id, g)
    ensures Current(ws[i].c, id, g) && ws[i].c.leases[id].lease.owner == ws[j].c.leases[id].lease.owner
    decreases j - i
  {
    if i < j {
      RunKeepsFence(cfg, es, ws, i);
      RunStep(cfg, es, ws, i);
      LeasesStep(ws[i], es[i], ws[i + 1]);
      CurrentAllAlong(cfg, es, ws, i + 1, j, id, g);
    }
  }

  /** The end of a denial replaces the generation of every lease of the denied
      identity: whatever was captured before is stale. */
  lemma DenialReplaces(w: World, e: Event, w': World, id: string, g: nat)
    requires Step(w, e, w') && e.DenyEnd? && w.denying.value.Valid() && g <= w.c.generation
    requires id in w.c.leases ==> w.c.leases[id].lease.owner == w.denying.value
    ensures Stale(w'.c, id, g)
  {
  }

  /** The upload that thread t would publish. */
  ghost predicate Uploads(w: World, t: nat, owner: ServiceKey, g: nat) {
    && t in w.threads && w.threads[t].Staged? && w.threads[t].generation == g && w.threads[t].id in w.c.sites
    && w.c.sites[w.threads[t].id].owner == owner
  }

  /** A denial outlaws every upload under way for good: once it has ended, no
      upload of the denied identity under a generation handed out before ever
      publishes, however often the identity is approved again. */
  lemma DeniedUploadNeverPublishes(cfg: Config, es: seq<Event>, ws: seq<World>, i: nat, j: nat, g: nat)
    requires Run(cfg, es, ws) && i < j < |es| && es[i].DenyEnd? && ws[i].denying.Some? && g <= ws[i].c.generation
    requires es[j].Publish? && Uploads(ws[j], es[j].t, ws[i].denying.value, g)
    ensures ws[j + 1] == ws[j]
  {
    RunStep(cfg, es, ws, i);
    RunStep(cfg, es, ws, j);
    RunKeepsFence(cfg, es, ws, j);
    var id := ws[j].c.sites[ws[j].threads[es[j].t].id].leaseID;
    assert ThreadOk(ws[j].c, ws[j].blocked, ws[j].denying, ws[j].threads[es[j].t]);
    if Current(ws[j].c, id, g) {
      CurrentAllAlong(cfg, es, ws, i, j, id, g);
      DenialReplaces(ws[i], es[i], ws[i + 1], id, g);
      StaleStaysStale(cfg, es, ws, i + 1, j, id, g);
    }
  }

  /** Whatever replaced it, an upload under a replaced generation publishes
      nothing later in the run. */
  lemma ReplacedUploadNeverPublishes(cfg: Config, es: seq<Event>, ws: seq<World>, i: nat, j: nat, id: string, g: nat)
    requires Run(cfg, es, ws) && i <= j < |es| && Stale(ws[i].c, id, g)
    requires es[j].Publish? && es[j].t in ws[j].threads && ws[j].threads[es[j].t].Staged?
    requires ws[j].threads[es[j].t].generation == g && ws[j].threads[es[j].t].id in ws[j].c.sites
    requires ws[j].c.sites[ws[j].threads[es[j].t].id].leaseID == id
    ensures ws[j + 1] == ws[j]
  {
    StaleStaysStale(cfg, es, ws, i, j, id, g);
    assert Step(ws[j], es[j], ws[j + 1]);
  }
}
