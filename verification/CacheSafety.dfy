/** Byte conservation and reader safety of the static cache, over every
    interleaving. */
module CacheSafety {
  import opened Identity
  import opened Orders
  import opened StaticCache
  import opened CacheWorld

  // ---------------------------------------------------------------- sums

  lemma {:induction false} ChargeOne(sites: map<SiteId, Site>, ids: set<SiteId>, x: SiteId)
    requires ids <= sites.Keys && x in ids
    ensures Charge(sites, ids) == sites[x].bytes + Charge(sites, ids - {x})
    decreases |ids|
  {
    var y :| y in ids && Charge(sites, ids) == sites[y].bytes + Charge(sites, ids - {y});
    if x != y {
      ChargeOne(sites, ids - {y}, x);
      ChargeOne(sites, ids - {x}, y);
      assert ids - {x} - {y} == ids - {y} - {x};
    }
  }

  lemma {:induction false} ChargeSame(sites: map<SiteId, Site>, sites': map<SiteId, Site>, ids: set<SiteId>)
    requires ids <= sites.Keys && ids <= sites'.Keys
    requires forall id :: id in ids ==> sites[id].bytes == sites'[id].bytes
    ensures Charge(sites, ids) == Charge(sites', ids)
    decreases |ids|
  {
    if ids != {} {
      var x :| x in ids;
      ChargeOne(sites, ids, x);
      ChargeOne(sites', ids, x);
      ChargeSame(sites, sites', ids - {x});
    }
  }

  // ---------------------------------------------------------------- small moves

  /** Leases and generations play no part in the invariant. */
  lemma LeasesDoNotMatter(w: World, leases: map<string, CachedLease>, g: nat)
    requires Inv(w)
    ensures Inv(w.(c := w.c.(leases := leases, generation := g)))
  {
  }

  /** Nor do expiry times. */
  lemma ExpiryDoesNotMatter(w: World, id: SiteId, at: Time)
    requires Inv(w) && id in w.c.sites
    ensures Inv(w.(c := w.c.(sites := w.c.sites[id := w.c.sites[id].(expiresAt := at)])))
  {
    SameSites(w, w.c.sites[id := w.c.sites[id].(expiresAt := at)]);
  }

  /** Sites may change in anything but host, size and readers. */
  lemma SameSites(w: World, sites: map<SiteId, Site>)
    requires Inv(w) && sites.Keys == w.c.sites.Keys
    requires forall id :: id in sites ==> sites[id].host == w.c.sites[id].host && sites[id].bytes == w.c.sites[id].bytes
    requires CountsExact(sites, w.pins)
    ensures Inv(w.(c := w.c.(sites := sites)))
  {
    PinsKeepInv(w, sites, w.pins);
  }

  lemma SitesKeepPlaced(w: World, sites: map<SiteId, Site>, pins: map<nat, SiteId>)
    requires Placed(w) && sites.Keys == w.c.sites.Keys
    requires forall id :: id in sites ==> sites[id].host == w.c.sites[id].host
    ensures Placed(w.(c := w.c.(sites := sites), pins := pins))
  {
  }

  /** Pins and reader counts may change together. */
  lemma PinsKeepInv(w: World, sites: map<SiteId, Site>, pins: map<nat, SiteId>)
    requires Inv(w) && sites.Keys == w.c.sites.Keys
    requires forall id :: id in sites ==> sites[id].host == w.c.sites[id].host && sites[id].bytes == w.c.sites[id].bytes
    requires CountsExact(sites, pins) && HeldSafely(pins, w.phase, w.dirs)
    ensures Inv(w.(c := w.c.(sites := sites), pins := pins))
  {
    SitesKeepPlaced(w, sites, pins);
    ChargeSame(w.c.sites, sites, w.phase.Keys);
  }

  /** What Sync does when one host is retired. */
  lemma SyncRetired(w: World, h: string)
    requires EntriesOk(w.c.entries, w.c.sites) && LivePlaced(w.c.entries, w.c.sites, w.phase) && h in w.c.entries
    ensures Sync(w, Retire(w.c, h)) == w.(c := Retire(w.c, h), phase := w.phase[w.c.entries[h] := Retired])
  {
  }

  lemma RetireLive(entries: map<string, SiteId>, sites: map<SiteId, Site>, phase: map<SiteId, Phase>, h: string)
    requires EntriesOk(entries, sites) && LivePlaced(entries, sites, phase) && h in entries
    ensures EntriesOk(entries - {h}, sites) && LivePlaced(entries - {h}, sites, phase[entries[h] := Retired])
  {
  }

  lemma RetireAppends(retired: seq<SiteId>, phase: map<SiteId, Phase>, id: SiteId)
    requires RetiredPlaced(retired, phase) && id !in retired
    ensures RetiredPlaced(retired + [id], phase[id := Retired])
  {
  }

  lemma RetireStaged(threads: map<nat, Thread>, phase: map<SiteId, Phase>, id: SiteId)
    requires StagedPlaced(threads, phase) && id in phase && !phase[id].Staging?
    ensures StagedPlaced(threads, phase[id := Retired])
  {
  }

  /** A site that changes its phase is still charged. */
  lemma PhaseKeepsBalanced(w: World, c: Cache, id: SiteId, p: Phase, threads: map<nat, Thread>)
    requires Balanced(w) && id in w.phase && c.used == w.c.used && c.snapshots == w.c.snapshots && c.sites == w.c.sites
    ensures Balanced(w.(c := c, phase := w.phase[id := p], threads := threads))
  {
    assert w.phase[id := p].Keys == w.phase.Keys;
  }

  lemma RetireKeepsPlaced(w: World, h: string)
    requires Placed(w) && h in w.c.entries
    ensures Placed(w.(c := Retire(w.c, h), phase := w.phase[w.c.entries[h] := Retired]))
  {
    var id := w.c.entries[h];
    RetireLive(w.c.entries, w.c.sites, w.phase, h);
    RetireAppends(w.c.retired, w.phase, id);
    RetireStaged(w.threads, w.phase, id);
  }

  lemma RetireKeepsPinned(w: World, c: Cache, id: SiteId, threads: map<nat, Thread>)
    requires Pinned(w) && id in w.phase && c.sites == w.c.sites
    ensures Pinned(w.(c := c, phase := w.phase[id := Retired], threads := threads))
  {
  }

  lemma RetireKeepsInv(w: World, h: string)
    requires Inv(w) && h in w.c.entries
    ensures Inv(Sync(w, Retire(w.c, h)))
  {
    var id := w.c.entries[h];
    SyncRetired(w, h);
    RetireKeepsPlaced(w, h);
    PhaseKeepsBalanced(w, Retire(w.c, h), id, Retired, w.threads);
    RetireKeepsPinned(w, Retire(w.c, h), id, w.threads);
  }

  lemma NothingRetired(w: World, c: Cache)
    requires LivePlaced(w.c.entries, w.c.sites, w.phase) && c.entries == w.c.entries && c.sites.Keys == w.c.sites.Keys
    requires forall id :: id in c.sites ==> c.sites[id].host == w.c.sites[id].host
    ensures Sync(w, c) == w.(c := c)
  {
  }

  /** Retiring a list of hosts is retiring them one by one. */
  lemma {:induction false} RetireAllKeepsInv(w: World, order: seq<string>)
    requires Inv(w) && Distinct(order) && forall i :: 0 <= i < |order| ==> order[i] in w.c.entries
    ensures Inv(Sync(w, RetireAll(w.c, order)))
    decreases |order|
  {
    if order == [] {
      NoHosts(w.c);
      NothingRetired(w, w.c);
      assert Sync(w, RetireAll(w.c, order)) == w;
    } else {
      var front, h := order[..|order| - 1], order[|order| - 1];
      assert order == front + [h];
      RetireAllKeepsInv(w, front);
      RetireLastToo(w, front, h);
    }
  }

  lemma NoHosts(c: Cache)
    ensures RetireAll(c, []) == c
  {
  }

  lemma RetireLastToo(w: World, front: seq<string>, h: string)
    requires forall i :: 0 <= i < |front| ==> front[i] in w.c.entries
    requires h in w.c.entries && h !in front
    requires Inv(Sync(w, RetireAll(w.c, front)))
    ensures Inv(Sync(w, RetireAll(w.c, front + [h])))
  {
    RetireOneMore(w.c, front, h);
    RetireKeepsInv(Sync(w, RetireAll(w.c, front)), h);
    SyncTwice(w, RetireAll(w.c, front), h);
  }

  lemma SyncTwice(w: World, c: Cache, h: string)
    requires h in c.entries
    ensures Sync(Sync(w, c), Retire(c, h)) == Sync(w, Retire(c, h))
  {
    assert forall id :: Serves(c.entries - {h}, c.sites, id) ==> Serves(c.entries, c.sites, id);
  }

  // ---------------------------------------------------------------- the registry's sections

  lemma SyncLeases(w: World, c: Cache, leases: map<string, CachedLease>, g: nat)
    requires Inv(Sync(w, c))
    ensures Inv(Sync(w, c.(leases := leases, generation := g)))
  {
    LeasesDoNotMatter(Sync(w, c), leases, g);
    assert Sync(w, c.(leases := leases, generation := g)) == Sync(w, c).(c := c.(leases := leases, generation := g));
  }

  lemma SyncSelf(w: World)
    requires Inv(w)
    ensures Sync(w, w.c) == w
  {
    NothingRetired(w, w.c);
  }

  lemma RetireMaybe(w: World, h: string)
    requires Inv(w)
    ensures Inv(Sync(w, if h in w.c.entries then Retire(w.c, h) else w.c))
  {
    if h in w.c.entries { RetireKeepsInv(w, h); } else { SyncSelf(w); }
  }

  lemma RegisterKeepsInv(w: World, lease: Lease, req: Request)
    requires Inv(w)
    ensures Inv(Sync(w, Registered(w.c, w.cfg, lease, req)))
  {
    RetireMaybe(w, lease.hostname);
    var c := Registered(w.c, w.cfg, lease, req);
    SyncLeases(w, if lease.hostname in w.c.entries then Retire(w.c, lease.hostname) else w.c, c.leases, c.generation);
  }

  /** A site published under h may change its expiry or be retired, and the
      leases may change with it. */
  lemma TouchKeepsInv(w: World, h: string, at: Time, leases: map<string, CachedLease>)
    requires Inv(w) && h in w.c.entries
    ensures Inv(Sync(w, w.c.(leases := leases, sites := w.c.sites[w.c.entries[h] := SiteAt(w.c, h).(expiresAt := at)])))
  {
    var id := w.c.entries[h];
    var c := w.c.(sites := w.c.sites[id := SiteAt(w.c, h).(expiresAt := at)]);
    ExpiryDoesNotMatter(w, id, at);
    NothingRetired(w, c);
    SyncLeases(w, c, leases, c.generation);
  }

  lemma RetireWithLeases(w: World, h: string, leases: map<string, CachedLease>)
    requires Inv(w) && h in w.c.entries
    ensures Inv(Sync(w, Retire(w.c.(leases := leases), h)))
  {
    RetireKeepsInv(w, h);
    SyncLeases(w, Retire(w.c, h), leases, w.c.generation);
  }

  lemma SelfWithLeases(w: World, leases: map<string, CachedLease>)
    requires Inv(w)
    ensures Inv(Sync(w, w.c.(leases := leases)))
  {
    SyncSelf(w);
    SyncLeases(w, w.c, leases, w.c.generation);
  }

  /** The three things a renewal or a detachment may do to the cache. */
  lemma TouchedKeepsInv(w: World, h: string, at: Time, leases: map<string, CachedLease>)
    requires Inv(w)
    ensures Inv(Sync(w, w.c.(leases := leases))) == true
    ensures h in w.c.entries ==> Inv(Sync(w, Retire(w.c.(leases := leases), h))) == true
    ensures h in w.c.entries ==>
              var sites := w.c.sites[w.c.entries[h] := SiteAt(w.c, h).(expiresAt := at)];
              Inv(Sync(w, w.c.(leases := leases, sites := sites))) == true
  {
    SelfWithLeases(w, leases);
    if h in w.c.entries {
      RetireWithLeases(w, h, leases);
      TouchKeepsInv(w, h, at, leases);
    }
  }

  lemma RenewCases(c: Cache, lease: Lease, now: Time) returns (leases: map<string, CachedLease>, at: Time)
    requires WellFormed(c)
    ensures var h, c1 := lease.hostname, c.(leases := leases);
            || Renewed(c, lease, now) == c1
            || (h in c.entries && Renewed(c, lease, now) == Retire(c1, h))
            || (h in c.entries
                && Renewed(c, lease, now) == c1.(sites := c.sites[c.entries[h] := SiteAt(c, h).(expiresAt := at)]))
  {
    leases, at := c.leases, 0;
    if lease.id in c.leases {
      var state := c.leases[lease.id].(lease := lease);
      leases, at := c.leases[lease.id := state], CacheExpiry(state);
    }
  }

  lemma RenewKeepsInv(w: World, lease: Lease, now: Time)
    requires Inv(w)
    ensures Inv(Sync(w, Renewed(w.c, lease, now)))
  {
    var leases, at := RenewCases(w.c, lease, now);
    TouchedKeepsInv(w, lease.hostname, at, leases);
  }

  lemma DetachCases(c: Cache, lease: Lease, now: Time) returns (at: Time)
    requires WellFormed(c)
    ensures var h, c1 := lease.hostname, c.(leases := c.leases - {lease.id});
            || Detached(c, lease, now) == c1
            || (h in c.entries && Detached(c, lease, now) == Retire(c1, h))
            || (h in c.entries
                && Detached(c, lease, now) == c1.(sites := c.sites[c.entries[h] := SiteAt(c, h).(expiresAt := at)]))
  {
    at := 0;
    if lease.hostname in c.entries {
      at := (if lease.expiresAt < now then lease.expiresAt else now) + SiteAt(c, lease.hostname).ttl;
    }
  }

  lemma DetachKeepsInv(w: World, lease: Lease, now: Time)
    requires Inv(w)
    ensures Inv(Sync(w, Detached(w.c, lease, now)))
  {
    var at := DetachCases(w.c, lease, now);
    TouchedKeepsInv(w, lease.hostname, at, w.c.leases - {lease.id});
  }

  lemma RevokeKeepsInv(w: World, owner: ServiceKey, order: seq<string>)
    requires Inv(w) && Lists(order, HostsOf(w.c, owner))
    ensures Inv(Sync(w, OwnerRevoked(w.c, owner, order)))
  {
    var c := OwnerRevoked(w.c, owner, order);
    if owner.Valid() {
      RetireAllKeepsInv(w, order);
      SyncLeases(w, RetireAll(w.c, order), c.leases, c.generation);
    } else {
      SyncSelf(w);
    }
  }

  // ---------------------------------------------------------------- uploads

  /** Requests that hold no bytes may come and go. */
  lemma ThreadsKeepInv(w: World, threads: map<nat, Thread>)
    requires Inv(w) && StagedPlaced(threads, w.phase)
    ensures Inv(w.(threads := threads))
  {
  }

  lemma ChargeNew(sites: map<SiteId, Site>, charged: set<SiteId>, id: SiteId, site: Site)
    requires charged <= sites.Keys && id !in sites
    ensures Charge(sites[id := site], charged + {id}) == Charge(sites, charged) + site.bytes
  {
    ChargeOne(sites[id := site], charged + {id}, id);
    assert charged + {id} - {id} == charged;
    ChargeSame(sites, sites[id := site], charged);
  }

  lemma StagedNew(threads: map<nat, Thread>, phase: map<SiteId, Phase>, t: nat, id: SiteId, g: nat)
    requires StagedPlaced(threads, phase) && t in threads && !threads[t].Staged? && id !in phase
    ensures StagedPlaced(threads[t := Staged(id, g)], phase[id := Staging(t)])
  {
  }

  lemma PlacedNew(c: Cache, phase: map<SiteId, Phase>, id: SiteId, site: Site, t: nat)
    requires WellFormed(c) && LivePlaced(c.entries, c.sites, phase) && RetiredPlaced(c.retired, phase) && id !in c.sites
    ensures WellFormed(Charged(c, site, id))
    ensures LivePlaced(c.entries, c.sites[id := site], phase[id := Staging(t)])
    ensures RetiredPlaced(c.retired, phase[id := Staging(t)])
  {
  }

  lemma CountsNew(sites: map<SiteId, Site>, pins: map<nat, SiteId>, id: SiteId, site: Site)
    requires CountsExact(sites, pins) && id !in sites && site.readers == 0
    ensures CountsExact(sites[id := site], pins)
  {
    assert PinsOf(pins, id) == {};
  }

  lemma HeldNew(pins: map<nat, SiteId>, phase: map<SiteId, Phase>, dirs: set<SiteId>, id: SiteId, t: nat)
    requires HeldSafely(pins, phase, dirs) && id !in phase
    ensures HeldSafely(pins, phase[id := Staging(t)], dirs)
  {
  }

  ghost function ReserveInto(w: World, t: nat, id: SiteId, site: Site, g: nat): World {
    w.(c := Charged(w.c, site, id), phase := w.phase[id := Staging(t)], threads := w.threads[t := Staged(id, g)])
  }

  lemma ReserveKeepsPlaced(w: World, t: nat, id: SiteId, site: Site, g: nat)
    requires Placed(w) && t in w.threads && !w.threads[t].Staged? && id !in w.c.sites
    ensures Placed(ReserveInto(w, t, id, site, g))
  {
    StagedNew(w.threads, w.phase, t, id, g);
    PlacedNew(w.c, w.phase, id, site, t);
  }

  lemma ReserveKeepsBalanced(w: World, t: nat, id: SiteId, site: Site, g: nat)
    requires Balanced(w) && id !in w.c.sites && Fits(w.c, w.cfg, site.bytes)
    ensures Balanced(ReserveInto(w, t, id, site, g))
  {
    assert w.phase[id := Staging(t)].Keys == w.phase.Keys + {id};
    ChargeNew(w.c.sites, w.phase.Keys, id, site);
  }

  lemma ReserveKeepsPinned(w: World, t: nat, id: SiteId, site: Site, g: nat)
    requires Pinned(w) && id !in w.c.sites && id !in w.phase && site.readers == 0
    ensures Pinned(ReserveInto(w, t, id, site, g))
  {
    CountsNew(w.c.sites, w.pins, id, site);
    HeldNew(w.pins, w.phase, w.dirs, id, t);
  }

  lemma ReserveKeepsInv(w: World, t: nat, id: SiteId, site: Site, g: nat)
    requires Inv(w) && t in w.threads && w.threads[t] == Admitted(site, g) && id !in w.c.sites
    requires Fits(w.c, w.cfg, site.bytes)
    ensures Inv(ReserveInto(w, t, id, site, g))
  {
    ReserveKeepsPlaced(w, t, id, site, g);
    ReserveKeepsBalanced(w, t, id, site, g);
    ReserveKeepsPinned(w, t, id, site, g);
  }

  lemma AbandonKeepsPlaced(w: World, t: nat)
    requires Placed(w) && Enabled(w, Abandon(t))
    ensures Placed(Next(w, Abandon(t)))
  {
    var id := w.threads[t].id;
    RetireAppends(w.c.retired, w.phase, id);
    LiveUnmoved(w.c.entries, w.c.sites, w.phase, id, Retired);
    LeavesStaging(w.threads, w.phase, t, Retired);
  }

  lemma AbandonKeepsInv(w: World, t: nat)
    requires Inv(w) && Enabled(w, Abandon(t))
    ensures Inv(Next(w, Abandon(t)))
  {
    var id := w.threads[t].id;
    AbandonKeepsPlaced(w, t);
    PhaseKeepsBalanced(w, Abandoned(w.c, id), id, Retired, w.threads - {t});
    RetireKeepsPinned(w, Abandoned(w.c, id), id, w.threads - {t});
  }

  lemma LiveUnmoved(entries: map<string, SiteId>, sites: map<SiteId, Site>, phase: map<SiteId, Phase>, id: SiteId,
                    p: Phase)
    requires LivePlaced(entries, sites, phase) && id in phase && phase[id] != Live && p != Live
    ensures LivePlaced(entries, sites, phase[id := p])
  {
  }

  lemma GoesLive(entries: map<string, SiteId>, sites: map<SiteId, Site>, phase: map<SiteId, Phase>, id: SiteId)
    requires EntriesOk(entries, sites) && LivePlaced(entries, sites, phase)
    requires id in phase && phase[id] != Live && id in sites && sites[id].host !in entries
    ensures EntriesOk(entries[sites[id].host := id], sites)
    ensures LivePlaced(entries[sites[id].host := id], sites, phase[id := Live])
  {
  }

  lemma RetiredUnmoved(retired: seq<SiteId>, phase: map<SiteId, Phase>, id: SiteId, p: Phase)
    requires RetiredPlaced(retired, phase) && id in phase && phase[id] != Retired && p != Retired
    ensures RetiredPlaced(retired, phase[id := p])
  {
  }

  lemma LeavesStaging(threads: map<nat, Thread>, phase: map<SiteId, Phase>, t: nat, p: Phase)
    requires StagedPlaced(threads, phase) && t in threads && threads[t].Staged? && !p.Staging?
    ensures StagedPlaced(threads - {t}, phase[threads[t].id := p])
  {
  }

  /** Publishing a staged site under a host that serves nothing. */
  ghost function PublishInto(w: World, t: nat, at: Time): World
    requires t in w.threads && w.threads[t].Staged? && w.threads[t].id in w.c.sites
  {
    var id := w.threads[t].id;
    w.(c := w.c.(entries := w.c.entries[w.c.sites[id].host := id],
                 sites := w.c.sites[id := w.c.sites[id].(expiresAt := at)]),
       phase := w.phase[id := Live], threads := w.threads - {t})
  }

  lemma PublishKeepsPlaced(w: World, t: nat, at: Time)
    requires Placed(w) && t in w.threads && w.threads[t].Staged?
    requires var id := w.threads[t].id; id in w.c.sites && w.c.sites[id].host !in w.c.entries
    ensures Placed(PublishInto(w, t, at))
  {
    var id := w.threads[t].id;
    var sites := w.c.sites[id := w.c.sites[id].(expiresAt := at)];
    SitesKeepPlaced(w, sites, w.pins);
    GoesLive(w.c.entries, sites, w.phase, id);
    RetiredUnmoved(w.c.retired, w.phase, id, Live);
    LeavesStaging(w.threads, w.phase, t, Live);
  }

  lemma PublishKeepsBalanced(w: World, t: nat, at: Time)
    requires Balanced(w) && t in w.threads && w.threads[t].Staged?
    requires w.threads[t].id in w.c.sites && w.threads[t].id in w.phase
    ensures Balanced(PublishInto(w, t, at))
  {
    var id := w.threads[t].id;
    assert w.phase[id := Live].Keys == w.phase.Keys;
    ChargeSame(w.c.sites, w.c.sites[id := w.c.sites[id].(expiresAt := at)], w.phase.Keys);
  }

  lemma PublishKeepsPinned(w: World, t: nat, at: Time)
    requires Pinned(w) && t in w.threads && w.threads[t].Staged?
    requires w.threads[t].id in w.c.sites && w.threads[t].id in w.phase && w.threads[t].id in w.dirs
    ensures Pinned(PublishInto(w, t, at))
  {
  }

  lemma PublishVacant(w: World, t: nat, at: Time)
    requires Inv(w) && t in w.threads && w.threads[t].Staged?
    requires var id := w.threads[t].id; id in w.c.sites && w.c.sites[id].host !in w.c.entries && id in w.dirs
    ensures Inv(PublishInto(w, t, at))
  {
    PublishKeepsPlaced(w, t, at);
    PublishKeepsBalanced(w, t, at);
    PublishKeepsPinned(w, t, at);
  }

  /** Publishing is retiring what the host served, then publishing. */
  lemma PublishKeepsInv(w: World, t: nat, now: Time)
    requires Inv(w) && Enabled(w, Publish(t, now)) && Published(w.c, w.threads[t].id, w.threads[t].generation, now).1
    ensures Inv(Next(w, Publish(t, now)))
  {
    var id := w.threads[t].id;
    var h := w.c.sites[id].host;
    var at := CacheExpiry(w.c.leases[w.c.sites[id].leaseID]);
    if h in w.c.entries {
      RetireKeepsInv(w, h);
      SyncRetired(w, h);
      var w1 := w.(c := Retire(w.c, h), phase := w.phase[w.c.entries[h] := Retired]);
      PublishVacant(w1, t, at);
      assert Next(w, Publish(t, now)) == PublishInto(w1, t, at);
    } else {
      PublishVacant(w, t, at);
      assert Next(w, Publish(t, now)) == PublishInto(w, t, at);
    }
  }

  // ---------------------------------------------------------------- collection and readers

  lemma SweepKeepsInv(w: World, now: Time, order: seq<string>)
    requires Inv(w) && Enabled(w, Sweep(now, order))
    ensures Inv(Next(w, Sweep(now, order)))
  {
    RetireAllKeepsInv(w, order);
    var w1 := Sync(w, RetireAll(w.c, order));
    TakeAwayKeepsInv(w1);
    var c := Swept(w.c, now, order).0;
    assert Sync(w, c) == w1.(c := c);
  }

  lemma TakenAway(w: World, ready: seq<SiteId>, kept: seq<SiteId>, phase: map<SiteId, Phase>)
    requires RetiredPlaced(w.c.retired, w.phase) && Distinct(kept)
    requires forall x :: x in ready || x in kept <==> x in w.c.retired
    requires forall x :: x in ready ==> x !in kept
    requires phase == map id | id in w.phase :: if id in ready then Collecting else w.phase[id]
    ensures RetiredPlaced(kept, phase)
  {
    assert forall i :: 0 <= i < |kept| ==> kept[i] in kept;
    assert forall i :: 0 <= i < |kept| ==> kept[i] in w.c.retired;
  }

  ghost function TakeAway(w: World): World
    requires RetiredOk(w.c.retired, w.c.sites)
  {
    var ready := Select(w.c.sites, w.c.retired, false);
    w.(c := w.c.(retired := Select(w.c.sites, w.c.retired, true)),
       phase := map id | id in w.phase :: if id in ready then Collecting else w.phase[id])
  }

  lemma SelectIsKnown(sites: map<SiteId, Site>, retired: seq<SiteId>)
    requires RetiredOk(retired, sites)
    ensures RetiredOk(Select(sites, retired, true), sites)
  {
    var kept := Select(sites, retired, true);
    forall i | 0 <= i < |kept| ensures kept[i] in sites {
      assert kept[i] in kept;
    }
  }

  lemma TakeAwayKeepsPlaced(w: World)
    requires Inv(w)
    ensures Placed(TakeAway(w)) == true && TakeAway(w).phase.Keys == w.phase.Keys
    ensures HeldSafely(w.pins, TakeAway(w).phase, w.dirs) == true
  {
    TakeAwayRetires(w);
    TakeAwayLeaves(w);
  }

  lemma TakeAwayLeaves(w: World)
    requires Inv(w)
    ensures TakeAway(w).phase.Keys == w.phase.Keys
    ensures LivePlaced(w.c.entries, w.c.sites, TakeAway(w).phase) == true
    ensures StagedPlaced(w.threads, TakeAway(w).phase) == true
    ensures HeldSafely(w.pins, TakeAway(w).phase, w.dirs) == true
  {
    var ready := Select(w.c.sites, w.c.retired, false);
    CollectableOnly(w, ready);
    OthersStay(w, ready, TakeAway(w).phase);
  }

  lemma TakeAwayRetires(w: World)
    requires Placed(w)
    ensures RetiredOk(TakeAway(w).c.retired, w.c.sites) && RetiredPlaced(TakeAway(w).c.retired, TakeAway(w).phase)
  {
    var ready, kept := Select(w.c.sites, w.c.retired, false), Select(w.c.sites, w.c.retired, true);
    SelectIsKnown(w.c.sites, w.c.retired);
    SelectDistinct(w.c.sites, w.c.retired, true);
    TakenAway(w, ready, kept, TakeAway(w).phase);
  }

  /** The unread retired sites pass to the collector. */
  lemma TakeAwayKeepsInv(w: World)
    requires Inv(w)
    ensures Inv(TakeAway(w))
  {
    TakeAwayKeepsPlaced(w);
    SameKeysBalanced(w, TakeAway(w));
  }

  lemma SameKeysBalanced(w: World, w': World)
    requires Balanced(w) && w'.phase.Keys == w.phase.Keys && w'.cfg == w.cfg
    requires w'.c.used == w.c.used && w'.c.snapshots == w.c.snapshots && w'.c.sites == w.c.sites
    ensures Balanced(w')
  {
  }

  lemma OthersStay(w: World, ready: seq<SiteId>, phase: map<SiteId, Phase>)
    requires Inv(w) && phase == map id | id in w.phase :: if id in ready then Collecting else w.phase[id]
    requires forall r :: r in w.pins ==> w.pins[r] !in ready
    requires forall id :: id in ready ==> id in w.phase && w.phase[id] == Retired
    ensures phase.Keys == w.phase.Keys
    ensures LivePlaced(w.c.entries, w.c.sites, phase)
    ensures StagedPlaced(w.threads, phase)
    ensures HeldSafely(w.pins, phase, w.dirs)
  {
  }

  /** Nothing held, live or staging is handed over. */
  lemma CollectableOnly(w: World, ready: seq<SiteId>)
    requires Inv(w) && ready == Select(w.c.sites, w.c.retired, false)
    ensures forall r :: r in w.pins ==> w.pins[r] !in ready
    ensures forall id :: id in ready ==> id in w.phase && w.phase[id] == Retired
  {
    forall r | r in w.pins ensures w.pins[r] !in ready {
      assert r in PinsOf(w.pins, w.pins[r]);
    }
  }

  lemma {:induction false} SelectDistinct(sites: map<SiteId, Site>, s: seq<SiteId>, read: bool)
    requires Distinct(s) && forall i :: 0 <= i < |s| ==> s[i] in sites
    ensures Distinct(Select(sites, s, read))
  {
    if s != [] {
      SelectDistinct(sites, s[..|s| - 1], read);
      assert s[|s| - 1] !in s[..|s| - 1];
    }
  }

  lemma Uncharged(entries: map<string, SiteId>, sites: map<SiteId, Site>, retired: seq<SiteId>,
                  threads: map<nat, Thread>,
                  phase: map<SiteId, Phase>, id: SiteId)
    requires LivePlaced(entries, sites, phase) && RetiredPlaced(retired, phase) && StagedPlaced(threads, phase)
    requires id in phase && phase[id] == Collecting
    ensures LivePlaced(entries, sites, phase - {id}) && RetiredPlaced(retired, phase - {id})
    ensures StagedPlaced(threads, phase - {id})
  {
  }

  lemma DisposeRemovedBalances(w: World, id: SiteId)
    requires Balanced(w) && id in w.phase
    ensures Balanced(w.(c := Disposed(w.c, id, true), phase := w.phase - {id}))
  {
    assert (w.phase - {id}).Keys == w.phase.Keys - {id};
    ChargeOne(w.c.sites, w.phase.Keys, id);
  }

  lemma DisposeRemovedPins(w: World, id: SiteId)
    requires Pinned(w) && id in w.c.sites && id in w.phase && w.phase[id] == Collecting
    ensures Pinned(w.(c := Disposed(w.c, id, true), phase := w.phase - {id}))
  {
  }

  /** The directory is gone: the site is no longer charged. */
  lemma DisposeRemovedKeepsInv(w: World, id: SiteId)
    requires Inv(w) && id in w.phase && w.phase[id] == Collecting
    ensures Inv(w.(c := Disposed(w.c, id, true), phase := w.phase - {id}))
  {
    Uncharged(w.c.entries, w.c.sites, w.c.retired, w.threads, w.phase, id);
    DisposeRemovedBalances(w, id);
    DisposeRemovedPins(w, id);
  }

  lemma DisposeFailedKeepsPlaced(w: World, id: SiteId)
    requires Placed(w) && id in w.phase && w.phase[id] == Collecting
    ensures Placed(w.(c := Disposed(w.c, id, false), phase := w.phase[id := Retired]))
  {
    RetireAppends(w.c.retired, w.phase, id);
    RetireStaged(w.threads, w.phase, id);
    LiveUnmoved(w.c.entries, w.c.sites, w.phase, id, Retired);
  }

  /** The removal failed: the site is retired again, still charged. */
  lemma DisposeFailedKeepsInv(w: World, id: SiteId)
    requires Inv(w) && id in w.phase && w.phase[id] == Collecting
    ensures Inv(w.(c := Disposed(w.c, id, false), phase := w.phase[id := Retired]))
  {
    DisposeFailedKeepsPlaced(w, id);
    PhaseKeepsBalanced(w, Disposed(w.c, id, false), id, Retired, w.threads);
    RetireKeepsPinned(w, Disposed(w.c, id, false), id, w.threads);
  }

  lemma PinsOfOneMore(pins: map<nat, SiteId>, r: nat, id: SiteId, k: SiteId)
    requires r !in pins
    ensures |PinsOf(pins[r := id], k)| == |PinsOf(pins, k)| + if k == id then 1 else 0
  {
    assert PinsOf(pins[r := id], k) == if k == id then PinsOf(pins, k) + {r} else PinsOf(pins, k);
  }

  lemma OneMorePin(sites: map<SiteId, Site>, pins: map<nat, SiteId>, r: nat, id: SiteId, now: Time)
    requires CountsExact(sites, pins) && r !in pins && id in sites
    ensures CountsExact(sites[id := sites[id].(readers := sites[id].readers + 1, usedAt := now)], pins[r := id])
  {
    var sites' := sites[id := sites[id].(readers := sites[id].readers + 1, usedAt := now)];
    forall k | k in sites' ensures sites'[k].readers == |PinsOf(pins[r := id], k)| {
      PinsOfOneMore(pins, r, id, k);
    }
  }

  lemma OnePinLess(sites: map<SiteId, Site>, pins: map<nat, SiteId>, r: nat)
    requires CountsExact(sites, pins) && r in pins
    ensures var id := pins[r];
            sites[id].readers > 0 && CountsExact(sites[id := sites[id].(readers := sites[id].readers - 1)], pins - {r})
  {
    var id := pins[r];
    forall k ensures PinsOf(pins - {r}, k) == if k == id then PinsOf(pins, k) - {r} else PinsOf(pins, k) {}
    assert r in PinsOf(pins, id);
  }

  lemma AcquireKeepsInv(w: World, r: nat, host: string, now: Time)
    requires Inv(w) && r !in w.pins && Servable(w.c, host, now)
    ensures Inv(w.(c := Acquired(w.c, host, now), pins := w.pins[r := w.c.entries[host]]))
  {
    var id := w.c.entries[host];
    OneMorePin(w.c.sites, w.pins, r, id, now);
    assert HeldSafely(w.pins[r := id], w.phase, w.dirs);
    PinsKeepInv(w, Acquired(w.c, host, now).sites, w.pins[r := id]);
  }

  lemma ReleaseKeepsInv(w: World, r: nat)
    requires Inv(w) && r in w.pins && w.c.sites[w.pins[r]].readers > 0
    ensures Inv(w.(c := Released(w.c, w.pins[r]), pins := w.pins - {r}))
  {
    OnePinLess(w.c.sites, w.pins, r);
    PinsKeepInv(w, Released(w.c, w.pins[r]).sites, w.pins - {r});
  }

  lemma RetireIfKeepsInv(w: World, c: Cache, h: string)
    requires Inv(w) && (c == w.c || (h in w.c.entries && c == Retire(w.c, h)))
    ensures Inv(Sync(w, c))
  {
    if c == w.c { SyncSelf(w); } else { RetireKeepsInv(w, h); }
  }

  // ---------------------------------------------------------------- every step, every run

  lemma InitialInv(cfg: Config)
    ensures Inv(Initial(cfg))
  {
  }

  lemma RegistryStep(w: World, e: Event)
    requires Inv(w) && Enabled(w, e)
    requires e.DenyBegin? || e.DenyEnd? || e.Allow? || e.Forget? || e.Register? || e.Renew? || e.Detach?
    ensures Inv(Next(w, e))
  {
    match e
    case DenyEnd(order) => RevokeKeepsInv(w, w.denying.value, order);
    case Register(lease, req) => RegisterKeepsInv(w, lease, req);
    case Renew(lease, now) => RenewKeepsInv(w, lease, now);
    case Detach(lease, now) => DetachKeepsInv(w, lease, now);
    case _ =>
  }

  lemma Unstaged(threads: map<nat, Thread>, phase: map<SiteId, Phase>, t: nat, next: Thread)
    requires StagedPlaced(threads, phase) && (t in threads ==> !threads[t].Staged?)
    requires !next.Staged? && (next.Admitted? ==> next.site.readers == 0)
    ensures StagedPlaced(threads[t := next], phase) && StagedPlaced(threads - {t}, phase)
  {
  }

  lemma RequestStep(w: World, e: Event)
    requires Inv(w) && Enabled(w, e) && (e.Capture? || e.Check? || e.Admit? || e.Drop?)
    ensures Inv(Next(w, e))
  {
    var t, threads := e.t, Next(w, e).threads;
    if t in threads {
      Unstaged(w.threads, w.phase, t, threads[t]);
    } else {
      Unstaged(w.threads, w.phase, t, Checked("", 0));
    }
    ThreadsKeepInv(w, threads);
  }

  lemma RetiringStep(w: World, e: Event)
    requires Inv(w) && Enabled(w, e) && (e.Evict? || e.Delete? || e.Probe? || e.Discard?)
    ensures Inv(Next(w, e)) == true
  {
    match e
    case Evict(host) => RetireKeepsInv(w, host);
    case Delete(host, id, g, now) => RetireIfKeepsInv(w, Deleted(w.c, host, id, g, now), host);
    case Probe(host, id, digest, g, now) => RetireIfKeepsInv(w, Probed(w.c, host, id, digest, g, now).0, host);
    case Discard(r) => RetireIfKeepsInv(w, Discarded(w.c, w.pins[r]), w.c.sites[w.pins[r]].host);
  }

  lemma UploadStep(w: World, e: Event)
    requires Inv(w) && Enabled(w, e) && (e.Reserve? || e.MakeDir? || e.Publish? || e.Abandon?)
    ensures Inv(Next(w, e))
  {
    match e
    case Reserve(t, id) => ReserveKeepsInv(w, t, id, w.threads[t].site, w.threads[t].generation);
    case MakeDir(t) => MoreDirs(w, w.dirs + {w.threads[t].id});
    case Publish(t, now) =>
      if Published(w.c, w.threads[t].id, w.threads[t].generation, now).1 { PublishKeepsInv(w, t, now); }
    case Abandon(t) => AbandonKeepsInv(w, t);
  }

  lemma MoreDirs(w: World, dirs: set<SiteId>)
    requires Inv(w) && w.dirs <= dirs
    ensures Inv(w.(dirs := dirs))
  {
    assert HeldSafely(w.pins, w.phase, dirs);
  }

  lemma CollectorStep(w: World, e: Event)
    requires Inv(w) && Enabled(w, e) && (e.Sweep? || e.RemoveDir? || e.Dispose?)
    ensures Inv(Next(w, e))
  {
    match e
    case Sweep(now, order) => SweepKeepsInv(w, now, order);
    case RemoveDir(id) => RemoveDirKeepsInv(w, id);
    case Dispose(id, removed) => if removed { DisposeRemovedKeepsInv(w, id); } else { DisposeFailedKeepsInv(w, id); }
  }

  /** A directory under removal belongs to a site nobody holds. */
  lemma RemoveDirKeepsInv(w: World, id: SiteId)
    requires Inv(w) && id in w.phase && w.phase[id] == Collecting
    ensures PinsOf(w.pins, id) == {} && Inv(w.(dirs := w.dirs - {id}))
  {
    assert HeldSafely(w.pins, w.phase, w.dirs - {id});
  }

  lemma ReaderStep(w: World, e: Event)
    requires Inv(w) && Enabled(w, e) && (e.Acquire? || e.Release?)
    ensures Inv(Next(w, e))
  {
    match e
    case Acquire(r, host, now) => if Servable(w.c, host, now) { AcquireKeepsInv(w, r, host, now); }
    case Release(r) => ReleaseKeepsInv(w, r);
  }

  /** Every section, whoever runs it, keeps the invariant. */
  lemma StepKeepsInv(w: World, e: Event, w': World)
    requires Inv(w) && Step(w, e, w')
    ensures Inv(w')
  {
    if e.DenyBegin? || e.DenyEnd? || e.Allow? || e.Forget? || e.Register? || e.Renew? || e.Detach? {
      RegistryStep(w, e);
    } else if e.Capture? || e.Check? || e.Admit? || e.Drop? {
      RequestStep(w, e);
    } else if e.Evict? || e.Delete? || e.Probe? || e.Discard? {
      RetiringStep(w, e);
    } else if e.Reserve? || e.MakeDir? || e.Publish? || e.Abandon? {
      UploadStep(w, e);
    } else if e.Sweep? || e.RemoveDir? || e.Dispose? {
      CollectorStep(w, e);
    } else {
      ReaderStep(w, e);
    }
  }

  lemma {:induction false} RunKeepsInv(cfg: Config, es: seq<Event>, ws: seq<World>, n: nat)
    requires Run(cfg, es, ws) && n <= |es|
    ensures Inv(ws[n])
  {
    if n == 0 {
      InitialInv(cfg);
    } else {
      var k := n - 1;
      RunKeepsInv(cfg, es, ws, k);
      RunStep(cfg, es, ws, k);
      StepKeepsInv(ws[k], es[k], ws[k + 1]);
    }
  }

  // ---------------------------------------------------------------- what it means

  ghost function StagingSites(w: World): set<SiteId> {
    set t | t in w.threads && w.threads[t].Staged? :: w.threads[t].id
  }

  ghost function PublishedSites(w: World): set<SiteId> {
    set h | h in w.c.entries :: w.c.entries[h]
  }

  ghost function RetiredSites(w: World): set<SiteId> {
    set id | id in w.c.retired
  }

  ghost function CollectingSites(w: World): set<SiteId> {
    set id | id in w.phase && w.phase[id] == Collecting
  }

  /** In every state of every run, `used` is the sum of the bytes, and
      `snapshots` the number, of the sites being staged, published, retired or
      collected, no site being in two of these places, and both stay within
      their limits. */
  lemma BytesAreConserved(cfg: Config, es: seq<Event>, ws: seq<World>, n: nat)
    requires Run(cfg, es, ws) && n <= |es|
    ensures var w := ws[n];
            var charged := StagingSites(w) + PublishedSites(w) + RetiredSites(w) + CollectingSites(w);
            && StagingSites(w) !! PublishedSites(w) !! RetiredSites(w) !! CollectingSites(w)
            && charged <= w.c.sites.Keys
            && w.c.used == Charge(w.c.sites, charged) && w.c.snapshots == |charged|
            && 0 <= w.c.used <= cfg.maxBytes && w.c.snapshots <= MAX_SNAPSHOTS
  {
    RunKeepsInv(cfg, es, ws, n);
    ConfigIsFixed(cfg, es, ws, n);
    PhasesAreTheSets(ws[n]);
  }

  lemma {:induction false} ConfigIsFixed(cfg: Config, es: seq<Event>, ws: seq<World>, n: nat)
    requires Run(cfg, es, ws) && n <= |es|
    ensures ws[n].cfg == cfg
  {
    if n > 0 {
      ConfigIsFixed(cfg, es, ws, n - 1);
      assert Step(ws[n - 1], es[n - 1], ws[n]);
    }
  }

  lemma PhasesAreTheSets(w: World)
    requires Placed(w)
    ensures StagingSites(w) == set id | id in w.phase && w.phase[id].Staging?
    ensures PublishedSites(w) == set id | id in w.phase && w.phase[id] == Live
    ensures RetiredSites(w) == set id | id in w.phase && w.phase[id] == Retired
    ensures StagingSites(w) + PublishedSites(w) + RetiredSites(w) + CollectingSites(w) == w.phase.Keys
  {
    StagingPhase(w);
    PublishedPhase(w);
    RetiredPhase(w);
  }

  lemma StagingPhase(w: World)
    requires Placed(w)
    ensures StagingSites(w) == set id | id in w.phase && w.phase[id].Staging?
  {
  }

  lemma PublishedPhase(w: World)
    requires Placed(w)
    ensures PublishedSites(w) == set id | id in w.phase && w.phase[id] == Live
  {
  }

  lemma RetiredPhase(w: World)
    requires Placed(w)
    ensures RetiredSites(w) == set id | id in w.phase && w.phase[id] == Retired
  {
  }

  /** A reader's site has its directory in every state it holds the site in, and
      the step that removes a directory never hits a held one. */
  lemma ReadersAreSafe(cfg: Config, es: seq<Event>, ws: seq<World>, n: nat, r: nat)
    requires Run(cfg, es, ws) && n <= |es| && r in ws[n].pins
    ensures ws[n].pins[r] in ws[n].dirs
    ensures n < |es| && es[n].RemoveDir? ==> es[n].site != ws[n].pins[r]
  {
    RunKeepsInv(cfg, es, ws, n);
    if n < |es| && es[n].RemoveDir? {
      assert Step(ws[n], es[n], ws[n + 1]);
    }
  }
}
