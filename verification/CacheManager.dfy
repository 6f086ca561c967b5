/** Manager of portal/cache/manager.go as the code writes it: maps walked in any
    order, a slice filtered in place, and the eviction loop of reserve. */
module CacheManager {
  import opened Identity
  import opened Orders
  import opened StaticCache

  class Manager {
    const cfg: Config
    var leases: map<string, CachedLease>
    var entries: map<string, SiteId>
    var retired: seq<SiteId>
    var used: int
    var snapshots: int
    var generation: nat
    var sites: map<SiteId, Site>

    ghost function View(): Cache reads this {
      Cache(leases, entries, retired, used, snapshots, generation, sites)
    }

    constructor (cfg: Config)
      ensures View() == EMPTY && this.cfg == cfg
    {
      this.cfg := cfg;
      leases, entries, retired, used, snapshots, generation, sites := map[], map[], [], 0, 0, 0, map[];
    }

    /** retireLocked: only the site now published under its host moves. */
    method RetireLocked(id: SiteId)
      requires WellFormed(View()) && id in sites
      modifies this`entries, this`retired
      ensures View() == Discarded(old(View()), id)
    {
      var host := sites[id].host;
      if host !in entries || entries[host] != id {
        return;
      }
      entries := entries - {host};
      retired := retired + [id];
    }

    method Register(lease: Lease, req: Request)
      requires WellFormed(View())
      modifies this
      ensures View() == Registered(old(View()), cfg, lease, req)
    {
      if lease.hostname in entries {
        RetireLocked(entries[lease.hostname]);
      }
      DropLeases(lease.owner, lease.hostname);
      if !req.cache || req.udp || req.tcp {
        return;
      }
      if lease.hostname == "" || '*' in lease.hostname {
        return;
      }
      var ttl := cfg.maxTTL;
      if req.cacheTTL > 0 && req.cacheTTL < ttl / SECOND {
        ttl := req.cacheTTL * SECOND;
      }
      generation := generation + 1;
      leases := leases[lease.id := CachedLease(lease, ttl, generation)];
    }

    /** The loop of Register that forgets what the new lease replaces. */
    method DropLeases(owner: ServiceKey, hostname: string)
      modifies this`leases
      ensures leases == map id | id in old(leases) && old(leases)[id].lease.owner != owner
                                 && old(leases)[id].lease.hostname != hostname :: old(leases)[id]
    {
      var todo := leases.Keys;
      while todo != {}
        invariant todo <= leases.Keys
        invariant leases == map id | id in old(leases) && (id in todo ||
                    (old(leases)[id].lease.owner != owner
                     && old(leases)[id].lease.hostname != hostname)) :: old(leases)[id]
        decreases |todo|
      {
        var id :| id in todo;
        todo := todo - {id};
        var previous := leases[id].lease;
        if owner == previous.owner || hostname == previous.hostname {
          leases := leases - {id};
        }
      }
    }

    method Renew(lease: Lease, now: Time)
      requires WellFormed(View())
      modifies this
      ensures View() == Renewed(old(View()), lease, now)
    {
      if lease.id !in leases {
        return;
      }
      var state := leases[lease.id].(lease := lease);
      leases := leases[lease.id := state];
      if lease.hostname in entries {
        var id := entries[lease.hostname];
        if sites[id].leaseID == lease.id {
          if !(now < sites[id].expiresAt) {
            RetireLocked(id);
            return;
          }
          sites := sites[id := sites[id].(expiresAt := CacheExpiry(state))];
        }
      }
    }

    method Detach(lease: Lease, now: Time)
      requires WellFormed(View())
      modifies this
      ensures View() == Detached(old(View()), lease, now)
    {
      leases := leases - {lease.id};
      if lease.hostname in entries {
        var id := entries[lease.hostname];
        if sites[id].leaseID == lease.id {
          var disconnected := now;
          if !(disconnected < sites[id].expiresAt) {
            RetireLocked(id);
            return;
          }
          if lease.expiresAt < disconnected {
            disconnected := lease.expiresAt;
          }
          var expiry := disconnected + sites[id].ttl;
          if expiry < sites[id].expiresAt {
            sites := sites[id := sites[id].(expiresAt := expiry)];
          }
        }
      }
    }

    /** DetachOwner: `order` is the order in which the sites were met. */
    method DetachOwner(owner: ServiceKey) returns (ghost order: seq<string>)
      requires WellFormed(View())
      modifies this
      ensures Lists(order, if owner.Valid() then HostsOf(old(View()), owner) else {})
      ensures owner.Valid() ==> View() == OwnerRevoked(old(View()), owner, order)
      ensures !owner.Valid() ==> View() == old(View())
    {
      order := [];
      if !owner.Valid() {
        return;
      }
      generation := generation + 1;
      RestampLeases(owner);
      order := RetireOwned(owner);
    }

    /** The loop that gives every lease of the owner the new generation. */
    method RestampLeases(owner: ServiceKey)
      modifies this`leases
      ensures leases == map id | id in old(leases) ::
                if old(leases)[id].lease.owner == owner then old(leases)[id].(generation := generation)
                else old(leases)[id]
    {
      var todo := leases.Keys;
      while todo != {}
        invariant todo <= old(leases).Keys
        invariant leases == map id | id in old(leases) ::
                    if id !in todo && old(leases)[id].lease.owner == owner
                      then old(leases)[id].(generation := generation) else old(leases)[id]
        decreases |todo|
      {
        var id :| id in todo;
        todo := todo - {id};
        if leases[id].lease.owner == owner {
          leases := leases[id := leases[id].(generation := generation)];
        }
      }
    }

    /** One retirement in the middle of a walk over the entries. */
    method RetireNext(h: string, ghost c: Cache, ghost order: seq<string>)
      requires WellFormed(c) && forall i :: 0 <= i < |order| ==> order[i] in c.entries
      requires h in c.entries && h !in order && View() == RetireAll(c, order)
      modifies this`entries, this`retired
      ensures View() == RetireAll(c, order + [h])
    {
      RetireAllKeepsWellFormed(c, order);
      RetireOneMore(c, order, h);
      RetireLocked(entries[h]);
    }

    /** The loop that retires every site of the owner. */
    method RetireOwned(owner: ServiceKey) returns (ghost order: seq<string>)
      requires WellFormed(View())
      modifies this`entries, this`retired
      ensures Lists(order, HostsOf(old(View()), owner))
      ensures View() == RetireAll(old(View()), order)
    {
      order := [];
      ghost var c, hosts := View(), HostsOf(View(), owner);
      var todo := entries.Keys;
      while todo != {}
        invariant todo <= c.entries.Keys && hosts <= c.entries.Keys && Lists(order, hosts - todo)
        invariant View() == RetireAll(c, order)
        decreases |todo|
      {
        var h :| h in todo;
        if sites[entries[h]].owner == owner {
          VisitTakes(order, hosts, todo, h);
          RetireNext(h, c, order);
          order := order + [h];
        } else {
          VisitSkips(order, hosts, todo, h);
        }
        todo := todo - {h};
      }
      assert hosts - todo == hosts;
    }

    method Generation(id: string) returns (g: nat)
      ensures g == GenerationOf(View(), id)
    {
      g := if id in leases then leases[id].generation else 0;
    }

    /** Handle's admission section, with the manifest it reads afterwards. */
    method AdmitUpload(id: string, g: nat, digest: string, bytes: nat, now: Time) returns (site: Option<Site>)
      ensures site == if Admits(View(), id, g, now) then Some(NewSite(View(), id, digest, bytes, now)) else None
    {
      if id !in leases || !(now < leases[id].lease.expiresAt) || leases[id].generation != g {
        return None;
      }
      var lease := leases[id].lease;
      site := Some(Site(lease.hostname, lease.id, lease.owner, digest, bytes, leases[id].ttl, CacheExpiry(leases[id]),
                        now, 0));
    }

    /** Handle's publication section. */
    method PublishSite(id: SiteId, g: nat, now: Time) returns (published: bool)
      requires WellFormed(View()) && id in sites
      modifies this
      ensures (View(), published) == Published(old(View()), id, g, now)
    {
      var site := sites[id];
      if site.leaseID !in leases || !(now < leases[site.leaseID].lease.expiresAt)
         || leases[site.leaseID].generation != g {
        return false;
      }
      var active := leases[site.leaseID];
      if site.host in entries {
        RetireLocked(entries[site.host]);
      }
      sites := sites[id := site.(expiresAt := CacheExpiry(active))];
      entries := entries[site.host := id];
      published := true;
    }

    /** What the deferred function of a failed upload does. */
    method AbandonSite(id: SiteId)
      modifies this`retired
      ensures View() == Abandoned(old(View()), id)
    {
      retired := retired + [id];
    }

    method DeleteSite(host: string, id: string, g: nat, now: Time)
      requires WellFormed(View())
      modifies this`entries, this`retired
      ensures View() == Deleted(old(View()), host, id, g, now)
    {
      if host in entries && sites[entries[host]].leaseID == id && id in leases && now < leases[id].lease.expiresAt
         && leases[id].generation == g
      {
        RetireLocked(entries[host]);
      }
    }

    method ProbeSite(host: string, id: string, digest: string, g: nat, now: Time) returns (present: Option<bool>)
      requires WellFormed(View())
      modifies this`entries, this`retired
      ensures (View(), present) == Probed(old(View()), host, id, digest, g, now)
    {
      if id !in leases || !(now < leases[id].lease.expiresAt) || leases[id].generation != g {
        return None;
      }
      if host in entries && sites[entries[host]].leaseID == id {
        var existing := sites[entries[host]];
        if existing.digest == digest && now < existing.expiresAt {
          return Some(true);
        }
        RetireLocked(entries[host]);
      }
      present := Some(false);
    }

    method AcquireSite(host: string, now: Time) returns (id: Option<SiteId>)
      requires WellFormed(View())
      modifies this`sites
      ensures View() == Acquired(old(View()), host, now)
      ensures id == if Servable(old(View()), host, now) then Some(old(entries)[host]) else None
    {
      if host !in entries || !(now < sites[entries[host]].expiresAt) {
        return None;
      }
      var site := sites[entries[host]];
      sites := sites[entries[host] := site.(readers := site.readers + 1, usedAt := now)];
      id := Some(entries[host]);
    }

    method ReleaseSite(id: SiteId)
      requires id in sites && sites[id].readers > 0
      modifies this`sites
      ensures View() == Released(old(View()), id)
    {
      sites := sites[id := sites[id].(readers := sites[id].readers - 1)];
    }

    /** collect up to the first unlock: the sites handed over for removal. */
    method CollectBegin(now: Time) returns (ready: seq<SiteId>, ghost order: seq<string>)
      requires WellFormed(View())
      modifies this`entries, this`retired
      ensures Lists(order, ExpiredHosts(old(View()), now))
      ensures (View(), ready) == Swept(old(View()), now, order)
    {
      order := RetireExpired(now);
      var kept;
      kept, ready := SplitRetired();
      retired := kept;
    }

    /** The loop that parts the retired sites by whether they are being read. */
    method SplitRetired() returns (kept: seq<SiteId>, ready: seq<SiteId>)
      requires forall k :: 0 <= k < |retired| ==> retired[k] in sites
      ensures kept == Select(sites, retired, true) && ready == Select(sites, retired, false)
    {
      kept, ready := [], [];
      for i := 0 to |retired|
        invariant kept == Select(sites, retired[..i], true) && ready == Select(sites, retired[..i], false)
      {
        assert retired[..i + 1][..i] == retired[..i];
        if sites[retired[i]].readers == 0 {
          ready := ready + [retired[i]];
        } else {
          kept := kept + [retired[i]];
        }
      }
      assert retired[..|retired|] == retired;
    }

    method RetireExpired(now: Time) returns (ghost order: seq<string>)
      requires WellFormed(View())
      modifies this`entries, this`retired
      ensures Lists(order, ExpiredHosts(old(View()), now))
      ensures View() == RetireAll(old(View()), order) && WellFormed(View())
    {
      order := [];
      ghost var c, hosts := View(), ExpiredHosts(View(), now);
      var todo := entries.Keys;
      while todo != {}
        invariant todo <= c.entries.Keys && hosts <= c.entries.Keys && Lists(order, hosts - todo)
        invariant View() == RetireAll(c, order)
        decreases |todo|
      {
        var h :| h in todo;
        if !(now < sites[entries[h]].expiresAt) {
          VisitTakes(order, hosts, todo, h);
          RetireNext(h, c, order);
          order := order + [h];
        } else {
          VisitSkips(order, hosts, todo, h);
        }
        todo := todo - {h};
      }
      assert hosts - todo == hosts;
      RetireAllKeepsWellFormed(c, order);
    }

    /** One round of collect's second loop, after the removal was tried. */
    method CollectEnd(id: SiteId, removed: bool)
      requires id in sites
      modifies this`used, this`snapshots, this`retired
      ensures View() == Disposed(old(View()), id, removed)
    {
      if removed {
        used := used - sites[id].bytes;
        snapshots := snapshots - 1;
      } else {
        retired := retired + [id];
      }
    }

    /** collect's second loop with nobody else running; `removable` says which
        removals succeed. */
    method DisposeReady(ready: seq<SiteId>, removable: SiteId -> bool)
      requires forall i :: 0 <= i < |ready| ==> ready[i] in sites
      modifies this`retired, this`used, this`snapshots
      ensures View() == DisposedAll(old(View()), ready, removable, |ready|)
    {
      ghost var c := View();
      for i := 0 to |ready|
        invariant View() == DisposedAll(c, ready, removable, i)
      {
        CollectEnd(ready[i], removable(ready[i]));
      }
    }

    /** collect with nobody else running. */
    method Collect(now: Time, removable: SiteId -> bool)
      requires WellFormed(View())
      modifies this`entries, this`retired, this`used, this`snapshots
      ensures WellFormed(View()) && CollectsTo(old(View()), now, removable, View())
    {
      ghost var c := View();
      var ready, order := CollectBegin(now);
      SweptIsKnown(c, now, order);
      DisposeReady(ready, removable);
      assert View() == Collected(c, now, order, removable);
      CollectedIsWellFormed(c, now, order, removable);
    }

    /** The scan of reserve for the least recently used site without readers. */
    method FindVictim() returns (victim: Option<string>)
      requires WellFormed(View())
      ensures victim.None? ==> Unread(View()) == {}
      ensures victim.Some? ==> IsVictim(View(), victim.value)
    {
      victim := None;
      var todo := entries.Keys;
      while todo != {}
        invariant todo <= entries.Keys
        invariant victim.None? ==> forall k :: k in Unread(View()) ==> k in todo
        invariant victim.Some? ==> victim.value in Unread(View()) && victim.value !in todo
        invariant victim.Some? ==> forall k :: k in Unread(View()) && k !in todo && k != victim.value
                                     ==> OlderSite(SiteAt(View(), victim.value), SiteAt(View(), k))
        decreases |todo|
      {
        var h :| h in todo;
        todo := todo - {h};
        var site := sites[entries[h]];
        if site.readers == 0 {
          if victim.None? {
            victim := Some(h);
          } else {
            var oldest := sites[entries[victim.value]];
            OlderIsOrder(View(), victim.value, h);
            if site.usedAt < oldest.usedAt || (site.usedAt == oldest.usedAt && StringLess(site.host, oldest.host)) {
              victim := Some(h);
            }
          }
        }
      }
    }

    /** Age orders the published sites strictly. */
    lemma OlderIsOrder(c: Cache, h: string, k: string)
      requires WellFormed(c) && h in c.entries && k in c.entries && h != k
      ensures OlderSite(SiteAt(c, h), SiteAt(c, k)) || OlderSite(SiteAt(c, k), SiteAt(c, h))
      ensures forall j :: j in c.entries
                && OlderSite(SiteAt(c, k), SiteAt(c, h)) && OlderSite(SiteAt(c, h), SiteAt(c, j))
                ==> OlderSite(SiteAt(c, k), SiteAt(c, j))
    {
      StringLessIsTotal(h, k);
      forall j | j in c.entries && OlderSite(SiteAt(c, k), SiteAt(c, h)) && OlderSite(SiteAt(c, h), SiteAt(c, j))
        ensures OlderSite(SiteAt(c, k), SiteAt(c, j))
      {
        if SiteAt(c, k).usedAt == SiteAt(c, h).usedAt == SiteAt(c, j).usedAt {
          StringLessIsTransitive(k, h, j);
        }
      }
    }

    /** One failed round of reserve: evict, then collect. */
    method EvictOne(now: Time, removable: SiteId -> bool) returns (evicted: bool)
      requires WellFormed(View())
      modifies this`entries, this`retired, this`used, this`snapshots
      ensures WellFormed(View())
      ensures !evicted ==> View() == old(View()) && Unread(View()) == {}
      ensures evicted ==> EvictsTo(old(View()), now, removable, View()) && |entries| < |old(entries)|
    {
      var victim := FindVictim();
      if victim.None? {
        return false;
      }
      ghost var before := View();
      RetireLocked(entries[victim.value]);
      ghost var between := View();
      assert between == Retire(before, victim.value);
      Collect(now, removable);
      CollectionShrinks(between, now, removable, View());
      SmallerMap(entries, before.entries, victim.value);
      evicted := true;
    }

    lemma SmallerMap(a: map<string, SiteId>, b: map<string, SiteId>, h: string)
      requires a.Keys <= b.Keys - {h} && h in b
      ensures |a| < |b|
    {
      assert b.Keys == a.Keys + {h} + (b.Keys - a.Keys - {h});
      assert |a.Keys| == |a| && |b.Keys| == |b|;
    }

    /** The test and the charge at the head of reserve's loop. */
    method TryCharge(site: Site, id: SiteId) returns (ok: bool)
      requires WellFormed(View()) && id !in sites
      modifies this`used, this`snapshots, this`sites
      ensures ok == Fits(old(View()), cfg, site.bytes) && WellFormed(View())
      ensures View() == if ok then Charged(old(View()), site, id) else old(View())
    {
      ok := site.bytes <= cfg.maxBytes - used && snapshots < MAX_SNAPSHOTS;
      if ok {
        ChargedKeepsWellFormed(View(), site, id);
        used := used + site.bytes;
        snapshots := snapshots + 1;
        sites := sites[id := site];
      }
    }

    /** reserve with nobody else running, the clock read as `times` says. The
        loop ends because every round retires a published site. It charges the
        upload in the first state in which it fits, and gives up only when every
        published site is being read and it still does not fit. */
    method Reserve(site: Site, id: SiteId, times: nat -> Time, removable: SiteId -> bool)
      returns (ok: bool, ghost cs: seq<Cache>)
      requires WellFormed(View()) && id !in sites
      modifies this
      ensures Rounds(old(View()), cs, cfg, site.bytes, times, removable) && WellFormed(View())
      ensures ok ==> Fits(cs[|cs| - 1], cfg, site.bytes) && View() == Charged(cs[|cs| - 1], site, id)
      ensures !ok ==> View() == cs[|cs| - 1] && !Fits(View(), cfg, site.bytes) && Unread(View()) == {}
    {
      ghost var start := View();
      var round := 0;
      Collect(times(round), removable);
      CollectionShrinks(start, times(round), removable, View());
      cs := [View()];
      while true
        invariant WellFormed(View()) && id !in sites
        invariant |cs| == round + 1 && cs[round] == View() && Rounds(start, cs, cfg, site.bytes, times, removable)
        decreases |entries|
      {
        ok := TryCharge(site, id);
        if ok {
          return;
        }
        round := round + 1;
        ghost var before := View();
        var evicted := EvictOne(times(round), removable);
        if !evicted {
          return;
        }
        EvictionShrinks(before, times(round), removable, View());
        RoundsGrow(start, cs, cfg, site.bytes, times, removable, View());
        cs := cs + [View()];
      }
    }
  }
}
