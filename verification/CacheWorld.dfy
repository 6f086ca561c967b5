/** Every interleaving of the lock sections of the static cache: uploads,
    collectors, readers and the registry's access decisions, one event per
    section. */
module CacheWorld {
  import opened Identity
  import opened Orders
  import opened StaticCache

  /** An upload request between two of its sections. */
  datatype Thread =
    | Captured(lease: string, key: ServiceKey, generation: nat)  // generation read
    | Checked(lease: string, generation: nat)                    // identity found routable
    | Admitted(site: Site, generation: nat)                      // Handle accepted it
    | Staged(id: SiteId, generation: nat)                        // bytes reserved

  /** Where a charged site is. */
  datatype Phase = Staging(thread: nat) | Live | Retired | Collecting

  /** The cache, the registry's access decisions, and what no field records:
      the requests under way, where every charged site is, which site each
      reader holds, and which directories exist. `denying` is the identity
      whose denial holds the registry's write lock. */
  datatype World = World(c: Cache, cfg: Config, blocked: set<ServiceKey>, denying: Option<ServiceKey>,
                         threads: map<nat, Thread>, phase: map<SiteId, Phase>, pins: map<nat, SiteId>,
                         dirs: set<SiteId>)

  datatype Event =
    | DenyBegin(key: ServiceKey)             // the identity is blocked, the lock is kept
    | DenyEnd(order: seq<string>)            // its content is revoked, the lock is released
    | Allow(key: ServiceKey)
    | Forget(keys: set<ServiceKey>)          // stale decisions are swept
    | Register(lease: Lease, req: Request)
    | Renew(lease: Lease, now: Time)
    | Detach(lease: Lease, now: Time)
    | Capture(t: nat, id: string, key: ServiceKey)
    | Check(t: nat)
    | Admit(t: nat, digest: string, bytes: nat, now: Time)
    | Reserve(t: nat, site: SiteId)
    | Evict(host: string)
    | MakeDir(t: nat)
    | Publish(t: nat, now: Time)
    | Abandon(t: nat)
    | Drop(t: nat)
    | Delete(host: string, id: string, generation: nat, now: Time)
    | Probe(host: string, id: string, digest: string, generation: nat, now: Time)
    | Sweep(now: Time, order: seq<string>)
    | RemoveDir(site: SiteId)
    | Dispose(site: SiteId, removed: bool)
    | Acquire(r: nat, host: string, now: Time)
    | Release(r: nat)
    | Discard(r: nat)

  function Initial(cfg: Config): World {
    World(EMPTY, cfg, {}, None, map[], map[], map[], {})
  }

  // ---------------------------------------------------------------- steps

  /** The site is what its host serves. */
  predicate Serves(entries: map<string, SiteId>, sites: map<SiteId, Site>, id: SiteId) {
    id in sites && sites[id].host in entries && entries[sites[id].host] == id
  }

  /** Moves on to cache c; live sites it no longer serves have been retired. */
  function Sync(w: World, c: Cache): World {
    w.(c := c, phase := map id | id in w.phase ::
         if w.phase[id] == Live && !Serves(c.entries, c.sites, id) then Retired else w.phase[id])
  }

  /** Facts the registry guarantees: a lease id belongs to one identity and one
      hostname for good, and identities have an address. */
  ghost predicate RegistryFacts(w: World, lease: Lease) {
    && lease.owner.Valid()
    && (lease.id in w.c.leases ==> w.c.leases[lease.id].lease.owner == lease.owner
                                   && w.c.leases[lease.id].lease.hostname == lease.hostname)
  }

  ghost predicate Enabled(w: World, e: Event) {
    WellFormed(w.c) &&
    match e
    case DenyBegin(key) => w.denying.None?
    case DenyEnd(order) => w.denying.Some? && Lists(order, HostsOf(w.c, w.denying.value))
    case Allow(key) => w.denying.None?
    case Forget(keys) => w.denying.None?
    case Register(lease, req) => w.denying.None? && RegistryFacts(w, lease)
    case Renew(lease, now) => w.denying.None? && RegistryFacts(w, lease)
    case Detach(lease, now) => w.denying.None?
    case Capture(t, id, key) => t !in w.threads && (id in w.c.leases ==> w.c.leases[id].lease.owner == key)
    case Check(t) => w.denying.None? && t in w.threads && w.threads[t].Captured?
    case Admit(t, _, _, _) => t in w.threads && w.threads[t].Checked?
    case Reserve(t, id) => t in w.threads && w.threads[t].Admitted? && id !in w.c.sites
                           && Fits(w.c, w.cfg, w.threads[t].site.bytes)
    case Evict(host) => IsVictim(w.c, host)
    case MakeDir(t) => t in w.threads && w.threads[t].Staged?
    case Publish(t, now) => t in w.threads && w.threads[t].Staged? && w.threads[t].id in w.dirs
                            && w.threads[t].id in w.c.sites
    case Abandon(t) => t in w.threads && w.threads[t].Staged?
    case Drop(t) => t in w.threads && !w.threads[t].Staged?
    case Delete(_, _, _, _) => true
    case Probe(_, _, _, _, _) => true
    case Sweep(now, order) => Lists(order, ExpiredHosts(w.c, now))
    case RemoveDir(id) => id in w.phase && w.phase[id] == Collecting
    case Dispose(id, removed) => id in w.phase && w.phase[id] == Collecting && id in w.c.sites
                                 && (removed ==> id !in w.dirs)
    case Acquire(r, host, now) => r !in w.pins
    case Release(r) => r in w.pins && w.pins[r] in w.c.sites && w.c.sites[w.pins[r]].readers > 0
    case Discard(r) => r in w.pins && w.pins[r] in w.c.sites
  }

  ghost function Next(w: World, e: Event): World
    requires Enabled(w, e)
  {
    match e
    case DenyBegin(key) => w.(blocked := w.blocked + {key}, denying := Some(key))
    case DenyEnd(order) => Sync(w, OwnerRevoked(w.c, w.denying.value, order)).(denying := None)
    case Allow(key) => w.(blocked := w.blocked - {key})
    case Forget(keys) => w.(blocked := w.blocked - keys)
    case Register(lease, req) => Sync(w, Registered(w.c, w.cfg, lease, req))
    case Renew(lease, now) => Sync(w, Renewed(w.c, lease, now))
    case Detach(lease, now) => Sync(w, Detached(w.c, lease, now))
    case Capture(t, id, key) => w.(threads := w.threads[t := Captured(id, key, GenerationOf(w.c, id))])
    case Check(t) =>
      if w.threads[t].key in w.blocked then w.(threads := w.threads - {t})
      else w.(threads := w.threads[t := Checked(w.threads[t].lease, w.threads[t].generation)])
    case Admit(t, digest, bytes, now) =>
      var Checked(id, g) := w.threads[t];
      if !Admits(w.c, id, g, now) then w.(threads := w.threads - {t})
      else w.(threads := w.threads[t := Admitted(NewSite(w.c, id, digest, bytes, now), g)])
    case Reserve(t, id) =>
      var Admitted(site, g) := w.threads[t];
      w.(c := Charged(w.c, site, id), phase := w.phase[id := Staging(t)], threads := w.threads[t := Staged(id, g)])
    case Evict(host) => Sync(w, Retire(w.c, host))
    case MakeDir(t) => w.(dirs := w.dirs + {w.threads[t].id})
    case Publish(t, now) =>
      var Staged(id, g) := w.threads[t];
      var (c, ok) := Published(w.c, id, g, now);
      if !ok then w
      else
        var h := w.c.sites[id].host;
        var phase := if h in w.c.entries then w.phase[w.c.entries[h] := Retired] else w.phase;
        w.(c := c, phase := phase[id := Live], threads := w.threads - {t})
    case Abandon(t) =>
      var id := w.threads[t].id;
      w.(c := Abandoned(w.c, id), phase := w.phase[id := Retired], threads := w.threads - {t})
    case Drop(t) => w.(threads := w.threads - {t})
    case Delete(host, id, g, now) => Sync(w, Deleted(w.c, host, id, g, now))
    case Probe(host, id, digest, g, now) => Sync(w, Probed(w.c, host, id, digest, g, now).0)
    case Sweep(now, order) =>
      var (c, ready) := Swept(w.c, now, order);
      var w1 := Sync(w, c);
      w1.(phase := map id | id in w1.phase :: if id in ready then Collecting else w1.phase[id])
    case RemoveDir(id) => w.(dirs := w.dirs - {id})
    case Dispose(id, removed) =>
      w.(c := Disposed(w.c, id, removed), phase := if removed then w.phase - {id} else w.phase[id := Retired])
    case Acquire(r, host, now) =>
      if !Servable(w.c, host, now) then w
      else w.(c := Acquired(w.c, host, now), pins := w.pins[r := w.c.entries[host]])
    case Release(r) => w.(c := Released(w.c, w.pins[r]), pins := w.pins - {r})
    case Discard(r) => Sync(w, Discarded(w.c, w.pins[r]))
  }

  ghost predicate Step(w: World, e: Event, w': World) {
    Enabled(w, e) && w' == Next(w, e)
  }

  ghost predicate Run(cfg: Config, es: seq<Event>, ws: seq<World>) {
    && |ws| == |es| + 1 && ws[0] == Initial(cfg)
    && forall i :: 0 <= i < |es| ==> Step(ws[i], es[i], ws[i + 1])
  }

  lemma RunStep(cfg: Config, es: seq<Event>, ws: seq<World>, k: nat)
    requires Run(cfg, es, ws) && k < |es|
    ensures Step(ws[k], es[k], ws[k + 1])
  {
  }

  // ---------------------------------------------------------------- invariant

  /** The bytes charged for a set of sites. */
  ghost function Charge(sites: map<SiteId, Site>, ids: set<SiteId>): nat
    requires ids <= sites.Keys
  {
    if ids == {} then 0 else var x :| x in ids; sites[x].bytes + Charge(sites, ids - {x})
  }

  ghost function PinsOf(pins: map<nat, SiteId>, id: SiteId): set<nat> {
    set r | r in pins && pins[r] == id
  }

  /** The live sites are exactly the published ones. */
  ghost predicate LivePlaced(entries: map<string, SiteId>, sites: map<SiteId, Site>, phase: map<SiteId, Phase>) {
    && (forall h :: h in entries ==> entries[h] in phase && phase[entries[h]] == Live)
    && (forall id :: id in phase ==> id in sites && (phase[id] == Live ==> Serves(entries, sites, id)))
  }

  /** The retired sites are exactly those on the list, each once. */
  ghost predicate RetiredPlaced(retired: seq<SiteId>, phase: map<SiteId, Phase>) {
    && (forall i :: 0 <= i < |retired| ==> retired[i] in phase && phase[retired[i]] == Retired)
    && (forall id :: id in phase && phase[id] == Retired ==> id in retired)
    && Distinct(retired)
  }

  /** The staging sites are exactly those of uploads under way. */
  ghost predicate StagedPlaced(threads: map<nat, Thread>, phase: map<SiteId, Phase>) {
    && (forall t :: t in threads && threads[t].Staged? ==>
          threads[t].id in phase && phase[threads[t].id] == Staging(t))
    && (forall id :: id in phase && phase[id].Staging? ==>
          phase[id].thread in threads && threads[phase[id].thread].Staged? && threads[phase[id].thread].id == id)
    && (forall t :: t in threads && threads[t].Admitted? ==> threads[t].site.readers == 0)
  }

  /** Every charged site is in exactly the place its phase names. */
  ghost predicate Placed(w: World) {
    && WellFormed(w.c) && LivePlaced(w.c.entries, w.c.sites, w.phase)
    && RetiredPlaced(w.c.retired, w.phase) && StagedPlaced(w.threads, w.phase)
  }

  /** The counters are what the charged sites add up to. */
  ghost predicate Adds(used: int, snapshots: int, sites: map<SiteId, Site>, charged: set<SiteId>) {
    charged <= sites.Keys && used == Charge(sites, charged) && snapshots == |charged|
  }

  ghost predicate Balanced(w: World) {
    Adds(w.c.used, w.c.snapshots, w.c.sites, w.phase.Keys) && w.c.used <= w.cfg.maxBytes
    && w.c.snapshots <= MAX_SNAPSHOTS
  }

  ghost predicate CountsExact(sites: map<SiteId, Site>, pins: map<nat, SiteId>) {
    && (forall id :: id in sites ==> sites[id].readers == |PinsOf(pins, id)|)
    && (forall r :: r in pins ==> pins[r] in sites)
  }

  /** A held site is live or retired, and its directory exists; so does that of
      every live site. */
  ghost predicate HeldSafely(pins: map<nat, SiteId>, phase: map<SiteId, Phase>, dirs: set<SiteId>) {
    && (forall r :: r in pins ==>
          pins[r] in phase && pins[r] in dirs && (phase[pins[r]] == Live || phase[pins[r]] == Retired))
    && (forall id :: id in phase && phase[id] == Live ==> id in dirs)
  }

  ghost predicate Pinned(w: World) {
    CountsExact(w.c.sites, w.pins) && HeldSafely(w.pins, w.phase, w.dirs)
  }

  ghost predicate Inv(w: World) { Placed(w) && Balanced(w) && Pinned(w) }
}
