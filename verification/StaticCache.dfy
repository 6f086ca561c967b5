/** The static cache of portal/cache (manager.go, http.go, serve.go). Each
    function is one section under the cache lock; class Manager holds the fields
    and does the same step by step. Sites are named by ids, because the code
    compares site pointers. */
module StaticCache {
  import opened Identity
  import opened Orders

  type SiteId = nat

  const OBSERVATION_WINDOW := 2 * MINUTE
  const MAX_SNAPSHOTS := 128

  datatype Config = Config(maxBytes: nat, maxTTL: int)

  /** What the registry tells the cache about a lease. */
  datatype Lease = Lease(id: string, hostname: string, owner: ServiceKey, expiresAt: Time, lastSeenAt: Time)
  datatype CachedLease = CachedLease(lease: Lease, ttl: int, generation: nat)

  /** The part of a registration the cache reads. */
  datatype Request = Request(cache: bool, udp: bool, tcp: bool, cacheTTL: int)

  datatype Site = Site(host: string, leaseID: string, owner: ServiceKey, digest: string, bytes: nat,
                       ttl: int, expiresAt: Time, usedAt: Time, readers: nat)

  /** The fields of Manager, and the sites its pointers lead to. */
  datatype Cache = Cache(leases: map<string, CachedLease>, entries: map<string, SiteId>, retired: seq<SiteId>,
                         used: int, snapshots: int, generation: nat, sites: map<SiteId, Site>)

  const EMPTY := Cache(map[], map[], [], 0, 0, 0, map[])

  /** A site is published under its own host. */
  ghost predicate EntriesOk(entries: map<string, SiteId>, sites: map<SiteId, Site>) {
    forall h :: h in entries ==> entries[h] in sites && sites[entries[h]].host == h
  }

  ghost predicate RetiredOk(retired: seq<SiteId>, sites: map<SiteId, Site>) {
    forall i :: 0 <= i < |retired| ==> retired[i] in sites
  }

  /** Pointers lead somewhere. */
  ghost predicate WellFormed(c: Cache) {
    EntriesOk(c.entries, c.sites) && RetiredOk(c.retired, c.sites)
  }

  function SiteAt(c: Cache, h: string): Site
    requires WellFormed(c) && h in c.entries
  {
    c.sites[c.entries[h]]
  }

  // ---------------------------------------------------------------- retiring

  function Retire(c: Cache, h: string): Cache
    requires h in c.entries
  {
    c.(entries := c.entries - {h}, retired := c.retired + [c.entries[h]])
  }

  function Ids(entries: map<string, SiteId>, order: seq<string>): (r: seq<SiteId>)
    requires forall i :: 0 <= i < |order| ==> order[i] in entries
    ensures |r| == |order| && forall i :: 0 <= i < |r| ==> r[i] == entries[order[i]]
  {
    seq(|order|, i requires 0 <= i < |order| => entries[order[i]])
  }

  /** Retires the given hosts one after the other. */
  function RetireAll(c: Cache, order: seq<string>): Cache
    requires forall i :: 0 <= i < |order| ==> order[i] in c.entries
  {
    c.(entries := c.entries - (set h | h in order), retired := c.retired + Ids(c.entries, order))
  }

  lemma RetireAllKeepsWellFormed(c: Cache, order: seq<string>)
    requires WellFormed(c) && forall i :: 0 <= i < |order| ==> order[i] in c.entries
    ensures WellFormed(RetireAll(c, order))
  {
  }

  /** Retiring one host more, while walking the map. */
  lemma RetireOneMore(c: Cache, order: seq<string>, h: string)
    requires forall i :: 0 <= i < |order| ==> order[i] in c.entries
    requires h in c.entries && h !in order
    ensures RetireAll(c, order + [h]) == Retire(RetireAll(c, order), h)
  {
    assert Ids(c.entries, order + [h]) == Ids(c.entries, order) + [c.entries[h]];
    assert (set k | k in order + [h]) == (set k | k in order) + {h};
  }

  // ---------------------------------------------------------------- leases

  function CacheExpiry(l: CachedLease): Time {
    var until := l.lease.lastSeenAt + OBSERVATION_WINDOW;
    (if l.lease.expiresAt < until then l.lease.expiresAt else until) + l.ttl
  }

  function OfflineTTL(cfg: Config, cacheTTL: int): int {
    if cacheTTL > 0 && cacheTTL < cfg.maxTTL / SECOND then cacheTTL * SECOND else cfg.maxTTL
  }

  predicate Cacheable(lease: Lease, req: Request) {
    req.cache && !req.udp && !req.tcp && lease.hostname != "" && '*' !in lease.hostname
  }

  function Registered(c: Cache, cfg: Config, lease: Lease, req: Request): Cache {
    var c1 := if lease.hostname in c.entries then Retire(c, lease.hostname) else c;
    var kept := map id | id in c.leases && c.leases[id].lease.owner != lease.owner
                         && c.leases[id].lease.hostname != lease.hostname :: c.leases[id];
    if !Cacheable(lease, req) then c1.(leases := kept)
    else c1.(generation := c.generation + 1,
             leases := kept[lease.id := CachedLease(lease, OfflineTTL(cfg, req.cacheTTL), c.generation + 1)])
  }

  function Renewed(c: Cache, lease: Lease, now: Time): Cache
    requires WellFormed(c)
  {
    if lease.id !in c.leases then c
    else
      var state := c.leases[lease.id].(lease := lease);
      var c1 := c.(leases := c.leases[lease.id := state]);
      var h := lease.hostname;
      if h in c.entries && SiteAt(c, h).leaseID == lease.id then
        if !(now < SiteAt(c, h).expiresAt) then Retire(c1, h)
        else c1.(sites := c.sites[c.entries[h] := SiteAt(c, h).(expiresAt := CacheExpiry(state))])
      else c1
  }

  function Detached(c: Cache, lease: Lease, now: Time): Cache
    requires WellFormed(c)
  {
    var c1 := c.(leases := c.leases - {lease.id});
    var h := lease.hostname;
    if h in c.entries && SiteAt(c, h).leaseID == lease.id then
      var site := SiteAt(c, h);
      var gone := if lease.expiresAt < now then lease.expiresAt else now;
      if !(now < site.expiresAt) then Retire(c1, h)
      else if gone + site.ttl < site.expiresAt
        then c1.(sites := c.sites[c.entries[h] := site.(expiresAt := gone + site.ttl)])
      else c1
    else c1
  }

  function HostsOf(c: Cache, owner: ServiceKey): set<string>
    requires WellFormed(c)
  {
    set h | h in c.entries && SiteAt(c, h).owner == owner
  }

  /** DetachOwner, with the order in which the map was walked. */
  function OwnerRevoked(c: Cache, owner: ServiceKey, order: seq<string>): Cache
    requires WellFormed(c) && Lists(order, HostsOf(c, owner))
  {
    if !owner.Valid() then c
    else
      var g := c.generation + 1;
      var leases := map id | id in c.leases ::
        if c.leases[id].lease.owner == owner then c.leases[id].(generation := g) else c.leases[id];
      RetireAll(c.(generation := g, leases := leases), order)
  }

  predicate Eligible(c: Cache, id: string, now: Time) {
    id in c.leases && now < c.leases[id].lease.expiresAt
  }

  /** The generation a request is admitted under; 0 when there is no lease. */
  function GenerationOf(c: Cache, id: string): nat {
    if id in c.leases then c.leases[id].generation else 0
  }

  predicate Admits(c: Cache, id: string, generation: nat, now: Time) {
    Eligible(c, id, now) && c.leases[id].generation == generation
  }

  // ---------------------------------------------------------------- uploads

  /** The site an admitted PUT prepares, once its manifest is read. */
  function NewSite(c: Cache, id: string, digest: string, bytes: nat, now: Time): Site
    requires id in c.leases
  {
    var l := c.leases[id];
    Site(l.lease.hostname, l.lease.id, l.lease.owner, digest, bytes, l.ttl, CacheExpiry(l), now, 0)
  }

  predicate Fits(c: Cache, cfg: Config, size: nat) {
    size <= cfg.maxBytes - c.used && c.snapshots < MAX_SNAPSHOTS
  }

  function Charged(c: Cache, site: Site, id: SiteId): Cache {
    c.(used := c.used + site.bytes, snapshots := c.snapshots + 1, sites := c.sites[id := site])
  }

  lemma ChargedKeepsWellFormed(c: Cache, site: Site, id: SiteId)
    requires WellFormed(c) && id !in c.sites
    ensures WellFormed(Charged(c, site, id))
  {
  }

  function Unread(c: Cache): set<string>
    requires WellFormed(c)
  {
    set h | h in c.entries && SiteAt(c, h).readers == 0
  }

  predicate OlderSite(a: Site, b: Site) {
    a.usedAt < b.usedAt || (a.usedAt == b.usedAt && StringLess(a.host, b.host))
  }

  /** h is the least recently used published site without readers. */
  ghost predicate IsVictim(c: Cache, h: string)
    requires WellFormed(c)
  {
    h in Unread(c) && forall k :: k in Unread(c) && k != h ==> OlderSite(SiteAt(c, h), SiteAt(c, k))
  }

  function Published(c: Cache, id: SiteId, generation: nat, now: Time): (Cache, bool)
    requires WellFormed(c) && id in c.sites
  {
    var site := c.sites[id];
    if !Admits(c, site.leaseID, generation, now) then (c, false)
    else
      var c1 := if site.host in c.entries then Retire(c, site.host) else c;
      (c1.(entries := c1.entries[site.host := id],
           sites := c.sites[id := site.(expiresAt := CacheExpiry(c.leases[site.leaseID]))]), true)
  }

  function Abandoned(c: Cache, id: SiteId): Cache {
    c.(retired := c.retired + [id])
  }

  function Deleted(c: Cache, host: string, id: string, generation: nat, now: Time): Cache
    requires WellFormed(c)
  {
    if host in c.entries && SiteAt(c, host).leaseID == id && Admits(c, id, generation, now) then Retire(c, host) else c
  }

  /** The POST check: a changed snapshot of the lease is retired at once. */
  function Probed(c: Cache, host: string, id: string, digest: string, generation: nat, now: Time): (Cache, Option<bool>)
    requires WellFormed(c)
  {
    if !Admits(c, id, generation, now) then (c, None)
    else if host in c.entries && SiteAt(c, host).leaseID == id && SiteAt(c, host).digest == digest
            && now < SiteAt(c, host).expiresAt
    then (c, Some(true))
    else if host in c.entries && SiteAt(c, host).leaseID == id then (Retire(c, host), Some(false))
    else (c, Some(false))
  }

  // ---------------------------------------------------------------- collection

  function ExpiredHosts(c: Cache, now: Time): set<string>
    requires WellFormed(c)
  {
    set h | h in c.entries && !(now < SiteAt(c, h).expiresAt)
  }

  /** The sites of s that have readers (or have none), in order. */
  function Select(sites: map<SiteId, Site>, s: seq<SiteId>, read: bool): (r: seq<SiteId>)
    requires forall i :: 0 <= i < |s| ==> s[i] in sites
    ensures forall x :: x in r <==> x in s && (sites[x].readers != 0) == read
  {
    if s == [] then []
    else
      var last := s[|s| - 1];
      var front := Select(sites, s[..|s| - 1], read);
      assert s == s[..|s| - 1] + [last];
      if (sites[last].readers != 0) == read then front + [last] else front
  }

  /** The first section of collect: what is retired, and what is taken away. */
  function Swept(c: Cache, now: Time, order: seq<string>): (Cache, seq<SiteId>)
    requires WellFormed(c) && Lists(order, ExpiredHosts(c, now))
  {
    var c1 := RetireAll(c, order);
    (c1.(retired := Select(c.sites, c1.retired, true)), Select(c.sites, c1.retired, false))
  }

  /** The section after the directory was removed, or could not be. */
  function Disposed(c: Cache, id: SiteId, removed: bool): Cache
    requires id in c.sites
  {
    if removed then c.(used := c.used - c.sites[id].bytes, snapshots := c.snapshots - 1)
    else c.(retired := c.retired + [id])
  }

  /** The sections of collect's second loop for the first n sites taken away;
      `removable` says which removals succeed. */
  function DisposedAll(c: Cache, ready: seq<SiteId>, removable: SiteId -> bool, n: nat): (r: Cache)
    requires n <= |ready| && forall i :: 0 <= i < |ready| ==> ready[i] in c.sites
    ensures r.sites == c.sites && r.entries == c.entries && r.leases == c.leases
  {
    if n == 0 then c else Disposed(DisposedAll(c, ready, removable, n - 1), ready[n - 1], removable(ready[n - 1]))
  }

  lemma SweptIsKnown(c: Cache, now: Time, order: seq<string>)
    requires WellFormed(c) && Lists(order, ExpiredHosts(c, now))
    ensures var (c1, ready) := Swept(c, now, order);
            c1.sites == c.sites && forall i :: 0 <= i < |ready| ==> ready[i] in c.sites
  {
    RetireAllKeepsWellFormed(c, order);
    var ready := Swept(c, now, order).1;
    forall i | 0 <= i < |ready| ensures ready[i] in c.sites {
      assert ready[i] in ready;
    }
  }

  /** collect with nobody else running. */
  function Collected(c: Cache, now: Time, order: seq<string>, removable: SiteId -> bool): Cache
    requires WellFormed(c) && Lists(order, ExpiredHosts(c, now))
  {
    SweptIsKnown(c, now, order);
    var (c1, ready) := Swept(c, now, order);
    DisposedAll(c1, ready, removable, |ready|)
  }

  lemma {:induction false} DisposedKeepsRetired(c: Cache, ready: seq<SiteId>, removable: SiteId -> bool, n: nat)
    requires n <= |ready| && (forall i :: 0 <= i < |ready| ==> ready[i] in c.sites) && RetiredOk(c.retired, c.sites)
    ensures RetiredOk(DisposedAll(c, ready, removable, n).retired, c.sites)
  {
    if n > 0 {
      DisposedKeepsRetired(c, ready, removable, n - 1);
    }
  }

  lemma CollectedIsWellFormed(c: Cache, now: Time, order: seq<string>, removable: SiteId -> bool)
    requires WellFormed(c) && Lists(order, ExpiredHosts(c, now))
    ensures WellFormed(Collected(c, now, order, removable))
  {
    SweptIsKnown(c, now, order);
    RetireAllKeepsWellFormed(c, order);
    var (c1, ready) := Swept(c, now, order);
    forall i | 0 <= i < |c1.retired| ensures c1.retired[i] in c.sites {
      assert c1.retired[i] in c1.retired;
    }
    DisposedKeepsRetired(c1, ready, removable, |ready|);
  }

  /** That is what became of c, for some order of the walk over the entries. */
  ghost predicate CollectsTo(c: Cache, now: Time, removable: SiteId -> bool, c': Cache) {
    WellFormed(c) && exists order :: Lists(order, ExpiredHosts(c, now)) && c' == Collected(c, now, order, removable)
  }

  /** One failed round of reserve: the victim retired, then collected. */
  ghost predicate EvictsTo(c: Cache, now: Time, removable: SiteId -> bool, c': Cache) {
    WellFormed(c) && exists h :: IsVictim(c, h) && CollectsTo(Retire(c, h), now, removable, c')
  }

  /** The states of a reservation run alone: collected once, then a round for each
      state in which the upload did not fit. */
  ghost predicate Rounds(start: Cache, cs: seq<Cache>, cfg: Config, size: nat, times: nat -> Time,
                         removable: SiteId -> bool) {
    && cs != [] && CollectsTo(start, times(0), removable, cs[0])
    && forall i :: 0 <= i < |cs| - 1 ==> RoundAt(cs, cfg, size, times, removable, i)
  }

  ghost predicate RoundAt(cs: seq<Cache>, cfg: Config, size: nat, times: nat -> Time, removable: SiteId -> bool, i: nat)
    requires i + 1 < |cs|
  {
    !Fits(cs[i], cfg, size) && EvictsTo(cs[i], times(i + 1), removable, cs[i + 1])
  }

  lemma RoundsGrow(start: Cache, cs: seq<Cache>, cfg: Config, size: nat, times: nat -> Time, removable: SiteId -> bool,
                   c: Cache)
    requires Rounds(start, cs, cfg, size, times, removable) && !Fits(cs[|cs| - 1], cfg, size)
    requires EvictsTo(cs[|cs| - 1], times(|cs|), removable, c)
    ensures Rounds(start, cs + [c], cfg, size, times, removable)
  {
    var cs' := cs + [c];
    forall i | 0 <= i < |cs'| - 1 ensures RoundAt(cs', cfg, size, times, removable, i) == true {
      assert i < |cs| - 1 ==> RoundAt(cs, cfg, size, times, removable, i);
      assert cs'[i] == cs[i] && cs'[i + 1] == if i + 1 < |cs| then cs[i + 1] else c;
    }
  }

  /** What eviction may take from the published sites: those expired by `last`, and
      sites without readers used less recently than every site without readers
      that stays. */
  ghost predicate Shrinks(before: Cache, after: map<string, SiteId>, last: Time)
    requires WellFormed(before)
  {
    && (forall h :: h in after ==> h in before.entries && after[h] == before.entries[h])
    && (forall h :: h in before.entries && h !in after && last < SiteAt(before, h).expiresAt ==>
          && SiteAt(before, h).readers == 0
          && forall k :: k in after && SiteAt(before, k).readers == 0 ==>
               OlderSite(SiteAt(before, h), SiteAt(before, k)))
  }

  /** Only expired entries leave by collection; the sites stay known. */
  lemma CollectionShrinks(c: Cache, now: Time, removable: SiteId -> bool, c': Cache)
    requires CollectsTo(c, now, removable, c')
    ensures c'.sites == c.sites && c'.entries == c.entries - ExpiredHosts(c, now) && EntriesOk(c'.entries, c'.sites)
    ensures Shrinks(c, c'.entries, now)
  {
    var order :| Lists(order, ExpiredHosts(c, now)) && c' == Collected(c, now, order, removable);
    SweptIsKnown(c, now, order);
    assert (set h | h in order) == ExpiredHosts(c, now);
  }

  lemma EvictionShrinks(c: Cache, now: Time, removable: SiteId -> bool, c': Cache)
    requires EvictsTo(c, now, removable, c')
    ensures c'.sites == c.sites && Shrinks(c, c'.entries, now)
  {
    var h :| IsVictim(c, h) && CollectsTo(Retire(c, h), now, removable, c');
    CollectionShrinks(Retire(c, h), now, removable, c');
    VictimShrinks(c, h, now);
    ShrinksFurther(c, Retire(c, h), c'.entries, now, now);
  }

  lemma VictimShrinks(c: Cache, h: string, now: Time)
    requires WellFormed(c) && IsVictim(c, h)
    ensures Shrinks(c, Retire(c, h).entries, now)
  {
  }

  lemma ShrinksFurther(a: Cache, b: Cache, c: map<string, SiteId>, s: Time, t: Time)
    requires WellFormed(a) && WellFormed(b) && s <= t && a.sites == b.sites
    requires Shrinks(a, b.entries, s) && Shrinks(b, c, t)
    ensures Shrinks(a, c, t)
  {
  }

  /** Over all rounds: only expired and least recently used unread sites go. */
  lemma {:induction false} RoundsShrink(start: Cache, cs: seq<Cache>, cfg: Config, size: nat, times: nat -> Time,
                                        removable: SiteId -> bool, n: nat)
    requires Rounds(start, cs, cfg, size, times, removable) && n < |cs| && WellFormed(start)
    requires forall i: nat, j: nat :: i <= j ==> times(i) <= times(j)
    ensures cs[n].sites == start.sites && Shrinks(start, cs[n].entries, times(n))
  {
    if n == 0 {
      CollectionShrinks(start, times(0), removable, cs[0]);
    } else {
      RoundsShrink(start, cs, cfg, size, times, removable, n - 1);
      assert RoundAt(cs, cfg, size, times, removable, n - 1);
      EvictionShrinks(cs[n - 1], times(n), removable, cs[n]);
      ShrinksFurther(start, cs[n - 1], cs[n].entries, times(n - 1), times(n));
    }
  }

  // ---------------------------------------------------------------- readers

  predicate Servable(c: Cache, h: string, now: Time)
    requires WellFormed(c)
  {
    h in c.entries && now < SiteAt(c, h).expiresAt
  }

  function Acquired(c: Cache, h: string, now: Time): Cache
    requires WellFormed(c)
  {
    if !Servable(c, h, now) then c
    else c.(sites := c.sites[c.entries[h] := SiteAt(c, h).(readers := SiteAt(c, h).readers + 1, usedAt := now)])
  }

  function Released(c: Cache, id: SiteId): Cache
    requires id in c.sites && c.sites[id].readers > 0
  {
    c.(sites := c.sites[id := c.sites[id].(readers := c.sites[id].readers - 1)])
  }

  /** A reader that failed retires its site, if it is still the published one. */
  function Discarded(c: Cache, id: SiteId): Cache
    requires id in c.sites
  {
    var h := c.sites[id].host;
    if h in c.entries && c.entries[h] == id then Retire(c, h) else c
  }
}
