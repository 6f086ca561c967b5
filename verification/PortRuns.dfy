/** What the port allocator keeps over every run of allocations, rollbacks and
    releases. */
module PortRuns {
  import opened Identity
  import opened Orders
  import opened PortPool

  // ---------------------------------------------------------------- runs

  datatype Event =
    | Allocated(owner: Owner, now: Time, order: seq<ServiceKey>)
    | RolledBack(port: int, owner: Owner, now: Time)
    | Returned(port: int, owner: Owner, now: Time, later: Time, order: seq<ServiceKey>)

  ghost predicate Step(p: Pool, grace: int, e: Event, p': Pool) {
    match e
    case Allocated(owner, now, order) => Lists(order, Expired(p, now)) && p' == Allocate(p, owner, now, order).0
    case RolledBack(port, owner, now) => p' == Rollback(p, port, owner, now)
    case Returned(port, owner, now, later, order) =>
      && Lists(order, if Owns(p, port, owner) then Expired(GiveBack(p, port, owner, now + grace), later) else {})
      && p' == Release(p, port, owner, now + grace, later, order)
  }

  ghost predicate Run(min: int, max: int, grace: int, es: seq<Event>, ps: seq<Pool>) {
    && |ps| == |es| + 1 && ps[0] == NewPool(min, max)
    && forall i :: 0 <= i < |es| ==> Step(ps[i], grace, es[i], ps[i + 1])
  }

  /** The port an allocation hands out, if any. */
  ghost function Given(p: Pool, e: Event): Option<int>
    requires e.Allocated? && Lists(e.order, Expired(p, e.now))
  {
    Allocate(p, e.owner, e.now, e.order).1
  }

  // ---------------------------------------------------------------- partition

  lemma FreeOneKeeps(p: Pool, lo: int, hi: int, k: ServiceKey)
    requires Partition(p, lo, hi) && Remembers(p) && k in p.reserved
    ensures Partition(p.(reserved := p.reserved - {k}, available := p.available + [p.reserved[k].port]), lo, hi)
  {
    var p' := p.(reserved := p.reserved - {k}, available := p.available + [p.reserved[k].port]);
    forall q | lo <= q <= hi ensures q in p'.available || q in p'.inUse || Held(p', q) {
      if Held(p, q) && q != p.reserved[k].port {
        var j :| j in p.reserved && p.reserved[j].port == q;
        assert j in p'.reserved;
      }
    }
  }

  lemma {:induction false} FreeAllKeeps(p: Pool, lo: int, hi: int, order: seq<ServiceKey>)
    requires Partition(p, lo, hi) && Remembers(p) && Distinct(order)
    requires forall i :: 0 <= i < |order| ==> order[i] in p.reserved
    ensures Partition(FreeAll(p, order), lo, hi) && Remembers(FreeAll(p, order))
    decreases |order|
  {
    if order == [] {
      assert FreeAll(p, []) == p;
    } else {
      var front, k := order[..|order| - 1], order[|order| - 1];
      assert order == front + [k];
      FreeAllKeeps(p, lo, hi, front);
      FreeOneMore(p, front, k);
      FreeOneKeeps(FreeAll(p, front), lo, hi, k);
    }
  }

  lemma ReclaimKeeps(p: Pool, lo: int, hi: int, owner: Owner)
    requires Partition(p, lo, hi) && Remembers(p) && owner.key in p.reserved
    ensures Partition(Take(p, owner).0, lo, hi) && Remembers(Take(p, owner).0)
  {
    var p' := Take(p, owner).0;
    forall q | lo <= q <= hi ensures q in p'.available || q in p'.inUse || Held(p', q) {
      if Held(p, q) {
        var j :| j in p.reserved && p.reserved[j].port == q;
        assert j == owner.key || j in p'.reserved;
      }
    }
  }

  lemma TakeFirstKeeps(p: Pool, lo: int, hi: int, owner: Owner)
    requires Partition(p, lo, hi) && Remembers(p) && owner.key !in p.reserved && p.available != []
    ensures Partition(Take(p, owner).0, lo, hi) && Remembers(Take(p, owner).0)
  {
    var p' := Take(p, owner).0;
    forall q | lo <= q <= hi ensures q in p'.available || q in p'.inUse || Held(p', q) {
      if q in p.available {
        var i :| 0 <= i < |p.available| && p.available[i] == q;
        assert i > 0 ==> p'.available[i - 1] == q;
      } else if Held(p, q) {
        var j :| j in p.reserved && p.reserved[j].port == q;
        assert p'.reserved[j].port == q;
      }
    }
  }

  lemma TakeKeeps(p: Pool, lo: int, hi: int, owner: Owner)
    requires Partition(p, lo, hi) && Remembers(p)
    ensures Partition(Take(p, owner).0, lo, hi) && Remembers(Take(p, owner).0)
  {
    if owner.key in p.reserved {
      ReclaimKeeps(p, lo, hi, owner);
    } else if p.available != [] {
      TakeFirstKeeps(p, lo, hi, owner);
    }
  }

  /** A port in use passes to an identity that holds none back. */
  lemma HoldKeeps(p: Pool, lo: int, hi: int, port: int, key: ServiceKey, until: Time)
    requires Partition(p, lo, hi) && Remembers(p) && port in p.inUse && key !in p.reserved
    ensures var p' := p.(inUse := p.inUse - {port}, reserved := p.reserved[key := Reservation(port, until)]);
            Partition(p', lo, hi) && Remembers(p')
  {
    var p' := p.(inUse := p.inUse - {port}, reserved := p.reserved[key := Reservation(port, until)]);
    forall q | lo <= q <= hi ensures q in p'.available || q in p'.inUse || Held(p', q) {
      if q == port {
        assert p'.reserved[key].port == q;
      } else if Held(p, q) {
        var j :| j in p.reserved && p.reserved[j].port == q;
        assert p'.reserved[j].port == q;
      }
    }
  }

  /** A port in use goes to the end of the queue. */
  lemma RequeueKeeps(p: Pool, lo: int, hi: int, port: int)
    requires Partition(p, lo, hi) && Remembers(p) && port in p.inUse
    ensures var p' := p.(inUse := p.inUse - {port}, available := p.available + [port]);
            Partition(p', lo, hi) && Remembers(p')
  {
    var p' := p.(inUse := p.inUse - {port}, available := p.available + [port]);
    forall q | lo <= q <= hi ensures q in p'.available || q in p'.inUse || Held(p', q) {
      if Held(p, q) {
        var j :| j in p.reserved && p.reserved[j].port == q;
        assert p'.reserved[j].port == q;
      }
    }
  }

  lemma RollbackKeeps(p: Pool, lo: int, hi: int, port: int, owner: Owner, now: Time)
    requires Partition(p, lo, hi) && Remembers(p)
    ensures Partition(Rollback(p, port, owner, now), lo, hi) && Remembers(Rollback(p, port, owner, now))
  {
    if Owns(p, port, owner) {
      var res := p.inUse[port].reservation;
      if res.port != 0 && now < res.expiresAt && owner.key !in p.reserved {
        HoldKeeps(p, lo, hi, port, owner.key, res.expiresAt);
      } else {
        RequeueKeeps(p, lo, hi, port);
      }
    }
  }

  lemma GiveBackKeeps(p: Pool, lo: int, hi: int, port: int, owner: Owner, until: Time)
    requires Partition(p, lo, hi) && Remembers(p) && Owns(p, port, owner)
    ensures Partition(GiveBack(p, port, owner, until), lo, hi) && Remembers(GiveBack(p, port, owner, until))
  {
    if owner.key in p.reserved {
      FreeOneKeeps(p, lo, hi, owner.key);
      var p1 := p.(reserved := p.reserved - {owner.key}, available := p.available + [p.reserved[owner.key].port]);
      HoldKeeps(p1, lo, hi, port, owner.key, until);
      assert p1.reserved[owner.key := Reservation(port, until)] == p.reserved[owner.key := Reservation(port, until)];
    } else {
      HoldKeeps(p, lo, hi, port, owner.key, until);
    }
  }

  lemma AllocateKeeps(p: Pool, lo: int, hi: int, owner: Owner, now: Time, order: seq<ServiceKey>)
    requires Partition(p, lo, hi) && Remembers(p) && Lists(order, Expired(p, now))
    ensures Partition(Allocate(p, owner, now, order).0, lo, hi) && Remembers(Allocate(p, owner, now, order).0)
  {
    FreeAllKeeps(p, lo, hi, order);
    TakeKeeps(FreeAll(p, order), lo, hi, owner);
  }

  lemma ReleaseKeeps(p: Pool, lo: int, hi: int, port: int, owner: Owner, until: Time, order: seq<ServiceKey>, p': Pool)
    requires Partition(p, lo, hi) && Remembers(p) && Owns(p, port, owner)
    requires Distinct(order) && forall i :: 0 <= i < |order| ==> order[i] in GiveBack(p, port, owner, until).reserved
    requires p' == FreeAll(GiveBack(p, port, owner, until), order)
    ensures Partition(p', lo, hi) && Remembers(p')
  {
    GiveBackKeeps(p, lo, hi, port, owner, until);
    FreeAllKeeps(GiveBack(p, port, owner, until), lo, hi, order);
  }

  lemma AllocatedKeeps(p: Pool, lo: int, hi: int, grace: int, e: Event, p': Pool)
    requires Partition(p, lo, hi) && Remembers(p) && e.Allocated? && Step(p, grace, e, p')
    ensures Partition(p', lo, hi) && Remembers(p')
  {
    AllocateKeeps(p, lo, hi, e.owner, e.now, e.order);
  }

  lemma RolledBackKeeps(p: Pool, lo: int, hi: int, grace: int, e: Event, p': Pool)
    requires Partition(p, lo, hi) && Remembers(p) && e.RolledBack? && Step(p, grace, e, p')
    ensures Partition(p', lo, hi) && Remembers(p')
  {
    RollbackKeeps(p, lo, hi, e.port, e.owner, e.now);
  }

  lemma ReturnedKeeps(p: Pool, lo: int, hi: int, grace: int, e: Event, p': Pool)
    requires Partition(p, lo, hi) && Remembers(p) && e.Returned? && Step(p, grace, e, p')
    ensures Partition(p', lo, hi) && Remembers(p')
  {
    if Owns(p, e.port, e.owner) {
      ReleaseKeeps(p, lo, hi, e.port, e.owner, e.now + grace, e.order, p');
    }
  }

  lemma StepKeepsPartition(p: Pool, lo: int, hi: int, grace: int, e: Event, p': Pool)
    requires Partition(p, lo, hi) && Remembers(p) && Step(p, grace, e, p')
    ensures Partition(p', lo, hi) == true && Remembers(p') == true
  {
    if e.Allocated? {
      AllocatedKeeps(p, lo, hi, grace, e, p');
    } else if e.RolledBack? {
      RolledBackKeeps(p, lo, hi, grace, e, p');
    } else {
      ReturnedKeeps(p, lo, hi, grace, e, p');
    }
  }

  ghost predicate Usable(min: int, max: int) { 0 < min <= max }

  /** In every reachable state the free, in-use and held-back ports are exactly
      the configured range, each port once; an unusable range has none. */
  lemma {:induction false} PortsArePartitioned(min: int, max: int, grace: int, es: seq<Event>, ps: seq<Pool>, n: nat)
    requires Run(min, max, grace, es, ps) && n <= |es|
    ensures Partition(ps[n], if Usable(min, max) then min else 1, if Usable(min, max) then max else 0)
    ensures Remembers(ps[n])
  {
    var lo, hi := if Usable(min, max) then min else 1, if Usable(min, max) then max else 0;
    if n == 0 {
      var p := NewPool(min, max);
      forall q | lo <= q <= hi ensures q in p.available {
        assert p.available[q - lo] == q;
      }
    } else {
      PortsArePartitioned(min, max, grace, es, ps, n - 1);
      StepKeepsPartition(ps[n - 1], lo, hi, grace, es[n - 1], ps[n]);
    }
  }

  // ---------------------------------------------------------------- reservations

  /** A reservation changes or leaves only when its identity reclaims it, when
      it has expired, or when the identity gives back another port. */
  lemma ReservationLeavesOnly(p: Pool, grace: int, e: Event, p': Pool, k: ServiceKey)
    requires Step(p, grace, e, p') && k in p.reserved && (k !in p'.reserved || p'.reserved[k] != p.reserved[k])
    ensures || (e.Allocated? && e.owner.key == k && Given(p, e) == Some(p.reserved[k].port))
            || (e.Allocated? && e.now > p.reserved[k].expiresAt)
            || (e.Returned? && e.owner.key == k && Owns(p, e.port, e.owner))
            || (e.Returned? && e.later > p.reserved[k].expiresAt)
  {
  }

  /** Event i is a release that reserved this port for this identity until `until`. */
  ghost predicate Reserves(ps: seq<Pool>, grace: int, es: seq<Event>, i: nat, k: ServiceKey, res: Reservation)
    requires i < |es| && |ps| == |es| + 1
  {
    && es[i].Returned? && es[i].owner.key == k && Owns(ps[i], es[i].port, es[i].owner)
    && res == Reservation(es[i].port, es[i].now + grace)
  }

  /** Every reservation, held back or remembered by a reclaimed port, is one
      that a release of that identity made, with the expiry it then got: no
      rollback ever extends one. */
  lemma {:induction false} ReservationOrigin(min: int, max: int, grace: int, es: seq<Event>, ps: seq<Pool>, n: nat)
    requires Run(min, max, grace, es, ps) && n <= |es|
    ensures forall k :: k in ps[n].reserved ==>
              exists i :: 0 <= i < n && Reserves(ps, grace, es, i, k, ps[n].reserved[k])
    ensures forall q :: q in ps[n].inUse && ps[n].inUse[q].reservation.port != 0 ==>
              exists i :: 0 <= i < n && Reserves(ps, grace, es, i, ps[n].inUse[q].owner.key, ps[n].inUse[q].reservation)
  {
    if n > 0 {
      ReservationOrigin(min, max, grace, es, ps, n - 1);
      var p, e, p' := ps[n - 1], es[n - 1], ps[n];
      assert Step(p, grace, e, p');
      forall k | k in p'.reserved ensures exists i :: 0 <= i < n && Reserves(ps, grace, es, i, k, p'.reserved[k]) {
        if e.Returned? && e.owner.key == k && Owns(p, e.port, e.owner) {
          assert Reserves(ps, grace, es, n - 1, k, p'.reserved[k]);
        } else if k in p.reserved && p'.reserved[k] == p.reserved[k] {
        } else {
          assert e.RolledBack? && p'.reserved[k] == p.inUse[e.port].reservation;
        }
      }
      forall q | q in p'.inUse && p'.inUse[q].reservation.port != 0
        ensures exists i :: 0 <= i < n && Reserves(ps, grace, es, i, p'.inUse[q].owner.key, p'.inUse[q].reservation)
      {
        if q in p.inUse && p'.inUse[q] == p.inUse[q] {
        } else {
          assert e.Allocated? && e.owner.key in p.reserved && p'.inUse[q].reservation == p.reserved[e.owner.key];
        }
      }
    }
  }

  // ---------------------------------------------------------------- late clean-up

  /** A record that does not hold a port does not come to hold it by anything
      but an allocation of its own. */
  lemma {:induction false} NotOwnedStaysNotOwned(min: int, max: int, grace: int, es: seq<Event>, ps: seq<Pool>, i: nat,
                                                 j: nat, port: int, owner: Owner)
    requires Run(min, max, grace, es, ps) && i <= j <= |es| && !Owns(ps[i], port, owner)
    requires forall m :: i <= m < j && es[m].Allocated? ==> es[m].owner != owner
    ensures !Owns(ps[j], port, owner)
  {
    if i < j {
      NotOwnedStaysNotOwned(min, max, grace, es, ps, i, j - 1, port, owner);
      assert Step(ps[j - 1], grace, es[j - 1], ps[j]);
    }
  }

  /** Clean-up may be repeated: once a record's port was released or rolled
      back, releasing or rolling it back again changes nothing, even after the
      port went to somebody else. */
  lemma LateCleanupChangesNothing(min: int, max: int, grace: int, es: seq<Event>, ps: seq<Pool>, i: nat, j: nat)
    requires Run(min, max, grace, es, ps) && i < j < |es|
    requires !es[i].Allocated? && !es[j].Allocated? && es[i].owner == es[j].owner && es[i].port == es[j].port
    requires forall m :: i < m < j && es[m].Allocated? ==> es[m].owner != es[i].owner
    ensures ps[j + 1] == ps[j]
  {
    assert Step(ps[i], grace, es[i], ps[i + 1]);
    NotOwnedStaysNotOwned(min, max, grace, es, ps, i + 1, j, es[j].port, es[j].owner);
    assert Step(ps[j], grace, es[j], ps[j + 1]);
  }

  // ---------------------------------------------------------------- queue order

  /** One step either only appends to the queue or hands out its first port. */
  lemma QueueStep(p: Pool, grace: int, e: Event, p': Pool)
    requires Step(p, grace, e, p')
    ensures p.available <= p'.available
            || (p.available != [] && p.available[1..] <= p'.available && e.Allocated?
                && Given(p, e) == Some(p.available[0]))
  {
  }

  /** Event m hands out this port. */
  ghost predicate Gives(ps: seq<Pool>, es: seq<Event>, m: nat, port: int)
    requires m < |es| && |ps| == |es| + 1
  {
    es[m].Allocated? && Lists(es[m].order, Expired(ps[m], es[m].now)) && Given(ps[m], es[m]) == Some(port)
  }

  /** Some event from `lo` on, before `hi`, hands out this port. */
  ghost predicate GivenWithin(ps: seq<Pool>, es: seq<Event>, lo: nat, hi: nat, port: int)
    requires hi <= |es| && |ps| == |es| + 1
  {
    exists m :: lo <= m < hi && Gives(ps, es, m, port)
  }

  /** A line of ports at the front of the queue is handed out from its front:
      the first k are gone by n, the rest still lead the queue. */
  lemma {:induction false} QueueIsServedInOrder(min: int, max: int, grace: int, es: seq<Event>, ps: seq<Pool>, i: nat,
                                                n: nat, line: seq<int>)
    returns (k: nat)
    requires Run(min, max, grace, es, ps) && i <= n <= |es| && line <= ps[i].available
    ensures k <= |line| && line[k..] <= ps[n].available
    ensures forall x :: 0 <= x < k ==> GivenWithin(ps, es, i, n, line[x])
  {
    if i == n {
      k := 0;
    } else {
      k := QueueIsServedInOrder(min, max, grace, es, ps, i, n - 1, line);
      forall x | 0 <= x < k ensures GivenWithin(ps, es, i, n, line[x]) {
        assert GivenWithin(ps, es, i, n - 1, line[x]);
      }
      QueueStep(ps[n - 1], grace, es[n - 1], ps[n]);
      if !(ps[n - 1].available <= ps[n].available) && k < |line| {
        assert ps[n - 1].available[0] == line[k..][0] == line[k];
        assert Gives(ps, es, n - 1, line[k]);
        assert line[k..][1..] == line[k + 1..];
        k := k + 1;
      }
    }
  }

  /** A fresh port that was rolled back is not handed out again before every
      port that was free ahead of it. */
  lemma RolledBackPortWaitsItsTurn(min: int, max: int, grace: int, es: seq<Event>, ps: seq<Pool>, i: nat, j: nat,
                                   q: int)
    requires Run(min, max, grace, es, ps) && i < j < |es|
    requires es[i].RolledBack? && ps[i + 1].available == ps[i].available + [q]
    requires Gives(ps, es, j, q) && forall m :: i < m < j ==> !Gives(ps, es, m, q)
    ensures forall x :: 0 <= x < |ps[i].available| ==> GivenWithin(ps, es, i + 1, j, ps[i].available[x])
  {
    var ahead := ps[i].available;
    var line := ahead + [q];
    var k := QueueIsServedInOrder(min, max, grace, es, ps, i + 1, j, line);
    PortsArePartitioned(min, max, grace, es, ps, i + 1);
    PortsArePartitioned(min, max, grace, es, ps, j);
    assert !GivenWithin(ps, es, i + 1, j, q) && line[|ahead|] == q;
    assert k <= |ahead|;
    assert ps[j].available[0] == line[k..][0] == line[k];
    assert line[k..][|ahead| - k] == q;
    FreePortGoesFirst(ps[j], es[j], q);
    forall x | 0 <= x < |ahead| ensures GivenWithin(ps, es, i + 1, j, ahead[x]) {
      assert ahead[x] == line[x];
    }
  }

  /** A free port is handed out only from the front of the queue. */
  lemma FreePortGoesFirst(p: Pool, e: Event, q: int)
    requires e.Allocated? && Lists(e.order, Expired(p, e.now)) && Given(p, e) == Some(q) && q in p.available
    requires forall i, k :: 0 <= i < |p.available| && k in p.reserved ==> p.available[i] != p.reserved[k].port
    ensures q == p.available[0]
  {
  }
}
