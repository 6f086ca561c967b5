/** The port allocator of portal/lease.go: a queue of free ports, the ports in
    use, and ports held back for the identity that used them last. */
module PortPool {
  import opened Identity
  import opened Orders

  /** A registration: the record pointer and the identity it registers. */
  datatype Owner = Owner(record: nat, key: ServiceKey)

  /** Port 0 marks the empty reservation. */
  datatype Reservation = Reservation(port: int, expiresAt: Time)
  datatype Allocation = Allocation(owner: Owner, reservation: Reservation)

  const NO_RESERVATION := Reservation(0, 0)

  datatype Pool = Pool(available: seq<int>, inUse: map<int, Allocation>, reserved: map<ServiceKey, Reservation>)

  // ---------------------------------------------------------------- the operations on values

  function Ports(lo: int, hi: int): (s: seq<int>)
    ensures forall i :: 0 <= i < |s| ==> s[i] == lo + i
    ensures |s| == if lo <= hi then hi - lo + 1 else 0
  {
    seq(if lo <= hi then hi - lo + 1 else 0, i => lo + i)
  }

  /** newPortPool: an unusable range gives a pool without ports. */
  function NewPool(min: int, max: int): Pool {
    if min <= 0 || max <= 0 || min > max then Pool([], map[], map[])
    else Pool(Ports(min, max), map[], map[])
  }

  function Expired(p: Pool, now: Time): set<ServiceKey> {
    set k | k in p.reserved && now > p.reserved[k].expiresAt
  }

  function PortsOf(reserved: map<ServiceKey, Reservation>, order: seq<ServiceKey>): (r: seq<int>)
    requires forall i :: 0 <= i < |order| ==> order[i] in reserved
    ensures |r| == |order| && forall i :: 0 <= i < |r| ==> r[i] == reserved[order[i]].port
  {
    seq(|order|, i requires 0 <= i < |order| => reserved[order[i]].port)
  }

  /** Frees the given reservations, in the order the map was walked. */
  function FreeAll(p: Pool, order: seq<ServiceKey>): Pool
    requires forall i :: 0 <= i < |order| ==> order[i] in p.reserved
  {
    p.(reserved := p.reserved - (set k | k in order), available := p.available + PortsOf(p.reserved, order))
  }

  /** What allocate does after the clean-up. */
  function Take(p: Pool, owner: Owner): (Pool, Option<int>) {
    if owner.key in p.reserved then
      var res := p.reserved[owner.key];
      (p.(reserved := p.reserved - {owner.key}, inUse := p.inUse[res.port := Allocation(owner, res)]), Some(res.port))
    else if |p.available| == 0 then (p, None)
    else
      (p.(available := p.available[1..], inUse := p.inUse[p.available[0] := Allocation(owner, NO_RESERVATION)]),
       Some(p.available[0]))
  }

  function Allocate(p: Pool, owner: Owner, now: Time, order: seq<ServiceKey>): (Pool, Option<int>)
    requires Lists(order, Expired(p, now))
  {
    Take(FreeAll(p, order), owner)
  }

  predicate Owns(p: Pool, port: int, owner: Owner) {
    port in p.inUse && p.inUse[port].owner == owner
  }

  function Rollback(p: Pool, port: int, owner: Owner, now: Time): Pool {
    if !Owns(p, port, owner) then p
    else
      var p1, res := p.(inUse := p.inUse - {port}), p.inUse[port].reservation;
      if res.port != 0 && now < res.expiresAt && owner.key !in p.reserved
        then p1.(reserved := p.reserved[owner.key := res])
      else p1.(available := p.available + [port])
  }

  /** What release does before the clean-up. */
  function GiveBack(p: Pool, port: int, owner: Owner, until: Time): Pool {
    Pool(if owner.key in p.reserved then p.available + [p.reserved[owner.key].port] else p.available,
         p.inUse - {port}, p.reserved[owner.key := Reservation(port, until)])
  }

  function Release(p: Pool, port: int, owner: Owner, until: Time, now: Time, order: seq<ServiceKey>): Pool
    requires Lists(order, if Owns(p, port, owner) then Expired(GiveBack(p, port, owner, until), now) else {})
  {
    if !Owns(p, port, owner) then p else FreeAll(GiveBack(p, port, owner, until), order)
  }

  // ---------------------------------------------------------------- the pool

  class Allocator {
    var available: seq<int>
    var inUse: map<int, Allocation>
    var reserved: map<ServiceKey, Reservation>
    const grace: int

    ghost function View(): Pool reads this { Pool(available, inUse, reserved) }

    constructor (min: int, max: int, grace: int)
      ensures View() == NewPool(min, max) && this.grace == grace
    {
      this.grace := grace;
      inUse, reserved := map[], map[];
      available := [];
      new;
      if min <= 0 || max <= 0 || min > max {
        return;
      }
      var port := min;
      while port <= max
        invariant min <= port <= max + 1 && available == Ports(min, port - 1)
        invariant inUse == map[] && reserved == map[]
      {
        available := available + [port];
        port := port + 1;
      }
    }

    method CleanupExpired(now: Time) returns (ghost order: seq<ServiceKey>)
      modifies this`available, this`reserved
      ensures Lists(order, Expired(old(View()), now)) && View() == FreeAll(old(View()), order)
    {
      ghost var p := View();
      order := [];
      ghost var done: set<ServiceKey> := {};
      var todo := reserved.Keys;
      while todo != {}
        invariant todo <= p.reserved.Keys && done <= p.reserved.Keys - todo && Lists(order, done)
        invariant forall k :: k in p.reserved && k !in todo ==> (k in done <==> k in Expired(p, now))
        invariant View() == FreeAll(p, order)
        decreases |todo|
      {
        var key :| key in todo;
        todo := todo - {key};
        var res := reserved[key];
        if now > res.expiresAt {
          FreeOneMore(p, order, key);
          ListsOneMore(order, done, key);
          reserved := reserved - {key};
          available := available + [res.port];
          order, done := order + [key], done + {key};
        }
      }
      assert done == Expired(p, now);
    }

    method AllocatePort(owner: Owner, now: Time) returns (port: Option<int>, ghost order: seq<ServiceKey>)
      modifies this
      ensures Lists(order, Expired(old(View()), now)) && (View(), port) == Allocate(old(View()), owner, now, order)
    {
      order := CleanupExpired(now);
      if owner.key in reserved {
        var res := reserved[owner.key];
        reserved := reserved - {owner.key};
        inUse := inUse[res.port := Allocation(owner, res)];
        return Some(res.port), order;
      }
      if |available| == 0 {
        return None, order;
      }
      port := Some(available[0]);
      available := available[1..];
      inUse := inUse[port.value := Allocation(owner, NO_RESERVATION)];
    }

    method RollbackPort(port: int, owner: Owner, now: Time)
      modifies this
      ensures View() == Rollback(old(View()), port, owner, now)
    {
      if port !in inUse || inUse[port].owner != owner {
        return;
      }
      var res := inUse[port].reservation;
      inUse := inUse - {port};
      if res.port != 0 && now < res.expiresAt {
        if owner.key !in reserved {
          reserved := reserved[owner.key := res];
          return;
        }
      }
      available := available + [port];
    }

    /** `now` and `later` are the two clock readings of release. */
    method ReleasePort(port: int, owner: Owner, now: Time, later: Time) returns (ghost order: seq<ServiceKey>)
      modifies this
      ensures Lists(order, if Owns(old(View()), port, owner)
                           then Expired(GiveBack(old(View()), port, owner, now + grace), later) else {})
      ensures View() == Release(old(View()), port, owner, now + grace, later, order)
    {
      order := [];
      if port !in inUse || inUse[port].owner != owner {
        return;
      }
      inUse := inUse - {port};
      if owner.key in reserved {
        available := available + [reserved[owner.key].port];
      }
      reserved := reserved[owner.key := Reservation(port, now + grace)];
      order := CleanupExpired(later);
    }
  }

  lemma FreeOneMore(p: Pool, order: seq<ServiceKey>, k: ServiceKey)
    requires forall i :: 0 <= i < |order| ==> order[i] in p.reserved
    requires k in p.reserved && k !in order
    ensures var q := FreeAll(p, order);
            FreeAll(p, order + [k]) == q.(reserved := q.reserved - {k}, available := q.available + [p.reserved[k].port])
  {
    assert PortsOf(p.reserved, order + [k]) == PortsOf(p.reserved, order) + [p.reserved[k].port];
    assert (set x | x in order + [k]) == (set x | x in order) + {k};
  }

  // ---------------------------------------------------------------- partition

  ghost predicate Held(p: Pool, q: int) { exists k :: k in p.reserved && p.reserved[k].port == q }

  /** Free, in-use and held-back ports are exactly the range, each once. */
  ghost predicate Partition(p: Pool, lo: int, hi: int) {
    && Distinct(p.available)
    && (forall j, k :: j in p.reserved && k in p.reserved && j != k ==> p.reserved[j].port != p.reserved[k].port)
    && (forall i :: 0 <= i < |p.available| ==> p.available[i] !in p.inUse && lo <= p.available[i] <= hi)
    && (forall i, k :: 0 <= i < |p.available| && k in p.reserved ==> p.available[i] != p.reserved[k].port)
    && (forall k :: k in p.reserved ==> p.reserved[k].port !in p.inUse && lo <= p.reserved[k].port <= hi)
    && (forall q :: q in p.inUse ==> lo <= q <= hi)
    && (forall q :: lo <= q <= hi ==> q in p.available || q in p.inUse || Held(p, q))
  }

  /** A reclaimed port remembers the reservation it came from. */
  ghost predicate Remembers(p: Pool) {
    forall q :: q in p.inUse ==> p.inUse[q].reservation.port == 0 || p.inUse[q].reservation.port == q
  }
}
