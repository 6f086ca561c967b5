/** Connection bindings of portal/keyless/bindings.go: one-use tickets that a
    lease spends with the ClientHello pinned to them. */
module Bindings {
  import opened ClientHello
  import opened Identity

  /** SHA-256 as a free constructor: never the zero digest, no collisions. */
  datatype Digest = Zero | Sha(message: Bytes)

  datatype Entry = Entry(lease: string, expiresAt: Time, hello: Digest)
  type Entries = map<Bytes, Entry>

  datatype Result = Ok | SpanRequired | Unknown | Expired | AlreadyFixed
    | BindingSize | TranscriptRequired | UnknownOrExpired | WrongLease | NeverFixed | HelloMismatch

  // ---------------------------------------------------------------- the operations on values

  function DigestOf(hello: Bytes): Digest { if |hello| > 0 then Sha(hello) else Zero }

  function Issue(s: Entries, ttl: int, binding: Bytes, lease: string, hello: Bytes, now: Time): Entries {
    s[binding := Entry(lease, now + ttl, DigestOf(hello))]
  }

  function FixHello(s: Entries, binding: Bytes, hello: Bytes, now: Time): (Entries, Result) {
    if |hello| == 0 then (s, SpanRequired)
    else if binding !in s then (s, Unknown)
    else if !(now < s[binding].expiresAt) then (s, Expired)
    else if s[binding].hello != Zero then (s, AlreadyFixed)
    else (s[binding := s[binding].(hello := Sha(hello))], Ok)
  }

  function ValidateAndConsume(s: Entries, binding: Bytes, lease: string, hello: Bytes, now: Time): (Entries, Result) {
    if |binding| != 16 then (s, BindingSize)
    else if |hello| == 0 then (s, TranscriptRequired)
    else if binding !in s || !(now < s[binding].expiresAt) then (s, UnknownOrExpired)
    else if s[binding].lease != lease then (s, WrongLease)
    else if s[binding].hello == Zero then (s, NeverFixed)
    else if s[binding].hello != Sha(hello) then (s, HelloMismatch)
    else (s - {binding}, Ok)
  }

  function Sweep(s: Entries, now: Time): Entries {
    map b | b in s && now < s[b].expiresAt :: s[b]
  }

  // ---------------------------------------------------------------- the registry

  class BindingRegistry {
    var entries: Entries
    const ttl: int

    constructor (ttl: int)
      ensures entries == map[] && this.ttl == ttl
    {
      entries := map[];
      this.ttl := ttl;
    }

    /** `binding` is the ticket drawn at random. */
    method IssueBinding(binding: Bytes, lease: string, clientHello: Bytes, now: Time)
      modifies this
      ensures entries == Issue(old(entries), ttl, binding, lease, clientHello, now)
    {
      var helloHash := Zero;
      if |clientHello| > 0 {
        helloHash := Sha(clientHello);
      }
      entries := entries[binding := Entry(lease, now + ttl, helloHash)];
    }

    method Fix(binding: Bytes, clientHello: Bytes, now: Time) returns (r: Result)
      modifies this
      ensures (entries, r) == FixHello(old(entries), binding, clientHello, now)
    {
      if |clientHello| == 0 {
        return SpanRequired;
      }
      if binding !in entries {
        return Unknown;
      }
      var entry := entries[binding];
      if !(now < entry.expiresAt) {
        return Expired;
      }
      if entry.hello != Zero {
        return AlreadyFixed;
      }
      entries := entries[binding := entry.(hello := Sha(clientHello))];
      r := Ok;
    }

    method Validate(binding: Bytes, lease: string, clientHello: Bytes, now: Time) returns (r: Result)
      modifies this
      ensures (entries, r) == ValidateAndConsume(old(entries), binding, lease, clientHello, now)
    {
      if |binding| != 16 {
        return BindingSize;
      }
      if |clientHello| == 0 {
        return TranscriptRequired;
      }
      if binding !in entries || !(now < entries[binding].expiresAt) {
        return UnknownOrExpired;
      }
      var entry := entries[binding];
      if entry.lease != lease {
        return WrongLease;
      }
      if entry.hello == Zero {
        return NeverFixed;
      }
      if entry.hello != Sha(clientHello) {
        return HelloMismatch;
      }
      entries := entries - {binding};
      r := Ok;
    }

    method Discard(binding: Bytes)
      modifies this
      ensures entries == old(entries) - {binding}
    {
      entries := entries - {binding};
    }

    /** The map may be walked in any order. */
    method SweepExpired(now: Time)
      modifies this
      ensures entries == Sweep(old(entries), now)
    {
      var todo := entries.Keys;
      while todo != {}
        invariant todo <= old(entries).Keys
        invariant entries == map b | b in old(entries) && (b in todo || now < old(entries)[b].expiresAt) ::
                    old(entries)[b]
        decreases |todo|
      {
        var b :| b in todo;
        todo := todo - {b};
        if !(now < entries[b].expiresAt) {
          entries := entries - {b};
        }
      }
    }
  }

  // ---------------------------------------------------------------- whole runs

  datatype Event =
    | Issued(binding: Bytes, lease: string, hello: Bytes, now: Time)
    | Fixed(binding: Bytes, hello: Bytes, now: Time)
    | Validated(binding: Bytes, lease: string, hello: Bytes, now: Time)
    | Discarded(binding: Bytes)
    | Swept(now: Time)

  function Apply(s: Entries, ttl: int, e: Event): (Entries, Result) {
    match e
    case Issued(b, lease, hello, now) => (Issue(s, ttl, b, lease, hello, now), Ok)
    case Fixed(b, hello, now) => FixHello(s, b, hello, now)
    case Validated(b, lease, hello, now) => ValidateAndConsume(s, b, lease, hello, now)
    case Discarded(b) => (s - {b}, Ok)
    case Swept(now) => (Sweep(s, now), Ok)
  }

  /** The registry after the first n lock sections of a run, from empty. */
  function After(es: seq<Event>, ttl: int, n: nat): Entries
    requires n <= |es|
  {
    if n == 0 then map[] else Apply(After(es, ttl, n - 1), ttl, es[n - 1]).0
  }

  function Succeeds(es: seq<Event>, ttl: int, i: nat): bool
    requires i < |es|
  {
    Apply(After(es, ttl, i), ttl, es[i]).1 == Ok
  }

  /** Tickets are drawn fresh: no two Issue calls of a run return the same one. */
  ghost predicate FreshTickets(es: seq<Event>) {
    forall i, j :: 0 <= i < j < |es| && es[i].Issued? && es[j].Issued? ==> es[i].binding != es[j].binding
  }

  /** Lock section i writes the ClientHello pinned to ticket b. */
  ghost predicate Pins(es: seq<Event>, ttl: int, i: nat, b: Bytes)
    requires i < |es|
  {
    || (es[i].Issued? && es[i].binding == b && |es[i].hello| > 0)
    || (es[i].Fixed? && es[i].binding == b && Succeeds(es, ttl, i))
  }

  /** A live entry says what its Issue said, and what the one section that
      pinned it said. */
  lemma {:induction false} EntryHistory(es: seq<Event>, ttl: int, n: nat, b: Bytes) returns (k: nat, p: nat)
    requires FreshTickets(es) && n <= |es| && b in After(es, ttl, n)
    ensures k < n && es[k].Issued? && es[k].binding == b
    ensures After(es, ttl, n)[b].lease == es[k].lease && After(es, ttl, n)[b].expiresAt == es[k].now + ttl
    ensures After(es, ttl, n)[b].hello == Zero ==> forall i :: 0 <= i < n ==> !Pins(es, ttl, i, b)
    ensures After(es, ttl, n)[b].hello != Zero ==>
              && k <= p < n && Pins(es, ttl, p, b) && After(es, ttl, n)[b].hello == Sha(es[p].hello)
              && forall i :: 0 <= i < n && i != p ==> !Pins(es, ttl, i, b)
  {
    var e, before := es[n - 1], After(es, ttl, n - 1);
    if e.Issued? && e.binding == b {
      k, p := n - 1, n - 1;
      forall i | 0 <= i < n - 1 ensures !Pins(es, ttl, i, b) {
        if Pins(es, ttl, i, b) {
          FixNeedsIssue(es, ttl, i, b);
          assert false;
        }
      }
    } else {
      k, p := EntryHistory(es, ttl, n - 1, b);
      if e.Fixed? && e.binding == b && Succeeds(es, ttl, n - 1) {
        p := n - 1;
      }
    }
  }

  /** Only an issued ticket is ever pinned. */
  lemma FixNeedsIssue(es: seq<Event>, ttl: int, i: nat, b: Bytes)
    requires i < |es| && Pins(es, ttl, i, b)
    ensures exists k :: 0 <= k <= i && es[k].Issued? && es[k].binding == b
  {
    if es[i].Fixed? {
      LiveWasIssued(es, ttl, i, b);
    }
  }

  lemma {:induction false} LiveWasIssued(es: seq<Event>, ttl: int, n: nat, b: Bytes)
    requires n <= |es| && b in After(es, ttl, n)
    ensures exists k :: 0 <= k < n && es[k].Issued? && es[k].binding == b
  {
    if !(es[n - 1].Issued? && es[n - 1].binding == b) {
      LiveWasIssued(es, ttl, n - 1, b);
    }
  }

  /** A ticket that has been issued and is gone never returns. */
  lemma {:induction false} SpentStaysSpent(es: seq<Event>, ttl: int, k: nat, i: nat, j: nat)
    requires FreshTickets(es) && k < i <= j <= |es|
    requires es[k].Issued? && es[k].binding !in After(es, ttl, i)
    ensures es[k].binding !in After(es, ttl, j)
  {
    if i < j {
      SpentStaysSpent(es, ttl, k, i, j - 1);
      assert es[j - 1].Issued? ==> es[j - 1].binding != es[k].binding;
    }
  }

  /** The ClientHello of a ticket is written at most once in a run. */
  lemma PinnedAtMostOnce(es: seq<Event>, ttl: int, i: nat, j: nat, b: Bytes)
    requires FreshTickets(es) && i < j < |es| && Pins(es, ttl, i, b)
    ensures !Pins(es, ttl, j, b)
  {
    FixNeedsIssue(es, ttl, i, b);
    if es[j].Fixed? && es[j].binding == b && b in After(es, ttl, j) {
      var k, p := EntryHistory(es, ttl, j, b);
    }
  }

  /** Every successful validation spends a ticket issued to that lease, before
      it expired, with exactly the ClientHello the ticket was pinned to. */
  lemma ValidationIsBacked(es: seq<Event>, ttl: int, i: nat) returns (k: nat, p: nat)
    requires FreshTickets(es) && i < |es| && es[i].Validated? && Succeeds(es, ttl, i)
    ensures k <= p < i && es[k].Issued? && es[k].binding == es[i].binding && es[k].lease == es[i].lease
    ensures es[i].now < es[k].now + ttl
    ensures Pins(es, ttl, p, es[i].binding) && es[p].hello == es[i].hello
  {
    k, p := EntryHistory(es, ttl, i, es[i].binding);
  }

  /** And it spends it for good. */
  lemma ValidatedAtMostOnce(es: seq<Event>, ttl: int, i: nat, j: nat)
    requires FreshTickets(es) && i < j < |es|
    requires es[i].Validated? && Succeeds(es, ttl, i)
    requires es[j].Validated? && es[j].binding == es[i].binding
    ensures !Succeeds(es, ttl, j)
  {
    var k, p := EntryHistory(es, ttl, i, es[i].binding);
    SpentStaysSpent(es, ttl, k, i + 1, j);
  }
}
