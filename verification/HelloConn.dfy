/** helloFixingConn of portal/keyless/bindings.go: a connection that pins its
    binding to the first ClientHello before it forwards the write that
    completes it. */
module HelloConn {
  import opened Identity
  import opened ClientHello
  import opened Bindings

  /** An error of the wrapped connection. */
  type IOError = string

  /** What Write returns: a count, and the error that goes with it. */
  datatype WriteResult =
    | CaptureFailed(n: nat, error: Error)
    | FixFailed(reason: Result)
    | Wrote(n: nat, err: Option<IOError>)

  /** The connection: its capture, whether the binding is fixed, and, for the
      statements below, every byte forwarded so far and the ClientHello pinned. */
  datatype Conn = Conn(capture: Capture, fixed: bool, sent: Bytes, pinned: Bytes)

  const FRESH := Conn(EMPTY, false, [], [])

  /** One Write of p, of which the wrapped connection accepts the first n bytes,
      with the error it reports. */
  function Write(c: Conn, s: Entries, binding: Bytes, p: Bytes, n: nat, err: Option<IOError>, now: Time)
    : (Conn, Entries, WriteResult)
    requires Open(c.capture) && n <= |p|
  {
    if c.fixed then (c.(sent := c.sent + p[..n]), s, Wrote(n, err))
    else
      match Add(c.capture, p).1
      case Fail(e) => (c, s, CaptureFailed(0, e))
      case Complete(hello) =>
        var (s', r) := FixHello(s, binding, hello, now);
        if r != Ok then (c, s', FixFailed(r))
        else (c.(fixed := true, pinned := hello, sent := c.sent + p[..n]), s', Wrote(n, err))
      case More =>
        var (capture, outcome) := Add(c.capture, p[..n]);
        (c.(capture := if n > 0 then capture else c.capture, sent := c.sent + p[..n]), s,
         if n > 0 && outcome.Fail? then CaptureFailed(n, outcome.error) else Wrote(n, err))
  }

  /** Until the binding is fixed, the capture is what parsing the forwarded
      bytes in one go gives, and it has not ended. */
  ghost predicate Inv(c: Conn) {
    && Open(c.capture)
    && (!c.fixed ==> Drain(Capture(c.sent, [], 0)) == (c.capture, More))
    && (c.fixed ==> |c.pinned| > 0)
  }

  /** Parsing resumes: what the capture makes of p is what one parse of
      everything forwarded, with p after it, makes of it. */
  lemma CaptureResumes(c: Conn, p: Bytes)
    requires Inv(c) && !c.fixed
    ensures Add(c.capture, p).1 == Reference(c.sent + p)
    ensures Add(c.capture, p).1 == More ==> Drain(Capture(c.sent + p, [], 0)) == Add(c.capture, p)
  {
    DrainThenAppend(Capture(c.sent, [], 0), p);
    DrainFromEmpty(c.sent + p);
  }

  /** A capture that does not end on p does not end on part of p. */
  lemma ShortWriteDoesNotEnd(c: Capture, p: Bytes, n: nat)
    requires Open(c) && n <= |p| && Add(c, p).1 == More
    ensures Add(c, p[..n]).1 == More
  {
    var buffered := c.(pending := c.pending + p[..n]);
    assert (c.pending + p[..n]) + p[n..] == c.pending + p;
    DrainThenAppend(buffered, p[n..]);
  }

  /** Write keeps the invariant; the second capture never fails; the pin is
      taken from the ClientHello of the forwarded bytes with p after them, and
      from nothing else. */
  lemma WriteKeepsInv(c: Conn, s: Entries, binding: Bytes, p: Bytes, n: nat, err: Option<IOError>, now: Time)
    requires Inv(c) && n <= |p|
    ensures var (c', s', r) := Write(c, s, binding, p, n, err, now);
            && Inv(c')
            && (r.CaptureFailed? ==>
                  c' == c && s' == s && !c.fixed && r.n == 0 && Reference(c.sent + p) == Fail(r.error))
            && (r.Wrote? ==> r == Wrote(n, err) && c'.sent == c.sent + p[..n])
            && (!r.Wrote? ==> c' == c)
            && (c'.fixed && !c.fixed ==>
                  && Reference(c.sent + p) == Complete(c'.pinned)
                  && FixHello(s, binding, c'.pinned, now) == (s', Ok) && r.Wrote?)
            && (!(c'.fixed && !c.fixed) ==> s' == s)
  {
    if !c.fixed {
      CaptureResumes(c, p);
      if Add(c.capture, p).1 == More {
        ShortWriteDoesNotEnd(c.capture, p, n);
        CaptureResumes(c, p[..n]);
        DrainStaysOpen(Capture(c.sent + p[..n], [], 0));
        if n == 0 { assert c.sent + p[..0] == c.sent; }
      } else if Add(c.capture, p).1.Complete? {
        CompleteIsNotEmpty(c.sent + p);
      }
    }
  }

  lemma CompleteIsNotEmpty(s: Bytes)
    requires Reference(s).Complete?
    ensures |Reference(s).hello| > 4
  {
  }

  // ---------------------------------------------------------------- whole runs

  /** One Write call, with the registry as it then is and what the wrapped
      connection makes of it. */
  datatype Call = Call(p: Bytes, n: nat, err: Option<IOError>, entries: Entries, now: Time)

  /** Call k takes the connection from c to c'. */
  ghost predicate Takes(c: Conn, k: Call, binding: Bytes, c': Conn) {
    Open(c.capture) && k.n <= |k.p| && c' == Write(c, k.entries, binding, k.p, k.n, k.err, k.now).0
  }

  /** The connection before and after each call of a run. Between calls the
      registry may have changed in any way, so each call brings its own. */
  ghost predicate Run(cs: seq<Call>, binding: Bytes, conns: seq<Conn>) {
    && |conns| == |cs| + 1 && conns[0] == FRESH
    && forall i :: 0 <= i < |cs| ==> Takes(conns[i], cs[i], binding, conns[i + 1])
  }

  lemma TakesKeepsInv(c: Conn, k: Call, binding: Bytes, c': Conn)
    requires Inv(c) && Takes(c, k, binding, c')
    ensures Inv(c')
  {
    WriteKeepsInv(c, k.entries, binding, k.p, k.n, k.err, k.now);
  }

  lemma {:induction false} RunKeepsInv(cs: seq<Call>, binding: Bytes, conns: seq<Conn>, n: nat)
    requires Run(cs, binding, conns) && n <= |cs|
    ensures Inv(conns[n])
  {
    if n > 0 {
      RunKeepsInv(cs, binding, conns, n - 1);
      TakesKeepsInv(conns[n - 1], cs[n - 1], binding, conns[n]);
    }
  }

  /** In no run does a forwarded byte complete a ClientHello before the binding
      is fixed. */
  lemma HelloIsForwardedOnlyAfterPinning(cs: seq<Call>, binding: Bytes, conns: seq<Conn>, n: nat)
    requires Run(cs, binding, conns) && n <= |cs| && Reference(conns[n].sent) != More
    ensures conns[n].fixed
  {
    RunKeepsInv(cs, binding, conns, n);
    DrainFromEmpty(conns[n].sent);
  }

  /** A stream that has ended the capture keeps its outcome when it grows. */
  lemma ReferenceIsStable(s: Bytes, p: Bytes)
    requires Reference(s) != More
    ensures Reference(s + p) == Reference(s)
  {
    DrainThenAppend(Capture(s, [], 0), p);
    DrainFromEmpty(s);
    DrainFromEmpty(s + p);
  }

  /** Everything forwarded carries exactly the pinned ClientHello. */
  ghost predicate ForwardsPinned(c: Conn) {
    c.fixed && Reference(c.sent) == Complete(c.pinned)
  }

  /** Right after the write that fixed the binding: the forwarded bytes carry the
      pinned ClientHello exactly when they end the capture, that is when the
      wrapped connection accepted the whole record with the last byte of it. */
  lemma FixingWriteForwardsExactly(c: Conn, k: Call, binding: Bytes, c': Conn)
    requires Inv(c) && Takes(c, k, binding, c') && !c.fixed && c'.fixed
    ensures ForwardsPinned(c') <==> Reference(c.sent + k.p[..k.n]) != More
  {
    WriteKeepsInv(c, k.entries, binding, k.p, k.n, k.err, k.now);
    if Reference(c.sent + k.p[..k.n]) != More {
      ReferenceIsStable(c.sent + k.p[..k.n], k.p[k.n..]);
      assert (c.sent + k.p[..k.n]) + k.p[k.n..] == c.sent + k.p;
    }
  }

  lemma LaterWriteKeepsPin(c: Conn, k: Call, binding: Bytes, c': Conn)
    requires ForwardsPinned(c) && Takes(c, k, binding, c')
    ensures ForwardsPinned(c') && c'.pinned == c.pinned
  {
    ReferenceIsStable(c.sent, k.p[..k.n]);
  }

  /** Over any run of writes, short ones included: when the part accepted of the
      write that fixed the binding ended the capture, everything forwarded since
      then carries exactly the pinned ClientHello. */
  lemma {:induction false} ForwardedHelloIsThePinnedOne(cs: seq<Call>, binding: Bytes, conns: seq<Conn>, i: nat, n: nat)
    requires Run(cs, binding, conns) && i < n <= |cs|
    requires !conns[i].fixed && conns[i + 1].fixed && Reference(conns[i + 1].sent) != More
    ensures ForwardsPinned(conns[n]) && conns[n].pinned == conns[i + 1].pinned
  {
    if n == i + 1 {
      RunKeepsInv(cs, binding, conns, i);
      FixingWriteForwardsExactly(conns[i], cs[i], binding, conns[n]);
    } else {
      ForwardedHelloIsThePinnedOne(cs, binding, conns, i, n - 1);
      LaterWriteKeepsPin(conns[n - 1], cs[n - 1], binding, conns[n]);
    }
  }

  /** After a short fixing write it is up to the caller: as long as the bytes it
      did not get through are sent next, no other ClientHello goes out. */
  lemma ResentHelloIsThePinnedOne(cs: seq<Call>, binding: Bytes, conns: seq<Conn>, i: nat, n: nat)
    requires Run(cs, binding, conns) && i < n <= |cs| && !conns[i].fixed && conns[i + 1].fixed
    requires conns[n].sent <= conns[i].sent + cs[i].p || conns[i].sent + cs[i].p <= conns[n].sent
    ensures Reference(conns[n].sent) == More || Reference(conns[n].sent) == Complete(conns[i + 1].pinned)
  {
    RunKeepsInv(cs, binding, conns, i);
    WriteKeepsInv(conns[i], cs[i].entries, binding, cs[i].p, cs[i].n, cs[i].err, cs[i].now);
    OnTheWay(conns[i].sent + cs[i].p, conns[n].sent);
  }

  /** Along one stream there is one outcome. */
  lemma OnTheWay(whole: Bytes, sent: Bytes)
    requires Reference(whole) != More && (sent <= whole || whole <= sent)
    ensures Reference(sent) == More || Reference(sent) == Reference(whole)
  {
    if whole <= sent {
      ReferenceIsStable(whole, sent[|whole|..]);
      assert whole + sent[|whole|..] == sent;
    } else if Reference(sent) != More {
      ReferenceIsStable(sent, whole[|sent|..]);
      assert sent + whole[|sent|..] == whole;
    }
  }

  /** Otherwise another one can: for every ClientHello that fits one record, a
      write that gets all but its last byte through fixes the binding, and a
      different last byte written next is forwarded unexamined. */
  lemma ShortFixingWriteForwardsAnother(hello: Bytes, x: Byte, binding: Bytes, s: Entries, now: Time)
    returns (cs: seq<Call>, conns: seq<Conn>)
    requires IsHello(hello) && |hello| <= MAX_RECORD && x != hello[|hello| - 1]
    requires binding in s && now < s[binding].expiresAt && s[binding].hello == Zero
    ensures Run(cs, binding, conns) && |cs| == 2 && !conns[0].fixed && conns[1].fixed && conns[2].pinned == hello
    ensures Reference(conns[2].sent) == Complete(hello[|hello| - 1 := x])
  {
    var p := EncodeRecord((3, 1), hello);
    var n := |p| - 1;
    var other := hello[|hello| - 1 := x];
    OneRecordIsRead(hello);
    OneRecordIsRead(other);
    assert p[..n] + [x] == EncodeRecord((3, 1), other);
    var c1 := FRESH.(fixed := true, pinned := hello, sent := p[..n]);
    var c2 := c1.(sent := p[..n] + [x]);
    cs, conns := [Call(p, n, None, s, now), Call([x], 1, None, s, now)], [FRESH, c1, c2];
    FixingWrite(hello, p, n, binding, s, now);
    assert [x][..1] == [x];
    assert Takes(conns[1], cs[1], binding, conns[2]);
  }

  lemma FixingWrite(hello: Bytes, p: Bytes, n: nat, binding: Bytes, s: Entries, now: Time)
    requires Reference(p) == Complete(hello) && |hello| > 0 && n <= |p|
    requires binding in s && now < s[binding].expiresAt && s[binding].hello == Zero
    ensures Takes(FRESH, Call(p, n, None, s, now), binding, FRESH.(fixed := true, pinned := hello, sent := p[..n]))
  {
    assert FRESH.sent + p == p && FRESH.sent + p[..n] == p[..n] && Inv(FRESH);
    CaptureResumes(FRESH, p);
  }

  lemma OneRecordIsRead(hello: Bytes)
    requires IsHello(hello) && |hello| <= MAX_RECORD
    ensures Reference(EncodeRecord((3, 1), hello)) == Complete(hello)
  {
    assert EncodeAll([(3, 1)], [hello]) == EncodeRecord((3, 1), hello) + EncodeAll([], []);
    assert EncodeRecord((3, 1), hello) + [] == EncodeRecord((3, 1), hello);
    assert Concat([hello]) == hello + Concat([]) && hello + [] == hello;
    assert [hello][..0] == [];
    FragmentedHelloIsCaptured([(3, 1)], [hello], hello, EncodeRecord((3, 1), hello));
  }

  // ---------------------------------------------------------------- the connection and the registry

  /** The calls of one connection within a run of the registry: call j sees the
      registry before section at[j], and the call that fixes the binding is that
      section. */
  ghost predicate Within(cs: seq<Call>, binding: Bytes, conns: seq<Conn>, es: seq<Event>, ttl: int, at: seq<nat>) {
    && Run(cs, binding, conns) && |at| == |cs|
    && forall j :: 0 <= j < |cs| ==> at[j] < |es| && cs[j].entries == After(es, ttl, at[j])
                                     && (conns[j + 1].fixed && !conns[j].fixed ==>
                                           es[at[j]] == Fixed(binding, conns[j + 1].pinned, cs[j].now))
  }

  /** A ticket fixed by a connection is pinned by that section and no other. */
  lemma ConnectionPins(cs: seq<Call>, binding: Bytes, conns: seq<Conn>, es: seq<Event>, ttl: int, at: seq<nat>, j: nat)
    requires Within(cs, binding, conns, es, ttl, at) && j < |cs| && !conns[j].fixed && conns[j + 1].fixed
    ensures Pins(es, ttl, at[j], binding) && es[at[j]].hello == conns[j + 1].pinned
  {
    RunKeepsInv(cs, binding, conns, j);
    WriteKeepsInv(conns[j], cs[j].entries, binding, cs[j].p, cs[j].n, cs[j].err, cs[j].now);
  }

  /** Every successful validation of a ticket that a connection fixed carries the
      ClientHello pinned there; and, when the fixing write ended the capture, the
      one ClientHello that connection forwards, then and later. */
  lemma ValidatedHelloWasForwarded(cs: seq<Call>, binding: Bytes, conns: seq<Conn>, es: seq<Event>, ttl: int,
                                   at: seq<nat>,
                                   j: nat, i: nat, n: nat)
    requires FreshTickets(es) && Within(cs, binding, conns, es, ttl, at)
    requires j < n <= |cs| && !conns[j].fixed && conns[j + 1].fixed
    requires i < |es| && es[i].Validated? && es[i].binding == binding && Succeeds(es, ttl, i)
    ensures es[i].hello == conns[j + 1].pinned
    ensures Reference(conns[j + 1].sent) != More ==> Reference(conns[n].sent) == Complete(es[i].hello)
  {
    ConnectionPins(cs, binding, conns, es, ttl, at, j);
    var k, p := ValidationIsBacked(es, ttl, i);
    if p < at[j] {
      PinnedAtMostOnce(es, ttl, p, at[j], binding);
    } else if at[j] < p {
      PinnedAtMostOnce(es, ttl, at[j], p, binding);
    }
    if Reference(conns[j + 1].sent) != More {
      ForwardedHelloIsThePinnedOne(cs, binding, conns, j, n);
    }
  }

  // ---------------------------------------------------------------- the connection object

  class HelloFixingConn {
    var capture: Accumulator
    var fixed: bool
    const bindings: BindingRegistry
    const binding: Bytes
    ghost var sent: Bytes
    ghost var pinned: Bytes

    ghost function View(): Conn reads this, capture { Conn(capture.View(), fixed, sent, pinned) }

    constructor (bindings: BindingRegistry, binding: Bytes)
      ensures View() == FRESH && fresh(capture)
      ensures this.bindings == bindings && this.binding == binding
    {
      capture := new Accumulator();
      fixed := false;
      this.bindings := bindings;
      this.binding := binding;
      sent, pinned := [], [];
    }

    /** The wrapped connection accepts the first n bytes of what it is given and
        reports err. */
    method WriteBytes(p: Bytes, n: nat, err: Option<IOError>, now: Time) returns (r: WriteResult)
      requires Open(capture.View()) && n <= |p|
      modifies this, capture, bindings
      ensures capture == old(capture)
      ensures (View(), bindings.entries, r) == Write(old(View()), old(bindings.entries), binding, p, n, err, now)
    {
      if fixed {
        sent := sent + p[..n];
        return Wrote(n, err);
      }
      var preview := new Accumulator();
      preview.pending, preview.hello, preview.expected := capture.pending, capture.hello, capture.expected;
      var outcome := preview.AddBytes(p);
      if outcome.Fail? {
        return CaptureFailed(0, outcome.error);
      }
      if outcome.Complete? {
        var fix := bindings.Fix(binding, outcome.hello, now);
        if fix != Ok {
          return FixFailed(fix);
        }
        fixed := true;
        pinned := outcome.hello;
        sent := sent + p[..n];
        return Wrote(n, err);
      }
      sent := sent + p[..n];
      if n > 0 {
        var captured := capture.AddBytes(p[..n]);
        if captured.Fail? {
          return CaptureFailed(n, captured.error);
        }
      }
      r := Wrote(n, err);
    }
  }
}
