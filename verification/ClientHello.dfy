/** ClientHello capture of portal/keyless/bindings.go: an incremental parser of
    TLS handshake records, and a one-shot reference over the whole stream. */
module ClientHello {

  type Byte = b: int | 0 <= b < 256
  type Bytes = seq<Byte>

  const HEADER := 5
  const HANDSHAKE := 22
  const CLIENT_HELLO := 1
  const MAX_RECORD := 16384
  const MAX_HELLO := 131072

  datatype Error = NonHandshakeRecord | InvalidRecordLength | NotClientHello | InvalidHelloLength | RecordExceedsLimit
  datatype Outcome = More | Complete(hello: Bytes) | Fail(error: Error)

  /** The fields of clientHelloAccumulator. */
  datatype Capture = Capture(pending: Bytes, hello: Bytes, expected: nat)

  const EMPTY := Capture([], [], 0)

  // ---------------------------------------------------------------- one record at a time

  function RecordLength(s: Bytes): nat requires |s| >= HEADER { s[3] as int * 256 + s[4] }
  function MessageLength(h: Bytes): nat requires |h| >= 4 { h[1] as int * 65536 + h[2] as int * 256 + h[3] }

  /** What the record header at the front of s says, before its body is needed. */
  function HeaderOutcome(s: Bytes): Outcome
    requires |s| >= HEADER
  {
    if s[0] != HANDSHAKE then Fail(NonHandshakeRecord)
    else if RecordLength(s) == 0 || RecordLength(s) > MAX_RECORD then Fail(InvalidRecordLength)
    else More
  }

  function Min(a: nat, b: nat): nat { if a <= b then a else b }

  /** Feeds one record body to the message being assembled. */
  function TakeBody(hello: Bytes, expected: nat, body: Bytes): (Bytes, nat, Outcome)
    requires expected == 0 ==> |hello| <= 4
    requires expected > 0 ==> |hello| <= expected
  {
    if expected == 0 && |hello| < 4 then
      var need := Min(4 - |hello|, |body|);
      var start := hello + body[..need];
      if |start| < 4 then (start, 0, More)
      else if start[0] != CLIENT_HELLO then (start, 0, Fail(NotClientHello))
      else
        var wanted := 4 + MessageLength(start);
        if MessageLength(start) == 0 || wanted > MAX_HELLO then (start, wanted, Fail(InvalidHelloLength))
        else TakeRest(start, wanted, body[need..])
    else if expected > 0 then TakeRest(hello, expected, body)
    else (hello, expected, More)
  }

  function TakeRest(hello: Bytes, expected: nat, body: Bytes): (Bytes, nat, Outcome)
    requires |hello| <= expected
  {
    var all := hello + body[..Min(expected - |hello|, |body|)];
    (all, expected, if |all| == expected then Complete(all) else More)
  }

  /** The states the accumulator is in between records: fewer than four bytes
      and no length yet, or a known length not yet reached. */
  ghost predicate Assembling(hello: Bytes, expected: nat) {
    if expected == 0 then |hello| < 4
    else |hello| >= 4 && hello[0] == CLIENT_HELLO && expected == 4 + MessageLength(hello)
         && 4 < expected <= MAX_HELLO && |hello| < expected
  }

  /** A capture that has not ended. */
  ghost predicate Open(c: Capture) { Assembling(c.hello, c.expected) }

  predicate HasRecord(s: Bytes) {
    |s| >= HEADER && HeaderOutcome(s) == More && |s| >= HEADER + RecordLength(s)
  }

  function Body(s: Bytes): Bytes requires HasRecord(s) { s[HEADER..HEADER + RecordLength(s)] }
  function Tail(s: Bytes): (t: Bytes) requires HasRecord(s) { s[HEADER + RecordLength(s)..] }

  /** What the bytes left over when no whole record is buffered say. */
  function Leftover(s: Bytes): Outcome {
    if |s| >= HEADER then HeaderOutcome(s) else More
  }

  /** Consumes the record at the front. */
  function Consume(c: Capture): (Capture, Outcome)
    requires HasRecord(c.pending) && Open(c)
  {
    var (hello, expected, outcome) := TakeBody(c.hello, c.expected, Body(c.pending));
    (Capture(Tail(c.pending), hello, expected), outcome)
  }

  lemma ConsumeStaysOpen(c: Capture)
    requires HasRecord(c.pending) && Open(c)
    ensures Consume(c).1 == More ==> Open(Consume(c).0)
  {
    TakeBodyKeepsAssembling(c.hello, c.expected, Body(c.pending));
  }

  /** The loop of add: consume whole records while they last. */
  function Drain(c: Capture): (Capture, Outcome)
    requires Open(c)
    decreases |c.pending|
  {
    if !HasRecord(c.pending) then (c, Leftover(c.pending))
    else
      var (next, outcome) := Consume(c);
      if outcome != More then (next, outcome)
      else
        ConsumeStaysOpen(c);
        Drain(next)
  }

  lemma TakeBodyKeepsAssembling(hello: Bytes, expected: nat, body: Bytes)
    requires Assembling(hello, expected)
    ensures var (h, e, o) := TakeBody(hello, expected, body);
            o == More ==> Assembling(h, e)
  {
  }

  function Add(c: Capture, p: Bytes): (Capture, Outcome)
    requires Open(c)
  {
    Drain(c.(pending := c.pending + p))
  }

  // ---------------------------------------------------------------- the accumulator

  class Accumulator {
    var pending: Bytes
    var hello: Bytes
    var expected: nat

    ghost function View(): Capture reads this { Capture(pending, hello, expected) }

    constructor ()
      ensures View() == EMPTY
    {
      pending, hello, expected := [], [], 0;
    }

    /** The part of add that assembles the message from one record body. */
    method Assemble(whole: Bytes) returns (outcome: Outcome)
      requires Assembling(hello, expected)
      modifies this`hello, this`expected
      ensures (hello, expected, outcome) == TakeBody(old(hello), old(expected), whole)
    {
      var body := whole;
      if expected == 0 && |hello| < 4 {
        var need := Min(4 - |hello|, |body|);
        hello := hello + body[..need];
        body := body[need..];
        if |hello| == 4 {
          if hello[0] != CLIENT_HELLO {
            return Fail(NotClientHello);
          }
          var messageLen := hello[1] as int * 65536 + hello[2] as int * 256 + hello[3];
          expected := 4 + messageLen;
          if messageLen == 0 || expected > MAX_HELLO {
            return Fail(InvalidHelloLength);
          }
        }
      }
      if expected > 0 {
        var need := Min(expected - |hello|, |body|);
        hello := hello + body[..need];
        if |hello| == expected {
          return Complete(hello);
        }
      }
      outcome := More;
    }

    /** clientHelloAccumulator.add. */
    method AddBytes(p: Bytes) returns (outcome: Outcome)
      requires Assembling(hello, expected)
      modifies this
      ensures (View(), outcome) == Add(old(View()), p)
    {
      pending := pending + p;
      ghost var start := View();
      while |pending| >= HEADER
        invariant Open(View())
        invariant Drain(View()) == Drain(start)
        decreases |pending|
      {
        if pending[0] != HANDSHAKE {
          return Fail(NonHandshakeRecord);
        }
        var recordLen := pending[3] as int * 256 + pending[4];
        if recordLen == 0 || recordLen > MAX_RECORD {
          return Fail(InvalidRecordLength);
        }
        if |pending| < HEADER + recordLen {
          return More;
        }
        ConsumeStaysOpen(View());
        ghost var before := View();
        var body := pending[HEADER..HEADER + recordLen];
        pending := pending[HEADER + recordLen..];
        outcome := Assemble(body);
        assert (View(), outcome) == Consume(before);
        if outcome != More {
          return;
        }
      }
      if |pending| > MAX_RECORD + HEADER {
        return Fail(RecordExceedsLimit);
      }
      outcome := More;
    }
  }

  // ---------------------------------------------------------------- the one-shot reference

  /** The bodies of the leading complete, well-formed handshake records. */
  function Payload(s: Bytes): Bytes
    decreases |s|
  {
    if HasRecord(s) then Body(s) + Payload(Tail(s)) else []
  }

  /** What follows those records. */
  function Remainder(s: Bytes): Bytes
    decreases |s|
  {
    if HasRecord(s) then Remainder(Tail(s)) else s
  }

  /** The outcome read off the message bytes alone. */
  function MessageOutcome(m: Bytes): Outcome {
    if |m| < 4 then More
    else if m[0] != CLIENT_HELLO then Fail(NotClientHello)
    else if MessageLength(m) == 0 || 4 + MessageLength(m) > MAX_HELLO then Fail(InvalidHelloLength)
    else if |m| < 4 + MessageLength(m) then More
    else Complete(m[..4 + MessageLength(m)])
  }

  /** The message bytes decide first, then the header of the record that
      stopped them. */
  function Decide(message: Bytes, rest: Bytes): Outcome {
    if MessageOutcome(message) != More then MessageOutcome(message) else Leftover(rest)
  }

  /** The outcome of a whole stream. */
  function Reference(s: Bytes): Outcome {
    Decide(Payload(s), Remainder(s))
  }

  /** The message bytes decide the same way when more follow, once they decide. */
  lemma MessageOutcomeIsStable(m: Bytes, more: Bytes)
    requires MessageOutcome(m) != More
    ensures MessageOutcome(m + more) == MessageOutcome(m)
  {
    if MessageOutcome(m).Complete? {
      assert (m + more)[..4 + MessageLength(m)] == m[..4 + MessageLength(m)];
    }
  }

  /** TakeBody decides what the message bytes so far, with the body appended, decide. */
  lemma TakeBodyDecides(hello: Bytes, expected: nat, body: Bytes)
    requires Assembling(hello, expected)
    ensures var (h, e, o) := TakeBody(hello, expected, body);
            o == MessageOutcome(hello + body) && (o == More ==> h == hello + body)
  {
    var m := hello + body;
    if expected == 0 {
      var need := Min(4 - |hello|, |body|);
      var start := hello + body[..need];
      assert start == m[..|start|];
      if |start| == 4 {
        assert start + body[need..] == m;
        if start[0] == CLIENT_HELLO && MessageLength(start) != 0 && 4 + MessageLength(start) <= MAX_HELLO {
          TakeRestDecides(start, 4 + MessageLength(start), body[need..]);
        }
      }
    } else {
      TakeRestDecides(hello, expected, body);
    }
  }

  lemma TakeRestDecides(hello: Bytes, expected: nat, body: Bytes)
    requires |hello| >= 4 && hello[0] == CLIENT_HELLO && expected == 4 + MessageLength(hello)
    requires 4 < expected <= MAX_HELLO && |hello| <= expected
    ensures var (h, e, o) := TakeRest(hello, expected, body);
            o == MessageOutcome(hello + body) && (o == More ==> h == hello + body)
  {
    var m := hello + body;
    assert MessageLength(m) == MessageLength(hello);
    var need := Min(expected - |hello|, |body|);
    assert hello + body[..need] == m[..|hello| + need];
  }

  lemma ConsumeDecides(c: Capture)
    requires HasRecord(c.pending) && Open(c)
    ensures Consume(c).1 == MessageOutcome(c.hello + Body(c.pending))
    ensures Consume(c).1 == More ==>
              && Consume(c).0.hello == c.hello + Body(c.pending)
              && Consume(c).0.pending == Tail(c.pending) && Open(Consume(c).0)
  {
    TakeBodyDecides(c.hello, c.expected, Body(c.pending));
    ConsumeStaysOpen(c);
  }

  /** The incremental parser agrees with the reference, from any state it can
      be in: `hello` counts as message bytes already seen. */
  lemma {:induction false} DrainMeetsReference(c: Capture)
    requires Open(c)
    ensures Drain(c).1 == Decide(c.hello + Payload(c.pending), Remainder(c.pending))
    decreases |c.pending|
  {
    if !HasRecord(c.pending) {
      AssemblingWaits(c.hello, c.expected);
      assert c.hello + [] == c.hello;
    } else {
      ConsumeDecides(c);
      var body, tail := Body(c.pending), Tail(c.pending);
      assert c.hello + (body + Payload(tail)) == (c.hello + body) + Payload(tail);
      if Consume(c).1 != More {
        MessageOutcomeIsStable(c.hello + body, Payload(tail));
      } else {
        DrainMeetsReference(Consume(c).0);
      }
    }
  }

  /** From a fresh accumulator: one call with the whole stream. */
  lemma DrainFromEmpty(s: Bytes)
    ensures Drain(Capture(s, [], 0)).1 == Reference(s)
  {
    DrainMeetsReference(Capture(s, [], 0));
    assert [] + Payload(s) == Payload(s);
  }

  lemma AssemblingWaits(hello: Bytes, expected: nat)
    requires Assembling(hello, expected)
    ensures MessageOutcome(hello) == More
  {
  }

  // ---------------------------------------------------------------- chunking

  /** Feeds the chunks in order until one call ends the capture. */
  function Feed(c: Capture, chunks: seq<Bytes>): (Capture, Outcome)
    requires Open(c)
    decreases |chunks|
  {
    if chunks == [] then (c, More)
    else
      var (next, outcome) := Add(c, chunks[0]);
      if outcome != More then (next, outcome)
      else
        DrainStaysOpen(c.(pending := c.pending + chunks[0]));
        Feed(next, chunks[1..])
  }

  function Concat(chunks: seq<Bytes>): Bytes {
    if chunks == [] then [] else chunks[0] + Concat(chunks[1..])
  }

  lemma {:induction false} DrainStaysOpen(c: Capture)
    requires Open(c)
    ensures Drain(c).1 == More ==> Open(Drain(c).0) && Drain(Drain(c).0) == Drain(c)
    decreases |c.pending|
  {
    if HasRecord(c.pending) && Consume(c).1 == More {
      ConsumeStaysOpen(c);
      DrainStaysOpen(Consume(c).0);
    }
  }

  /** A buffered record is read the same way when more bytes follow. */
  lemma RecordIsStable(s: Bytes, p: Bytes)
    requires HasRecord(s)
    ensures HasRecord(s + p) && Body(s + p) == Body(s) && Tail(s + p) == Tail(s) + p
  {
  }

  /** More bytes can be buffered before draining or after: nothing changes,
      and once the capture has ended later bytes no longer matter. */
  lemma {:induction false} DrainThenAppend(c: Capture, p: Bytes)
    requires Open(c)
    ensures Drain(c).1 != More ==> Drain(c.(pending := c.pending + p)).1 == Drain(c).1
    ensures Drain(c).1 == More ==>
              && Open(Drain(c).0)
              && Drain(c.(pending := c.pending + p)) == Add(Drain(c).0, p)
    decreases |c.pending|
  {
    DrainStaysOpen(c);
    if HasRecord(c.pending) {
      RecordIsStable(c.pending, p);
      if Consume(c).1 == More {
        ConsumeStaysOpen(c);
        DrainThenAppend(Consume(c).0, p);
      }
    }
  }

  /** However a stream is cut into calls, the first call that ends the capture
      ends it as one call with the whole stream would. */
  lemma {:induction false} ChunkingDoesNotMatter(c: Capture, chunks: seq<Bytes>)
    requires Open(c)
    requires |c.pending| == 0 || Drain(c) == (c, More)
    ensures Feed(c, chunks).1 == Add(c, Concat(chunks)).1
    decreases |chunks|
  {
    if chunks == [] {
      assert c.(pending := c.pending + []) == c;
    } else {
      var first, rest := chunks[0], Concat(chunks[1..]);
      assert c.pending + (first + rest) == (c.pending + first) + rest;
      var buffered := c.(pending := c.pending + first);
      DrainThenAppend(buffered, rest);
      if Drain(buffered).1 == More {
        DrainStaysOpen(buffered);
        ChunkingDoesNotMatter(Drain(buffered).0, chunks[1..]);
      }
    }
  }

  /** The whole capture: any chunking of any stream gives the reference outcome. */
  lemma CaptureMeetsReference(chunks: seq<Bytes>)
    ensures Feed(EMPTY, chunks).1 == Reference(Concat(chunks))
  {
    ChunkingDoesNotMatter(EMPTY, chunks);
    var s := Concat(chunks);
    assert EMPTY.(pending := [] + s) == Capture(s, [], 0);
    DrainFromEmpty(s);
  }

  // ---------------------------------------------------------------- fragmented messages

  /** The two legacy version bytes of a record. */
  type Version = (Byte, Byte)

  /** A TLS handshake record holding one fragment, with any legacy version bytes. */
  function EncodeRecord(v: Version, fragment: Bytes): Bytes
    requires 0 < |fragment| <= MAX_RECORD
  {
    [HANDSHAKE, v.0, v.1, |fragment| / 256, |fragment| % 256] + fragment
  }

  /** Fragments that fit records, each with the version bytes of its record. */
  predicate Fragments(vs: seq<Version>, fs: seq<Bytes>) {
    |vs| == |fs| && forall i :: 0 <= i < |fs| ==> 0 < |fs[i]| <= MAX_RECORD
  }

  function EncodeAll(vs: seq<Version>, fs: seq<Bytes>): Bytes
    requires Fragments(vs, fs)
  {
    if fs == [] then [] else EncodeRecord(vs[0], fs[0]) + EncodeAll(vs[1..], fs[1..])
  }

  /** A complete ClientHello within the size limit, and nothing after it. */
  predicate IsHello(m: Bytes) {
    |m| > 4 && m[0] == CLIENT_HELLO && |m| == 4 + MessageLength(m) && |m| <= MAX_HELLO
  }

  lemma EncodedRecordIsRead(v: Version, f: Bytes, rest: Bytes)
    requires 0 < |f| <= MAX_RECORD
    ensures var s := EncodeRecord(v, f) + rest;
            HasRecord(s) && Body(s) == f && Tail(s) == rest
  {
  }

  /** Reading back the records of a fragmentation gives the fragments, joined. */
  lemma {:induction false} PayloadOfEncoding(vs: seq<Version>, fs: seq<Bytes>, rest: Bytes)
    requires Fragments(vs, fs)
    ensures Payload(EncodeAll(vs, fs) + rest) == Concat(fs) + Payload(rest)
    ensures Remainder(EncodeAll(vs, fs) + rest) == Remainder(rest)
    decreases |fs|
  {
    if fs == [] {
      assert [] + rest == rest;
    } else {
      var tail := EncodeAll(vs[1..], fs[1..]) + rest;
      assert EncodeAll(vs, fs) + rest == EncodeRecord(vs[0], fs[0]) + tail;
      EncodedRecordIsRead(vs[0], fs[0], tail);
      PayloadOfEncoding(vs[1..], fs[1..], rest);
      assert fs[0] + (Concat(fs[1..]) + Payload(rest)) == Concat(fs) + Payload(rest);
    }
  }

  /** A strict prefix of an encoded fragment holds no complete record and no error. */
  lemma PrefixOfRecordWaits(v: Version, f: Bytes, s: Bytes)
    requires 0 < |f| <= MAX_RECORD && s < EncodeRecord(v, f)
    ensures Payload(s) == [] && Remainder(s) == s && Leftover(s) == More
  {
    var r := EncodeRecord(v, f);
    assert forall i :: 0 <= i < |s| ==> s[i] == r[i];
  }

  /** While bytes of the record that holds the last message byte are missing,
      the reference asks for more. */
  lemma {:induction false} PrefixWaits(vs: seq<Version>, fs: seq<Bytes>, seen: Bytes, hello: Bytes, s: Bytes)
    requires Fragments(vs, fs) && fs != [] && IsHello(hello)
    requires hello <= seen + Concat(fs) && |seen + Concat(fs[..|fs| - 1])| < |hello|
    requires s < EncodeAll(vs, fs)
    ensures Decide(seen + Payload(s), Remainder(s)) == More
    decreases |fs|
  {
    var r := EncodeRecord(vs[0], fs[0]);
    if |s| < |r| {
      FirstRecordWaits(vs, fs, seen, hello, s);
    } else {
      var s' := s[|r|..];
      assert s == r + s' && s' < EncodeAll(vs[1..], fs[1..]);
      SplitFirstFragment(seen, fs);
      PrefixWaits(vs[1..], fs[1..], seen + fs[0], hello, s');
      SkipFirstRecord(vs[0], fs[0], seen, s');
    }
  }

  lemma FirstRecordWaits(vs: seq<Version>, fs: seq<Bytes>, seen: Bytes, hello: Bytes, s: Bytes)
    requires Fragments(vs, fs) && fs != [] && IsHello(hello)
    requires hello <= seen + Concat(fs) && |seen| < |hello|
    requires s < EncodeRecord(vs[0], fs[0])
    ensures Decide(seen + Payload(s), Remainder(s)) == More
  {
    PrefixOfRecordWaits(vs[0], fs[0], s);
    assert seen + [] == seen;
    PrefixOfHelloWaits(hello, seen, Concat(fs));
  }

  lemma SkipFirstRecord(v: Version, f: Bytes, seen: Bytes, rest: Bytes)
    requires 0 < |f| <= MAX_RECORD
    ensures var s := EncodeRecord(v, f) + rest;
            seen + Payload(s) == (seen + f) + Payload(rest) && Remainder(s) == Remainder(rest)
  {
    EncodedRecordIsRead(v, f, rest);
    assert seen + (f + Payload(rest)) == (seen + f) + Payload(rest);
  }

  lemma PrefixOfHelloWaits(hello: Bytes, seen: Bytes, later: Bytes)
    requires IsHello(hello) && hello <= seen + later && |seen| < |hello|
    ensures MessageOutcome(seen) == More
  {
    assert forall i :: 0 <= i < |seen| ==> seen[i] == (seen + later)[i] == hello[i];
  }

  lemma ConcatFirst(seen: Bytes, fs: seq<Bytes>)
    requires fs != []
    ensures seen + Concat(fs) == (seen + fs[0]) + Concat(fs[1..])
  {
    assert Concat(fs) == fs[0] + Concat(fs[1..]);
  }

  lemma SplitFirstFragment(seen: Bytes, fs: seq<Bytes>)
    requires fs != []
    ensures seen + Concat(fs) == (seen + fs[0]) + Concat(fs[1..])
    ensures |fs| >= 2 ==> seen + Concat(fs[..|fs| - 1]) == (seen + fs[0]) + Concat(fs[1..][..|fs[1..]| - 1])
  {
    ConcatFirst(seen, fs);
    if |fs| >= 2 {
      ConcatFirst(seen, fs[..|fs| - 1]);
      assert fs[..|fs| - 1][1..] == fs[1..][..|fs[1..]| - 1];
    }
  }

  /** Every ClientHello within the limit, however it is fragmented into records
      (the last of which may carry bytes of a later message) and whatever
      follows: the reference waits for the last record, then returns exactly
      the message. */
  lemma FragmentedHelloIsCaptured(vs: seq<Version>, fs: seq<Bytes>, hello: Bytes, s: Bytes)
    requires Fragments(vs, fs) && fs != [] && IsHello(hello)
    requires hello <= Concat(fs) && |Concat(fs[..|fs| - 1])| < |hello|
    requires s <= EncodeAll(vs, fs) || EncodeAll(vs, fs) <= s
    ensures Reference(s) == if |s| < |EncodeAll(vs, fs)| then More else Complete(hello)
  {
    if |s| < |EncodeAll(vs, fs)| {
      assert [] + Concat(fs) == Concat(fs) && [] + Payload(s) == Payload(s);
      assert [] + Concat(fs[..|fs| - 1]) == Concat(fs[..|fs| - 1]);
      PrefixWaits(vs, fs, [], hello, s);
    } else {
      var rest := s[|EncodeAll(vs, fs)|..];
      assert s == EncodeAll(vs, fs) + rest;
      WholeEncodingCompletes(vs, fs, hello, rest);
    }
  }

  lemma WholeEncodingCompletes(vs: seq<Version>, fs: seq<Bytes>, hello: Bytes, rest: Bytes)
    requires Fragments(vs, fs) && IsHello(hello) && hello <= Concat(fs)
    ensures Reference(EncodeAll(vs, fs) + rest) == Complete(hello)
  {
    PayloadOfEncoding(vs, fs, rest);
    HelloIsFound(hello, Concat(fs));
    MessageOutcomeIsStable(Concat(fs), Payload(rest));
  }

  lemma HelloIsFound(hello: Bytes, m: Bytes)
    requires IsHello(hello) && hello <= m
    ensures MessageOutcome(m) == Complete(hello)
  {
    assert forall i :: 0 <= i < |hello| ==> hello[i] == m[i];
    assert m[..|hello|] == hello;
  }

  /** The same over any chunking of the wire bytes: the calls return nothing
      until the record with the last message byte is buffered, and then the
      message. */
  lemma ChunkedHelloIsCaptured(vs: seq<Version>, fs: seq<Bytes>, hello: Bytes, chunks: seq<Bytes>)
    requires Fragments(vs, fs) && fs != [] && IsHello(hello)
    requires hello <= Concat(fs) && |Concat(fs[..|fs| - 1])| < |hello|
    requires var s := Concat(chunks); s <= EncodeAll(vs, fs) || EncodeAll(vs, fs) <= s
    ensures Feed(EMPTY, chunks).1 ==
            if |Concat(chunks)| < |EncodeAll(vs, fs)| then More else Complete(hello)
  {
    CaptureMeetsReference(chunks);
    FragmentedHelloIsCaptured(vs, fs, hello, Concat(chunks));
  }
}
