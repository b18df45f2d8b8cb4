/** Safety of the composed handoff over every run. */
module HandoffSafety {
  import opened Basics
  import opened Frames
  import opened Handoff

  /** The byte image of a list of messages, numbered from one. */
  function Bytes(key: seq<byte>, ms: seq<Message>): seq<byte>
    requires |key| == 32 && |ms| < U32 && forall i :: 0 <= i < |ms| ==> Sendable(ms[i])
  {
    if ms == [] then [] else Bytes(key, ms[..|ms| - 1]) + RequestOf(key, ms[|ms| - 1], |ms|)
  }

  function Entry(m: Message, sequence: nat): Appended
    requires Sendable(m)
  {
    Appended(KindOf(m), sequence, PayloadOf(m))
  }

  ghost predicate Messages(y: System) {
    Wf(y) && |y.started| < U32 && forall i :: 0 <= i < |y.started| ==> Sendable(y.started[i])
  }

  /** The message in flight and everything before it. */
  function Before(y: System): seq<Message>
    requires y.started != []
  {
    y.started[..|y.started| - 1]
  }

  function Current(key: seq<byte>, ms: seq<Message>): seq<byte>
    requires |key| == 32 && 0 < |ms| < U32 && Sendable(ms[|ms| - 1])
  {
    RequestOf(key, ms[|ms| - 1], |ms|)
  }

  /** The host log is the started messages, or all but the last; the client counts no more. */
  ghost predicate Prefixes(y: System)
    requires Messages(y)
  {
    && |y.acked| == y.client.sequence && y.acked <= y.started
    && |y.acked| <= |y.host.log| <= |y.started| <= |y.acked| + 1
    && (forall i :: 0 <= i < |y.host.log| ==> y.host.log[i] == Entry(y.started[i], i + 1))
    && y.host.consumed == |Bytes(y.key, y.started[..|y.host.log|])|
  }

  /** No byte is sent twice, skipped or reordered. */
  ghost predicate OnTheWire(y: System)
    requires Messages(y)
  {
    && y.sent <= Bytes(y.key, y.started)
    && (y.started != [] ==> Bytes(y.key, Before(y)) <= y.sent)
    && (|y.host.log| == |y.started| ==> y.sent == Bytes(y.key, y.started))
  }

  ghost predicate InFlight(y: System, request: seq<byte>)
    requires Messages(y)
  {
    && y.started != [] && !y.stream.poisoned && !y.stream.terminal && y.client.busy && y.reply == NoReply
    && y.stream.sequence == |y.started| - 1 == |y.acked|
    && request == Current(y.key, y.started)
  }

  ghost predicate Progress(y: System)
    requires Messages(y)
  {
    match y.stream.phase
    case Writing(request, offset) =>
      && InFlight(y, request) && |y.host.log| == |y.started| - 1 && offset < |request|
      && y.sent == Bytes(y.key, Before(y)) + request[..offset]
    case ReadingHeader(request, got) =>
      InFlight(y, request) && y.sent == Bytes(y.key, y.started) && |got| < HEADER
    case ReadingBody(request, header, got) =>
      && InFlight(y, request) && y.sent == Bytes(y.key, y.started) && |y.host.log| == |y.started|
      && AckHeaderOk(header, |y.started|, y.key) && |got| < ReadU32(header, 41) <= MAX_ACK
    case Idle => if y.stream.poisoned then Failed(y) else Rested(y)
  }

  /** The stream failed: the client waits for the rejection or has latched it. */
  ghost predicate Failed(y: System) {
    if y.client.busy then y.reply == Rejected else y.client.poisoned && y.reply == NoReply
  }

  /** The stream finished every exchange; the client may still have to resume. */
  ghost predicate Rested(y: System) {
    && y.stream.sequence == |y.started| == |y.host.log|
    && match y.reply
       case NoReply => !y.client.busy && |y.acked| == |y.started|
       case Rejected => y.client.busy && y.stream.terminal && |y.acked| == |y.started|
       case Returned(raw) =>
         y.client.busy && |y.acked| == |y.started| - 1 && AckPayload(raw, |y.started|, y.key).Ok?
  }

  /** What the stream is about to read acknowledges nothing the host has not appended. */
  ghost predicate Honest(y: System) {
    !y.stream.poisoned ==> !Forged(Unread(y.stream.phase, y.replies), y.stream.sequence + 1, y.key, |y.host.log|)
  }

  /** A final message is only ever the last one started. */
  ghost predicate Finality(y: System) {
    && (forall i :: 0 <= i < |y.started| - 1 ==> !y.started[i].Final?)
    && (y.stream.terminal ==>
          y.stream.phase == Idle && !y.stream.poisoned && y.started != [] && y.started[|y.started| - 1].Final?)
    && (!y.stream.terminal && !y.stream.poisoned && y.stream.phase == Idle && y.started != [] ==>
          !y.started[|y.started| - 1].Final?)
    && (y.client.terminal ==> y.stream.terminal)
    && (forall i :: 0 <= i < |y.checks| && y.checks[i].message.Final? ==> y.stream.terminal)
  }

  ghost predicate Inv(y: System) {
    Messages(y) && Prefixes(y) && OnTheWire(y) && Progress(y) && Finality(y) && Honest(y)
  }

  // ---- sending ----

  lemma PoisonedClientKeeps(y: System)
    requires Inv(y)
    ensures Inv(y.(client := y.client.(poisoned := true)))
  {
    hide Bytes, Layout, AckPayload, Forged;
  }

  /** A send starts exactly one new frame, or changes nothing but the client's latch, or is
      rejected by a stream that is already closed. */
  lemma SendOutcome(y: System, m: Message)
    requires Inv(y) && Sendable(m)
    ensures
      var t := DoSend(y, m);
      || t == y || t == y.(client := y.client.(poisoned := true))
      || (!Closed(y.client) && y.stream.terminal && t == y.(client := y.client.(busy := true), reply := Rejected))
      || (&& !Closed(y.client) && y.stream.phase == Idle && !y.stream.poisoned && !y.stream.terminal
          && |y.started| + 1 < U32
          && t == Begun(y, m))
  {
    hide OnTheWire, Finality, RequestOk, Layout, AckPayload, Bytes, Current, Honest;
    if !Closed(y.client) && y.client.sequence + 1 < U32 {
      ClientFramePasses(m, y.client.sequence, y.key);
    }
  }

  function Begun(y: System, m: Message): System
    requires Messages(y) && Sendable(m) && |y.started| + 1 < U32
  {
    y.(stream := y.stream.(phase := Writing(RequestOf(y.key, m, |y.started| + 1), 0)),
       client := y.client.(busy := true), started := y.started + [m])
  }

  lemma BegunWire(y: System, m: Message)
    requires Messages(y) && OnTheWire(y) && Sendable(m) && |y.started| + 1 < U32 && |y.host.log| == |y.started|
    ensures
      var t := Begun(y, m);
      && Messages(t) && Before(t) == y.started && OnTheWire(t)
      && t.sent == Bytes(t.key, Before(t)) + t.stream.phase.request[..0]
  {
    hide Layout;
    var t := Begun(y, m);
    assert t.started[..|y.started|] == y.started;
    assert Bytes(t.key, t.started) == Bytes(y.key, y.started) + RequestOf(y.key, m, |t.started|);
  }

  lemma BegunPrefixes(y: System, m: Message)
    requires Messages(y) && Prefixes(y) && Sendable(m) && |y.started| + 1 < U32 && |y.acked| == |y.started|
    ensures Messages(Begun(y, m)) && Prefixes(Begun(y, m))
  {
    hide Layout, Bytes;
    var t := Begun(y, m);
    assert t.started[..|y.host.log|] == y.started[..|y.host.log|];
  }

  lemma StartedKeeps(y: System, m: Message)
    requires Inv(y) && Sendable(m) && |y.started| + 1 < U32
    requires !Closed(y.client) && y.stream.phase == Idle && !y.stream.poisoned && !y.stream.terminal
    ensures Inv(Begun(y, m))
  {
    hide Layout, OnTheWire, Prefixes, AckPayload, Bytes, Progress, Finality, Messages, Forged;
    BegunCounts(y);
    IdleFacts(y);
    BegunWire(y, m);
    BegunPrefixes(y, m);
    BegunProgress(y, m);
    BegunFinality(y, m);
  }

  lemma IdleFacts(y: System)
    requires Messages(y) && Progress(y) && |y.acked| <= |y.started|
    requires !Closed(y.client) && y.stream.phase == Idle && !y.stream.poisoned
    ensures y.stream.sequence == |y.started| == |y.host.log| == |y.acked| && y.reply == NoReply
  {
    hide Messages, AckPayload;
  }

  lemma BegunProgress(y: System, m: Message)
    requires Messages(y) && Sendable(m) && |y.started| + 1 < U32 && !y.stream.poisoned && !y.stream.terminal
    requires y.stream.sequence == |y.started| == |y.host.log| == |y.acked| && y.reply == NoReply
    requires Messages(Begun(y, m)) && Before(Begun(y, m)) == y.started
    requires Begun(y, m).sent == Bytes(y.key, y.started) + Begun(y, m).stream.phase.request[..0]
    ensures Progress(Begun(y, m))
  {
    hide Messages, Bytes;
  }

  lemma BegunFinality(y: System, m: Message)
    requires Messages(y) && Finality(y) && Sendable(m) && |y.started| + 1 < U32
    requires !Closed(y.client) && y.stream.phase == Idle && !y.stream.poisoned && !y.stream.terminal
    ensures Finality(Begun(y, m))
  {
    hide Messages, Layout, RequestOf;
    var t := Begun(y, m);
    assert forall i :: 0 <= i < |y.started| ==> t.started[i] == y.started[i];
  }

  lemma BegunCounts(y: System)
    requires Messages(y) && Prefixes(y)
    ensures |y.acked| == y.client.sequence <= |y.host.log| <= |y.started|
  {
  }

  /** A closed stream refuses without failing; the client will latch the rejection. */
  lemma RefusedKeeps(y: System)
    requires Inv(y) && !Closed(y.client) && y.stream.terminal
    ensures Inv(y.(client := y.client.(busy := true), reply := Rejected))
  {
    hide Bytes, Layout, AckPayload, Forged;
  }

  lemma SendKeeps(y: System, m: Message)
    requires Inv(y) && Sendable(m)
    ensures Inv(DoSend(y, m))
  {
    hide Prefixes, OnTheWire, Progress, Finality, Honest, DoSend;
    SendOutcome(y, m);
    PoisonedClientKeeps(y);
    var t := DoSend(y, m);
    if t != y && t != y.(client := y.client.(poisoned := true)) {
      if y.stream.terminal {
        RefusedKeeps(y);
      } else {
        StartedKeeps(y, m);
      }
    }
  }

  // ---- failures ----

  /** Any failure in flight, whatever part of the current frame arrived, ends the session safely. */
  lemma BrokenKeeps(y: System, sent: seq<byte>, replies: seq<byte>)
    requires Inv(y) && y.stream.phase != Idle
    requires y.sent <= sent <= Bytes(y.key, y.started) && (|y.host.log| == |y.started| ==> sent == y.sent)
    ensures Inv(Settle(y.(sent := sent, replies := replies), Poison(y.stream), None))
  {
    hide Bytes, Layout, AckHeaderOk, Current, Forged;
    var t := Settle(y.(sent := sent, replies := replies), Poison(y.stream), None);
    assert OnTheWire(t) by {
      if y.started != [] {
        assert Before(t) == Before(y);
        PrefixTrans(Bytes(y.key, Before(y)), y.sent, sent);
      }
    }
  }

  lemma PrefixTrans(a: seq<byte>, b: seq<byte>, c: seq<byte>)
    requires a <= b && b <= c
    ensures a <= c
  {
  }

  // ---- writing ----

  lemma BytesSplit(y: System)
    requires Messages(y) && y.started != []
    ensures Bytes(y.key, y.started) == Bytes(y.key, Before(y)) + Current(y.key, y.started)
  {
    hide Layout;
  }

  lemma WrittenPiece(base: seq<byte>, request: seq<byte>, offset: nat, delivered: nat)
    requires offset <= offset + delivered <= |request|
    ensures
      var piece := request[offset..];
      var sent := base + request[..offset] + request[offset..][..delivered];
      && sent == base + request[..offset + delivered]
      && base + request[..offset] <= sent <= base + request
  {
  }

  lemma CurrentKind(y: System)
    requires Messages(y) && y.started != []
    ensures
      var request := Current(y.key, y.started);
      |request| >= HEADER && (request[4] == TERMINAL <==> y.started[|y.started| - 1].Final?)
  {
    var m := y.started[|y.started| - 1];
    FrameRoundTrip(KindOf(m), |y.started|, y.key, PayloadOf(m));
  }

  /** The stream after a completed piece. */
  function Onward(request: seq<byte>, offset: nat): Phase {
    if offset < |request| then Writing(request, offset) else ReadingHeader(request, [])
  }

  /** A completed piece moves the stream on inside the same frame. */
  lemma WrittenKeeps(y: System, t: System, offset: nat)
    requires Inv(y) && y.stream.phase.Writing? && y.stream.phase.offset <= offset <= |y.stream.phase.request|
    requires t == y.(sent := Bytes(y.key, Before(y)) + y.stream.phase.request[..offset],
                     stream := y.stream.(phase := Onward(y.stream.phase.request, offset)))
    ensures Inv(t)
  {
    hide Layout, Bytes, Current, AckHeaderOk, Prefixes, Forged;
    var request := y.stream.phase.request;
    BytesSplit(y);
    PrefixesSame(y, t);
    LogShort(y);
    assert [] + y.replies == y.replies;
    if offset == |request| {
      assert request[..offset] == request;
    }
  }

  lemma WriteFacts(y: System, delivered: nat)
    requires Messages(y) && y.stream.phase.Writing? && Progress(y) && delivered <= |NextPiece(y.stream)|
    ensures
      var sent := y.sent + NextPiece(y.stream)[..delivered];
      && y.sent <= sent <= Bytes(y.key, y.started)
      && sent == Bytes(y.key, Before(y)) + y.stream.phase.request[..y.stream.phase.offset + delivered]
  {
    hide Layout, Bytes, Current;
    var request, offset := y.stream.phase.request, y.stream.phase.offset;
    BytesSplit(y);
    assert NextPiece(y.stream)[..delivered] == request[offset..][..delivered];
    WrittenPiece(Bytes(y.key, Before(y)), request, offset, delivered);
  }

  lemma WriteKeeps(y: System, delivered: nat, reported: nat)
    requires Inv(y)
    ensures Inv(Apply(y, Write(delivered, reported)))
  {
    hide Layout, Bytes, Current, AckHeaderOk, Prefixes, OnTheWire, Finality, Progress, RequestOf, Honest;
    if y.stream.phase.Writing? && delivered <= |NextPiece(y.stream)| {
      if reported == |NextPiece(y.stream)| ==> delivered == reported {
        WriteFacts(y, delivered);
        LogShort(y);
        if reported != |NextPiece(y.stream)| || y.stream.poisoned {
          BrokenKeeps(y, y.sent + NextPiece(y.stream)[..delivered], y.replies);
        } else {
          WrittenKeeps(y, Apply(y, Write(delivered, reported)), y.stream.phase.offset + delivered);
        }
      }
    }
  }

  lemma PrefixesSame(y: System, t: System)
    requires Messages(y) && Messages(t) && Prefixes(y)
    requires t.acked == y.acked && t.client.sequence == y.client.sequence && t.started == y.started
    requires t.host.log == y.host.log && t.host.consumed == y.host.consumed && t.key == y.key
    ensures Prefixes(t)
  {
    hide Bytes;
  }

  lemma LogShort(y: System)
    requires Inv(y) && y.stream.phase.Writing?
    ensures |y.host.log| < |y.started| && y.reply == NoReply && !y.stream.poisoned
  {
    hide Prefixes, OnTheWire, Honest;
  }

  // ---- reading ----

  /** A longer log forges nothing new. */
  lemma {:induction false} ForgedLess(bytes: seq<byte>, n: nat, key: seq<byte>, fewer: nat, more: nat)
    requires fewer <= more && !Forged(bytes, n, key, fewer)
    ensures !Forged(bytes, n, key, more)
    decreases |bytes|
  {
    hide ReadU32;
    if AckHeaderOk(bytes, n, key) && ReadU32(bytes, 41) <= MAX_ACK && n <= fewer {
      if HEADER + ReadU32(bytes, 41) <= |bytes| {
        ForgedLess(bytes[HEADER + ReadU32(bytes, 41)..], n + 1, key, fewer, more);
      }
    }
  }

  lemma HeaderPrefix(header: seq<byte>, bytes: seq<byte>, n: nat, key: seq<byte>)
    requires |header| == HEADER && header <= bytes
    ensures AckHeaderOk(bytes, n, key) <==> AckHeaderOk(header, n, key)
    ensures ReadU32(bytes, 41) == ReadU32(header, 41)
  {
    assert bytes[..HEADER] == header;
    assert bytes[..4] == header[..4] && bytes[9..41] == header[9..41];
  }

  /** An honest acknowledgement means the entry is in the log, and what follows it is honest. */
  lemma HonestAck(header: seq<byte>, body: seq<byte>, rest: seq<byte>, n: nat, key: seq<byte>, appended: nat)
    requires |header| == HEADER && AckHeaderOk(header, n, key) && ReadU32(header, 41) <= MAX_ACK
    requires !Forged(header + body + rest, n, key, appended)
    ensures n <= appended
    ensures |body| == ReadU32(header, 41) ==> !Forged(rest, n + 1, key, appended)
  {
    hide AckHeaderOk, ReadU32;
    var bytes := header + body + rest;
    HeaderPrefix(header, bytes, n, key);
    if |body| == ReadU32(header, 41) {
      assert bytes[HEADER + ReadU32(bytes, 41)..] == rest;
    }
  }

  lemma WireSame(y: System, t: System)
    requires Messages(y) && Messages(t) && OnTheWire(y)
    requires t.sent == y.sent && t.started == y.started && t.key == y.key && t.host.log == y.host.log
    ensures OnTheWire(t)
  {
    hide Bytes;
  }

  /** The exchange is complete: the stream counts it and hands the reply over. */
  lemma FinishKeeps(y: System, header: seq<byte>, body: seq<byte>, replies: seq<byte>)
    requires Inv(y) && Reading(y.stream) && |header| == HEADER
    requires AckHeaderOk(header, |y.started|, y.key) && |body| == ReadU32(header, 41) <= MAX_ACK
    requires Unread(y.stream.phase, y.replies) == header + body + replies
    ensures
      var (stream, reply) := Finish(y.stream, y.stream.phase.request, header, body);
      Inv(Settle(y.(replies := replies), stream, reply))
  {
    hide Bytes, Layout, AckHeaderOk, AckPayload, Current, ReadU32, Forged, Prefixes, OnTheWire;
    BegunCounts(y);
    CurrentKind(y);
    HonestAck(header, body, replies, |y.started|, y.key, |y.host.log|);
    StreamReplyPasses(header, body, |y.started|, y.key);
    var (stream, reply) := Finish(y.stream, y.stream.phase.request, header, body);
    var t := Settle(y.(replies := replies), stream, reply);
    WireSame(y, t);
    PrefixesSame(y, t);
  }

  /** More of the same acknowledgement was read. */
  lemma MoreKeeps(y: System, phase: Phase, replies: seq<byte>)
    requires Inv(y) && Reading(y.stream) && !phase.Idle? && !phase.Writing? && phase.request == y.stream.phase.request
    requires Unread(phase, replies) == Unread(y.stream.phase, y.replies)
    requires phase.ReadingHeader? ==> |phase.got| < HEADER
    requires phase.ReadingBody? ==>
               && |phase.header| == HEADER && AckHeaderOk(phase.header, |y.started|, y.key)
               && |phase.got| < ReadU32(phase.header, 41) <= MAX_ACK
    ensures Inv(y.(stream := y.stream.(phase := phase), replies := replies))
  {
    hide Bytes, Layout, AckHeaderOk, AckPayload, Current, ReadU32, Forged, Prefixes, OnTheWire;
    BegunCounts(y);
    var t := y.(stream := y.stream.(phase := phase), replies := replies);
    WireSame(y, t);
    PrefixesSame(y, t);
    if phase.ReadingBody? {
      HonestAck(phase.header, phase.got, replies, |y.started|, y.key, |y.host.log|);
    }
  }

  lemma ReadingFacts(y: System)
    requires Inv(y) && Reading(y.stream)
    ensures y.started != [] && y.stream.sequence == |y.started| - 1 && !y.stream.poisoned
    ensures HEADER <= |y.stream.phase.request|
    ensures y.stream.phase.ReadingHeader? ==> |y.stream.phase.got| < HEADER
    ensures y.stream.phase.ReadingBody? ==>
              var header := y.stream.phase.header;
              && |header| == HEADER && AckHeaderOk(header, |y.started|, y.key)
              && |y.stream.phase.got| < ReadU32(header, 41) <= MAX_ACK
  {
    hide Prefixes, OnTheWire, Finality, Honest, Bytes, AckHeaderOk, ReadU32;
  }

  lemma HeaderStepKeeps(y: System, count: nat)
    requires Inv(y) && y.stream.phase.ReadingHeader? && count <= |y.replies|
    ensures Inv(Apply(y, Read(count)))
  {
    hide Inv, AckHeaderOk, ReadU32;
    ReadingFacts(y);
    var request, got := y.stream.phase.request, y.stream.phase.got;
    var part, rest := y.replies[..count], y.replies[count..];
    var next := got + part;
    assert got + y.replies == next + rest;
    if !(0 < |part| <= Min(PIECE, HEADER - |got|)) {
      ReadBroken(y, rest);
    } else if |next| < HEADER {
      MoreKeeps(y, ReadingHeader(request, next), rest);
    } else if !AckHeaderOk(next, |y.started|, y.key) || ReadU32(next, 41) > MAX_ACK {
      ReadBroken(y, rest);
    } else if ReadU32(next, 41) == 0 {
      assert next + [] + rest == next + rest;
      FinishKeeps(y, next, [], rest);
    } else {
      assert next + [] + rest == next + rest;
      MoreKeeps(y, ReadingBody(request, next, []), rest);
    }
  }

  lemma ReadBroken(y: System, replies: seq<byte>)
    requires Inv(y) && Reading(y.stream)
    ensures Inv(Settle(y.(replies := replies), Poison(y.stream), None))
  {
    hide Messages, Prefixes, Progress, Finality, Honest, Bytes;
    assert y.(sent := y.sent, replies := replies) == y.(replies := replies);
    BrokenKeeps(y, y.sent, replies);
  }

  lemma BodyStepKeeps(y: System, count: nat)
    requires Inv(y) && y.stream.phase.ReadingBody? && count <= |y.replies|
    ensures Inv(Apply(y, Read(count)))
  {
    hide Inv, AckHeaderOk, ReadU32;
    ReadingFacts(y);
    var request, header, got := y.stream.phase.request, y.stream.phase.header, y.stream.phase.got;
    var part, rest := y.replies[..count], y.replies[count..];
    var next := got + part;
    assert header + got + y.replies == header + next + rest;
    if !(0 < |part| <= Min(PIECE, ReadU32(header, 41) - |got|)) {
      ReadBroken(y, rest);
    } else if |next| < ReadU32(header, 41) {
      MoreKeeps(y, ReadingBody(request, header, next), rest);
    } else {
      FinishKeeps(y, header, next, rest);
    }
  }

  // ---- the host ----

  lemma CompleteFrame(request: seq<byte>, rest: seq<byte>)
    requires |request| >= HEADER && |request| == HEADER + ReadU32(request, 41) && rest <= request
    requires |rest| >= HEADER && HEADER + ReadU32(rest, 41) <= |rest|
    ensures rest == request
  {
    assert rest[41] == request[41] && rest[42] == request[42] && rest[43] == request[43] && rest[44] == request[44];
  }

  lemma PhaseWhenBehind(y: System)
    requires Inv(y) && y.started != [] && |y.host.log| < |y.started| && y.sent == Bytes(y.key, y.started)
    ensures y.stream.phase.ReadingHeader? || (y.stream.poisoned && y.stream.phase == Idle)
  {
    hide Layout, AckHeaderOk, AckPayload, Finality, Bytes, Prefixes, OnTheWire, Honest;
    BytesSplit(y);
  }

  lemma RestOfWire(base: seq<byte>, request: seq<byte>, sent: seq<byte>)
    requires base <= sent <= base + request
    ensures sent[|base|..] <= request && (sent[|base|..] == request ==> sent == base + request)
  {
  }

  /** The host can only ever find the frame in flight, complete. */
  lemma HostSeesCurrent(y: System)
    requires Inv(y) && FrameReady(y.sent, y.host.consumed)
    ensures y.started != [] && |y.host.log| == |y.started| - 1
    ensures y.sent == Bytes(y.key, y.started) && y.sent[y.host.consumed..] == Current(y.key, y.started)
    ensures y.stream.phase.ReadingHeader? || (y.stream.poisoned && y.stream.phase == Idle)
  {
    hide Layout, Bytes, Progress, Finality, Honest, Prefixes, OnTheWire, ReadU32;
    FrameBehind(y);
    BytesSplit(y);
    var request := Current(y.key, y.started);
    RestOfWire(Bytes(y.key, Before(y)), request, y.sent);
    CurrentSize(y);
    CompleteFrame(request, y.sent[y.host.consumed..]);
    PhaseWhenBehind(y);
  }

  /** A frame the host has not consumed is the one in flight. */
  lemma FrameBehind(y: System)
    requires Messages(y) && Prefixes(y) && OnTheWire(y) && FrameReady(y.sent, y.host.consumed)
    ensures y.started != [] && |y.host.log| == |y.started| - 1
    ensures y.host.consumed == |Bytes(y.key, Before(y))|
    ensures Bytes(y.key, Before(y)) <= y.sent <= Bytes(y.key, y.started)
  {
    hide Bytes, ReadU32;
    var base := y.started[..|y.host.log|];
    assert |y.host.log| == |y.started| ==> base == y.started;
    assert |y.host.log| < |y.started|;
    assert base == Before(y);
  }

  lemma CurrentSize(y: System)
    requires Messages(y) && y.started != []
    ensures
      var request := Current(y.key, y.started);
      |request| >= HEADER && |request| == HEADER + ReadU32(request, 41)
  {
    var m := y.started[|y.started| - 1];
    FrameRoundTrip(KindOf(m), |y.started|, y.key, PayloadOf(m));
  }

  /** The host as it is after appending the frame in flight. */
  function Logged(y: System): Host
    requires Messages(y) && y.started != []
  {
    Host(true, y.host.log + [Entry(y.started[|y.started| - 1], |y.started|)], |y.sent|)
  }

  lemma AppendResult(y: System)
    requires Inv(y) && y.host.alive && FrameReady(y.sent, y.host.consumed)
    ensures y.started != [] && Append(y.host, y.key, y.sent) == Logged(y)
  {
    hide Layout, AckHeaderOk, AckPayload, Finality, Bytes, Prefixes, OnTheWire, Progress, Honest;
    HostSeesCurrent(y);
    var m := y.started[|y.started| - 1];
    FrameRoundTrip(KindOf(m), |y.started|, y.key, PayloadOf(m));
    var rest := y.sent[y.host.consumed..];
    assert rest == Layout(KindOf(m), |y.started|, y.key, PayloadOf(m));
    assert rest[HEADER..HEADER + ReadU32(rest, 41)] == rest[HEADER..];
  }

  lemma AppendedPrefixes(y: System)
    requires Messages(y) && Prefixes(y) && y.started != [] && |y.host.log| == |y.started| - 1
    requires y.sent == Bytes(y.key, y.started)
    ensures Prefixes(y.(host := Logged(y)))
  {
    hide Bytes;
    var t := y.(host := Logged(y));
    assert t.started[..|t.host.log|] == t.started;
  }

  lemma AppendedKeeps(y: System)
    requires Inv(y) && y.started != [] && |y.host.log| == |y.started| - 1 && y.sent == Bytes(y.key, y.started)
    requires y.stream.phase.ReadingHeader? || (y.stream.poisoned && y.stream.phase == Idle)
    ensures Inv(y.(host := Logged(y)))
  {
    hide Layout, AckHeaderOk, AckPayload, Bytes, Current, Prefixes, Forged;
    AppendedPrefixes(y);
    if !y.stream.poisoned {
      ForgedLess(Unread(y.stream.phase, y.replies), y.stream.sequence + 1, y.key, |y.host.log|, |y.host.log| + 1);
    }
  }

  lemma HostKeeps(y: System)
    requires Inv(y)
    ensures Inv(Apply(y, HostAppends))
  {
    hide Layout, Bytes, Current, Append, FrameReady, Prefixes, OnTheWire, Progress, Finality, RequestOf, Entry, Honest;
    if y.host.alive && FrameReady(y.sent, y.host.consumed) {
      HostSeesCurrent(y);
      AppendResult(y);
      AppendedKeeps(y);
    }
  }

  /** Whatever the host produces, short of forging an acknowledgement, is harmless. */
  lemma EmitKeeps(y: System, bytes: seq<byte>)
    requires Inv(y)
    ensures Inv(Apply(y, HostEmits(bytes)))
  {
    hide Bytes, Layout, AckPayload, AckHeaderOk, Forged, Current, Prefixes, OnTheWire;
    var t := Apply(y, HostEmits(bytes));
    WireSame(y, t);
    PrefixesSame(y, t);
  }

  // ---- the client resumes ----

  lemma ResumeKeeps(y: System)
    requires Inv(y)
    ensures Inv(Apply(y, Resume))
  {
    hide Layout, AckHeaderOk, AckPayload, Bytes, Current, Forged, OnTheWire, Prefixes;
    var t := Apply(y, Resume);
    WireSame(y, t);
    BegunCounts(y);
    if y.reply.Returned? {
      AckedPrefixes(y, t);
    } else {
      PrefixesSame(y, t);
    }
  }

  /** Counting one more acknowledgement keeps the prefixes. */
  lemma AckedPrefixes(y: System, t: System)
    requires Messages(y) && Messages(t) && Prefixes(y) && |y.acked| < |y.started| == |y.host.log|
    requires t.acked == y.acked + [y.started[|y.started| - 1]] && t.client.sequence == y.client.sequence + 1
    requires t.started == y.started && t.key == y.key && t.host == y.host
    ensures Prefixes(t)
  {
    hide Bytes;
    assert y.started[..|y.started| - 1] + [y.started[|y.started| - 1]] == y.started;
  }

  lemma ExamineKeeps(y: System, index: nat, good: bool)
    requires Inv(y)
    ensures Inv(Apply(y, Examine(index, good)))
  {
    hide Layout, AckHeaderOk, AckPayload, Bytes, Current, Forged;
  }

  lemma StopKeeps(y: System)
    requires Inv(y)
    ensures Inv(Apply(y, HostStops))
  {
    hide Layout, AckHeaderOk, AckPayload, Bytes, Current, Forged;
  }

  /** Every step, with every failure the environment can produce, keeps the session safe. */
  lemma StepKeeps(y: System, e: Event)
    requires Inv(y)
    ensures Inv(Apply(y, e))
  {
    hide Messages, Prefixes, OnTheWire, Progress, Finality, Honest;
    WfOf(y);
    match e
    case Send(m) =>
      if Sendable(m) {
        SendKeeps(y, m);
      }
    case Write(delivered, reported) => WriteKeeps(y, delivered, reported);
    case Read(count) =>
      if Reading(y.stream) && count <= |y.replies| {
        if y.stream.phase.ReadingHeader? {
          HeaderStepKeeps(y, count);
        } else {
          BodyStepKeeps(y, count);
        }
      }
    case ReadFails =>
      if Reading(y.stream) {
        ReadBroken(y, y.replies);
      }
    case HostAppends => HostKeeps(y);
    case HostEmits(bytes) => EmitKeeps(y, bytes);
    case HostStops => StopKeeps(y);
    case Resume => ResumeKeeps(y);
    case Examine(index, good) => ExamineKeeps(y, index, good);
  }

  lemma WfOf(y: System)
    requires Messages(y)
    ensures Wf(y)
  {
  }
}
