/** What the handoff promises over whole runs, and the two stateful objects it is made of. */
module HandoffRuns {
  import opened Basics
  import opened Frames
  import opened Handoff
  import opened HandoffSafety

  lemma StartSafe(key: seq<byte>)
    requires |key| == 32
    ensures Wf(Start(key)) && Inv(Start(key))
  {
    hide Layout;
    var y := Start(key);
    assert |y.started| == 0 && |y.sent| == 0;
  }

  lemma {:induction false} RunKeeps(y: System, events: seq<Event>)
    requires Wf(y) && Inv(y)
    ensures Wf(Run(y, events)) && Inv(Run(y, events))
    decreases |events|
  {
    hide Inv, Apply;
    if events != [] {
      WfKept(y, events[0]);
      StepKeeps(y, events[0]);
      RunKeeps(Apply(y, events[0]), events[1..]);
    }
  }

  /** In every run the acknowledged messages are a prefix of the host log, which is at most
      one entry longer, and the bytes at the host are a prefix of the numbered frames, each once. */
  lemma AckedPrefixOfLog(key: seq<byte>, events: seq<Event>)
    requires |key| == 32
    ensures Wf(Start(key))
    ensures
      var y := Run(Start(key), events);
      && Messages(y) && y.acked <= y.started && y.sent <= Bytes(y.key, y.started)
      && |y.acked| <= |y.host.log| <= |y.acked| + 1 && |y.host.log| <= |y.started|
      && (forall i :: 0 <= i < |y.host.log| ==> y.host.log[i] == Entry(y.started[i], i + 1))
  {
    StartSafe(key);
    RunKeeps(Start(key), events);
  }

  /** The two counters agree whenever nothing is in flight and neither side failed. */
  lemma CountersAgree(key: seq<byte>, events: seq<Event>)
    requires |key| == 32
    ensures Wf(Start(key))
    ensures
      var y := Run(Start(key), events);
      !y.client.busy && !y.stream.poisoned ==> y.client.sequence == y.stream.sequence == |y.host.log|
  {
    StartSafe(key);
    RunKeeps(Start(key), events);
    hide OnTheWire, Bytes, Layout;
  }

  // ---- no frame starts after a failure ----

  /** The client or the stream has failed. */
  predicate Broken(y: System) { y.client.poisoned || y.stream.poisoned }

  /** A failed stream whose client has not resumed yet keeps that client waiting. */
  lemma BrokenIsClosed(y: System)
    requires Inv(y) && Broken(y)
    ensures y.client.poisoned || (y.client.busy && y.reply == Rejected)
  {
    hide OnTheWire, Bytes, Layout, Prefixes, Finality, Honest;
  }

  lemma FailureStep(y: System, e: Event)
    requires Wf(y) && Inv(y) && Broken(y)
    ensures Broken(Apply(y, e)) && Apply(y, e).started == y.started
  {
    hide OnRead, OnWritten, Append, FrameReady, Forged, OnTheWire, Bytes, Prefixes, Finality, Honest, Progress;
    BrokenIsClosed(y);
    if y.stream.poisoned {
      PoisonStays(y, e);
    }
  }

  /** A stream that failed never works again. */
  lemma PoisonStays(y: System, e: Event)
    requires Wf(y) && y.stream.poisoned
    ensures Apply(y, e).stream.poisoned
  {
    hide Append, FrameReady, Forged, RequestOk, Layout, AckHeaderOk, ReadU32;
  }

  /** Once either side failed, no frame ever starts, also while the client has yet to learn of it. */
  lemma {:induction false} NoFrameAfterFailure(y: System, events: seq<Event>)
    requires Wf(y) && Inv(y) && Broken(y)
    ensures Run(y, events).started == y.started
    decreases |events|
  {
    hide Apply, Inv;
    if events != [] {
      WfKept(y, events[0]);
      StepKeeps(y, events[0]);
      FailureStep(y, events[0]);
      NoFrameAfterFailure(Apply(y, events[0]), events[1..]);
    }
  }

  /** A record or callback sent while another message is in flight, or after a failure or the close,
      fails the client, and no frame ever starts after it. A refused closing call changes nothing. */
  lemma OverlapEndsSession(y: System, m: Message, events: seq<Event>)
    requires Wf(y) && Inv(y) && Sendable(m) && (y.client.busy || y.client.poisoned || y.client.terminal)
    ensures
      var t := Apply(y, Send(m));
      && Wf(t)
      && (m.Final? ==> t == y)
      && (!m.Final? ==> t.client.poisoned && Run(t, events).started == y.started)
  {
    hide Inv, Run;
    WfKept(y, Send(m));
    StepKeeps(y, Send(m));
    if !m.Final? {
      NoFrameAfterFailure(Apply(y, Send(m)), events);
    }
  }

  /** In every run a failed stream has a client that latched the failure or that still waits
      for the rejection, and resuming it latches. */
  lemma StreamFailureLatches(key: seq<byte>, events: seq<Event>)
    requires |key| == 32
    ensures Wf(Start(key))
    ensures
      var y := Run(Start(key), events);
      y.stream.poisoned ==>
        && (y.client.poisoned || (y.client.busy && y.reply == Rejected))
        && Resumed(y).client.poisoned
  {
    StartSafe(key);
    RunKeeps(Start(key), events);
    hide OnTheWire, Bytes, Layout, Prefixes, Finality, Honest;
  }

  /** A wrong sequence, a wrong key, garbage or an oversized length in the acknowledgement header,
      in whatever parts the header arrived, ends the session with the client still to learn of it. */
  lemma BadAnswerRejected(y: System, count: nat)
    requires Wf(y) && Inv(y) && y.stream.phase.ReadingHeader? && count <= |y.replies|
    requires
      var header := y.stream.phase.got + y.replies[..count];
      |header| == HEADER && (!AckHeaderOk(header, |y.started|, y.key) || ReadU32(header, 41) > MAX_ACK)
    ensures
      var t := Apply(y, Read(count));
      t.stream.poisoned && t.reply == Rejected && t.acked == y.acked && t.host == y.host
  {
    hide Inv, AckHeaderOk, ReadU32;
    ReadingFacts(y);
  }

  // ---- nothing follows an acknowledged terminal ----

  lemma TerminalFacts(y: System)
    requires Inv(y) && y.stream.terminal
    ensures Wf(y) && y.stream.phase == Idle && |y.host.log| == |y.started|
  {
    hide Bytes, Layout;
  }

  lemma TerminalStep(y: System, e: Event)
    requires Inv(y) && y.stream.terminal
    ensures
      var t := Apply(y, e);
      t.stream.terminal && t.sent == y.sent && t.started == y.started && t.host.log == y.host.log
  {
    hide Messages, Prefixes, OnTheWire, Progress, Finality, Honest, Append, FrameReady, OnRead, OnWritten, RequestOk,
         Layout, Forged;
    TerminalFacts(y);
    if e.HostAppends? && FrameReady(y.sent, y.host.consumed) {
      HostSeesCurrent(y);
    }
  }

  /** No byte and no frame follows an acknowledged terminal, whether or not the client's own
      latch is set yet. */
  lemma {:induction false} NothingAfterTerminal(y: System, events: seq<Event>)
    requires Wf(y) && Inv(y) && y.stream.terminal
    ensures
      var t := Run(y, events);
      t.stream.terminal && t.sent == y.sent && t.started == y.started && t.host.log == y.host.log
    decreases |events|
  {
    hide Messages, Prefixes, OnTheWire, Progress, Finality, Honest, Apply;
    if events != [] {
      WfKept(y, events[0]);
      StepKeeps(y, events[0]);
      TerminalStep(y, events[0]);
      NothingAfterTerminal(Apply(y, events[0]), events[1..]);
    }
  }

  /** A closed session delivered everything: the host log is exactly what was started, and
      the last entry is the final snapshot. */
  lemma TerminalIsComplete(key: seq<byte>, events: seq<Event>)
    requires |key| == 32
    ensures Wf(Start(key))
    ensures
      var y := Run(Start(key), events);
      y.client.terminal ==>
        && y.started != [] && y.started[|y.started| - 1].Final? && |y.host.log| == |y.started|
        && Messages(y) && y.sent == Bytes(y.key, y.started)
        && y.host.log[|y.started| - 1] == Entry(y.started[|y.started| - 1], |y.started|)
  {
    StartSafe(key);
    RunKeeps(Start(key), events);
    hide Bytes, Layout;
  }

  /** The receipt is what the operation that sent the message accepts; `good` is the outcome of its
      digest or JSON check. */
  predicate GoodReceipt(m: Message, receipt: seq<byte>, good: bool) {
    match m
    case Record(_) => |receipt| == 4
    case Callback(_, _) => good
    case Final(_) => |receipt| == 32 && good
  }

  /** A receipt its operation does not accept fails the client and closes nothing; one it accepts
      closes the session exactly if it answers the closing message. */
  lemma ReceiptDecides(y: System, index: nat, good: bool)
    requires Wf(y) && index < |y.checks|
    ensures
      var t, check := Apply(y, Examine(index, good)), y.checks[index];
      if GoodReceipt(check.message, check.receipt, good) then
        && t.client.poisoned == y.client.poisoned
        && t.client.terminal == (y.client.terminal || check.message.Final?)
      else t.client.poisoned && t.client.terminal == y.client.terminal
  {
  }

  /** Event `k` examines a good receipt of the closing message. */
  ghost predicate ClosesAt(y: System, events: seq<Event>, k: nat)
    requires Wf(y) && k < |events|
  {
    && events[k].Examine? && Wf(Run(y, events[..k]))
    && var before, e := Run(y, events[..k]), events[k];
       && e.index < |before.checks| && before.checks[e.index].message.Final?
       && GoodReceipt(before.checks[e.index].message, before.checks[e.index].receipt, e.good)
  }

  lemma TerminalCause(y: System, e: Event)
    requires Wf(y) && !y.client.terminal && Apply(y, e).client.terminal
    ensures e.Examine? && e.index < |y.checks| && y.checks[e.index].message.Final?
    ensures GoodReceipt(y.checks[e.index].message, y.checks[e.index].receipt, e.good)
  {
    hide OnRead, OnWritten, Append, FrameReady, Forged, RequestOk, Layout, AckPayload;
  }

  /** A session is closed only by a receipt of the closing message whose digest was right. */
  lemma {:induction false} ClosedByGoodReceipt(y: System, events: seq<Event>)
    requires Wf(y) && !y.client.terminal && Run(y, events).client.terminal
    ensures exists k :: 0 <= k < |events| && ClosesAt(y, events, k)
    decreases |events|
  {
    hide Apply, GoodReceipt;
    if events != [] {
      var t := Apply(y, events[0]);
      WfKept(y, events[0]);
      if t.client.terminal {
        TerminalCause(y, events[0]);
        assert events[..0] == [];
        assert ClosesAt(y, events, 0);
      } else {
        var rest := events[1..];
        ClosedByGoodReceipt(t, rest);
        var k :| 0 <= k < |rest| && ClosesAt(t, rest, k);
        assert events[..k + 1][0] == events[0] && events[..k + 1][1..] == rest[..k];
        assert ClosesAt(y, events, k + 1);
      }
    }
  }

  // ---- the stateful objects ----

  /** The `k`-th piece was written whole, and neither check around its write saw the latch. */
  predicate Whole(k: nat, pieces: seq<seq<byte>>, script: seq<nat>, poisoned: nat -> bool)
    requires k < |pieces| <= |script|
  {
    !poisoned(2 * k) && !poisoned(2 * k + 1) && script[k] == |pieces[k]|
  }

  /** `writeExact`: pieces of at most 64 KiB, stopping at the first short write or at the first
      check that sees the latch. `script` is what each write reports, and `poisoned` what each
      check sees, two per write. */
  method WriteExact(bytes: seq<byte>, script: seq<nat>, poisoned: nat -> bool)
    returns (ok: bool, pieces: seq<seq<byte>>)
    requires |script| * PIECE >= |bytes|
    ensures Join(pieces) <= bytes && |pieces| <= |script|
    ensures forall i :: 0 <= i < |pieces| ==> 0 < |pieces[i]| <= PIECE
    ensures forall i :: 0 <= i < |pieces| - 1 ==> Whole(i, pieces, script, poisoned)
    ensures ok ==> Join(pieces) == bytes && forall i :: 0 <= i < |pieces| ==> Whole(i, pieces, script, poisoned)
    ensures !ok ==> poisoned(2 * |pieces|) || (pieces != [] && !Whole(|pieces| - 1, pieces, script, poisoned))
  {
    pieces := [];
    var offset := 0;
    while offset < |bytes|
      invariant 0 <= offset <= |bytes|
      invariant offset < |bytes| ==> offset == |pieces| * PIECE
      invariant |pieces| <= |script|
      invariant Join(pieces) == bytes[..offset]
      invariant forall i :: 0 <= i < |pieces| ==> 0 < |pieces[i]| <= PIECE && Whole(i, pieces, script, poisoned)
    {
      if poisoned(2 * |pieces|) {
        return false, pieces;
      }
      var piece := bytes[offset..Min(offset + PIECE, |bytes|)];
      assert |pieces| < |script|;
      JoinAppend(pieces, piece);
      assert bytes[..offset] + piece == bytes[..offset + |piece|];
      var before := pieces;
      pieces := pieces + [piece];
      assert forall i :: 0 <= i < |before| ==> Whole(i, before, script, poisoned) ==>
          Whole(i, pieces, script, poisoned);
      if poisoned(2 * |before| + 1) || script[|before|] != |piece| {
        return false, pieces;
      }
      offset := offset + |piece|;
    }
    assert bytes[..offset] == bytes;
    ok := true;
  }

  function Join(pieces: seq<seq<byte>>): seq<byte> {
    if pieces == [] then [] else Join(pieces[..|pieces| - 1]) + pieces[|pieces| - 1]
  }

  lemma JoinAppend(pieces: seq<seq<byte>>, piece: seq<byte>)
    ensures Join(pieces + [piece]) == Join(pieces) + piece
  {
    assert (pieces + [piece])[..|pieces|] == pieces;
  }

  /** `readExact`: exactly `size` bytes, whatever parts they arrive in; an empty, missing or
      oversized part is a failure, and so is a check that sees the latch, two per read. */
  method ReadExact(size: nat, parts: seq<seq<byte>>,
                   poisoned: nat -> bool) returns (result: Result<seq<byte>>, used: nat)
    ensures used <= |parts|
    ensures result.Ok? ==> |result.value| == size && result.value == Join(parts[..used])
    ensures result.Err? <==> !exists n :: 0 <= n <= |parts| && Assembles(parts, n, size, poisoned)
  {
    var got: seq<byte> := [];
    used := 0;
    while |got| < size
      invariant 0 <= used <= |parts| && |got| <= size
      invariant got == Join(parts[..used])
      invariant forall k :: 0 <= k < used ==> Admissible(parts, k, size, poisoned)
      decreases size - |got|
    {
      if poisoned(2 * used) || used == |parts| || poisoned(2 * used + 1)
          || !(0 < |parts[used]| <= Min(PIECE, size - |got|)) {
        Blocked(parts, used, size, poisoned);
        return Err("handoff-stream-eof"), used;
      }
      assert parts[..used + 1][..used] == parts[..used];
      got := got + parts[used];
      used := used + 1;
    }
    assert Assembles(parts, used, size, poisoned);
    result := Ok(got);
  }

  predicate Admissible(parts: seq<seq<byte>>, k: nat, size: nat, poisoned: nat -> bool)
    requires k < |parts|
  {
    !poisoned(2 * k) && !poisoned(2 * k + 1) && 0 < |parts[k]| <= Min(PIECE, size - |Join(parts[..k])|)
  }

  /** The first `n` parts are acceptable one by one and add up to the wanted size. */
  predicate Assembles(parts: seq<seq<byte>>, n: nat, size: nat, poisoned: nat -> bool)
    requires n <= |parts|
  {
    |Join(parts[..n])| == size && forall k :: 0 <= k < n ==> Admissible(parts, k, size, poisoned)
  }

  lemma Blocked(parts: seq<seq<byte>>, used: nat, size: nat, poisoned: nat -> bool)
    requires used <= |parts| && |Join(parts[..used])| < size
    requires used < |parts| ==> !Admissible(parts, used, size, poisoned)
    ensures !exists n :: 0 <= n <= |parts| && Assembles(parts, n, size, poisoned)
  {
    forall n | 0 <= n <= |parts| ensures !Assembles(parts, n, size, poisoned) {
      if n <= used {
        JoinGrows(parts, n, used);
      } else {
        assert !Admissible(parts, used, size, poisoned);
      }
    }
  }

  lemma JoinGrows(parts: seq<seq<byte>>, n: nat, m: nat)
    requires n <= m <= |parts|
    ensures |Join(parts[..n])| <= |Join(parts[..m])|
    decreases m
  {
    if n < m {
      assert parts[..m][..m - 1] == parts[..m - 1];
      JoinGrows(parts, n, m - 1);
    }
  }

  /** The closure of `createNativeFailedStreamExchange`, one method per stretch between awaits. */
  class StreamExchange {
    const key: seq<byte>
    var sequence: nat
    var poisoned: bool
    var terminal: bool
    var phase: Phase

    ghost function Abs(): Stream
      reads this
    {
      Stream(sequence, poisoned, terminal, phase)
    }

    constructor (key: seq<byte>)
      ensures this.key == key && Abs() == Stream(0, false, false, Idle)
    {
      this.key := key;
      sequence, poisoned, terminal, phase := 0, false, false, Idle;
    }

    method Begin(request: seq<byte>) returns (result: Result<()>)
      modifies this
      ensures (Abs(), result) == Call(old(Abs()), key, request)
    {
      if phase != Idle {
        poisoned := true;
        return Err("handoff-stream-overlap");
      }
      if poisoned || terminal {
        return Err("handoff-stream-closed");
      }
      if !RequestOk(request, sequence, key) {
        poisoned := true;
        return Err("handoff-stream-request");
      }
      phase := Writing(request, 0);
      return Ok(());
    }

    method Written(written: nat)
      requires phase.Writing? && phase.offset <= |phase.request|
      modifies this
      ensures Abs() == OnWritten(old(Abs()), written)
    {
      var request := phase.request;
      var piece := request[phase.offset..Min(phase.offset + PIECE, |request|)];
      if poisoned || written != |piece| {
        poisoned, phase := true, Idle;
      } else if phase.offset + |piece| < |request| {
        phase := Writing(request, phase.offset + |piece|);
      } else {
        phase := ReadingHeader(request, []);
      }
    }

    method Received(part: seq<byte>) returns (reply: Option<seq<byte>>)
      requires Reading(Abs()) && |phase.request| >= HEADER
      requires phase.ReadingBody? ==> |phase.header| == HEADER
      modifies this
      ensures (Abs(), reply) == OnRead(old(Abs()), key, part)
    {
      reply := None;
      var request := phase.request;
      var got := phase.got + part;
      var wanted := if phase.ReadingHeader? then HEADER - |phase.got| else ReadU32(phase.header, 41) - |phase.got|;
      if poisoned || !(0 < |part| <= Min(PIECE, wanted)) {
        poisoned, phase := true, Idle;
        return;
      }
      var header := if phase.ReadingHeader? then got else phase.header;
      var body := if phase.ReadingHeader? then [] else got;
      if |header| < HEADER {
        phase := ReadingHeader(request, got);
        return;
      }
      if phase.ReadingHeader? && (!AckHeaderOk(header, sequence + 1, key) || ReadU32(header, 41) > MAX_ACK) {
        poisoned, phase := true, Idle;
        return;
      }
      if |body| < ReadU32(header, 41) {
        phase := ReadingBody(request, header, body);
        return;
      }
      sequence := sequence + 1;
      if request[4] == TERMINAL {
        terminal := true;
      }
      phase := Idle;
      reply := Some(header + body);
    }
  }

  /** `NativeFailedHandoffClient`, with `send` split at its await. */
  class HandoffClient {
    const key: seq<byte>
    var sequence: nat
    var busy: bool
    var poisoned: bool
    var terminal: bool

    ghost function Abs(): Client
      reads this
    {
      Client(sequence, busy, poisoned, terminal)
    }

    constructor (key: seq<byte>)
      requires |key| == 32
      ensures this.key == key && Abs() == Client(0, false, false, false)
    {
      this.key := key;
      sequence, busy, poisoned, terminal := 0, false, false, false;
    }

    /** The frame to exchange, or a refusal. */
    method BeginSend(m: Message) returns (request: Result<seq<byte>>)
      requires |key| == 32 && Sendable(m)
      modifies this
      ensures old(busy || poisoned || terminal) ==>
                request.Err? && Abs() == if m.Final? then old(Abs()) else old(Abs()).(poisoned := true)
      ensures !old(busy || poisoned || terminal) ==>
                && request == Frame(KindOf(m), old(sequence) + 1, key, PayloadOf(m))
                && Abs() == if request.Ok? then old(Abs()).(busy := true) else old(Abs()).(poisoned := true)
    {
      if poisoned || terminal || busy {
        if !m.Final? {
          poisoned := true;
        }
        return Err("handoff-closed");
      }
      busy := true;
      request := Frame(KindOf(m), sequence + 1, key, PayloadOf(m));
      if request.Err? {
        poisoned, busy := true, false;
      }
    }

    method EndSend(raw: seq<byte>) returns (receipt: Result<seq<byte>>)
      modifies this
      ensures (Abs(), receipt) == OnReply(old(Abs()), key, raw)
    {
      receipt := AckPayload(raw, sequence + 1, key);
      if receipt.Ok? {
        sequence := sequence + 1;
      } else {
        poisoned := true;
      }
      busy := false;
    }

    /** The exchange was rejected. */
    method FailSend()
      requires busy
      modifies this
      ensures Abs() == old(Abs()).(poisoned := true, busy := false) && Closed(Abs())
    {
      poisoned, busy := true, false;
    }

    method Examine(m: Message, receipt: seq<byte>, good: bool)
      modifies this
      ensures Abs() == OnCheck(old(Abs()), Check(m, receipt), good)
    {
      if m.Record? && |receipt| != 4 {
        poisoned := true;
      } else if m.Callback? && !good {
        poisoned := true;
      } else if m.Final? {
        if |receipt| == 32 && good {
          terminal := true;
        } else {
          poisoned := true;
        }
      }
    }
  }
}
