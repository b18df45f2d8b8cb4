/** Client, byte stream and host of the failed-evidence handoff, as one machine.

    Every event is one synchronous stretch: a call into the client, the settlement of one
    stream read or write, the host consuming a complete frame, or a continuation of the
    client. Writes may be short or fail after any prefix reached the host; reads may return
    any nonempty part or fail; the host may produce any bytes at any moment, append without
    answering, and stop for good. The one thing it is trusted with: it never puts an
    acknowledgement of an entry it has not appended where the stream would read it as one. */
module Handoff {
  import opened Basics
  import opened Frames

  const PIECE := 64 * 1024

  datatype Phase =
    | Idle
    | Writing(request: seq<byte>, offset: nat)
    | ReadingHeader(request: seq<byte>, got: seq<byte>)
    | ReadingBody(request: seq<byte>, header: seq<byte>, got: seq<byte>)

  /** `createNativeFailedStreamExchange`; it is busy exactly while its phase is not idle. */
  datatype Stream = Stream(sequence: nat, poisoned: bool, terminal: bool, phase: Phase)

  datatype Client = Client(sequence: nat, busy: bool, poisoned: bool, terminal: bool)

  /** A receipt handed back by `send`, still to be examined by the operation that asked. */
  datatype Check = Check(message: Message, receipt: seq<byte>)

  /** How the exchange settled, before the waiting client resumes. */
  datatype Reply = NoReply | Returned(raw: seq<byte>) | Rejected

  datatype Appended = Appended(kind: byte, sequence: nat, payload: seq<byte>)

  datatype Host = Host(alive: bool, log: seq<Appended>, consumed: nat)

  datatype System = System(
    key: seq<byte>,
    client: Client,
    stream: Stream,
    host: Host,
    sent: seq<byte>,                // bytes that reached the host
    replies: seq<byte>,             // bytes the host produced and the stream has not read
    reply: Reply,                   // how the exchange settled, before the client resumes
    checks: seq<Check>,             // receipts whose continuation has not run
    started: seq<Message>,          // messages whose frame the stream accepted
    acked: seq<Message>)            // messages the client counted as acknowledged

  function Start(key: seq<byte>): System {
    System(key, Client(0, false, false, false), Stream(0, false, false, Idle), Host(true, [], 0), [], [], NoReply, [],
        [], [])
  }

  function RequestOf(key: seq<byte>, m: Message, sequence: nat): seq<byte>
    requires |key| == 32 && Sendable(m) && sequence < U32
  {
    Layout(KindOf(m), sequence, key, PayloadOf(m))
  }

  // ---- the stream ----

  function Poison(s: Stream): Stream { s.(poisoned := true, phase := Idle) }

  /** Entry of the exchange: the overlap latch, the closed check and the request gate. */
  function Call(s: Stream, key: seq<byte>, request: seq<byte>): (Stream, Result<()>) {
    if s.phase != Idle then (s.(poisoned := true), Err("handoff-stream-overlap"))
    else if s.poisoned || s.terminal then (s, Err("handoff-stream-closed"))
    else if !RequestOk(request, s.sequence, key) then (Poison(s), Err("handoff-stream-request"))
    else (s.(phase := Writing(request, 0)), Ok(()))
  }

  function NextPiece(s: Stream): seq<byte>
    requires s.phase.Writing? && s.phase.offset <= |s.phase.request|
  {
    s.phase.request[s.phase.offset..Min(s.phase.offset + PIECE, |s.phase.request|)]
  }

  /** One settled write of `writeExact`. */
  function OnWritten(s: Stream, written: nat): Stream
    requires s.phase.Writing? && s.phase.offset <= |s.phase.request|
  {
    var piece := NextPiece(s);
    if s.poisoned || written != |piece| then Poison(s)
    else
      var offset := s.phase.offset + |piece|;
      s.(phase := if offset < |s.phase.request| then Writing(s.phase.request, offset)
                  else ReadingHeader(s.phase.request, []))
  }

  predicate Reading(s: Stream) { s.phase.ReadingHeader? || s.phase.ReadingBody? }

  /** Bytes still wanted by the current `readExact`. */
  function Wanted(s: Stream): int
    requires Reading(s)
    requires s.phase.ReadingBody? ==> |s.phase.header| == HEADER
  {
    if s.phase.ReadingHeader? then HEADER - |s.phase.got| else ReadU32(s.phase.header, 41) - |s.phase.got|
  }

  function Finish(s: Stream, request: seq<byte>, header: seq<byte>, payload: seq<byte>): (Stream, Option<seq<byte>>)
    requires |request| >= HEADER
  {
    (Stream(s.sequence + 1, false, s.terminal || request[4] == TERMINAL, Idle), Some(header + payload))
  }

  /** One settled read of `readExact`; an empty body needs no read. */
  function OnRead(s: Stream, key: seq<byte>, part: seq<byte>): (Stream, Option<seq<byte>>)
    requires Reading(s) && |s.phase.request| >= HEADER
    requires s.phase.ReadingBody? ==> |s.phase.header| == HEADER
  {
    if s.poisoned || !(0 < |part| <= Min(PIECE, Wanted(s))) then (Poison(s), None)
    else
      var got := s.phase.got + part;
      match s.phase
      case ReadingHeader(request, _) =>
        if |got| < HEADER then (s.(phase := ReadingHeader(request, got)), None)
        else if !AckHeaderOk(got, s.sequence + 1, key) || ReadU32(got, 41) > MAX_ACK then (Poison(s), None)
        else if ReadU32(got, 41) == 0 then Finish(s, request, got, [])
        else (s.(phase := ReadingBody(request, got, [])), None)
      case ReadingBody(request, header, _) =>
        if |got| < ReadU32(header, 41) then (s.(phase := ReadingBody(request, header, got)), None)
        else Finish(s, request, header, got)
  }

  // ---- the client ----

  predicate Closed(c: Client) { c.poisoned || c.terminal || c.busy }

  /** `emit` and `emitFailureChunk` poison a closed session; the terminal call only refuses. */
  function Refuse(c: Client, m: Message): Client {
    if m.Final? then c else c.(poisoned := true)
  }

  function OnReply(c: Client, key: seq<byte>, raw: seq<byte>): (Client, Result<seq<byte>>) {
    var r := AckPayload(raw, c.sequence + 1, key);
    if r.Ok? then (c.(sequence := c.sequence + 1, busy := false), r) else (c.(poisoned := true, busy := false), r)
  }

  /** The last word of each operation on its receipt; `good` is its digest or JSON check. */
  function OnCheck(c: Client, check: Check, good: bool): Client {
    match check.message
    case Record(_) => if |check.receipt| == 4 then c else c.(poisoned := true)
    case Callback(_, _) => if good then c else c.(poisoned := true)
    case Final(_) => if |check.receipt| == 32 && good then c.(terminal := true) else c.(poisoned := true)
  }

  // ---- the host ----

  predicate FrameReady(sent: seq<byte>, consumed: nat) {
    && consumed + HEADER <= |sent|
    && consumed + HEADER + ReadU32(sent[consumed..], 41) <= |sent|
  }

  /** The host reads one frame and appends it; anything unexpected stops it. */
  function Append(h: Host, key: seq<byte>, sent: seq<byte>): Host
    requires h.alive && FrameReady(sent, h.consumed)
  {
    var rest := sent[h.consumed..];
    var size := ReadU32(rest, 41);
    if rest[..4] != MAGIC || ReadU32(rest, 5) != |h.log| + 1 || rest[9..41] != key then h.(alive := false)
    else Host(true, h.log + [Appended(rest[4], |h.log| + 1, rest[HEADER..HEADER + size])], h.consumed + HEADER + size)
  }

  /** Read from a frame boundary on, the bytes acknowledge an entry beyond the `appended` ones. */
  predicate Forged(bytes: seq<byte>, n: nat, key: seq<byte>, appended: nat)
    decreases |bytes|
  {
    && AckHeaderOk(bytes, n, key) && ReadU32(bytes, 41) <= MAX_ACK
    && (|| n > appended
        || (&& HEADER + ReadU32(bytes, 41) <= |bytes|
            && Forged(bytes[HEADER + ReadU32(bytes, 41)..], n + 1, key, appended)))
  }

  /** What the stream has read of the current acknowledgement, and what it has not read yet. */
  function Unread(phase: Phase, replies: seq<byte>): seq<byte> {
    match phase
    case ReadingHeader(_, got) => got + replies
    case ReadingBody(_, header, got) => header + got + replies
    case _ => replies
  }

  // ---- the whole ----

  datatype Event =
    | Send(message: Message)
    | Write(delivered: nat, reported: nat)
    | Read(count: nat)
    | ReadFails
    | HostAppends
    | HostEmits(bytes: seq<byte>)
    | HostStops
    | Resume
    | Examine(index: nat, good: bool)

  function DoSend(y: System, m: Message): System
    requires |y.key| == 32 && Sendable(m)
  {
    if Closed(y.client) then y.(client := Refuse(y.client, m))
    else
      var f := Frame(KindOf(m), y.client.sequence + 1, y.key, PayloadOf(m));
      if f.Err? then y.(client := y.client.(poisoned := true))
      else
        var (stream, r) := Call(y.stream, y.key, f.value);
        if r.Err? then y.(stream := stream, client := y.client.(busy := true), reply := Rejected)
        else y.(stream := stream, client := y.client.(busy := true), started := y.started + [m])
  }

  /** A settled exchange waits for the client: as a reply, or as a rejection. */
  function Settle(y: System, stream: Stream, reply: Option<seq<byte>>): System {
    if reply.Some? then y.(stream := stream, reply := Returned(reply.value))
    else if stream.phase == Idle then y.(stream := stream, reply := Rejected)
    else y.(stream := stream)
  }

  /** The continuation of `send` after its await. */
  function Resumed(y: System): System {
    match y.reply
    case NoReply => y
    case Rejected => y.(client := y.client.(poisoned := true, busy := false), reply := NoReply)
    case Returned(raw) =>
      if y.started == [] then y
      else
        var (client, r) := OnReply(y.client, y.key, raw);
        var m := y.started[|y.started| - 1];
        if r.Err? then y.(client := client, reply := NoReply)
        else y.(client := client, reply := NoReply, acked := y.acked + [m], checks := y.checks + [Check(m, r.value)])
  }

  function Apply(y: System, e: Event): System
    requires Wf(y)
  {
    match e
    case Send(m) => if Sendable(m) then DoSend(y, m) else y
    case Write(delivered, reported) =>
      if || !y.stream.phase.Writing? || delivered > |NextPiece(y.stream)|
         || (reported == |NextPiece(y.stream)| && delivered != reported) then y
      else Settle(y.(sent := y.sent + NextPiece(y.stream)[..delivered]), OnWritten(y.stream, reported), None)
    case Read(count) =>
      if !Reading(y.stream) || count > |y.replies| then y
      else
        var (stream, reply) := OnRead(y.stream, y.key, y.replies[..count]);
        Settle(y.(replies := y.replies[count..]), stream, reply)
    case ReadFails => if Reading(y.stream) then Settle(y, Poison(y.stream), None) else y
    case HostAppends =>
      if !y.host.alive || !FrameReady(y.sent, y.host.consumed) then y else y.(host := Append(y.host, y.key, y.sent))
    case HostEmits(bytes) =>
      var replies := y.replies + bytes;
      if !y.host.alive || Forged(Unread(y.stream.phase, replies), y.stream.sequence + 1, y.key, |y.host.log|) then y
      else y.(replies := replies)
    case HostStops => y.(host := y.host.(alive := false))
    case Resume => Resumed(y)
    case Examine(index, good) =>
      if index >= |y.checks| then y
      else y.(client := OnCheck(y.client, y.checks[index], good), checks := y.checks[..index] + y.checks[index + 1..])
  }

  /** Shape facts that make every step well defined. */
  predicate Wf(y: System) {
    && |y.key| == 32
    && match y.stream.phase
       case Idle => true
       case Writing(request, offset) => HEADER <= |request| && offset <= |request|
       case ReadingHeader(request, _) => HEADER <= |request|
       case ReadingBody(request, header, _) => HEADER <= |request| && |header| == HEADER
  }

  /** A step keeps the shape, so runs are total. */
  lemma WfKept(y: System, e: Event)
    requires Wf(y)
    ensures Wf(Apply(y, e)) && Apply(y, e).key == y.key
  {
  }

  function Run(y: System, events: seq<Event>): System
    requires Wf(y)
    decreases |events|
  {
    if events == [] then y
    else
      WfKept(y, events[0]);
      Run(Apply(y, events[0]), events[1..])
  }
}
