/** The collector's ledger and the handoff together: every chunk the drain emits goes out as a
    callback, its receipt comes back to the ledger, and the closing message carries the committed
    snapshot. */
module FailureSession {
  import opened Basics
  import opened OrderedMaps
  import opened Frames
  import L = Ledger
  import LI = LedgerInvariant
  import H = Handoff

  /** What a session is set up with: the command, the digest, the snapshot encoder and the JSON
      text of a chunk's metadata. */
  datatype Setup = Setup(owner: L.Owner, digest: L.Digest, encode: L.Encoder, metadata: L.Chunk -> seq<byte>)

  /** What became of an emitted chunk: under way, acknowledged in the ledger, its receipt refused
      by the ledger, or its emission rejected by the client. */
  datatype Status = Waiting | Accepted | Refused | Failed

  /** What a started message was sent for. */
  datatype Call = NoCall | Emit(op: nat, chunk: L.Chunk, status: Status)

  datatype Session = Session(
    ledger: L.State,
    handoff: H.System,
    issued: map<nat, L.Chunk>,      // chunks read by the drain whose emission has not started
    calls: seq<Call>)               // one for each message the handoff started

  datatype Event =
    | Inside(step: L.Event)
    | Outside(event: H.Event)
    | DrainTurn(aborted: bool, now: nat)
    | Dispatch(op: nat)
    | Answer(call: nat, durableId: string, aborted: bool, now: nat, later: nat)
    | Reject(op: nat, aborted: bool, now: nat, later: nat)
    | Close(now: nat)

  /** A pending operation that waits for a receipt. */
  predicate Draining(ops: seq<Entry<nat, L.Operation>>, id: nat) {
    L.PendingIn(ops, id) && Get(ops, id).callback == L.AcknowledgeResult
  }

  predicate Emitting(ops: seq<Entry<nat, L.Operation>>, id: nat, owner: L.Owner) {
    Draining(ops, id) && Get(ops, id).owner == owner
  }

  predicate WaitingFor(c: Call, op: nat) { c.Emit? && c.status == Waiting && c.op == op }

  // ---- steps ----

  function Calls(calls: seq<Call>, before: seq<Message>, after: seq<Message>, call: Call): seq<Call> {
    if |after| > |before| then calls + [call] else calls
  }

  /** One turn of the drain; the chunk it emits is read in the same stretch. */
  function Drained(k: Setup, y: Session, aborted: bool, now: nat): Session {
    var t := L.DrainTurn(y.ledger, k.owner, aborted, now);
    var i := L.FirstOwned(y.ledger.artifacts, k.owner);
    if && t.ordinal > y.ledger.ordinal && i < |y.ledger.artifacts|
       && L.Readable(y.ledger, k.owner, y.ledger.artifacts[i].key) then
      var chunk := L.ReadChunk(y.ledger, k.digest, k.owner, y.ledger.artifacts[i].key);
      y.(ledger := t, issued := y.issued[t.ordinal := chunk])
    else y.(ledger := t)
  }

  function MessageOf(k: Setup, chunk: L.Chunk): Message { Callback(k.metadata(chunk), chunk.data) }

  /** The emission of an issued chunk starts: the client is asked to send it. */
  function Dispatched(k: Setup, y: Session, op: nat): Session
    requires H.Wf(y.handoff) && op in y.issued
  {
    var chunk := y.issued[op];
    var h := H.Apply(y.handoff, H.Send(MessageOf(k, chunk)));
    if |h.started| > |y.handoff.started| then
      y.(handoff := h, issued := y.issued - {op}, calls := y.calls + [Emit(op, chunk, Waiting)])
    else y.(handoff := h)
  }

  /** The receipt of call `i` reaches the ledger. */
  function Answered(k: Setup, y: Session, i: nat, durableId: string, aborted: bool, now: nat, later: nat): Session
    requires i < |y.calls| && y.calls[i].Emit?
  {
    var call := y.calls[i];
    var receipt := L.Echo(call.chunk, durableId);
    var ok := L.Acknowledge(y.ledger, k.digest, k.owner, receipt).1.Ok?;
    y.(ledger := L.Settle(y.ledger, k.digest, call.op, L.Durable(receipt), aborted, now, later),
       calls := y.calls[i := call.(status := if ok then Accepted else Refused)])
  }

  function FailCall(calls: seq<Call>, op: nat): seq<Call> {
    seq(|calls|, i requires 0 <= i < |calls| =>
      if WaitingFor(calls[i], op) then calls[i].(status := Failed) else calls[i])
  }

  /** `terminalFromCollector`: the barrier, then the closing message. */
  function Closing(k: Setup, y: Session, now: nat): Session
    requires H.Wf(y.handoff)
  {
    if H.Closed(y.handoff.client) then y
    else
      var (t, r) := L.Barrier(y.ledger, k.owner, now, k.encode);
      if r.Err? then y.(ledger := t)
      else
        var h := H.Apply(y.handoff, H.Send(Final(r.value)));
        y.(ledger := t, handoff := h, calls := Calls(y.calls, y.handoff.started, h.started, NoCall))
  }

  function Apply(k: Setup, y: Session, e: Event): Session
    requires H.Wf(y.handoff)
  {
    match e
    case Inside(step) => y.(ledger := L.Apply(y.ledger, k.digest, step))
    case Outside(event) =>
      var h := H.Apply(y.handoff, event);
      y.(handoff := h, calls := Calls(y.calls, y.handoff.started, h.started, NoCall))
    case DrainTurn(aborted, now) => Drained(k, y, aborted, now)
    case Dispatch(op) => if op in y.issued then Dispatched(k, y, op) else y
    case Answer(i, durableId, aborted, now, later) =>
      if i < |y.calls| && y.calls[i].Emit? then Answered(k, y, i, durableId, aborted, now, later) else y
    case Reject(op, aborted, now, later) =>
      Session(L.Settle(y.ledger, k.digest, op, L.Threw, aborted, now, later), y.handoff, y.issued - {op},
          FailCall(y.calls, op))
    case Close(now) => Closing(k, y, now)
  }

  /** What can happen. The ledger's own events come from elsewhere in the collector and keep its
      callers' promises; the client sends its records itself. A call is answered once, after the
      client counted its acknowledgement, and the host's receipt echoes the callback it is for.
      An emission is rejected before it started, or by a client that has failed. */
  ghost predicate Lawful(k: Setup, y: Session, e: Event) {
    match e
    case Inside(step) =>
      && LI.Lawful(y.ledger, step) && !step.Drain? && !step.Commit?
      && (step.Finish? ==> !Draining(y.ledger.ops, step.op))
    case Outside(event) => event.Send? ==> event.message.Record?
    case DrainTurn(_, _) => true
    case Dispatch(_) => true
    case Answer(i, durableId, _, now, later) =>
      && i < |y.calls| && y.calls[i].Emit? && y.calls[i].status == Waiting && i < |y.handoff.acked|
      && durableId != "" && now <= later
    case Reject(op, _, now, later) =>
      && Emitting(y.ledger.ops, op, k.owner) && now <= later
      && (op in y.issued || y.handoff.client.poisoned)
    case Close(_) => true
  }
}
