/** The failure-evidence ledger of one native collector, as a state machine.

    Every function is one synchronous stretch of the collector: what runs between two
    awaits. Clock readings, callback values and abort flags are parameters. The digest is
    an arbitrary function; nothing proved here assumes that it has no collisions. */
module Ledger {
  import opened Basics
  import opened OrderedMaps

  type Owner = string
  type Hash = string
  type Digest = seq<byte> -> Hash

  const CAPACITY := 128 * 1024 * 1024
  const SLOTS := 128
  const SOURCE_REFS := 4096
  const RETENTION_NS := 10_000_000_000
  const LATE_PREFIX := 65536

  datatype ArtifactId = Late(operation: nat) | Private(name: string)

  datatype Ref = Ref(sequence: nat, purpose: string, chunkIndex: nat, offset: nat, bytes: nat)

  datatype Artifact = Artifact(
    owner: Owner, bytes: seq<byte>, observed: nat, offset: nat, sha: Hash, receivedNs: nat,
    refs: seq<Entry<nat, Ref>>)

  datatype Inventory = Inventory(
    owner: Owner, observed: nat, retained: nat, sha: Hash, receivedNs: nat, acknowledged: nat,
    refs: seq<Entry<nat, Ref>>)

  datatype Callback = NoCallback | HoldResult(id: ArtifactId) | AcknowledgeResult

  datatype OpState = Pending | Fulfilled | Rejected

  datatype Operation = Operation(
    owner: Owner, stage: string, retention: bool, callback: Callback, deadline: nat,
    startedNs: nat, settledNs: Option<nat>, state: OpState, late: bool)

  datatype Handle = Handle(owner: Owner, kind: string)

  /** One acknowledged chunk, in the order the receipts were accepted. */
  datatype Acked = Acked(id: ArtifactId, offset: nat, data: seq<byte>)

  /** What the collector does not store but the properties speak of. */
  datatype History = History(
    observed: nat, released: nat, acked: seq<Acked>, content: map<ArtifactId, seq<byte>>)

  datatype State = State(
    failureStarted: Option<nat>,
    cause: string,
    artifacts: seq<Entry<ArtifactId, Artifact>>,
    inventory: seq<Entry<ArtifactId, Inventory>>,
    held: int,
    discarded: int,
    retainedBytes: int,
    retainedCount: int,
    seen: set<ArtifactId>,
    refCount: int,
    busy: bool,
    terminal: Option<Terminal>,
    handles: seq<Entry<nat, Handle>>,
    ordinal: nat,
    ops: seq<Entry<nat, Operation>>,
    used: set<Owner>,
    history: History)

  datatype Reported = Reported(
    id: ArtifactId, observed: int, retained: int, acknowledged: int, sha: Hash, receivedNs: nat,
    refs: seq<Ref>)

  datatype Disposition = PendingWork | Partial | Settled

  datatype Snapshot = Snapshot(
    owner: Owner, observedNs: nat, failureNs: nat, cause: string, discarded: int, held: int,
    operations: seq<Operation>, handles: seq<Entry<nat, Handle>>, artifacts: seq<Reported>,
    disposition: Disposition)

  /** The JSON bytes of a snapshot. */
  type Encoder = Snapshot -> seq<byte>

  datatype Terminal = Terminal(owner: Owner, bytes: seq<byte>)

  /** The row `readFailureChunk` produces; its byte count is the length of `data`. */
  datatype Chunk = Chunk(
    owner: Owner, id: ArtifactId, observed: nat, retained: nat, retainedSha: Hash,
    receivedNs: nat, failureNs: nat, deadlineNs: nat, offset: nat, sha: Hash,
    source: Option<Ref>, data: seq<byte>)

  datatype Receipt = Receipt(
    owner: Owner, id: ArtifactId, observed: nat, retained: nat, retainedSha: Hash,
    receivedNs: nat, failureNs: nat, deadlineNs: nat, offset: nat, bytes: nat, sha: Hash,
    source: Option<Ref>, durableId: string)

  function Echo(c: Chunk, durableId: string): Receipt {
    Receipt(c.owner, c.id, c.observed, c.retained, c.retainedSha, c.receivedNs, c.failureNs,
            c.deadlineNs, c.offset, |c.data|, c.sha, c.source, durableId)
  }

  const Init := State(
    None, "", [], [], 0, 0, 0, 0, {}, 0, false, None, [], 0, [], {}, History(0, 0, [], map[]))

  predicate Failed(s: State) { s.failureStarted.Some? }

  function HeldOf(a: Artifact): int { |a.bytes| }

  function RefsOf(a: Artifact): int { |a.refs| }

  function RetainedOf(v: Inventory): int { v.retained }

  function OutstandingOf(v: Inventory): int { v.retained - v.acknowledged }

  function InventoryRefsOf(v: Inventory): int { |v.refs| }

  /** Failure moves every artifact into the inventory, in order. */
  function Moved(a: Artifact): Inventory {
    Inventory(a.owner, a.observed, |a.bytes| + a.offset, a.sha, a.receivedNs, a.offset, a.refs)
  }

  function InventoryOf(m: seq<Entry<ArtifactId, Artifact>>): seq<Entry<ArtifactId, Inventory>> {
    seq(|m|, i requires 0 <= i < |m| => Entry(m[i].key, Moved(m[i].value)))
  }

  function FailOwnership(s: State, code: string, now: nat): State {
    if Failed(s) then s
    else
      var inventory := InventoryOf(s.artifacts);
      s.(failureStarted := Some(now), cause := code, inventory := inventory,
         retainedBytes := Sum(inventory, RetainedOf), retainedCount := |s.artifacts|,
         seen := Keys(s.artifacts))
  }

  /** How much of a new artifact the budgets admit. */
  function Admitted(s: State, size: nat, now: nat): (count: nat)
    ensures count <= size
  {
    var expired := Failed(s) && now >= s.failureStarted.value + RETENTION_NS;
    var available :=
      if expired then 0
      else Max(0, Min(CAPACITY - s.held, if Failed(s) then CAPACITY - s.retainedBytes else CAPACITY));
    if |s.artifacts| < SLOTS && (!Failed(s) || s.retainedCount < SLOTS) then Min(size, available) else 0
  }

  function Shelve(s: State, id: ArtifactId, a: Artifact): State {
    s.(artifacts := Put(s.artifacts, id, a), held := s.held + |a.bytes|,
       history := s.history.(content := s.history.content[id := a.bytes]))
  }

  function Enroll(s: State, id: ArtifactId, a: Artifact): State {
    s.(seen := s.seen + {id}, retainedBytes := s.retainedBytes + |a.bytes|,
       retainedCount := s.retainedCount + 1, inventory := Put(s.inventory, id, Moved(a)))
  }

  /** A stored artifact also enters the inventory once failure began. */
  function Store(s: State, digest: Digest, owner: Owner, id: ArtifactId, kept: seq<byte>, observed: nat,
                 now: nat): State {
    var a := Artifact(owner, kept, observed, 0, digest(kept), now, []);
    if Failed(s) then Enroll(Shelve(s, id, a), id, a) else Shelve(s, id, a)
  }

  predicate Holdable(s: State, id: ArtifactId) {
    s.terminal.None? && !Has(s.artifacts, id) && id !in s.seen
  }

  function Counted(s: State, observed: nat, count: nat): State {
    s.(discarded := s.discarded + (observed - count),
       history := s.history.(observed := s.history.observed + observed))
  }

  function Hold(s: State, digest: Digest, owner: Owner, id: ArtifactId, bytes: seq<byte>, observed: nat,
                now: nat): (State, Result<()>) {
    if s.terminal.Some? then (s, Err("failure-terminal-closed"))
    else if !Holdable(s, id) then (s, Err("duplicate-private-artifact"))
    else
      var count := Admitted(s, |bytes|, now);
      var s1 := Counted(s, observed, count);
      var s2 := if count < observed then FailOwnership(s1, "retention-quota", now) else s1;
      (if count > 0 then Store(s2, digest, owner, id, bytes[..count], observed, now) else s2, Ok(()))
  }

  function Release(s: State, id: ArtifactId): State {
    if !Has(s.artifacts, id) then s
    else
      var a := Get(s.artifacts, id);
      s.(refCount := s.refCount - |a.refs|, held := s.held - |a.bytes|,
         artifacts := Remove(s.artifacts, id),
         history := s.history.(released := s.history.released + |a.bytes|))
  }

  predicate RecordsSource(s: State, id: ArtifactId, ref: Ref, raw: seq<byte>) {
    && !Failed(s) && s.refCount < SOURCE_REFS && Has(s.artifacts, id)
    && var a := Get(s.artifacts, id);
       && !Has(a.refs, ref.offset)
       && ref.bytes == |raw| && ref.offset + ref.bytes <= |a.bytes|
       && a.bytes[ref.offset..ref.offset + ref.bytes] == raw
  }

  function RecordAckSource(s: State, id: ArtifactId, ref: Ref, raw: seq<byte>): State {
    if !RecordsSource(s, id, ref, raw) then s
    else
      var a := Get(s.artifacts, id);
      s.(artifacts := Put(s.artifacts, id, a.(refs := Put(a.refs, ref.offset, ref))), refCount := s.refCount + 1)
  }

  /** References whose bytes lie inside the acknowledged prefix. */
  function Covered(refs: seq<Entry<nat, Ref>>, acknowledged: nat): seq<Ref> {
    if refs == [] then []
    else
      var r := refs[0].value;
      (if r.offset + r.bytes <= acknowledged then [r] else []) + Covered(refs[1..], acknowledged)
  }

  function Report(e: Entry<ArtifactId, Inventory>): Reported {
    var v := e.value;
    Reported(e.key, v.observed, v.retained, v.acknowledged, v.sha, v.receivedNs, Covered(v.refs, v.acknowledged))
  }

  function Reports(m: seq<Entry<ArtifactId, Inventory>>, owner: Owner): seq<Reported> {
    if m == [] then []
    else (if m[0].value.owner == owner then [Report(m[0])] else []) + Reports(m[1..], owner)
  }

  function HandlesOf(m: seq<Entry<nat, Handle>>, owner: Owner): (r: seq<Entry<nat, Handle>>)
    ensures |r| <= |m|
  {
    if m == [] then []
    else (if m[0].value.owner == owner then [m[0]] else []) + HandlesOf(m[1..], owner)
  }

  predicate SomePending(m: seq<Entry<nat, Operation>>) {
    exists i :: 0 <= i < |m| && m[i].value.state == Pending
  }

  function SnapshotOf(s: State, owner: Owner, now: nat): Snapshot
    requires Failed(s)
  {
    Snapshot(owner, now, s.failureStarted.value, s.cause, s.discarded, s.held,
             seq(|s.ops|, i requires 0 <= i < |s.ops| => s.ops[i].value),
             HandlesOf(s.handles, owner), Reports(s.inventory, owner),
             if SomePending(s.ops) then PendingWork
             else if s.discarded != 0 || s.artifacts != [] || s.handles != [] then Partial
             else Settled)
  }

  /** Sums over the reported artifacts, as the wire gate accumulates them. */
  function Total(rows: seq<Reported>, f: Reported -> int): int {
    if rows == [] then 0 else Total(rows[..|rows| - 1], f) + f(rows[|rows| - 1])
  }

  function ReportedRetained(r: Reported): int { r.retained }

  function ReportedHeld(r: Reported): int { r.retained - r.acknowledged }

  function ReportedRefs(r: Reported): int { |r.refs| }

  predicate RefShape(r: Ref) {
    1 <= r.sequence <= RECORDS && r.offset <= CAPACITY && 1 <= r.bytes <= CHUNK
  }

  /** References follow one another without overlap, inside the acknowledged prefix. */
  predicate RefsInRange(refs: seq<Ref>, acknowledged: int) {
    && (forall i :: 0 <= i < |refs| ==> refs[i].offset + refs[i].bytes <= acknowledged)
    && (forall i, j :: 0 <= i < j < |refs| ==> refs[i].offset + refs[i].bytes <= refs[j].offset)
  }

  predicate RowShape(r: Reported) {
    && 0 <= r.observed && 1 <= r.retained <= CAPACITY && 0 <= r.acknowledged
    && |r.refs| <= SOURCE_REFS && (forall i :: 0 <= i < |r.refs| ==> RefShape(r.refs[i]))
  }

  predicate RowTotals(r: Reported) {
    r.observed >= r.retained && r.acknowledged <= r.retained && RefsInRange(r.refs, r.acknowledged)
  }

  predicate DistinctIds(rows: seq<Reported>) {
    forall i, j :: 0 <= i < j < |rows| ==> rows[i].id != rows[j].id
  }

  /** Failure version 2 of the wire contract: the numeric shape and the cumulative checks. */
  predicate GateOk(n: Snapshot) {
    && 0 <= n.discarded && 0 <= n.held <= CAPACITY
    && |n.operations| <= SLOTS && |n.handles| <= SLOTS && |n.artifacts| <= SLOTS
    && (forall i :: 0 <= i < |n.artifacts| ==> RowShape(n.artifacts[i]) && RowTotals(n.artifacts[i]))
    && DistinctIds(n.artifacts)
    && Total(n.artifacts, ReportedRetained) <= CAPACITY
    && Total(n.artifacts, ReportedRefs) <= SOURCE_REFS
    && Total(n.artifacts, ReportedHeld) == n.held
  }

  predicate Readable(s: State, owner: Owner, id: ArtifactId) {
    Failed(s) && Has(s.artifacts, id) && Get(s.artifacts, id).owner == owner
  }

  function ReadChunk(s: State, digest: Digest, owner: Owner, id: ArtifactId): Chunk
    requires Readable(s, owner, id)
  {
    var a := Get(s.artifacts, id);
    var data := a.bytes[..Min(CHUNK, |a.bytes|)];
    var refs := if Has(s.inventory, id) then Get(s.inventory, id).refs else [];
    var source := if Has(refs, a.offset) && Get(refs, a.offset).bytes == |data| then Some(Get(refs, a.offset))
        else None;
    Chunk(owner, id, a.observed, |a.bytes| + a.offset, a.sha, a.receivedNs, s.failureStarted.value,
          s.failureStarted.value + RETENTION_NS, a.offset, digest(data), source, data)
  }

  predicate Accepts(s: State, digest: Digest, owner: Owner, r: Receipt) {
    && s.terminal.None? && Readable(s, owner, r.id)
    && r == Echo(ReadChunk(s, digest, owner, r.id), r.durableId) && |r.durableId| > 0
  }

  /** The artifact without its first `n` bytes; an exhausted artifact is released. */
  function Consume(m: seq<Entry<ArtifactId, Artifact>>, id: ArtifactId, n: nat): seq<Entry<ArtifactId, Artifact>>
    requires Has(m, id) && n <= |Get(m, id).bytes|
  {
    var a := Get(m, id);
    if n == |a.bytes| then Remove(m, id) else Put(m, id, a.(offset := a.offset + n, bytes := a.bytes[n..]))
  }

  function Advance(s: State, digest: Digest, owner: Owner, id: ArtifactId): State
    requires Readable(s, owner, id) && Has(s.inventory, id)
  {
    var a := Get(s.artifacts, id);
    var row := ReadChunk(s, digest, owner, id);
    var n := |row.data|;
    s.(inventory := Put(s.inventory, id, Get(s.inventory, id).(acknowledged := a.offset + n)),
       held := s.held - n,
       artifacts := Consume(s.artifacts, id, n),
       refCount := if n == |a.bytes| then s.refCount - |a.refs| else s.refCount,
       history := s.history.(acked := s.history.acked + [Acked(id, a.offset, row.data)]))
  }

  /** The field updates of an accepted receipt, before an exhausted artifact is released. */
  function Written(s: State, id: ArtifactId, data: seq<byte>): State
    requires Has(s.artifacts, id) && Has(s.inventory, id) && |data| <= |Get(s.artifacts, id).bytes|
  {
    var a := Get(s.artifacts, id);
    var n := |data|;
    s.(inventory := Put(s.inventory, id, Get(s.inventory, id).(acknowledged := a.offset + n)),
       held := s.held - n,
       artifacts := Put(s.artifacts, id, a.(offset := a.offset + n, bytes := a.bytes[n..])),
       history := s.history.(acked := s.history.acked + [Acked(id, a.offset, data)]))
  }

  function Acknowledge(s: State, digest: Digest, owner: Owner, r: Receipt): (State, Result<()>) {
    if s.terminal.Some? then (s, Err("failure-terminal-closed"))
    else if !Readable(s, owner, r.id) then (s, Err("foreign-private-artifact"))
    else if !Accepts(s, digest, owner, r) || !Has(s.inventory, r.id) then (s, Err("failure-retention-ack"))
    else (Advance(s, digest, owner, r.id), Ok(()))
  }

  function FirstSettled(m: seq<Entry<nat, Operation>>): (i: nat)
    ensures i <= |m|
    ensures i < |m| ==> m[i].value.state != Pending
    ensures forall j :: 0 <= j < i ==> m[j].value.state == Pending
  {
    if m == [] then 0 else if m[0].value.state != Pending then 0 else 1 + FirstSettled(m[1..])
  }

  /** A full table gives up its oldest settled entry, never a pending one. */
  function Evict(m: seq<Entry<nat, Operation>>): seq<Entry<nat, Operation>> {
    var i := FirstSettled(m);
    if |m| >= SLOTS && i < |m| then m[..i] + m[i + 1..] else m
  }

  function Start(s: State, owner: Owner, stage: string, retention: bool, callback: Callback, deadline: nat,
                 aborted: bool, now: nat): (State, Result<nat>) {
    if s.terminal.Some? then (s, Err("failure-terminal-closed"))
    else if aborted then (FailOwnership(s, "cancelled", now), Err("cancelled"))
    else if now >= deadline then (FailOwnership(s, "deadline", now), Err("deadline"))
    else if !retention && Failed(s) then (s, Err(s.cause))
    else
      var ops := Evict(s.ops);
      if |ops| >= SLOTS then (FailOwnership(s.(ops := ops), "native-operation-quota", now),
          Err("native-operation-quota"))
      else
        var id := s.ordinal + 1;
        var op := Operation(owner, stage, retention, callback, deadline, now, None, Pending, false);
        (s.(ordinal := id, ops := Put(ops, id, op)), Ok(id))
  }

  /** What the awaited promise settled to. */
  datatype Outcome =
    | Threw
    | Opaque(raw: seq<byte>)
    | Screenshot(bytes: seq<byte>, observed: nat)
    | Durable(receipt: Receipt)

  predicate HandleStage(stage: string) {
    stage == "new-context" || stage == "new-page" || stage == "new-session" || stage == "browser-session"
  }

  predicate PendingIn(ops: seq<Entry<nat, Operation>>, id: nat) {
    Has(ops, id) && Get(ops, id).state == Pending
  }

  predicate LateSettlement(s: State, op: Operation, aborted: bool, now: nat) {
    Failed(s) || now >= op.deadline || aborted
  }

  /** The callback of a fulfilled operation, or the default treatment of a late result. */
  function Deliver(s: State, digest: Digest, id: nat, op: Operation, outcome: Outcome, late: bool,
                   now: nat): (State, Result<()>) {
    match op.callback
    case HoldResult(art) =>
      if outcome.Screenshot? then Hold(s, digest, op.owner, art, outcome.bytes, outcome.observed, now)
          else (s, Err("callback"))
    case AcknowledgeResult =>
      if outcome.Durable? then Acknowledge(s, digest, op.owner, outcome.receipt) else (s, Err("callback"))
    case NoCallback =>
      if !late || op.retention then (s, Ok(()))
      else if HandleStage(op.stage) then (s.(handles := Put(s.handles, id, Handle(op.owner, op.stage))), Ok(()))
      else
        var raw := if outcome.Opaque? then outcome.raw else [];
        Hold(s, digest, op.owner, Late(id), raw[..Min(LATE_PREFIX, |raw|)], |raw|, now)
  }

  /** A settled entry leaves the table unless it settled late outside a live retention window. */
  function CloseOp(s: State, id: nat, op: Operation, state: OpState, late: bool, aborted: bool, now: nat): State {
    if !late || (op.retention && now < op.deadline && !aborted) then s.(ops := Remove(s.ops, id))
    else s.(ops := Put(s.ops, id, op.(state := state, late := late, settledNs := Some(now))))
  }

  function Settle(s: State, digest: Digest, id: nat, outcome: Outcome, aborted: bool, now: nat, later: nat): State {
    if !PendingIn(s.ops, id) then s
    else
      var op := Get(s.ops, id);
      if outcome.Threw? then CloseOp(s, id, op, Rejected, Failed(s), aborted, now)
      else
        var late := LateSettlement(s, op, aborted, now);
        var (t, r) := Deliver(s, digest, id, op, outcome, late, now);
        if r.Err? then CloseOp(t, id, op, Rejected, late, aborted, now)
        else
          var u := CloseOp(t, id, op, Fulfilled, late, aborted, now);
          if !op.retention && (Failed(u) || later >= op.deadline || aborted) then
            FailOwnership(u, if aborted then "cancelled" else "deadline", later)
          else u
  }

  function FirstOwned(m: seq<Entry<ArtifactId, Artifact>>, owner: Owner): (i: nat)
    ensures i <= |m|
    ensures i < |m| ==> m[i].value.owner == owner
  {
    if m == [] then 0 else if m[0].value.owner == owner then 0 else 1 + FirstOwned(m[1..], owner)
  }

  /** One turn of the drain loop: start the next emit, wait for pending work, or stop. */
  function DrainTurn(s: State, owner: Owner, aborted: bool, now: nat): State {
    if !s.busy || !Failed(s) then s
    else
      var deadline := s.failureStarted.value + RETENTION_NS;
      var i := FirstOwned(s.artifacts, owner);
      if now >= deadline || aborted || (i == |s.artifacts| && !SomePending(s.ops)) then s.(busy := false)
      else
        var (t, r) :=
          if i < |s.artifacts| then
            Start(s, owner, "failure-retention-emit", true, AcknowledgeResult, deadline, aborted, now)
          else Start(s, owner, "failure-settlement-wait", true, NoCallback, deadline, aborted, now);
        if r.Err? then t.(busy := false) else t
  }

  predicate Encodes(encode: Encoder, n: Snapshot) { 0 < |encode(n)| <= FAILURE_SNAPSHOT }

  function Barrier(s: State, owner: Owner, now: nat, encode: Encoder): (State, Result<seq<byte>>) {
    if s.used != {owner} then (s, Err("foreign-failure-snapshot"))
    else if s.terminal.Some? then
      if s.terminal.value.owner != owner then (s, Err("foreign-failure-snapshot")) else (s, Ok(s.terminal.value.bytes))
    else if !Failed(s) || s.busy || SomePending(s.ops) then (s, Err("failure-terminal-not-ready"))
    else
      var snapshot := SnapshotOf(s, owner, now);
      if !GateOk(snapshot) then (s, Err("failure-v2"))
      else if !Encodes(encode, snapshot) then (s, Err("failure-snapshot-byte-bound"))
      else (s.(terminal := Some(Terminal(owner, encode(snapshot)))), Ok(encode(snapshot)))
  }

  datatype Event =
    | Collect(owner: Owner)
    | Interrupt(code: string, now: nat)
    | HoldNow(owner: Owner, id: ArtifactId, bytes: seq<byte>, observed: nat, now: nat)
    | ReleaseNow(id: ArtifactId)
    | DurableAck(id: ArtifactId, ref: Ref, raw: seq<byte>)
    | Begin(owner: Owner, stage: string, screenshot: Option<ArtifactId>, deadline: nat, aborted: bool, now: nat)
    | Finish(op: nat, outcome: Outcome, aborted: bool, now: nat, later: nat)
    | TransferHandle(owner: Owner, op: nat)
    | BeginDrain
    | Drain(owner: Owner, aborted: bool, now: nat)
    | EndDrain
    | Commit(owner: Owner, now: nat, encode: Encoder)

  /** One event; an event whose guard fails leaves the state as the guard leaves it. */
  function Apply(s: State, digest: Digest, e: Event): State {
    match e
    case Collect(owner) => if s.terminal.Some? || owner in s.used then s else s.(used := s.used + {owner})
    case Interrupt(code, now) => FailOwnership(s, code, now)
    case HoldNow(owner, id, bytes, observed, now) => Hold(s, digest, owner, id, bytes, observed, now).0
    case ReleaseNow(id) => Release(s, id)
    case DurableAck(id, ref, raw) => RecordAckSource(s, id, ref, raw)
    case Begin(owner, stage, screenshot, deadline, aborted, now) =>
      Start(s, owner, stage, false, if screenshot.Some? then HoldResult(screenshot.value)
          else NoCallback, deadline, aborted, now).0
    case Finish(op, outcome, aborted, now, later) => Settle(s, digest, op, outcome, aborted, now, later)
    case TransferHandle(owner, op) =>
      if s.terminal.None? && Has(s.handles, op)
          && Get(s.handles, op).owner == owner then s.(handles := Remove(s.handles, op)) else s
    case BeginDrain => if s.terminal.None? && Failed(s) && !s.busy then s.(busy := true) else s
    case Drain(owner, aborted, now) => DrainTurn(s, owner, aborted, now)
    case EndDrain => s.(busy := false)
    case Commit(owner, now, encode) => Barrier(s, owner, now, encode).0
  }

  function Run(s: State, digest: Digest, events: seq<Event>): State
    decreases |events|
  {
    if events == [] then s else Run(Apply(s, digest, events[0]), digest, events[1..])
  }
}
