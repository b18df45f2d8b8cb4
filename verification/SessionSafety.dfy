/** What every step of a session keeps. */
module SessionSafety {
  import opened Basics
  import opened OrderedMaps
  import opened Frames
  import opened FailureSession
  import L = Ledger
  import LI = LedgerInvariant
  import LT = LedgerTheorems
  import LR = LedgerReceipts
  import H = Handoff
  import HS = HandoffSafety

  // ---- what is kept ----

  /** Every callback that started carries the chunk of its call, and nothing else is a callback. */
  ghost predicate Linked(k: Setup, started: seq<Message>, calls: seq<Call>) {
    && |calls| == |started|
    && forall i :: 0 <= i < |calls| ==>
         if calls[i].Emit? then started[i] == MessageOf(k, calls[i].chunk) else !started[i].Callback?
  }

  function Length(s: L.State, id: L.ArtifactId): nat { |LI.Concat(s.history.acked, id)| }

  /** The source reference a chunk carries. */
  function SourceAt(refs: seq<Entry<nat, L.Ref>>, offset: nat, size: nat): Option<L.Ref> {
    if Has(refs, offset) && Get(refs, offset).bytes == size then Some(Get(refs, offset)) else None
  }

  /** The chunk is what the ledger reads, or has read, at its offset. */
  ghost predicate Pinned(k: Setup, s: L.State, c: L.Chunk) {
    && L.Failed(s) && Has(s.inventory, c.id) && c.id in s.history.content && c.offset <= Length(s, c.id)
    && var v, content := Get(s.inventory, c.id), s.history.content[c.id];
       && |content| == v.retained && v.owner == k.owner && c.offset < v.retained
       && c.data == content[c.offset..c.offset + Min(CHUNK, v.retained - c.offset)]
       && c == L.Chunk(k.owner, c.id, v.observed, v.retained, v.sha, v.receivedNs, s.failureStarted.value,
                       s.failureStarted.value + L.RETENTION_NS, c.offset, k.digest(c.data),
                       SourceAt(v.refs, c.offset, |c.data|), c.data)
  }

  ghost predicate AllPinned(k: Setup, s: L.State, issued: map<nat, L.Chunk>, calls: seq<Call>) {
    && (forall op :: op in issued ==> Pinned(k, s, issued[op]))
    && (forall i :: 0 <= i < |calls| && calls[i].Emit? ==> Pinned(k, s, calls[i].chunk))
  }

  /** Chunks under way belong to pending operations, one each. */
  ghost predicate AllPending(k: Setup, ops: seq<Entry<nat, L.Operation>>, issued: map<nat, L.Chunk>, calls: seq<Call>) {
    && (forall op :: op in issued ==> Emitting(ops, op, k.owner))
    && (forall i :: 0 <= i < |calls| && calls[i].Emit? && calls[i].status == Waiting ==>
          Emitting(ops, calls[i].op, k.owner) && calls[i].op !in issued)
    && (forall i, j :: 0 <= i < j < |calls| && calls[i].Emit? && calls[i].status == Waiting ==>
         !WaitingFor(calls[j], calls[i].op))
  }

  predicate Same(a: Call, id: L.ArtifactId) { a.Emit? && a.chunk.id == id }

  predicate Took(a: Call, id: L.ArtifactId) { Same(a, id) && a.status == Accepted }

  function End(c: L.Chunk): nat { c.offset + |c.data| }

  /** Acknowledged chunks of an artifact follow one another in the order they were sent; one sent
      after a chunk still under way reaches past that chunk's offset. */
  ghost predicate Ordered(calls: seq<Call>) {
    forall i, j :: 0 <= i < j < |calls| && calls[i].Emit? && Took(calls[j], calls[i].chunk.id) ==>
      && (calls[i].status == Accepted ==> End(calls[i].chunk) <= calls[j].chunk.offset)
      && (calls[i].status == Waiting ==> calls[i].chunk.offset < End(calls[j].chunk))
  }

  /** The data of the acknowledged chunks of an artifact, in the order they were sent. */
  function TakenData(calls: seq<Call>, id: L.ArtifactId): seq<byte>
    decreases |calls|
  {
    if calls == [] then []
    else
      var last := calls[|calls| - 1];
      TakenData(calls[..|calls| - 1], id) + if Took(last, id) then last.chunk.data else []
  }

  ghost predicate Repeated(calls: seq<Call>, c: L.Chunk) {
    exists j :: 0 <= j < |calls| && Took(calls[j], c.id) && calls[j].chunk.offset == c.offset
  }

  /** The ledger's acknowledged bytes are those of the calls, and a chunk the ledger is past was
      acknowledged for some call. */
  ghost predicate Settled(s: L.State, issued: map<nat, L.Chunk>, calls: seq<Call>) {
    && (forall id :: LI.Concat(s.history.acked, id) == TakenData(calls, id))
    && (forall i :: 0 <= i < |calls| && calls[i].Emit? ==>
          && (calls[i].status == Accepted ==> End(calls[i].chunk) <= Length(s, calls[i].chunk.id))
          && (calls[i].status == Refused ==> calls[i].chunk.offset < Length(s, calls[i].chunk.id))
          && (calls[i].chunk.offset < Length(s, calls[i].chunk.id) ==> Repeated(calls, calls[i].chunk)))
    && (forall op :: op in issued && issued[op].offset < Length(s, issued[op].id) ==> Repeated(calls, issued[op]))
  }

  predicate AnyFinal(started: seq<Message>) { exists i :: 0 <= i < |started| && started[i].Final? }

  /** A closing message carries the committed bytes, and those encode the frozen ledger. A failed
      emission leaves a failed client and no closing message. */
  ghost predicate Finished(k: Setup, s: L.State, started: seq<Message>, calls: seq<Call>, poisoned: bool) {
    && (forall i :: 0 <= i < |started| && started[i].Final? ==>
          s.terminal.Some? && started[i].snapshot == s.terminal.value.bytes)
    && (s.terminal.Some? ==> Committed(k, s))
    && (forall i :: 0 <= i < |calls| && calls[i].Emit? && calls[i].status == Failed ==> poisoned && !AnyFinal(started))
  }

  ghost predicate Committed(k: Setup, s: L.State) {
    && L.Failed(s) && s.terminal.Some? && s.terminal.value.owner == k.owner
    && exists now :: s.terminal.value.bytes == k.encode(L.SnapshotOf(s, k.owner, now))
  }

  ghost predicate Inv(k: Setup, y: Session) {
    && LI.Inv(y.ledger, k.digest) && HS.Inv(y.handoff)
    && Linked(k, y.handoff.started, y.calls)
    && Tracked(k, y.ledger, y.issued, y.calls)
    && Finished(k, y.ledger, y.handoff.started, y.calls, y.handoff.client.poisoned)
  }

  // ---- the ledger's side ----

  /** Nothing was acknowledged or committed between two states. */
  predicate Quiet(s: L.State, t: L.State) { t.history.acked == s.history.acked && t.terminal == s.terminal }

  lemma FailQuiet(s: L.State, code: string, now: nat)
    ensures Quiet(s, L.FailOwnership(s, code, now))
  {
  }

  lemma HoldQuiet(s: L.State, digest: L.Digest, owner: L.Owner, id: L.ArtifactId, bytes: seq<byte>, observed: nat,
                  now: nat)
    ensures Quiet(s, L.Hold(s, digest, owner, id, bytes, observed, now).0)
  {
    hide L.FailOwnership, Put, L.Admitted;
    var count := L.Admitted(s, |bytes|, now);
    FailQuiet(L.Counted(s, observed, count), "retention-quota", now);
  }

  lemma StartQuiet(s: L.State, owner: L.Owner, stage: string, retention: bool, callback: L.Callback, deadline: nat,
                   aborted: bool, now: nat)
    ensures Quiet(s, L.Start(s, owner, stage, retention, callback, deadline, aborted, now).0)
  {
    hide L.FailOwnership, Put, L.Evict;
    FailQuiet(s, "cancelled", now);
    FailQuiet(s, "deadline", now);
    FailQuiet(s.(ops := L.Evict(s.ops)), "native-operation-quota", now);
  }

  lemma DeliverQuiet(s: L.State, digest: L.Digest, id: nat, op: L.Operation, outcome: L.Outcome, late: bool, now: nat)
    requires !(op.callback.AcknowledgeResult? && outcome.Durable?)
    ensures Quiet(s, L.Deliver(s, digest, id, op, outcome, late, now).0)
  {
    hide L.Hold, L.Acknowledge, Put;
    match op.callback
    case HoldResult(art) =>
      if outcome.Screenshot? {
        HoldQuiet(s, digest, op.owner, art, outcome.bytes, outcome.observed, now);
      }
    case AcknowledgeResult =>
    case NoCallback =>
      var raw := if outcome.Opaque? then outcome.raw else [];
      HoldQuiet(s, digest, op.owner, L.Late(id), raw[..Min(L.LATE_PREFIX, |raw|)], |raw|, now);
  }

  /** What a settlement leaves is what its callback left, as far as receipts and barrier go. */
  lemma SettleQuiet(s: L.State, digest: L.Digest, id: nat, outcome: L.Outcome, aborted: bool, now: nat, later: nat)
    requires L.PendingIn(s.ops, id) && !outcome.Threw?
    ensures
      var op := Get(s.ops, id);
      Quiet(L.Deliver(s, digest, id, op, outcome, L.LateSettlement(s, op, aborted, now), now).0,
            L.Settle(s, digest, id, outcome, aborted, now, later))
  {
    hide L.Deliver, L.FailOwnership, Put, Remove;
    var op := Get(s.ops, id);
    var late := L.LateSettlement(s, op, aborted, now);
    var (t, r) := L.Deliver(s, digest, id, op, outcome, late, now);
    FailQuiet(L.CloseOp(t, id, op, L.Fulfilled, late, aborted, now), if aborted then "cancelled" else "deadline",
              later);
  }

  /** Only a receipt changes what is acknowledged, and only the barrier commits. */
  lemma QuietStep(s: L.State, digest: L.Digest, e: L.Event)
    requires !e.Commit? && !(e.Finish? && Draining(s.ops, e.op) && e.outcome.Durable?)
    ensures Quiet(s, L.Apply(s, digest, e))
  {
    hide L.GateOk, L.SnapshotOf, L.RecordsSource, Put, Remove, L.Start, L.Hold, L.FailOwnership, L.Deliver;
    match e
    case Interrupt(code, now) => FailQuiet(s, code, now);
    case HoldNow(owner, id, bytes, observed, now) => HoldQuiet(s, digest, owner, id, bytes, observed, now);
    case Begin(owner, stage, screenshot, deadline, aborted, now) =>
      StartQuiet(s, owner, stage, false, if screenshot.Some? then L.HoldResult(screenshot.value) else L.NoCallback,
                 deadline, aborted, now);
    case Finish(id, outcome, aborted, now, later) =>
      if L.PendingIn(s.ops, id) && !outcome.Threw? {
        SettleQuiet(s, digest, id, outcome, aborted, now, later);
        var op := Get(s.ops, id);
        DeliverQuiet(s, digest, id, op, outcome, L.LateSettlement(s, op, aborted, now), now);
      }
    case Drain(owner, aborted, now) =>
      if s.busy && L.Failed(s) {
        var deadline := s.failureStarted.value + L.RETENTION_NS;
        StartQuiet(s, owner, "failure-retention-emit", true, L.AcknowledgeResult, deadline, aborted, now);
        StartQuiet(s, owner, "failure-settlement-wait", true, L.NoCallback, deadline, aborted, now);
      }
    case _ =>
  }

  lemma Acknowledged(s: L.State, digest: L.Digest, id: L.ArtifactId)
    requires LI.Inv(s, digest) && L.Failed(s) && Has(s.inventory, id)
    ensures Get(s.inventory, id).acknowledged == Length(s, id)
  {
    assert LI.InventoryOk(s.history, digest, id, Get(s.inventory, id));
  }

  lemma PinnedKept(k: Setup, s: L.State, t: L.State, c: L.Chunk)
    requires LI.Inv(s, k.digest) && LI.Inv(t, k.digest) && LR.Stable(s, t) && Pinned(k, s, c)
    ensures Pinned(k, t, c)
  {
    hide LI.Inv, LI.Concat;
    Acknowledged(s, k.digest, c.id);
    Acknowledged(t, k.digest, c.id);
  }

  lemma AllPinnedKept(k: Setup, s: L.State, t: L.State, issued: map<nat, L.Chunk>, calls: seq<Call>)
    requires LI.Inv(s, k.digest) && LI.Inv(t, k.digest) && LR.Stable(s, t) && AllPinned(k, s, issued, calls)
    ensures AllPinned(k, t, issued, calls)
  {
    hide LI.Inv, LR.Stable, Pinned;
    forall op | op in issued ensures Pinned(k, t, issued[op]) {
      PinnedKept(k, s, t, issued[op]);
    }
    forall i | 0 <= i < |calls| && calls[i].Emit? ensures Pinned(k, t, calls[i].chunk) {
      PinnedKept(k, s, t, calls[i].chunk);
    }
  }

  /** A chunk is determined by its artifact and offset. */
  lemma PinnedOnce(k: Setup, s: L.State, a: L.Chunk, b: L.Chunk)
    requires Pinned(k, s, a) && Pinned(k, s, b) && a.id == b.id && a.offset == b.offset
    ensures a == b
  {
  }

  lemma ReadPinned(k: Setup, s: L.State, id: L.ArtifactId)
    requires LI.Inv(s, k.digest) && L.Readable(s, k.owner, id)
    ensures
      var c := L.ReadChunk(s, k.digest, k.owner, id);
      Pinned(k, s, c) && c.id == id && c.offset == Length(s, id) && c.data != []
  {
    LR.ChunkContent(s, k.digest, k.owner, id);
    Acknowledged(s, k.digest, id);
    assert Get(s.inventory, id) == L.Moved(Get(s.artifacts, id));
    assert LI.InventoryOk(s.history, k.digest, id, Get(s.inventory, id));
  }

  lemma PendingKept(k: Setup, s: L.State, e: L.Event, issued: map<nat, L.Chunk>, calls: seq<Call>)
    requires LI.Inv(s, k.digest) && AllPending(k, s.ops, issued, calls)
    requires e.Finish? ==> !Draining(s.ops, e.op)
    ensures AllPending(k, L.Apply(s, k.digest, e).ops, issued, calls)
  {
    hide LI.Evidence, LI.Operations, L.Apply;
    forall op | Emitting(s.ops, op, k.owner) ensures Emitting(L.Apply(s, k.digest, e).ops, op, k.owner) {
      LR.OwnedStep(s, k.digest, e, op, Get(s.ops, op));
    }
  }

  // ---- the handoff's side ----

  /** A step starts at most the message it was asked to send, and never mends a failed client. */
  lemma HandoffStep(y: H.System, e: H.Event)
    requires H.Wf(y)
    ensures
      var t := H.Apply(y, e);
      && (t.started == y.started || (e.Send? && Sendable(e.message) && t.started == y.started + [e.message]))
      && (y.client.poisoned ==> t.client.poisoned)
      && (H.Closed(y.client) ==> t.started == y.started)
  {
    hide H.OnRead, H.OnWritten, H.Append, H.FrameReady, H.Forged, RequestOk, Layout, AckPayload;
  }

  // ---- calls ----

  lemma TakenAppend(calls: seq<Call>, c: Call, id: L.ArtifactId)
    ensures TakenData(calls + [c], id) == TakenData(calls, id) + if Took(c, id) then c.chunk.data else []
  {
    assert (calls + [c])[..|calls|] == calls;
  }

  lemma {:induction false} TakenSame(a: seq<Call>, b: seq<Call>, id: L.ArtifactId)
    requires |a| == |b|
    requires forall i :: 0 <= i < |a| ==> (Took(a[i], id) <==> Took(b[i], id))
    requires forall i :: 0 <= i < |a| && Took(a[i], id) && b[i].Emit? ==> a[i].chunk == b[i].chunk
    ensures TakenData(a, id) == TakenData(b, id)
    decreases |a|
  {
    if a != [] {
      TakenSame(a[..|a| - 1], b[..|b| - 1], id);
    }
  }

  /** Acknowledging a call after which no chunk of the artifact was acknowledged appends its data. */
  lemma {:induction false} TakenLast(calls: seq<Call>, i: nat, c: Call, id: L.ArtifactId)
    requires i < |calls| && Took(c, id) && !Took(calls[i], id)
    requires forall j :: i < j < |calls| ==> !Took(calls[j], id)
    ensures TakenData(calls[i := c], id) == TakenData(calls, id) + c.chunk.data
    decreases |calls|
  {
    var n := |calls| - 1;
    var next := calls[i := c];
    if i == n {
      assert next[..n] == calls[..n];
    } else {
      TakenLast(calls[..n], i, c, id);
      assert next[..n] == calls[..n][i := c];
    }
  }

  lemma RepeatedMore(calls: seq<Call>, more: seq<Call>, c: L.Chunk)
    requires Repeated(calls, c) && |calls| <= |more|
    requires forall j :: 0 <= j < |calls| && Took(calls[j], c.id) ==> more[j] == calls[j]
    ensures Repeated(more, c)
  {
    var j :| 0 <= j < |calls| && Took(calls[j], c.id) && calls[j].chunk.offset == c.offset;
    assert more[j] == calls[j];
  }

  lemma PinnedAdded(k: Setup, s: L.State, issued: map<nat, L.Chunk>, calls: seq<Call>, left: map<nat, L.Chunk>, c: Call)
    requires AllPinned(k, s, issued, calls) && (forall op :: op in left ==> op in issued && left[op] == issued[op])
    requires c.Emit? ==> c.op in issued && issued[c.op] == c.chunk
    ensures AllPinned(k, s, left, calls + [c])
  {
    hide Pinned;
  }

  lemma PendingAdded(k: Setup, ops: seq<Entry<nat, L.Operation>>, issued: map<nat, L.Chunk>, calls: seq<Call>,
                     left: map<nat, L.Chunk>, c: Call)
    requires AllPending(k, ops, issued, calls) && (forall op :: op in left ==> op in issued)
    requires c.Emit? ==> c.op in issued && c.op !in left
    ensures AllPending(k, ops, left, calls + [c])
  {
    hide Emitting;
    var all := calls + [c];
    forall i, j | 0 <= i < j < |all| && all[i].Emit? && all[i].status == Waiting
      ensures !WaitingFor(all[j], all[i].op)
    {
      assert all[i] == calls[i];
      if j < |calls| {
        assert all[j] == calls[j];
      }
    }
  }

  lemma OrderAdded(calls: seq<Call>, c: Call)
    requires Ordered(calls) && (c.Emit? ==> c.status != Accepted)
    ensures Ordered(calls + [c])
  {
    var all := calls + [c];
    assert forall i :: 0 <= i < |calls| ==> all[i] == calls[i];
  }

  lemma SettledAdded(s: L.State, issued: map<nat, L.Chunk>, calls: seq<Call>, left: map<nat, L.Chunk>, c: Call)
    requires Settled(s, issued, calls) && (forall op :: op in left ==> op in issued && left[op] == issued[op])
    requires c.Emit? ==> c.status == Waiting && c.op in issued && issued[c.op] == c.chunk
    ensures Settled(s, left, calls + [c])
  {
    hide LI.Concat;
    var all := calls + [c];
    assert forall i :: 0 <= i < |calls| ==> all[i] == calls[i];
    forall id ensures LI.Concat(s.history.acked, id) == TakenData(all, id) {
      TakenAppend(calls, c, id);
    }
    forall x | Repeated(calls, x) ensures Repeated(all, x) {
      RepeatedMore(calls, all, x);
    }
  }

  /** What holds of chunks and calls. */
  ghost predicate Tracked(k: Setup, s: L.State, issued: map<nat, L.Chunk>, calls: seq<Call>) {
    AllPinned(k, s, issued, calls) && AllPending(k, s.ops, issued, calls) && Ordered(calls) && Settled(s, issued, calls)
  }

  /** A message starts: its call is added at the end, under way or none. */
  lemma CallAdded(k: Setup, s: L.State, issued: map<nat, L.Chunk>, calls: seq<Call>, left: map<nat, L.Chunk>, c: Call)
    requires Tracked(k, s, issued, calls)
    requires c.NoCall? ==> left == issued
    requires c.Emit? ==> c.status == Waiting && c.op in issued && issued[c.op] == c.chunk && left == issued - {c.op}
    ensures Tracked(k, s, left, calls + [c])
  {
    hide AllPinned, AllPending, Ordered, Settled;
    PinnedAdded(k, s, issued, calls, left, c);
    PendingAdded(k, s.ops, issued, calls, left, c);
    OrderAdded(calls, c);
    SettledAdded(s, issued, calls, left, c);
  }

  lemma LinkedAdded(k: Setup, started: seq<Message>, calls: seq<Call>, m: Message, c: Call)
    requires Linked(k, started, calls) && if c.Emit? then m == MessageOf(k, c.chunk) else !m.Callback?
    ensures Linked(k, started + [m], calls + [c])
  {
  }

  // ---- every step keeps it ----

  /** A quiet step of the ledger changes nothing of what is tracked. */
  lemma TrackedQuiet(k: Setup, s: L.State, e: L.Event, issued: map<nat, L.Chunk>, calls: seq<Call>)
    requires LI.Inv(s, k.digest) && LI.Lawful(s, e) && Tracked(k, s, issued, calls)
    requires !e.Commit? && (e.Finish? ==> !Draining(s.ops, e.op))
    ensures LI.Inv(L.Apply(s, k.digest, e), k.digest) && Tracked(k, L.Apply(s, k.digest, e), issued, calls)
    ensures Quiet(s, L.Apply(s, k.digest, e)) && LR.Stable(s, L.Apply(s, k.digest, e))
  {
    hide LI.Inv, LR.Stable, LI.Lawful, L.Apply, AllPinned, AllPending, Ordered;
    LT.StepKeeps(s, k.digest, e);
    LR.StableStep(s, k.digest, e);
    QuietStep(s, k.digest, e);
    AllPinnedKept(k, s, L.Apply(s, k.digest, e), issued, calls);
    PendingKept(k, s, e, issued, calls);
  }

  /** A committed ledger is frozen. */
  lemma CommittedKept(k: Setup, s: L.State, e: L.Event)
    requires LI.Inv(s, k.digest) && LI.Lawful(s, e) && Quiet(s, L.Apply(s, k.digest, e))
    requires s.terminal.Some? ==> Committed(k, s)
    ensures L.Apply(s, k.digest, e).terminal.Some? ==> Committed(k, L.Apply(s, k.digest, e))
  {
    hide LI.Inv, LI.Lawful, Committed, L.Apply;
    if s.terminal.Some? {
      LR.FrozenStep(s, k.digest, e);
    }
  }

  lemma InsideKeeps(k: Setup, y: Session, step: L.Event)
    requires Inv(k, y) && Lawful(k, y, Inside(step))
    ensures H.Wf(y.handoff) && Inv(k, Apply(k, y, Inside(step)))
  {
    hide LI.Inv, HS.Inv, LI.Lawful, L.Apply, Linked, Tracked, Committed;
    InvWf(k, y);
    TrackedQuiet(k, y.ledger, step, y.issued, y.calls);
    CommittedKept(k, y.ledger, step);
  }

  lemma InvWf(k: Setup, y: Session)
    requires HS.Inv(y.handoff)
    ensures H.Wf(y.handoff)
  {
  }

  lemma FinishedAdded(k: Setup, s: L.State, started: seq<Message>, calls: seq<Call>, poisoned: bool, m: Message,
                      c: Call)
    requires Finished(k, s, started, calls, poisoned) && (c.Emit? ==> c.status == Waiting)
    requires m.Final? ==> s.terminal.Some? && m.snapshot == s.terminal.value.bytes && !poisoned
    ensures Finished(k, s, started + [m], calls + [c], poisoned)
  {
    hide Committed;
    var all, cs := started + [m], calls + [c];
    assert forall i :: 0 <= i < |started| ==> all[i] == started[i];
    assert AnyFinal(all) ==> AnyFinal(started) || m.Final?;
    assert forall i :: 0 <= i < |cs| && cs[i].Emit? && cs[i].status == Failed ==> i < |calls| && cs[i] == calls[i];
  }

  lemma OutsideKeeps(k: Setup, y: Session, event: H.Event)
    requires Inv(k, y) && Lawful(k, y, Outside(event))
    ensures H.Wf(y.handoff) && Inv(k, Apply(k, y, Outside(event)))
  {
    hide LI.Inv, HS.Inv, H.Apply, Linked, Tracked, Committed;
    InvWf(k, y);
    HS.StepKeeps(y.handoff, event);
    HandoffStep(y.handoff, event);
    if |H.Apply(y.handoff, event).started| > |y.handoff.started| {
      CallAdded(k, y.ledger, y.issued, y.calls, y.issued, NoCall);
      LinkedAdded(k, y.handoff.started, y.calls, event.message, NoCall);
      FinishedAdded(k, y.ledger, y.handoff.started, y.calls, y.handoff.client.poisoned, event.message, NoCall);
    }
  }

  lemma DispatchKeeps(k: Setup, y: Session, op: nat)
    requires Inv(k, y)
    ensures H.Wf(y.handoff) && Inv(k, Apply(k, y, Dispatch(op)))
  {
    hide LI.Inv, HS.Inv, H.Apply, Linked, Tracked, Committed;
    InvWf(k, y);
    if op in y.issued {
      var m := MessageOf(k, y.issued[op]);
      var c := Emit(op, y.issued[op], Waiting);
      HS.StepKeeps(y.handoff, H.Send(m));
      HandoffStep(y.handoff, H.Send(m));
      if |H.Apply(y.handoff, H.Send(m)).started| > |y.handoff.started| {
        CallAdded(k, y.ledger, y.issued, y.calls, y.issued - {op}, c);
        LinkedAdded(k, y.handoff.started, y.calls, m, c);
        FinishedAdded(k, y.ledger, y.handoff.started, y.calls, y.handoff.client.poisoned, m, c);
      }
    }
  }

  // ---- the drain issues a chunk ----

  lemma DrainIssues(s: L.State, digest: L.Digest, owner: L.Owner, aborted: bool, now: nat)
    requires LI.Operations(s) && L.FirstOwned(s.artifacts, owner) < |s.artifacts|
    requires L.DrainTurn(s, owner, aborted, now).ordinal > s.ordinal
    ensures
      var t := L.DrainTurn(s, owner, aborted, now);
      t.ordinal == s.ordinal + 1 && Emitting(t.ops, t.ordinal, owner)
  {
    hide L.FirstOwned, L.FailOwnership, L.Evict;
    var deadline := s.failureStarted.value + L.RETENTION_NS;
    var op := L.Operation(owner, "failure-retention-emit", true, L.AcknowledgeResult, deadline, now, None, L.Pending,
                    false);
    PutLookup(L.Evict(s.ops), s.ordinal + 1, op, s.ordinal + 1);
    StartOrdinal(s, owner, aborted, now, deadline);
  }

  lemma StartOrdinal(s: L.State, owner: L.Owner, aborted: bool, now: nat, deadline: nat)
    ensures
      var (t, r) := L.Start(s, owner, "failure-retention-emit", true, L.AcknowledgeResult, deadline, aborted, now);
      r.Err? ==> t.ordinal == s.ordinal
  {
  }

  lemma IssuedAdded(k: Setup, s: L.State, issued: map<nat, L.Chunk>, calls: seq<Call>, op: nat, c: L.Chunk)
    requires Tracked(k, s, issued, calls) && Pinned(k, s, c) && Emitting(s.ops, op, k.owner)
    requires op !in issued && forall i :: 0 <= i < |calls| ==> !WaitingFor(calls[i], op)
    requires c.offset == Length(s, c.id)
    ensures Tracked(k, s, issued[op := c], calls)
  {
    hide Pinned, Emitting, Ordered, LI.Concat;
  }

  /** Operations of chunks under way have older numbers than the next one. */
  lemma OlderOps(k: Setup, s: L.State, issued: map<nat, L.Chunk>, calls: seq<Call>)
    requires LI.Operations(s) && AllPending(k, s.ops, issued, calls)
    ensures s.ordinal + 1 !in issued && forall i :: 0 <= i < |calls| ==> !WaitingFor(calls[i], s.ordinal + 1)
  {
    assert !Has(s.ops, s.ordinal + 1);
  }

  lemma DrainKeeps(k: Setup, y: Session, aborted: bool, now: nat)
    requires Inv(k, y)
    ensures H.Wf(y.handoff) && Inv(k, Apply(k, y, DrainTurn(aborted, now)))
  {
    hide LI.Evidence, LI.Operations, HS.Inv, Linked, AllPinned, AllPending, Ordered, Settled, Committed, L.DrainTurn,
         L.ReadChunk, L.Readable, L.FirstOwned, LR.Stable, Pinned, Emitting;
    InvWf(k, y);
    var s, t := y.ledger, L.DrainTurn(y.ledger, k.owner, aborted, now);
    var e := L.Drain(k.owner, aborted, now);
    LT.ApplyDrain(s, k.digest, e);
    TrackedQuiet(k, s, e, y.issued, y.calls);
    CommittedKept(k, s, e);
    var i := L.FirstOwned(s.artifacts, k.owner);
    if t.ordinal > s.ordinal && i < |s.artifacts| && L.Readable(s, k.owner, s.artifacts[i].key) {
      var c := L.ReadChunk(s, k.digest, k.owner, s.artifacts[i].key);
      ReadPinned(k, s, s.artifacts[i].key);
      PinnedKept(k, s, t, c);
      DrainIssues(s, k.digest, k.owner, aborted, now);
      OlderOps(k, s, y.issued, y.calls);
      IssuedAdded(k, t, y.issued, y.calls, t.ordinal, c);
    }
  }

  // ---- a receipt arrives ----

  /** The receipt of a chunk under way is accepted exactly when the chunk is the next one. */
  lemma AnswerIff(k: Setup, s: L.State, c: L.Chunk, op: nat, durableId: string)
    requires LI.Inv(s, k.digest) && Pinned(k, s, c) && Emitting(s.ops, op, k.owner) && durableId != ""
    ensures
      var (t, r) := L.Acknowledge(s, k.digest, k.owner, L.Echo(c, durableId));
      && (r.Ok? <==> c.offset == Length(s, c.id))
      && t.history.acked == (if r.Ok? then s.history.acked + [L.Acked(c.id, c.offset, c.data)] else s.history.acked)
      && t.terminal == s.terminal
  {
    hide LI.Inv, Pinned, L.ReadChunk, L.Advance, LI.Concat;
    LR.PendingBlocks(s, k.digest, op);
    var receipt := L.Echo(c, durableId);
    if c.offset == Length(s, c.id) {
      NextReadable(k, s, c);
      ReadPinned(k, s, c.id);
      PinnedOnce(k, s, c, L.ReadChunk(s, k.digest, k.owner, c.id));
    }
    if L.Readable(s, k.owner, c.id) {
      ReadPinned(k, s, c.id);
      PinnedInventory(k, s, c);
      if L.Accepts(s, k.digest, k.owner, receipt) {
        var n := L.ReadChunk(s, k.digest, k.owner, c.id);
        assert n.offset == c.offset;
        PinnedOnce(k, s, c, n);
        AdvanceHistory(s, k.digest, k.owner, c.id);
      }
    }
  }

  lemma PinnedInventory(k: Setup, s: L.State, c: L.Chunk)
    requires Pinned(k, s, c)
    ensures Has(s.inventory, c.id)
  {
  }

  lemma AdvanceHistory(s: L.State, digest: L.Digest, owner: L.Owner, id: L.ArtifactId)
    requires L.Readable(s, owner, id) && Has(s.inventory, id)
    ensures
      var n := L.ReadChunk(s, digest, owner, id);
      var t := L.Advance(s, digest, owner, id);
      && t.history.acked == s.history.acked + [L.Acked(id, n.offset, n.data)]
      && t.terminal == s.terminal
  {
    hide L.Consume, Put;
  }

  /** The next chunk of an artifact that is not fully acknowledged can be read. */
  lemma NextReadable(k: Setup, s: L.State, c: L.Chunk)
    requires LI.Inv(s, k.digest) && Pinned(k, s, c) && c.offset == Length(s, c.id)
    ensures L.Readable(s, k.owner, c.id)
  {
    Acknowledged(s, k.digest, c.id);
    assert LI.Mirrors(s.inventory, s.artifacts);
    assert Has(s.artifacts, c.id);
    assert Get(s.inventory, c.id) == L.Moved(Get(s.artifacts, c.id));
  }

  /** What the ledger has after the receipt of a call. */
  lemma AnswerLedger(k: Setup, s: L.State, c: L.Chunk, op: nat, durableId: string, aborted: bool, now: nat, later: nat)
    requires LI.Inv(s, k.digest) && Pinned(k, s, c) && Emitting(s.ops, op, k.owner) && durableId != "" && now <= later
    ensures
      var t := L.Settle(s, k.digest, op, L.Durable(L.Echo(c, durableId)), aborted, now, later);
      && LI.Inv(t, k.digest) && LR.Stable(s, t) && t.terminal == s.terminal
      && t.history.acked ==
           (if c.offset == Length(s, c.id) then s.history.acked + [L.Acked(c.id, c.offset, c.data)]
               else s.history.acked)
  {
    hide LI.Evidence, LI.Operations, Pinned, LR.Stable, L.Settle, L.Acknowledge, L.Echo, LI.Concat;
    var outcome := L.Durable(L.Echo(c, durableId));
    var e := L.Finish(op, outcome, aborted, now, later);
    ApplyFinish(s, k.digest, e);
    LT.StepKeeps(s, k.digest, e);
    LR.StableStep(s, k.digest, e);
    AnswerIff(k, s, c, op, durableId);
    SettleQuiet(s, k.digest, op, outcome, aborted, now, later);
  }

  lemma ApplyFinish(s: L.State, digest: L.Digest, e: L.Event)
    requires e.Finish?
    ensures L.Apply(s, digest, e) == L.Settle(s, digest, e.op, e.outcome, e.aborted, e.now, e.later)
  {
    hide L.Settle;
  }

  /** The other operations under way stay pending. */
  lemma OthersPending(k: Setup, s: L.State, op: nat, outcome: L.Outcome, aborted: bool, now: nat, later: nat,
                      issued: map<nat, L.Chunk>, calls: seq<Call>, left: map<nat, L.Chunk>, next: seq<Call>)
    requires LI.Operations(s) && AllPending(k, s.ops, issued, calls)
    requires forall x :: x in left ==> x in issued && x != op
    requires |next| == |calls| && forall i :: 0 <= i < |calls| ==>
               (next[i] == calls[i] && !WaitingFor(calls[i], op)) || (next[i].Emit? && next[i].status != Waiting)
    ensures AllPending(k, L.Settle(s, k.digest, op, outcome, aborted, now, later).ops, left, next)
  {
    hide LI.Operations, L.Settle;
    forall x | Emitting(s.ops, x, k.owner) && x != op
      ensures Emitting(L.Settle(s, k.digest, op, outcome, aborted, now, later).ops, x, k.owner)
    {
      LR.OwnedSettle(s, k.digest, op, outcome, aborted, now, later, x, Get(s.ops, x));
    }
  }

  lemma AcceptOrder(k: Setup, s: L.State, issued: map<nat, L.Chunk>, calls: seq<Call>, i: nat)
    requires AllPinned(k, s, issued, calls) && Ordered(calls) && Settled(s, issued, calls)
    requires i < |calls| && calls[i].Emit? && calls[i].status == Waiting
    requires calls[i].chunk.offset == Length(s, calls[i].chunk.id)
    ensures Ordered(calls[i := calls[i].(status := Accepted)])
    ensures forall j :: i < j < |calls| ==> !Took(calls[j], calls[i].chunk.id)
  {
    hide LI.Concat, TakenData, Repeated;
    assert Pinned(k, s, calls[i].chunk);
  }

  /** The accepted data goes to the end of its artifact, on both sides. */
  lemma AcceptData(s: L.State, t: L.State, calls: seq<Call>, i: nat, id: L.ArtifactId)
    requires i < |calls| && calls[i].Emit? && calls[i].status == Waiting
    requires forall j :: i < j < |calls| ==> !Took(calls[j], calls[i].chunk.id)
    requires
      var c := calls[i].chunk;
      t.history.acked == s.history.acked + [L.Acked(c.id, c.offset, c.data)]
    requires LI.Concat(s.history.acked, id) == TakenData(calls, id)
    ensures
      var c := calls[i].chunk;
      && Length(t, id) == Length(s, id) + (if id == c.id then |c.data| else 0)
      && LI.Concat(t.history.acked, id) == TakenData(calls[i := calls[i].(status := Accepted)], id)
  {
    var call := calls[i].(status := Accepted);
    LI.ConcatAppend(s.history.acked, L.Acked(call.chunk.id, call.chunk.offset, call.chunk.data), id);
    if id == call.chunk.id {
      TakenLast(calls, i, call, id);
    } else {
      TakenSame(calls, calls[i := call], id);
    }
  }

  /** The ledger is now past the accepted chunk and past nothing else it was not past before. */
  lemma AcceptRepeated(before: nat, after: nat, calls: seq<Call>, i: nat, x: L.Chunk)
    requires i < |calls| && calls[i].Emit? && calls[i].status == Waiting
    requires x.offset <= before && x.offset < after && (x.offset < before ==> Repeated(calls, x))
    requires if x.id == calls[i].chunk.id then calls[i].chunk.offset == before else after == before
    ensures Repeated(calls[i := calls[i].(status := Accepted)], x)
  {
    var next := calls[i := calls[i].(status := Accepted)];
    if x.offset < before {
      RepeatedMore(calls, next, x);
    } else {
      assert Took(next[i], x.id) && next[i].chunk.offset == x.offset;
    }
  }

  lemma AcceptSettled(k: Setup, s: L.State, t: L.State, issued: map<nat, L.Chunk>, calls: seq<Call>, i: nat)
    requires AllPinned(k, s, issued, calls) && Settled(s, issued, calls)
    requires i < |calls| && calls[i].Emit? && calls[i].status == Waiting
    requires calls[i].chunk.offset == Length(s, calls[i].chunk.id)
    requires forall j :: i < j < |calls| ==> !Took(calls[j], calls[i].chunk.id)
    requires
      var c := calls[i].chunk;
      t.history.acked == s.history.acked + [L.Acked(c.id, c.offset, c.data)]
    ensures Settled(t, issued, calls[i := calls[i].(status := Accepted)])
  {
    hide AllPinned, LI.Concat, TakenData, Repeated;
    var next := calls[i := calls[i].(status := Accepted)];
    PinnedOffsets(k, s, issued, calls);
    forall id
      ensures Length(t, id) == Length(s, id) + (if id == calls[i].chunk.id then |calls[i].chunk.data| else 0)
      ensures LI.Concat(t.history.acked, id) == TakenData(next, id)
    {
      AcceptData(s, t, calls, i, id);
    }
    forall j | 0 <= j < |calls| && calls[j].Emit? && calls[j].chunk.offset < Length(t, calls[j].chunk.id)
      ensures Repeated(next, calls[j].chunk)
    {
      AcceptRepeated(Length(s, calls[j].chunk.id), Length(t, calls[j].chunk.id), calls, i, calls[j].chunk);
    }
    forall op | op in issued && issued[op].offset < Length(t, issued[op].id) ensures Repeated(next, issued[op]) {
      AcceptRepeated(Length(s, issued[op].id), Length(t, issued[op].id), calls, i, issued[op]);
    }
    assert forall j :: 0 <= j < |calls| && j != i ==> next[j] == calls[j];
  }

  lemma PinnedOffsets(k: Setup, s: L.State, issued: map<nat, L.Chunk>, calls: seq<Call>)
    requires AllPinned(k, s, issued, calls)
    ensures forall op :: op in issued ==> issued[op].offset <= Length(s, issued[op].id)
    ensures forall i :: 0 <= i < |calls| && calls[i].Emit? ==> calls[i].chunk.offset <= Length(s, calls[i].chunk.id)
  {
    forall op | op in issued ensures issued[op].offset <= Length(s, issued[op].id) {
      assert Pinned(k, s, issued[op]);
    }
    forall i | 0 <= i < |calls| && calls[i].Emit? ensures calls[i].chunk.offset <= Length(s, calls[i].chunk.id) {
      assert Pinned(k, s, calls[i].chunk);
    }
  }

  /** A status that is not an acknowledgement leaves order and books alone. */
  lemma StatusOrder(calls: seq<Call>, next: seq<Call>)
    requires Ordered(calls) && Restated(calls, next)
    ensures Ordered(next)
  {
  }

  /** Only statuses differ, and only from under way to refused or failed. */
  predicate Restated(calls: seq<Call>, next: seq<Call>) {
    && |next| == |calls|
    && forall i :: 0 <= i < |calls| ==>
         || next[i] == calls[i]
         || (&& calls[i].Emit? && calls[i].status == Waiting && next[i].Emit? && next[i].status in {Refused, Failed}
             && next[i] == calls[i].(status := next[i].status))
  }

  lemma StatusSettled(s: L.State, t: L.State, issued: map<nat, L.Chunk>, left: map<nat, L.Chunk>, calls: seq<Call>,
                      next: seq<Call>)
    requires Settled(s, issued, calls) && Restated(calls, next) && t.history.acked == s.history.acked
    requires forall op :: op in left ==> op in issued && left[op] == issued[op]
    requires forall i :: 0 <= i < |next| && next[i].Emit? && next[i].status == Refused && next[i] != calls[i] ==>
               next[i].chunk.offset < Length(s, next[i].chunk.id)
    ensures Settled(t, left, next)
  {
    hide LI.Concat, TakenData, Repeated;
    forall id ensures LI.Concat(t.history.acked, id) == TakenData(next, id) {
      TakenSame(calls, next, id);
    }
    forall i | 0 <= i < |next| && next[i].Emit? && next[i].chunk.offset < Length(t, next[i].chunk.id)
      ensures Repeated(next, next[i].chunk)
    {
      assert next[i].chunk == calls[i].chunk;
      RepeatedMore(calls, next, calls[i].chunk);
    }
    forall op | op in left && left[op].offset < Length(t, left[op].id) ensures Repeated(next, left[op]) {
      RepeatedMore(calls, next, issued[op]);
    }
  }

  lemma PinnedStatus(k: Setup, s: L.State, issued: map<nat, L.Chunk>, left: map<nat, L.Chunk>, calls: seq<Call>,
                     next: seq<Call>)
    requires AllPinned(k, s, issued, calls) && |next| == |calls|
    requires forall i :: 0 <= i < |calls| && next[i].Emit? ==> calls[i].Emit? && next[i].chunk == calls[i].chunk
    requires forall op :: op in left ==> op in issued && left[op] == issued[op]
    ensures AllPinned(k, s, left, next)
  {
    hide Pinned;
  }

  lemma AnswerTracked(k: Setup, y: Session, i: nat, durableId: string, aborted: bool, now: nat, later: nat)
    requires LI.Inv(y.ledger, k.digest) && Tracked(k, y.ledger, y.issued, y.calls)
    requires i < |y.calls| && y.calls[i].Emit? && y.calls[i].status == Waiting && durableId != "" && now <= later
    ensures
      var t := Answered(k, y, i, durableId, aborted, now, later);
      && LI.Inv(t.ledger, k.digest) && Tracked(k, t.ledger, t.issued, t.calls) && t.ledger.terminal == y.ledger.terminal
      && y.ledger.terminal.None?
  {
    hide LI.Evidence, LI.Operations, L.Settle, L.Acknowledge, L.Echo, Pinned, Emitting, LR.Stable, LI.Concat, TakenData;
    var s, call := y.ledger, y.calls[i];
    var t := Answered(k, y, i, durableId, aborted, now, later);
    AnswerIff(k, s, call.chunk, call.op, durableId);
    AnswerLedger(k, s, call.chunk, call.op, durableId, aborted, now, later);
    EmittingBlocks(s, k.digest, call.op, k.owner);
    AllPinnedKept(k, s, t.ledger, y.issued, y.calls);
    PinnedStatus(k, t.ledger, y.issued, y.issued, y.calls, t.calls);
    OthersPending(k, s, call.op, L.Durable(L.Echo(call.chunk, durableId)), aborted, now, later, y.issued, y.calls,
        y.issued,
                  t.calls);
    if call.chunk.offset == Length(s, call.chunk.id) {
      AcceptOrder(k, s, y.issued, y.calls, i);
      AcceptSettled(k, s, t.ledger, y.issued, y.calls, i);
    } else {
      PinnedOffsets(k, s, y.issued, y.calls);
      StatusOrder(y.calls, t.calls);
      StatusSettled(s, t.ledger, y.issued, y.issued, y.calls, t.calls);
    }
  }

  lemma EmittingBlocks(s: L.State, digest: L.Digest, op: nat, owner: L.Owner)
    requires LI.Inv(s, digest) && Emitting(s.ops, op, owner)
    ensures s.terminal.None?
  {
    LR.PendingBlocks(s, digest, op);
  }

  /** While a chunk is under way the ledger is open, so nothing has been committed or closed. */
  lemma AnswerKeeps(k: Setup, y: Session, i: nat, durableId: string, aborted: bool, now: nat, later: nat)
    requires Inv(k, y) && Lawful(k, y, Answer(i, durableId, aborted, now, later))
    ensures H.Wf(y.handoff) && Inv(k, Apply(k, y, Answer(i, durableId, aborted, now, later)))
  {
    hide LI.Inv, HS.Inv, Tracked, Committed, L.Settle, L.Acknowledge, L.Echo;
    InvWf(k, y);
    AnswerTracked(k, y, i, durableId, aborted, now, later);
  }

  // ---- an emission is rejected ----

  lemma RejectTracked(k: Setup, y: Session, op: nat, aborted: bool, now: nat, later: nat)
    requires LI.Inv(y.ledger, k.digest) && Tracked(k, y.ledger, y.issued, y.calls)
    requires Emitting(y.ledger.ops, op, k.owner) && now <= later
    ensures
      var t := L.Settle(y.ledger, k.digest, op, L.Threw, aborted, now, later);
      && LI.Inv(t, k.digest) && Tracked(k, t, y.issued - {op}, FailCall(y.calls, op)) && t.terminal == y.ledger.terminal
      && y.ledger.terminal.None?
  {
    hide LI.Evidence, LI.Operations, L.Settle, Pinned, Emitting, LR.Stable, LI.Concat, TakenData;
    var s, e := y.ledger, L.Finish(op, L.Threw, aborted, now, later);
    var t := L.Settle(s, k.digest, op, L.Threw, aborted, now, later);
    var left, next := y.issued - {op}, FailCall(y.calls, op);
    ApplyFinish(s, k.digest, e);
    LT.StepKeeps(s, k.digest, e);
    LR.StableStep(s, k.digest, e);
    QuietStep(s, k.digest, e);
    EmittingBlocks(s, k.digest, op, k.owner);
    AllPinnedKept(k, s, t, y.issued, y.calls);
    PinnedStatus(k, t, y.issued, left, y.calls, next);
    OthersPending(k, s, op, L.Threw, aborted, now, later, y.issued, y.calls, left, next);
    StatusOrder(y.calls, next);
    StatusSettled(s, t, y.issued, left, y.calls, next);
  }

  lemma RejectKeeps(k: Setup, y: Session, op: nat, aborted: bool, now: nat, later: nat)
    requires Inv(k, y) && Lawful(k, y, Reject(op, aborted, now, later))
    ensures H.Wf(y.handoff) && Inv(k, Apply(k, y, Reject(op, aborted, now, later)))
  {
    hide LI.Inv, HS.Inv, AllPinned, Ordered, Settled, Committed, L.Settle, Emitting;
    InvWf(k, y);
    RejectTracked(k, y, op, aborted, now, later);
    assert op in y.issued ==> forall i :: 0 <= i < |y.calls| ==> !WaitingFor(y.calls[i], op);
    assert !AnyFinal(y.handoff.started);
  }

  // ---- the session closes ----

  lemma SnapshotSame(s: L.State, t: L.State, owner: L.Owner, now: nat)
    requires L.Failed(s) && t == s.(terminal := t.terminal)
    ensures L.SnapshotOf(t, owner, now) == L.SnapshotOf(s, owner, now)
  {
    var a, b := L.SnapshotOf(s, owner, now), L.SnapshotOf(t, owner, now);
    assert a.operations == b.operations;
  }

  /** What a successful barrier leaves: the same ledger with the committed bytes it returned. */
  lemma BarrierCommits(k: Setup, s: L.State, now: nat)
    requires L.Barrier(s, k.owner, now, k.encode).1.Ok? && (s.terminal.Some? ==> Committed(k, s))
    ensures
      var (t, r) := L.Barrier(s, k.owner, now, k.encode);
      && t == s.(terminal := t.terminal) && (s.terminal.Some? ==> t == s)
      && t.terminal.Some? && t.terminal.value.bytes == r.value && Committed(k, t)
  {
    hide L.GateOk, L.SnapshotOf;
    var t := L.Barrier(s, k.owner, now, k.encode).0;
    if s.terminal.None? {
      SnapshotSame(s, t, k.owner, now);
      assert t.terminal.value.bytes == k.encode(L.SnapshotOf(t, k.owner, now));
    }
  }

  lemma TrackedCommitted(k: Setup, s: L.State, t: L.State, issued: map<nat, L.Chunk>, calls: seq<Call>)
    requires Tracked(k, s, issued, calls) && t == s.(terminal := t.terminal)
    ensures Tracked(k, t, issued, calls)
  {
    hide LI.Concat, TakenData, Repeated, Emitting;
    forall c | Pinned(k, s, c) ensures Pinned(k, t, c) {
    }
  }

  lemma BarrierKeeps(k: Setup, s: L.State, now: nat)
    requires LI.Inv(s, k.digest)
    ensures LI.Inv(L.Barrier(s, k.owner, now, k.encode).0, k.digest)
    ensures L.Barrier(s, k.owner, now, k.encode).1.Err? ==> L.Barrier(s, k.owner, now, k.encode).0 == s
  {
    hide LI.Inv, L.GateOk, L.SnapshotOf;
    LT.StepKeeps(s, k.digest, L.Commit(k.owner, now, k.encode));
  }

  lemma CloseKeeps(k: Setup, y: Session, now: nat)
    requires Inv(k, y)
    ensures H.Wf(y.handoff) && Inv(k, Apply(k, y, Close(now)))
  {
    hide LI.Inv, HS.Inv, H.Apply, Linked, Tracked, Committed, L.Barrier;
    InvWf(k, y);
    var (t, r) := L.Barrier(y.ledger, k.owner, now, k.encode);
    BarrierKeeps(k, y.ledger, now);
    if !H.Closed(y.handoff.client) && r.Ok? {
      var m := Final(r.value);
      BarrierCommits(k, y.ledger, now);
      TrackedCommitted(k, y.ledger, t, y.issued, y.calls);
      HS.StepKeeps(y.handoff, H.Send(m));
      HandoffStep(y.handoff, H.Send(m));
      if |H.Apply(y.handoff, H.Send(m)).started| > |y.handoff.started| {
        CallAdded(k, t, y.issued, y.calls, y.issued, NoCall);
        LinkedAdded(k, y.handoff.started, y.calls, m, NoCall);
        FinishedAdded(k, t, y.handoff.started, y.calls, false, m, NoCall);
      }
    }
  }
}
