/** Receipts and the terminal barrier, over whole runs. */
module LedgerReceipts {
  import opened Basics
  import opened OrderedMaps
  import opened Ledger
  import opened LedgerInvariant
  import opened LedgerRuns
  import opened LedgerTheorems
  import opened LedgerGate

  // ---- what never changes for an artifact once failure began ----

  /** Inventoried artifacts keep their identity, content and everything else; only acknowledgement
      grows. */
  ghost predicate Stable(s: State, t: State) {
    && (Failed(s) ==> t.failureStarted == s.failureStarted)
    && forall id :: Has(s.inventory, id) ==>
         && Has(t.inventory, id) && id in s.history.content && id in t.history.content
         && t.history.content[id] == s.history.content[id]
         && Get(s.inventory, id).acknowledged <= Get(t.inventory, id).acknowledged
         && Get(t.inventory, id) == Get(s.inventory, id).(acknowledged := Get(t.inventory, id).acknowledged)
  }

  lemma StableTrans(s: State, t: State, u: State)
    requires Stable(s, t) && Stable(t, u)
    ensures Stable(s, u)
  {
  }

  lemma StableSame(s: State, t: State, digest: Digest)
    requires Booked(s, digest)
    requires t.inventory == s.inventory && t.history.content == s.history.content
    requires t.failureStarted == s.failureStarted
    ensures Stable(s, t)
  {
    if Failed(s) {
      forall id | Has(s.inventory, id) ensures id in s.history.content {
        assert InventoryOk(s.history, digest, id, Get(s.inventory, id));
      }
    }
  }

  lemma StableFail(s: State, digest: Digest, code: string, now: nat)
    requires Booked(s, digest)
    ensures Stable(s, FailOwnership(s, code, now))
  {
    if Failed(s) {
      StableSame(s, s, digest);
    }
  }

  lemma StableStore(s: State, digest: Digest, owner: Owner, id: ArtifactId, kept: seq<byte>, observed: nat, now: nat)
    requires Booked(s, digest) && id !in s.seen
    ensures Stable(s, Store(s, digest, owner, id, kept, observed, now))
  {
    var a := Artifact(owner, kept, observed, 0, digest(kept), now, []);
    if Failed(s) {
      HasKeys(s.inventory, id);
      forall x | Has(s.inventory, x)
        ensures x != id && x in s.history.content
        ensures Has(Put(s.inventory, id, Moved(a)), x) && Get(Put(s.inventory, id, Moved(a)), x) == Get(s.inventory, x)
      {
        assert InventoryOk(s.history, digest, x, Get(s.inventory, x));
        PutLookup(s.inventory, id, Moved(a), x);
      }
    }
  }

  lemma StableHold(s: State, digest: Digest, owner: Owner, id: ArtifactId, bytes: seq<byte>, observed: nat, now: nat)
    requires Booked(s, digest)
    ensures Stable(s, Hold(s, digest, owner, id, bytes, observed, now).0)
  {
    hide Booked, Stable;
    StableSame(s, s, digest);
    if Holdable(s, id) {
      var count := Admitted(s, |bytes|, now);
      var s1 := Counted(s, observed, count);
      StableSame(s, s1, digest);
      CountedKeeps(s, digest, observed, count);
      StableFail(s1, digest, "retention-quota", now);
      FailKeeps(s1, digest, "retention-quota", now);
      var s2 := if count < observed then FailOwnership(s1, "retention-quota", now) else s1;
      StableSame(s1, s1, digest);
      StableTrans(s, s1, s2);
      if count > 0 {
        HasKeys(s.artifacts, id);
        StableStore(s2, digest, owner, id, bytes[..count], observed, now);
        StableTrans(s, s2, Store(s2, digest, owner, id, bytes[..count], observed, now));
      }
    }
  }

  lemma StableAdvance(m: seq<Entry<ArtifactId, Inventory>>, id: ArtifactId, acknowledged: nat, x: ArtifactId)
    requires Has(m, id) && Get(m, id).acknowledged <= acknowledged && Has(m, x)
    ensures var r := Put(m, id, Get(m, id).(acknowledged := acknowledged));
            && Has(r, x) && Get(m, x).acknowledged <= Get(r, x).acknowledged
            && Get(r, x) == Get(m, x).(acknowledged := Get(r, x).acknowledged)
  {
    PutLookup(m, id, Get(m, id).(acknowledged := acknowledged), x);
  }

  lemma StableFields(s: State, t: State, id: ArtifactId, acknowledged: nat)
    requires Has(s.inventory, id) && Get(s.inventory, id).acknowledged <= acknowledged
    requires t.inventory == Put(s.inventory, id, Get(s.inventory, id).(acknowledged := acknowledged))
    requires t.history.content == s.history.content && t.failureStarted == s.failureStarted
    requires forall x :: Has(s.inventory, x) ==> x in s.history.content
    ensures Stable(s, t)
  {
    forall x | Has(s.inventory, x)
      ensures Has(t.inventory, x) && Get(s.inventory, x).acknowledged <= Get(t.inventory, x).acknowledged
      ensures Get(t.inventory, x) == Get(s.inventory, x).(acknowledged := Get(t.inventory, x).acknowledged)
    {
      StableAdvance(s.inventory, id, acknowledged, x);
    }
  }

  lemma InventoryContent(s: State, digest: Digest)
    requires Booked(s, digest)
    ensures forall x :: Has(s.inventory, x) ==> x in s.history.content
  {
    if Failed(s) {
      forall x | Has(s.inventory, x) ensures x in s.history.content {
        assert InventoryOk(s.history, digest, x, Get(s.inventory, x));
      }
    }
  }

  lemma StableAcknowledge(s: State, digest: Digest, owner: Owner, r: Receipt)
    requires Booked(s, digest)
    ensures Stable(s, Acknowledge(s, digest, owner, r).0)
  {
    if Acknowledge(s, digest, owner, r).1.Ok? {
      assert Get(s.inventory, r.id) == Moved(Get(s.artifacts, r.id));
      hide Booked, ReadChunk, Accepts, Stable;
      var a := Get(s.artifacts, r.id);
      InventoryContent(s, digest);
      AdvanceFields(s, digest, owner, r.id);
      StableFields(s, Advance(s, digest, owner, r.id), r.id, a.offset + Min(CHUNK, |a.bytes|));
    } else {
      hide Booked, Stable;
      StableSame(s, s, digest);
    }
  }

  lemma StableDeliver(s: State, digest: Digest, id: nat, op: Operation, outcome: Outcome, late: bool, now: nat)
    requires Booked(s, digest)
    ensures Stable(s, Deliver(s, digest, id, op, outcome, late, now).0)
  {
    hide Booked, Stable, Hold, Acknowledge;
    StableSame(s, s, digest);
    match op.callback
    case HoldResult(art) =>
      if outcome.Screenshot? {
        StableHold(s, digest, op.owner, art, outcome.bytes, outcome.observed, now);
      }
    case AcknowledgeResult =>
      if outcome.Durable? {
        StableAcknowledge(s, digest, op.owner, outcome.receipt);
      }
    case NoCallback =>
      var raw := if outcome.Opaque? then outcome.raw else [];
      StableHold(s, digest, op.owner, Late(id), raw[..Min(LATE_PREFIX, |raw|)], |raw|, now);
      StableSame(s, s.(handles := Put(s.handles, id, Handle(op.owner, op.stage))), digest);
  }

  lemma StableSettle(s: State, digest: Digest, id: nat, outcome: Outcome, aborted: bool, now: nat, later: nat)
    requires Evidence(s, digest) && (outcome.Screenshot? ==> |outcome.bytes| <= outcome.observed)
    ensures Stable(s, Settle(s, digest, id, outcome, aborted, now, later))
  {
    hide Booked, Stable, Deliver, FailOwnership;
    StableSame(s, s, digest);
    if PendingIn(s.ops, id) {
      var op := Get(s.ops, id);
      if outcome.Threw? {
        StableSame(s, CloseOp(s, id, op, Rejected, Failed(s), aborted, now), digest);
      } else {
        var late := LateSettlement(s, op, aborted, now);
        var (t, r) := Deliver(s, digest, id, op, outcome, late, now);
        StableDeliver(s, digest, id, op, outcome, late, now);
        DeliverEvidence(s, digest, id, op, outcome, late, now);
        var u := CloseOp(t, id, op, if r.Err? then Rejected else Fulfilled, late, aborted, now);
        StableSame(t, u, digest);
        StableTrans(s, t, u);
        EvidenceFrame(t, u, digest);
        StableFail(u, digest, if aborted then "cancelled" else "deadline", later);
        StableTrans(s, u, FailOwnership(u, if aborted then "cancelled" else "deadline", later));
      }
    }
  }

  lemma StableStart(s: State, digest: Digest, owner: Owner, stage: string, retention: bool, callback: Callback,
                    deadline: nat, aborted: bool, now: nat)
    requires Booked(s, digest)
    ensures Stable(s, Start(s, owner, stage, retention, callback, deadline, aborted, now).0)
  {
    var t := Start(s, owner, stage, retention, callback, deadline, aborted, now).0;
    if Failed(s) {
      StableSame(s, t, digest);
    }
  }

  lemma StableStep(s: State, digest: Digest, e: Event)
    requires Inv(s, digest) && Lawful(s, e)
    ensures Stable(s, Apply(s, digest, e))
  {
    hide Booked, Conserved, Operations, Stable, Hold, Settle, Start, FailOwnership, GateOk, SnapshotOf, RecordsSource,
         Evict;
    StableSame(s, s, digest);
    match e
    case Interrupt(code, now) => StableFail(s, digest, code, now);
    case HoldNow(owner, id, bytes, observed, now) => StableHold(s, digest, owner, id, bytes, observed, now);
    case Begin(owner, stage, screenshot, deadline, aborted, now) =>
      StableStart(s, digest, owner, stage, false,
                  if screenshot.Some? then HoldResult(screenshot.value) else NoCallback, deadline, aborted, now);
    case Finish(op, outcome, aborted, now, later) => StableSettle(s, digest, op, outcome, aborted, now, later);
    case Drain(owner, aborted, now) => StableDrain(s, digest, owner, aborted, now);
    case _ => StableSame(s, Apply(s, digest, e), digest);
  }

  lemma StableDrain(s: State, digest: Digest, owner: Owner, aborted: bool, now: nat)
    requires Booked(s, digest)
    ensures Stable(s, DrainTurn(s, owner, aborted, now))
  {
    hide Booked;
    StableSame(s, s, digest);
    var t := DrainTurn(s, owner, aborted, now);
    assert t.inventory == s.inventory && t.history == s.history && t.failureStarted == s.failureStarted;
    StableSame(s, t, digest);
  }

  lemma {:induction false} StableRun(s: State, digest: Digest, events: seq<Event>)
    requires Inv(s, digest) && LawfulRun(s, digest, events)
    ensures Stable(s, Run(s, digest, events)) && Inv(Run(s, digest, events), digest)
    decreases |events|
  {
    if events == [] {
      StableSame(s, s, digest);
    } else {
      hide Inv, Stable, Apply, Lawful;
      var t := Apply(s, digest, events[0]);
      StableStep(s, digest, events[0]);
      StepKeeps(s, digest, events[0]);
      StableRun(t, digest, events[1..]);
      StableTrans(s, t, Run(t, digest, events[1..]));
    }
  }

  // ---- receipts ----

  lemma ChunkContent(s: State, digest: Digest, owner: Owner, id: ArtifactId)
    requires Booked(s, digest) && Readable(s, owner, id)
    ensures Has(s.inventory, id)
    ensures
      var c := ReadChunk(s, digest, owner, id);
      && c.offset == Get(s.inventory, id).acknowledged
      && 0 < |c.data| <= CHUNK && id in s.history.content && c.offset + |c.data| <= |s.history.content[id]|
      && c.data == s.history.content[id][c.offset..c.offset + |c.data|]
  {
    var a := Get(s.artifacts, id);
    assert Get(s.inventory, id) == Moved(a);
    assert ArtifactOk(s.history.content, digest, id, a);
    TailSlices(s.history.content[id], a.offset, Min(CHUNK, |a.bytes|));
  }

  /** An accepted receipt acknowledges exactly the next bytes and strictly lowers what is held. */
  lemma ReceiptProgress(s: State, digest: Digest, owner: Owner, r: Receipt)
    requires Inv(s, digest) && Accepts(s, digest, owner, r)
    ensures
      var t := Acknowledge(s, digest, owner, r).0;
      var data := ReadChunk(s, digest, owner, r.id).data;
      && t.held == s.held - r.bytes && 0 < r.bytes == |data|
      && r.offset == |Concat(s.history.acked, r.id)|
      && t.history.acked == s.history.acked + [Acked(r.id, r.offset, data)]
  {
    ChunkContent(s, digest, owner, r.id);
    AdvanceFields(s, digest, owner, r.id);
    assert InventoryOk(s.history, digest, r.id, Get(s.inventory, r.id));
  }

  /** The acknowledged chunks of an artifact, in order, are exactly the prefix of what was
      retained of it; what is still held is the rest. */
  lemma AcknowledgedPrefix(s: State, digest: Digest, events: seq<Event>, id: ArtifactId)
    requires Fresh(s) && LawfulRun(s, digest, events)
    requires var t := Run(s, digest, events); Failed(t) && Has(t.inventory, id)
    ensures
      var t := Run(s, digest, events);
      var v := Get(t.inventory, id);
      && id in t.history.content && |t.history.content[id]| == v.retained && v.acknowledged <= v.retained
      && v.sha == digest(t.history.content[id])
      && Concat(t.history.acked, id) == t.history.content[id][..v.acknowledged]
      && (if Has(t.artifacts, id) then Get(t.artifacts, id).bytes == t.history.content[id][v.acknowledged..]
          else v.acknowledged == v.retained)
  {
    FreshInv(s, digest);
    RunKeeps(s, digest, events);
    var t := Run(s, digest, events);
    assert InventoryOk(t.history, digest, id, Get(t.inventory, id));
    if Has(t.artifacts, id) {
      assert ArtifactOk(t.history.content, digest, id, Get(t.artifacts, id));
    }
  }

  /** A receipt that echoes a chunk emitted earlier, however late it returns, can only be
      accepted for the very bytes that were emitted. No property of the digest is needed. */
  lemma LateReceiptPinsBytes(s: State, digest: Digest, owner: Owner, id: ArtifactId, events: seq<Event>,
                             durableId: string)
    requires Inv(s, digest) && Readable(s, owner, id) && LawfulRun(s, digest, events)
    requires Accepts(Run(s, digest, events), digest, owner, Echo(ReadChunk(s, digest, owner, id), durableId))
    ensures ReadChunk(Run(s, digest, events), digest, owner, id).data == ReadChunk(s, digest, owner, id).data
  {
    ChunkContent(s, digest, owner, id);
    StableRun(s, digest, events);
    ChunkContent(Run(s, digest, events), digest, owner, id);
  }

  /** Once accepted, the same receipt is refused in every later state. */
  lemma DuplicateReceiptRefused(s: State, digest: Digest, owner: Owner, r: Receipt, events: seq<Event>)
    requires Inv(s, digest) && Accepts(s, digest, owner, r)
    requires LawfulRun(Acknowledge(s, digest, owner, r).0, digest, events)
    ensures !Accepts(Run(Acknowledge(s, digest, owner, r).0, digest, events), digest, owner, r)
  {
    var t := Acknowledge(s, digest, owner, r).0;
    AfterReceipt(s, digest, owner, r);
    StableRun(t, digest, events);
    var u := Run(t, digest, events);
    if Accepts(u, digest, owner, r) {
      ChunkContent(u, digest, owner, r.id);
    }
  }

  lemma AfterReceipt(s: State, digest: Digest, owner: Owner, r: Receipt)
    requires Inv(s, digest) && Accepts(s, digest, owner, r)
    ensures
      var t := Acknowledge(s, digest, owner, r).0;
      Inv(t, digest) && Has(t.inventory, r.id) && Get(t.inventory, r.id).acknowledged > r.offset
  {
    var t := Acknowledge(s, digest, owner, r).0;
    AcknowledgeKeeps(s, digest, owner, r);
    AcknowledgeFrame(s, digest, owner, r);
    ChunkContent(s, digest, owner, r.id);
    AdvanceFields(s, digest, owner, r.id);
    var a := Get(s.artifacts, r.id);
    PutLookup(s.inventory, r.id, Get(s.inventory, r.id).(acknowledged := a.offset + Min(CHUNK, |a.bytes|)), r.id);
  }

  // ---- pending operations ----

  /** The operation is in the table, pending, and is this one. */
  predicate Owned(ops: seq<Entry<nat, Operation>>, id: nat, op: Operation) {
    PendingIn(ops, id) && Get(ops, id) == op
  }

  lemma OwnedStart(s: State, owner: Owner, stage: string, retention: bool, callback: Callback, deadline: nat,
                   aborted: bool, now: nat, id: nat, op: Operation)
    requires Operations(s) && Owned(s.ops, id, op)
    ensures Owned(Start(s, owner, stage, retention, callback, deadline, aborted, now).0.ops, id, op)
  {
    EvictKeeps(s.ops);
    var started := Operation(owner, stage, retention, callback, deadline, now, None, Pending, false);
    PutLookup(Evict(s.ops), s.ordinal + 1, started, id);
  }

  lemma OwnedSettle(s: State, digest: Digest, other: nat, outcome: Outcome, aborted: bool, now: nat, later: nat,
                    id: nat, op: Operation)
    requires Operations(s) && Owned(s.ops, id, op) && other != id
    ensures Owned(Settle(s, digest, other, outcome, aborted, now, later).ops, id, op)
  {
    hide Deliver;
    if PendingIn(s.ops, other) {
      var done := Get(s.ops, other);
      RemoveLookup(s.ops, other, id);
      forall settled: Operation ensures Owned(Put(s.ops, other, settled), id, op) {
        PutLookup(s.ops, other, settled, id);
      }
      if !outcome.Threw? {
        DeliverFrame(s, digest, other, done, outcome, LateSettlement(s, done, aborted, now), now);
      }
    }
  }

  lemma OwnedStep(s: State, digest: Digest, e: Event, id: nat, op: Operation)
    requires Operations(s) && Owned(s.ops, id, op) && !(e.Finish? && e.op == id)
    ensures Owned(Apply(s, digest, e).ops, id, op)
  {
    hide Start, Settle, Hold, GateOk, SnapshotOf, RecordsSource, Operations, Evict;
    match e
    case HoldNow(owner, art, bytes, observed, now) => HoldFrame(s, digest, owner, art, bytes, observed, now);
    case Begin(owner, stage, screenshot, deadline, aborted, now) =>
      OwnedStart(s, owner, stage, false, if screenshot.Some? then HoldResult(screenshot.value) else NoCallback,
                 deadline, aborted, now, id, op);
    case Finish(other, outcome, aborted, now, later) =>
      OwnedSettle(s, digest, other, outcome, aborted, now, later, id, op);
    case Drain(owner, aborted, now) => OwnedDrain(s, owner, aborted, now, id, op);
    case _ =>
  }

  lemma OwnedDrain(s: State, owner: Owner, aborted: bool, now: nat, id: nat, op: Operation)
    requires Operations(s) && Owned(s.ops, id, op)
    ensures Owned(DrainTurn(s, owner, aborted, now).ops, id, op)
  {
    hide Start, Operations;
    if s.busy && Failed(s) {
      var deadline := s.failureStarted.value + RETENTION_NS;
      OwnedStart(s, owner, "failure-retention-emit", true, AcknowledgeResult, deadline, aborted, now, id, op);
      OwnedStart(s, owner, "failure-settlement-wait", true, NoCallback, deadline, aborted, now, id, op);
    }
  }

  predicate Unfinished(events: seq<Event>, id: nat) {
    forall i :: 0 <= i < |events| ==> !(events[i].Finish? && events[i].op == id)
  }

  /** A pending operation stays in the table unchanged over every run that does not settle it:
      nothing evicts it, and the barrier cannot succeed before it settles. */
  lemma {:induction false} PendingStays(s: State, digest: Digest, events: seq<Event>, id: nat, op: Operation)
    requires Inv(s, digest) && LawfulRun(s, digest, events) && Owned(s.ops, id, op) && Unfinished(events, id)
    ensures
      var t := Run(s, digest, events);
      && Owned(t.ops, id, op) && t.terminal.None?
      && forall owner, now, encode :: Barrier(t, owner, now, encode).1.Err?
    decreases |events|
  {
    hide Apply, Lawful, Evidence, Operations;
    if events == [] {
      PendingBlocks(s, digest, id);
    } else {
      OwnedStep(s, digest, events[0], id, op);
      StepKeeps(s, digest, events[0]);
      assert forall i :: 0 <= i < |events[1..]| ==> events[1..][i] == events[i + 1];
      PendingStays(Apply(s, digest, events[0]), digest, events[1..], id, op);
    }
  }

  lemma PendingBlocks(s: State, digest: Digest, id: nat)
    requires Inv(s, digest) && PendingIn(s.ops, id)
    ensures s.terminal.None? && forall owner, now, encode :: Barrier(s, owner, now, encode).1.Err?
  {
    hide Evidence, GateOk, SnapshotOf;
    PendingVisible(s.ops, id);
  }

  // ---- the terminal barrier ----

  /** For one command the barrier succeeds exactly when failure began, nothing is pending and the
      references inside the acknowledged prefixes arrived in order, and the encoding fits. */
  lemma BarrierIff(s: State, digest: Digest, owner: Owner, now: nat, encode: Encoder)
    requires Inv(s, digest) && Tidy(s, owner, false) && s.terminal.None?
    ensures Barrier(s, owner, now, encode).1.Ok? <==>
              && s.used == {owner} && Failed(s) && !s.busy && !SomePending(s.ops)
              && ArrivedInOrder(s.inventory, owner) && 0 < |encode(SnapshotOf(s, owner, now))| <= 8 * 1024 * 1024
  {
    if Failed(s) {
      OwnedPasses(s, digest, owner, now);
    }
  }

  lemma FrozenStep(s: State, digest: Digest, e: Event)
    requires Inv(s, digest) && s.terminal.Some? && Lawful(s, e)
    ensures Apply(s, digest, e) == s
  {
    hide Evidence, GateOk, SnapshotOf;
    match e
    case Finish(op, outcome, aborted, now, later) =>
      if PendingIn(s.ops, op) {
        PendingVisible(s.ops, op);
      }
    case _ =>
  }

  lemma {:induction false} FrozenRun(s: State, digest: Digest, events: seq<Event>)
    requires Inv(s, digest) && s.terminal.Some? && LawfulRun(s, digest, events)
    ensures Run(s, digest, events) == s
    decreases |events|
  {
    if events != [] {
      FrozenStep(s, digest, events[0]);
      FrozenRun(s, digest, events[1..]);
    }
  }

  /** Whatever happens after the barrier, asking again returns the committed bytes. */
  lemma BarrierIsFinal(s: State, digest: Digest, owner: Owner, now: nat, encode: Encoder, events: seq<Event>,
      later: nat,
                       other: Encoder)
    requires Inv(s, digest) && Barrier(s, owner, now, encode).1.Ok?
    requires LawfulRun(Barrier(s, owner, now, encode).0, digest, events)
    ensures
      var t := Run(Barrier(s, owner, now, encode).0, digest, events);
      && t == Barrier(s, owner, now, encode).0
      && Barrier(t, owner, later, other) == (t, Barrier(s, owner, now, encode).1)
  {
    assert Lawful(s, Commit(owner, now, encode));
    StepKeeps(s, digest, Commit(owner, now, encode));
    FrozenRun(Barrier(s, owner, now, encode).0, digest, events);
  }

  /** A settled disposition accounts for every byte: nothing was discarded, nothing is held,
      and every artifact taken over by failure is acknowledged in full. */
  lemma SettledAccountsForAll(s: State, digest: Digest, owner: Owner, now: nat)
    requires Inv(s, digest) && Failed(s) && SnapshotOf(s, owner, now).disposition == Settled
    ensures s.history.observed == s.history.released + AckedBytes(s.history.acked)
    ensures forall id :: Has(s.inventory, id) ==> Concat(s.history.acked, id) == s.history.content[id]
  {
    forall id | Has(s.inventory, id) ensures Concat(s.history.acked, id) == s.history.content[id] {
      assert InventoryOk(s.history, digest, id, Get(s.inventory, id));
      assert !Has(s.artifacts, id);
    }
  }
}
