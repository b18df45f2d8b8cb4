/** The main results about the failure-evidence ledger, over every lawful run. */
module LedgerTheorems {
  import opened Basics
  import opened OrderedMaps
  import opened Ledger
  import opened LedgerInvariant
  import opened LedgerRuns

  // ---- every step keeps the invariant ----

  lemma DeliverEvidence(s: State, digest: Digest, id: nat, op: Operation, outcome: Outcome, late: bool, now: nat)
    requires Evidence(s, digest)
    requires outcome.Screenshot? ==> |outcome.bytes| <= outcome.observed
    ensures Evidence(Deliver(s, digest, id, op, outcome, late, now).0, digest)
  {
    hide Booked, Conserved, Hold, Acknowledge;
    match op.callback
    case HoldResult(art) =>
      if outcome.Screenshot? {
        HoldKeeps(s, digest, op.owner, art, outcome.bytes, outcome.observed, now);
        HoldConserves(s, digest, op.owner, art, outcome.bytes, outcome.observed, now);
      }
    case AcknowledgeResult =>
      if outcome.Durable? {
        AcknowledgeKeeps(s, digest, op.owner, outcome.receipt);
      }
    case NoCallback =>
      if Yields(op, late) {
        EvidenceFrame(s, Deliver(s, digest, id, op, outcome, late, now).0, digest);
      } else {
        var raw := if outcome.Opaque? then outcome.raw else [];
        HoldKeeps(s, digest, op.owner, Late(id), raw[..Min(LATE_PREFIX, |raw|)], |raw|, now);
        HoldConserves(s, digest, op.owner, Late(id), raw[..Min(LATE_PREFIX, |raw|)], |raw|, now);
      }
  }

  /** The evidence invariant does not read the tables, the flags or the barrier. */
  lemma EvidenceFrame(s: State, t: State, digest: Digest)
    requires Evidence(s, digest)
    requires t == s.(ops := t.ops, handles := t.handles, ordinal := t.ordinal, busy := t.busy, terminal := t.terminal,
               used := t.used)
    ensures Evidence(t, digest)
  {
  }

  lemma FailEvidence(s: State, digest: Digest, code: string, now: nat)
    requires Evidence(s, digest)
    ensures Evidence(FailOwnership(s, code, now), digest)
  {
    FailKeeps(s, digest, code, now);
  }

  lemma StartEvidence(s: State, digest: Digest, owner: Owner, stage: string, retention: bool, callback: Callback,
                      deadline: nat, aborted: bool, now: nat)
    requires Evidence(s, digest)
    ensures Evidence(Start(s, owner, stage, retention, callback, deadline, aborted, now).0, digest)
  {
    hide Evidence;
    var t := Start(s, owner, stage, retention, callback, deadline, aborted, now).0;
    var u := s.(ops := t.ops, ordinal := t.ordinal);
    EvidenceFrame(s, u, digest);
    FailEvidence(u, digest, t.cause, now);
    if t != u {
      assert t == FailOwnership(u, t.cause, now);
    }
  }

  lemma SettleEvidence(s: State, digest: Digest, id: nat, outcome: Outcome, aborted: bool, now: nat, later: nat)
    requires Evidence(s, digest)
    requires outcome.Screenshot? ==> |outcome.bytes| <= outcome.observed
    ensures Evidence(Settle(s, digest, id, outcome, aborted, now, later), digest)
  {
    hide Evidence, Deliver;
    if PendingIn(s.ops, id) {
      var op := Get(s.ops, id);
      if outcome.Threw? {
        EvidenceFrame(s, CloseOp(s, id, op, Rejected, Failed(s), aborted, now), digest);
      } else {
        var late := LateSettlement(s, op, aborted, now);
        var (t, r) := Deliver(s, digest, id, op, outcome, late, now);
        DeliverEvidence(s, digest, id, op, outcome, late, now);
        var u := CloseOp(t, id, op, if r.Err? then Rejected else Fulfilled, late, aborted, now);
        EvidenceFrame(t, u, digest);
        FailEvidence(u, digest, if aborted then "cancelled" else "deadline", later);
      }
    }
  }

  lemma DrainKeeps(s: State, digest: Digest, owner: Owner, aborted: bool, now: nat)
    requires Inv(s, digest)
    ensures Inv(DrainTurn(s, owner, aborted, now), digest)
  {
    hide Evidence, Table;
    if s.busy && Failed(s) {
      var deadline := s.failureStarted.value + RETENTION_NS;
      EvidenceFrame(s, s.(busy := false), digest);
      forall stage, callback ensures Inv(Start(s, owner, stage, true, callback, deadline, aborted, now).0, digest)
        ensures Inv(Start(s, owner, stage, true, callback, deadline, aborted, now).0.(busy := false), digest)
      {
        StartEvidence(s, digest, owner, stage, true, callback, deadline, aborted, now);
        StartKeeps(s, owner, stage, true, callback, deadline, aborted, now);
        var t := Start(s, owner, stage, true, callback, deadline, aborted, now).0;
        EvidenceFrame(t, t.(busy := false), digest);
      }
    }
  }

  lemma StepEvidence(s: State, digest: Digest, e: Event)
    requires Inv(s, digest) && Lawful(s, e) && !e.Drain?
    ensures Evidence(Apply(s, digest, e), digest)
  {
    hide Booked, Conserved, Operations, Hold, Start, Settle, Barrier;
    match e
    case Interrupt(code, now) => FailEvidence(s, digest, code, now);
    case HoldNow(owner, id, bytes, observed, now) =>
      HoldKeeps(s, digest, owner, id, bytes, observed, now);
      HoldConserves(s, digest, owner, id, bytes, observed, now);
    case ReleaseNow(id) =>
      ReleaseKeeps(s, digest, id);
      ReleaseConserves(s, id);
    case DurableAck(id, ref, raw) =>
      RecordKeeps(s, digest, id, ref, raw);
      RecordConserves(s, id, ref, raw);
    case Begin(owner, stage, screenshot, deadline, aborted, now) =>
      StartEvidence(s, digest, owner, stage, false,
                    if screenshot.Some? then HoldResult(screenshot.value) else NoCallback, deadline, aborted, now);
    case Finish(op, outcome, aborted, now, later) => SettleEvidence(s, digest, op, outcome, aborted, now, later);
    case Commit(owner, now, encode) =>
      BarrierFrame(s, owner, now, encode);
      EvidenceFrame(s, Barrier(s, owner, now, encode).0, digest);
    case _ => EvidenceFrame(s, Apply(s, digest, e), digest);
  }

  lemma ReleaseConserves(s: State, id: ArtifactId)
    requires Conserved(s)
    ensures Conserved(Release(s, id))
  {
  }

  lemma RecordConserves(s: State, id: ArtifactId, ref: Ref, raw: seq<byte>)
    requires Conserved(s)
    ensures Conserved(RecordAckSource(s, id, ref, raw))
  {
  }

  lemma BarrierFrame(s: State, owner: Owner, now: nat, encode: Encoder)
    ensures var t := Barrier(s, owner, now, encode).0; t == s.(terminal := t.terminal)
  {
  }

  lemma StepOperations(s: State, digest: Digest, e: Event)
    requires Inv(s, digest) && Lawful(s, e) && !e.Drain?
    ensures Operations(Apply(s, digest, e))
  {
    hide Evidence, Table, Hold, Start, Settle, GateOk, SnapshotOf, RecordsSource;
    match e
    case Interrupt(code, now) =>
      FailTable(s.ops, s.handles, s.ordinal, Failed(s), true);
    case HoldNow(owner, id, bytes, observed, now) =>
      HoldFrame(s, digest, owner, id, bytes, observed, now);
      var t := Hold(s, digest, owner, id, bytes, observed, now).0;
      FailTable(s.ops, s.handles, s.ordinal, Failed(s), Failed(t));
    case Begin(owner, stage, screenshot, deadline, aborted, now) =>
      StartKeeps(s, owner, stage, false, if screenshot.Some? then HoldResult(screenshot.value) else NoCallback,
                 deadline, aborted, now);
    case Finish(op, outcome, aborted, now, later) => SettleKeeps(s, digest, op, outcome, aborted, now, later);
    case TransferHandle(owner, op) =>
      if Has(s.handles, op) {
        TransferTable(s.ops, s.handles, s.ordinal, Failed(s), op);
      }
    case _ =>
  }

  /** Every lawful step keeps every counter, map and table in agreement. */
  lemma StepKeeps(s: State, digest: Digest, e: Event)
    requires Inv(s, digest) && Lawful(s, e)
    ensures Inv(Apply(s, digest, e), digest)
  {
    hide Evidence, Operations, Apply;
    if e.Drain? {
      DrainKeeps(s, digest, e.owner, e.aborted, e.now);
      ApplyDrain(s, digest, e);
    } else {
      StepEvidence(s, digest, e);
      StepOperations(s, digest, e);
    }
  }

  lemma ApplyDrain(s: State, digest: Digest, e: Event)
    requires e.Drain?
    ensures Apply(s, digest, e) == DrainTurn(s, e.owner, e.aborted, e.now)
  {
  }

  /** A collector that has done nothing yet. */
  predicate Fresh(s: State) {
    && !Failed(s) && s.terminal.None? && !s.busy && s.seen == {} && s.discarded == 0 && s.held == 0 && s.refCount == 0
    && |s.artifacts| == 0 && |s.inventory| == 0 && |s.ops| == 0 && |s.handles| == 0
    && s.history.observed == 0 && s.history.released == 0 && |s.history.acked| == 0
  }

  lemma FreshInv(s: State, digest: Digest)
    requires Fresh(s)
    ensures Inv(s, digest)
  {
  }

  lemma {:induction false} RunKeeps(s: State, digest: Digest, events: seq<Event>)
    requires Inv(s, digest) && LawfulRun(s, digest, events)
    ensures Inv(Run(s, digest, events), digest)
    decreases |events|
  {
    hide Inv, Apply, Lawful;
    if events != [] {
      StepKeeps(s, digest, events[0]);
      RunKeeps(Apply(s, digest, events[0]), digest, events[1..]);
    }
  }

  /** In every lawful run the counters agree with the maps, the budgets hold, and every byte
      observed is discarded, released, acknowledged or held. */
  lemma EveryRunAgrees(s: State, digest: Digest, events: seq<Event>)
    requires Fresh(s) && LawfulRun(s, digest, events)
    ensures
      var t := Run(s, digest, events);
      && t.history.observed == t.discarded + t.history.released + AckedBytes(t.history.acked) + t.held
      && t.held == Sum(t.artifacts, HeldOf) <= CAPACITY && t.refCount == Sum(t.artifacts, RefsOf) <= SOURCE_REFS
      && |t.artifacts| <= SLOTS && |t.ops| <= SLOTS && |t.handles| <= SLOTS
      && (Failed(t) ==>
            && t.held == Sum(t.inventory, OutstandingOf) && t.retainedBytes == Sum(t.inventory, RetainedOf) <= CAPACITY
            && t.retainedCount == |t.inventory| <= SLOTS && t.seen == Keys(t.inventory))
  {
    hide Run;
    FreshInv(s, digest);
    RunKeeps(s, digest, events);
    MeasureBound(Run(s, digest, events).ops);
  }
}
