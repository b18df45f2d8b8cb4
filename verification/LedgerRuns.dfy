/** The operation table, and what holds over whole runs of the ledger. */
module LedgerRuns {
  import opened Basics
  import opened OrderedMaps
  import opened Ledger
  import opened LedgerInvariant

  // ---- operations and late handles ----

  lemma {:induction false} MeasureBound(m: seq<Entry<nat, Operation>>)
    ensures 0 <= Sum(m, MeasureOf) <= |m|
  {
    if m != [] {
      MeasureBound(m[1..]);
    }
  }

  lemma PendingVisible(ops: seq<Entry<nat, Operation>>, id: nat)
    requires PendingIn(ops, id)
    ensures SomePending(ops)
  {
    assert ops[Find(ops, id)].value.state == Pending;
  }

  /** Failure may begin at any moment without breaking the table. */
  lemma FailTable(ops: seq<Entry<nat, Operation>>, handles: seq<Entry<nat, Handle>>, ordinal: nat, before: bool,
                  after: bool)
    requires Table(ops, handles, ordinal, before) && (before ==> after)
    ensures Table(ops, handles, ordinal, after)
  {
    MeasureBound(ops);
  }

  lemma EvictKeeps(m: seq<Entry<nat, Operation>>)
    requires Distinct(m)
    ensures Distinct(Evict(m))
    ensures forall k: nat :: Has(m, k) && Get(m, k).state == Pending ==>
              Has(Evict(m), k) && Get(Evict(m), k) == Get(m, k)
    ensures forall k: nat :: Has(Evict(m), k) ==> Has(m, k) && Get(Evict(m), k) == Get(m, k)
    ensures Sum(Evict(m), MeasureOf) == Sum(m, MeasureOf)
    ensures |m| <= SLOTS ==> |Evict(m)| <= SLOTS
    ensures |m| <= SLOTS && |Evict(m)| == SLOTS ==> Evict(m) == m && forall i :: 0 <= i < |m| ==>
              m[i].value.state == Pending
  {
    var i := FirstSettled(m);
    if |m| >= SLOTS && i < |m| {
      FindAt(m, i);
      var key := m[i].key;
      assert Evict(m) == Remove(m, key);
      SumRemove(m, key, MeasureOf);
      forall k: nat ensures Has(Evict(m), k) <==> k != key && Has(m, k)
        ensures Has(Evict(m), k) ==> Get(Evict(m), k) == Get(m, k)
      {
        RemoveLookup(m, key, k);
      }
    }
  }

  lemma AddTable(ops: seq<Entry<nat, Operation>>, handles: seq<Entry<nat, Handle>>, ordinal: nat, failed: bool,
                 op: Operation)
    requires Table(ops, handles, ordinal, failed) && |ops| < SLOTS && (failed ==> op.retention)
    ensures Table(Put(ops, ordinal + 1, op), handles, ordinal + 1, failed)
  {
    var id := ordinal + 1;
    assert !Has(ops, id);
    SumPut(ops, id, op, MeasureOf);
    forall k: nat ensures Has(Put(ops, id, op), k) <==> k == id || Has(ops, k)
      ensures Has(Put(ops, id, op), k) ==> Get(Put(ops, id, op), k) == if k == id then op else Get(ops, k)
    {
      PutLookup(ops, id, op, k);
    }
  }

  lemma EvictTable(ops: seq<Entry<nat, Operation>>, handles: seq<Entry<nat, Handle>>, ordinal: nat, failed: bool)
    requires Table(ops, handles, ordinal, failed)
    ensures Table(Evict(ops), handles, ordinal, failed)
  {
    hide Evict;
    EvictKeeps(ops);
  }

  lemma StartKeeps(s: State, owner: Owner, stage: string, retention: bool, callback: Callback, deadline: nat,
                   aborted: bool, now: nat)
    requires Operations(s)
    ensures Operations(Start(s, owner, stage, retention, callback, deadline, aborted, now).0)
  {
    hide Table;
    var (t, r) := Start(s, owner, stage, retention, callback, deadline, aborted, now);
    EvictTable(s.ops, s.handles, s.ordinal, Failed(s));
    if r.Ok? {
      var op := Operation(owner, stage, retention, callback, deadline, now, None, Pending, false);
      AddTable(Evict(s.ops), s.handles, s.ordinal, Failed(s), op);
    } else {
      FailTable(t.ops, t.handles, t.ordinal, Failed(s), Failed(t));
    }
  }

  /** Two states with the same tables, flags and barrier, and no failure undone. */
  predicate SameTables(s: State, t: State) {
    && t.ops == s.ops && t.handles == s.handles && t.ordinal == s.ordinal
    && t.busy == s.busy && t.terminal == s.terminal && t.used == s.used && (Failed(s) ==> Failed(t))
  }

  lemma HoldFrame(s: State, digest: Digest, owner: Owner, id: ArtifactId, bytes: seq<byte>, observed: nat, now: nat)
    ensures SameTables(s, Hold(s, digest, owner, id, bytes, observed, now).0)
  {
    hide FailOwnership, Admitted, Put;
    FailFrame(Counted(s, observed, Admitted(s, |bytes|, now)), "retention-quota", now);
  }

  lemma AcknowledgeFrame(s: State, digest: Digest, owner: Owner, r: Receipt)
    ensures SameTables(s, Acknowledge(s, digest, owner, r).0)
  {
    hide ReadChunk, Accepts;
  }

  predicate Yields(op: Operation, late: bool) {
    op.callback.NoCallback? && late && !op.retention && HandleStage(op.stage)
  }

  lemma DeliverFrame(s: State, digest: Digest, id: nat, op: Operation, outcome: Outcome, late: bool, now: nat)
    ensures
      var (t, r) := Deliver(s, digest, id, op, outcome, late, now);
      if Yields(op, late) then r.Ok? && t == s.(handles := Put(s.handles, id, Handle(op.owner, op.stage)))
      else SameTables(s, t)
  {
    hide Hold, Acknowledge;
    match op.callback
    case HoldResult(art) =>
      if outcome.Screenshot? {
        HoldFrame(s, digest, op.owner, art, outcome.bytes, outcome.observed, now);
      }
    case AcknowledgeResult =>
      if outcome.Durable? {
        AcknowledgeFrame(s, digest, op.owner, outcome.receipt);
      }
    case NoCallback =>
      var raw := if outcome.Opaque? then outcome.raw else [];
      HoldFrame(s, digest, op.owner, Late(id), raw[..Min(LATE_PREFIX, |raw|)], |raw|, now);
  }

  lemma CloseTable(ops: seq<Entry<nat, Operation>>, id: nat, settled: Operation)
    requires Distinct(ops) && PendingIn(ops, id) && settled.state != Pending
    ensures forall t :: t == Remove(ops, id) || t == Put(ops, id, settled) ==>
              && Distinct(t) && |t| <= |ops|
              && Sum(t, MeasureOf) == Sum(ops, MeasureOf) - MeasureOf(Get(ops, id))
              && !PendingIn(t, id)
              && forall k: nat :: (Has(t, k) ==> Has(ops, k)) && (PendingIn(t, k) ==> PendingIn(ops, k))
  {
    SumRemove(ops, id, MeasureOf);
    SumPut(ops, id, settled, MeasureOf);
    forall k: nat ensures Has(Remove(ops, id), k) <==> k != id && Has(ops, k)
      ensures Has(Remove(ops, id), k) ==> Get(Remove(ops, id), k) == Get(ops, k)
      ensures Has(Put(ops, id, settled), k) <==> k == id || Has(ops, k)
      ensures Has(Put(ops, id, settled), k) ==>
                Get(Put(ops, id, settled), k) == if k == id then settled else Get(ops, k)
    {
      RemoveLookup(ops, id, k);
      PutLookup(ops, id, settled, k);
    }
  }

  lemma ShrinkTable(ops: seq<Entry<nat, Operation>>, handles: seq<Entry<nat, Handle>>, ordinal: nat, failed: bool,
                    id: nat, settled: Operation, t: seq<Entry<nat, Operation>>)
    requires Table(ops, handles, ordinal, failed) && PendingIn(ops, id) && settled.state != Pending
    requires t == Remove(ops, id) || t == Put(ops, id, settled)
    ensures Table(t, handles, ordinal, failed)
  {
    CloseTable(ops, id, settled);
  }

  /** A late handle takes the place of the measurement operation that produced it. */
  lemma YieldTable(ops: seq<Entry<nat, Operation>>, handles: seq<Entry<nat, Handle>>, ordinal: nat, failed: bool,
                   id: nat, settled: Operation, t: seq<Entry<nat, Operation>>, handle: Handle)
    requires Table(ops, handles, ordinal, failed) && PendingIn(ops, id) && !Get(ops, id).retention
    requires settled.state != Pending && (t == Remove(ops, id) || t == Put(ops, id, settled))
    ensures Table(t, Put(handles, id, handle), ordinal, true)
  {
    FailTable(ops, handles, ordinal, failed, true);
    CloseTable(ops, id, settled);
    forall k: nat | Has(Put(handles, id, handle), k) ensures k == id || Has(handles, k) {
      PutLookup(handles, id, handle, k);
    }
  }

  lemma ThrewKeeps(s: State, digest: Digest, id: nat, aborted: bool, now: nat, later: nat)
    requires Operations(s) && PendingIn(s.ops, id)
    ensures Operations(Settle(s, digest, id, Threw, aborted, now, later))
  {
    hide Table;
    PendingVisible(s.ops, id);
    var op := Get(s.ops, id);
    ShrinkTable(s.ops, s.handles, s.ordinal, Failed(s), id,
        op.(state := Rejected, late := Failed(s), settledNs := Some(now)),
                CloseOp(s, id, op, Rejected, Failed(s), aborted, now).ops);
  }

  /** The tables after a fulfilled operation was delivered and closed, with or without a handle. */
  lemma ClosedTable(s: State, t: State, id: nat, op: Operation, state: OpState, late: bool, aborted: bool, now: nat)
    requires Table(s.ops, s.handles, s.ordinal, Failed(s)) && PendingIn(s.ops, id) && op == Get(s.ops, id)
    requires state != Pending
    requires t.ops == s.ops && t.ordinal == s.ordinal && (Failed(s) ==> Failed(t))
    requires t.handles == if Yields(op, late) then Put(s.handles, id, Handle(op.owner, op.stage)) else s.handles
    ensures
      var u := CloseOp(t, id, op, state, late, aborted, now);
      && u == t.(ops := u.ops)
      && Table(u.ops, u.handles, u.ordinal, Yields(op, late) || Failed(t))
  {
    hide Table;
    var settled := op.(state := state, late := late, settledNs := Some(now));
    var u := CloseOp(t, id, op, state, late, aborted, now);
    if Yields(op, late) {
      YieldTable(s.ops, s.handles, s.ordinal, Failed(s), id, settled, u.ops, Handle(op.owner, op.stage));
    } else {
      ShrinkTable(s.ops, s.handles, s.ordinal, Failed(s), id, settled, u.ops);
      FailTable(u.ops, s.handles, s.ordinal, Failed(s), Failed(t));
    }
  }

  lemma SettleKeeps(s: State, digest: Digest, id: nat, outcome: Outcome, aborted: bool, now: nat, later: nat)
    requires Operations(s) && now <= later
    ensures Operations(Settle(s, digest, id, outcome, aborted, now, later))
  {
    if PendingIn(s.ops, id) {
      hide Table, Deliver, CloseOp, FailOwnership;
      PendingVisible(s.ops, id);
      var op := Get(s.ops, id);
      if outcome.Threw? {
        ThrewKeeps(s, digest, id, aborted, now, later);
      } else {
        var late := LateSettlement(s, op, aborted, now);
        var (t, r) := Deliver(s, digest, id, op, outcome, late, now);
        DeliverFrame(s, digest, id, op, outcome, late, now);
        var state := if r.Err? then Rejected else Fulfilled;
        ClosedTable(s, t, id, op, state, late, aborted, now);
        var u := CloseOp(t, id, op, state, late, aborted, now);
        var code := if aborted then "cancelled" else "deadline";
        FailFrame(u, code, later);
        FailTable(u.ops, u.handles, u.ordinal, Yields(op, late) || Failed(u), true);
      }
    }
  }

  lemma FailFrame(s: State, code: string, now: nat)
    ensures SameTables(s, FailOwnership(s, code, now)) && Failed(FailOwnership(s, code, now))
  {
  }

  lemma TransferTable(ops: seq<Entry<nat, Operation>>, handles: seq<Entry<nat, Handle>>, ordinal: nat, failed: bool,
                      id: nat)
    requires Table(ops, handles, ordinal, failed) && Has(handles, id)
    ensures Table(ops, Remove(handles, id), ordinal, failed)
  {
    forall k: nat ensures Has(Remove(handles, id), k) ==> Has(handles, k) {
      RemoveLookup(handles, id, k);
    }
  }
}
