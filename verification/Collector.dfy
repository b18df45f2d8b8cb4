/** The mutable collector. Each method is the source's own update, proved to be the
    corresponding step of the ledger and to keep its invariant. */
module Collector {
  import opened Basics
  import opened OrderedMaps
  import L = Ledger
  import opened LedgerInvariant
  import opened LedgerRuns
  import opened LedgerTheorems
  import Gate = FailureGate

  class NativeCollector {
    const digest: L.Digest
    var failureStarted: Option<nat>
    var failureCause: string
    var failureArtifacts: seq<Entry<L.ArtifactId, L.Artifact>>
    var failureInventory: seq<Entry<L.ArtifactId, L.Inventory>>
    var heldBytes: int
    var discardedBytes: int
    var failureRetainedBytes: int
    var failureRetainedArtifacts: int
    var failureSeenIds: set<L.ArtifactId>
    var sourceRefCount: int
    var retentionBusy: bool
    var terminalFailure: Option<L.Terminal>
    var lateHandles: seq<Entry<nat, L.Handle>>
    var operationOrdinal: nat
    var outstanding: seq<Entry<nat, L.Operation>>
    var used: set<L.Owner>
    ghost var history: L.History

    ghost function Abs(): L.State
      reads this
    {
      L.State(failureStarted, failureCause, failureArtifacts, failureInventory, heldBytes, discardedBytes,
              failureRetainedBytes, failureRetainedArtifacts, failureSeenIds, sourceRefCount, retentionBusy,
              terminalFailure, lateHandles, operationOrdinal, outstanding, used, history)
    }

    constructor (digest: L.Digest)
      ensures this.digest == digest && Fresh(Abs()) && Inv(Abs(), digest)
    {
      this.digest := digest;
      failureStarted, failureCause := None, "";
      failureArtifacts, failureInventory := [], [];
      heldBytes, discardedBytes, failureRetainedBytes, failureRetainedArtifacts := 0, 0, 0, 0;
      failureSeenIds, sourceRefCount, retentionBusy := {}, 0, false;
      terminalFailure, lateHandles, operationOrdinal, outstanding, used := None, [], 0, [], {};
      history := L.History(0, 0, [], map[]);
      new;
      FreshInv(Abs(), digest);
    }

    method FailOwnership(code: string, now: nat)
      requires Booked(Abs(), digest)
      modifies this
      ensures Abs() == L.FailOwnership(old(Abs()), code, now)
      ensures Booked(Abs(), digest)
    {
      hide Booked, L.InventoryOf, Keys, Sum;
      FailKeeps(Abs(), digest, code, now);
      BookedDistinct(Abs(), digest);
      if failureStarted.None? {
        TakeOver();
        failureStarted, failureCause := Some(now), code;
      }
    }

    /** Moves every artifact into the inventory and opens the cumulative budget. */
    method TakeOver()
      requires Distinct(failureArtifacts)
      modifies this
      ensures
        var inventory := L.InventoryOf(old(failureArtifacts));
        Abs() == old(Abs()).(inventory := inventory, retainedBytes := Sum(inventory, L.RetainedOf),
                             retainedCount := |old(failureArtifacts)|, seen := Keys(old(failureArtifacts)))
    {
      hide L.InventoryOf, Keys, Sum;
      var inventory, total := TakeInventory(failureArtifacts);
      failureInventory := inventory;
      failureRetainedBytes := total;
      failureRetainedArtifacts := |failureArtifacts|;
      failureSeenIds := Keys(failureArtifacts);
    }

    method Hold(owner: L.Owner, id: L.ArtifactId, bytes: seq<byte>, observed: nat,
                now: nat) returns (result: Result<()>)
      requires Evidence(Abs(), digest) && |bytes| <= observed
      modifies this
      ensures (Abs(), result) == L.Hold(old(Abs()), digest, owner, id, bytes, observed, now)
      ensures Evidence(Abs(), digest)
    {
      hide Booked, Conserved, L.FailOwnership, L.Store, L.Admitted;
      ghost var s := Abs();
      HoldKeeps(s, digest, owner, id, bytes, observed, now);
      HoldConserves(s, digest, owner, id, bytes, observed, now);
      if terminalFailure.Some? {
        return Err("failure-terminal-closed");
      }
      if Has(failureArtifacts, id) || id in failureSeenIds {
        return Err("duplicate-private-artifact");
      }
      var count := Admit(|bytes|, now);
      discardedBytes := discardedBytes + (observed - count);
      history := history.(observed := history.observed + observed);
      CountedKeeps(s, digest, observed, count);
      assert Abs() == L.Counted(s, observed, count);
      if count < observed {
        FailOwnership("retention-quota", now);
      }
      if count > 0 {
        Retain(owner, id, bytes[..count], observed, now);
      }
      return Ok(());
    }

    /** How much of a new artifact the budgets admit. */
    method Admit(size: nat, now: nat) returns (count: nat)
      ensures count == L.Admitted(Abs(), size, now)
    {
      var expired := failureStarted.Some? && now >= failureStarted.value + L.RETENTION_NS;
      var available := if expired then 0
        else Max(0, Min(L.CAPACITY - heldBytes, if failureStarted.None? then L.CAPACITY
            else L.CAPACITY - failureRetainedBytes));
      count := if |failureArtifacts| < L.SLOTS && (failureStarted.None? || failureRetainedArtifacts < L.SLOTS)
        then Min(size, available) else 0;
    }

    method Retain(owner: L.Owner, id: L.ArtifactId, retained: seq<byte>, observed: nat, now: nat)
      modifies this
      ensures Abs() == L.Store(old(Abs()), digest, owner, id, retained, observed, now)
    {
      hide L.Shelve, L.Enroll;
      var artifact := L.Artifact(owner, retained, observed, 0, digest(retained), now, []);
      Shelve(id, artifact);
      if failureStarted.Some? {
        Enroll(id, artifact);
      }
    }

    method Shelve(id: L.ArtifactId, artifact: L.Artifact)
      modifies this
      ensures Abs() == L.Shelve(old(Abs()), id, artifact)
      ensures failureStarted == old(failureStarted)
    {
      failureArtifacts := Put(failureArtifacts, id, artifact);
      history := history.(content := history.content[id := artifact.bytes]);
      heldBytes := heldBytes + |artifact.bytes|;
    }

    method Enroll(id: L.ArtifactId, artifact: L.Artifact)
      modifies this
      ensures Abs() == L.Enroll(old(Abs()), id, artifact)
    {
      failureSeenIds := failureSeenIds + {id};
      failureRetainedBytes := failureRetainedBytes + |artifact.bytes|;
      failureRetainedArtifacts := failureRetainedArtifacts + 1;
      failureInventory := Put(failureInventory, id, L.Moved(artifact));
    }

    method Release(id: L.ArtifactId)
      modifies this
      ensures Abs() == L.Release(old(Abs()), id)
    {
      if Has(failureArtifacts, id) {
        var artifact := Get(failureArtifacts, id);
        sourceRefCount := sourceRefCount - |artifact.refs|;
        heldBytes := heldBytes - |artifact.bytes|;
        failureArtifacts := Remove(failureArtifacts, id);
        history := history.(released := history.released + |artifact.bytes|);
      }
    }

    method RecordAckSource(id: L.ArtifactId, ref: L.Ref, raw: seq<byte>)
      modifies this
      ensures Abs() == L.RecordAckSource(old(Abs()), id, ref, raw)
    {
      if failureStarted.Some? || sourceRefCount >= L.SOURCE_REFS || !Has(failureArtifacts, id) {
        return;
      }
      var artifact := Get(failureArtifacts, id);
      if || Has(artifact.refs, ref.offset)
         || ref.bytes != |raw|
         || ref.offset + ref.bytes > |artifact.bytes|
         || artifact.bytes[ref.offset..ref.offset + ref.bytes] != raw
      {
        return;
      }
      failureArtifacts := Put(failureArtifacts, id, artifact.(refs := Put(artifact.refs, ref.offset, ref)));
      sourceRefCount := sourceRefCount + 1;
    }

    method ReadFailureChunk(owner: L.Owner, id: L.ArtifactId) returns (result: Result<L.Chunk>)
      ensures result == if L.Readable(Abs(), owner, id) then Ok(L.ReadChunk(Abs(), digest, owner, id))
                        else Err("foreign-private-artifact")
    {
      if failureStarted.None? || !Has(failureArtifacts, id) || Get(failureArtifacts, id).owner != owner {
        return Err("foreign-private-artifact");
      }
      var a := Get(failureArtifacts, id);
      var bytes := a.bytes[..Min(CHUNK, |a.bytes|)];
      var refs := if Has(failureInventory, id) then Get(failureInventory, id).refs else [];
      var source: Option<L.Ref> := None;
      if Has(refs, a.offset) && Get(refs, a.offset).bytes == |bytes| {
        source := Some(Get(refs, a.offset));
      }
      return Ok(L.Chunk(owner, id, a.observed, |a.bytes| + a.offset, a.sha, a.receivedNs, failureStarted.value,
                        failureStarted.value + L.RETENTION_NS, a.offset, digest(bytes), source, bytes));
    }

    method AcknowledgeFailureChunk(owner: L.Owner, receipt: L.Receipt) returns (result: Result<()>)
      requires Evidence(Abs(), digest)
      modifies this
      ensures (Abs(), result) == L.Acknowledge(old(Abs()), digest, owner, receipt)
      ensures Evidence(Abs(), digest)
    {
      ghost var s := Abs();
      AcknowledgeKeeps(s, digest, owner, receipt);
      if terminalFailure.Some? {
        return Err("failure-terminal-closed");
      }
      var read := ReadFailureChunk(owner, receipt.id);
      if read.Err? {
        return Err("foreign-private-artifact");
      }
      var row := read.value;
      if receipt != L.Echo(row, receipt.durableId) || |receipt.durableId| == 0 {
        return Err("failure-retention-ack");
      }
      AdvanceAfterFailure(s, digest, owner, receipt.id);
      Advance(owner, receipt.id, row);
      return Ok(());
    }

    method Advance(owner: L.Owner, id: L.ArtifactId, row: L.Chunk)
      requires L.Readable(Abs(), owner, id) && row == L.ReadChunk(Abs(), digest, owner, id)
      requires Has(failureInventory, id) && Distinct(failureArtifacts)
      modifies this
      ensures Abs() == L.Advance(old(Abs()), digest, owner, id)
    {
      ghost var s := Abs();
      var a := Get(failureArtifacts, id);
      var n := |row.data|;
      AdvanceIsWritten(s, digest, owner, id);
      hide L.Advance, L.Written, L.Release, L.ReadChunk;
      Write(id, a, row.data);
      if n == |a.bytes| {
        Release(id);
      }
    }

    method Write(id: L.ArtifactId, a: L.Artifact, data: seq<byte>)
      requires Has(failureArtifacts, id) && a == Get(failureArtifacts, id) && |data| <= |a.bytes|
      requires Has(failureInventory, id)
      modifies this
      ensures Abs() == L.Written(old(Abs()), id, data)
    {
      hide Put;
      var offset := a.offset + |data|;
      failureInventory := Put(failureInventory, id, Get(failureInventory, id).(acknowledged := offset));
      heldBytes := heldBytes - |data|;
      failureArtifacts := Put(failureArtifacts, id, a.(offset := offset, bytes := a.bytes[|data|..]));
      history := history.(acked := history.acked + [L.Acked(id, a.offset, data)]);
    }

    method FailureState(owner: L.Owner, now: nat) returns (result: Result<L.Snapshot>)
      ensures failureStarted.None? ==> result == Err("failure-state-not-ready")
      ensures failureStarted.Some? ==>
                var n := L.SnapshotOf(Abs(), owner, now);
                if L.GateOk(n) then result == Ok(n) else result.Err?
    {
      if failureStarted.None? {
        return Err("failure-state-not-ready");
      }
      var snapshot := L.Snapshot(
        owner, now, failureStarted.value, failureCause, discardedBytes, heldBytes,
        seq(|outstanding|, i requires 0 <= i < |outstanding| reads this => outstanding[i].value),
        L.HandlesOf(lateHandles, owner), L.Reports(failureInventory, owner),
        if L.SomePending(outstanding) then L.PendingWork
        else if discardedBytes != 0 || failureArtifacts != [] || lateHandles != [] then L.Partial else L.Settled);
      assert snapshot.operations == L.SnapshotOf(Abs(), owner, now).operations;
      var checked := Gate.CheckFailure(snapshot);
      if checked.Err? {
        return Err(checked.code);
      }
      return Ok(snapshot);
    }

    method TerminalFailureSnapshot(owner: L.Owner, now: nat, encode: L.Encoder) returns (result: Result<seq<byte>>)
      requires Inv(Abs(), digest)
      modifies this
      ensures Abs() == L.Barrier(old(Abs()), owner, now, encode).0
      ensures result.Ok? <==> L.Barrier(old(Abs()), owner, now, encode).1.Ok?
      ensures result.Ok? ==> result == L.Barrier(old(Abs()), owner, now, encode).1
      ensures Inv(Abs(), digest)
    {
      ghost var s := Abs();
      assert L.Apply(s, digest, L.Commit(owner, now, encode)) == L.Barrier(s, owner, now, encode).0;
      StepKeeps(s, digest, L.Commit(owner, now, encode));
      if used != {owner} {
        return Err("foreign-failure-snapshot");
      }
      if terminalFailure.Some? {
        if terminalFailure.value.owner != owner {
          return Err("foreign-failure-snapshot");
        }
        return Ok(terminalFailure.value.bytes);
      }
      if failureStarted.None? || retentionBusy || L.SomePending(outstanding) {
        return Err("failure-terminal-not-ready");
      }
      var state := FailureState(owner, now);
      if state.Err? {
        return Err(state.code);
      }
      var bytes := encode(state.value);
      if !(0 < |bytes| <= FAILURE_SNAPSHOT) {
        return Err("failure-snapshot-byte-bound");
      }
      terminalFailure := Some(L.Terminal(owner, bytes));
      return Ok(bytes);
    }

    method StartOwned(owner: L.Owner, stage: string, retention: bool, callback: L.Callback, deadline: nat,
                      aborted: bool, now: nat)
      returns (result: Result<nat>)
      requires Inv(Abs(), digest)
      modifies this
      ensures (Abs(), result) == L.Start(old(Abs()), owner, stage, retention, callback, deadline, aborted, now)
      ensures Inv(Abs(), digest)
    {
      hide Booked, Operations, L.FailOwnership, L.FirstSettled;
      ghost var s := Abs();
      StartKeeps(s, owner, stage, retention, callback, deadline, aborted, now);
      StartEvidence(s, digest, owner, stage, retention, callback, deadline, aborted, now);
      if terminalFailure.Some? {
        return Err("failure-terminal-closed");
      }
      if aborted {
        FailOwnership("cancelled", now);
        return Err("cancelled");
      }
      if now >= deadline {
        FailOwnership("deadline", now);
        return Err("deadline");
      }
      if !retention && failureStarted.Some? {
        return Err(failureCause);
      }
      if |outstanding| >= L.SLOTS {
        var i := L.FirstSettled(outstanding);
        if i < |outstanding| {
          outstanding := outstanding[..i] + outstanding[i + 1..];
        }
      }
      assert Abs() == s.(ops := L.Evict(s.ops));
      if |outstanding| >= L.SLOTS {
        EvidenceFrame(s, Abs(), digest);
        FailOwnership("native-operation-quota", now);
        return Err("native-operation-quota");
      }
      operationOrdinal := operationOrdinal + 1;
      outstanding := Put(outstanding, operationOrdinal,
                         L.Operation(owner, stage, retention, callback, deadline, now, None, L.Pending, false));
      return Ok(operationOrdinal);
    }

    /** Entry of the drain: one at a time, only after failure and before the barrier. */
    method BeginDrain() returns (result: Result<()>)
      requires Inv(Abs(), digest)
      modifies this`retentionBusy
      ensures Abs() == L.Apply(old(Abs()), digest, L.BeginDrain) && Inv(Abs(), digest)
      ensures result.Ok? <==> old(terminalFailure).None? && old(failureStarted).Some? && !old(retentionBusy)
    {
      hide Evidence, Operations;
      StepKeeps(Abs(), digest, L.BeginDrain);
      if terminalFailure.Some? {
        return Err("failure-terminal-closed");
      }
      if failureStarted.None? || retentionBusy {
        return Err("failure-retention-not-ready");
      }
      retentionBusy := true;
      return Ok(());
    }

    /** One turn of the drain loop, up to its await; false when the loop is left. */
    method DrainTurn(owner: L.Owner, aborted: bool, now: nat) returns (more: bool)
      requires Inv(Abs(), digest) && retentionBusy && failureStarted.Some?
      modifies this
      ensures Abs() == L.DrainTurn(old(Abs()), owner, aborted, now) && Inv(Abs(), digest)
      ensures more == retentionBusy
    {
      hide Inv, L.Start, L.FirstOwned;
      DrainKeeps(Abs(), digest, owner, aborted, now);
      var deadline := failureStarted.value + L.RETENTION_NS;
      if now >= deadline || aborted {
        retentionBusy := false;
        return false;
      }
      var entry := FindOwned(failureArtifacts, owner);
      var started: Result<nat>;
      if entry < |failureArtifacts| {
        started := StartOwned(owner, "failure-retention-emit", true, L.AcknowledgeResult, deadline, aborted, now);
      } else if L.SomePending(outstanding) {
        started := StartOwned(owner, "failure-settlement-wait", true, L.NoCallback, deadline, aborted, now);
      } else {
        retentionBusy := false;
        return false;
      }
      if started.Err? {
        retentionBusy := false;
        return false;
      }
      StartBusy(old(Abs()), owner, aborted, now);
      return true;
    }

    /** Hands a late handle to its owner once, against a durable receipt. */
    method TransferLateHandle(owner: L.Owner, operation: nat, durableId: string) returns (kind: Result<string>)
      requires Inv(Abs(), digest)
      modifies this`lateHandles
      ensures kind.Ok? <==>
                && old(terminalFailure).None? && Has(old(lateHandles), operation)
                && Get(old(lateHandles), operation).owner == owner && durableId != ""
      ensures kind.Ok? ==> kind.value == Get(old(lateHandles), operation).kind
      ensures Abs() == if kind.Ok? then L.Apply(old(Abs()), digest, L.TransferHandle(owner, operation)) else old(Abs())
      ensures Inv(Abs(), digest)
    {
      hide Evidence, Operations;
      StepKeeps(Abs(), digest, L.TransferHandle(owner, operation));
      if terminalFailure.Some? {
        return Err("failure-terminal-closed");
      }
      if !Has(lateHandles, operation) || Get(lateHandles, operation).owner != owner || durableId == "" {
        return Err("foreign-late-handle");
      }
      var entry := Get(lateHandles, operation);
      lateHandles := Remove(lateHandles, operation);
      return Ok(entry.kind);
    }

    /** The settlement continuation of an owned operation, which stays attached after a timeout. */
    method SettleOwned(id: nat, outcome: L.Outcome, aborted: bool, now: nat, later: nat)
      requires Inv(Abs(), digest) && now <= later
      requires outcome.Screenshot? ==> |outcome.bytes| <= outcome.observed
      modifies this
      ensures Abs() == L.Settle(old(Abs()), digest, id, outcome, aborted, now, later)
      ensures Inv(Abs(), digest)
    {
      hide Booked, Conserved, Operations, L.Deliver, L.CloseOp, L.FailOwnership;
      ghost var s := Abs();
      SettleEvidence(s, digest, id, outcome, aborted, now, later);
      SettleKeeps(s, digest, id, outcome, aborted, now, later);
      if !L.PendingIn(outstanding, id) {
        return;
      }
      var op := Get(outstanding, id);
      if outcome.Threw? {
        CloseOwned(id, op, L.Rejected, failureStarted.Some?, aborted, now);
        return;
      }
      var late := failureStarted.Some? || now >= op.deadline || aborted;
      DeliverEvidence(s, digest, id, op, outcome, late, now);
      var delivered := Deliver(id, op, outcome, late, now);
      ghost var t := Abs();
      CloseOwned(id, op, if delivered.Err? then L.Rejected else L.Fulfilled, late, aborted, now);
      CloseFrame(t, id, op, if delivered.Err? then L.Rejected else L.Fulfilled, late, aborted, now);
      EvidenceFrame(t, Abs(), digest);
      if delivered.Ok? && !op.retention && (failureStarted.Some? || later >= op.deadline || aborted) {
        FailOwnership(if aborted then "cancelled" else "deadline", later);
      }
    }

    method Deliver(id: nat, op: L.Operation, outcome: L.Outcome, late: bool, now: nat) returns (result: Result<()>)
      requires Evidence(Abs(), digest)
      requires outcome.Screenshot? ==> |outcome.bytes| <= outcome.observed
      modifies this
      ensures (Abs(), result) == L.Deliver(old(Abs()), digest, id, op, outcome, late, now)
    {
      hide Evidence, L.Hold, L.Acknowledge;
      match op.callback {
        case HoldResult(art) =>
          if !outcome.Screenshot? {
            return Err("callback");
          }
          result := Hold(op.owner, art, outcome.bytes, outcome.observed, now);
        case AcknowledgeResult =>
          if !outcome.Durable? {
            return Err("callback");
          }
          result := AcknowledgeFailureChunk(op.owner, outcome.receipt);
        case NoCallback =>
          if !late || op.retention {
            return Ok(());
          }
          if L.HandleStage(op.stage) {
            lateHandles := Put(lateHandles, id, L.Handle(op.owner, op.stage));
            return Ok(());
          }
          var raw := if outcome.Opaque? then outcome.raw else [];
          result := Hold(op.owner, L.Late(id), raw[..Min(L.LATE_PREFIX, |raw|)], |raw|, now);
      }
    }

    method CloseOwned(id: nat, op: L.Operation, state: L.OpState, late: bool, aborted: bool, now: nat)
      modifies this
      ensures Abs() == L.CloseOp(old(Abs()), id, op, state, late, aborted, now)
    {
      hide Put, Remove;
      if !late || (op.retention && now < op.deadline && !aborted) {
        outstanding := Remove(outstanding, id);
      } else {
        outstanding := Put(outstanding, id, op.(state := state, late := late, settledNs := Some(now)));
      }
    }
  }

  lemma CloseFrame(s: L.State, id: nat, op: L.Operation, state: L.OpState, late: bool, aborted: bool, now: nat)
    ensures var t := L.CloseOp(s, id, op, state, late, aborted, now); t == s.(ops := t.ops)
  {
  }

  /** Copies every artifact into an empty inventory, in insertion order. */
  method TakeInventory(artifacts: seq<Entry<L.ArtifactId, L.Artifact>>)
    returns (inventory: seq<Entry<L.ArtifactId, L.Inventory>>, total: int)
    requires Distinct(artifacts)
    ensures inventory == L.InventoryOf(artifacts)
    ensures total == Sum(inventory, L.RetainedOf)
  {
    inventory, total := [], 0;
    for i := 0 to |artifacts|
      invariant inventory == L.InventoryOf(artifacts[..i])
      invariant total == Sum(inventory, L.RetainedOf)
    {
      var e := artifacts[i];
      PrefixInventory(artifacts, i);
      SumPut(inventory, e.key, L.Moved(e.value), L.RetainedOf);
      inventory := Put(inventory, e.key, L.Moved(e.value));
      total := total + |e.value.bytes| + e.value.offset;
    }
    assert artifacts[..|artifacts|] == artifacts;
  }

  lemma PrefixInventory(m: seq<Entry<L.ArtifactId, L.Artifact>>, i: nat)
    requires i < |m| && Distinct(m)
    ensures !Has(L.InventoryOf(m[..i]), m[i].key)
    ensures L.InventoryOf(m[..i + 1]) == L.InventoryOf(m[..i]) + [Entry(m[i].key, L.Moved(m[i].value))]
  {
    InventoryLookup(m[..i], m[i].key);
  }

  lemma AdvanceIsWritten(s: L.State, digest: L.Digest, owner: L.Owner, id: L.ArtifactId)
    requires L.Readable(s, owner, id) && Has(s.inventory, id)
    ensures
      var data := L.ReadChunk(s, digest, owner, id).data;
      var t := L.Written(s, id, data);
      L.Advance(s, digest, owner, id) == if |data| == |Get(s.artifacts, id).bytes| then L.Release(t, id) else t
  {
    hide L.Advance, L.ReadChunk, Put, Remove, Find;
    var data := L.ReadChunk(s, digest, owner, id).data;
    var a := Get(s.artifacts, id);
    ChunkData(s, digest, owner, id);
    var b := a.(offset := a.offset + |data|, bytes := a.bytes[|data|..]);
    PutLookup(s.artifacts, id, b, id);
    RemoveAfterPut(s.artifacts, id, b);
    AdvanceFields(s, digest, owner, id);
  }

  lemma ChunkData(s: L.State, digest: L.Digest, owner: L.Owner, id: L.ArtifactId)
    requires L.Readable(s, owner, id)
    ensures
      var a := Get(s.artifacts, id);
      L.ReadChunk(s, digest, owner, id).data == a.bytes[..Min(CHUNK, |a.bytes|)]
  {
  }

  /** The search for an artifact of the owner. */
  method FindOwned(m: seq<Entry<L.ArtifactId, L.Artifact>>, owner: L.Owner) returns (i: nat)
    ensures i == L.FirstOwned(m, owner)
  {
    i := 0;
    while i < |m|
      invariant 0 <= i <= |m|
      invariant L.FirstOwned(m, owner) == i + L.FirstOwned(m[i..], owner)
    {
      if m[i].value.owner == owner {
        return;
      }
      assert m[i..][1..] == m[i + 1..];
      i := i + 1;
    }
  }

  /** Starting an operation leaves the drain flag alone. */
  lemma StartBusy(s: L.State, owner: L.Owner, aborted: bool, now: nat)
    requires L.Failed(s)
    ensures forall stage, callback, deadline ::
              L.Start(s, owner, stage, true, callback, deadline, aborted, now).0.busy == s.busy
  {
  }

  lemma RemoveAfterPut(m: seq<Entry<L.ArtifactId, L.Artifact>>, id: L.ArtifactId, a: L.Artifact)
    requires Has(m, id)
    ensures Remove(Put(m, id, a), id) == Remove(m, id)
  {
    hide Find, Distinct;
    FindUpdate(m, id, a);
    var i := Find(m, id);
    var r := m[i := Entry(id, a)];
    assert r[..i] == m[..i] && r[i + 1..] == m[i + 1..];
  }
}
