/** What a whole session of collector, handoff and host promises. */
module SessionRuns {
  import opened Basics
  import opened OrderedMaps
  import opened Frames
  import opened FailureSession
  import opened SessionSafety
  import L = Ledger
  import LI = LedgerInvariant
  import LT = LedgerTheorems
  import LG = LedgerGate
  import H = Handoff
  import HS = HandoffSafety
  import HR = HandoffRuns

  lemma StepKeeps(k: Setup, y: Session, e: Event)
    requires Inv(k, y) && Lawful(k, y, e)
    ensures H.Wf(y.handoff) && Inv(k, Apply(k, y, e))
  {
    hide Inv, Apply, Lawful;
    match e
    case Inside(step) => InsideKeeps(k, y, step);
    case Outside(event) => OutsideKeeps(k, y, event);
    case DrainTurn(aborted, now) => DrainKeeps(k, y, aborted, now);
    case Dispatch(op) => DispatchKeeps(k, y, op);
    case Answer(i, durableId, aborted, now, later) => AnswerKeeps(k, y, i, durableId, aborted, now, later);
    case Reject(op, aborted, now, later) => RejectKeeps(k, y, op, aborted, now, later);
    case Close(now) => CloseKeeps(k, y, now);
  }

  function Start(ledger: L.State, key: seq<byte>): Session { Session(ledger, H.Start(key), map[], []) }

  lemma StartSafe(k: Setup, ledger: L.State, key: seq<byte>)
    requires LT.Fresh(ledger) && |key| == 32
    ensures Inv(k, Start(ledger, key))
  {
    hide HS.Inv, LI.Inv;
    LT.FreshInv(ledger, k.digest);
    HR.StartSafe(key);
    var y := Start(ledger, key);
    assert |y.calls| == 0 && |y.handoff.started| == 0;
  }

  function Run(k: Setup, y: Session, events: seq<Event>): Session
    requires H.Wf(y.handoff)
    decreases |events|
  {
    if events == [] then y
    else
      ApplyWf(k, y, events[0]);
      Run(k, Apply(k, y, events[0]), events[1..])
  }

  lemma ApplyWf(k: Setup, y: Session, e: Event)
    requires H.Wf(y.handoff)
    ensures H.Wf(Apply(k, y, e).handoff)
  {
    hide H.Wf, H.Apply, L.Barrier, L.Apply, L.Settle, L.Acknowledge;
    match e
    case Outside(event) => H.WfKept(y.handoff, event);
    case Dispatch(op) =>
      if op in y.issued {
        H.WfKept(y.handoff, H.Send(MessageOf(k, y.issued[op])));
      }
    case Close(now) =>
      var r := L.Barrier(y.ledger, k.owner, now, k.encode).1;
      if r.Ok? {
        H.WfKept(y.handoff, H.Send(Final(r.value)));
      }
    case _ =>
  }

  ghost predicate LawfulRun(k: Setup, y: Session, events: seq<Event>)
    requires H.Wf(y.handoff)
    decreases |events|
  {
    || events == []
    || (Lawful(k, y, events[0]) && (ApplyWf(k, y, events[0]); LawfulRun(k, Apply(k, y, events[0]), events[1..])))
  }

  lemma {:induction false} RunKeeps(k: Setup, y: Session, events: seq<Event>)
    requires H.Wf(y.handoff) && Inv(k, y) && LawfulRun(k, y, events)
    ensures Inv(k, Run(k, y, events))
    decreases |events|
  {
    hide Inv, Apply, Lawful;
    if events != [] {
      StepKeeps(k, y, events[0]);
      ApplyWf(k, y, events[0]);
      RunKeeps(k, Apply(k, y, events[0]), events[1..]);
    }
  }

  // ---- what the host has ----

  /** The host's reading of a callback's metadata: the artifact and the offset. */
  type Reader = seq<byte> -> (L.ArtifactId, nat)

  /** Where the host finds the data in a callback payload: behind the prefixed metadata. */
  function Split(payload: seq<byte>): nat {
    if |payload| < 4 then |payload| else Min(|payload|, 4 + ReadU32(payload, 0))
  }

  function MetadataOf(e: H.Appended): seq<byte> {
    if |e.payload| < 4 then [] else e.payload[4..Split(e.payload)]
  }

  function DataOf(e: H.Appended): seq<byte> { e.payload[Split(e.payload)..] }

  /** The entry is a callback for the artifact. */
  predicate For(e: H.Appended, read: Reader, id: L.ArtifactId) {
    e.kind == CALLBACK && read(MetadataOf(e)).0 == id
  }

  /** The data of all callbacks of an artifact, in the order of the log. */
  function LogData(log: seq<H.Appended>, read: Reader, id: L.ArtifactId): seq<byte> {
    if log == [] then []
    else
      var last := log[|log| - 1];
      LogData(log[..|log| - 1], read, id) + if For(last, read, id) then DataOf(last) else []
  }

  /** No two callbacks of the artifact start at the same offset. */
  ghost predicate Single(log: seq<H.Appended>, read: Reader, id: L.ArtifactId) {
    forall i, j :: 0 <= i < j < |log| && For(log[i], read, id) && For(log[j], read, id) ==>
      read(MetadataOf(log[i])).1 != read(MetadataOf(log[j])).1
  }

  ghost predicate Reads(k: Setup, read: Reader) {
    forall c: L.Chunk :: read(k.metadata(c)) == (c.id, c.offset)
  }

  // ---- log and calls ----

  /** The log holds one entry for each call, and nothing else. */
  ghost predicate Mirrored(log: seq<H.Appended>, calls: seq<Call>, read: Reader) {
    && |log| == |calls|
    && forall i :: 0 <= i < |calls| ==> Shown(log[i], calls[i], read)
  }

  ghost predicate Shown(e: H.Appended, c: Call, read: Reader) {
    && (c.NoCall? ==> e.kind != CALLBACK)
    && (c.Emit? ==>
          && e.kind == CALLBACK && read(MetadataOf(e)) == (c.chunk.id, c.chunk.offset) && DataOf(e) == c.chunk.data)
  }

  lemma EntryShown(k: Setup, m: Message, sequence: nat, c: Call, read: Reader)
    requires Sendable(m) && Reads(k, read)
    requires if c.Emit? then m == MessageOf(k, c.chunk) else !m.Callback?
    ensures Shown(HS.Entry(m, sequence), c, read)
  {
    if c.Emit? {
      CallbackRoundTrip(m.metadata, m.data);
      var e := HS.Entry(m, sequence);
      assert MetadataOf(e) == m.metadata && DataOf(e) == m.data;
    }
  }

  /** The data of all callbacks, acknowledged or not. */
  function SentData(calls: seq<Call>, id: L.ArtifactId): seq<byte>
    decreases |calls|
  {
    if calls == [] then []
    else
      var last := calls[|calls| - 1];
      SentData(calls[..|calls| - 1], id) + if Same(last, id) then last.chunk.data else []
  }

  lemma {:induction false} LogIsSent(log: seq<H.Appended>, calls: seq<Call>, read: Reader,
                                     id: L.ArtifactId)
    requires Mirrored(log, calls, read)
    ensures LogData(log, read, id) == SentData(calls, id)
    decreases |log|
  {
    if log != [] {
      var n := |log| - 1;
      assert Shown(log[n], calls[n], read);
      LogIsSent(log[..n], calls[..n], read, id);
    }
  }

  ghost predicate AllTook(calls: seq<Call>, id: L.ArtifactId) {
    forall i :: 0 <= i < |calls| && Same(calls[i], id) ==> Took(calls[i], id)
  }

  /** No chunk is under way any more, and no emission failed. */
  ghost predicate Replied(calls: seq<Call>) {
    forall i :: 0 <= i < |calls| && calls[i].Emit? ==> calls[i].status in {Accepted, Refused}
  }

  ghost predicate NonEmpty(calls: seq<Call>) {
    forall i :: 0 <= i < |calls| && calls[i].Emit? ==> calls[i].chunk.data != []
  }

  /** Everything sent was acknowledged exactly when both sides have the same bytes. */
  lemma {:induction false} SentIsTaken(calls: seq<Call>, id: L.ArtifactId)
    requires NonEmpty(calls)
    ensures |TakenData(calls, id)| <= |SentData(calls, id)|
    ensures AllTook(calls, id) <==> |TakenData(calls, id)| == |SentData(calls, id)|
    ensures AllTook(calls, id) ==> TakenData(calls, id) == SentData(calls, id)
    decreases |calls|
  {
    if calls != [] {
      var n := |calls| - 1;
      SentIsTaken(calls[..n], id);
      assert AllTook(calls, id) <==> AllTook(calls[..n], id) && (Same(calls[n], id) ==> Took(calls[n], id)) by {
        assert forall i :: 0 <= i < n ==> calls[..n][i] == calls[i];
      }
    }
  }

  /** A chunk that was not acknowledged has an acknowledged one at the same offset. */
  lemma SingleTook(s: L.State, log: seq<H.Appended>, issued: map<nat, L.Chunk>, calls: seq<Call>, read: Reader,
                   id: L.ArtifactId)
    requires Mirrored(log, calls, read) && Settled(s, issued, calls) && Replied(calls) && Single(log, read, id)
    ensures AllTook(calls, id)
  {
    hide LI.Concat, TakenData;
    forall i | 0 <= i < |calls| && Same(calls[i], id) ensures Took(calls[i], id) {
      if calls[i].status == Refused {
        assert Repeated(calls, calls[i].chunk);
        var j :| 0 <= j < |calls| && Took(calls[j], id) && calls[j].chunk.offset == calls[i].chunk.offset;
        assert Shown(log[i], calls[i], read) && Shown(log[j], calls[j], read);
        assert For(log[i], read, id) && For(log[j], read, id);
      }
    }
  }

  /** Acknowledged chunks of an artifact have different offsets. */
  lemma TookSingle(log: seq<H.Appended>, calls: seq<Call>, read: Reader, id: L.ArtifactId)
    requires Mirrored(log, calls, read) && NonEmpty(calls) && Ordered(calls) && AllTook(calls, id)
    ensures Single(log, read, id)
  {
    forall i, j | 0 <= i < j < |log| && For(log[i], read, id) && For(log[j], read, id)
      ensures read(MetadataOf(log[i])).1 != read(MetadataOf(log[j])).1
    {
      assert Shown(log[i], calls[i], read) && Shown(log[j], calls[j], read);
      assert Took(calls[i], id) && Took(calls[j], id);
    }
  }

  // ---- the session is over ----

  /** A closed client leaves every started message in the log, the closing one last. */
  lemma ClosedLog(y: H.System)
    requires HS.Inv(y) && y.client.terminal
    ensures HS.Messages(y) && y.started != [] && |y.host.log| == |y.started| && y.started[|y.started| - 1].Final?
    ensures forall i :: 0 <= i < |y.started| ==> y.host.log[i] == HS.Entry(y.started[i], i + 1)
  {
    hide HS.Bytes, Layout;
  }

  lemma ClosedCalls(k: Setup, y: Session)
    requires Inv(k, y) && y.handoff.client.terminal
    ensures y.ledger.terminal.Some? && Committed(k, y.ledger) && NonEmpty(y.calls)
    ensures Replied(y.calls)
  {
    hide LI.Inv, HS.Inv, Linked, Ordered, Settled, Committed, Emitting;
    ClosedLog(y.handoff);
    assert AnyFinal(y.handoff.started);
    assert forall i :: 0 <= i < |y.calls| && y.calls[i].Emit? ==> Pinned(k, y.ledger, y.calls[i].chunk);
    forall i | 0 <= i < |y.calls| && y.calls[i].Emit? ensures y.calls[i].status in {Accepted, Refused} {
      if y.calls[i].status == Waiting {
        EmittingBlocks(y.ledger, k.digest, y.calls[i].op, k.owner);
        assert false;
      }
    }
  }

  lemma ClosedMirrored(k: Setup, y: Session, read: Reader)
    requires Inv(k, y) && y.handoff.client.terminal && Reads(k, read)
    ensures Mirrored(y.handoff.host.log, y.calls, read)
  {
    hide LI.Inv, HS.Inv, Tracked, Finished, Shown, Reads, MessageOf, HS.Entry;
    ClosedLog(y.handoff);
    var started := y.handoff.started;
    forall i | 0 <= i < |y.calls| ensures Shown(y.handoff.host.log[i], y.calls[i], read) {
      EntryShown(k, started[i], i + 1, y.calls[i], read);
    }
  }

  /** For an artifact of a closed session, the callbacks in the host's log hold its acknowledged
      bytes, once and in order, exactly when no offset was sent twice. */
  lemma ClosedData(k: Setup, y: Session, read: Reader, id: L.ArtifactId)
    requires Inv(k, y) && y.handoff.client.terminal && Reads(k, read)
    ensures LogData(y.handoff.host.log, read, id) == LI.Concat(y.ledger.history.acked, id) <==>
              Single(y.handoff.host.log, read, id)
  {
    hide LI.Inv, HS.Inv, Linked, AllPinned, AllPending, Ordered, Finished, Mirrored, Reads, LI.Concat, TakenData,
        SentData,
         LogData, Single, AllTook, NonEmpty;
    var log := y.handoff.host.log;
    ClosedCalls(k, y);
    ClosedMirrored(k, y, read);
    LogIsSent(log, y.calls, read, id);
    SentIsTaken(y.calls, id);
    if Single(log, read, id) {
      SingleTook(y.ledger, log, y.issued, y.calls, read, id);
    } else if AllTook(y.calls, id) {
      TookSingle(log, y.calls, read, id);
    }
  }

  /** Every row of a snapshot of the ledger reports an acknowledged prefix. */
  lemma RowsAcknowledged(s: L.State, digest: L.Digest, owner: L.Owner, r: L.Reported)
    requires LI.Inv(s, digest) && L.Failed(s) && r in L.Reports(s.inventory, owner)
    ensures r.id in s.history.content && 0 <= r.acknowledged <= |s.history.content[r.id]| == r.retained
    ensures LI.Concat(s.history.acked, r.id) == s.history.content[r.id][..r.acknowledged]
  {
    LG.ReportRows(s.inventory, owner);
    LG.InventoryIndexed(s, digest);
    assert LG.IsReport(s.inventory, owner, r);
  }

  /** The artifact's acknowledged bytes, as a snapshot row reports them. */
  ghost predicate Reported(s: L.State, r: L.Reported, bytes: seq<byte>) {
    && r.id in s.history.content && 0 <= r.acknowledged <= |s.history.content[r.id]|
    && bytes == s.history.content[r.id][..r.acknowledged]
  }

  /** The snapshot is what the log ends with. */
  ghost predicate EndsWith(k: Setup, s: L.State, log: seq<H.Appended>, now: nat)
    requires L.Failed(s)
  {
    log != [] && log[|log| - 1] == H.Appended(TERMINAL, |log|, k.encode(L.SnapshotOf(s, k.owner, now)))
  }

  lemma ClosedSnapshot(k: Setup, y: Session)
    requires Inv(k, y) && y.handoff.client.terminal
    ensures L.Failed(y.ledger) && exists now :: EndsWith(k, y.ledger, y.handoff.host.log, now)
  {
    hide LI.Inv, HS.Inv, Tracked, Linked, L.SnapshotOf;
    ClosedLog(y.handoff);
    var started := y.handoff.started;
    assert y.ledger.terminal.Some? && started[|started| - 1].snapshot == y.ledger.terminal.value.bytes;
    assert Committed(k, y.ledger);
    var now :| y.ledger.terminal.value.bytes == k.encode(L.SnapshotOf(y.ledger, k.owner, now));
    assert EndsWith(k, y.ledger, y.handoff.host.log, now);
  }

  /** Whenever the client has closed, the host's log ends with a snapshot of the ledger, and for
      every artifact that snapshot reports, the callbacks in the log concatenate to the acknowledged
      prefix of what was retained - exactly when no offset was sent twice. */
  lemma Delivered(k: Setup, ledger: L.State, key: seq<byte>, events: seq<Event>, read: Reader)
    requires LT.Fresh(ledger) && |key| == 32 && Reads(k, read) && LawfulRun(k, Start(ledger, key), events)
    ensures
      var y := Run(k, Start(ledger, key), events);
      var log := y.handoff.host.log;
      y.handoff.client.terminal ==>
        && L.Failed(y.ledger) && (exists now :: EndsWith(k, y.ledger, log, now))
        && forall r :: r in L.Reports(y.ledger.inventory, k.owner) ==>
             (Reported(y.ledger, r, LogData(log, read, r.id)) <==> Single(log, read, r.id))
  {
    hide Inv, Run, EndsWith, LogData, Single, L.Reports, LI.Inv, LT.Fresh, Reads, LawfulRun;
    StartSafe(k, ledger, key);
    RunKeeps(k, Start(ledger, key), events);
    var y := Run(k, Start(ledger, key), events);
    var log := y.handoff.host.log;
    if y.handoff.client.terminal {
      ClosedSnapshot(k, y);
      InvLedger(k, y);
      forall r | r in L.Reports(y.ledger.inventory, k.owner)
        ensures Reported(y.ledger, r, LogData(log, read, r.id)) <==> Single(log, read, r.id)
      {
        RowsAcknowledged(y.ledger, k.digest, k.owner, r);
        ClosedData(k, y, read, r.id);
      }
    }
  }

  lemma InvLedger(k: Setup, y: Session)
    requires Inv(k, y)
    ensures LI.Inv(y.ledger, k.digest)
  {
  }

  // ---- one drain at a time ----

  predicate UnderWay(c: Call) { c.Emit? && c.status == Waiting }

  /** No emission is under way. */
  ghost predicate Quiescent(y: Session) {
    y.issued == map[] && forall i :: 0 <= i < |y.calls| ==> !UnderWay(y.calls[i])
  }

  /** A run in which no chunk is read for emission while another is under way, as when a drain is
      not begun before the emissions of an earlier one have settled. */
  ghost predicate Orderly(k: Setup, y: Session, events: seq<Event>)
    requires H.Wf(y.handoff)
    decreases |events|
  {
    || events == []
    || (&& (events[0].DrainTurn? ==> Quiescent(y))
        && (ApplyWf(k, y, events[0]); Orderly(k, Apply(k, y, events[0]), events[1..])))
  }

  /** At most one chunk is under way, it is the next one of its artifact, and no receipt was refused. */
  ghost predicate Solo(s: L.State, issued: map<nat, L.Chunk>, calls: seq<Call>) {
    && (forall op, other :: op in issued && other in issued ==> op == other)
    && (forall op, i :: op in issued && 0 <= i < |calls| ==> !UnderWay(calls[i]))
    && (forall i, j :: 0 <= i < j < |calls| && UnderWay(calls[i]) ==> !UnderWay(calls[j]))
    && (forall op :: op in issued ==> issued[op].offset == Length(s, issued[op].id))
    && (forall i :: 0 <= i < |calls| && UnderWay(calls[i]) ==> calls[i].chunk.offset == Length(s, calls[i].chunk.id))
    && (forall i :: 0 <= i < |calls| && calls[i].Emit? ==> calls[i].status != Refused)
  }

  lemma SoloAdded(s: L.State, issued: map<nat, L.Chunk>, calls: seq<Call>, left: map<nat, L.Chunk>, c: Call)
    requires Solo(s, issued, calls)
    requires c.NoCall? ==> left == issued
    requires c.Emit? ==> c.status == Waiting && c.op in issued && issued[c.op] == c.chunk && left == issued - {c.op}
    ensures Solo(s, left, calls + [c])
  {
    hide LI.Concat;
  }

  lemma SoloQuiet(s: L.State, t: L.State, issued: map<nat, L.Chunk>, calls: seq<Call>)
    requires Solo(s, issued, calls) && t.history.acked == s.history.acked
    ensures Solo(t, issued, calls)
  {
    hide LI.Concat;
  }

  lemma SoloDrain(k: Setup, y: Session, aborted: bool, now: nat)
    requires LI.Inv(y.ledger, k.digest) && Solo(y.ledger, y.issued, y.calls) && Quiescent(y)
    ensures
      var t := Drained(k, y, aborted, now);
      Solo(t.ledger, t.issued, t.calls)
  {
    hide LI.Inv, LI.Concat, L.DrainTurn, L.ReadChunk, L.FirstOwned, Pinned;
    var e := L.Drain(k.owner, aborted, now);
    LT.ApplyDrain(y.ledger, k.digest, e);
    QuietStep(y.ledger, k.digest, e);
    var i := L.FirstOwned(y.ledger.artifacts, k.owner);
    if i < |y.ledger.artifacts| && L.Readable(y.ledger, k.owner, y.ledger.artifacts[i].key) {
      ReadPinned(k, y.ledger, y.ledger.artifacts[i].key);
    }
  }

  lemma SoloAnswer(k: Setup, y: Session, i: nat, durableId: string, aborted: bool, now: nat, later: nat)
    requires LI.Inv(y.ledger, k.digest) && Tracked(k, y.ledger, y.issued, y.calls)
    requires Solo(y.ledger, y.issued, y.calls) && i < |y.calls| && UnderWay(y.calls[i]) && durableId != ""
    requires now <= later
    ensures
      var t := Answered(k, y, i, durableId, aborted, now, later);
      Solo(t.ledger, t.issued, t.calls)
  {
    hide LI.Inv, LI.Concat, L.Settle, L.Acknowledge, L.Echo, Pinned, Emitting, Ordered, Settled;
    AnswerIff(k, y.ledger, y.calls[i].chunk, y.calls[i].op, durableId);
  }

  lemma SoloReject(k: Setup, y: Session, op: nat, aborted: bool, now: nat, later: nat)
    requires Solo(y.ledger, y.issued, y.calls)
    ensures
      var t := L.Settle(y.ledger, k.digest, op, L.Threw, aborted, now, later);
      Solo(t, y.issued - {op}, FailCall(y.calls, op))
  {
    hide LI.Concat, L.Settle;
    var e := L.Finish(op, L.Threw, aborted, now, later);
    ApplyFinish(y.ledger, k.digest, e);
    QuietStep(y.ledger, k.digest, e);
  }

  lemma SoloStep(k: Setup, y: Session, e: Event)
    requires Inv(k, y) && Lawful(k, y, e) && Solo(y.ledger, y.issued, y.calls) && (e.DrainTurn? ==> Quiescent(y))
    ensures
      && H.Wf(y.handoff)
      && var t := Apply(k, y, e); Solo(t.ledger, t.issued, t.calls)
  {
    hide LI.Inv, HS.Inv, Tracked, Finished, Linked, Solo, Quiescent, L.Apply, H.Apply, L.Settle, L.Barrier, Drained,
        FailCall,
         Answered, LI.Lawful;
    InvWf(k, y);
    var s := y.ledger;
    match e
    case Inside(step) =>
      QuietStep(s, k.digest, step);
      SoloQuiet(s, L.Apply(s, k.digest, step), y.issued, y.calls);
    case Outside(event) => SoloAdded(s, y.issued, y.calls, y.issued, NoCall);
    case DrainTurn(aborted, now) => SoloDrain(k, y, aborted, now);
    case Dispatch(op) =>
      if op in y.issued {
        SoloAdded(s, y.issued, y.calls, y.issued - {op}, Emit(op, y.issued[op], Waiting));
      }
    case Answer(i, durableId, aborted, now, later) => SoloAnswer(k, y, i, durableId, aborted, now, later);
    case Reject(op, aborted, now, later) => SoloReject(k, y, op, aborted, now, later);
    case Close(now) =>
      SoloClose(k, y, now);
      SoloAdded(L.Barrier(s, k.owner, now, k.encode).0, y.issued, y.calls, y.issued, NoCall);
  }

  lemma SoloClose(k: Setup, y: Session, now: nat)
    requires Solo(y.ledger, y.issued, y.calls)
    ensures Solo(L.Barrier(y.ledger, k.owner, now, k.encode).0, y.issued, y.calls)
  {
    hide L.GateOk, L.SnapshotOf, Solo;
    SoloQuiet(y.ledger, L.Barrier(y.ledger, k.owner, now, k.encode).0, y.issued, y.calls);
  }

  lemma {:induction false} SoloRun(k: Setup, y: Session, events: seq<Event>)
    requires H.Wf(y.handoff) && Inv(k, y) && LawfulRun(k, y, events) && Orderly(k, y, events)
    requires Solo(y.ledger, y.issued, y.calls)
    ensures
      var t := Run(k, y, events);
      Solo(t.ledger, t.issued, t.calls)
    decreases |events|
  {
    hide Inv, Apply, Lawful, Solo, Quiescent;
    if events != [] {
      StepKeeps(k, y, events[0]);
      SoloStep(k, y, events[0]);
      ApplyWf(k, y, events[0]);
      SoloRun(k, Apply(k, y, events[0]), events[1..]);
    }
  }

  /** With one drain at a time the host has everything the snapshot reports as acknowledged, byte
      for byte and once. */
  lemma DeliveredOnce(k: Setup, ledger: L.State, key: seq<byte>, events: seq<Event>, read: Reader)
    requires LT.Fresh(ledger) && |key| == 32 && Reads(k, read)
    requires LawfulRun(k, Start(ledger, key), events) && Orderly(k, Start(ledger, key), events)
    ensures
      var y := Run(k, Start(ledger, key), events);
      y.handoff.client.terminal ==>
        forall r :: r in L.Reports(y.ledger.inventory, k.owner) ==>
          Reported(y.ledger, r, LogData(y.handoff.host.log, read, r.id))
  {
    hide Inv, Run, LogData, Single, L.Reports, LI.Inv, LT.Fresh, Reads, LawfulRun, Orderly, EndsWith, Reported;
    StartSafe(k, ledger, key);
    Delivered(k, ledger, key, events, read);
    SoloRun(k, Start(ledger, key), events);
    RunKeeps(k, Start(ledger, key), events);
    var y := Run(k, Start(ledger, key), events);
    if y.handoff.client.terminal {
      forall id ensures Single(y.handoff.host.log, read, id) {
        SoloSingle(k, y, read, id);
      }
    }
  }

  lemma SoloSingle(k: Setup, y: Session, read: Reader, id: L.ArtifactId)
    requires Inv(k, y) && Solo(y.ledger, y.issued, y.calls) && y.handoff.client.terminal && Reads(k, read)
    ensures Single(y.handoff.host.log, read, id)
  {
    hide LI.Inv, HS.Inv, Linked, AllPinned, AllPending, Ordered, Finished, Mirrored, Reads, LI.Concat, Single,
         NonEmpty, Settled;
    ClosedCalls(k, y);
    ClosedMirrored(k, y, read);
    TookSingle(y.handoff.host.log, y.calls, read, id);
  }
}
