/** What single operations of the ledger mean, said without the functions that compute them. */
module LedgerMeaning {
  import opened Basics
  import opened OrderedMaps
  import opened Ledger
  import opened LedgerInvariant
  import opened LedgerRuns
  import opened LedgerTheorems
  import opened LedgerGate
  import opened LedgerReceipts

  // ---- holding ----

  /** Bytes of an artifact the ledger has. */
  function Kept(s: State, id: ArtifactId): nat { if Has(s.artifacts, id) then |Get(s.artifacts, id).bytes| else 0 }

  /** `n` more bytes, as one more artifact, are within every budget. */
  predicate Room(s: State, n: nat, now: nat) {
    && |s.artifacts| < 128 && s.held + n <= 128 * 1024 * 1024
    && (s.failureStarted.Some? ==>
          && now < s.failureStarted.value + 10_000_000_000
          && s.retainedCount < 128 && s.retainedBytes + n <= 128 * 1024 * 1024)
  }

  /** A hold is refused exactly after the barrier and for an identity that is held or was seen by
      the failed collector; it then changes nothing. */
  lemma HoldAccepted(s: State, digest: Digest, owner: Owner, id: ArtifactId, bytes: seq<byte>, observed: nat, now: nat)
    ensures
      var (t, r) := Hold(s, digest, owner, id, bytes, observed, now);
      && (r.Ok? <==> s.terminal.None? && id !in Keys(s.artifacts) && id !in s.seen)
      && (r.Err? ==> t == s)
  {
    hide Admitted, FailOwnership, Store;
    HasKeys(s.artifacts, id);
  }

  lemma AdmittedIff(s: State, size: nat, now: nat, n: nat)
    requires 0 < n <= size && s.held >= 0
    ensures Admitted(s, size, now) >= n <==> Room(s, n, now)
  {
  }

  lemma StoredAt(s: State, digest: Digest, owner: Owner, id: ArtifactId, kept: seq<byte>, observed: nat, now: nat,
                 other: ArtifactId)
    ensures
      var t := Store(s, digest, owner, id, kept, observed, now);
      && (Has(t.artifacts, other) <==> other == id || Has(s.artifacts, other))
      && (Has(t.artifacts, other) ==>
            Get(t.artifacts, other) ==
            if other == id then Artifact(owner, kept, observed, 0, digest(kept), now, []) else Get(s.artifacts, other))
      && t.history.content == s.history.content[id := kept] && t.held == s.held + |kept|
      && t.discarded == s.discarded && t.failureStarted == s.failureStarted && t.cause == s.cause
  {
    hide Has, Get, Put;
    PutLookup(s.artifacts, id, Artifact(owner, kept, observed, 0, digest(kept), now, []), other);
  }

  lemma HoldCount(s: State, digest: Digest, owner: Owner, id: ArtifactId, bytes: seq<byte>, observed: nat, now: nat)
    requires Hold(s, digest, owner, id, bytes, observed, now).1.Ok? && |bytes| <= observed
    ensures Kept(Hold(s, digest, owner, id, bytes, observed, now).0, id) == Admitted(s, |bytes|, now)
  {
    hide Admitted, Has, Get, Store;
    var count := Admitted(s, |bytes|, now);
    var s1 := Counted(s, observed, count);
    var s2 := if count < observed then FailOwnership(s1, "retention-quota", now) else s1;
    StoredAt(s2, digest, owner, id, bytes[..count], observed, now, id);
  }

  /** A hold keeps the longest prefix the budgets have room for. */
  lemma HoldKeepsLongest(s: State, digest: Digest, owner: Owner, id: ArtifactId, bytes: seq<byte>, observed: nat,
                         now: nat, n: nat)
    requires Booked(s, digest) && 0 < n <= |bytes| <= observed
    requires Hold(s, digest, owner, id, bytes, observed, now).1.Ok?
    ensures Kept(Hold(s, digest, owner, id, bytes, observed, now).0, id) >= n <==> Room(s, n, now)
  {
    hide Hold, Admitted, Room;
    SumNonNegative(s.artifacts, HeldOf);
    HoldCount(s, digest, owner, id, bytes, observed, now);
    AdmittedIff(s, |bytes|, now, n);
  }

  /** What is held, and what a hold leaves of everything else: the first bytes of what was
      given, with its owner, observed length, digest and time of arrival; the rest counts as
      discarded, and a hold that discards anything is a failure. */
  lemma HoldStores(s: State, digest: Digest, owner: Owner, id: ArtifactId, bytes: seq<byte>, observed: nat, now: nat,
                   other: ArtifactId)
    requires Hold(s, digest, owner, id, bytes, observed, now).1.Ok? && |bytes| <= observed
    ensures
      var t := Hold(s, digest, owner, id, bytes, observed, now).0;
      var count := Kept(t, id);
      && count <= |bytes|
      && (count > 0 ==>
            && Get(t.artifacts, id) == Artifact(owner, bytes[..count], observed, 0, digest(bytes[..count]), now, [])
            && id in t.history.content && t.history.content[id] == bytes[..count])
      && (other != id ==>
            && Has(t.artifacts, other) == Has(s.artifacts, other)
            && (Has(s.artifacts, other) ==> Get(t.artifacts, other) == Get(s.artifacts, other)))
      && (Has(t.artifacts, id) <==> count > 0)
      && t.held == s.held + count && t.discarded == s.discarded + (observed - count)
      && t.failureStarted == (if Failed(s) || count == observed then s.failureStarted else Some(now))
      && t.cause == (if Failed(s) || count == observed then s.cause else "retention-quota")
  {
    hide Admitted, Has, Get, Store;
    HoldCount(s, digest, owner, id, bytes, observed, now);
    var count := Admitted(s, |bytes|, now);
    var s1 := Counted(s, observed, count);
    var s2 := if count < observed then FailOwnership(s1, "retention-quota", now) else s1;
    StoredAt(s2, digest, owner, id, bytes[..count], observed, now, id);
    StoredAt(s2, digest, owner, id, bytes[..count], observed, now, other);
  }

  // ---- where a reported row comes from ----

  /** What the ledger knows of an artifact. */
  datatype Info = Info(owner: Owner, observed: nat, receivedNs: nat, content: seq<byte>)

  function ContentOf(s: State, id: ArtifactId): seq<byte> {
    if id in s.history.content then s.history.content[id] else []
  }

  /** Of an artifact that is held, or since failure was ever held. */
  function Known(s: State, id: ArtifactId): Option<Info> {
    if Failed(s) && Has(s.inventory, id) then
      var v := Get(s.inventory, id);
      Some(Info(v.owner, v.observed, v.receivedNs, ContentOf(s, id)))
    else if !Failed(s) && Has(s.artifacts, id) then
      var a := Get(s.artifacts, id);
      Some(Info(a.owner, a.observed, a.receivedNs, ContentOf(s, id)))
    else None
  }

  /** Bytes that reach the ledger. */
  datatype Arrival = Arrival(owner: Owner, id: ArtifactId, bytes: seq<byte>, observed: nat, now: nat)

  /** What an event brings: a hold, the screenshot an operation waited for, or the late result of
      one that waited for nothing. */
  function Brings(s: State, e: Event): Option<Arrival> {
    match e
    case HoldNow(owner, id, bytes, observed, now) => Some(Arrival(owner, id, bytes, observed, now))
    case Finish(id, outcome, aborted, now, _) =>
      if !PendingIn(s.ops, id) then None
      else
        var op := Get(s.ops, id);
        if op.callback.HoldResult? && outcome.Screenshot? then
          Some(Arrival(op.owner, op.callback.id, outcome.bytes, outcome.observed, now))
        else if op.callback.NoCallback? && !outcome.Threw? && !op.retention && !HandleStage(op.stage)
                && (Failed(s) || now >= op.deadline || aborted) then
          var raw := if outcome.Opaque? then outcome.raw else [];
          Some(Arrival(op.owner, Late(id), raw[..Min(65536, |raw|)], |raw|, now))
        else None
    case _ => None
  }

  /** The artifact is known as it arrived: a nonempty first part of the bytes. */
  predicate ArrivedAs(k: Info, a: Arrival) {
    && k.owner == a.owner && k.observed == a.observed && k.receivedNs == a.now
    && k.content != [] && k.content <= a.bytes
  }

  lemma FailKnown(s: State, code: string, now: nat, id: ArtifactId)
    ensures Known(FailOwnership(s, code, now), id) == Known(s, id)
  {
    InventoryLookup(s.artifacts, id);
  }

  lemma StoreKnown(s: State, digest: Digest, owner: Owner, id: ArtifactId, kept: seq<byte>, observed: nat, now: nat,
                   x: ArtifactId)
    ensures Known(Store(s, digest, owner, id, kept, observed, now), x) ==
              if x == id then Some(Info(owner, observed, now, kept)) else Known(s, x)
  {
    hide Has, Get, Put;
    var a := Artifact(owner, kept, observed, 0, digest(kept), now, []);
    PutLookup(s.artifacts, id, a, x);
    PutLookup(s.inventory, id, Moved(a), x);
  }

  lemma HoldKnown(s: State, digest: Digest, owner: Owner, id: ArtifactId, bytes: seq<byte>, observed: nat, now: nat,
                  x: ArtifactId)
    ensures
      var k := Known(Hold(s, digest, owner, id, bytes, observed, now).0, x);
      k == Known(s, x) || (x == id && k.Some? && ArrivedAs(k.value, Arrival(owner, id, bytes, observed, now)))
  {
    hide Admitted, Has, Get, Store, FailOwnership, Known;
    var count := Admitted(s, |bytes|, now);
    var s1 := Counted(s, observed, count);
    CountedKnown(s, observed, count, x);
    FailKnown(s1, "retention-quota", now, x);
    var s2 := if count < observed then FailOwnership(s1, "retention-quota", now) else s1;
    StoreKnown(s2, digest, owner, id, bytes[..count], observed, now, x);
  }

  lemma CountedKnown(s: State, observed: nat, count: nat, x: ArtifactId)
    ensures Known(Counted(s, observed, count), x) == Known(s, x)
  {
  }

  lemma AcknowledgeKnown(s: State, digest: Digest, owner: Owner, r: Receipt, x: ArtifactId)
    ensures Known(Acknowledge(s, digest, owner, r).0, x) == Known(s, x)
  {
    hide Has, Get, Put, Remove, Consume;
    if s.terminal.None? && Readable(s, owner, r.id) && Accepts(s, digest, owner, r) && Has(s.inventory, r.id) {
      var v := Get(s.inventory, r.id);
      PutLookup(s.inventory, r.id, v.(acknowledged := Get(s.artifacts, r.id).offset
          + |ReadChunk(s, digest, owner, r.id).data|), x);
    }
  }

  lemma DeliverKnown(s: State, digest: Digest, id: nat, op: Operation, outcome: Outcome, late: bool, now: nat,
                     x: ArtifactId)
    ensures
      var k := Known(Deliver(s, digest, id, op, outcome, late, now).0, x);
      || k == Known(s, x)
      || (&& op.callback.HoldResult? && outcome.Screenshot? && x == op.callback.id && k.Some?
          && ArrivedAs(k.value, Arrival(op.owner, x, outcome.bytes, outcome.observed, now)))
      || (&& op.callback.NoCallback? && late && !op.retention && !HandleStage(op.stage) && x == Late(id) && k.Some?
          && var raw := if outcome.Opaque? then outcome.raw else [];
             ArrivedAs(k.value, Arrival(op.owner, x, raw[..Min(65536, |raw|)], |raw|, now)))
  {
    hide Known, Hold, Acknowledge, ArrivedAs, HandleStage, Put;
    match op.callback
    case HoldResult(art) =>
      if outcome.Screenshot? {
        HoldKnown(s, digest, op.owner, art, outcome.bytes, outcome.observed, now, x);
      }
    case AcknowledgeResult =>
      if outcome.Durable? {
        AcknowledgeKnown(s, digest, op.owner, outcome.receipt, x);
      }
    case NoCallback =>
      var raw := if outcome.Opaque? then outcome.raw else [];
      HoldKnown(s, digest, op.owner, Late(id), raw[..Min(LATE_PREFIX, |raw|)], |raw|, now, x);
      HandlesKnown(s, Put(s.handles, id, Handle(op.owner, op.stage)), x);
  }

  lemma HandlesKnown(s: State, handles: seq<Entry<nat, Handle>>, x: ArtifactId)
    ensures Known(s.(handles := handles), x) == Known(s, x)
  {
  }

  lemma CloseKnown(s: State, id: nat, op: Operation, state: OpState, late: bool, aborted: bool, now: nat, x: ArtifactId)
    ensures Known(CloseOp(s, id, op, state, late, aborted, now), x) == Known(s, x)
  {
    hide Has, Get, Put, Remove;
  }

  lemma SettleKnown(s: State, digest: Digest, id: nat, outcome: Outcome, aborted: bool, now: nat, later: nat,
                    x: ArtifactId)
    ensures
      var k, a := Known(Settle(s, digest, id, outcome, aborted, now, later), x),
                  Brings(s, Finish(id, outcome, aborted, now, later));
      k == Known(s, x) || (k.Some? && a.Some? && a.value.id == x && ArrivedAs(k.value, a.value))
  {
    hide Known, Deliver, CloseOp, FailOwnership, ArrivedAs, HandleStage, Has, Get;
    if PendingIn(s.ops, id) {
      var op := Get(s.ops, id);
      if outcome.Threw? {
        CloseKnown(s, id, op, Rejected, Failed(s), aborted, now, x);
      } else {
        var late := LateSettlement(s, op, aborted, now);
        DeliverKnown(s, digest, id, op, outcome, late, now, x);
        var (t, r) := Deliver(s, digest, id, op, outcome, late, now);
        CloseKnown(t, id, op, Rejected, late, aborted, now, x);
        CloseKnown(t, id, op, Fulfilled, late, aborted, now, x);
        var u := CloseOp(t, id, op, Fulfilled, late, aborted, now);
        FailKnown(u, if aborted then "cancelled" else "deadline", later, x);
      }
    }
  }

  lemma StartKnown(s: State, owner: Owner, stage: string, retention: bool, callback: Callback, deadline: nat,
                   aborted: bool, now: nat, x: ArtifactId)
    ensures Known(Start(s, owner, stage, retention, callback, deadline, aborted, now).0, x) == Known(s, x)
  {
    hide Has, Get, Put, Evict, FailOwnership;
    FailKnown(s, "cancelled", now, x);
    FailKnown(s, "deadline", now, x);
    FailKnown(s.(ops := Evict(s.ops)), "native-operation-quota", now, x);
  }

  lemma RecordKnown(s: State, id: ArtifactId, ref: Ref, raw: seq<byte>, x: ArtifactId)
    ensures Known(RecordAckSource(s, id, ref, raw), x) == Known(s, x)
  {
    hide Has, Get, Put;
    if RecordsSource(s, id, ref, raw) {
      var a := Get(s.artifacts, id);
      PutLookup(s.artifacts, id, a.(refs := Put(a.refs, ref.offset, ref)), x);
    }
  }

  lemma ReleaseKnown(s: State, id: ArtifactId, x: ArtifactId)
    requires Distinct(s.artifacts)
    ensures Known(Release(s, id), x) == if !Failed(s) && x == id then None else Known(s, x)
  {
    hide Get, Remove, Has;
    if Has(s.artifacts, id) {
      RemoveLookup(s.artifacts, id, x);
    }
  }

  /** A step forgets an artifact, leaves what is known of it alone, or brings it. */
  lemma StepKnown(s: State, digest: Digest, e: Event, x: ArtifactId)
    requires Distinct(s.artifacts)
    ensures
      var k := Known(Apply(s, digest, e), x);
      k == None || k == Known(s, x)
          || (Brings(s, e).Some? && Brings(s, e).value.id == x && ArrivedAs(k.value, Brings(s, e).value))
  {
    hide Known, Settle, Hold, Start, FailOwnership, Release, RecordAckSource, ArrivedAs, Has, Get, FirstOwned,
         SomePending;
    match e
    case Interrupt(code, now) => FailKnown(s, code, now, x);
    case HoldNow(owner, id, bytes, observed, now) => HoldKnown(s, digest, owner, id, bytes, observed, now, x);
    case ReleaseNow(id) => ReleaseKnown(s, id, x);
    case DurableAck(id, ref, raw) => RecordKnown(s, id, ref, raw, x);
    case Begin(owner, stage, screenshot, deadline, aborted, now) =>
      StartKnown(s, owner, stage, false, if screenshot.Some? then HoldResult(screenshot.value)
          else NoCallback, deadline,
                 aborted, now, x);
    case Finish(id, outcome, aborted, now, later) => SettleKnown(s, digest, id, outcome, aborted, now, later, x);
    case Drain(owner, aborted, now) => DrainKnown(s, owner, aborted, now, x);
    case _ => OtherKnown(s, digest, e, x);
  }

  lemma DrainKnown(s: State, owner: Owner, aborted: bool, now: nat, x: ArtifactId)
    ensures Known(DrainTurn(s, owner, aborted, now), x) == Known(s, x)
  {
    hide Start, Has, Get, FirstOwned, SomePending;
    if s.busy && Failed(s) {
      var deadline := s.failureStarted.value + RETENTION_NS;
      StartKnown(s, owner, "failure-retention-emit", true, AcknowledgeResult, deadline, aborted, now, x);
      StartKnown(s, owner, "failure-settlement-wait", true, NoCallback, deadline, aborted, now, x);
    }
  }

  lemma OtherKnown(s: State, digest: Digest, e: Event, x: ArtifactId)
    requires e.Collect? || e.TransferHandle? || e.BeginDrain? || e.EndDrain? || e.Commit?
    ensures Known(Apply(s, digest, e), x) == Known(s, x)
  {
    hide Has, Get, Remove, GateOk, SnapshotOf;
  }

  /** Event `i` of the run brought the artifact as it is known. */
  ghost predicate BroughtAt(s: State, digest: Digest, events: seq<Event>, x: ArtifactId, k: Info, i: nat)
    requires i < |events|
  {
    var a := Brings(Run(s, digest, events[..i]), events[i]);
    a.Some? && a.value.id == x && ArrivedAs(k, a.value)
  }

  /** Whatever a run knows of an artifact is what some event of the run brought. */
  lemma {:induction false} KnownFromRun(s: State, digest: Digest, events: seq<Event>, x: ArtifactId)
    requires Inv(s, digest) && LawfulRun(s, digest, events)
    requires Known(s, x).None? && Known(Run(s, digest, events), x).Some?
    ensures exists i: nat :: i < |events| && BroughtAt(s, digest, events, x, Known(Run(s, digest, events), x).value, i)
    decreases |events|
  {
    hide Known, Apply, Brings, ArrivedAs, Inv;
    if events != [] {
      var n := |events| - 1;
      var before := Run(s, digest, events[..n]);
      RunLast(s, digest, events);
      LawfulPrefix(s, digest, events, n);
      RunKeeps(s, digest, events[..n]);
      InvDistinct(before, digest);
      StepKnown(before, digest, events[n], x);
      var k := Known(Run(s, digest, events), x).value;
      if Known(before, x) == Some(k) {
        KnownFromRun(s, digest, events[..n], x);
        var i: nat :| i < n && BroughtAt(s, digest, events[..n], x, k, i);
        assert events[..n][..i] == events[..i];
        assert BroughtAt(s, digest, events, x, k, i);
      } else {
        assert BroughtAt(s, digest, events, x, k, n);
      }
    }
  }

  lemma InvDistinct(s: State, digest: Digest)
    requires Inv(s, digest)
    ensures Distinct(s.artifacts)
  {
  }

  lemma {:induction false} LawfulPrefix(s: State, digest: Digest, events: seq<Event>, n: nat)
    requires LawfulRun(s, digest, events) && n <= |events|
    ensures LawfulRun(s, digest, events[..n])
    decreases n
  {
    hide Apply, Lawful;
    if n > 0 {
      LawfulPrefix(Apply(s, digest, events[0]), digest, events[1..], n - 1);
      assert events[..n][1..] == events[1..][..n - 1];
    }
  }

  lemma {:induction false} RunLast(s: State, digest: Digest, events: seq<Event>)
    requires events != []
    ensures Run(s, digest, events) == Apply(Run(s, digest, events[..|events| - 1]), digest, events[|events| - 1])
    decreases |events|
  {
    hide Apply;
    if |events| > 1 {
      var t := Apply(s, digest, events[0]);
      RunLast(t, digest, events[1..]);
      assert events[1..][..|events| - 2] == events[..|events| - 1][1..];
    } else {
      assert events[..0] == [];
    }
  }

  /** Every row a snapshot reports is of an artifact some event of the run brought: its owner,
      observed length and time of arrival are those of that event, and what was retained are its
      first bytes. */
  lemma RowOrigin(s: State, digest: Digest, events: seq<Event>, owner: Owner, r: Reported)
    requires Fresh(s) && LawfulRun(s, digest, events)
    requires var t := Run(s, digest, events); Failed(t) && r in Reports(t.inventory, owner)
    ensures exists i: nat, k ::
      && i < |events| && BroughtAt(s, digest, events, r.id, k, i)
      && k.owner == owner && k.observed == r.observed && k.receivedNs == r.receivedNs
      && |k.content| == r.retained && r.sha == digest(k.content)
  {
    hide Run, Brings, ArrivedAs;
    var t := Run(s, digest, events);
    FreshInv(s, digest);
    RunKeeps(s, digest, events);
    ReportRows(t.inventory, owner);
    InventoryIndexed(t, digest);
    var j :| 0 <= j < |t.inventory| && t.inventory[j].value.owner == owner && r == Report(t.inventory[j]);
    FindAt(t.inventory, j);
    KnownFromRun(s, digest, events, r.id);
    var k := Known(t, r.id).value;
    var i: nat :| i < |events| && BroughtAt(s, digest, events, r.id, k, i);
    assert k.owner == owner && |k.content| == r.retained;
  }

  // ---- the rest of a snapshot ----

  /** The totals of a snapshot and its verdict, from what arrived, was released and acknowledged. */
  lemma SnapshotMeaning(s: State, digest: Digest, owner: Owner, now: nat)
    requires Inv(s, digest) && Failed(s)
    ensures
      var n := SnapshotOf(s, owner, now);
      && n.discarded == s.history.observed - s.history.released - AckedBytes(s.history.acked) - n.held
      && n.held == Sum(s.artifacts, HeldOf)
      && (n.disposition == PendingWork <==> exists id :: PendingIn(s.ops, id))
      && (n.disposition == Settled <==>
            && (forall id :: !PendingIn(s.ops, id)) && s.handles == []
            && s.history.observed == s.history.released + AckedBytes(s.history.acked))
  {
    hide Sum, AckedBytes;
    NothingHeld(s, digest);
    SomePendingIff(s.ops);
  }

  lemma NothingHeld(s: State, digest: Digest)
    requires Booked(s, digest)
    ensures s.held >= 0 && (s.held == 0 <==> s.artifacts == [])
  {
    SumNonNegative(s.artifacts, HeldOf);
    if s.artifacts != [] {
      var id := s.artifacts[0].key;
      assert Has(s.artifacts, id);
      assert ArtifactOk(s.history.content, digest, id, Get(s.artifacts, id));
      SumAtLeast(s.artifacts, id, HeldOf);
    }
  }

  lemma SomePendingIff(ops: seq<Entry<nat, Operation>>)
    requires Distinct(ops)
    ensures SomePending(ops) <==> exists id :: PendingIn(ops, id)
  {
    if SomePending(ops) {
      var i :| 0 <= i < |ops| && ops[i].value.state == Pending;
      FindAt(ops, i);
      assert PendingIn(ops, ops[i].key);
    }
    if id :| PendingIn(ops, id) {
      assert ops[Find(ops, id)].value.state == Pending;
    }
  }

  // ---- operations ----

  /** The first failure stays the failure, with its time and cause. */
  lemma {:induction false} FirstFailureStays(s: State, digest: Digest, events: seq<Event>)
    requires Failed(s)
    ensures Run(s, digest, events).failureStarted == s.failureStarted && Run(s, digest, events).cause == s.cause
    decreases |events|
  {
    hide Apply;
    if events != [] {
      FailureKept(s, digest, events[0]);
      FirstFailureStays(Apply(s, digest, events[0]), digest, events[1..]);
    }
  }

  /** The same failure. */
  predicate SameFailure(s: State, t: State) { t.failureStarted == s.failureStarted && t.cause == s.cause }

  lemma FailureHold(s: State, digest: Digest, owner: Owner, id: ArtifactId, bytes: seq<byte>, observed: nat, now: nat)
    requires Failed(s)
    ensures SameFailure(s, Hold(s, digest, owner, id, bytes, observed, now).0)
  {
    hide Has, Put, Admitted;
  }

  lemma FailureStart(s: State, owner: Owner, stage: string, retention: bool, callback: Callback, deadline: nat,
                     aborted: bool, now: nat)
    requires Failed(s)
    ensures SameFailure(s, Start(s, owner, stage, retention, callback, deadline, aborted, now).0)
  {
    hide Put, Evict;
  }

  lemma FailureDeliver(s: State, digest: Digest, id: nat, op: Operation, outcome: Outcome, late: bool, now: nat)
    requires Failed(s)
    ensures SameFailure(s, Deliver(s, digest, id, op, outcome, late, now).0)
  {
    hide Hold, Put, Accepts, Consume, ReadChunk, Has, Get;
    match op.callback
    case HoldResult(art) =>
      if outcome.Screenshot? {
        FailureHold(s, digest, op.owner, art, outcome.bytes, outcome.observed, now);
      }
    case AcknowledgeResult =>
    case NoCallback =>
      var raw := if outcome.Opaque? then outcome.raw else [];
      FailureHold(s, digest, op.owner, Late(id), raw[..Min(LATE_PREFIX, |raw|)], |raw|, now);
  }

  lemma FailureSettle(s: State, digest: Digest, id: nat, outcome: Outcome, aborted: bool, now: nat, later: nat)
    requires Failed(s)
    ensures SameFailure(s, Settle(s, digest, id, outcome, aborted, now, later))
  {
    hide Deliver, Put, Remove, Has, Get;
    if PendingIn(s.ops, id) {
      var op := Get(s.ops, id);
      FailureDeliver(s, digest, id, op, outcome, LateSettlement(s, op, aborted, now), now);
    }
  }

  lemma FailureKept(s: State, digest: Digest, e: Event)
    requires Failed(s)
    ensures SameFailure(s, Apply(s, digest, e))
  {
    hide Has, Get, Put, Remove, Start, Settle, Hold, FirstOwned, SomePending, GateOk, SnapshotOf, RecordsSource;
    match e
    case HoldNow(owner, id, bytes, observed, now) => FailureHold(s, digest, owner, id, bytes, observed, now);
    case Begin(owner, stage, screenshot, deadline, aborted, now) =>
      FailureStart(s, owner, stage, false, if screenshot.Some? then HoldResult(screenshot.value) else NoCallback,
                   deadline, aborted, now);
    case Finish(id, outcome, aborted, now, later) => FailureSettle(s, digest, id, outcome, aborted, now, later);
    case Drain(owner, aborted, now) =>
      var deadline := s.failureStarted.value + RETENTION_NS;
      FailureStart(s, owner, "failure-retention-emit", true, AcknowledgeResult, deadline, aborted, now);
      FailureStart(s, owner, "failure-settlement-wait", true, NoCallback, deadline, aborted, now);
    case _ =>
  }

  /** Work is taken on exactly before the barrier, not aborted, before its deadline, after failure
      only as retention work, and while fewer than 128 entries are pending; it is then registered
      as pending under the next number. A refusal registers nothing, and one for an abort, a
      deadline or a full table is a failure. */
  lemma StartMeaning(s: State, owner: Owner, stage: string, retention: bool, callback: Callback, deadline: nat,
                     aborted: bool, now: nat)
    requires Distinct(s.ops) && |s.ops| <= 128 && !Has(s.ops, s.ordinal + 1)
    ensures
      var (t, r) := Start(s, owner, stage, retention, callback, deadline, aborted, now);
      var open := s.terminal.None? && (retention || !Failed(s));
      && (r.Ok? <==> open && !aborted && now < deadline && !(|s.ops| == 128 && AllPending(s.ops)))
      && (r.Ok? ==>
            && r.value == t.ordinal == s.ordinal + 1 && Has(t.ops, r.value)
            && Get(t.ops, r.value) ==
               Operation(owner, stage, retention, callback, deadline, now, None, Pending, false)
            && t.failureStarted == s.failureStarted && t.artifacts == s.artifacts && t.inventory == s.inventory)
      && (r.Err? ==>
            && t.ordinal == s.ordinal && t.ops == s.ops
            && (Failed(t) <==> Failed(s) || (s.terminal.None? && (aborted || now >= deadline || open)))
            && (Failed(t) && !Failed(s) ==>
                  && t.failureStarted == Some(now)
                  && t.cause == if aborted then "cancelled" else if now >= deadline then "deadline"
                                else "native-operation-quota"))
  {
    hide Put, Has, Get, FirstSettled;
    EvictSize(s.ops);
    PutLookup(Evict(s.ops), s.ordinal + 1,
              Operation(owner, stage, retention, callback, deadline, now, None, Pending, false), s.ordinal + 1);
  }

  predicate AllPending(ops: seq<Entry<nat, Operation>>) { forall i :: 0 <= i < |ops| ==> ops[i].value.state == Pending }

  lemma EvictSize(ops: seq<Entry<nat, Operation>>)
    requires |ops| <= 128
    ensures |Evict(ops)| >= 128 <==> |ops| == 128 && AllPending(ops)
    ensures |Evict(ops)| >= 128 ==> Evict(ops) == ops
  {
  }

  /** The operation settled too late to count: after failure, its deadline or an abort. */
  predicate TooLate(s: State, op: Operation, aborted: bool, now: nat) {
    s.failureStarted.Some? || now >= op.deadline || aborted
  }

  /** What is left of an operation that settled: nothing, if it settled in time or is retention work
      that did so before its own deadline and without an abort; otherwise an entry that says when and
      how it settled. Nothing of it is pending, and no other operation is touched. */
  ghost predicate SettledAs(s: State, t: State, id: nat, op: Operation, state: OpState, late: bool, aborted: bool,
                            now: nat)
  {
    && (if !late || (op.retention && now < op.deadline && !aborted) then !Has(t.ops, id)
        else Has(t.ops, id) && Get(t.ops, id) == op.(state := state, late := late, settledNs := Some(now)))
    && forall other :: other != id ==>
         Has(t.ops, other) == Has(s.ops, other) && (Has(s.ops, other) ==> Get(t.ops, other) == Get(s.ops, other))
  }

  lemma ClosedAs(s: State, id: nat, op: Operation, state: OpState, late: bool, aborted: bool, now: nat)
    requires Distinct(s.ops) && Has(s.ops, id)
    ensures SettledAs(s, CloseOp(s, id, op, state, late, aborted, now), id, op, state, late, aborted, now)
  {
    hide Has, Get, Put, Remove;
    var settled := op.(state := state, late := late, settledNs := Some(now));
    var t := CloseOp(s, id, op, state, late, aborted, now);
    forall other
      ensures other != id ==> Has(t.ops, other) == Has(s.ops, other)
      ensures other != id && Has(s.ops, other) ==> Get(t.ops, other) == Get(s.ops, other)
    {
      PutLookup(s.ops, id, settled, other);
      RemoveLookup(s.ops, id, other);
    }
    PutLookup(s.ops, id, settled, id);
    RemoveLookup(s.ops, id, id);
  }

  /** A rejected operation counts as late once failure began; one that fulfilled, also past its
      deadline or when aborted. A callback that refuses the result makes it a rejected one. */
  lemma SettleMeaning(s: State, digest: Digest, id: nat, outcome: Outcome, aborted: bool, now: nat, later: nat)
    requires Distinct(s.ops) && PendingIn(s.ops, id)
    ensures
      var op := Get(s.ops, id);
      var late := TooLate(s, op, aborted, now);
      var t := Settle(s, digest, id, outcome, aborted, now, later);
      if outcome.Threw? then SettledAs(s, t, id, op, Rejected, s.failureStarted.Some?, aborted, now)
      else
        var state := if Deliver(s, digest, id, op, outcome, late, now).1.Ok? then Fulfilled else Rejected;
        && SettledAs(s, t, id, op, state, late, aborted, now)
        && (state == Fulfilled && !op.retention && (later >= op.deadline || aborted) ==> Failed(t))
  {
    hide Has, Get, Put, Remove, CloseOp, SettledAs, Deliver;
    var op := Get(s.ops, id);
    if outcome.Threw? {
      ClosedAs(s, id, op, Rejected, Failed(s), aborted, now);
    } else {
      var late := LateSettlement(s, op, aborted, now);
      var (t, r) := Deliver(s, digest, id, op, outcome, late, now);
      DeliverFrame(s, digest, id, op, outcome, late, now);
      var state := if r.Ok? then Fulfilled else Rejected;
      ClosedAs(t, id, op, state, late, aborted, now);
      var u := CloseOp(t, id, op, state, late, aborted, now);
      SettledOps(s, t, u, u, id, op, state, late, aborted, now);
      SettledOps(s, t, u, FailOwnership(u, if aborted then "cancelled" else "deadline", later), id, op, state, late,
                 aborted, now);
    }
  }

  lemma SettledOps(s: State, t: State, u: State, v: State, id: nat, op: Operation, state: OpState, late: bool,
                   aborted: bool, now: nat)
    requires t.ops == s.ops && v.ops == u.ops && SettledAs(t, u, id, op, state, late, aborted, now)
    ensures SettledAs(s, v, id, op, state, late, aborted, now)
  {
  }

  /** A reference is recorded exactly before failure, within the budget, for a held artifact without
      one at that offset, and only if it covers the very bytes it names. */
  lemma RecordIff(s: State, id: ArtifactId, ref: Ref, raw: seq<byte>)
    ensures
      var t := RecordAckSource(s, id, ref, raw);
      var fits := && s.failureStarted.None? && s.refCount < 4096 && Has(s.artifacts, id)
                  && var a := Get(s.artifacts, id);
                     && !Has(a.refs, ref.offset) && ref.bytes == |raw| && ref.offset + |raw| <= |a.bytes|
                     && forall i :: 0 <= i < |raw| ==> a.bytes[ref.offset + i] == raw[i];
      && (t != s <==> fits)
      && (fits ==>
            && t.refCount == s.refCount + 1 && Has(t.artifacts, id)
            && Get(t.artifacts, id) ==
               Get(s.artifacts, id).(refs := Get(s.artifacts, id).refs + [Entry(ref.offset, ref)]))
  {
    hide Has, Get, Put;
    if Has(s.artifacts, id) {
      var a := Get(s.artifacts, id);
      var b := a.(refs := Put(a.refs, ref.offset, ref));
      PutLookup(s.artifacts, id, b, id);
      PutNew(a.refs, ref.offset, ref);
      if ref.offset + |raw| <= |a.bytes| && ref.bytes == |raw| {
        var slice := a.bytes[ref.offset..ref.offset + |raw|];
        assert forall i :: 0 <= i < |raw| ==> slice[i] == a.bytes[ref.offset + i];
      }
    }
  }

  lemma PutNew(refs: seq<Entry<nat, Ref>>, k: nat, v: Ref)
    ensures !Has(refs, k) ==> Put(refs, k, v) == refs + [Entry(k, v)]
  {
  }

  /** A late result that is a browser handle is kept for its owner, under the operation's number; no
      other settlement changes the handles. */
  lemma HandleMeaning(s: State, digest: Digest, id: nat, outcome: Outcome, aborted: bool, now: nat, later: nat)
    requires PendingIn(s.ops, id)
    ensures
      var op := Get(s.ops, id);
      var t := Settle(s, digest, id, outcome, aborted, now, later);
      if && !outcome.Threw? && op.callback.NoCallback? && TooLate(s, op, aborted, now) && !op.retention
         && op.stage in {"new-context", "new-page", "new-session", "browser-session"}
      then t.handles == Put(s.handles, id, Handle(op.owner, op.stage))
      else t.handles == s.handles
  {
    hide Has, Get, Put, Remove, Deliver, FailOwnership;
    var op := Get(s.ops, id);
    var late := LateSettlement(s, op, aborted, now);
    DeliverFrame(s, digest, id, op, outcome, late, now);
    var t := Deliver(s, digest, id, op, outcome, late, now).0;
    FailFrame(CloseOp(t, id, op, Fulfilled, late, aborted, now), if aborted then "cancelled" else "deadline", later);
  }

  /** A turn of the drain goes on exactly before the retention deadline, not aborted, with an artifact
      of the command or pending work left, and while the table has room. It then starts one piece of
      retention work: an emission if there is an artifact, otherwise a wait. Otherwise the drain ends. */
  lemma DrainMeaning(s: State, digest: Digest, owner: Owner, aborted: bool, now: nat)
    requires Inv(s, digest) && s.busy
    ensures
      var t := DrainTurn(s, owner, aborted, now);
      var deadline := s.failureStarted.value + 10_000_000_000;
      var owned := exists id :: Has(s.artifacts, id) && Get(s.artifacts, id).owner == owner;
      var work := owned || exists id :: PendingIn(s.ops, id);
      && (t.busy <==> now < deadline && !aborted && work && !(|s.ops| == 128 && AllPending(s.ops)))
      && (t.busy ==>
            && t.ordinal == s.ordinal + 1 && Has(t.ops, t.ordinal)
            && Get(t.ops, t.ordinal) ==
               Operation(owner, if owned then "failure-retention-emit" else "failure-settlement-wait", true,
                         if owned then AcknowledgeResult else NoCallback, deadline, now, None, Pending, false))
      && (!t.busy ==> t == s.(busy := false))
  {
    hide Has, Get, Start, FirstOwned, SomePending, PendingIn;
    OwnedIff(s.artifacts, owner);
    SomePendingIff(s.ops);
    OrdinalFree(s, digest);
    var deadline := s.failureStarted.value + RETENTION_NS;
    StartMeaning(s, owner, "failure-retention-emit", true, AcknowledgeResult, deadline, aborted, now);
    StartMeaning(s, owner, "failure-settlement-wait", true, NoCallback, deadline, aborted, now);
    StartSame(s, owner, "failure-retention-emit", AcknowledgeResult, deadline, aborted, now);
    StartSame(s, owner, "failure-settlement-wait", NoCallback, deadline, aborted, now);
    var emit := Start(s, owner, "failure-retention-emit", true, AcknowledgeResult, deadline, aborted, now);
    var wait := Start(s, owner, "failure-settlement-wait", true, NoCallback, deadline, aborted, now);
    var t := DrainTurn(s, owner, aborted, now);
    if now >= deadline || aborted {
      assert t == s.(busy := false);
    } else if FirstOwned(s.artifacts, owner) < |s.artifacts| {
      assert t == if emit.1.Err? then emit.0.(busy := false) else emit.0;
    } else if SomePending(s.ops) {
      assert t == if wait.1.Err? then wait.0.(busy := false) else wait.0;
    } else {
      assert t == s.(busy := false);
    }
  }

  lemma StartSame(s: State, owner: Owner, stage: string, callback: Callback, deadline: nat, aborted: bool, now: nat)
    requires Failed(s) && |s.ops| <= 128
    ensures
      var (t, r) := Start(s, owner, stage, true, callback, deadline, aborted, now);
      (r.Err? ==> t == s) && t.busy == s.busy
  {
    hide Put;
    EvictSize(s.ops);
  }

  lemma OrdinalFree(s: State, digest: Digest)
    requires Inv(s, digest)
    ensures Distinct(s.ops) && |s.ops| <= 128 && !Has(s.ops, s.ordinal + 1) && Distinct(s.artifacts)
    ensures s.busy ==> Failed(s) && s.terminal.None?
  {
  }

  lemma {:induction false} OwnedIff(m: seq<Entry<ArtifactId, Artifact>>, owner: Owner)
    requires Distinct(m)
    ensures FirstOwned(m, owner) <= |m|
    ensures FirstOwned(m, owner) < |m| <==> exists id :: Has(m, id) && Get(m, id).owner == owner
  {
    if FirstOwned(m, owner) < |m| {
      FindAt(m, FirstOwned(m, owner));
      assert Has(m, m[FirstOwned(m, owner)].key);
    }
    if id :| Has(m, id) && Get(m, id).owner == owner {
      FirstOwnedFinds(m, owner, Find(m, id));
    }
  }

  lemma {:induction false} FirstOwnedFinds(m: seq<Entry<ArtifactId, Artifact>>, owner: Owner, i: nat)
    requires i < |m| && m[i].value.owner == owner
    ensures FirstOwned(m, owner) <= i
    decreases i
  {
    if m[0].value.owner != owner {
      FirstOwnedFinds(m[1..], owner, i - 1);
    }
  }

  // ---- receipts ----

  /** The artifact is the command's and not acknowledged in full. */
  predicate Outstanding(s: State, owner: Owner, id: ArtifactId) {
    && s.failureStarted.Some? && Has(s.inventory, id)
    && Get(s.inventory, id).owner == owner && Get(s.inventory, id).acknowledged < Get(s.inventory, id).retained
  }

  lemma ReadableIff(s: State, digest: Digest, owner: Owner, id: ArtifactId)
    requires Booked(s, digest)
    ensures Readable(s, owner, id) <==> Outstanding(s, owner, id)
  {
    if Failed(s) && Has(s.artifacts, id) {
      MirrorsAt(s.inventory, s.artifacts, id);
      assert ArtifactOk(s.history.content, digest, id, Get(s.artifacts, id));
    }
  }

  /** The receipt says, field by field, what the ledger knows of the next chunk: up to 48 KiB of what was
      retained, from where acknowledgement stopped, with the reference recorded for exactly those bytes. */
  predicate Matches(s: State, digest: Digest, owner: Owner, r: Receipt)
    requires Outstanding(s, owner, r.id) && r.id in s.history.content
  {
    var v, content := Get(s.inventory, r.id), s.history.content[r.id];
    && r.owner == owner && r.observed == v.observed && r.retained == v.retained
    && r.retainedSha == digest(content) && r.receivedNs == v.receivedNs
    && r.failureNs == s.failureStarted.value && r.deadlineNs == s.failureStarted.value + 10_000_000_000
    && r.offset == v.acknowledged && r.bytes == Min(48 * 1024, v.retained - v.acknowledged)
    && r.offset + r.bytes <= |content| && r.sha == digest(content[r.offset..r.offset + r.bytes])
    && r.source == (if Has(v.refs, r.offset) && Get(v.refs, r.offset).bytes == r.bytes then Some(Get(v.refs, r.offset))
                    else None)
    && r.durableId != ""
  }

  /** A receipt is accepted exactly before the barrier, for an outstanding artifact of the command, if
      every field matches; it then moves the acknowledgement by its bytes and nothing else. */
  lemma ReceiptIff(s: State, digest: Digest, owner: Owner, r: Receipt)
    requires Inv(s, digest)
    ensures Outstanding(s, owner, r.id) ==> r.id in s.history.content
    ensures
      var (t, result) := Acknowledge(s, digest, owner, r);
      && (result.Ok? <==> s.terminal.None? && Outstanding(s, owner, r.id) && Matches(s, digest, owner, r))
      && (result.Err? ==> t == s)
      && (result.Ok? ==>
            && Has(t.inventory, r.id)
            && Get(t.inventory, r.id) == Get(s.inventory, r.id).(acknowledged := r.offset + r.bytes)
            && t.held == s.held - r.bytes && t.discarded == s.discarded && t.ops == s.ops)
  {
    hide Inv, Has, Get, Put, Remove, Consume, ReadChunk;
    InvBooked(s, digest);
    ReadableIff(s, digest, owner, r.id);
    if Readable(s, owner, r.id) {
      ChunkFields(s, digest, owner, r.id);
      var c := ReadChunk(s, digest, owner, r.id);
      PutLookup(s.inventory, r.id, Get(s.inventory, r.id).(acknowledged := c.offset + |c.data|), r.id);
      OffsetIs(s, digest, owner, r.id);
    }
  }

  lemma InvBooked(s: State, digest: Digest)
    requires Inv(s, digest)
    ensures Booked(s, digest)
  {
  }

  lemma OffsetIs(s: State, digest: Digest, owner: Owner, id: ArtifactId)
    requires Readable(s, owner, id)
    ensures ReadChunk(s, digest, owner, id).offset == Get(s.artifacts, id).offset
  {
  }

  lemma ChunkFields(s: State, digest: Digest, owner: Owner, id: ArtifactId)
    requires Booked(s, digest) && Readable(s, owner, id)
    ensures Has(s.inventory, id) && id in s.history.content
    ensures
      var c, v, content := ReadChunk(s, digest, owner, id), Get(s.inventory, id), s.history.content[id];
      && c.owner == owner && c.id == id && c.observed == v.observed && c.retained == v.retained == |content|
      && c.retainedSha == digest(content) && c.receivedNs == v.receivedNs
      && c.failureNs == s.failureStarted.value && c.deadlineNs == s.failureStarted.value + 10_000_000_000
      && c.offset == v.acknowledged && |c.data| == Min(48 * 1024, v.retained - v.acknowledged)
      && c.offset + |c.data| <= |content| && c.data == content[c.offset..c.offset + |c.data|] && c.sha == digest(c.data)
      && c.source == if Has(v.refs, c.offset)
           && Get(v.refs, c.offset).bytes == |c.data| then Some(Get(v.refs, c.offset))
                     else None
  {
    hide Has, Get;
    ChunkContent(s, digest, owner, id);
    MirrorsAt(s.inventory, s.artifacts, id);
    assert ArtifactOk(s.history.content, digest, id, Get(s.artifacts, id));
  }

  // ---- rows ----

  /** A snapshot has one row for each artifact of the command taken over by the failure: what was
      acknowledged of it in all, what was retained, and the references whose bytes were acknowledged. */
  lemma RowMeaning(s: State, digest: Digest, owner: Owner, r: Reported)
    requires Inv(s, digest) && Failed(s) && r in Reports(s.inventory, owner)
    ensures Has(s.inventory, r.id) && Get(s.inventory, r.id).owner == owner && r.id in s.history.content
    ensures r.acknowledged == |Concat(s.history.acked, r.id)| && r.retained == |s.history.content[r.id]|
    ensures forall ref: Ref :: ref in r.refs <==> ref.offset + ref.bytes <= r.acknowledged && RecordedIn(s, r.id, ref)
  {
    hide Reports, Has, Get;
    InvBooked(s, digest);
    ReportRows(s.inventory, owner);
    assert IsReport(s.inventory, owner, r);
    var j :| 0 <= j < |s.inventory| && s.inventory[j].value.owner == owner && r == Report(s.inventory[j]);
    EntryAt(s.inventory, j);
    InventoryIndexed(s, digest);
    assert InventoryOk(s.history, digest, r.id, s.inventory[j].value);
    CoveredIff(s.inventory[j].value.refs, r.acknowledged);
  }

  lemma RowFor(s: State, owner: Owner, id: ArtifactId)
    requires Has(s.inventory, id) && Get(s.inventory, id).owner == owner
    ensures exists r :: r in Reports(s.inventory, owner) && r.id == id
  {
    ReportRows(s.inventory, owner);
    var e := s.inventory[Find(s.inventory, id)];
    assert IsReport(s.inventory, owner, Report(e));
  }

  ghost predicate RecordedIn(s: State, id: ArtifactId, ref: Ref)
    requires Has(s.inventory, id)
  {
    exists i :: 0 <= i < |Get(s.inventory, id).refs| && Get(s.inventory, id).refs[i].value == ref
  }

  lemma EntryAt(m: seq<Entry<ArtifactId, Inventory>>, j: nat)
    requires Distinct(m) && j < |m|
    ensures Has(m, m[j].key) && Get(m, m[j].key) == m[j].value
  {
    FindAt(m, j);
  }

  lemma CoveredIff(refs: seq<Entry<nat, Ref>>, acknowledged: nat)
    ensures forall ref: Ref :: ref in Covered(refs, acknowledged) <==>
              ref.offset + ref.bytes <= acknowledged && exists i :: 0 <= i < |refs| && refs[i].value == ref
  {
    var c := Covered(refs, acknowledged);
    CoveredFacts(refs, acknowledged);
    forall ref: Ref | ref.offset + ref.bytes <= acknowledged && exists i :: 0 <= i < |refs| && refs[i].value == ref
      ensures ref in c
    {
      var i :| 0 <= i < |refs| && refs[i].value == ref;
      CoveredIs(refs, acknowledged, i);
    }
    forall ref: Ref | ref in c
      ensures ref.offset + ref.bytes <= acknowledged && exists i :: 0 <= i < |refs| && refs[i].value == ref
    {
      var k :| 0 <= k < |c| && c[k] == ref;
    }
  }

  /** A snapshot lists the command's late handles, each once, and every operation as it stands. */
  lemma ListsMeaning(s: State, digest: Digest, owner: Owner, now: nat)
    requires Inv(s, digest) && Failed(s)
    ensures
      var n := SnapshotOf(s, owner, now);
      && (forall e :: e in n.handles <==>
           Has(s.handles, e.key) && Get(s.handles, e.key) == e.value && e.value.owner == owner)
      && (forall i, j :: 0 <= i < j < |n.handles| ==> n.handles[i].key != n.handles[j].key)
      && |n.operations| == |s.ops| && forall i :: 0 <= i < |s.ops| ==> Get(s.ops, s.ops[i].key) == n.operations[i]
  {
    hide Reports, Has, Get;
    InvDistinctTables(s, digest);
    forall e ensures e in HandlesOf(s.handles, owner) <==>
                       Has(s.handles, e.key) && Get(s.handles, e.key) == e.value && e.value.owner == owner {
      HandlesIff(s.handles, owner, e);
      EntryIn(s.handles, e);
    }
    HandlesDistinct(s.handles, owner);
    forall i | 0 <= i < |s.ops| ensures Has(s.ops, s.ops[i].key) && Get(s.ops, s.ops[i].key) == s.ops[i].value {
      EntryIn(s.ops, s.ops[i]);
    }
  }

  lemma InvDistinctTables(s: State, digest: Digest)
    requires Inv(s, digest)
    ensures Distinct(s.handles) && Distinct(s.ops)
  {
  }

  lemma EntryIn<V>(m: seq<Entry<nat, V>>, e: Entry<nat, V>)
    requires Distinct(m)
    ensures e in m <==> Has(m, e.key) && Get(m, e.key) == e.value
  {
    if e in m {
      var i :| 0 <= i < |m| && m[i] == e;
      FindAt(m, i);
    }
    if Has(m, e.key) && Get(m, e.key) == e.value {
      assert m[Find(m, e.key)] == e;
    }
  }

  lemma {:induction false} HandlesIff(m: seq<Entry<nat, Handle>>, owner: Owner, e: Entry<nat, Handle>)
    ensures e in HandlesOf(m, owner) <==> e in m && e.value.owner == owner
    decreases |m|
  {
    if m != [] {
      assert m == [m[0]] + m[1..];
      HandlesIff(m[1..], owner, e);
    }
  }

  lemma {:induction false} HandlesDistinct(m: seq<Entry<nat, Handle>>, owner: Owner)
    requires Distinct(m)
    ensures Distinct(HandlesOf(m, owner))
    decreases |m|
  {
    if m != [] {
      HandlesDistinct(m[1..], owner);
      var rest := HandlesOf(m[1..], owner);
      forall j | 0 <= j < |rest| ensures rest[j].key != m[0].key {
        HandlesIff(m[1..], owner, rest[j]);
        var k :| 0 <= k < |m[1..]| && m[1..][k] == rest[j];
        assert m[k + 1] == rest[j];
      }
    }
  }

  /** A late handle is handed over exactly before the barrier and to its owner; it is then gone, and every
      other one stays. */
  lemma TransferIff(s: State, digest: Digest, owner: Owner, op: nat, other: nat)
    requires Inv(s, digest)
    ensures
      var t := Apply(s, digest, TransferHandle(owner, op));
      var owned := Has(s.handles, op) && Get(s.handles, op).owner == owner;
      && (t != s <==> s.terminal.None? && owned)
      && (Has(t.handles, other) <==> Has(s.handles, other) && !(t != s && other == op))
      && (Has(t.handles, other) ==> Get(t.handles, other) == Get(s.handles, other))
      && t == s.(handles := t.handles)
  {
    hide Has, Get, Remove;
    InvDistinctTables(s, digest);
    RemoveLookup(s.handles, op, op);
    RemoveLookup(s.handles, op, other);
  }
}
