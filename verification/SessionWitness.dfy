/** A session whose second drain begins while the first one's emission is under way can close with
    the same chunk twice in the host's log. */
module SessionWitness {
  import opened Basics
  import opened OrderedMaps
  import opened Frames
  import opened FailureSession
  import opened SessionSafety
  import opened SessionRuns
  import L = Ledger
  import LW = LedgerWitness
  import H = Handoff
  import HS = HandoffSafety

  // ---- a message can be delivered ----

  /** Nothing is in flight and nobody has failed or closed. */
  predicate AtRest(y: H.System) {
    && |y.key| == 32 && y.stream == H.Stream(|y.started|, false, false, H.Idle)
    && y.client == H.Client(|y.started|, false, false, false)
    && y.reply == H.NoReply && y.checks == [] && y.replies == [] && y.acked == y.started && |y.started| + 1 < U32
    && y.host.alive && |y.host.log| == |y.started| && y.host.consumed == |y.sent|
  }

  /** The host acknowledges with this receipt. */
  function Receipt(m: Message): seq<byte> {
    match m case Record(_) => [0, 0, 0, 0] case Callback(_, _) => [123, 125] case Final(_) => seq(32, _ => 0)
  }

  function Request(y: H.System, m: Message): seq<byte>
    requires AtRest(y) && Sendable(m)
  {
    H.RequestOf(y.key, m, |y.started| + 1)
  }

  /** The message was sent, appended by the host and acknowledged. */
  function Sent(y: H.System, m: Message): H.System
    requires AtRest(y) && Sendable(m)
  {
    var n := |y.started| + 1;
    H.System(y.key, H.Client(n, false, false, m.Final?), H.Stream(n, false, m.Final?, H.Idle),
             H.Host(true, y.host.log + [HS.Entry(m, n)], |y.sent| + |Request(y, m)|),
             y.sent + Request(y, m), [], H.NoReply, [], y.started + [m], y.started + [m])
  }

  /** The message is on its way, with `written` bytes of its frame at the host. */
  function Begun(y: H.System, m: Message, written: nat): H.System
    requires AtRest(y) && Sendable(m) && written <= |Request(y, m)|
  {
    var r := Request(y, m);
    y.(stream := y.stream.(phase := if written < |r| then H.Writing(r, written) else H.ReadingHeader(r, [])),
       client := y.client.(busy := true), started := y.started + [m], sent := y.sent + r[..written])
  }

  lemma RequestKind(y: H.System, m: Message)
    requires AtRest(y) && Sendable(m)
    ensures |Request(y, m)| >= HEADER && Request(y, m)[4] == KindOf(m)
  {
    hide Layout;
    FrameRoundTrip(KindOf(m), |y.started| + 1, y.key, PayloadOf(m));
  }

  lemma SendBegins(y: H.System, m: Message)
    requires AtRest(y) && Sendable(m)
    ensures H.Apply(y, H.Send(m)) == Begun(y, m, 0)
  {
    hide Layout, RequestOk;
    ClientFramePasses(m, |y.started|, y.key);
    assert y.sent + Request(y, m)[..0] == y.sent;
  }

  /** A complete write of the next piece. */
  lemma PieceWritten(sent: seq<byte>, r: seq<byte>, written: nat, n: nat)
    requires written + n <= |r|
    ensures sent + r[..written] + r[written..written + n][..n] == sent + r[..written + n]
  {
  }

  lemma WriteMoves(y: H.System, m: Message, written: nat)
    requires AtRest(y) && Sendable(m) && written < |Request(y, m)|
    ensures
      var n := Min(H.PIECE, |Request(y, m)| - written);
      && n > 0 && H.Wf(Begun(y, m, written))
      && H.Apply(Begun(y, m, written), H.Write(n, n)) == Begun(y, m, written + n)
  {
    hide H.RequestOf, Sendable;
    var r := Request(y, m);
    RequestKind(y, m);
    PieceWritten(y.sent, r, written, Min(H.PIECE, |r| - written));
  }

  /** The frame is complete at the host, which appends it. */
  function Appended(y: H.System, m: Message): H.System
    requires AtRest(y) && Sendable(m)
  {
    var r := Request(y, m);
    Begun(y, m, |r|).(host := H.Host(true, y.host.log + [HS.Entry(m, |y.started| + 1)], |y.sent| + |r|))
  }

  lemma FrameParts(key: seq<byte>, m: Message, n: nat)
    requires |key| == 32 && Sendable(m) && n < U32
    ensures
      var r := H.RequestOf(key, m, n);
      && |r| >= HEADER && |r| == HEADER + ReadU32(r, 41) && r[..4] == MAGIC && r[4] == KindOf(m)
      && ReadU32(r, 5) == n && r[9..41] == key && r[HEADER..|r|] == PayloadOf(m)
  {
    hide Layout, ReadU32;
    FrameRoundTrip(KindOf(m), n, key, PayloadOf(m));
    var r := H.RequestOf(key, m, n);
    assert r[HEADER..] == r[HEADER..|r|];
  }

  /** The host takes a frame that is complete at its end of the wire. */
  lemma TakesFrame(host: H.Host, key: seq<byte>, sent: seq<byte>, m: Message)
    requires |key| == 32 && Sendable(m) && |host.log| + 1 < U32 && host.alive && host.consumed <= |sent|
    requires sent[host.consumed..] == H.RequestOf(key, m, |host.log| + 1)
    ensures H.FrameReady(sent, host.consumed)
    ensures H.Append(host, key, sent) == H.Host(true, host.log + [HS.Entry(m, |host.log| + 1)], |sent|)
  {
    hide H.RequestOf, ReadU32, PayloadOf, Sendable, KindOf;
    FrameParts(key, m, |host.log| + 1);
  }

  lemma HostAppends(y: H.System, m: Message)
    requires AtRest(y) && Sendable(m)
    ensures
      var b := Begun(y, m, |Request(y, m)|);
      H.Wf(b) && H.Apply(b, H.HostAppends) == Appended(y, m)
  {
    hide H.Append, H.FrameReady, H.RequestOf, HS.Entry;
    var r := Request(y, m);
    var b := Begun(y, m, |r|);
    RequestKind(y, m);
    assert r[..|r|] == r;
    assert b.sent[y.host.consumed..] == r;
    TakesFrame(y.host, y.key, b.sent, m);
  }

  function Ack(y: H.System, m: Message): seq<byte>
    requires AtRest(y) && Sendable(m)
  {
    Layout(ACK, |y.started| + 1, y.key, Receipt(m))
  }

  lemma AckParts(y: H.System, m: Message)
    requires AtRest(y) && Sendable(m)
    ensures
      var a := Ack(y, m);
      && |a| == HEADER + |Receipt(m)| && a[HEADER..] == Receipt(m) && AckHeaderOk(a, |y.started| + 1, y.key)
      && ReadU32(a, 41) == |Receipt(m)|
      && AckHeaderOk(a[..HEADER], |y.started| + 1, y.key) && ReadU32(a[..HEADER], 41) == |Receipt(m)|
      && AckPayload(a, |y.started| + 1, y.key) == Ok(Receipt(m))
  {
    hide Layout, ReadU32;
    var a := Ack(y, m);
    FrameRoundTrip(ACK, |y.started| + 1, y.key, Receipt(m));
    HeaderSame(a);
  }

  lemma HeaderSame(a: seq<byte>)
    requires |a| >= HEADER
    ensures
      var h := a[..HEADER];
      h[..4] == a[..4] && h[4] == a[4] && h[9..41] == a[9..41] && ReadU32(h, 5) == ReadU32(a, 5)
      && ReadU32(h, 41) == ReadU32(a, 41)
  {
    var h := a[..HEADER];
    assert forall i :: 0 <= i < HEADER ==> h[i] == a[i];
  }

  lemma HostEmits(y: H.System, m: Message)
    requires AtRest(y) && Sendable(m)
    ensures
      H.Wf(Appended(y, m)) && H.Apply(Appended(y, m), H.HostEmits(Ack(y, m))) == Appended(y, m).(replies := Ack(y, m))
  {
    hide Layout, AckHeaderOk, ReadU32;
    AckParts(y, m);
    var a := Ack(y, m);
    assert [] + a == a;
    assert |a[HEADER + |Receipt(m)|..]| == 0;
    NoAck(a[HEADER + |Receipt(m)|..], |y.started| + 2, y.key, |y.started| + 1);
  }

  lemma NoAck(bytes: seq<byte>, n: nat, key: seq<byte>, appended: nat)
    requires |bytes| == 0
    ensures !H.Forged(bytes, n, key, appended)
  {
  }

  function HeaderRead(y: H.System, m: Message): H.System
    requires AtRest(y) && Sendable(m)
  {
    var b := Appended(y, m);
    b.(stream := b.stream.(phase := H.ReadingBody(Request(y, m), Ack(y, m)[..HEADER], [])), replies := Receipt(m))
  }

  lemma ReadsHeader(y: H.System, m: Message)
    requires AtRest(y) && Sendable(m)
    ensures
      var b := Appended(y, m).(replies := Ack(y, m));
      H.Wf(b) && H.Apply(b, H.Read(HEADER)) == HeaderRead(y, m)
  {
    hide Layout, AckHeaderOk, ReadU32;
    AckParts(y, m);
    assert [] + Ack(y, m)[..HEADER] == Ack(y, m)[..HEADER];
  }

  function Returned(y: H.System, m: Message): H.System
    requires AtRest(y) && Sendable(m)
  {
    Appended(y, m).(stream := H.Stream(|y.started| + 1, false, m.Final?, H.Idle), reply := H.Returned(Ack(y, m)))
  }

  lemma ReadsBody(y: H.System, m: Message)
    requires AtRest(y) && Sendable(m)
    ensures H.Wf(HeaderRead(y, m)) && H.Apply(HeaderRead(y, m), H.Read(|Receipt(m)|)) == Returned(y, m)
  {
    hide H.RequestOf, Ack, AckHeaderOk, ReadU32, HS.Entry;
    AckParts(y, m);
    RequestKind(y, m);
    var a, body := Ack(y, m), Receipt(m);
    assert body[..|body|] == body && [] + body == body && a[..HEADER] + body == a;
    assert |body[|body|..]| == 0;
  }

  lemma Resumes(y: H.System, m: Message)
    requires AtRest(y) && Sendable(m)
    ensures
      && H.Wf(Returned(y, m))
      && H.Apply(Returned(y, m), H.Resume) == Sent(y, m).(checks := [H.Check(m, Receipt(m))],
                                                           client := H.Client(|y.started| + 1, false, false, false))
  {
    hide Layout, AckHeaderOk, AckPayload;
    AckParts(y, m);
    assert Request(y, m)[..|Request(y, m)|] == Request(y, m);
  }

  lemma Examines(y: H.System, m: Message)
    requires AtRest(y) && Sendable(m)
    ensures
      var b := Sent(y, m).(checks := [H.Check(m, Receipt(m))],
                    client := H.Client(|y.started| + 1, false, false, false));
      H.Wf(b) && H.Apply(b, H.Examine(0, true)) == Sent(y, m)
  {
    hide Layout;
  }

  // ---- reachable sessions ----

  ghost predicate Reaches(k: Setup, y: Session, t: Session) {
    H.Wf(y.handoff) && exists events :: LawfulRun(k, y, events) && Run(k, y, events) == t
  }

  lemma ReachesSelf(k: Setup, y: Session)
    requires H.Wf(y.handoff)
    ensures Reaches(k, y, y)
  {
    assert LawfulRun(k, y, []) && Run(k, y, []) == y;
  }

  /** A lawful step in front of a reachable session. */
  lemma ReachesStep(k: Setup, y: Session, e: Event, t: Session)
    requires H.Wf(y.handoff) && Lawful(k, y, e) && Reaches(k, Apply(k, y, e), t)
    ensures Reaches(k, y, t)
  {
    hide Lawful, Apply, H.Wf;
    var events :| LawfulRun(k, Apply(k, y, e), events) && Run(k, Apply(k, y, e), events) == t;
    var all := [e] + events;
    assert all[0] == e && all[1..] == events;
    assert LawfulRun(k, y, all) && Run(k, y, all) == t;
  }

  /** A step of the handoff that sends nothing. */
  lemma ReachesOutside(k: Setup, y: Session, e: H.Event, h: H.System, t: Session)
    requires H.Wf(y.handoff) && !e.Send? && H.Apply(y.handoff, e) == h && h.started == y.handoff.started
    requires Reaches(k, y.(handoff := h), t)
    ensures Reaches(k, y, t)
  {
    hide H.Wf, H.Apply, Reaches;
    ReachesStep(k, y, Outside(e), t);
  }

  /** A message that was begun can be delivered. */
  lemma ReachesSent(k: Setup, y: Session, h: H.System, m: Message, t: Session)
    requires AtRest(h) && Sendable(m) && y.handoff == Begun(h, m, |Request(h, m)|)
    requires Reaches(k, y.(handoff := Sent(h, m)), t)
    ensures Reaches(k, y, t)
  {
    hide H.Wf, H.Apply, Reaches, Request, Ack, Receipt, AtRest, Sendable;
    Examines(h, m);
    Resumes(h, m);
    ReadsBody(h, m);
    ReadsHeader(h, m);
    HostEmits(h, m);
    HostAppends(h, m);
    var resumed := Sent(h, m).(checks := [H.Check(m, Receipt(m))],
                    client := H.Client(|h.started| + 1, false, false, false));
    ReachesOutside(k, y.(handoff := resumed), H.Examine(0, true), Sent(h, m), t);
    ReachesOutside(k, y.(handoff := Returned(h, m)), H.Resume, resumed, t);
    ReachesOutside(k, y.(handoff := HeaderRead(h, m)), H.Read(|Receipt(m)|), Returned(h, m), t);
    ReachesOutside(k, y.(handoff := Appended(h, m).(replies := Ack(h, m))), H.Read(HEADER), HeaderRead(h, m), t);
    ReachesOutside(k, y.(handoff := Appended(h, m)), H.HostEmits(Ack(h, m)), Appended(h, m).(replies := Ack(h, m)), t);
    ReachesOutside(k, y, H.HostAppends, Appended(h, m), t);
  }

  lemma {:induction false} ReachesWritten(k: Setup, y: Session, h: H.System, m: Message, written: nat, t: Session)
    requires AtRest(h) && Sendable(m) && written <= |Request(h, m)| && y.handoff == Begun(h, m, written)
    requires Reaches(k, y.(handoff := Sent(h, m)), t)
    ensures Reaches(k, y, t)
    decreases |Request(h, m)| - written
  {
    hide H.Wf, H.Apply, Reaches, Request, AtRest, Sendable;
    var r := Request(h, m);
    if written == |r| {
      ReachesSent(k, y, h, m, t);
    } else {
      WriteMoves(h, m, written);
      var n := Min(H.PIECE, |r| - written);
      ReachesWritten(k, y.(handoff := Begun(h, m, written + n)), h, m, written + n, t);
      ReachesOutside(k, y, H.Write(n, n), Begun(h, m, written + n), t);
    }
  }

  // ---- the ledger's side ----

  const PAGE := L.Private("page")

  function Held(k: Setup): L.Artifact { L.Artifact(k.owner, [7], 1, 0, k.digest([7]), 0, []) }

  function Listed(k: Setup, acknowledged: nat): L.Inventory {
    L.Inventory(k.owner, 1, 1, k.digest([7]), 0, acknowledged, [])
  }

  /** The one chunk of the one artifact. */
  function Page(k: Setup): L.Chunk {
    L.Chunk(k.owner, PAGE, 1, 1, k.digest([7]), 0, 0, L.RETENTION_NS, 0, k.digest([7]), None, [7])
  }

  function Emission(k: Setup): L.Operation {
    L.Operation(k.owner, "failure-retention-emit", true, L.AcknowledgeResult, L.RETENTION_NS, 0, None, L.Pending, false)
  }

  /** The artifact is held, failure began, and `ops` are under way. */
  function Holding(k: Setup, busy: bool, ordinal: nat, ops: seq<Entry<nat, L.Operation>>): L.State {
    L.State(Some(0), "cancelled", [Entry(PAGE, Held(k))], [Entry(PAGE, Listed(k, 0))], 1, 0, 1, 1, {PAGE}, 0, busy,
        None, [],
            ordinal, ops, {k.owner}, L.History(1, 0, [], map[PAGE := [7]]))
  }

  /** The artifact was acknowledged. */
  function Empty(k: Setup, busy: bool, ops: seq<Entry<nat, L.Operation>>): L.State {
    L.State(Some(0), "cancelled", [], [Entry(PAGE, Listed(k, 1))], 0, 0, 1, 1, {PAGE}, 0, busy, None, [],
            2, ops, {k.owner}, L.History(1, 0, [L.Acked(PAGE, 0, [7])], map[PAGE := [7]]))
  }

  /** The artifact is held by the one command. */
  function Kept(k: Setup): L.State {
    L.Init.(artifacts := [Entry(PAGE, Held(k))], held := 1, used := {k.owner},
            history := L.History(1, 0, [], map[PAGE := [7]]))
  }

  lemma Holds(k: Setup)
    ensures
      var s := L.Apply(L.Init, k.digest, L.Collect(k.owner));
      L.Apply(s, k.digest, L.HoldNow(k.owner, PAGE, [7], 1, 0)) == Kept(k)
  {
    hide Put, Has;
    var s := L.Apply(L.Init, k.digest, L.Collect(k.owner));
    assert s == L.Init.(used := {k.owner});
    LW.Nothing(PAGE, Held(k));
    assert [7][..1] == [7];
    assert map[][PAGE := [7]] == map[PAGE := [7]];
  }

  lemma Fails(k: Setup)
    ensures L.Apply(Kept(k), k.digest, L.Interrupt("cancelled", 0)) == Holding(k, false, 0, [])
  {
    var t := L.FailOwnership(Kept(k), "cancelled", 0);
    assert t.inventory == [Entry(PAGE, Listed(k, 0))];
    assert t.inventory[1..] == [];
    assert Sum(t.inventory, L.RetainedOf) == L.RetainedOf(Listed(k, 0)) + Sum(t.inventory[1..], L.RetainedOf);
    assert t.seen == {PAGE};
  }

  lemma Reading(k: Setup, ordinal: nat, ops: seq<Entry<nat, L.Operation>>)
    ensures
      var s := Holding(k, true, ordinal, ops);
      && L.FirstOwned(s.artifacts, k.owner) == 0 && L.Readable(s, k.owner, PAGE)
      && L.ReadChunk(s, k.digest, k.owner, PAGE) == Page(k)
  {
    LW.Single(PAGE, Held(k), PAGE, Held(k));
    LW.Single(PAGE, Listed(k, 0), PAGE, Listed(k, 0));
    assert [7][..1] == [7];
    assert !Has<nat, L.Ref>([], 0);
  }

  lemma Drains(k: Setup, ordinal: nat, ops: seq<Entry<nat, L.Operation>>)
    requires |ops| < 2 && !Has(ops, ordinal + 1)
    ensures
      L.DrainTurn(Holding(k, true, ordinal, ops), k.owner, false, 0) ==
      Holding(k, true, ordinal + 1, ops + [Entry(ordinal + 1, Emission(k))])
  {
    hide L.FirstOwned;
    Reading(k, ordinal, ops);
  }

  lemma TwoOps(k: Setup)
    ensures
      var m: seq<Entry<nat, L.Operation>> := [Entry(1, Emission(k)), Entry(2, Emission(k))];
      && Has(m, 1) && Get(m, 1) == Emission(k) && Remove(m, 1) == [Entry(2, Emission(k))]
  {
    var m: seq<Entry<nat, L.Operation>> := [Entry(1, Emission(k)), Entry(2, Emission(k))];
    assert Find(m, 1) == 0;
    assert Remove(m, 1) == m[..0] + m[1..];
  }

  lemma AcceptsFirst(k: Setup)
    ensures
      var s := Holding(k, true, 2, [Entry(1, Emission(k)), Entry(2, Emission(k))]);
      var r := L.Echo(Page(k), "durable");
      && L.Acknowledge(s, k.digest, k.owner, r).1.Ok?
      && L.Settle(s, k.digest, 1, L.Durable(r), false, 0, 0) == Empty(k, true, [Entry(2, Emission(k))])
  {
    hide Put, Has, Get, Remove;
    var ops: seq<Entry<nat, L.Operation>> := [Entry(1, Emission(k)), Entry(2, Emission(k))];
    var s := Holding(k, true, 2, ops);
    Reading(k, 2, ops);
    TwoOps(k);
    LW.Single(PAGE, Held(k), PAGE, Held(k));
    LW.Single(PAGE, Listed(k, 0), PAGE, Listed(k, 1));
    assert [] + [L.Acked(PAGE, 0, [7])] == [L.Acked(PAGE, 0, [7])];
  }

  lemma RefusesSecond(k: Setup)
    ensures
      var s := Empty(k, true, [Entry(2, Emission(k))]);
      var r := L.Echo(Page(k), "durable");
      && L.Acknowledge(s, k.digest, k.owner, r).1.Err?
      && L.Settle(s, k.digest, 2, L.Durable(r), false, 0, 0) == Empty(k, true, [])
  {
    LW.Single(2 as nat, Emission(k), 2, Emission(k));
    assert !Has<L.ArtifactId, L.Artifact>([], PAGE);
  }

  lemma Snapshot(k: Setup)
    ensures
      var s := Empty(k, false, []);
      && L.Reports(s.inventory, k.owner) == [L.Reported(PAGE, 1, 1, 1, k.digest([7]), 0, [])]
      && L.GateOk(L.SnapshotOf(s, k.owner, 0))
  {
    var s := Empty(k, false, []);
    var rest := s.inventory[1..];
    assert |rest| == 0;
    assert L.Reports(rest, k.owner) == [];
    var rows := L.Reports(s.inventory, k.owner);
    assert rows == [L.Report(s.inventory[0])] + L.Reports(rest, k.owner);
    assert rows == [L.Reported(PAGE, 1, 1, 1, k.digest([7]), 0, [])];
    assert rows[..0] == [];
  }

  // ---- the run ----

  /** The chunk's metadata and the snapshot fit their frames. */
  predicate Fits(k: Setup) {
    Sendable(MessageOf(k, Page(k))) && L.Encodes(k.encode, L.SnapshotOf(Empty(k, false, []), k.owner, 0))
  }

  lemma ReachesDispatched(k: Setup, y: Session, op: nat, t: Session)
    requires AtRest(y.handoff) && op in y.issued && Sendable(MessageOf(k, y.issued[op]))
    requires Reaches(k, y.(handoff := Sent(y.handoff, MessageOf(k, y.issued[op])), issued := y.issued - {op},
                           calls := y.calls + [Emit(op, y.issued[op], Waiting)]), t)
    ensures Reaches(k, y, t)
  {
    hide Reaches, Sent, Request;
    var h, m := y.handoff, MessageOf(k, y.issued[op]);
    SendBegins(h, m);
    var b := y.(handoff := Begun(h, m, 0), issued := y.issued - {op},
                calls := y.calls + [Emit(op, y.issued[op], Waiting)]);
    ReachesWritten(k, b, h, m, 0, t);
    ReachesStep(k, y, Dispatch(op), t);
  }

  function Ops(k: Setup, count: nat): seq<Entry<nat, L.Operation>> {
    if count == 0 then []
    else if count == 1 then [Entry(1, Emission(k))]
    else [Entry(1, Emission(k)), Entry(2, Emission(k))]
  }

  function First(k: Setup, status: Status): Call { Emit(1, Page(k), status) }

  function Second(k: Setup, status: Status): Call { Emit(2, Page(k), status) }

  lemma ReachesInside(k: Setup, y: Session, step: L.Event, ledger: L.State, t: Session)
    requires H.Wf(y.handoff) && Lawful(k, y, Inside(step)) && L.Apply(y.ledger, k.digest, step) == ledger
    requires Reaches(k, y.(ledger := ledger), t)
    ensures Reaches(k, y, t)
  {
    hide H.Wf, L.Apply, Reaches, Lawful;
    ReachesStep(k, y, Inside(step), t);
  }

  /** A drain reads the chunk, whatever else is under way. */
  lemma ReachesDrained(k: Setup, y: Session, ordinal: nat, ops: seq<Entry<nat, L.Operation>>, t: Session)
    requires H.Wf(y.handoff) && y.ledger == Holding(k, false, ordinal, ops) && |ops| < 2 && !Has(ops, ordinal + 1)
    requires Reaches(k, y.(ledger := Holding(k, true, ordinal + 1, ops + [Entry(ordinal + 1, Emission(k))]),
                           issued := y.issued[ordinal + 1 := Page(k)]), t)
    ensures Reaches(k, y, t)
  {
    hide H.Wf, Reaches, L.DrainTurn, L.FirstOwned, L.Readable, L.ReadChunk;
    Reading(k, ordinal, ops);
    Drains(k, ordinal, ops);
    var busy := y.(ledger := Holding(k, true, ordinal, ops));
    ReachesStep(k, busy, DrainTurn(false, 0), t);
    ReachesInside(k, y, L.BeginDrain, busy.ledger, t);
  }

  /** The first drain reads the chunk and sends it. */
  lemma FirstDrain(k: Setup, key: seq<byte>, t: Session)
    requires |key| == 32 && Fits(k) && AtRest(H.Start(key))
    requires
      var h := Sent(H.Start(key), MessageOf(k, Page(k)));
      Reaches(k, Session(Holding(k, true, 1, Ops(k, 1)), h, map[], [First(k, Waiting)]), t)
    ensures Reaches(k, Start(L.Init, key), t)
  {
    hide Reaches, Holding, Kept, Sent, L.Apply, L.SnapshotOf, H.Start, AtRest;
    var y := Start(L.Init, key);
    var collected := L.Apply(L.Init, k.digest, L.Collect(k.owner));
    var sending := y.(ledger := Holding(k, true, 1, Ops(k, 1)), issued := map[1 := Page(k)]);
    assert sending.issued - {1} == map[] && [] + [First(k, Waiting)] == [First(k, Waiting)];
    ReachesDispatched(k, sending, 1, t);
    Holds(k);
    Fails(k);
    assert [] + Ops(k, 1) == Ops(k, 1) && map[][1 := Page(k)] == map[1 := Page(k)];
    RestWf(y.handoff);
    ReachesDrained(k, y.(ledger := Holding(k, false, 0, [])), 0, [], t);
    ReachesInside(k, y.(ledger := Kept(k)), L.Interrupt("cancelled", 0), Holding(k, false, 0, []), t);
    ReachesInside(k, y.(ledger := collected), L.HoldNow(k.owner, PAGE, [7], 1, 0), Kept(k), t);
    ReachesInside(k, y, L.Collect(k.owner), collected, t);
  }

  lemma RestWf(h: H.System)
    requires AtRest(h)
    ensures H.Wf(h)
  {
  }

  /** It is aborted while its emission is under way; a second one reads the same chunk. */
  lemma SecondDrain(k: Setup, h: H.System, t: Session)
    requires AtRest(h)
    requires Reaches(k, Session(Holding(k, true, 2, Ops(k, 2)), h, map[2 := Page(k)], [First(k, Waiting)]), t)
    ensures Reaches(k, Session(Holding(k, true, 1, Ops(k, 1)), h, map[], [First(k, Waiting)]), t)
  {
    hide Reaches, L.FirstOwned, AtRest;
    RestWf(h);
    var y := Session(Holding(k, true, 1, Ops(k, 1)), h, map[], [First(k, Waiting)]);
    var aborted := y.(ledger := Holding(k, false, 1, Ops(k, 1)));
    assert Ops(k, 1) + [Entry(2, Emission(k))] == Ops(k, 2);
    assert map[][2 := Page(k)] == map[2 := Page(k)];
    LW.Single(1 as nat, Emission(k), 2, Emission(k));
    ReachesDrained(k, aborted, 1, Ops(k, 1), t);
    Aborts(k);
    ReachesStep(k, y, DrainTurn(true, 0), t);
  }

  lemma Aborts(k: Setup)
    ensures L.DrainTurn(Holding(k, true, 1, Ops(k, 1)), k.owner, true, 0) == Holding(k, false, 1, Ops(k, 1))
  {
  }

  /** The first receipt is accepted, the second copy goes out, and its receipt is refused. */
  lemma BothAnswered(k: Setup, h: H.System, t: Session)
    requires AtRest(h) && |h.started| == 1 && Fits(k)
    requires
      var g := Sent(h, MessageOf(k, Page(k)));
      Reaches(k, Session(Empty(k, true, []), g, map[], [First(k, Accepted), Second(k, Refused)]), t)
    ensures Reaches(k, Session(Holding(k, true, 2, Ops(k, 2)), h, map[2 := Page(k)], [First(k, Waiting)]), t)
  {
    hide Reaches, L.Settle, L.Acknowledge, L.Echo, Holding, Empty, L.SnapshotOf, Request;
    var g := Sent(h, MessageOf(k, Page(k)));
    RestWf(h);
    AcceptsFirst(k);
    RefusesSecond(k);
    var y := Session(Holding(k, true, 2, Ops(k, 2)), h, map[2 := Page(k)], [First(k, Waiting)]);
    var accepted := Session(Empty(k, true, [Entry(2, Emission(k))]), h, map[2 := Page(k)], [First(k, Accepted)]);
    var sent := accepted.(handoff := g, issued := map[], calls := [First(k, Accepted), Second(k, Waiting)]);
    assert sent.calls[1 := Second(k, Refused)] == [First(k, Accepted), Second(k, Refused)];
    assert y.calls[0 := First(k, Accepted)] == accepted.calls;
    ReachesStep(k, sent, Answer(1, "durable", false, 0, 0), t);
    assert accepted.issued - {2} == map[] && accepted.calls + [Second(k, Waiting)] == sent.calls;
    ReachesDispatched(k, accepted, 2, t);
    ReachesStep(k, y, Answer(0, "durable", false, 0, 0), t);
  }

  /** What the session ends with. */
  function Closed(k: Setup, h: H.System): Session
    requires AtRest(h) && Fits(k)
  {
    var bytes := k.encode(L.SnapshotOf(Empty(k, false, []), k.owner, 0));
    Session(Empty(k, false, []).(terminal := Some(L.Terminal(k.owner, bytes))), Sent(h, Final(bytes)), map[],
            [First(k, Accepted), Second(k, Refused), NoCall])
  }

  /** The second drain finds nothing left, and the session closes. */
  lemma Closes(k: Setup, h: H.System)
    requires AtRest(h) && Fits(k)
    ensures Reaches(k, Session(Empty(k, true, []), h, map[], [First(k, Accepted), Second(k, Refused)]), Closed(k, h))
  {
    hide Reaches, L.SnapshotOf, L.GateOk, Request, Sent;
    RestWf(h);
    var y := Session(Empty(k, true, []), h, map[], [First(k, Accepted), Second(k, Refused)]);
    var idle := y.(ledger := Empty(k, false, []));
    var m := Final(k.encode(L.SnapshotOf(idle.ledger, k.owner, 0)));
    Snapshot(k);
    SendBegins(h, m);
    SentWf(h, m);
    ReachesSelf(k, Closed(k, h));
    var begun := Closed(k, h).(handoff := Begun(h, m, 0));
    ReachesWritten(k, begun, h, m, 0, Closed(k, h));
    assert idle.calls + [NoCall] == begun.calls;
    ReachesStep(k, idle, Close(0), Closed(k, h));
    ReachesStep(k, y, DrainTurn(false, 0), Closed(k, h));
  }

  lemma SentWf(h: H.System, m: Message)
    requires AtRest(h) && Sendable(m)
    ensures H.Wf(Sent(h, m))
  {
  }

  /** The log of the closed session holds the chunk twice. */
  lemma Twice(k: Setup, log: seq<H.Appended>, read: Reader)
    requires Fits(k) && Reads(k, read) && |log| >= 2
    requires log[0] == HS.Entry(MessageOf(k, Page(k)), 1) && log[1] == HS.Entry(MessageOf(k, Page(k)), 2)
    ensures !Single(log, read, PAGE)
  {
    hide Reads, L.SnapshotOf;
    EntryShown(k, MessageOf(k, Page(k)), 1, First(k, Accepted), read);
    EntryShown(k, MessageOf(k, Page(k)), 2, Second(k, Refused), read);
    assert For(log[0], read, PAGE) && For(log[1], read, PAGE);
  }

  lemma ReachesClosed(k: Setup, key: seq<byte>)
    requires |key| == 32 && Fits(k)
    ensures exists y ::
      && Reaches(k, Start(L.Init, key), y) && y.handoff.client.terminal && |y.handoff.host.log| == 3
      && y.ledger.inventory == [Entry(PAGE, Listed(k, 1))]
      && y.handoff.host.log[0] == HS.Entry(MessageOf(k, Page(k)), 1)
      && y.handoff.host.log[1] == HS.Entry(MessageOf(k, Page(k)), 2)
  {
    hide Reaches, L.SnapshotOf, Request, HS.Entry, Holding;
    var m := MessageOf(k, Page(k));
    var h := H.Start(key);
    var g := Sent(h, m);
    var f := Sent(g, m);
    Closes(k, f);
    var t := Closed(k, f);
    BothAnswered(k, g, t);
    SecondDrain(k, g, t);
    FirstDrain(k, key, t);
    assert Reaches(k, Start(L.Init, key), t);
  }

  /** Whatever the digest and the encodings, as long as the frames fit: a lawful run closes, and the
      callbacks in the host's log are not the acknowledged prefix. */
  lemma OverlapRepeats(k: Setup, key: seq<byte>, read: Reader)
    requires |key| == 32 && Fits(k) && Reads(k, read)
    ensures H.Wf(H.Start(key)) && exists events, r ::
      && LawfulRun(k, Start(L.Init, key), events)
      && var y := Run(k, Start(L.Init, key), events);
         && y.handoff.client.terminal && r in L.Reports(y.ledger.inventory, k.owner)
         && !Reported(y.ledger, r, LogData(y.handoff.host.log, read, r.id))
  {
    hide Reads, L.SnapshotOf, LawfulRun, Run, Single, LogData, L.Reports, EndsWith, HS.Entry, Reported;
    ReachesClosed(k, key);
    var y :| && Reaches(k, Start(L.Init, key), y) && y.handoff.client.terminal && |y.handoff.host.log| == 3
             && y.ledger.inventory == [Entry(PAGE, Listed(k, 1))]
             && y.handoff.host.log[0] == HS.Entry(MessageOf(k, Page(k)), 1)
             && y.handoff.host.log[1] == HS.Entry(MessageOf(k, Page(k)), 2);
    var events :| LawfulRun(k, Start(L.Init, key), events) && Run(k, Start(L.Init, key), events) == y;
    Delivered(k, L.Init, key, events, read);
    Twice(k, y.handoff.host.log, read);
    Snapshot(k);
    var r := L.Reported(PAGE, 1, 1, 1, k.digest([7]), 0, []);
    assert r in L.Reports(y.ledger.inventory, k.owner);
  }
}
