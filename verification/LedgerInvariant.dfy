/** What every step of the ledger keeps. */
module LedgerInvariant {
  import opened Basics
  import opened OrderedMaps
  import opened Ledger

  /** Bytes acknowledged for one artifact, in the order of acceptance. */
  function Concat(log: seq<Acked>, id: ArtifactId): seq<byte> {
    if log == [] then []
    else
      var last := log[|log| - 1];
      Concat(log[..|log| - 1], id) + if last.id == id then last.data else []
  }

  function AckedBytes(log: seq<Acked>): nat {
    if log == [] then 0 else AckedBytes(log[..|log| - 1]) + |log[|log| - 1].data|
  }

  ghost predicate RefsFit(refs: seq<Entry<nat, Ref>>, limit: nat) {
    forall i :: 0 <= i < |refs| ==>
      refs[i].value.offset + refs[i].value.bytes <= limit && RefShape(refs[i].value)
  }

  ghost predicate ArtifactOk(content: map<ArtifactId, seq<byte>>, digest: Digest, id: ArtifactId, a: Artifact) {
    && 0 < |a.bytes| && |a.bytes| + a.offset <= a.observed
    && RefsFit(a.refs, |a.bytes| + a.offset)
    && id in content && |content[id]| == |a.bytes| + a.offset
    && a.bytes == content[id][a.offset..] && a.sha == digest(content[id])
  }

  ghost predicate InventoryOk(h: History, digest: Digest, id: ArtifactId, v: Inventory) {
    && 1 <= v.retained <= v.observed && v.acknowledged <= v.retained
    && RefsFit(v.refs, v.retained)
    && id in h.content && |h.content[id]| == v.retained && v.sha == digest(h.content[id])
    && Concat(h.acked, id) == h.content[id][..v.acknowledged]
  }

  ghost predicate ArtifactsSum(m: seq<Entry<ArtifactId, Artifact>>, held: int, refCount: int) {
    && Distinct(m) && |m| <= SLOTS
    && held == Sum(m, HeldOf) && held <= CAPACITY
    && refCount == Sum(m, RefsOf) && refCount <= SOURCE_REFS
  }

  ghost predicate ArtifactsEach(m: seq<Entry<ArtifactId, Artifact>>, content: map<ArtifactId, seq<byte>>,
                                digest: Digest) {
    forall id :: Has(m, id) ==> ArtifactOk(content, digest, id, Get(m, id))
  }

  ghost predicate Artifacts(s: State, digest: Digest) {
    ArtifactsSum(s.artifacts, s.held, s.refCount) && ArtifactsEach(s.artifacts, s.history.content, digest)
  }

  ghost predicate BeforeFailure(s: State) {
    && s.inventory == [] && s.seen == {} && s.history.acked == []
    && (forall id :: Has(s.artifacts, id) ==> Get(s.artifacts, id).offset == 0)
  }

  ghost predicate InventorySum(m: seq<Entry<ArtifactId, Inventory>>, held: int, retained: int) {
    && Distinct(m) && |m| <= SLOTS
    && retained == Sum(m, RetainedOf) <= CAPACITY
    && held == Sum(m, OutstandingOf)
    && Sum(m, InventoryRefsOf) <= SOURCE_REFS
  }

  ghost predicate InventoryEach(m: seq<Entry<ArtifactId, Inventory>>, h: History, digest: Digest) {
    && (forall id :: Has(m, id) ==> InventoryOk(h, digest, id, Get(m, id)))
    && (forall id :: !Has(m, id) ==> Concat(h.acked, id) == [])
  }

  /** The inventory mirrors every artifact still held, and the rest is fully acknowledged. */
  ghost predicate Mirrors(m: seq<Entry<ArtifactId, Inventory>>, a: seq<Entry<ArtifactId, Artifact>>) {
    && (forall id :: Has(a, id) ==> Has(m, id) && Get(m, id) == Moved(Get(a, id)))
    && (forall id :: Has(m, id) && !Has(a, id) ==> Get(m, id).acknowledged == Get(m, id).retained)
  }

  ghost predicate Reconciled(
    m: seq<Entry<ArtifactId, Inventory>>, a: seq<Entry<ArtifactId, Artifact>>, held: int, retained: int, h: History,
    digest: Digest)
  {
    InventorySum(m, held, retained) && InventoryEach(m, h, digest) && Mirrors(m, a)
  }

  ghost predicate AfterFailure(s: State, digest: Digest) {
    && s.seen == Keys(s.inventory) && s.retainedCount == |s.inventory|
    && Reconciled(s.inventory, s.artifacts, s.held, s.retainedBytes, s.history, digest)
  }

  /** Every byte ever observed is discarded, released, acknowledged or still held. */
  ghost predicate Conserved(s: State) {
    && 0 <= s.discarded
    && s.history.observed == s.discarded + s.history.released + AckedBytes(s.history.acked) + s.held
  }

  ghost predicate Booked(s: State, digest: Digest) {
    Artifacts(s, digest) && if Failed(s) then AfterFailure(s, digest) else BeforeFailure(s)
  }

  ghost predicate Evidence(s: State, digest: Digest) {
    Booked(s, digest) && Conserved(s)
  }

  /** Pending measurement work; only it can still yield a late handle. */
  function MeasureOf(op: Operation): int { if op.state == Pending && !op.retention then 1 else 0 }

  ghost predicate Table(ops: seq<Entry<nat, Operation>>, handles: seq<Entry<nat, Handle>>, ordinal: nat, failed: bool) {
    && Distinct(ops) && |ops| <= SLOTS && Distinct(handles)
    && (forall k: nat :: Has(ops, k) ==> 1 <= k <= ordinal)
    && (forall k: nat :: Has(handles, k) ==> k <= ordinal && !PendingIn(ops, k))
    && if failed then |handles| + Sum(ops, MeasureOf) <= SLOTS else handles == []
  }

  ghost predicate Operations(s: State) {
    && Table(s.ops, s.handles, s.ordinal, Failed(s))
    && (s.busy ==> Failed(s))
    && (s.terminal.Some? ==>
          Failed(s) && !s.busy && !SomePending(s.ops) && s.used == {s.terminal.value.owner})
  }

  ghost predicate Inv(s: State, digest: Digest) {
    Evidence(s, digest) && Operations(s)
  }

  /** What the callers of the ledger guarantee. An artifact is observed at least as long as
      the bytes kept of it, clock readings do not go back, an acknowledged record has a
      legal shape, and `release` runs in the same stretch as the check that failure has not
      begun (its callers come straight from a send, which rejects once failure began). */
  ghost predicate Lawful(s: State, e: Event) {
    match e
    case HoldNow(_, _, bytes, observed, _) => |bytes| <= observed
    case ReleaseNow(id) => !Failed(s) || !Has(s.artifacts, id)
    case DurableAck(id, ref, raw) => RefShape(ref)
    case Finish(_, outcome, _, now, later) => now <= later
        && (outcome.Screenshot? ==> |outcome.bytes| <= outcome.observed)
    case _ => true
  }

  ghost predicate LawfulRun(s: State, digest: Digest, events: seq<Event>)
    decreases |events|
  {
    events == [] || (Lawful(s, events[0]) && LawfulRun(Apply(s, digest, events[0]), digest, events[1..]))
  }

  // ---- failure begins ----

  lemma {:induction false} InventorySums(m: seq<Entry<ArtifactId, Artifact>>)
    requires forall i :: 0 <= i < |m| ==> m[i].value.offset == 0
    ensures Sum(InventoryOf(m), RetainedOf) == Sum(m, HeldOf)
    ensures Sum(InventoryOf(m), OutstandingOf) == Sum(m, HeldOf)
    ensures Sum(InventoryOf(m), InventoryRefsOf) == Sum(m, RefsOf)
  {
    if m != [] {
      assert InventoryOf(m)[1..] == InventoryOf(m[1..]);
      InventorySums(m[1..]);
    }
  }

  lemma {:induction false} InventoryLookup(m: seq<Entry<ArtifactId, Artifact>>, id: ArtifactId)
    ensures Find(InventoryOf(m), id) == Find(m, id)
    ensures Has(m, id) ==> Get(InventoryOf(m), id) == Moved(Get(m, id))
  {
    var r := InventoryOf(m);
    if m != [] {
      assert r[0].key == m[0].key;
      assert r[1..] == InventoryOf(m[1..]);
      InventoryLookup(m[1..], id);
    }
  }

  lemma InventoryKeys(m: seq<Entry<ArtifactId, Artifact>>)
    ensures Keys(InventoryOf(m)) == Keys(m)
  {
    forall id ensures id in Keys(InventoryOf(m)) <==> id in Keys(m) {
      InventoryLookup(m, id);
      HasKeys(m, id);
      HasKeys(InventoryOf(m), id);
    }
  }

  lemma OffsetsZero(s: State)
    requires BeforeFailure(s) && Distinct(s.artifacts)
    ensures forall i :: 0 <= i < |s.artifacts| ==> s.artifacts[i].value.offset == 0
  {
    forall i | 0 <= i < |s.artifacts| ensures s.artifacts[i].value.offset == 0 {
      FindAt(s.artifacts, i);
      assert Has(s.artifacts, s.artifacts[i].key);
    }
  }

  lemma BookedDistinct(s: State, digest: Digest)
    requires Booked(s, digest)
    ensures Distinct(s.artifacts)
  {
  }

  lemma FailKeeps(s: State, digest: Digest, code: string, now: nat)
    requires Booked(s, digest)
    ensures Booked(FailOwnership(s, code, now), digest)
  {
    if !Failed(s) {
      var t := FailOwnership(s, code, now);
      OffsetsZero(s);
      InventorySums(s.artifacts);
      InventoryKeys(s.artifacts);
      forall id ensures Find(t.inventory, id) == Find(s.artifacts, id)
        ensures Has(s.artifacts, id) ==> Get(t.inventory, id) == Moved(Get(s.artifacts, id))
      {
        InventoryLookup(s.artifacts, id);
      }
      assert InventoryEach(t.inventory, t.history, digest);
      assert Mirrors(t.inventory, t.artifacts);
    }
  }

  // ---- hold ----

  lemma PutArtifact(m: seq<Entry<ArtifactId, Artifact>>, held: int, refCount: int, id: ArtifactId, a: Artifact)
    requires ArtifactsSum(m, held, refCount) && !Has(m, id) && |m| < SLOTS
    requires a.refs == [] && held + |a.bytes| <= CAPACITY
    ensures ArtifactsSum(Put(m, id, a), held + |a.bytes|, refCount)
  {
    SumPut(m, id, a, HeldOf);
    SumPut(m, id, a, RefsOf);
  }

  lemma PutArtifactEach(m: seq<Entry<ArtifactId, Artifact>>, content: map<ArtifactId, seq<byte>>, digest: Digest,
                        id: ArtifactId, a: Artifact)
    requires ArtifactsEach(m, content, digest) && !Has(m, id)
    requires ArtifactOk(content[id := a.bytes], digest, id, a)
    ensures ArtifactsEach(Put(m, id, a), content[id := a.bytes], digest)
  {
    forall x | Has(Put(m, id, a), x) ensures ArtifactOk(content[id := a.bytes], digest, x, Get(Put(m, id, a), x)) {
      PutLookup(m, id, a, x);
    }
  }

  lemma PutInventory(m: seq<Entry<ArtifactId, Inventory>>, held: int, retained: int, id: ArtifactId, v: Inventory)
    requires InventorySum(m, held, retained) && !Has(m, id) && |m| < SLOTS
    requires v.refs == [] && v.acknowledged == 0 && retained + v.retained <= CAPACITY
    ensures InventorySum(Put(m, id, v), held + v.retained, retained + v.retained)
  {
    SumPut(m, id, v, RetainedOf);
    SumPut(m, id, v, OutstandingOf);
    SumPut(m, id, v, InventoryRefsOf);
  }

  lemma PutInventoryEach(m: seq<Entry<ArtifactId, Inventory>>, h: History, digest: Digest, id: ArtifactId,
                         v: Inventory, kept: seq<byte>)
    requires InventoryEach(m, h, digest) && !Has(m, id)
    requires InventoryOk(h.(content := h.content[id := kept]), digest, id, v)
    ensures InventoryEach(Put(m, id, v), h.(content := h.content[id := kept]), digest)
  {
    forall x ensures Has(Put(m, id, v), x) <==> x == id || Has(m, x)
      ensures Has(Put(m, id, v), x) ==> Get(Put(m, id, v), x) == if x == id then v else Get(m, x)
    {
      PutLookup(m, id, v, x);
    }
  }

  lemma PutMirrors(m: seq<Entry<ArtifactId, Inventory>>, a: seq<Entry<ArtifactId, Artifact>>, id: ArtifactId,
                   art: Artifact)
    requires Mirrors(m, a)
    ensures Mirrors(Put(m, id, Moved(art)), Put(a, id, art))
  {
    forall x ensures Has(Put(m, id, Moved(art)), x) <==> x == id || Has(m, x)
      ensures Has(Put(a, id, art), x) <==> x == id || Has(a, x)
      ensures Has(Put(m, id, Moved(art)), x) ==>
                Get(Put(m, id, Moved(art)), x) == if x == id then Moved(art) else Get(m, x)
      ensures Has(Put(a, id, art), x) ==> Get(Put(a, id, art), x) == if x == id then art else Get(a, x)
    {
      PutLookup(m, id, Moved(art), x);
      PutLookup(a, id, art, x);
    }
  }

  lemma StoreBeforeFailure(s: State, digest: Digest, owner: Owner, id: ArtifactId, kept: seq<byte>, observed: nat,
                           now: nat)
    requires BeforeFailure(s) && !Failed(s)
    ensures BeforeFailure(Store(s, digest, owner, id, kept, observed, now))
  {
    var a := Artifact(owner, kept, observed, 0, digest(kept), now, []);
    forall x | Has(Put(s.artifacts, id, a), x) ensures Get(Put(s.artifacts, id, a), x).offset == 0 {
      PutLookup(s.artifacts, id, a, x);
    }
  }

  lemma StoreAfterFailure(s: State, digest: Digest, owner: Owner, id: ArtifactId, kept: seq<byte>, observed: nat,
                          now: nat)
    requires AfterFailure(s, digest) && Failed(s)
    requires id !in s.seen && 0 < |kept| <= observed
    requires s.retainedBytes + |kept| <= CAPACITY && s.retainedCount < SLOTS
    ensures AfterFailure(Store(s, digest, owner, id, kept, observed, now), digest)
  {
    var a := Artifact(owner, kept, observed, 0, digest(kept), now, []);
    HasKeys(s.inventory, id);
    PutInventory(s.inventory, s.held, s.retainedBytes, id, Moved(a));
    PutInventoryEach(s.inventory, s.history, digest, id, Moved(a), kept);
    PutKeys(s.inventory, id, Moved(a));
    PutMirrors(s.inventory, s.artifacts, id, a);
  }

  lemma StoreArtifacts(s: State, digest: Digest, owner: Owner, id: ArtifactId, kept: seq<byte>, observed: nat, now: nat)
    requires Artifacts(s, digest)
    requires !Has(s.artifacts, id)
    requires 0 < |kept| <= observed && s.held + |kept| <= CAPACITY && |s.artifacts| < SLOTS
    ensures Artifacts(Store(s, digest, owner, id, kept, observed, now), digest)
  {
    var a := Artifact(owner, kept, observed, 0, digest(kept), now, []);
    PutArtifact(s.artifacts, s.held, s.refCount, id, a);
    assert kept[0..] == kept;
    PutArtifactEach(s.artifacts, s.history.content, digest, id, a);
  }

  lemma AdmittedFits(s: State, digest: Digest, size: nat, now: nat, code: string)
    requires Booked(s, digest)
    ensures
      var count := Admitted(s, size, now);
      var f := FailOwnership(s, code, now);
      count > 0 ==>
        && s.held + count <= CAPACITY && |s.artifacts| < SLOTS
        && f.retainedBytes + count <= CAPACITY && f.retainedCount < SLOTS
  {
    if !Failed(s) {
      OffsetsZero(s);
      InventorySums(s.artifacts);
    }
  }

  lemma CountedKeeps(s: State, digest: Digest, observed: nat, count: nat)
    requires Booked(s, digest)
    ensures Booked(Counted(s, observed, count), digest)
  {
    var t := Counted(s, observed, count);
    assert s.history.acked == t.history.acked && s.history.content == t.history.content;
    assert Artifacts(t, digest);
    if Failed(s) {
      forall id | Has(t.inventory, id) ensures InventoryOk(t.history, digest, id, Get(t.inventory, id)) {
        assert InventoryOk(s.history, digest, id, Get(s.inventory, id));
      }
      assert AfterFailure(t, digest);
    } else {
      assert BeforeFailure(t);
    }
  }

  lemma StoreKeeps(s: State, digest: Digest, owner: Owner, id: ArtifactId, kept: seq<byte>, observed: nat, now: nat)
    requires Booked(s, digest) && !Has(s.artifacts, id) && id !in s.seen
    requires 0 < |kept| <= observed && s.held + |kept| <= CAPACITY && |s.artifacts| < SLOTS
    requires Failed(s) ==> s.retainedBytes + |kept| <= CAPACITY && s.retainedCount < SLOTS
    ensures Booked(Store(s, digest, owner, id, kept, observed, now), digest)
  {
    StoreArtifacts(s, digest, owner, id, kept, observed, now);
    if Failed(s) {
      StoreAfterFailure(s, digest, owner, id, kept, observed, now);
    } else {
      StoreBeforeFailure(s, digest, owner, id, kept, observed, now);
    }
  }

  lemma HoldKeeps(s: State, digest: Digest, owner: Owner, id: ArtifactId, bytes: seq<byte>, observed: nat, now: nat)
    requires Booked(s, digest) && |bytes| <= observed
    ensures Booked(Hold(s, digest, owner, id, bytes, observed, now).0, digest)
  {
    if Holdable(s, id) {
      var count := Admitted(s, |bytes|, now);
      var s1 := Counted(s, observed, count);
      CountedKeeps(s, digest, observed, count);
      FailKeeps(s1, digest, "retention-quota", now);
      AdmittedFits(s1, digest, |bytes|, now, "retention-quota");
      HasKeys(s.artifacts, id);
      var s2 := if count < observed then FailOwnership(s1, "retention-quota", now) else s1;
      if count > 0 {
        StoreKeeps(s2, digest, owner, id, bytes[..count], observed, now);
      }
    }
  }

  lemma HoldConserves(s: State, digest: Digest, owner: Owner, id: ArtifactId, bytes: seq<byte>, observed: nat, now: nat)
    requires Conserved(s) && |bytes| <= observed
    ensures Conserved(Hold(s, digest, owner, id, bytes, observed, now).0)
  {
  }

  // ---- release and source references, before failure ----

  lemma RemoveArtifact(m: seq<Entry<ArtifactId, Artifact>>, held: int, refCount: int, id: ArtifactId)
    requires ArtifactsSum(m, held, refCount) && Has(m, id)
    ensures ArtifactsSum(Remove(m, id), held - |Get(m, id).bytes|, refCount - |Get(m, id).refs|)
  {
    SumRemove(m, id, HeldOf);
    SumRemove(m, id, RefsOf);
  }

  lemma ReleaseKeeps(s: State, digest: Digest, id: ArtifactId)
    requires Booked(s, digest) && (!Failed(s) || !Has(s.artifacts, id))
    ensures Booked(Release(s, id), digest)
  {
    if Has(s.artifacts, id) {
      RemoveArtifact(s.artifacts, s.held, s.refCount, id);
      forall x ensures Has(Remove(s.artifacts, id), x) ==>
          Has(s.artifacts, x) && Get(Remove(s.artifacts, id), x) == Get(s.artifacts, x) {
        RemoveLookup(s.artifacts, id, x);
      }
    }
  }

  lemma RecordKeeps(s: State, digest: Digest, id: ArtifactId, ref: Ref, raw: seq<byte>)
    requires Booked(s, digest) && RefShape(ref)
    ensures Booked(RecordAckSource(s, id, ref, raw), digest)
  {
    if RecordsSource(s, id, ref, raw) {
      var a := Get(s.artifacts, id);
      var b := a.(refs := Put(a.refs, ref.offset, ref));
      SumPut(s.artifacts, id, b, HeldOf);
      SumPut(s.artifacts, id, b, RefsOf);
      assert ArtifactOk(s.history.content, digest, id, a);
      assert ArtifactOk(s.history.content, digest, id, b);
      forall x ensures Has(Put(s.artifacts, id, b), x) ==> Has(s.artifacts, x)
        ensures Has(Put(s.artifacts, id, b), x) ==>
                  Get(Put(s.artifacts, id, b), x) == if x == id then b else Get(s.artifacts, x)
      {
        PutLookup(s.artifacts, id, b, x);
      }
    }
  }

  // ---- receipts ----

  lemma ConsumeSum(m: seq<Entry<ArtifactId, Artifact>>, held: int, refCount: int, id: ArtifactId, n: nat)
    requires ArtifactsSum(m, held, refCount) && Has(m, id) && n <= |Get(m, id).bytes|
    ensures ArtifactsSum(Consume(m, id, n), held - n, if n == |Get(m, id).bytes| then refCount - |Get(m, id).refs|
              else refCount)
  {
    var a := Get(m, id);
    if n == |a.bytes| {
      RemoveArtifact(m, held, refCount, id);
    } else {
      var b := a.(offset := a.offset + n, bytes := a.bytes[n..]);
      SumPut(m, id, b, HeldOf);
      SumPut(m, id, b, RefsOf);
    }
  }

  lemma TailSlices(c: seq<byte>, offset: nat, n: nat)
    requires offset + n <= |c|
    ensures c[offset..][..n] == c[offset..offset + n]
    ensures c[offset..][n..] == c[offset + n..]
    ensures c[..offset + n] == c[..offset] + c[offset..offset + n]
  {
  }

  lemma ConsumeEach(m: seq<Entry<ArtifactId, Artifact>>, content: map<ArtifactId, seq<byte>>, digest: Digest,
                    id: ArtifactId, n: nat)
    requires ArtifactsEach(m, content, digest) && Distinct(m) && Has(m, id) && n <= |Get(m, id).bytes|
    ensures ArtifactsEach(Consume(m, id, n), content, digest)
  {
    var a := Get(m, id);
    if n == |a.bytes| {
      forall x | Has(Remove(m, id), x) ensures ArtifactOk(content, digest, x, Get(Remove(m, id), x)) {
        RemoveLookup(m, id, x);
      }
    } else {
      var b := a.(offset := a.offset + n, bytes := a.bytes[n..]);
      assert ArtifactOk(content, digest, id, b) by {
        assert ArtifactOk(content, digest, id, a);
        TailSlices(content[id], a.offset, n);
      }
      forall x | Has(Put(m, id, b), x) ensures ArtifactOk(content, digest, x, Get(Put(m, id, b), x)) {
        PutLookup(m, id, b, x);
      }
    }
  }

  /** The fields an accepted receipt writes. */
  lemma AdvanceFields(s: State, digest: Digest, owner: Owner, id: ArtifactId)
    requires Readable(s, owner, id) && Has(s.inventory, id)
    ensures
      var t := Advance(s, digest, owner, id);
      var a := Get(s.artifacts, id);
      var n := Min(CHUNK, |a.bytes|);
      && t.artifacts == Consume(s.artifacts, id, n)
      && t.inventory == Put(s.inventory, id, Get(s.inventory, id).(acknowledged := a.offset + n))
      && t.held == s.held - n
      && t.refCount == (if n == |a.bytes| then s.refCount - |a.refs| else s.refCount)
      && t.history == s.history.(acked := s.history.acked + [Acked(id, a.offset, a.bytes[..n])])
      && t == s.(artifacts := t.artifacts, inventory := t.inventory, held := t.held, refCount := t.refCount,
           history := t.history)
  {
  }

  lemma AdvanceArtifacts(s: State, digest: Digest, owner: Owner, id: ArtifactId)
    requires Artifacts(s, digest) && Readable(s, owner, id) && Has(s.inventory, id)
    ensures Artifacts(Advance(s, digest, owner, id), digest)
  {
    var n := Min(CHUNK, |Get(s.artifacts, id).bytes|);
    AdvanceFields(s, digest, owner, id);
    ConsumeSum(s.artifacts, s.held, s.refCount, id, n);
    ConsumeEach(s.artifacts, s.history.content, digest, id, n);
  }

  lemma ConcatAppend(log: seq<Acked>, c: Acked, id: ArtifactId)
    ensures Concat(log + [c], id) == Concat(log, id) + if c.id == id then c.data else []
  {
    assert (log + [c])[..|log|] == log;
  }

  lemma AckedAppend(log: seq<Acked>, c: Acked)
    ensures AckedBytes(log + [c]) == AckedBytes(log) + |c.data|
  {
    assert (log + [c])[..|log|] == log;
  }

  lemma AdvanceInventory(m: seq<Entry<ArtifactId, Inventory>>, held: int, retained: int, id: ArtifactId,
                         acknowledged: nat)
    requires InventorySum(m, held, retained) && Has(m, id)
    ensures InventorySum(Put(m, id, Get(m, id).(acknowledged := acknowledged)),
              held - (acknowledged - Get(m, id).acknowledged), retained)
  {
    var v := Get(m, id).(acknowledged := acknowledged);
    SumPut(m, id, v, RetainedOf);
    SumPut(m, id, v, OutstandingOf);
    SumPut(m, id, v, InventoryRefsOf);
  }

  lemma AdvanceInventoryEach(m: seq<Entry<ArtifactId, Inventory>>, h: History, digest: Digest, id: ArtifactId,
                             data: seq<byte>)
    requires InventoryEach(m, h, digest) && Has(m, id)
    requires Get(m, id).acknowledged + |data| <= Get(m, id).retained
    requires id in h.content && Get(m, id).acknowledged + |data| <= |h.content[id]|
    requires data == h.content[id][Get(m, id).acknowledged..Get(m, id).acknowledged + |data|]
    ensures
      var v := Get(m, id);
      InventoryEach(Put(m, id, v.(acknowledged := v.acknowledged + |data|)),
                    h.(acked := h.acked + [Acked(id, v.acknowledged, data)]), digest)
  {
    var v := Get(m, id);
    var w := v.(acknowledged := v.acknowledged + |data|);
    var r := Put(m, id, w);
    var g := h.(acked := h.acked + [Acked(id, v.acknowledged, data)]);
    assert InventoryOk(h, digest, id, v);
    assert h.content[id][..w.acknowledged] == h.content[id][..v.acknowledged] + data;
    forall x ensures Has(r, x) ==> InventoryOk(g, digest, x, Get(r, x))
      ensures !Has(r, x) ==> Concat(g.acked, x) == []
    {
      PutLookup(m, id, w, x);
      ConcatAppend(h.acked, Acked(id, v.acknowledged, data), x);
      if Has(m, x) {
        assert InventoryOk(h, digest, x, Get(m, x));
      }
    }
  }

  lemma RemoveMirrors(m: seq<Entry<ArtifactId, Inventory>>, a: seq<Entry<ArtifactId, Artifact>>, id: ArtifactId,
                      v: Inventory)
    requires Mirrors(m, a) && Has(a, id) && Distinct(a) && v.acknowledged == v.retained
    ensures Mirrors(Put(m, id, v), Remove(a, id))
  {
    var r, q := Put(m, id, v), Remove(a, id);
    forall x ensures Has(q, x) ==> Has(r, x) && Get(r, x) == Moved(Get(q, x))
      ensures Has(r, x) && !Has(q, x) ==> Get(r, x).acknowledged == Get(r, x).retained
    {
      RemoveLookup(a, id, x);
      PutLookup(m, id, v, x);
    }
  }

  lemma MovedAfter(a: Artifact, n: nat)
    requires n <= |a.bytes|
    ensures Moved(a.(offset := a.offset + n, bytes := a.bytes[n..])) == Moved(a).(acknowledged := a.offset + n)
  {
  }

  lemma AdvanceMirrors(m: seq<Entry<ArtifactId, Inventory>>, a: seq<Entry<ArtifactId, Artifact>>, id: ArtifactId,
                       n: nat)
    requires Mirrors(m, a) && Has(a, id) && n <= |Get(a, id).bytes| && Distinct(a)
    requires Has(m, id) && Get(m, id) == Moved(Get(a, id))
    ensures Mirrors(Put(m, id, Get(m, id).(acknowledged := Get(a, id).offset + n)), Consume(a, id, n))
  {
    hide Mirrors, Put, Remove, Get, Find, Distinct, Has;
    var art := Get(a, id);
    MovedAfter(art, n);
    if n == |art.bytes| {
      RemoveMirrors(m, a, id, Moved(art).(acknowledged := art.offset + n));
    } else {
      PutMirrors(m, a, id, art.(offset := art.offset + n, bytes := art.bytes[n..]));
    }
  }

  lemma AdvanceInventoryOnce(m: seq<Entry<ArtifactId, Inventory>>, h: History, digest: Digest, id: ArtifactId,
                             a: Artifact, n: nat)
    requires InventoryEach(m, h, digest) && Has(m, id) && Get(m, id) == Moved(a)
    requires ArtifactOk(h.content, digest, id, a) && n <= |a.bytes|
    ensures InventoryEach(Put(m, id, Get(m, id).(acknowledged := a.offset + n)),
                          h.(acked := h.acked + [Acked(id, a.offset, a.bytes[..n])]), digest)
  {
    TailSlices(h.content[id], a.offset, n);
    AdvanceInventoryEach(m, h, digest, id, a.bytes[..n]);
  }

  lemma MirrorsAt(m: seq<Entry<ArtifactId, Inventory>>, a: seq<Entry<ArtifactId, Artifact>>, id: ArtifactId)
    requires Mirrors(m, a) && Has(a, id)
    ensures Has(m, id) && Get(m, id) == Moved(Get(a, id))
  {
  }

  lemma AdvanceReconciled(
    m: seq<Entry<ArtifactId, Inventory>>, a: seq<Entry<ArtifactId, Artifact>>, held: int, retained: int, h: History,
    digest: Digest, id: ArtifactId, n: nat)
    requires Reconciled(m, a, held, retained, h, digest) && Distinct(a) && Has(a, id)
    requires ArtifactOk(h.content, digest, id, Get(a, id)) && n <= |Get(a, id).bytes|
    ensures Has(m, id)
    ensures
      var art := Get(a, id);
      Reconciled(Put(m, id, Get(m, id).(acknowledged := art.offset + n)), Consume(a, id, n), held - n, retained,
                 h.(acked := h.acked + [Acked(id, art.offset, art.bytes[..n])]), digest)
  {
    hide InventoryEach, InventorySum, Mirrors, Put, Consume, Has, Get, Find, ArtifactOk, Distinct;
    MirrorsAt(m, a, id);
    AdvanceInventory(m, held, retained, id, Get(a, id).offset + n);
    AdvanceInventoryOnce(m, h, digest, id, Get(a, id), n);
    AdvanceMirrors(m, a, id, n);
  }

  lemma AdvanceAfterFailure(s: State, digest: Digest, owner: Owner, id: ArtifactId)
    requires Booked(s, digest) && Readable(s, owner, id)
    ensures Has(s.inventory, id) && AfterFailure(Advance(s, digest, owner, id), digest)
  {
    var n := Min(CHUNK, |Get(s.artifacts, id).bytes|);
    AdvanceReconciled(s.inventory, s.artifacts, s.held, s.retainedBytes, s.history, digest, id, n);
    AdvanceFields(s, digest, owner, id);
    PutKeys(s.inventory, id, Get(s.inventory, id).(acknowledged := Get(s.artifacts, id).offset + n));
    HasKeys(s.inventory, id);
  }

  lemma AcknowledgeKeeps(s: State, digest: Digest, owner: Owner, r: Receipt)
    requires Evidence(s, digest)
    ensures Evidence(Acknowledge(s, digest, owner, r).0, digest)
    ensures Acknowledge(s, digest, owner, r).1.Ok? <==> Accepts(s, digest, owner, r)
  {
    if Accepts(s, digest, owner, r) {
      AdvanceAfterFailure(s, digest, owner, r.id);
      AdvanceArtifacts(s, digest, owner, r.id);
      var row := ReadChunk(s, digest, owner, r.id);
      AckedAppend(s.history.acked, Acked(r.id, Get(s.artifacts, r.id).offset, row.data));
    }
  }
}
