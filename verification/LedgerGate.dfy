/** Exactly when a reachable snapshot passes the wire gate, and that tidy runs always do. */
module LedgerGate {
  import opened Basics
  import opened OrderedMaps
  import opened Ledger
  import opened LedgerInvariant
  import opened LedgerRuns
  import opened LedgerTheorems

  lemma {:induction false} TotalCons(r: Reported, rows: seq<Reported>, f: Reported -> int)
    ensures Total([r] + rows, f) == f(r) + Total(rows, f)
  {
    if rows == [] {
      assert [r] + rows == [r];
    } else {
      assert ([r] + rows)[..|rows|] == [r] + rows[..|rows| - 1];
      TotalCons(r, rows[..|rows| - 1], f);
    }
  }

  lemma {:induction false} CoveredFacts(refs: seq<Entry<nat, Ref>>, acknowledged: nat)
    ensures |Covered(refs, acknowledged)| <= |refs|
    ensures forall i :: 0 <= i < |Covered(refs, acknowledged)| ==>
              var r := Covered(refs, acknowledged)[i];
              r.offset + r.bytes <= acknowledged && exists j :: 0 <= j < |refs| && refs[j].value == r
  {
    if refs != [] {
      CoveredFacts(refs[1..], acknowledged);
      var c := Covered(refs[1..], acknowledged);
      forall i | 0 <= i < |c| ensures exists j :: 0 <= j < |refs| && refs[j].value == c[i] {
        var j :| 0 <= j < |refs[1..]| && refs[1..][j].value == c[i];
        assert refs[j + 1].value == c[i];
      }
      if Covered(refs, acknowledged) != c {
        assert refs[0].value == Covered(refs, acknowledged)[0];
      }
    }
  }

  /** References recorded front to back, without overlap. */
  ghost predicate Sequential(refs: seq<Entry<nat, Ref>>) {
    forall i, j :: 0 <= i < j < |refs| ==> refs[i].value.offset + refs[i].value.bytes <= refs[j].value.offset
  }

  predicate Within(r: Ref, acknowledged: nat) { r.offset + r.bytes <= acknowledged }

  /** Of two references inside the acknowledged prefix, the one recorded first ends at or before
      the start of the other. */
  ghost predicate Arrived(refs: seq<Entry<nat, Ref>>, acknowledged: nat) {
    forall i, j :: 0 <= i < j < |refs| && Within(refs[i].value, acknowledged) && Within(refs[j].value, acknowledged) ==>
      refs[i].value.offset + refs[i].value.bytes <= refs[j].value.offset
  }

  lemma ArrivedTail(refs: seq<Entry<nat, Ref>>, acknowledged: nat)
    requires refs != []
    ensures Arrived(refs, acknowledged) <==>
              && Arrived(refs[1..], acknowledged)
              && (Within(refs[0].value, acknowledged) ==>
                    forall j :: 0 < j < |refs| && Within(refs[j].value, acknowledged) ==>
                      refs[0].value.offset + refs[0].value.bytes <= refs[j].value.offset)
  {
    var rest := refs[1..];
    assert forall i :: 0 <= i < |rest| ==> rest[i] == refs[i + 1];
    if Arrived(rest, acknowledged) {
      forall i, j | 0 < i < j < |refs| && Within(refs[i].value, acknowledged) && Within(refs[j].value, acknowledged)
        ensures refs[i].value.offset + refs[i].value.bytes <= refs[j].value.offset
      {
        assert rest[i - 1] == refs[i] && rest[j - 1] == refs[j];
      }
    }
  }

  lemma {:induction false} CoveredIs(refs: seq<Entry<nat, Ref>>, acknowledged: nat, j: nat)
    requires j < |refs| && Within(refs[j].value, acknowledged)
    ensures refs[j].value in Covered(refs, acknowledged)
    decreases |refs|
  {
    if j > 0 {
      assert refs[1..][j - 1] == refs[j];
      CoveredIs(refs[1..], acknowledged, j - 1);
    }
  }

  /** What the gate checks of the reported references is exactly that they arrived in order. */
  lemma {:induction false} ArrivedIff(refs: seq<Entry<nat, Ref>>, acknowledged: nat)
    ensures RefsInRange(Covered(refs, acknowledged), acknowledged) <==> Arrived(refs, acknowledged)
    decreases |refs|
  {
    if refs != [] {
      var rest := refs[1..];
      var c := Covered(rest, acknowledged);
      ArrivedIff(rest, acknowledged);
      ArrivedTail(refs, acknowledged);
      if Within(refs[0].value, acknowledged) {
        HeadInRange(refs[0].value, c, acknowledged);
        HeadBefore(refs, acknowledged);
      } else {
        assert Covered(refs, acknowledged) == c;
      }
    }
  }

  lemma HeadInRange(r: Ref, c: seq<Ref>, acknowledged: nat)
    requires Within(r, acknowledged)
    ensures RefsInRange([r] + c, acknowledged) <==>
              RefsInRange(c, acknowledged) && forall i :: 0 <= i < |c| ==> r.offset + r.bytes <= c[i].offset
  {
    var all := [r] + c;
    assert forall i :: 0 <= i < |c| ==> all[i + 1] == c[i];
    if RefsInRange(all, acknowledged) {
      forall i, j | 0 <= i < j < |c| ensures c[i].offset + c[i].bytes <= c[j].offset {
        assert all[i + 1].offset + all[i + 1].bytes <= all[j + 1].offset;
      }
      forall i | 0 <= i < |c| ensures r.offset + r.bytes <= c[i].offset && c[i].offset + c[i].bytes <= acknowledged {
        assert all[0].offset + all[0].bytes <= all[i + 1].offset
            && all[i + 1].offset + all[i + 1].bytes <= acknowledged;
      }
    }
  }

  /** The first reference precedes every covered one exactly when it precedes every one that
      lies inside the prefix. */
  lemma HeadBefore(refs: seq<Entry<nat, Ref>>, acknowledged: nat)
    requires refs != []
    ensures
      var r, c := refs[0].value, Covered(refs[1..], acknowledged);
      (forall i :: 0 <= i < |c| ==> r.offset + r.bytes <= c[i].offset) <==>
        forall j :: 0 < j < |refs| && Within(refs[j].value, acknowledged) ==> r.offset + r.bytes <= refs[j].value.offset
  {
    var r, rest := refs[0].value, refs[1..];
    var c := Covered(rest, acknowledged);
    CoveredFacts(rest, acknowledged);
    if forall i :: 0 <= i < |c| ==> r.offset + r.bytes <= c[i].offset {
      forall j | 0 < j < |refs| && Within(refs[j].value, acknowledged)
        ensures r.offset + r.bytes <= refs[j].value.offset
      {
        assert rest[j - 1] == refs[j];
        CoveredIs(rest, acknowledged, j - 1);
        var i :| 0 <= i < |c| && c[i] == refs[j].value;
      }
    }
    if forall j :: 0 < j < |refs| && Within(refs[j].value, acknowledged) ==>
        r.offset + r.bytes <= refs[j].value.offset {
      forall i | 0 <= i < |c| ensures r.offset + r.bytes <= c[i].offset {
        var j :| 0 <= j < |rest| && rest[j].value == c[i];
        assert refs[j + 1] == rest[j];
      }
    }
  }

  /** Unacknowledged bytes of artifacts that belong to somebody else. */
  function Foreign(m: seq<Entry<ArtifactId, Inventory>>, owner: Owner): int {
    if m == [] then 0
    else (if m[0].value.owner == owner then 0 else OutstandingOf(m[0].value)) + Foreign(m[1..], owner)
  }

  lemma {:induction false} ReportSums(m: seq<Entry<ArtifactId, Inventory>>, owner: Owner)
    ensures Total(Reports(m, owner), ReportedHeld) + Foreign(m, owner) == Sum(m, OutstandingOf)
    ensures Total(Reports(m, owner), ReportedRetained) <= Sum(m, RetainedOf)
    ensures Total(Reports(m, owner), ReportedRefs) <= Sum(m, InventoryRefsOf)
    ensures |Reports(m, owner)| <= |m|
  {
    if m != [] {
      ReportSums(m[1..], owner);
      CoveredFacts(m[0].value.refs, m[0].value.acknowledged);
      if m[0].value.owner == owner {
        TotalCons(Report(m[0]), Reports(m[1..], owner), ReportedHeld);
        TotalCons(Report(m[0]), Reports(m[1..], owner), ReportedRetained);
        TotalCons(Report(m[0]), Reports(m[1..], owner), ReportedRefs);
      } else {
        assert Reports(m, owner) == Reports(m[1..], owner);
      }
    }
  }

  ghost predicate IsReport(m: seq<Entry<ArtifactId, Inventory>>, owner: Owner, r: Reported) {
    exists j :: 0 <= j < |m| && m[j].value.owner == owner && r == Report(m[j])
  }

  lemma {:induction false} ReportRows(m: seq<Entry<ArtifactId, Inventory>>, owner: Owner)
    ensures forall r :: r in Reports(m, owner) <==> IsReport(m, owner, r)
  {
    if m != [] {
      ReportRows(m[1..], owner);
      forall r ensures r in Reports(m, owner) <==> IsReport(m, owner, r) {
        if r in Reports(m[1..], owner) {
          var j :| 0 <= j < |m[1..]| && m[1..][j].value.owner == owner && r == Report(m[1..][j]);
          assert m[j + 1] == m[1..][j];
        } else if r in Reports(m, owner) {
          assert r == Report(m[0]);
        }
        if IsReport(m, owner, r) {
          var j :| 0 <= j < |m| && m[j].value.owner == owner && r == Report(m[j]);
          if j > 0 {
            assert m[1..][j - 1] == m[j];
            assert IsReport(m[1..], owner, r);
          }
        }
      }
    }
  }

  lemma {:induction false} ReportIds(m: seq<Entry<ArtifactId, Inventory>>, owner: Owner)
    requires Distinct(m)
    ensures DistinctIds(Reports(m, owner))
  {
    if m != [] {
      ReportIds(m[1..], owner);
      ReportRows(m[1..], owner);
      var rest := Reports(m[1..], owner);
      forall i | 0 <= i < |rest| ensures rest[i].id != m[0].key {
        assert rest[i] in rest;
        assert IsReport(m[1..], owner, rest[i]);
        var j :| 0 <= j < |m[1..]| && m[1..][j].value.owner == owner && rest[i] == Report(m[1..][j]);
        assert m[j + 1] == m[1..][j];
      }
      var r := Reports(m, owner);
      if m[0].value.owner == owner {
        assert r[0].id == m[0].key && r[1..] == rest;
        forall i, j | 0 <= i < j < |r| ensures r[i].id != r[j].id {
          assert r[j] == r[1..][j - 1] == rest[j - 1];
          if i > 0 {
            assert r[i] == r[1..][i - 1] == rest[i - 1];
          }
        }
      } else {
        assert r == rest;
      }
    }
  }

  ghost predicate ForeignSettled(m: seq<Entry<ArtifactId, Inventory>>, owner: Owner) {
    forall i :: 0 <= i < |m| && m[i].value.owner != owner ==> m[i].value.acknowledged == m[i].value.retained
  }

  lemma {:induction false} ForeignZero(m: seq<Entry<ArtifactId, Inventory>>, owner: Owner)
    requires forall i :: 0 <= i < |m| ==> m[i].value.acknowledged <= m[i].value.retained
    ensures Foreign(m, owner) >= 0
    ensures Foreign(m, owner) == 0 <==> ForeignSettled(m, owner)
  {
    if m != [] {
      ForeignZero(m[1..], owner);
      assert forall i :: 0 <= i < |m[1..]| ==> m[1..][i] == m[i + 1];
      if ForeignSettled(m[1..], owner) && (m[0].value.owner == owner || OutstandingOf(m[0].value) == 0) {
        forall i | 0 <= i < |m| && m[i].value.owner != owner ensures m[i].value.acknowledged == m[i].value.retained {
          if i > 0 {
            assert m[1..][i - 1] == m[i];
          }
        }
      }
    }
  }

  /** The acknowledged references of every artifact of `owner` run front to back. */
  ghost predicate SourcesOrdered(m: seq<Entry<ArtifactId, Inventory>>, owner: Owner) {
    forall i :: 0 <= i < |m| && m[i].value.owner == owner ==>
      RefsInRange(Covered(m[i].value.refs, m[i].value.acknowledged), m[i].value.acknowledged)
  }

  /** The same by arrival: what a caller can see before asking for a snapshot. */
  ghost predicate ArrivedInOrder(m: seq<Entry<ArtifactId, Inventory>>, owner: Owner) {
    forall i :: 0 <= i < |m| && m[i].value.owner == owner ==> Arrived(m[i].value.refs, m[i].value.acknowledged)
  }

  lemma SourcesArrived(m: seq<Entry<ArtifactId, Inventory>>, owner: Owner)
    ensures SourcesOrdered(m, owner) <==> ArrivedInOrder(m, owner)
  {
    hide Arrived, RefsInRange;
    forall i | 0 <= i < |m|
      ensures RefsInRange(Covered(m[i].value.refs, m[i].value.acknowledged), m[i].value.acknowledged) <==>
                Arrived(m[i].value.refs, m[i].value.acknowledged)
    {
      ArrivedIff(m[i].value.refs, m[i].value.acknowledged);
    }
  }

  lemma InventoryIndexed(s: State, digest: Digest)
    requires Booked(s, digest) && Failed(s)
    ensures forall i :: 0 <= i < |s.inventory| ==>
              InventoryOk(s.history, digest, s.inventory[i].key, s.inventory[i].value)
  {
    forall i | 0 <= i < |s.inventory| ensures InventoryOk(s.history, digest, s.inventory[i].key, s.inventory[i].value) {
      FindAt(s.inventory, i);
      assert Has(s.inventory, s.inventory[i].key);
    }
  }

  lemma RowOk(v: Inventory, id: ArtifactId)
    requires 1 <= v.retained <= v.observed && v.acknowledged <= v.retained <= CAPACITY && |v.refs| <= SOURCE_REFS
    requires RefsFit(v.refs, v.retained)
    ensures RowShape(Report(Entry(id, v)))
    ensures RowTotals(Report(Entry(id, v))) <==> RefsInRange(Covered(v.refs, v.acknowledged), v.acknowledged)
  {
    CoveredFacts(v.refs, v.acknowledged);
  }

  lemma EachBounded(s: State, digest: Digest, i: nat)
    requires Booked(s, digest) && Failed(s) && i < |s.inventory|
    ensures s.inventory[i].value.retained <= CAPACITY && |s.inventory[i].value.refs| <= SOURCE_REFS
  {
    FindAt(s.inventory, i);
    SumAtLeast(s.inventory, s.inventory[i].key, RetainedOf);
    SumAtLeast(s.inventory, s.inventory[i].key, InventoryRefsOf);
  }

  /** A row is the report of an inventory entry of the owner, and the other way round. */
  lemma RowSource(m: seq<Entry<ArtifactId, Inventory>>, owner: Owner, i: nat) returns (j: nat)
    requires i < |Reports(m, owner)|
    ensures j < |m| && m[j].value.owner == owner && Reports(m, owner)[i] == Report(m[j])
  {
    hide Report, Reports;
    ReportRows(m, owner);
    var rows := Reports(m, owner);
    assert rows[i] in rows;
    assert IsReport(m, owner, rows[i]);
    j :| 0 <= j < |m| && m[j].value.owner == owner && rows[i] == Report(m[j]);
  }

  lemma SourceRow(m: seq<Entry<ArtifactId, Inventory>>, owner: Owner, j: nat) returns (i: nat)
    requires j < |m| && m[j].value.owner == owner
    ensures i < |Reports(m, owner)| && Reports(m, owner)[i] == Report(m[j])
  {
    hide Report, Reports;
    ReportRows(m, owner);
    assert IsReport(m, owner, Report(m[j]));
    i :| 0 <= i < |Reports(m, owner)| && Reports(m, owner)[i] == Report(m[j]);
  }

  lemma RowsOk(s: State, digest: Digest, owner: Owner)
    requires Booked(s, digest) && Failed(s)
    ensures
      var rows := Reports(s.inventory, owner);
      && (forall i :: 0 <= i < |rows| ==> RowShape(rows[i]))
      && ((forall i :: 0 <= i < |rows| ==> RowTotals(rows[i])) <==> SourcesOrdered(s.inventory, owner))
  {
    hide RowShape, RowTotals, Booked, RefsInRange, Covered, Report, Reports;
    var rows := Reports(s.inventory, owner);
    forall i | 0 <= i < |rows|
      ensures RowShape(rows[i]) ensures SourcesOrdered(s.inventory, owner) ==> RowTotals(rows[i])
    {
      var j := RowSource(s.inventory, owner, i);
      OneRow(s, digest, j);
    }
    if forall i :: 0 <= i < |rows| ==> RowTotals(rows[i]) {
      forall j | 0 <= j < |s.inventory| && s.inventory[j].value.owner == owner
        ensures RefsInRange(Covered(s.inventory[j].value.refs, s.inventory[j].value.acknowledged),
                  s.inventory[j].value.acknowledged)
      {
        var i := SourceRow(s.inventory, owner, j);
        assert RowTotals(rows[i]);
        OneRow(s, digest, j);
      }
    }
  }

  lemma OneRow(s: State, digest: Digest, j: nat)
    requires Booked(s, digest) && Failed(s) && j < |s.inventory|
    ensures RowShape(Report(s.inventory[j]))
    ensures RowTotals(Report(s.inventory[j])) <==>
              RefsInRange(Covered(s.inventory[j].value.refs, s.inventory[j].value.acknowledged),
                  s.inventory[j].value.acknowledged)
  {
    EachBounded(s, digest, j);
    InventoryIndexed(s, digest);
    RowOk(s.inventory[j].value, s.inventory[j].key);
  }

  /** A reachable snapshot passes the gate exactly when no foreign artifact holds bytes and
      the references inside the acknowledged prefixes arrived in order; every other check
      always passes. */
  lemma GateIff(s: State, digest: Digest, owner: Owner, now: nat)
    requires Inv(s, digest) && Failed(s)
    ensures GateOk(SnapshotOf(s, owner, now)) <==>
              ForeignSettled(s.inventory, owner) && ArrivedInOrder(s.inventory, owner)
  {
    hide RowShape, RowTotals, InventoryOk, SourcesOrdered, ForeignSettled, ArrivedInOrder;
    SourcesArrived(s.inventory, owner);
    ReportSums(s.inventory, owner);
    ReportIds(s.inventory, owner);
    RowsOk(s, digest, owner);
    OutstandingSigns(s, digest);
    ForeignZero(s.inventory, owner);
    MeasureBound(s.ops);
    SumNonNegative(s.artifacts, HeldOf);
  }

  lemma OutstandingSigns(s: State, digest: Digest)
    requires Booked(s, digest) && Failed(s)
    ensures forall i :: 0 <= i < |s.inventory| ==> s.inventory[i].value.acknowledged <= s.inventory[i].value.retained
  {
    InventoryIndexed(s, digest);
  }

  // ---- one owner ----

  /** Everything belongs to `owner`; when `strict`, references were also recorded front to back. */
  ghost predicate TidyArtifacts(m: seq<Entry<ArtifactId, Artifact>>, owner: Owner, strict: bool) {
    forall id :: Has(m, id) ==> Get(m, id).owner == owner && Neat(Get(m, id).refs, strict)
  }

  ghost predicate TidyInventory(m: seq<Entry<ArtifactId, Inventory>>, owner: Owner, strict: bool) {
    forall id :: Has(m, id) ==> Get(m, id).owner == owner && Neat(Get(m, id).refs, strict)
  }

  ghost predicate Neat(refs: seq<Entry<nat, Ref>>, strict: bool) { strict ==> Sequential(refs) }

  ghost predicate TidyOps(m: seq<Entry<nat, Operation>>, owner: Owner) {
    forall k: nat :: Has(m, k) ==> Get(m, k).owner == owner
  }

  ghost predicate Tidy(s: State, owner: Owner, strict: bool) {
    TidyArtifacts(s.artifacts, owner, strict) && TidyInventory(s.inventory, owner, strict) && TidyOps(s.ops, owner)
  }

  /** One command only; when `strict`, its records are also acknowledged front to back, as the
      capture and trace loops send them. */
  ghost predicate TidyEvent(s: State, e: Event, owner: Owner, strict: bool) {
    match e
    case HoldNow(o, _, _, _, _) => o == owner
    case Begin(o, _, _, _, _, _) => o == owner
    case Drain(o, _, _) => o == owner
    case DurableAck(id, ref, raw) =>
      strict && RecordsSource(s, id, ref, raw) ==>
        var refs := Get(s.artifacts, id).refs;
        forall i :: 0 <= i < |refs| ==> refs[i].value.offset + refs[i].value.bytes <= ref.offset
    case _ => true
  }

  ghost predicate TidyRun(s: State, digest: Digest, events: seq<Event>, owner: Owner, strict: bool)
    decreases |events|
  {
    events == [] || (TidyEvent(s, events[0], owner, strict)
        && TidyRun(Apply(s, digest, events[0]), digest, events[1..], owner, strict))
  }

  lemma TidyPut(m: seq<Entry<ArtifactId, Artifact>>, owner: Owner, id: ArtifactId, a: Artifact, strict: bool)
    requires TidyArtifacts(m, owner, strict) && a.owner == owner && Neat(a.refs, strict)
    ensures TidyArtifacts(Put(m, id, a), owner, strict)
  {
    forall x | Has(Put(m, id, a), x)
      ensures Get(Put(m, id, a), x).owner == owner && Neat(Get(Put(m, id, a), x).refs, strict)
    {
      PutLookup(m, id, a, x);
    }
  }

  lemma TidyRemove(m: seq<Entry<ArtifactId, Artifact>>, owner: Owner, id: ArtifactId, strict: bool)
    requires TidyArtifacts(m, owner, strict) && Distinct(m)
    ensures TidyArtifacts(Remove(m, id), owner, strict)
  {
    forall x | Has(Remove(m, id), x)
      ensures Get(Remove(m, id), x).owner == owner && Neat(Get(Remove(m, id), x).refs, strict)
    {
      RemoveLookup(m, id, x);
    }
  }

  lemma TidyPutInventory(m: seq<Entry<ArtifactId, Inventory>>, owner: Owner, id: ArtifactId, v: Inventory, strict: bool)
    requires TidyInventory(m, owner, strict) && v.owner == owner && Neat(v.refs, strict)
    ensures TidyInventory(Put(m, id, v), owner, strict)
  {
    forall x | Has(Put(m, id, v), x)
      ensures Get(Put(m, id, v), x).owner == owner && Neat(Get(Put(m, id, v), x).refs, strict)
    {
      PutLookup(m, id, v, x);
    }
  }

  lemma TidyFail(s: State, owner: Owner, code: string, now: nat, strict: bool)
    requires Tidy(s, owner, strict)
    ensures Tidy(FailOwnership(s, code, now), owner, strict)
  {
    if !Failed(s) {
      forall id | Has(InventoryOf(s.artifacts), id)
        ensures Get(InventoryOf(s.artifacts), id).owner == owner && Neat(Get(InventoryOf(s.artifacts), id).refs, strict)
      {
        InventoryLookup(s.artifacts, id);
      }
    }
  }

  lemma TidyHold(s: State, digest: Digest, owner: Owner, id: ArtifactId, bytes: seq<byte>, observed: nat, now: nat,
                 strict: bool)
    requires Tidy(s, owner, strict)
    ensures Tidy(Hold(s, digest, owner, id, bytes, observed, now).0, owner, strict)
  {
    hide TidyArtifacts, TidyInventory, TidyOps;
    if Holdable(s, id) {
      var count := Admitted(s, |bytes|, now);
      var s1 := Counted(s, observed, count);
      TidyFail(s1, owner, "retention-quota", now, strict);
      var s2 := if count < observed then FailOwnership(s1, "retention-quota", now) else s1;
      var a := Artifact(owner, bytes[..count], observed, 0, digest(bytes[..count]), now, []);
      TidyPut(s2.artifacts, owner, id, a, strict);
      TidyPutInventory(s2.inventory, owner, id, Moved(a), strict);
    }
  }

  lemma TidyAcknowledge(s: State, digest: Digest, owner: Owner, r: Receipt, strict: bool)
    requires Tidy(s, owner, strict) && Distinct(s.artifacts)
    ensures Tidy(Acknowledge(s, digest, owner, r).0, owner, strict)
  {
    if Acknowledge(s, digest, owner, r).1.Ok? {
      var a := Get(s.artifacts, r.id);
      var v := Get(s.inventory, r.id);
      assert Neat(a.refs, strict) && Neat(v.refs, strict) && a.owner == owner && v.owner == owner;
      hide TidyArtifacts, TidyInventory, TidyOps;
      var n := Min(CHUNK, |a.bytes|);
      AdvanceFields(s, digest, owner, r.id);
      TidyRemove(s.artifacts, owner, r.id, strict);
      TidyPut(s.artifacts, owner, r.id, a.(offset := a.offset + n, bytes := a.bytes[n..]), strict);
      TidyPutInventory(s.inventory, owner, r.id, v.(acknowledged := a.offset + n), strict);
    }
  }

  lemma TidyRecord(s: State, owner: Owner, id: ArtifactId, ref: Ref, raw: seq<byte>, strict: bool)
    requires Tidy(s, owner, strict) && TidyEvent(s, DurableAck(id, ref, raw), owner, strict)
    ensures Tidy(RecordAckSource(s, id, ref, raw), owner, strict)
  {
    if RecordsSource(s, id, ref, raw) {
      var a := Get(s.artifacts, id);
      TidyPut(s.artifacts, owner, id, a.(refs := Put(a.refs, ref.offset, ref)), strict);
    }
  }

  lemma TidyPutOp(m: seq<Entry<nat, Operation>>, owner: Owner, id: nat, op: Operation)
    requires TidyOps(m, owner) && op.owner == owner
    ensures TidyOps(Put(m, id, op), owner)
  {
    forall k: nat | Has(Put(m, id, op), k) ensures Get(Put(m, id, op), k).owner == owner {
      PutLookup(m, id, op, k);
    }
  }

  lemma TidyRemoveOp(m: seq<Entry<nat, Operation>>, owner: Owner, id: nat)
    requires TidyOps(m, owner) && Distinct(m)
    ensures TidyOps(Remove(m, id), owner)
  {
    forall k: nat | Has(Remove(m, id), k) ensures Get(Remove(m, id), k).owner == owner {
      RemoveLookup(m, id, k);
    }
  }

  lemma TidyStart(s: State, owner: Owner, stage: string, retention: bool, callback: Callback, deadline: nat,
                  aborted: bool, now: nat, strict: bool)
    requires Tidy(s, owner, strict) && Distinct(s.ops)
    ensures Tidy(Start(s, owner, stage, retention, callback, deadline, aborted, now).0, owner, strict)
  {
    EvictKeeps(s.ops);
    assert TidyOps(Evict(s.ops), owner);
    hide TidyArtifacts, TidyInventory, TidyOps, FailOwnership;
    var op := Operation(owner, stage, retention, callback, deadline, now, None, Pending, false);
    TidyPutOp(Evict(s.ops), owner, s.ordinal + 1, op);
    TidyFail(s, owner, "cancelled", now, strict);
    TidyFail(s, owner, "deadline", now, strict);
    TidyFail(s.(ops := Evict(s.ops)), owner, "native-operation-quota", now, strict);
  }

  lemma TidyDeliver(s: State, digest: Digest, id: nat, op: Operation, outcome: Outcome, late: bool, now: nat,
                    owner: Owner, strict: bool)
    requires Tidy(s, owner, strict) && op.owner == owner && Distinct(s.artifacts)
    ensures Tidy(Deliver(s, digest, id, op, outcome, late, now).0, owner, strict)
  {
    hide TidyArtifacts, TidyInventory, TidyOps, Hold, Acknowledge;
    match op.callback
    case HoldResult(art) =>
      if outcome.Screenshot? {
        TidyHold(s, digest, owner, art, outcome.bytes, outcome.observed, now, strict);
      }
    case AcknowledgeResult =>
      if outcome.Durable? {
        TidyAcknowledge(s, digest, owner, outcome.receipt, strict);
      }
    case NoCallback =>
      var raw := if outcome.Opaque? then outcome.raw else [];
      TidyHold(s, digest, owner, Late(id), raw[..Min(LATE_PREFIX, |raw|)], |raw|, now, strict);
  }

  lemma TidySettle(s: State, digest: Digest, id: nat, outcome: Outcome, aborted: bool, now: nat, later: nat,
                   owner: Owner, strict: bool)
    requires Tidy(s, owner, strict) && Distinct(s.artifacts) && Distinct(s.ops)
    ensures Tidy(Settle(s, digest, id, outcome, aborted, now, later), owner, strict)
  {
    if PendingIn(s.ops, id) {
      var op := Get(s.ops, id);
      assert op.owner == owner;
      hide TidyArtifacts, TidyInventory, TidyOps, Deliver, FailOwnership;
      TidyRemoveOp(s.ops, owner, id);
      var late := if outcome.Threw? then Failed(s) else LateSettlement(s, op, aborted, now);
      forall state ensures TidyOps(Put(s.ops, id, op.(state := state, late := late, settledNs := Some(now))), owner) {
        TidyPutOp(s.ops, owner, id, op.(state := state, late := late, settledNs := Some(now)));
      }
      if !outcome.Threw? {
        var (t, r) := Deliver(s, digest, id, op, outcome, late, now);
        TidyDeliver(s, digest, id, op, outcome, late, now, owner, strict);
        DeliverFrame(s, digest, id, op, outcome, late, now);
        var u := CloseOp(t, id, op, if r.Err? then Rejected else Fulfilled, late, aborted, now);
        assert Tidy(u, owner, strict);
        TidyFail(u, owner, if aborted then "cancelled" else "deadline", later, strict);
      }
    }
  }

  lemma TidyDrain(s: State, owner: Owner, aborted: bool, now: nat, strict: bool)
    requires Tidy(s, owner, strict) && Distinct(s.ops)
    ensures Tidy(DrainTurn(s, owner, aborted, now), owner, strict)
  {
    hide TidyArtifacts, TidyInventory, TidyOps, Start;
    if s.busy && Failed(s) {
      var deadline := s.failureStarted.value + RETENTION_NS;
      TidyStart(s, owner, "failure-retention-emit", true, AcknowledgeResult, deadline, aborted, now, strict);
      TidyStart(s, owner, "failure-settlement-wait", true, NoCallback, deadline, aborted, now, strict);
    }
  }

  lemma TidyStep(s: State, digest: Digest, e: Event, owner: Owner, strict: bool)
    requires Distinct(s.artifacts) && Distinct(s.ops) && Tidy(s, owner, strict) && TidyEvent(s, e, owner, strict)
    ensures Tidy(Apply(s, digest, e), owner, strict)
  {
    hide TidyArtifacts, TidyInventory, TidyOps, Hold, Settle, Start, DrainTurn, FailOwnership, RecordAckSource,
         RecordsSource, GateOk, SnapshotOf;
    match e
    case Interrupt(code, now) => TidyFail(s, owner, code, now, strict);
    case HoldNow(o, id, bytes, observed, now) => TidyHold(s, digest, owner, id, bytes, observed, now, strict);
    case ReleaseNow(id) => TidyRemove(s.artifacts, owner, id, strict);
    case DurableAck(id, ref, raw) => TidyRecord(s, owner, id, ref, raw, strict);
    case Begin(o, stage, screenshot, deadline, aborted, now) =>
      TidyStart(s, owner, stage, false, if screenshot.Some? then HoldResult(screenshot.value) else NoCallback,
                deadline, aborted, now, strict);
    case Finish(op, outcome, aborted, now, later) => TidySettle(s, digest, op, outcome, aborted, now, later, owner,
        strict);
    case Drain(o, aborted, now) => TidyDrain(s, owner, aborted, now, strict);
    case _ =>
  }

  lemma {:induction false} TidyRuns(s: State, digest: Digest, events: seq<Event>, owner: Owner, strict: bool)
    requires Inv(s, digest) && Tidy(s, owner, strict)
    requires LawfulRun(s, digest, events) && TidyRun(s, digest, events, owner, strict)
    ensures Inv(Run(s, digest, events), digest) && Tidy(Run(s, digest, events), owner, strict)
    decreases |events|
  {
    if events != [] {
      TidyStep(s, digest, events[0], owner, strict);
      StepKeeps(s, digest, events[0]);
      hide Inv, Tidy, Apply, Lawful, TidyEvent;
      TidyRuns(Apply(s, digest, events[0]), digest, events[1..], owner, strict);
    }
  }

  /** For one command, a snapshot passes exactly when its references arrived in order. */
  lemma OwnedPasses(s: State, digest: Digest, owner: Owner, now: nat)
    requires Inv(s, digest) && Tidy(s, owner, false) && Failed(s)
    ensures GateOk(SnapshotOf(s, owner, now)) <==> ArrivedInOrder(s.inventory, owner)
  {
    hide GateOk, ArrivedInOrder;
    GateIff(s, digest, owner, now);
    forall i | 0 <= i < |s.inventory| ensures s.inventory[i].value.owner == owner {
      FindAt(s.inventory, i);
      assert Has(s.inventory, s.inventory[i].key);
    }
  }

  lemma TidyOwned(s: State, owner: Owner)
    requires Tidy(s, owner, true)
    ensures Tidy(s, owner, false)
  {
  }

  lemma TidyPasses(s: State, digest: Digest, owner: Owner, now: nat)
    requires Inv(s, digest) && Tidy(s, owner, true) && Failed(s)
    ensures GateOk(SnapshotOf(s, owner, now))
  {
    hide GateOk;
    TidyOwned(s, owner);
    OwnedPasses(s, digest, owner, now);
    forall i | 0 <= i < |s.inventory| ensures Sequential(s.inventory[i].value.refs) {
      FindAt(s.inventory, i);
      assert Has(s.inventory, s.inventory[i].key);
    }
  }

  /** In every lawful run of one command, whatever order its records are acknowledged in, a
      snapshot passes the wire gate exactly when the references inside the acknowledged
      prefixes arrived in order. */
  lemma SnapshotPassesIff(s: State, digest: Digest, events: seq<Event>, owner: Owner, now: nat)
    requires Fresh(s) && LawfulRun(s, digest, events) && TidyRun(s, digest, events, owner, false)
    requires Failed(Run(s, digest, events))
    ensures
      var t := Run(s, digest, events);
      GateOk(SnapshotOf(t, owner, now)) <==> ArrivedInOrder(t.inventory, owner)
  {
    FreshInv(s, digest);
    TidyRuns(s, digest, events, owner, false);
    OwnedPasses(Run(s, digest, events), digest, owner, now);
  }

  /** So when they are acknowledged front to back, every snapshot passes. */
  lemma EverySnapshotPasses(s: State, digest: Digest, events: seq<Event>, owner: Owner, now: nat)
    requires Fresh(s) && LawfulRun(s, digest, events) && TidyRun(s, digest, events, owner, true)
    requires Failed(Run(s, digest, events))
    ensures GateOk(SnapshotOf(Run(s, digest, events), owner, now))
  {
    FreshInv(s, digest);
    TidyRuns(s, digest, events, owner, true);
    TidyPasses(Run(s, digest, events), digest, owner, now);
  }

  /** For one command the held bytes are exactly those of the reported artifacts. */
  lemma HeldReported(s: State, digest: Digest, owner: Owner)
    requires Inv(s, digest) && Tidy(s, owner, false) && Failed(s)
    ensures Total(Reports(s.inventory, owner), ReportedHeld) == s.held
  {
    hide Total, Reports;
    ReportSums(s.inventory, owner);
    OutstandingSigns(s, digest);
    ForeignZero(s.inventory, owner);
    forall i | 0 <= i < |s.inventory| ensures s.inventory[i].value.owner == owner {
      FindAt(s.inventory, i);
      assert Has(s.inventory, s.inventory[i].key);
    }
  }

  /** Why `release` must not run once failure began: it would lower the held total under the
      inventory, and no later snapshot of that state could pass the gate. */
  lemma ReleaseAfterFailure(s: State, digest: Digest, owner: Owner, id: ArtifactId, now: nat)
    requires Inv(s, digest) && Tidy(s, owner, false) && Failed(s)
    ensures GateOk(SnapshotOf(Release(s, id), owner, now)) <==>
              !Has(s.artifacts, id) && ArrivedInOrder(s.inventory, owner)
  {
    OwnedPasses(s, digest, owner, now);
    if Has(s.artifacts, id) {
      assert ArtifactOk(s.history.content, digest, id, Get(s.artifacts, id));
      HeldReported(s, digest, owner);
      var n := SnapshotOf(Release(s, id), owner, now);
      assert Total(n.artifacts, ReportedHeld) == s.held > n.held;
    }
  }
}
