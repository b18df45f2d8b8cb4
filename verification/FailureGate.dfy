/** The cumulative checks of the wire gate as the validator runs them: one pass with accumulators. */
module FailureGate {
  import opened Basics
  import opened Ledger

  method CheckRefs(refs: seq<Ref>, acknowledged: int) returns (ok: bool)
    requires acknowledged >= 0
    ensures ok <==> RefsInRange(refs, acknowledged)
  {
    var priorEnd := 0;
    for i := 0 to |refs|
      invariant RefsInRange(refs[..i], acknowledged)
      invariant priorEnd == if i == 0 then 0 else refs[i - 1].offset + refs[i - 1].bytes
    {
      var r := refs[i];
      if !(r.offset >= priorEnd && r.offset + r.bytes <= acknowledged) {
        return false;
      }
      forall k | 0 <= k < i ensures refs[k].offset + refs[k].bytes <= r.offset {
        if k < i - 1 {
          assert refs[..i][k].offset + refs[..i][k].bytes <= refs[..i][i - 1].offset;
        }
      }
      assert refs[..i + 1] == refs[..i] + [r];
      priorEnd := r.offset + r.bytes;
    }
    assert refs[..|refs|] == refs;
    return true;
  }

  predicate Shaped(n: Snapshot) {
    && 0 <= n.discarded && 0 <= n.held <= CAPACITY
    && |n.operations| <= SLOTS && |n.handles| <= SLOTS && |n.artifacts| <= SLOTS
    && forall i :: 0 <= i < |n.artifacts| ==> RowShape(n.artifacts[i])
  }

  lemma TotalPrefix(rows: seq<Reported>, i: nat, f: Reported -> int)
    requires i < |rows|
    ensures Total(rows[..i + 1], f) == Total(rows[..i], f) + f(rows[i])
  {
    assert rows[..i + 1][..i] == rows[..i];
  }

  predicate RowsTotal(rows: seq<Reported>) {
    DistinctIds(rows) && forall k :: 0 <= k < |rows| ==> RowTotals(rows[k])
  }

  method CheckRow(row: Reported, identities: set<ArtifactId>) returns (result: Result<()>)
    requires RowShape(row)
    ensures result.Ok? <==> row.id !in identities && RowTotals(row)
  {
    if row.id in identities {
      return Err("failure-v2-duplicate-artifact");
    }
    if !(row.observed >= row.retained && row.acknowledged <= row.retained) {
      return Err("failure-v2-artifact-totals");
    }
    var ok := CheckRefs(row.refs, row.acknowledged);
    if !ok {
      return Err("failure-v2-source-range");
    }
    return Ok(());
  }

  lemma ExtendRows(rows: seq<Reported>, i: nat)
    requires i < |rows| && RowsTotal(rows[..i])
    ensures RowsTotal(rows[..i + 1]) <==> RowTotals(rows[i]) && forall k :: 0 <= k < i ==> rows[k].id != rows[i].id
  {
    hide RowTotals;
    assert rows[..i + 1] == rows[..i] + [rows[i]];
    if RowsTotal(rows[..i + 1]) {
      assert rows[..i + 1][i] == rows[i];
      forall k | 0 <= k < i ensures rows[k].id != rows[i].id {
        assert rows[..i + 1][k] == rows[k];
      }
    }
  }

  lemma PrefixRows(rows: seq<Reported>, i: nat)
    requires i <= |rows| && !RowsTotal(rows[..i])
    ensures !RowsTotal(rows)
  {
    hide RowTotals;
    if RowsTotal(rows) {
      forall k | 0 <= k < i ensures RowTotals(rows[..i][k]) {
        assert rows[..i][k] == rows[k];
      }
    }
  }

  /** The single pass decides the declarative gate. */
  method CheckFailure(n: Snapshot) returns (result: Result<()>)
    ensures result.Ok? <==> GateOk(n)
  {
    hide RowShape, RowTotals, Total, ReportedRetained, ReportedHeld, ReportedRefs, DistinctIds;
    if !Shaped(n) {
      return Err("wire-shape");
    }
    var rows := n.artifacts;
    var identities: set<ArtifactId> := {};
    var retained, held, refs := 0, 0, 0;
    assert RowsTotal(rows[..0]) && Totals(rows[..0], 0, 0, 0) by { EmptyRows(rows); }
    for i := 0 to |rows|
      invariant identities == set k | 0 <= k < i :: rows[k].id
      invariant RowsTotal(rows[..i])
      invariant Totals(rows[..i], retained, held, refs)
    {
      var row := rows[i];
      ExtendRows(rows, i);
      var checked := CheckRow(row, identities);
      if checked.Err? {
        PrefixRows(rows, i + 1);
        return checked;
      }
      identities := identities + {row.id};
      ExtendTotals(rows, i, retained, held, refs);
      retained := retained + row.retained;
      held := held + (row.retained - row.acknowledged);
      refs := refs + |row.refs|;
    }
    assert rows[..|rows|] == rows;
    if retained <= CAPACITY && refs <= SOURCE_REFS && held == n.held {
      return Ok(());
    }
    return Err("failure-v2-cumulative-budget");
  }

  predicate Totals(rows: seq<Reported>, retained: int, held: int, refs: int) {
    && retained == Total(rows, ReportedRetained)
    && held == Total(rows, ReportedHeld)
    && refs == Total(rows, ReportedRefs)
  }

  lemma EmptyRows(rows: seq<Reported>)
    ensures RowsTotal(rows[..0]) && Totals(rows[..0], 0, 0, 0)
  {
    assert |rows[..0]| == 0;
  }

  lemma ExtendTotals(rows: seq<Reported>, i: nat, retained: int, held: int, refs: int)
    requires i < |rows| && Totals(rows[..i], retained, held, refs)
    ensures Totals(rows[..i + 1], retained + rows[i].retained, held + (rows[i].retained - rows[i].acknowledged),
              refs + |rows[i].refs|)
  {
    TotalPrefix(rows, i, ReportedRetained);
    TotalPrefix(rows, i, ReportedHeld);
    TotalPrefix(rows, i, ReportedRefs);
  }

  // ---- what the gate says of any snapshot ----

  ghost function Ids(rows: seq<Reported>): set<ArtifactId> { set i | 0 <= i < |rows| :: rows[i].id }

  lemma {:induction false} DistinctCount(rows: seq<Reported>)
    ensures |Ids(rows)| <= |rows| && (|Ids(rows)| == |rows| <==> DistinctIds(rows))
    decreases |rows|
  {
    if rows != [] {
      var n := |rows| - 1;
      var init := rows[..n];
      DistinctCount(init);
      assert forall i :: 0 <= i < n ==> init[i] == rows[i];
      assert Ids(rows) == Ids(init) + {rows[n].id};
      if rows[n].id in Ids(init) {
        var k :| 0 <= k < n && init[k].id == rows[n].id;
        assert !DistinctIds(rows);
      }
    }
  }

  function Retained(r: Reported): int { r.retained }

  function Acknowledged(r: Reported): int { r.acknowledged }

  function References(r: Reported): int { |r.refs| }

  function Sum(rows: seq<Reported>, f: Reported -> int): int {
    if rows == [] then 0 else f(rows[0]) + Sum(rows[1..], f)
  }

  lemma {:induction false} SumLast(rows: seq<Reported>, f: Reported -> int)
    ensures Total(rows, f) == Sum(rows, f)
    decreases |rows|
  {
    if |rows| == 1 {
      assert rows[..0] == [] && rows[1..] == [];
    } else if rows != [] {
      var n := |rows| - 1;
      SumLast(rows[..n], f);
      SumLast(rows[1..], f);
      SumLast(rows[1..n], f);
      assert rows[..n][1..] == rows[1..n] && rows[1..][..n - 1] == rows[1..n];
    }
  }

  lemma {:induction false} SumMinus(rows: seq<Reported>)
    ensures Sum(rows, ReportedHeld) ==
              Sum(rows, Retained) - Sum(rows, Acknowledged)
    ensures Sum(rows, ReportedRetained) == Sum(rows, Retained)
    ensures Sum(rows, ReportedRefs) == Sum(rows, References)
    decreases |rows|
  {
    if rows != [] {
      SumMinus(rows[1..]);
    }
  }

  /** Each reference begins where the one before it ended, or later, and the last one ends inside what
      was acknowledged. */
  predicate Chained(refs: seq<Ref>, acknowledged: int) {
    && (refs != [] ==> refs[|refs| - 1].offset + refs[|refs| - 1].bytes <= acknowledged)
    && forall i :: 0 < i < |refs| ==> refs[i].offset >= refs[i - 1].offset + refs[i - 1].bytes
  }

  lemma {:induction false} ChainedRange(refs: seq<Ref>, acknowledged: int)
    ensures RefsInRange(refs, acknowledged) <==> Chained(refs, acknowledged)
    decreases |refs|
  {
    if |refs| > 1 {
      var n := |refs| - 1;
      var init := refs[..n];
      assert forall i :: 0 <= i < n ==> init[i] == refs[i];
      if Chained(refs, acknowledged) {
        ChainedRange(init, refs[n].offset);
        assert RefsInRange(init, refs[n].offset);
      }
    }
  }

  /** A reported artifact, in numbers. */
  predicate Sensible(r: Reported) {
    && 0 <= r.acknowledged <= r.retained <= r.observed && 1 <= r.retained <= 128 * 1024 * 1024
    && |r.refs| <= 4096 && Chained(r.refs, r.acknowledged)
    && forall i :: 0 <= i < |r.refs| ==>
         && 1 <= r.refs[i].sequence <= 65536 && r.refs[i].offset <= 128 * 1024 * 1024
         && 1 <= r.refs[i].bytes <= 48 * 1024
  }

  lemma SensibleIff(r: Reported)
    ensures RowShape(r) && RowTotals(r) <==> Sensible(r)
  {
    ChainedRange(r.refs, r.acknowledged);
  }

  /** Exactly these snapshots pass: no list longer than 128, no artifact twice, every artifact sensible,
      no more than 128 MiB and 4096 references in all, and as held what is retained and not
      acknowledged. */
  lemma GateMeaning(n: Snapshot)
    ensures
      var rows := n.artifacts;
      GateOk(n) <==>
        && n.discarded >= 0 && 0 <= n.held <= 128 * 1024 * 1024
        && |n.operations| <= 128 && |n.handles| <= 128 && |rows| <= 128
        && |Ids(rows)| == |rows| && (forall i :: 0 <= i < |rows| ==> Sensible(rows[i]))
        && Sum(rows, Retained) <= 128 * 1024 * 1024 && Sum(rows, References) <= 4096
        && n.held == Sum(rows, Retained) - Sum(rows, Acknowledged)
  {
    hide RowShape, RowTotals, Sensible, Total, Sum, Ids, DistinctIds;
    var rows := n.artifacts;
    DistinctCount(rows);
    SumMinus(rows);
    SumLast(rows, ReportedRetained);
    SumLast(rows, ReportedRefs);
    SumLast(rows, ReportedHeld);
    forall i | 0 <= i < |rows| ensures RowShape(rows[i]) && RowTotals(rows[i]) <==> Sensible(rows[i]) {
      SensibleIff(rows[i]);
    }
  }
}
