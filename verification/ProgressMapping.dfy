/** Progress published as it is painted, and the committed sequences that may be subsumed. */
module ProgressMapping {
  import opened Basics

  // ---- publishing ----

  datatype Row = Row(id: string, message: string)

  /** A captured paint: the text of the watched step, if it was on screen. */
  datatype Capture = Capture(id: string, text: Option<string>)

  datatype Mapping = Mapping(captureId: string, rows: seq<Row>, painted: Row, message: string)

  const PROGRESS_LIMIT := 120

  /** The first row with the captured text. */
  function FirstIndex(progress: seq<Row>, text: Option<string>): (r: Option<nat>)
    ensures r.Some? <==> text.Some? && exists i :: 0 <= i < |progress| && progress[i].message == text.value
    ensures r.Some? ==> r.value < |progress| && progress[r.value].message == text.value
    ensures r.Some? ==> forall i :: 0 <= i < r.value ==> progress[i].message != text.value
  {
    if progress == [] || text.None? then None
    else
      var init := progress[..|progress| - 1];
      var before := FirstIndex(init, text);
      assert forall i :: 0 <= i < |init| ==> init[i] == progress[i];
      if before.Some? then before
      else if progress[|progress| - 1].message == text.value then Some(|progress| - 1)
      else None
  }

  function Concat(published: seq<Mapping>): seq<Row>
    decreases |published|
  {
    if published == [] then [] else Concat(published[..|published| - 1]) + published[|published| - 1].rows
  }

  /** A mapping ends with the row that carries its message, and no earlier progress carried it. */
  ghost predicate Faithful(m: Mapping, progress: seq<Row>) {
    && m.rows != [] && m.painted == m.rows[|m.rows| - 1] && m.painted.message == m.message
    && FirstIndex(progress, Some(m.message)).Some? && progress[FirstIndex(progress, Some(m.message)).value] == m.painted
  }

  /** The mapping names a capture that showed its message. */
  ghost predicate Depicts(m: Mapping, captures: seq<Capture>) {
    exists c :: 0 <= c < |captures| && captures[c].id == m.captureId && captures[c].text == Some(m.message)
  }

  /** More progress does not change what was first. */
  lemma FirstKept(progress: seq<Row>, more: seq<Row>, text: Option<string>)
    requires FirstIndex(progress, text).Some?
    ensures FirstIndex(progress + more, text) == FirstIndex(progress, text)
  {
    var i := FirstIndex(progress, text).value;
    assert (progress + more)[i] == progress[i];
    assert forall k :: 0 <= k < i ==> (progress + more)[k] == progress[k];
  }

  /** The text was not on record, or its first row is among the first `mapped`. */
  predicate Covered(progress: seq<Row>, text: Option<string>, mapped: nat) {
    FirstIndex(progress, text).Some? ==> FirstIndex(progress, text).value < mapped
  }

  lemma CoveredLater(progress: seq<Row>, later: seq<Row>, text: Option<string>)
    requires progress <= later
    ensures forall mapped :: Covered(later, text, mapped) ==> Covered(progress, text, mapped)
  {
    if FirstIndex(progress, text).Some? {
      FirstKept(progress, later[|progress|..], text);
      assert progress + later[|progress|..] == later;
    }
  }

  class Publisher {
    var progress: seq<Row>
    var mapped: nat
    var published: seq<Mapping>

    /** The published rows are exactly the first `mapped` ones: in order, none missing, none twice. */
    ghost predicate Valid()
      reads this
    {
      && mapped <= |progress| <= PROGRESS_LIMIT
      && Concat(published) == progress[..mapped]
      && forall i :: 0 <= i < |published| ==> Faithful(published[i], progress)
    }

    constructor ()
      ensures Valid() && progress == [] && mapped == 0 && published == []
    {
      progress, mapped, published := [], 0, [];
    }

    /** New progress from the control channel; refused beyond the limit. */
    method Arrive(row: Row) returns (ok: bool)
      requires Valid()
      modifies this`progress
      ensures Valid() && ok == (|old(progress)| < PROGRESS_LIMIT)
      ensures progress == if ok then old(progress) + [row] else old(progress)
    {
      if |progress| >= PROGRESS_LIMIT {
        return false;
      }
      forall i | 0 <= i < |published| ensures Faithful(published[i], progress + [row]) {
        FirstKept(progress, [row], Some(published[i].message));
      }
      progress := progress + [row];
      return true;
    }

    method ArriveAll(rows: seq<Row>)
      requires Valid()
      modifies this`progress
      ensures Valid() && old(progress) <= progress
    {
      for i := 0 to |rows|
        invariant Valid() && old(progress) <= progress
      {
        var _ := Arrive(rows[i]);
      }
    }

    /** One round over the captures; `arrivals` is the progress that comes in while each mapping
        is being sent, and `sent` whether sending succeeds. */
    method Publish(captures: seq<Capture>, arrivals: nat -> seq<Row>, sent: nat -> bool) returns (ok: bool)
      requires Valid()
      modifies this
      ensures Valid() && old(progress) <= progress && old(published) <= published && old(mapped) <= mapped
      ensures ok ==> forall c :: 0 <= c < |captures| ==> Covered(old(progress), captures[c].text, mapped)
      ensures !ok ==> exists c :: 0 <= c < |captures| && !sent(c)
      ensures forall i :: |old(published)| <= i < |published| ==> Depicts(published[i], captures)
    {
      hide Concat, Faithful, FirstIndex;
      for c := 0 to |captures|
        invariant Valid() && old(progress) <= progress && old(published) <= published && old(mapped) <= mapped
        invariant forall k :: 0 <= k < c ==> Covered(old(progress), captures[k].text, mapped)
        invariant forall i :: |old(published)| <= i < |published| ==> Depicts(published[i], captures)
      {
        var text := captures[c].text;
        var index := FirstIndex(progress, text);
        CoveredLater(old(progress), progress, text);
        if index.None? || index.value < mapped {
          continue;
        }
        ghost var before := published;
        ok := Send(captures[c], index.value, arrivals(c), sent(c));
        assert forall i :: 0 <= i < |before| ==> published[i] == before[i];
        if !ok {
          return;
        }
      }
      ok := true;
    }

    /** Sends the rows up to `index`, while more may arrive, and only then counts them. */
    method Send(capture: Capture, index: nat, arriving: seq<Row>, sent: bool) returns (ok: bool)
      requires Valid() && FirstIndex(progress, capture.text) == Some(index) && mapped <= index
      modifies this
      ensures Valid() && ok == sent && old(progress) <= progress
      ensures ok ==>
                && mapped == index + 1
                && published == old(published) + [Mapping(capture.id, old(progress)[old(mapped)..index + 1],
                                                          old(progress)[index], capture.text.value)]
      ensures !ok ==> mapped == old(mapped) && published == old(published)
    {
      hide FirstIndex;
      var rows := progress[mapped..index + 1];
      var mapping := Mapping(capture.id, rows, rows[|rows| - 1], capture.text.value);
      assert Faithful(mapping, progress);
      ghost var before := progress;
      ArriveAll(arriving);
      if !sent {
        return false;
      }
      FirstKept(before, progress[|before|..], capture.text);
      assert before + progress[|before|..] == progress;
      assert (published + [mapping])[..|published|] == published;
      assert progress[..mapped] + rows == progress[..index + 1];
      published, mapped := published + [mapping], index + 1;
      return true;
    }

    /** The end of the observation: a last round, then a report of what was never painted.
        Published and reported rows are together all the progress, in order. */
    method Close(captures: seq<Capture>, arrivals: nat -> seq<Row>, sent: nat -> bool)
      returns (ok: bool, unpainted: seq<string>)
      requires Valid()
      modifies this
      ensures Valid() && old(progress) <= progress && old(published) <= published
      ensures !ok ==> exists c :: 0 <= c < |captures| && !sent(c)
      ensures ok ==>
                && |unpainted| == |progress| - mapped
                && Ids(Concat(published)) + unpainted == Ids(progress)
                && (unpainted == [] <==> Concat(published) == progress)
    {
      hide Faithful, FirstIndex;
      unpainted := [];
      ok := Publish(captures, arrivals, sent);
      if ok {
        while mapped + |unpainted| < |progress|
          invariant |unpainted| <= |progress| - mapped
          invariant unpainted == Ids(progress[mapped..mapped + |unpainted|])
        {
          var k := |unpainted|;
          assert progress[mapped..mapped + k + 1] == progress[mapped..mapped + k] + [progress[mapped + k]];
          unpainted := unpainted + [progress[mapped + k].id];
        }
        assert progress[..mapped] + progress[mapped..] == progress;
        assert unpainted == Ids(progress[mapped..]);
        IdsConcat(progress[..mapped], progress[mapped..]);
      }
    }
  }

  function Ids(rows: seq<Row>): (r: seq<string>)
    ensures |r| == |rows|
  {
    seq(|rows|, i requires 0 <= i < |rows| => rows[i].id)
  }

  lemma IdsConcat(a: seq<Row>, b: seq<Row>)
    ensures Ids(a + b) == Ids(a) + Ids(b)
  {
  }

  // ---- subsumption ----

  datatype Claim = Claim(run: string, activity: string, generation: int, claimGeneration: int)

  /** A committed progress row: its own claim and event, and what source and public view say of it. */
  datatype Fact = Fact(
    id: string, claim: Claim, message: string, sequence: int, revision: int, order: int,
    ack: bool, applied: bool, error: Option<string>, event: string,
    sourceEvent: string, sourceActivity: string, sourceGeneration: int, sourceClaimGeneration: int, sourceSequence: int,
    publicEvent: string, publicRun: string, publicMessage: string)

  /** The fragment count a progress message states, if it states one. */
  type Counter = string -> Option<nat>

  /** Acknowledged and applied without error, and source and public view agree with the row. */
  predicate Effective(f: Fact) {
    && f.ack && f.applied && f.error.None?
    && f.sourceEvent == f.event == f.publicEvent
    && f.sourceActivity == f.claim.activity && f.sourceGeneration == f.claim.generation
    && f.sourceClaimGeneration == f.claim.claimGeneration && f.sourceSequence == f.sequence
    && f.publicRun == f.claim.run && f.publicMessage == f.message
  }

  predicate OwnFact(f: Fact, claim: Claim, count: Counter) {
    f.claim == claim && Effective(f) && count(f.message).Some?
  }

  predicate Next(a: Fact, b: Fact, count: Counter) {
    && count(a.message).Some? && count(b.message).Some?
    && b.sequence == a.sequence + 1 && count(b.message).value == count(a.message).value + 1
    && b.revision > a.revision && b.order > a.order
  }

  /** What the committed row, its source and the public view say of it is one and the same thing,
      and it took effect. */
  predicate Agrees(f: Fact, claim: Claim) {
    && f.ack && f.applied && f.error == None
    && Claim(claim.run, f.sourceActivity, f.sourceGeneration, f.sourceClaimGeneration) == claim == f.claim
    && (f.sourceEvent, f.sourceSequence) == (f.event, f.sequence)
    && (f.publicEvent, f.publicRun, f.publicMessage) == (f.event, claim.run, f.message)
  }

  lemma OwnFactIff(f: Fact, claim: Claim, count: Counter)
    ensures OwnFact(f, claim, count) <==> Agrees(f, claim) && count(f.message).Some?
  {
  }

  /** Same claim, effective, consecutive in every respect from the first row on. */
  ghost predicate Unbroken(rows: seq<Fact>, claim: Claim, count: Counter) {
    && (forall i :: 0 <= i < |rows| ==> Agrees(rows[i], claim))
    && (forall i :: 0 <= i < |rows| ==> rows[i].sequence == rows[0].sequence + i)
    && (forall i :: 0 <= i < |rows| ==>
          && count(rows[i].message).Some? && count(rows[0].message).Some?
          && count(rows[i].message).value == count(rows[0].message).value + i)
    && (forall i, j :: 0 <= i < j < |rows| ==> rows[i].revision < rows[j].revision && rows[i].order < rows[j].order)
  }

  lemma {:induction false} ChainUnbroken(rows: seq<Fact>, claim: Claim, count: Counter, n: nat)
    requires n <= |rows| && forall i :: 0 <= i < n ==> OwnFact(rows[i], claim, count)
    requires forall i :: 0 < i < n ==> Next(rows[i - 1], rows[i], count)
    ensures Unbroken(rows[..n], claim, count)
    decreases n
  {
    forall i | 0 <= i < n ensures Agrees(rows[i], claim) && count(rows[i].message).Some? {
      OwnFactIff(rows[i], claim, count);
    }
    if n > 1 {
      ChainUnbroken(rows, claim, count, n - 1);
      var init, all := rows[..n - 1], rows[..n];
      assert forall i :: 0 <= i < n - 1 ==> all[i] == init[i];
      assert Next(rows[n - 2], rows[n - 1], count);
      assert init[n - 2] == rows[n - 2];
    }
  }

  lemma UnbrokenDistinct(rows: seq<Fact>, claim: Claim, count: Counter)
    requires Unbroken(rows, claim, count)
    ensures forall i, j :: 0 <= i < j < |rows| ==> rows[i] != rows[j]
  {
    forall i, j | 0 <= i < j < |rows| ensures rows[i] != rows[j] {
      assert rows[i].sequence == rows[0].sequence + i && rows[j].sequence == rows[0].sequence + j;
    }
  }

  lemma UnbrokenNext(rows: seq<Fact>, claim: Claim, count: Counter, i: nat)
    requires Unbroken(rows, claim, count) && 0 < i < |rows|
    ensures Next(rows[i - 1], rows[i], count)
  {
    assert rows[i].sequence == rows[0].sequence + i && rows[i - 1].sequence == rows[0].sequence + (i - 1);
    assert count(rows[i].message).value == count(rows[0].message).value + i;
    assert count(rows[i - 1].message).value == count(rows[0].message).value + (i - 1);
  }

  /** The subsumption loop accepts exactly the unbroken sequences that end in the painted row,
      whose public value it is, and answers their identities in order. */
  method Subsume(rows: seq<Fact>, painted: Fact, count: Counter, attemptKey: (string, int, int) -> string,
                 publicStep: string, publicRevision: int, publicMessage: string)
    returns (ids: Option<seq<string>>)
    ensures ids.Some? <==>
              && rows != [] && rows[|rows| - 1] == painted && Unbroken(rows, painted.claim, count)
              && publicStep == attemptKey(painted.claim.activity, painted.claim.generation,
                   painted.claim.claimGeneration)
              && publicRevision >= painted.revision && publicMessage == painted.publicMessage
    ensures ids.Some? ==> |ids.value| == |rows| && forall i :: 0 <= i < |rows| ==> ids.value[i] == rows[i].id
    ensures ids.Some? ==> forall i, j :: 0 <= i < j < |rows| ==> rows[i] != rows[j]
  {
    var claim := painted.claim;
    if || rows == [] || painted !in rows
       || publicStep != attemptKey(claim.activity, claim.generation, claim.claimGeneration)
       || publicRevision < painted.revision || publicMessage != painted.publicMessage
    {
      return None;
    }
    var previous: Option<Fact> := None;
    var out: seq<string> := [];
    for i := 0 to |rows|
      invariant forall k :: 0 <= k < i ==> OwnFact(rows[k], painted.claim, count)
      invariant forall k :: 0 < k < i ==> Next(rows[k - 1], rows[k], count)
      invariant previous == if i == 0 then None else Some(rows[i - 1])
      invariant |out| == i && forall k :: 0 <= k < i ==> out[k] == rows[k].id
    {
      OwnFactIff(rows[i], painted.claim, count);
      if !OwnFact(rows[i], painted.claim, count) {
        return None;
      }
      if previous.Some? && !Next(previous.value, rows[i], count) {
        Broken(rows, painted.claim, count, i);
        return None;
      }
      previous := Some(rows[i]);
      out := out + [rows[i].id];
    }
    if rows[|rows| - 1] != painted {
      return None;
    }
    ChainUnbroken(rows, painted.claim, count, |rows|);
    assert rows[..|rows|] == rows;
    UnbrokenDistinct(rows, painted.claim, count);
    return Some(out);
  }

  lemma Broken(rows: seq<Fact>, claim: Claim, count: Counter, i: nat)
    requires 0 < i < |rows| && !Next(rows[i - 1], rows[i], count)
    ensures !Unbroken(rows, claim, count)
  {
    if Unbroken(rows, claim, count) {
      UnbrokenNext(rows, claim, count, i);
    }
  }
}
