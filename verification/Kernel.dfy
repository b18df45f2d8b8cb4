/** Per-scope failure isolation of the projector pass: streaks, quarantine and cancellation. */
module Kernel {
  import opened Basics

  const THRESHOLD := 3

  datatype OwnerScope = OwnerScope(team: bool, teamId: string, userId: string)

  function ScopeKey(s: OwnerScope): string {
    if s.team && s.teamId != "" then "team:" + s.teamId else "user:" + s.userId
  }

  /** Two scopes share a streak exactly when they have the same owner. */
  lemma ScopeKeyIff(a: OwnerScope, b: OwnerScope)
    ensures ScopeKey(a) == ScopeKey(b) <==>
              && (a.team && a.teamId != "") == (b.team && b.teamId != "")
              && if a.team && a.teamId != "" then a.teamId == b.teamId else a.userId == b.userId
  {
    assert ("team:" + a.teamId)[5..] == a.teamId && ("team:" + b.teamId)[5..] == b.teamId;
    assert ("user:" + a.userId)[5..] == a.userId && ("user:" + b.userId)[5..] == b.userId;
    assert ("team:" + a.teamId)[0] != ("user:" + b.userId)[0] && ("user:" + a.userId)[0] != ("team:" + b.teamId)[0];
  }

  /** How a quarantine write ends, when one is made. */
  datatype Write = Stored | Lost | Interrupted

  datatype Attempt = Worked(busy: bool, processed: int, position: int) | Broke(write: Write) | Cancelled

  datatype Visit = Visit(key: string, attempt: Attempt)

  type Streaks = map<string, nat>

  function Streak(m: Streaks, key: string): nat { if key in m then m[key] else 0 }

  predicate Quarantines(m: Streaks, v: Visit) { v.attempt.Broke? && Streak(m, v.key) + 1 >= THRESHOLD }

  /** The visit ends the pass with a cancellation. */
  predicate Ends(m: Streaks, v: Visit) { v.attempt.Cancelled? || (Quarantines(m, v) && v.attempt.write.Interrupted?) }

  function Step(m: Streaks, v: Visit): Streaks {
    match v.attempt
    case Worked(busy, _, _) => if busy then m else m - {v.key}
    case Broke(write) =>
      if Quarantines(m, v) && write.Stored? then m - {v.key} else m[v.key := Streak(m, v.key) + 1]
    case Cancelled => m
  }

  function After(m: Streaks, h: seq<Visit>): Streaks
    decreases |h|
  {
    if h == [] then m else Step(After(m, h[..|h| - 1]), h[|h| - 1])
  }

  /** What a visit makes of its own scope's streak. */
  function NextCount(n: nat, a: Attempt): nat {
    match a
    case Worked(busy, _, _) => if busy then n else 0
    case Broke(write) => if n + 1 >= THRESHOLD && write.Stored? then 0 else n + 1
    case Cancelled => n
  }

  lemma StepStreak(m: Streaks, v: Visit, key: string)
    ensures Streak(Step(m, v), key) == if v.key == key then NextCount(Streak(m, key), v.attempt) else Streak(m, key)
  {
  }

  lemma {:induction false} AfterConcat(m: Streaks, a: seq<Visit>, b: seq<Visit>)
    ensures After(m, a + b) == After(After(m, a), b)
    decreases |b|
  {
    if b == [] {
      assert a + b == a;
    } else {
      assert (a + b)[..|a + b| - 1] == a + b[..|b| - 1];
      AfterConcat(m, a, b[..|b| - 1]);
    }
  }

  // ---- what the streak means ----

  /** Visit `k` clears the scope: work was done, or the quarantine was written. */
  ghost predicate Resets(h: seq<Visit>, key: string, k: nat)
    requires k < |h|
    decreases k, 1
  {
    h[k].key == key &&
    match h[k].attempt
    case Worked(busy, _, _) => !busy
    case Broke(write) => write.Stored? && |Open(h, key, k)| + 1 >= THRESHOLD
    case Cancelled => false
  }

  /** The failures of a scope among the first `n` visits that nothing cleared since. */
  ghost function Open(h: seq<Visit>, key: string, n: nat): set<nat>
    requires n <= |h|
    decreases n, 0
  {
    set j | 0 <= j < n && h[j].key == key && h[j].attempt.Broke? && forall k :: j <= k < n ==> !Resets(h, key, k)
  }

  lemma OpenStep(h: seq<Visit>, key: string, n: nat)
    requires n < |h|
    ensures Open(h, key, n + 1) ==
              if Resets(h, key, n) then {}
              else if h[n].key == key && h[n].attempt.Broke? then Open(h, key, n) + {n}
              else Open(h, key, n)
  {
  }

  /** After every history the stored streak counts the failures since the last clearing visit. */
  lemma {:induction false} StreakIsOpen(h: seq<Visit>, key: string, n: nat)
    requires n <= |h|
    ensures Streak(After(map[], h[..n]), key) == |Open(h, key, n)|
    decreases n
  {
    hide Step, Open;
    if n == 0 {
      NoneOpen(h, key);
    } else {
      StreakIsOpen(h, key, n - 1);
      StepStreak(After(map[], h[..n - 1]), h[n - 1], key);
      assert h[..n][..n - 1] == h[..n - 1];
      OpenStep(h, key, n - 1);
      OpenBelow(h, key, n - 1);
    }
  }

  lemma NoneOpen(h: seq<Visit>, key: string)
    ensures Open(h, key, 0) == {}
  {
  }

  lemma OpenBelow(h: seq<Visit>, key: string, n: nat)
    requires n <= |h|
    ensures |Open(h, key, n) + {n}| == |Open(h, key, n)| + 1
  {
    assert n !in Open(h, key, n);
  }

  /** A quarantine is written exactly at failures that bring the count to the threshold or
      beyond, so a lost write is tried again at the next failure. */
  lemma QuarantineIff(h: seq<Visit>, n: nat)
    requires n < |h|
    ensures Quarantines(After(map[], h[..n]), h[n]) <==> h[n].attempt.Broke? && |Open(h, h[n].key, n)| + 1 >= 3
  {
    StreakIsOpen(h, h[n].key, n);
  }

  lemma RetriedWhileLost(h: seq<Visit>, n: nat)
    requires n < |h| && Quarantines(After(map[], h[..n]), h[n]) && !h[n].attempt.write.Stored?
    ensures Streak(After(map[], h[..n + 1]), h[n].key) >= THRESHOLD
    ensures forall v: Visit :: v.key == h[n].key && v.attempt.Broke? ==> Quarantines(After(map[], h[..n + 1]), v)
  {
    assert h[..n + 1][..n] == h[..n];
  }

  // ---- isolation ----

  function Only(h: seq<Visit>, key: string): seq<Visit>
    decreases |h|
  {
    if h == [] then [] else Only(h[..|h| - 1], key) + if h[|h| - 1].key == key then [h[|h| - 1]] else []
  }

  /** A scope's streak depends on its own visits alone. */
  lemma {:induction false} OwnVisitsOnly(m: Streaks, h: seq<Visit>, key: string)
    ensures Streak(After(m, h), key) == Streak(After(m, Only(h, key)), key)
    decreases |h|
  {
    hide Step;
    if h != [] {
      var init, last := h[..|h| - 1], h[|h| - 1];
      OwnVisitsOnly(m, init, key);
      var own := Only(init, key);
      StepStreak(After(m, init), last, key);
      StepStreak(After(m, own), last, key);
      assert (own + [last])[..|own|] == own;
      assert own + [] == own;
    }
  }

  function Processed(h: seq<Visit>): int
    decreases |h|
  {
    if h == [] then 0
    else Processed(h[..|h| - 1]) + if h[|h| - 1].attempt.Worked? then h[|h| - 1].attempt.processed else 0
  }

  function LastPosition(h: seq<Visit>): int
    decreases |h|
  {
    if h == [] then 0
    else
      var rest := LastPosition(h[..|h| - 1]);
      if h[|h| - 1].attempt.Worked? then Max(rest, h[|h| - 1].attempt.position) else rest
  }

  function Workers(h: seq<Visit>): seq<Visit>
    decreases |h|
  {
    if h == [] then [] else Workers(h[..|h| - 1]) + if h[|h| - 1].attempt.Worked? then [h[|h| - 1]] else []
  }

  /** Failed scopes leave no trace in the pass's result. */
  lemma {:induction false} FailuresLeaveResult(h: seq<Visit>)
    ensures Processed(h) == Processed(Workers(h)) && LastPosition(h) == LastPosition(Workers(h))
    decreases |h|
  {
    if h != [] {
      var init, last := h[..|h| - 1], h[|h| - 1];
      FailuresLeaveResult(init);
      var w := Workers(init);
      assert (w + [last])[..|w|] == w;
      assert w + [] == w;
    }
  }

  /** The number of a pass is the sum over its visits, of which only workers count. */
  lemma {:induction false} ProcessedConcat(a: seq<Visit>, b: seq<Visit>)
    ensures Processed(a + b) == Processed(a) + Processed(b)
    ensures forall v: Visit :: Processed([v]) == if v.attempt.Worked? then v.attempt.processed else 0
    decreases |b|
  {
    forall v: Visit ensures Processed([v]) == if v.attempt.Worked? then v.attempt.processed else 0 {
      assert [v][..0] == [];
    }
    if b == [] {
      assert a + b == a;
    } else {
      assert (a + b)[..|a + b| - 1] == a + b[..|b| - 1];
      ProcessedConcat(a, b[..|b| - 1]);
    }
  }

  /** The position of a pass is the largest its workers reached, or zero. */
  lemma {:induction false} PositionIsLargest(h: seq<Visit>)
    ensures LastPosition(h) >= 0
    ensures forall i :: 0 <= i < |h| && h[i].attempt.Worked? ==> LastPosition(h) >= h[i].attempt.position
    ensures LastPosition(h) == 0 ||
            exists i :: 0 <= i < |h| && h[i].attempt.Worked? && LastPosition(h) == h[i].attempt.position
    decreases |h|
  {
    if h != [] {
      var init := h[..|h| - 1];
      PositionIsLargest(init);
      assert forall i :: 0 <= i < |init| ==> init[i] == h[i];
    }
  }

  // ---- the pass ----

  /** No visit before `n` ends the pass. */
  ghost predicate Uninterrupted(m: Streaks, h: seq<Visit>, n: nat)
    requires n <= |h|
  {
    forall i :: 0 <= i < n ==> !Ends(After(m, h[..i]), h[i])
  }

  class Runtime {
    var failures: Streaks

    constructor ()
      ensures failures == map[]
    {
      failures := map[];
    }

    /** Counts a failure and quarantines the scope at the threshold; false when the write was
        cancelled. */
    method RecordScopeFailure(key: string, write: Write) returns (ok: bool, attempted: bool)
      modifies this
      ensures failures == Step(old(failures), Visit(key, Broke(write)))
      ensures attempted == Quarantines(old(failures), Visit(key, Broke(write)))
      ensures ok == !Ends(old(failures), Visit(key, Broke(write)))
    {
      var count := Streak(failures, key) + 1;
      failures := failures[key := count];
      if count < THRESHOLD {
        return true, false;
      }
      if write.Interrupted? {
        return false, true;
      }
      if write.Lost? {
        return true, true;
      }
      failures := failures - {key};
      return true, true;
    }

    /** One pass over the pending scopes, with what each projection and each quarantine write
        does; none when a cancellation ended it. `visited` counts the scopes reached. */
    method RunPending(visits: seq<Visit>) returns (r: Option<(int, int)>, visited: nat)
      modifies this
      ensures visited <= |visits| && failures == After(old(failures), visits[..visited])
      ensures r.Some? <==> Uninterrupted(old(failures), visits, |visits|)
      ensures r.Some? ==> visited == |visits| && r.value == (Processed(visits), LastPosition(visits))
      ensures r.None? ==>
                && 0 < visited && Uninterrupted(old(failures), visits, visited - 1)
                && Ends(After(old(failures), visits[..visited - 1]), visits[visited - 1])
    {
      hide Ends, Quarantines, Step;
      var processed, position := 0, 0;
      for i := 0 to |visits|
        invariant failures == After(old(failures), visits[..i])
        invariant Uninterrupted(old(failures), visits, i)
        invariant processed == Processed(visits[..i]) && position == LastPosition(visits[..i])
      {
        var v := visits[i];
        ghost var before := failures;
        assert visits[..i + 1][..i] == visits[..i];
        StepCases(before, v);
        match v.attempt
        case Cancelled =>
          return None, i + 1;
        case Broke(write) =>
          var ok, _ := RecordScopeFailure(v.key, write);
          if !ok {
            return None, i + 1;
          }
        case Worked(busy, done, at) =>
          if !busy {
            failures := failures - {v.key};
          }
          processed, position := processed + done, Max(position, at);
      }
      assert visits[..|visits|] == visits;
      return Some((processed, position)), |visits|;
    }
  }

  lemma StepCases(m: Streaks, v: Visit)
    ensures v.attempt.Cancelled? ==> Ends(m, v) && Step(m, v) == m
    ensures v.attempt.Worked? ==> !Ends(m, v) && Step(m, v) == if v.attempt.busy then m else m - {v.key}
  {
  }

  /** Any number of passes leaves the streaks of the visits they reached, in order. */
  lemma PassesCompose(m: Streaks, passes: seq<seq<Visit>>, last: seq<Visit>)
    ensures After(m, Joined(passes + [last])) == After(After(m, Joined(passes)), last)
  {
    assert (passes + [last])[..|passes|] == passes;
    AfterConcat(m, Joined(passes), last);
  }

  function Joined(passes: seq<seq<Visit>>): seq<Visit>
    decreases |passes|
  {
    if passes == [] then [] else Joined(passes[..|passes| - 1]) + passes[|passes| - 1]
  }
}
