/** The cleanup journal: what one pass executes, skips and completes, over arbitrary failures
    and any number of replays. An empty string stands for an absent workspace or creator. */
module Cleanup {
  import opened Ordering

  datatype Kind = Export | Other | Actor | Team

  datatype Entry = Entry(order: string, kind: Kind, resource: string, workspace: string, creator: string)

  /** How executing and completing an entry ends: completion moves the journal file, then
      flushes the directories. */
  datatype Outcome = Done | ExecuteFails | MoveFails | FlushFails

  type Acts = Entry -> Outcome

  /** Exports first, then other resources, actors, teams. */
  function Rank(e: Entry): real {
    match e.kind
    case Export => 0.0
    case Other => 1.0
    case Actor => 2.0
    case Team => 3.0
  }

  function Scope(e: Entry): string { if e.kind.Team? then e.resource else e.workspace }

  /** A pass so far. */
  datatype Sweep = Sweep(scopes: set<string>, creators: set<string>, errors: seq<string>,
                         executed: seq<Entry>, moved: set<Entry>)

  const BEGIN := Sweep({}, {}, [], [], {})

  predicate Skips(s: Sweep, e: Entry) {
    (Scope(e) != "" && Scope(e) in s.scopes) || (e.kind.Actor? && e.resource in s.creators)
  }

  function Fail(s: Sweep, e: Entry): Sweep {
    s.(scopes := if Scope(e) != "" then s.scopes + {Scope(e)} else s.scopes,
       creators := if !e.kind.Actor? && e.creator != "" then s.creators + {e.creator} else s.creators,
       errors := s.errors + [e.order])
  }

  function Visit(s: Sweep, e: Entry, act: Acts): Sweep {
    if Skips(s, e) then s.(errors := s.errors + [e.order])
    else
      var t := s.(executed := s.executed + [e]);
      match act(e)
      case Done => t.(moved := t.moved + {e})
      case ExecuteFails => Fail(t, e)
      case MoveFails => Fail(t, e)
      case FlushFails => Fail(t, e).(moved := t.moved + {e})
  }

  function Swept(o: seq<Entry>, act: Acts): Sweep
    decreases |o|
  {
    if o == [] then BEGIN else Visit(Swept(o[..|o| - 1], act), o[|o| - 1], act)
  }

  function InOrder(entries: seq<Entry>): seq<Entry> { Sorted(entries, Rank) }

  function Pass(entries: seq<Entry>, act: Acts): Sweep { Swept(InOrder(entries), act) }

  /** What a later reading of the journal still finds. */
  function Left(entries: seq<Entry>, moved: set<Entry>): seq<Entry>
    decreases |entries|
  {
    if entries == [] then []
    else
      var e := entries[|entries| - 1];
      Left(entries[..|entries| - 1], moved) + if e in moved then [] else [e]
  }

  // ---- what a pass keeps ----

  lemma SweptStep(o: seq<Entry>, act: Acts, n: nat)
    requires n < |o|
    ensures Swept(o[..n + 1], act) == Visit(Swept(o[..n], act), o[n], act)
  {
    assert o[..n + 1][..n] == o[..n];
  }

  /** Failures and moves are never forgotten. */
  lemma {:induction false} Grows(o: seq<Entry>, act: Acts, i: nat, n: nat)
    requires i <= n <= |o|
    ensures
      var a, b := Swept(o[..i], act), Swept(o[..n], act);
      a.scopes <= b.scopes && a.creators <= b.creators && a.moved <= b.moved
    decreases n
  {
    if i < n {
      Grows(o, act, i, n - 1);
      SweptStep(o, act, n - 1);
    }
  }

  /** A creator is held back only by one of its resources that failed, and that resource's scope
      is held back too. */
  lemma {:induction false} CreatorCause(o: seq<Entry>, act: Acts, n: nat, creator: string) returns (c: nat)
    requires n <= |o| && creator in Swept(o[..n], act).creators
    ensures c < n && !o[c].kind.Actor? && o[c].creator == creator != ""
    ensures Scope(o[c]) == "" || Scope(o[c]) in Swept(o[..n], act).scopes
    decreases n
  {
    SweptStep(o, act, n - 1);
    if creator in Swept(o[..n - 1], act).creators {
      c := CreatorCause(o, act, n - 1, creator);
    } else {
      c := n - 1;
    }
  }

  /** Only visited entries are moved. */
  lemma {:induction false} MovedVisited(o: seq<Entry>, act: Acts, n: nat, e: Entry) returns (i: nat)
    requires n <= |o| && e in Swept(o[..n], act).moved
    ensures i < n && o[i] == e && !Skips(Swept(o[..i], act), e)
    decreases n
  {
    SweptStep(o, act, n - 1);
    if e in Swept(o[..n - 1], act).moved {
      i := MovedVisited(o, act, n - 1, e);
    } else {
      i := n - 1;
    }
  }

  lemma RankOrder(entries: seq<Entry>, i: nat, j: nat)
    requires i < |InOrder(entries)| && j < |InOrder(entries)| && Rank(InOrder(entries)[i]) < Rank(InOrder(entries)[j])
    ensures i < j
  {
    SortedStable(entries, Rank);
  }

  lemma PlaceIn(entries: seq<Entry>, e: Entry) returns (i: nat)
    requires e in entries
    ensures i < |InOrder(entries)| && InOrder(entries)[i] == e
  {
    SortedWithin(entries, Rank);
    var k :| 0 <= k < |entries| && entries[k] == e;
    i :| 0 <= i < |InOrder(entries)| && InOrder(entries)[i] == e;
  }

  lemma FromEntries(entries: seq<Entry>, i: nat)
    requires i < |InOrder(entries)|
    ensures InOrder(entries)[i] in entries
  {
    SortedWithin(entries, Rank);
  }

  predicate Depends(e: Entry, team: Entry) {
    team.kind.Team? && team.resource != "" && e.kind in {Export, Other, Actor} && e.workspace == team.resource
  }

  /** Every resource an actor created shares the actor's workspace, where a team of that
      workspace is to be removed too. */
  ghost predicate Bound(entries: seq<Entry>) {
    forall a, c, t :: a in entries && c in entries && t in entries && a.kind.Actor? && Depends(a, t) && Made(c, a) ==>
      c.workspace == a.workspace
  }

  predicate Made(c: Entry, a: Entry) { c.kind in {Export, Other} && c.creator != "" && c.creator == a.resource }

  // ---- what a pass does with each entry ----

  /** Exports go first, then other resources, then actors, then teams; within a kind the journal's
      order is kept. */
  lemma VisitOrder(entries: seq<Entry>, i: nat, j: nat)
    requires i < |InOrder(entries)| && j < |InOrder(entries)|
    ensures
      var a, b := InOrder(entries)[i].kind, InOrder(entries)[j].kind;
      && (a == Export && b != Export ==> i < j)
      && (a == Other && b in {Actor, Team} ==> i < j)
      && (a == Actor && b == Team ==> i < j)
  {
    SortedStable(entries, Rank);
  }

  function OfKind(entries: seq<Entry>, kind: Kind): seq<Entry>
    decreases |entries|
  {
    if entries == [] then []
    else
      var e := entries[|entries| - 1];
      OfKind(entries[..|entries| - 1], kind) + if e.kind == kind then [e] else []
  }

  lemma {:induction false} KindHaving(entries: seq<Entry>, e: Entry)
    ensures OfKind(entries, e.kind) == Having(entries, Rank, Rank(e))
    decreases |entries|
  {
    if entries != [] {
      KindHaving(entries[..|entries| - 1], e);
    }
  }

  lemma KindOrder(entries: seq<Entry>, kind: Kind)
    ensures OfKind(InOrder(entries), kind) == OfKind(entries, kind)
  {
    var e := Entry("", kind, "", "", "");
    SortedStable(entries, Rank);
    KindHaving(entries, e);
    KindHaving(InOrder(entries), e);
  }

  /** The failure of `c` holds `e` back: they share a scope, or `c` was made by the actor `e`. */
  predicate Blocks(c: Entry, e: Entry) {
    var scope := if e.kind.Team? then e.resource else e.workspace;
    || (scope != "" && scope == if c.kind.Team? then c.resource else c.workspace)
    || (e.kind.Actor? && !c.kind.Actor? && c.creator != "" && c.creator == e.resource)
  }

  /** Entry `n` is executed: nothing executed before it failed and holds it back. */
  ghost predicate Runs(o: seq<Entry>, act: Acts, n: nat)
    requires n < |o|
    decreases n
  {
    forall i: nat :: i < n && act(o[i]) != Done && Blocks(o[i], o[n]) ==> !Runs(o, act, i)
  }

  ghost predicate HoldsBack(o: seq<Entry>, act: Acts, i: nat, e: Entry)
    requires i < |o|
  {
    act(o[i]) != Done && Blocks(o[i], e) && Runs(o, act, i)
  }

  lemma SkipsVisit(s: Sweep, c: Entry, act: Acts, e: Entry)
    ensures Skips(Visit(s, c, act), e) <==> Skips(s, e) || (!Skips(s, c) && act(c) != Done && Blocks(c, e))
  {
  }

  lemma {:induction false} HeldScopes(o: seq<Entry>, act: Acts, n: nat, e: Entry)
    requires n <= |o|
    requires forall i :: 0 <= i < n ==> (Runs(o, act, i) <==> !Skips(Swept(o[..i], act), o[i]))
    ensures Skips(Swept(o[..n], act), e) <==> exists i: nat :: i < n && HoldsBack(o, act, i, e)
    decreases n
  {
    hide Runs, Visit, Blocks, Swept, Skips;
    if n == 0 {
      NoneHeld(o, act, e);
    } else {
      HeldScopes(o, act, n - 1, e);
      SweptStep(o, act, n - 1);
      SkipsVisit(Swept(o[..n - 1], act), o[n - 1], act, e);
      HoldsBackIff(o, act, n - 1, e);
    }
  }

  lemma HoldsBackIff(o: seq<Entry>, act: Acts, i: nat, e: Entry)
    requires i < |o|
    ensures HoldsBack(o, act, i, e) <==> Runs(o, act, i) && act(o[i]) != Done && Blocks(o[i], e)
  {
  }

  lemma RunsUnfold(o: seq<Entry>, act: Acts, n: nat)
    requires n < |o|
    ensures Runs(o, act, n) <==> forall i: nat :: i < n ==> !HoldsBack(o, act, i, o[n])
  {
    if Runs(o, act, n) {
      forall i: nat | i < n ensures !HoldsBack(o, act, i, o[n]) {
        assert act(o[i]) != Done && Blocks(o[i], o[n]) ==> !Runs(o, act, i);
      }
    } else {
      var i: nat :| i < n && act(o[i]) != Done && Blocks(o[i], o[n]) && Runs(o, act, i);
      assert HoldsBack(o, act, i, o[n]);
    }
  }

  lemma NoneHeld(o: seq<Entry>, act: Acts, e: Entry)
    ensures !Skips(Swept(o[..0], act), e)
  {
    assert o[..0] == [];
    assert Swept([], act) == BEGIN;
  }

  lemma {:induction false} RunsIff(o: seq<Entry>, act: Acts, n: nat)
    requires n < |o|
    ensures Runs(o, act, n) <==> !Skips(Swept(o[..n], act), o[n])
    decreases n
  {
    hide Skips, Swept, HoldsBack;
    forall i | 0 <= i < n ensures Runs(o, act, i) <==> !Skips(Swept(o[..i], act), o[i]) {
      RunsIff(o, act, i);
    }
    HeldScopes(o, act, n, o[n]);
    RunsUnfold(o, act, n);
  }

  /** Entry `n` is reported: it was held back, or executing or completing it failed. */
  ghost predicate Reported(o: seq<Entry>, act: Acts, n: nat)
    requires n < |o|
  {
    !Runs(o, act, n) || act(o[n]) != Done
  }

  ghost function Orders(o: seq<Entry>, act: Acts, n: nat): seq<string>
    requires n <= |o|
  {
    if n == 0 then [] else Orders(o, act, n - 1) + if Reported(o, act, n - 1) then [o[n - 1].order] else []
  }

  lemma VisitIs(s: Sweep, e: Entry, act: Acts, x: Entry)
    ensures
      var t := Visit(s, e, act);
      && t.errors == s.errors + (if Skips(s, e) || act(e) != Done then [e.order] else [])
      && (x in t.moved <==> x in s.moved || (x == e && !Skips(s, e) && act(e) in {Done, FlushFails}))
  {
  }

  /** The errors of a pass name, in order, exactly the entries that were held back or failed. */
  lemma {:induction false} ErrorsAre(o: seq<Entry>, act: Acts, n: nat)
    requires n <= |o|
    ensures Swept(o[..n], act).errors == Orders(o, act, n)
    decreases n
  {
    hide Runs, Skips, Visit;
    if n > 0 {
      ErrorsAre(o, act, n - 1);
      SweptStep(o, act, n - 1);
      RunsIff(o, act, n - 1);
      VisitIs(Swept(o[..n - 1], act), o[n - 1], act, o[n - 1]);
    }
  }

  /** An entry leaves the journal exactly if it was executed and its file moved. */
  lemma {:induction false} MovedIff(o: seq<Entry>, act: Acts, n: nat, e: Entry)
    requires n <= |o|
    ensures e in Swept(o[..n], act).moved <==>
              exists i: nat :: i < n && o[i] == e && Runs(o, act, i) && act(e) in {Done, FlushFails}
    decreases n
  {
    hide Runs, Skips, Visit;
    if n > 0 {
      MovedIff(o, act, n - 1, e);
      SweptStep(o, act, n - 1);
      RunsIff(o, act, n - 1);
      VisitIs(Swept(o[..n - 1], act), o[n - 1], act, e);
    }
  }

  /** A team is executed only when nothing in its scope failed before in the pass. */
  lemma TeamAfterFailure(o: seq<Entry>, act: Acts, i: nat, n: nat)
    requires i < n < |o| && o[n].kind.Team? && o[n].resource != "" && Scope(o[i]) == o[n].resource
    requires !Skips(Swept(o[..i], act), o[i]) && act(o[i]) != Done
    ensures Skips(Swept(o[..n], act), o[n]) && o[n].resource in Swept(o[..n], act).scopes
  {
    SweptStep(o, act, i);
    Grows(o, act, i + 1, n);
  }

  /** When a team is not held back, everything that depends on it was moved or is an actor held
      back through a resource it created. */
  lemma Settled(entries: seq<Entry>, act: Acts, n: nat, e: Entry)
    requires n < |InOrder(entries)| && e in entries && Depends(e, InOrder(entries)[n])
    requires !Skips(Swept(InOrder(entries)[..n], act), InOrder(entries)[n])
    ensures
      || e in Swept(InOrder(entries)[..n], act).moved
      || (e.kind.Actor? && exists c :: c in entries && Made(c, e) && c.workspace != e.workspace)
  {
    hide InOrder;
    var o := InOrder(entries);
    var i := PlaceIn(entries, e);
    RankOrder(entries, i, n);
    var s := Swept(o[..i], act);
    SweptStep(o, act, i);
    Grows(o, act, i, n);
    Grows(o, act, i + 1, n);
    if Skips(s, e) {
      var k := CreatorCause(o, act, i, e.resource);
      FromEntries(entries, k);
      CauseRank(entries, k, i);
      assert Made(o[k], e);
    } else if act(e) != Done {
      TeamAfterFailure(o, act, i, n);
    }
  }

  lemma CauseRank(entries: seq<Entry>, k: nat, i: nat)
    requires k < i < |InOrder(entries)| && InOrder(entries)[i].kind.Actor? && !InOrder(entries)[k].kind.Actor?
    ensures InOrder(entries)[k].kind in {Export, Other}
  {
    SortedStable(entries, Rank);
  }

  /** A pass never completes a team while something that depends on it stays. */
  ghost predicate SafePass(entries: seq<Entry>, act: Acts) {
    forall t, e :: t in entries && e in entries && Depends(e, t) && t in Pass(entries, act).moved ==>
        e in Pass(entries, act).moved
  }

  lemma BoundSafe(entries: seq<Entry>, act: Acts)
    requires Bound(entries)
    ensures SafePass(entries, act)
  {
    hide InOrder, Swept;
    var o := InOrder(entries);
    assert o[..|o|] == o;
    forall t, e | t in entries && e in entries && Depends(e, t) && t in Pass(entries, act).moved
      ensures e in Pass(entries, act).moved
    {
      var n := MovedVisited(o, act, |o|, t);
      Settled(entries, act, n, e);
      Grows(o, act, n, |o|);
    }
  }

  // ---- the condition is exact ----

  /** One failure, of `c`; everything else succeeds. */
  function Only(c: Entry): Acts { e => if e == c then ExecuteFails else Done }

  lemma {:induction false} OnlyFailure(o: seq<Entry>, c: Entry, n: nat)
    requires n <= |o|
    ensures Swept(o[..n], Only(c)).scopes <= {Scope(c)} && Swept(o[..n], Only(c)).creators <= {c.creator}
    decreases n
  {
    if n > 0 {
      SweptStep(o, Only(c), n - 1);
      OnlyFailure(o, c, n - 1);
    }
  }

  /** Once `c` failed, an actor it names as creator is never moved. */
  lemma {:induction false} HeldBack(o: seq<Entry>, c: Entry, a: Entry, at: nat, n: nat)
    requires at < n <= |o| && o[at] == c && Made(c, a) && a.kind.Actor?
    requires forall i :: 0 <= i < at ==> o[i] != c && o[i] != a
    ensures c.creator in Swept(o[..n], Only(c)).creators && a !in Swept(o[..n], Only(c)).moved
    decreases n
  {
    hide Swept;
    if n == at + 1 {
      NothingYet(o, c, at);
      SweptStep(o, Only(c), at);
      if a in Swept(o[..at], Only(c)).moved {
        var i := MovedVisited(o, Only(c), at, a);
      }
    } else {
      HeldBack(o, c, a, at, n - 1);
      SweptStep(o, Only(c), n - 1);
    }
  }

  lemma {:induction false} NothingYet(o: seq<Entry>, c: Entry, n: nat)
    requires n <= |o| && forall i :: 0 <= i < n ==> o[i] != c
    ensures Swept(o[..n], Only(c)).scopes == {} && Swept(o[..n], Only(c)).creators == {}
    decreases n
  {
    if n > 0 {
      SweptStep(o, Only(c), n - 1);
      NothingYet(o, c, n - 1);
    }
  }

  lemma {:induction false} FirstPlace(o: seq<Entry>, c: Entry, n: nat) returns (at: nat)
    requires n < |o| && o[n] == c
    ensures at <= n && o[at] == c && forall i :: 0 <= i < at ==> o[i] != c
    decreases n
  {
    if i :| 0 <= i < n && o[i] == c {
      at := FirstPlace(o, c, i);
    } else {
      at := n;
    }
  }

  /** A creator's resource outside the actor's workspace: the team goes while its actor stays. */
  lemma StrayUnsafe(entries: seq<Entry>, a: Entry, c: Entry, t: Entry)
    requires a in entries && c in entries && t in entries && a.kind.Actor? && Depends(a, t) && Made(c, a)
    requires c.workspace != a.workspace
    ensures t in Pass(entries, Only(c)).moved && a !in Pass(entries, Only(c)).moved
  {
    hide InOrder;
    var o := InOrder(entries);
    assert o[..|o|] == o;
    var k := PlaceIn(entries, c);
    var at := FirstPlace(o, c, k);
    forall i | 0 <= i < at ensures o[i] != a {
      if o[i] == a {
        RankOrder(entries, at, i);
      }
    }
    HeldBack(o, c, a, at, |o|);
    var n := PlaceIn(entries, t);
    OnlyFailure(o, c, n);
    SweptStep(o, Only(c), n);
    Grows(o, Only(c), n + 1, |o|);
  }

  /** Passes are safe under every combination of failures exactly when creators' resources share
      their actor's workspace. */
  lemma SafeIff(entries: seq<Entry>)
    ensures Bound(entries) <==> forall act :: SafePass(entries, act)
  {
    if Bound(entries) {
      forall act ensures SafePass(entries, act) {
        BoundSafe(entries, act);
      }
    } else {
      var a, c, t :| a in entries && c in entries && t in entries && a.kind.Actor? && Depends(a, t) && Made(c, a)
          && c.workspace != a.workspace;
      StrayUnsafe(entries, a, c, t);
      assert !SafePass(entries, Only(c));
    }
  }

  // ---- replays ----

  /** What is pending after each pass of a series. */
  function Replay(entries: seq<Entry>, acts: seq<Acts>): seq<Entry>
    decreases |acts|
  {
    if acts == [] then entries
    else var before := Replay(entries, acts[..|acts| - 1]); Left(before, Pass(before, acts[|acts| - 1]).moved)
  }

  lemma {:induction false} LeftIff(entries: seq<Entry>, moved: set<Entry>, e: Entry)
    ensures e in Left(entries, moved) <==> e in entries && e !in moved
    decreases |entries|
  {
    if entries != [] {
      assert entries == entries[..|entries| - 1] + [entries[|entries| - 1]];
      LeftIff(entries[..|entries| - 1], moved, e);
    }
  }

  lemma {:induction false} ReplayWithin(entries: seq<Entry>, acts: seq<Acts>, e: Entry)
    requires e in Replay(entries, acts)
    ensures e in entries
    decreases |acts|
  {
    if acts != [] {
      var before := Replay(entries, acts[..|acts| - 1]);
      LeftIff(before, Pass(before, acts[|acts| - 1]).moved, e);
      ReplayWithin(entries, acts[..|acts| - 1], e);
    }
  }

  lemma BoundWithin(entries: seq<Entry>, some: seq<Entry>)
    requires Bound(entries) && forall e :: e in some ==> e in entries
    ensures Bound(some)
  {
  }

  /** Over any number of replays, a team that is gone left nothing behind that depends on it. */
  lemma {:induction false} ReplaysSafe(entries: seq<Entry>, acts: seq<Acts>, t: Entry, e: Entry)
    requires Bound(entries) && t in entries && e in entries && Depends(e, t) && t !in Replay(entries, acts)
    ensures e !in Replay(entries, acts)
    decreases |acts|
  {
    hide Pass, Left;
    if acts != [] {
      var before := Replay(entries, acts[..|acts| - 1]);
      var moved := Pass(before, acts[|acts| - 1]).moved;
      LeftIff(before, moved, t);
      LeftIff(before, moved, e);
      if t !in before {
        ReplaysSafe(entries, acts[..|acts| - 1], t, e);
      } else {
        forall x | x in before ensures x in entries {
          ReplayWithin(entries, acts[..|acts| - 1], x);
        }
        BoundWithin(entries, before);
        BoundSafe(before, acts[|acts| - 1]);
      }
    }
  }

  // ---- the reported errors ----

  predicate AllDifferent(entries: seq<Entry>) { forall i, j :: 0 <= i < j < |entries| ==> entries[i] != entries[j] }

  lemma NotYetMoved(o: seq<Entry>, act: Acts, n: nat)
    requires n < |o| && AllDifferent(o)
    ensures o[n] !in Swept(o[..n], act).moved
  {
    if o[n] in Swept(o[..n], act).moved {
      var i := MovedVisited(o, act, n, o[n]);
    }
  }

  /** How many of the entries were moved before their flush failed. */
  function Flushes(executed: seq<Entry>, act: Acts): nat
    decreases |executed|
  {
    if executed == [] then 0
    else Flushes(executed[..|executed| - 1], act) + if act(executed[|executed| - 1]) == FlushFails then 1 else 0
  }

  lemma FlushesAppend(executed: seq<Entry>, e: Entry, act: Acts)
    ensures Flushes(executed + [e], act) == Flushes(executed, act) + if act(e) == FlushFails then 1 else 0
  {
    assert (executed + [e])[..|executed|] == executed;
  }

  lemma {:induction false} NoFlushes(executed: seq<Entry>, act: Acts)
    ensures Flushes(executed, act) == 0 <==> forall e :: e in executed ==> act(e) != FlushFails
    decreases |executed|
  {
    if executed != [] {
      assert executed == executed[..|executed| - 1] + [executed[|executed| - 1]];
      NoFlushes(executed[..|executed| - 1], act);
    }
  }

  /** One visit adds one move, or one report, or both when only the flush failed. */
  lemma ErrorsVisit(s: Sweep, e: Entry, act: Acts)
    requires e !in s.moved
    ensures
      var t := Visit(s, e, act);
      |t.errors| + |t.moved| + Flushes(s.executed, act) == |s.errors| + |s.moved| + 1 + Flushes(t.executed, act)
  {
    assert |s.moved + {e}| == |s.moved| + 1;
    FlushesAppend(s.executed, e, act);
  }

  lemma {:induction false} ErrorsSwept(o: seq<Entry>, act: Acts, n: nat)
    requires n <= |o| && AllDifferent(o)
    ensures
      var s := Swept(o[..n], act);
      |s.errors| + |s.moved| == n + Flushes(s.executed, act)
    decreases n
  {
    hide Visit;
    if n > 0 {
      ErrorsSwept(o, act, n - 1);
      SweptStep(o, act, n - 1);
      NotYetMoved(o, act, n - 1);
      ErrorsVisit(Swept(o[..n - 1], act), o[n - 1], act);
    }
  }

  lemma {:induction false} LeftCount(entries: seq<Entry>, moved: set<Entry>)
    requires AllDifferent(entries) && forall e :: e in moved ==> e in entries
    ensures |Left(entries, moved)| + |moved| == |entries|
    decreases |entries|
  {
    if entries == [] {
      assert moved == {};
    } else {
      var init, last := entries[..|entries| - 1], entries[|entries| - 1];
      assert entries == init + [last];
      var rest := moved - {last};
      LeftCount(init, rest);
      LeftSame(init, rest, moved);
      assert last in moved ==> moved == rest + {last};
      assert last !in moved ==> moved == rest;
    }
  }

  lemma {:induction false} LeftSame(entries: seq<Entry>, a: set<Entry>, b: set<Entry>)
    requires forall e :: e in entries ==> (e in a <==> e in b)
    ensures Left(entries, a) == Left(entries, b)
    decreases |entries|
  {
    if entries != [] {
      assert entries == entries[..|entries| - 1] + [entries[|entries| - 1]];
      LeftSame(entries[..|entries| - 1], a, b);
    }
  }

  lemma {:induction false} InsertDifferent(s: seq<Entry>, x: Entry)
    requires AllDifferent(s) && x !in s
    ensures AllDifferent(Insert(s, x, Rank))
  {
    var k := InsertAt(s, x, Rank);
  }

  lemma {:induction false} SortedDifferent(entries: seq<Entry>)
    requires AllDifferent(entries)
    ensures AllDifferent(InOrder(entries))
    decreases |entries|
  {
    if entries != [] {
      var init, last := entries[..|entries| - 1], entries[|entries| - 1];
      SortedDifferent(init);
      SortedWithin(init, Rank);
      assert last !in init;
      assert last !in InOrder(init);
      InsertDifferent(InOrder(init), last);
    }
  }

  /** A pass reports as many errors as entries stay pending, plus those moved before their flush
      failed; so the two agree exactly when no entry it executed ends that way. */
  lemma ErrorCount(entries: seq<Entry>, act: Acts)
    requires AllDifferent(entries)
    ensures
      var s := Pass(entries, act);
      && |s.errors| == |Left(entries, s.moved)| + Flushes(s.executed, act)
      && (|s.errors| == |Left(entries, s.moved)| <==> forall e :: e in s.executed ==> act(e) != FlushFails)
  {
    hide InOrder, Swept, Left;
    var o := InOrder(entries);
    assert o[..|o|] == o;
    SortedLength(entries);
    SortedDifferent(entries);
    ErrorsSwept(o, act, |o|);
    var s := Pass(entries, act);
    forall e | e in s.moved ensures e in entries {
      var i := MovedVisited(o, act, |o|, e);
      FromEntries(entries, i);
    }
    LeftCount(entries, s.moved);
    NoFlushes(s.executed, act);
  }

  lemma {:induction false} ExecutedVisited(o: seq<Entry>, act: Acts, n: nat, e: Entry)
    requires n <= |o| && e in Swept(o[..n], act).executed
    ensures e in o
    decreases n
  {
    SweptStep(o, act, n - 1);
    if e in Swept(o[..n - 1], act).executed {
      ExecutedVisited(o, act, n - 1, e);
    }
  }

  /** What a caller can rely on: if no entry can fail after its move, errors count what is left. */
  lemma ErrorsCountPending(entries: seq<Entry>, act: Acts)
    requires AllDifferent(entries) && forall e :: e in entries ==> act(e) != FlushFails
    ensures |Pass(entries, act).errors| == |Left(entries, Pass(entries, act).moved)|
  {
    hide InOrder, Swept, Left;
    var o := InOrder(entries);
    assert o[..|o|] == o;
    forall e | e in Pass(entries, act).executed ensures act(e) != FlushFails {
      ExecutedVisited(o, act, |o|, e);
      var i :| 0 <= i < |o| && o[i] == e;
      FromEntries(entries, i);
    }
    ErrorCount(entries, act);
  }

  /** One entry that is moved and then fails to flush is reported although nothing is pending. */
  lemma FlushReported(e: Entry)
    ensures
      var s := Pass([e], _ => FlushFails);
      |s.errors| == 1 && Left([e], s.moved) == []
  {
    var act: Acts := _ => FlushFails;
    assert [e][..0] == [];
    assert InOrder([e]) == [e];
    assert Swept([e], act) == Visit(BEGIN, e, act);
  }

  lemma SortedLength(entries: seq<Entry>)
    ensures |InOrder(entries)| == |entries|
  {
  }

  // ---- the loops ----

  /** The pass as it runs. */
  method RunResources(entries: seq<Entry>, act: Acts) returns (errors: seq<string>, moved: set<Entry>)
    ensures errors == Pass(entries, act).errors && moved == Pass(entries, act).moved
    ensures
      var o := InOrder(entries);
      && errors == Orders(o, act, |o|)
      && forall e :: e in moved <==>
           exists i: nat :: i < |o| && o[i] == e && Runs(o, act, i) && act(e) in {Done, FlushFails}
  {
    hide InOrder, Runs;
    var ordered := InOrder(entries);
    var scopes: set<string>, creators: set<string> := {}, {};
    errors, moved := [], {};
    for n := 0 to |ordered|
      invariant
        var s := Swept(ordered[..n], act);
        scopes == s.scopes && creators == s.creators && errors == s.errors && moved == s.moved
    {
      SweptStep(ordered, act, n);
      var entry := ordered[n];
      var scope := if entry.kind.Team? then entry.resource else entry.workspace;
      if (scope != "" && scope in scopes) || (entry.kind.Actor? && entry.resource in creators) {
        errors := errors + [entry.order];
        continue;
      }
      var outcome := act(entry);
      if outcome == Done || outcome == FlushFails {
        moved := moved + {entry};
      }
      if outcome != Done {
        errors := errors + [entry.order];
        if scope != "" {
          scopes := scopes + {scope};
        }
        if !entry.kind.Actor? && entry.creator != "" {
          creators := creators + {entry.creator};
        }
      }
    }
    assert ordered[..|ordered|] == ordered;
    ErrorsAre(ordered, act, |ordered|);
    forall e {
      MovedIff(ordered, act, |ordered|, e);
    }
  }
}
