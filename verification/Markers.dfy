/** The causal-marker join: which marker a progress row was captured under. */
module Markers {
  import opened Basics
  import opened Ordering
  import opened PublicGroups
  import opened CapacityIndex

  datatype Marker = Marker(id: string, window: string, boot: string, sequence: int, scheduled: int, sent: int,
                           installed: nat, completed: int)

  datatype Window = Window(id: string, guestStart: int, received: int, markerCount: nat)

  datatype Progress = Progress(window: string, boot: string, markerId: string, markerSequence: int, captured: int,
      before: int)

  function WindowOf(m: Marker): string { m.window }

  function SequenceOf(m: Marker): real { m.sequence as real }

  /** The markers of a window, sorted by sequence number. */
  function InWindow(markers: seq<Marker>, window: string): seq<Marker> {
    Plain(markers, WindowOf, ByValue(SequenceOf), window)
  }

  // ---- what is checked ----

  predicate UniqueIds(markers: seq<Marker>) { forall i, j :: 0 <= i < j < |markers| ==> markers[i].id != markers[j].id }

  predicate NoOrphans(markers: seq<Marker>, windows: seq<Window>) {
    forall i :: 0 <= i < |markers| ==> Placed(windows, markers[i].window)
  }

  predicate Placed(windows: seq<Window>, window: string) {
    exists k :: 0 <= k < |windows| && windows[k].id == window
  }

  predicate DistinctSequences(o: seq<Marker>) { forall i, j :: 0 <= i < j < |o| ==> o[i].sequence != o[j].sequence }

  predicate Follows(a: Marker, b: Marker) { a.sent < b.sent && a.installed < b.installed && a.completed <= b.sent }

  predicate Pairwise(o: seq<Marker>) { forall i :: 0 <= i < |o| - 1 ==> Follows(o[i], o[i + 1]) }

  predicate Scheduled(w: Window, o: seq<Marker>, cadence: int) {
    forall i :: 0 <= i < |o| ==> o[i].sequence == i + 1 && o[i].scheduled == w.received + i * cadence
  }

  predicate WindowOk(w: Window, o: seq<Marker>, cadence: int) {
    && o != [] && DistinctSequences(o) && Pairwise(o) && |o| == w.markerCount && o[0].installed < w.guestStart
    && Scheduled(w, o, cadence)
  }

  /** The last-write map from a marker to the install time of the next one. */
  function NextOf(next: map<string, nat>, o: seq<Marker>, n: nat): map<string, nat>
    requires n == 0 || n < |o|
  {
    if n == 0 then next else NextOf(next, o, n - 1)[o[n - 1].id := o[n].installed]
  }

  function Last(o: seq<Marker>): nat { if o == [] then 0 else |o| - 1 }

  function NextMap(windows: seq<Window>, markers: seq<Marker>, k: nat): map<string, nat>
    requires k <= |windows|
  {
    if k == 0 then map[]
    else
      var o := InWindow(markers, windows[k - 1].id);
      NextOf(NextMap(windows, markers, k - 1), o, Last(o))
  }

  predicate RowOk(row: Progress, m: Marker, next: map<string, nat>) {
    && m.id == row.markerId && m.window == row.window && m.boot == row.boot && m.sequence == row.markerSequence
    && m.installed <= row.captured <= row.before
    && (m.id in next ==> row.captured < next[m.id])
  }

  // ---- what it means ----

  /** The row's marker is the only latest one of its window installed by the capture time. */
  predicate Latest(markers: seq<Marker>, row: Progress, m: Marker) {
    && m in markers && m.id == row.markerId && m.window == row.window && m.boot == row.boot
         && m.sequence == row.markerSequence
    && m.installed <= row.captured <= row.before
    && forall i :: 0 <= i < |markers| ==>
         markers[i] == m || markers[i].window != row.window || row.captured < markers[i].installed
             || markers[i].installed < m.installed
  }

  predicate Attached(markers: seq<Marker>, row: Progress) { exists m :: m in markers && Latest(markers, row, m) }

  predicate DistinctWindows(windows: seq<Window>) {
    forall i, j :: 0 <= i < j < |windows| ==> windows[i].id != windows[j].id
  }

  ghost predicate Structure(windows: seq<Window>, markers: seq<Marker>, cadence: int) {
    && UniqueIds(markers) && NoOrphans(markers, windows)
    && forall k :: 0 <= k < |windows| ==> WindowOk(windows[k], InWindow(markers, windows[k].id), cadence)
  }

  /** Well-scheduled markers, and every progress row under its unique latest one. */
  ghost predicate Acceptable(windows: seq<Window>, markers: seq<Marker>, rows: seq<Progress>, cadence: int) {
    Structure(windows, markers, cadence) && forall r :: 0 <= r < |rows| ==> Attached(markers, rows[r])
  }

  lemma SameId(markers: seq<Marker>, a: Marker, b: Marker)
    requires UniqueIds(markers) && a in markers && b in markers && a.id == b.id
    ensures a == b
  {
    var i :| 0 <= i < |markers| && markers[i] == a;
    var j :| 0 <= j < |markers| && markers[j] == b;
  }

  lemma {:induction false} FilterIff(markers: seq<Marker>, window: string, m: Marker)
    ensures m in Filter(markers, WindowOf, window) <==> m in markers && m.window == window
    decreases |markers|
  {
    if markers != [] {
      var init, last := markers[..|markers| - 1], markers[|markers| - 1];
      assert markers == init + [last];
      FilterIff(init, window, m);
    }
  }

  lemma InWindowIff(markers: seq<Marker>, window: string, m: Marker)
    ensures m in InWindow(markers, window) <==> m in markers && m.window == window
  {
    var f := Filter(markers, WindowOf, window);
    FilterIff(markers, window, m);
    SortedWithin(f, SequenceOf);
    var s := Sorted(f, SequenceOf);
    if m in s {
      var i :| 0 <= i < |s| && s[i] == m;
    }
    if m in f {
      var i :| 0 <= i < |f| && f[i] == m;
    }
  }

  // ---- what a well-scheduled window is, marker by marker ----

  /** Markers of one window, numbered differently, in the order of their numbers. */
  predicate InTurn(a: Marker, b: Marker) {
    && a.sequence != b.sequence
    && (a.sequence < b.sequence ==> a.sent < b.sent && a.installed < b.installed && a.completed <= b.sent)
  }

  predicate OnTime(w: Window, m: Marker, cadence: int) {
    && 1 <= m.sequence <= w.markerCount && m.scheduled == w.received + (m.sequence - 1) * cadence
    && (m.sequence == 1 ==> m.installed < w.guestStart)
  }

  predicate Includes(markers: seq<Marker>, window: string, number: int) {
    exists i :: 0 <= i < |markers| && markers[i].window == window && markers[i].sequence == number
  }

  predicate Share(a: Marker, b: Marker, window: string) { a.window == window == b.window }

  /** Any two markers of the window are in turn. */
  predicate PairsInTurn(markers: seq<Marker>, window: string) {
    forall i, j :: 0 <= i < |markers| && 0 <= j < |markers| && i != j && Share(markers[i], markers[j], window) ==>
      InTurn(markers[i], markers[j])
  }

  /** The window has markers one to `markerCount`, each on time, and any two of them in turn. */
  ghost predicate WellScheduled(w: Window, markers: seq<Marker>, cadence: int) {
    && w.markerCount > 0 && (forall number :: 1 <= number <= w.markerCount ==> Includes(markers, w.id, number))
    && (forall i :: 0 <= i < |markers| && markers[i].window == w.id ==> OnTime(w, markers[i], cadence))
    && PairsInTurn(markers, w.id)
  }

  predicate EachInTurn(o: seq<Marker>) { forall i, j :: 0 <= i < j < |o| ==> InTurn(o[i], o[j]) && InTurn(o[j], o[i]) }

  lemma {:induction false} FilterInTurn(markers: seq<Marker>, window: string)
    requires PairsInTurn(markers, window)
    ensures EachInTurn(Filter(markers, WindowOf, window))
    decreases |markers|
  {
    hide InTurn;
    if markers != [] {
      var n := |markers| - 1;
      var init := markers[..n];
      assert forall i :: 0 <= i < n ==> init[i] == markers[i];
      FilterInTurn(init, window);
      var f := Filter(init, WindowOf, window);
      if markers[n].window == window {
        forall i | 0 <= i < |f| ensures InTurn(f[i], markers[n]) && InTurn(markers[n], f[i]) {
          FilterIff(init, window, f[i]);
          var k :| 0 <= k < n && init[k] == f[i];
          assert Share(markers[k], markers[n], window) && Share(markers[n], markers[k], window);
        }
      }
    }
  }

  lemma {:induction false} SortedInTurn(f: seq<Marker>)
    requires EachInTurn(f)
    ensures EachInTurn(Sorted(f, SequenceOf))
    decreases |f|
  {
    hide InTurn;
    if f != [] {
      var n := |f| - 1;
      var init := f[..n];
      assert forall i :: 0 <= i < n ==> init[i] == f[i];
      SortedInTurn(init);
      SortedWithin(init, SequenceOf);
      var t := Sorted(init, SequenceOf);
      forall i | 0 <= i < |t| ensures InTurn(t[i], f[n]) && InTurn(f[n], t[i]) {
        assert t[i] in init;
        var k :| 0 <= k < n && init[k] == t[i];
        assert f[k] == t[i];
      }
      InsertInTurn(t, f[n]);
    }
  }

  lemma InsertInTurn(t: seq<Marker>, x: Marker)
    requires EachInTurn(t) && forall i :: 0 <= i < |t| ==> InTurn(t[i], x) && InTurn(x, t[i])
    ensures EachInTurn(Insert(t, x, SequenceOf))
  {
    hide InTurn;
    var k := InsertAt(t, x, SequenceOf);
    var r := Insert(t, x, SequenceOf);
    forall i, j | 0 <= i < j < |r| ensures InTurn(r[i], r[j]) && InTurn(r[j], r[i]) {
      var a, b := if i < k then i else i - 1, if j < k then j else j - 1;
      assert i != k ==> r[i] == t[a];
      assert j != k ==> r[j] == t[b];
    }
  }

  /** Numbers that increase from place to place within one to `n` and leave none out are the places. */
  lemma {:induction false} NumbersArePlaces(o: seq<Marker>, n: nat)
    requires forall i, j :: 0 <= i < j < |o| ==> o[i].sequence < o[j].sequence
    requires forall i :: 0 <= i < |o| ==> 1 <= o[i].sequence <= n
    requires forall number :: 1 <= number <= n ==> Has(o, number)
    ensures |o| == n && forall i :: 0 <= i < |o| ==> o[i].sequence == i + 1
    decreases |o|
  {
    if o == [] {
      assert n >= 1 ==> Has(o, 1);
    } else {
      var last := |o| - 1;
      assert 1 <= o[last].sequence <= n;
      assert Has(o, n);
      var k :| 0 <= k < |o| && o[k].sequence == n;
      assert k == last;
      var init := o[..last];
      forall number | 1 <= number <= n - 1 ensures Has(init, number) {
        assert Has(o, number);
        var i :| 0 <= i < |o| && o[i].sequence == number;
        assert init[i] == o[i];
      }
      NumbersArePlaces(init, n - 1);
      assert forall i :: 0 <= i < last ==> init[i] == o[i];
    }
  }

  predicate Has(o: seq<Marker>, number: int) { exists i :: 0 <= i < |o| && o[i].sequence == number }

  lemma WellScheduledWalks(w: Window, markers: seq<Marker>, cadence: int)
    requires WellScheduled(w, markers, cadence)
    ensures WindowOk(w, InWindow(markers, w.id), cadence)
  {
    hide Sorted, Filter;
    var f := Filter(markers, WindowOf, w.id);
    var o := InWindow(markers, w.id);
    FilterInTurn(markers, w.id);
    SortedInTurn(f);
    SortedStable(f, SequenceOf);
    forall i | 0 <= i < |o| ensures OnTime(w, o[i], cadence) {
      InWindowIff(markers, w.id, o[i]);
      var k :| 0 <= k < |markers| && markers[k] == o[i];
    }
    forall i, j | 0 <= i < j < |o| ensures o[i].sequence < o[j].sequence {
      assert SequenceOf(o[i]) <= SequenceOf(o[j]) && InTurn(o[i], o[j]);
    }
    forall number | 1 <= number <= w.markerCount ensures Has(o, number) {
      assert Includes(markers, w.id, number);
      var i :| 0 <= i < |markers| && markers[i].window == w.id && markers[i].sequence == number;
      InWindowIff(markers, w.id, markers[i]);
      var k :| 0 <= k < |o| && o[k] == markers[i];
    }
    NumbersArePlaces(o, w.markerCount);
  }

  lemma WalksWellScheduled(w: Window, markers: seq<Marker>, cadence: int)
    requires UniqueIds(markers) && WindowOk(w, InWindow(markers, w.id), cadence)
    ensures WellScheduled(w, markers, cadence)
  {
    hide InWindow;
    var o := InWindow(markers, w.id);
    forall number | 1 <= number <= w.markerCount ensures Includes(markers, w.id, number) {
      var m := o[number - 1];
      InWindowIff(markers, w.id, m);
      var i :| 0 <= i < |markers| && markers[i] == m;
    }
    forall i | 0 <= i < |markers| && markers[i].window == w.id ensures OnTime(w, markers[i], cadence) {
      var k := OrderedPlace(markers, w, i);
    }
    forall i, j | 0 <= i < |markers| && 0 <= j < |markers| && i != j && Share(markers[i], markers[j], w.id)
      ensures InTurn(markers[i], markers[j])
    {
      var k := OrderedPlace(markers, w, i);
      var l := OrderedPlace(markers, w, j);
      assert markers[i].id != markers[j].id;
      if k < l {
        GlobalOrder(o, k, l);
        CompletedBefore(o, k, l);
      }
    }
  }

  lemma OrderedPlace(markers: seq<Marker>, w: Window, i: nat) returns (k: nat)
    requires i < |markers| && markers[i].window == w.id
    ensures k < |InWindow(markers, w.id)| && InWindow(markers, w.id)[k] == markers[i]
  {
    hide InWindow;
    InWindowIff(markers, w.id, markers[i]);
    k :| 0 <= k < |InWindow(markers, w.id)| && InWindow(markers, w.id)[k] == markers[i];
  }

  lemma CompletedBefore(o: seq<Marker>, i: nat, j: nat)
    requires Pairwise(o) && i < j < |o|
    ensures o[i].completed <= o[j].sent
  {
    assert Follows(o[i], o[i + 1]);
    if i + 1 < j {
      GlobalOrder(o, i + 1, j);
    }
  }

  /** The whole join, marker by marker: identities differ, every marker is of a window, every window is
      well scheduled, and every progress row is under its unique latest marker. */
  lemma AcceptableIff(windows: seq<Window>, markers: seq<Marker>, rows: seq<Progress>, cadence: int)
    ensures Acceptable(windows, markers, rows, cadence) <==>
              && (forall i, j :: 0 <= i < j < |markers| ==> markers[i].id != markers[j].id)
              && (forall i :: 0 <= i < |markers| ==> Placed(windows, markers[i].window))
              && (forall k :: 0 <= k < |windows| ==> WellScheduled(windows[k], markers, cadence))
              && forall r :: 0 <= r < |rows| ==> Attached(markers, rows[r])
  {
    hide WindowOk, WellScheduled, Attached, InWindow, Placed;
    if UniqueIds(markers) {
      forall k | 0 <= k < |windows|
        ensures WindowOk(windows[k], InWindow(markers, windows[k].id), cadence) <==>
                  WellScheduled(windows[k], markers, cadence)
      {
        WindowIff(windows[k], markers, cadence);
      }
    }
  }

  /** The checks of a window pass exactly when it is well scheduled. */
  lemma WindowIff(w: Window, markers: seq<Marker>, cadence: int)
    requires UniqueIds(markers)
    ensures WindowOk(w, InWindow(markers, w.id), cadence) <==> WellScheduled(w, markers, cadence)
  {
    hide WindowOk, WellScheduled;
    if WellScheduled(w, markers, cadence) {
      WellScheduledWalks(w, markers, cadence);
    }
    if WindowOk(w, InWindow(markers, w.id), cadence) {
      WalksWellScheduled(w, markers, cadence);
    }
  }

  /** Adjacent order is global order. */
  lemma {:induction false} GlobalOrder(o: seq<Marker>, i: nat, j: nat)
    requires Pairwise(o) && i < j < |o|
    ensures o[i].installed < o[j].installed && o[i].sent < o[j].sent
    decreases j
  {
    assert Follows(o[j - 1], o[j]);
    if i < j - 1 {
      GlobalOrder(o, i, j - 1);
    }
  }

  lemma {:induction false} NextOther(next: map<string, nat>, o: seq<Marker>, n: nat, id: string)
    requires n == 0 || n < |o|
    requires forall i :: 0 <= i < n ==> o[i].id != id
    ensures id in NextOf(next, o, n) <==> id in next
    ensures id in next ==> NextOf(next, o, n)[id] == next[id]
    decreases n
  {
    if n > 0 {
      NextOther(next, o, n - 1, id);
    }
  }

  predicate DistinctIds(o: seq<Marker>) { forall i, j :: 0 <= i < j < |o| ==> o[i].id != o[j].id }

  lemma {:induction false} NextAt(next: map<string, nat>, o: seq<Marker>, n: nat, i: nat)
    requires n < |o| && i < n && DistinctIds(o)
    ensures o[i].id in NextOf(next, o, n) && NextOf(next, o, n)[o[i].id] == o[i + 1].installed
    decreases n
  {
    if i < n - 1 {
      NextAt(next, o, n - 1, i);
    }
  }

  lemma OwnIds(markers: seq<Marker>, o: seq<Marker>, window: string)
    requires UniqueIds(markers) && o == InWindow(markers, window) && DistinctSequences(o)
    ensures DistinctIds(o)
  {
    forall i, j | 0 <= i < j < |o| ensures o[i].id != o[j].id {
      InWindowIff(markers, window, o[i]);
      InWindowIff(markers, window, o[j]);
      if o[i].id == o[j].id {
        SameId(markers, o[i], o[j]);
      }
    }
  }

  /** A marker is written only while its own window is walked. */
  lemma ForeignIds(markers: seq<Marker>, window: string, m: Marker)
    requires UniqueIds(markers) && m in markers && m.window != window
    ensures forall i :: 0 <= i < |InWindow(markers, window)| ==> InWindow(markers, window)[i].id != m.id
  {
    var o := InWindow(markers, window);
    forall i | 0 <= i < |o| ensures o[i].id != m.id {
      InWindowIff(markers, window, o[i]);
      if o[i].id == m.id {
        SameId(markers, o[i], m);
      }
    }
  }

  lemma {:induction false} NextBefore(windows: seq<Window>, markers: seq<Marker>, k: nat, m: Marker)
    requires UniqueIds(markers) && m in markers && k <= |windows|
    requires forall i :: 0 <= i < k ==> windows[i].id != m.window
    ensures m.id !in NextMap(windows, markers, k)
    decreases k
  {
    if k > 0 {
      NextBefore(windows, markers, k - 1, m);
      var o := InWindow(markers, windows[k - 1].id);
      ForeignIds(markers, windows[k - 1].id, m);
      NextOther(NextMap(windows, markers, k - 1), o, Last(o), m.id);
    }
  }

  /** The map holds the sorted successor of every marker that has one, and nothing else. */
  lemma {:induction false} NextIsSuccessor(windows: seq<Window>, markers: seq<Marker>, k: nat, w: nat, i: nat)
    requires UniqueIds(markers) && DistinctWindows(windows) && w < k <= |windows|
    requires DistinctSequences(InWindow(markers, windows[w].id)) && i < |InWindow(markers, windows[w].id)|
    ensures
      var o := InWindow(markers, windows[w].id);
      var next := NextMap(windows, markers, k);
      && (o[i].id in next <==> i + 1 < |o|)
      && (i + 1 < |o| ==> next[o[i].id] == o[i + 1].installed)
    decreases k
  {
    hide InWindow;
    var o := InWindow(markers, windows[w].id);
    InWindowIff(markers, windows[w].id, o[i]);
    var last := InWindow(markers, windows[k - 1].id);
    var earlier := NextMap(windows, markers, k - 1);
    if w < k - 1 {
      NextIsSuccessor(windows, markers, k - 1, w, i);
      ForeignIds(markers, windows[k - 1].id, o[i]);
      NextOther(earlier, last, Last(last), o[i].id);
    } else {
      OwnIds(markers, o, windows[w].id);
      if i + 1 < |o| {
        NextAt(earlier, o, |o| - 1, i);
      } else {
        NextBefore(windows, markers, k - 1, o[i]);
        NextOther(earlier, o, |o| - 1, o[i].id);
      }
    }
  }

  predicate LatestIn(o: seq<Marker>, captured: int, m: Marker) {
    forall j :: 0 <= j < |o| ==> o[j] == m || captured < o[j].installed || o[j].installed < m.installed
  }

  lemma LatestInIff(o: seq<Marker>, i: nat, captured: int)
    requires Pairwise(o) && i < |o| && o[i].installed <= captured
    ensures LatestIn(o, captured, o[i]) <==> (i + 1 < |o| ==> captured < o[i + 1].installed)
  {
    if i + 1 < |o| {
      GlobalOrder(o, i, i + 1);
    }
    if i + 1 < |o| ==> captured < o[i + 1].installed {
      forall j | 0 <= j < |o| ensures o[j] == o[i] || captured < o[j].installed || o[j].installed < o[i].installed {
        Neighbours(o, i, j);
      }
    }
  }

  lemma LatestWindow(markers: seq<Marker>, row: Progress, m: Marker)
    requires m in markers && m.id == row.markerId && m.window == row.window && m.boot == row.boot
    requires m.sequence == row.markerSequence
    requires m.installed <= row.captured <= row.before
    ensures Latest(markers, row, m) <==> LatestIn(InWindow(markers, row.window), row.captured, m)
  {
    hide InWindow;
    var o := InWindow(markers, row.window);
    if LatestIn(o, row.captured, m) {
      forall i | 0 <= i < |markers| && markers[i].window == row.window
        ensures markers[i] == m || row.captured < markers[i].installed || markers[i].installed < m.installed
      {
        InWindowIff(markers, row.window, markers[i]);
        var j :| 0 <= j < |o| && o[j] == markers[i];
      }
    }
    if Latest(markers, row, m) {
      forall j | 0 <= j < |o| ensures o[j] == m || row.captured < o[j].installed || o[j].installed < m.installed {
        InWindowIff(markers, row.window, o[j]);
        var i :| 0 <= i < |markers| && markers[i] == o[j];
      }
    }
  }

  /** A row passes exactly when its marker is the unique latest one at the capture time. */
  lemma RowIff(windows: seq<Window>, markers: seq<Marker>, cadence: int, row: Progress, m: Marker)
    requires DistinctWindows(windows) && Structure(windows, markers, cadence) && m in markers
    ensures RowOk(row, m, NextMap(windows, markers, |windows|)) <==> Latest(markers, row, m)
  {
    hide InWindow, NextMap, Latest, LatestIn;
    if m.id == row.markerId && m.window == row.window && m.boot == row.boot && m.sequence == row.markerSequence
       && m.installed <= row.captured <= row.before
    {
      var w, i := PlaceOf(windows, markers, cadence, m);
      var o := InWindow(markers, m.window);
      NextIsSuccessor(windows, markers, |windows|, w, i);
      LatestInIff(o, i, row.captured);
      LatestWindow(markers, row, m);
    } else {
      NotLatest(markers, row, m);
    }
  }

  lemma NotLatest(markers: seq<Marker>, row: Progress, m: Marker)
    requires !(m.id == row.markerId && m.window == row.window && m.boot == row.boot && m.sequence == row.markerSequence
               && m.installed <= row.captured <= row.before)
    ensures !Latest(markers, row, m)
  {
  }

  lemma PlaceOf(windows: seq<Window>, markers: seq<Marker>, cadence: int, m: Marker) returns (w: nat, i: nat)
    requires Structure(windows, markers, cadence) && m in markers
    ensures w < |windows| && windows[w].id == m.window && i < |InWindow(markers, m.window)|
              && InWindow(markers, m.window)[i] == m
    ensures DistinctSequences(InWindow(markers, m.window)) && Pairwise(InWindow(markers, m.window))
  {
    hide InWindow;
    var at :| 0 <= at < |markers| && markers[at] == m;
    w :| 0 <= w < |windows| && windows[w].id == m.window;
    InWindowIff(markers, m.window, m);
    i :| 0 <= i < |InWindow(markers, m.window)| && InWindow(markers, m.window)[i] == m;
    assert WindowOk(windows[w], InWindow(markers, windows[w].id), cadence);
  }

  /** Everything after a place is installed no earlier than its successor, everything before it earlier. */
  lemma Neighbours(o: seq<Marker>, i: nat, j: nat)
    requires Pairwise(o) && i < |o| && j < |o|
    ensures j < i ==> o[j].installed < o[i].installed
    ensures j > i ==> o[i + 1].installed <= o[j].installed
  {
    if j < i {
      GlobalOrder(o, j, i);
    } else if j > i + 1 {
      GlobalOrder(o, i + 1, j);
    }
  }

  // ---- the checks as they run ----

  /** One window: its checks, then its writes into the map. */
  method WalkWindow(w: Window, o: seq<Marker>, cadence: int,
                    next: map<string, nat>) returns (ok: bool, written: map<string, nat>)
    ensures ok == WindowOk(w, o, cadence)
    ensures ok ==> written == NextOf(next, o, Last(o))
  {
    written := next;
    if o == [] || !DistinctSequences(o) || |o| != w.markerCount || !(o[0].installed < w.guestStart)
        || !Scheduled(w, o, cadence) {
      return false, written;
    }
    for i := 0 to |o| - 1
      invariant forall j :: 0 <= j < i ==> Follows(o[j], o[j + 1])
      invariant written == NextOf(next, o, i)
    {
      if !Follows(o[i], o[i + 1]) {
        return false, written;
      }
      written := written[o[i].id := o[i + 1].installed];
    }
    return true, written;
  }

  /** The whole join accepts exactly well-scheduled markers with every row under its latest one. */
  method Join(windows: seq<Window>, markers: seq<Marker>, rows: seq<Progress>, cadence: int) returns (ok: bool)
    requires DistinctWindows(windows)
    ensures ok <==> Acceptable(windows, markers, rows, cadence)
  {
    hide InWindow, Latest, WindowOk, UniqueIds, NoOrphans;
    if !UniqueIds(markers) || !NoOrphans(markers, windows) {
      return false;
    }
    var next: map<string, nat> := map[];
    for k := 0 to |windows|
      invariant forall i :: 0 <= i < k ==> WindowOk(windows[i], InWindow(markers, windows[i].id), cadence)
      invariant next == NextMap(windows, markers, k)
    {
      var fine;
      fine, next := WalkWindow(windows[k], InWindow(markers, windows[k].id), cadence, next);
      if !fine {
        return false;
      }
    }
    assert Structure(windows, markers, cadence);
    for r := 0 to |rows|
      invariant forall i :: 0 <= i < r ==> Attached(markers, rows[i])
    {
      var found := FindMarker(markers, rows[r].markerId);
      if found.None? {
        NoneLatest(markers, rows[r]);
        return false;
      }
      RowIff(windows, markers, cadence, rows[r], found.value);
      if !RowOk(rows[r], found.value, next) {
        OnlyLatest(markers, rows[r], found.value);
        return false;
      }
    }
    return true;
  }

  method FindMarker(markers: seq<Marker>, id: string) returns (m: Option<Marker>)
    ensures m.Some? ==> m.value in markers && m.value.id == id
    ensures m.None? ==> forall i :: 0 <= i < |markers| ==> markers[i].id != id
  {
    for i := 0 to |markers|
      invariant forall j :: 0 <= j < i ==> markers[j].id != id
    {
      if markers[i].id == id {
        return Some(markers[i]);
      }
    }
    return None;
  }

  lemma NoneLatest(markers: seq<Marker>, row: Progress)
    requires forall i :: 0 <= i < |markers| ==> markers[i].id != row.markerId
    ensures forall m :: m in markers ==> !Latest(markers, row, m)
  {
  }

  lemma OnlyLatest(markers: seq<Marker>, row: Progress, found: Marker)
    requires UniqueIds(markers) && found in markers && found.id == row.markerId && !Latest(markers, row, found)
    ensures forall m :: m in markers ==> !Latest(markers, row, m)
  {
    forall m | m in markers ensures !Latest(markers, row, m) {
      if m.id == row.markerId {
        SameId(markers, m, found);
      }
    }
  }

  // ---- the map kept in the index ----

  /** The latest row filed under each marker is the map's value for it. */
  ghost predicate Agrees(entries: seq<Entry>, stream: string, next: map<string, nat>) {
    forall id :: Newest(Rows(entries, Groups, stream, Some(id))) == if id in next then Some(Position(next[id]))
        else None
  }

  function Newest(rows: seq<Row<Payload>>): Option<Payload> {
    if rows == [] then None else Some(rows[|rows| - 1].payload)
  }

  /** Every write stays filed; a read answers the last one. */
  class NextMarkers {
    const index: Index
    const stream: string
    ghost var next: map<string, nat>

    ghost predicate Valid()
      reads this, index
    {
      index.Valid() && (index.valid ==> Agrees(index.entries, stream, next))
    }

    constructor (index: Index, stream: string)
      requires index.Valid() && forall id :: Rows(index.entries, Groups, stream, Some(id)) == []
      ensures Valid() && next == map[] && this.index == index && this.stream == stream
    {
      this.index, this.stream, next := index, stream, map[];
    }

    method Set(id: string, ns: nat, stored: bool) returns (ok: bool)
      requires Valid()
      modifies this, index
      ensures Valid() && ok == (old(index.valid) && stored) == index.valid
      ensures next == if ok then old(next)[id := ns] else old(next)
      ensures Frame(old(index.entries), old(index.filed), index.entries, index.filed, {(Groups, stream)})
    {
      hide Rows, Sound;
      ghost var entries := index.entries;
      var filed := index.Add(Groups, stream, id, 0.0, Position(ns), stored);
      if filed.Err? {
        return false;
      }
      ghost var e := index.entries[|entries|];
      FrameAdd(entries, index.filed, e);
      next := next[id := ns];
      forall other ensures
        Newest(Rows(index.entries, Groups, stream, Some(other))) == if other in next then Some(Position(next[other]))
            else None
      {
        RowsAppend(entries, e, Groups, stream, Some(other));
        assert Newest(Rows(entries, Groups, stream, Some(other))) ==
               if other in old(next) then Some(Position(old(next)[other])) else None;
      }
      return true;
    }

    /** Inserts elsewhere in the same index leave the map valid. */
    twostate lemma Kept(touched: set<(Kind, string)>)
      requires old(Valid()) && unchanged(this) && index.Valid() && (index.valid ==> old(index.valid))
      requires Frame(old(index.entries), old(index.filed), index.entries, index.filed, touched)
      requires (Groups, stream) !in touched
      ensures Valid()
    {
      hide Sound, Indexed, Rows, Taken;
      forall id
        ensures Rows(index.entries, Groups, stream, Some(id)) == Rows(old(index.entries), Groups, stream, Some(id))
      {
      }
    }

    method Get(id: string) returns (r: Result<Option<nat>>)
      requires Valid()
      ensures r.Ok? <==> index.valid
      ensures r.Ok? ==> r.value == if id in next then Some(next[id]) else None
    {
      hide Rows, Sound;
      var row := index.GroupLast(stream, id);
      if row.Err? {
        return Err(row.code);
      }
      assert Newest(Rows(index.entries, Groups, stream, Some(id))) == if id in next then Some(Position(next[id]))
          else None;
      return Ok(if row.value.None? then None else Some(row.value.value.payload.position));
    }
  }

  // ---- the join over one index ----

  /** One window read from the index and its successors written to the same index. */
  method WalkIndexed(w: Window, cadence: int, groups: Grouping<Marker>, following: NextMarkers, stored: nat -> bool)
    returns (r: Result<bool>)
    requires groups.index == following.index && groups.Valid() && following.Valid()
    requires groups.keyOf == WindowOf && groups.mode == ByValue(SequenceOf)
    modifies following, groups.index
    ensures groups.Valid() && following.Valid()
    ensures r.Err? ==> !groups.index.valid
    ensures r.Ok? ==>
              var o := InWindow(groups.rows, w.id);
              && (r.value <==> WindowOk(w, o, cadence))
              && (r.value ==> following.next == NextOf(old(following.next), o, Last(o)))
  {
    hide InWindow, Holds, Sound, Indexed, Frame, Agrees;
    var listed := groups.Listed(w.id, []);
    if listed.Err? {
      return Err(listed.code);
    }
    var o := listed.value;
    ListedWindow(groups.rows, w.id);
    if || o == [] || !DistinctSequences(o) || |o| != w.markerCount || !(o[0].installed < w.guestStart)
       || !Scheduled(w, o, cadence)
    {
      return Ok(false);
    }
    for i := 0 to |o| - 1
      invariant groups.Valid() && following.Valid()
      invariant forall j :: 0 <= j < i ==> Follows(o[j], o[j + 1])
      invariant following.next == NextOf(old(following.next), o, i)
    {
      if !Follows(o[i], o[i + 1]) {
        return Ok(false);
      }
      label Before:
      var ok := following.Set(o[i].id, o[i + 1].installed, stored(i));
      groups.Kept@Before({(Groups, following.stream)});
      if !ok {
        return Err("disposable index quota or storage failure");
      }
    }
    return Ok(true);
  }

  lemma ListedWindow(markers: seq<Marker>, window: string)
    ensures AllSteps([])
    ensures Slices(Plain(markers, WindowOf, ByValue(SequenceOf), window), []) == InWindow(markers, window)
  {
  }

  /** The join with groups and successors in one index, reads and writes interleaved: unless the
      storage fails it accepts exactly what the join in memory accepts. */
  method JoinIndexed(windows: seq<Window>, groups: Grouping<Marker>, following: NextMarkers, rows: seq<Progress>,
                     cadence: int, stored: (nat, nat) -> bool)
    returns (r: Result<bool>)
    requires DistinctWindows(windows)
    requires groups.index == following.index && groups.Valid() && following.Valid() && following.next == map[]
    requires groups.keyOf == WindowOf && groups.mode == ByValue(SequenceOf)
    modifies following, groups.index
    ensures r.Err? ==> !groups.index.valid
    ensures r.Ok? ==> (r.value <==> Acceptable(windows, groups.rows, rows, cadence))
  {
    hide InWindow, Latest, WindowOk, UniqueIds, NoOrphans, Holds, Sound, Indexed, Agrees;
    var markers := groups.rows;
    if !UniqueIds(markers) || !NoOrphans(markers, windows) {
      return Ok(false);
    }
    for k := 0 to |windows|
      invariant groups.Valid() && following.Valid()
      invariant forall i :: 0 <= i < k ==> WindowOk(windows[i], InWindow(markers, windows[i].id), cadence)
      invariant following.next == NextMap(windows, markers, k)
    {
      var at: nat := k;
      var walked := WalkIndexed(windows[k], cadence, groups, following, (i: nat) => stored(at, i));
      if walked.Err? || !walked.value {
        return walked;
      }
    }
    assert Structure(windows, markers, cadence);
    for i := 0 to |rows|
      invariant groups.Valid() && following.Valid() && following.next == NextMap(windows, markers, |windows|)
      invariant forall j :: 0 <= j < i ==> Attached(markers, rows[j])
    {
      var attached := AttachIndexed(windows, markers, following, rows[i], cadence);
      if attached.Err? || !attached.value {
        return attached;
      }
    }
    return Ok(true);
  }

  /** One progress row against its marker and the successor filed for it. */
  method AttachIndexed(ghost windows: seq<Window>, markers: seq<Marker>, following: NextMarkers, row: Progress,
                       ghost cadence: int)
    returns (r: Result<bool>)
    requires DistinctWindows(windows) && Structure(windows, markers, cadence) && following.Valid()
    requires following.next == NextMap(windows, markers, |windows|)
    ensures r.Err? <==> !following.index.valid && exists i :: 0 <= i < |markers| && markers[i].id == row.markerId
    ensures r.Ok? ==> (r.value <==> Attached(markers, row))
  {
    hide Latest, Sound, Indexed, Agrees, NextMap;
    var found := FindMarker(markers, row.markerId);
    if found.None? {
      NoneLatest(markers, row);
      return Ok(false);
    }
    var m := found.value;
    RowIff(windows, markers, cadence, row, m);
    var next := following.Get(m.id);
    if next.Err? {
      return Err(next.code);
    }
    var fine :=
      && m.window == row.window && m.boot == row.boot && m.sequence == row.markerSequence
      && m.installed <= row.captured <= row.before
      && (next.value.Some? ==> row.captured < next.value.value);
    if !fine {
      OnlyLatest(markers, row, m);
    }
    return Ok(fine);
  }
}
