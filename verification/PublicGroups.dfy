/** Grouping public rows through the index against grouping and sorting the plain list. */
module PublicGroups {
  import opened Basics
  import opened Ordering
  import opened CapacityIndex

  /** What a grouping orders by: the row's place in the list, or a number of the row. */
  datatype Mode<!T> = ByPlace | ByValue(value: T -> real)

  // ---- the in-memory grouping ----

  /** The rows of one key, in list order. */
  function Filter<T>(rows: seq<T>, keyOf: T -> string, key: string): seq<T>
    decreases |rows|
  {
    if rows == [] then []
    else
      var last := rows[|rows| - 1];
      Filter(rows[..|rows| - 1], keyOf, key) + if keyOf(last) == key then [last] else []
  }

  /** Filtering, then sorting by the mode's number. */
  function Plain<T>(rows: seq<T>, keyOf: T -> string, mode: Mode<T>, key: string): seq<T> {
    match mode
    case ByPlace => Filter(rows, keyOf, key)
    case ByValue(value) => Sorted(Filter(rows, keyOf, key), value)
  }

  /** The keys present, in order of first appearance. */
  function FirstKeys<T>(rows: seq<T>, keyOf: T -> string): seq<string>
    decreases |rows|
  {
    if rows == [] then []
    else
      var keys, key := FirstKeys(rows[..|rows| - 1], keyOf), keyOf(rows[|rows| - 1]);
      if key in keys then keys else keys + [key]
  }

  ghost predicate Present<T>(rows: seq<T>, keyOf: T -> string, key: string) {
    exists i :: 0 <= i < |rows| && keyOf(rows[i]) == key
  }

  ghost predicate AllDifferent(keys: seq<string>) {
    forall i, j :: 0 <= i < j < |keys| ==> keys[i] != keys[j]
  }

  /** Each key present is listed once. */
  lemma {:induction false} FirstKeysIff<T>(rows: seq<T>, keyOf: T -> string, key: string)
    ensures key in FirstKeys(rows, keyOf) <==> Present(rows, keyOf, key)
    ensures AllDifferent(FirstKeys(rows, keyOf))
    decreases |rows|
  {
    if rows != [] {
      var init, last := rows[..|rows| - 1], rows[|rows| - 1];
      FirstKeysIff(init, keyOf, key);
      if i :| 0 <= i < |init| && keyOf(init[i]) == key {
        assert keyOf(rows[i]) == key;
      }
      if i :| 0 <= i < |rows| && keyOf(rows[i]) == key && i < |init| {
        assert keyOf(init[i]) == key;
      }
    }
  }

  // ---- positions ----

  /** The places of one key among the first `n` rows. */
  function Places<T>(rows: seq<T>, keyOf: T -> string, key: string, n: nat): (r: seq<nat>)
    requires n <= |rows|
    ensures forall i :: 0 <= i < |r| ==> r[i] < n
    decreases n
  {
    if n == 0 then []
    else Places(rows, keyOf, key, n - 1) + if keyOf(rows[n - 1]) == key then [n - 1] else []
  }

  /** The number a place is ordered by. */
  function NumberAt<T>(rows: seq<T>, mode: Mode<T>, p: nat): real {
    if p >= |rows| then 0.0
    else match mode
         case ByPlace => p as real
         case ByValue(value) => value(rows[p])
  }

  function NumberOf<T>(rows: seq<T>, mode: Mode<T>): nat -> real { (p: nat) => NumberAt(rows, mode, p) }

  /** The indexed row of a place. */
  function Filed<T>(rows: seq<T>, mode: Mode<T>): nat -> Row<Payload> {
    (p: nat) => Row(NumberAt(rows, mode, p), p, Position(p))
  }

  function Pick<T>(s: seq<T>, places: seq<nat>): (r: seq<T>)
    requires forall i :: 0 <= i < |places| ==> places[i] < |s|
    ensures |r| == |places|
  {
    seq(|places|, i requires 0 <= i < |places| => s[places[i]])
  }

  /** The places of one key in group order. */
  function Order<T>(rows: seq<T>, keyOf: T -> string, mode: Mode<T>, key: string): (r: seq<nat>)
    ensures forall i :: 0 <= i < |r| ==> r[i] < |rows|
  {
    var places := Places(rows, keyOf, key, |rows|);
    SortedWithin(places, NumberOf(rows, mode));
    var r := Sorted(places, NumberOf(rows, mode));
    assert forall i :: 0 <= i < |r| ==> r[i] in places;
    r
  }

  lemma {:induction false} PickPlaces<T>(rows: seq<T>, keyOf: T -> string, key: string, n: nat)
    requires n <= |rows|
    ensures Pick(rows, Places(rows, keyOf, key, n)) == Filter(rows[..n], keyOf, key)
    decreases n
  {
    if n > 0 {
      PickPlaces(rows, keyOf, key, n - 1);
      assert rows[..n][..n - 1] == rows[..n - 1];
    }
  }

  ghost predicate Ascending(s: seq<nat>) { forall i, j :: 0 <= i < j < |s| ==> s[i] < s[j] }

  lemma {:induction false} PlacesIncrease<T>(rows: seq<T>, keyOf: T -> string, key: string, n: nat)
    requires n <= |rows|
    ensures Ascending(Places(rows, keyOf, key, n))
    decreases n
  {
    if n > 0 {
      PlacesIncrease(rows, keyOf, key, n - 1);
      var before := Places(rows, keyOf, key, n - 1);
      assert forall i :: 0 <= i < |before| ==> before[i] < n - 1;
    }
  }

  lemma AlreadySorted<T>(s: seq<T>, key: T -> real)
    requires Nondecreasing(s, key)
    ensures Sorted(s, key) == s
  {
    SortedIff(s, s, key);
  }

  /** Total lookup, for rows that exist. */
  function Lookup<T>(rows: seq<T>): nat -> T
    requires rows != []
  {
    (p: nat) => if p < |rows| then rows[p] else rows[0]
  }

  /** The group in index order is the plain group, filtered and stably sorted. */
  lemma OrderIsPlain<T>(rows: seq<T>, keyOf: T -> string, mode: Mode<T>, key: string)
    ensures Pick(rows, Order(rows, keyOf, mode, key)) == Plain(rows, keyOf, mode, key)
  {
    var places := Places(rows, keyOf, key, |rows|);
    PickPlaces(rows, keyOf, key, |rows|);
    assert rows[..|rows|] == rows;
    if rows != [] {
      if mode.ByPlace? {
        PlacesIncrease(rows, keyOf, key, |rows|);
        AlreadySorted(places, NumberOf(rows, mode));
      } else {
        SortedMapped(places, Lookup(rows), NumberOf(rows, mode), mode.value);
        assert Mapped(Lookup(rows), places) == Pick(rows, places);
        assert Mapped(Lookup(rows), Order(rows, keyOf, mode, key)) == Pick(rows, Order(rows, keyOf, mode, key));
      }
    }
  }

  // ---- slices ----

  /** The bounds and step of a slice; absent bounds default by the sign of the step. */
  datatype Cut = Cut(start: Option<int>, stop: Option<int>, step: int)

  /** The places the slice selects from a sequence of length `n`. */
  function SlicePlaces(n: nat, cut: Cut): (r: seq<nat>)
    requires cut.step != 0
    ensures forall i :: 0 <= i < |r| ==> r[i] < n
  {
    Stride(From(n, cut), To(n, cut), cut.step, n)
  }

  function From(n: nat, cut: Cut): int {
    if cut.start.Some? then Clamp(cut.start.value, n, cut.step) else if cut.step > 0 then 0 else n - 1
  }

  function To(n: nat, cut: Cut): int {
    if cut.stop.Some? then Clamp(cut.stop.value, n, cut.step) else if cut.step > 0 then n else -1
  }

  /** A bound from the end when negative, kept within what the direction allows. */
  function Clamp(at: int, n: nat, step: int): int {
    if at < 0 then Max(at + n, if step > 0 then 0 else -1) else Min(at, if step > 0 then n else n - 1)
  }

  /** Every `step`-th place from `from` on, up to but not including `to`. */
  function Stride(from: int, to: int, step: int, n: nat): (r: seq<nat>)
    requires step != 0
    requires if step > 0 then 0 <= from && to <= n else from < n && -1 <= to
    ensures forall i :: 0 <= i < |r| ==> r[i] < n && if step > 0 then r[i] < to else r[i] > to
    decreases if step > 0 then to - from else from - to
  {
    if (step > 0 && from >= to) || (step < 0 && from <= to) then []
    else [from] + Stride(from + step, to, step, n)
  }

  predicate Beyond(at: int, to: int, step: int) { if step > 0 then at >= to else at <= to }

  /** The places start at the first bound, go on by the step, and stop only at the second. */
  lemma {:induction false} StrideIs(from: int, to: int, step: int, n: nat)
    requires step != 0
    requires if step > 0 then 0 <= from && to <= n else from < n && -1 <= to
    ensures
      var r := Stride(from, to, step, n);
      && (r == [] <==> Beyond(from, to, step))
      && (r != [] ==> r[0] == from && Beyond(r[|r| - 1] + step, to, step))
      && forall i :: 0 < i < |r| ==> r[i] == r[i - 1] + step
    decreases if step > 0 then to - from else from - to
  {
    if !Beyond(from, to, step) {
      StrideIs(from + step, to, step, n);
    }
  }

  function Slice<T>(s: seq<T>, cut: Cut): seq<T>
    requires cut.step != 0
  {
    Pick(s, SlicePlaces(|s|, cut))
  }

  /** With step one a slice is the stretch between its clamped bounds. */
  lemma UnitSlice<T>(s: seq<T>, cut: Cut)
    requires cut.step == 1
    ensures 0 <= From(|s|, cut) <= |s| && 0 <= To(|s|, cut) <= |s|
    ensures Slice(s, cut) == if From(|s|, cut) <= To(|s|, cut) then s[From(|s|, cut)..To(|s|, cut)] else []
  {
    UnitStride(From(|s|, cut), To(|s|, cut), |s|);
  }

  lemma UnitStride(from: nat, to: nat, n: nat)
    requires from <= n && to <= n
    ensures
      var r := Stride(from, to, 1, n);
      |r| == (if from <= to then to - from else 0) && forall i :: 0 <= i < |r| ==> r[i] == from + i
    decreases n - from
  {
    if from < to {
      UnitStride(from + 1, to, n);
    }
  }

  /** A slice with no bounds and step minus one reads backwards. */
  lemma ReverseSlice<T>(s: seq<T>)
    ensures
      var r := Slice(s, Cut(None, None, -1));
      |r| == |s| && forall i :: 0 <= i < |s| ==> r[i] == s[|s| - 1 - i]
  {
    ReverseStride(|s| - 1, |s|);
  }

  lemma ReverseStride(from: int, n: nat)
    requires -1 <= from < n
    ensures
      var r := Stride(from, -1, -1, n);
      |r| == from + 1 && forall i :: 0 <= i < |r| ==> r[i] == from - i
    decreases from + 1
  {
    if from >= 0 {
      ReverseStride(from - 1, n);
    }
  }

  predicate AllSteps(cuts: seq<Cut>) { forall i :: 0 <= i < |cuts| ==> cuts[i].step != 0 }

  /** Slicing again and again. */
  function Slices<T>(s: seq<T>, cuts: seq<Cut>): seq<T>
    requires AllSteps(cuts)
    decreases |cuts|
  {
    if cuts == [] then s else Slice(Slices(s, cuts[..|cuts| - 1]), cuts[|cuts| - 1])
  }

  function Range(n: nat): seq<nat> { seq(n, (i: nat) => i) }

  /** Positions that went through the slices still lie in the sequence, and select from it what
      slicing the sequence itself selects. */
  lemma {:induction false} SlicesOfRange<T>(s: seq<T>, cuts: seq<Cut>)
    requires AllSteps(cuts)
    ensures
      var places := Slices<nat>(Range(|s|), cuts);
      (forall i :: 0 <= i < |places| ==> places[i] < |s|) && Pick(s, places) == Slices(s, cuts)
    decreases |cuts|
  {
    if cuts == [] {
      assert Pick(s, Range(|s|)) == s;
    } else {
      var init, cut := cuts[..|cuts| - 1], cuts[|cuts| - 1];
      SlicesOfRange(s, init);
      var places := Slices<nat>(Range(|s|), init);
      var inner := SlicePlaces(|places|, cut);
      assert Pick(s, Pick(places, inner)) == Pick(Pick(s, places), inner);
    }
  }

  // ---- the grouping in the index ----

  function KeyRows(keys: seq<string>): seq<Payload> {
    seq(|keys|, i requires 0 <= i < |keys| => Text(keys[i]))
  }

  function PayloadOf(r: Row<Payload>): Payload { r.payload }

  /** The index holds the first `n` rows of the grouping: every place under its key, and every
      key once. */
  ghost predicate Holds<T(!new)>(entries: seq<Entry>, filed: seq<Filing>, stream: string,
                                 rows: seq<T>, keyOf: T -> string, mode: Mode<T>, n: nat)
    requires n <= |rows|
  {
    && |Rows(entries, Ordered, stream, None)| == n
    && (forall key :: Rows(entries, Ordered, stream, Some(key)) ==
         Mapped(Filed(rows, mode), Places(rows, keyOf, key, n)))
    && Mapped(PayloadOf, Rows(entries, Records, stream + ":keys", None)) == KeyRows(FirstKeys(rows[..n], keyOf))
    && (forall key :: Taken(filed, (stream + ":keys", "identity", key)) <==> key in FirstKeys(rows[..n], keyOf))
  }

  /** Filing the next place under its key. */
  lemma HoldsPlace<T(!new)>(entries: seq<Entry>, stream: string, rows: seq<T>, keyOf: T -> string, mode: Mode<T>,
      n: nat, e: Entry)
    requires n < |rows|
    requires forall key ::
               Rows(entries, Ordered, stream, Some(key)) == Mapped(Filed(rows, mode), Places(rows, keyOf, key, n))
    requires e == Entry(Ordered, stream, keyOf(rows[n]), Row(NumberAt(rows, mode, n), n, Position(n)))
    ensures forall key ::
              Rows(entries + [e], Ordered, stream, Some(key)) ==
                  Mapped(Filed(rows, mode), Places(rows, keyOf, key, n + 1))
  {
    forall key ensures
      Rows(entries + [e], Ordered, stream, Some(key)) == Mapped(Filed(rows, mode), Places(rows, keyOf, key, n + 1))
    {
      RowsAppend(entries, e, Ordered, stream, Some(key));
      assert Rows(entries, Ordered, stream, Some(key)) == Mapped(Filed(rows, mode), Places(rows, keyOf, key, n));
    }
  }

  /** Filing a key does not touch the places, and the reverse. */
  lemma OtherKind(entries: seq<Entry>, e: Entry, kind: Kind, stream: string)
    requires e.kind != kind
    ensures forall identity :: Rows(entries + [e], kind, stream, identity) == Rows(entries, kind, stream, identity)
  {
    forall identity ensures Rows(entries + [e], kind, stream, identity) == Rows(entries, kind, stream, identity) {
      RowsAppend(entries, e, kind, stream, identity);
    }
  }

  lemma KeyFiled(entries: seq<Entry>, e: Entry, stream: string, keys: seq<string>, key: string)
    requires Mapped(PayloadOf, Rows(entries, Records, stream, None)) == KeyRows(keys)
    requires e.kind == Records && e.stream == stream && e.row.payload == Text(key)
    ensures Mapped(PayloadOf, Rows(entries + [e], Records, stream, None)) == KeyRows(keys + [key])
  {
    RowsAppend(entries, e, Records, stream, None);
    MappedAppend(PayloadOf, Rows(entries, Records, stream, None), e.row);
    assert KeyRows(keys + [key]) == KeyRows(keys) + [Text(key)];
  }

  /** The streams of the index a grouping writes. */
  function Footprint(stream: string): set<(Kind, string)> { {(Ordered, stream), (Records, stream + ":keys")} }

  lemma HoldsKept<T(!new)>(entries: seq<Entry>, filed: seq<Filing>, later: seq<Entry>, laterFiled: seq<Filing>,
                           stream: string, rows: seq<T>, keyOf: T -> string, mode: Mode<T>, n: nat,
                           touched: set<(Kind, string)>)
    requires n <= |rows| && Holds(entries, filed, stream, rows, keyOf, mode, n)
    requires Frame(entries, filed, later, laterFiled, touched) && touched !! Footprint(stream)
    ensures Holds(later, laterFiled, stream, rows, keyOf, mode, n)
  {
    hide Rows, Taken, Places, FirstKeys;
    assert (Ordered, stream) in Footprint(stream) && (Records, stream + ":keys") in Footprint(stream);
    forall identity ensures Rows(later, Ordered, stream, identity) == Rows(entries, Ordered, stream, identity) {
    }
    forall key ensures Taken(laterFiled, (stream + ":keys", "identity", key)) <==>
                         Taken(filed, (stream + ":keys", "identity", key))
    {
    }
  }

  /** One more row is filed: its key is listed and its place is in its group. */
  lemma HoldsNext<T(!new)>(entries: seq<Entry>, filed: seq<Filing>, stream: string, rows: seq<T>, keyOf: T -> string,
                           mode: Mode<T>, n: nat)
    requires n < |rows| && |Rows(entries, Ordered, stream, None)| == n + 1
    requires forall key :: Rows(entries, Ordered, stream, Some(key)) ==
               Mapped(Filed(rows, mode), Places(rows, keyOf, key, n + 1))
    requires Mapped(PayloadOf, Rows(entries, Records, stream + ":keys", None)) ==
               KeyRows(FirstKeys(rows[..n + 1], keyOf))
    requires forall key :: Taken(filed, (stream + ":keys", "identity", key)) <==> key in FirstKeys(rows[..n + 1], keyOf)
    ensures Holds(entries, filed, stream, rows, keyOf, mode, n + 1)
  {
    hide Rows, Taken, Places, FirstKeys;
  }

  /** A key is filed under one identity. */
  lemma OneIdentity(filed: seq<Filing>, stream: string, key: string)
    ensures
      var f := Filing(stream, Text(key), map["identity" := key]);
      && (forall id :: Names(f, id) <==> id == (stream, "identity", key))
      && (forall id :: Taken(filed + [f], id) <==> Taken(filed, id) || id == (stream, "identity", key))
  {
    var f := Filing(stream, Text(key), map["identity" := key]);
    var all := filed + [f];
    assert all[|filed|] == f;
    forall id ensures Taken(all, id) <==> Taken(filed, id) || Names(f, id) {
      if Taken(filed, id) {
        var i :| 0 <= i < |filed| && Names(filed[i], id);
        assert Names(all[i], id);
      }
      if i :| 0 <= i < |all| && Names(all[i], id) && i < |filed| {
        assert Names(filed[i], id);
      }
    }
  }

  class Grouping<T(!new)> {
    const index: Index
    const stream: string
    const rows: seq<T>
    const keyOf: T -> string
    const mode: Mode<T>

    ghost predicate Valid()
      reads index
    {
      index.Valid() && (index.valid ==> Holds(index.entries, index.filed, stream, rows, keyOf, mode, |rows|))
    }

    constructor (index: Index, stream: string, rows: seq<T>, keyOf: T -> string, mode: Mode<T>)
      ensures this.index == index && this.stream == stream && this.rows == rows && this.keyOf == keyOf
                && this.mode == mode
    {
      this.index, this.stream, this.rows, this.keyOf, this.mode := index, stream, rows, keyOf, mode;
    }

    /** The construction loop, on a stream nothing was filed under; `stored` says whether each
        insert succeeds. */
    method Fill(stored: nat -> bool) returns (ok: bool)
      requires index.Valid() && Holds(index.entries, index.filed, stream, rows, keyOf, mode, 0)
      modifies index
      ensures Valid() && ok == index.valid
      ensures Frame(old(index.entries), old(index.filed), index.entries, index.filed, Footprint(stream))
    {
      hide Sound, Places, FirstKeys, Rows, Taken, Holds;
      if !index.valid {
        return false;
      }
      var inserts := 0;
      for n := 0 to |rows|
        invariant index.Valid() && index.valid
        invariant Holds(index.entries, index.filed, stream, rows, keyOf, mode, n)
        invariant Frame(old(index.entries), old(index.filed), index.entries, index.filed, Footprint(stream))
      {
        ghost var e0, f0 := index.entries, index.filed;
        ok := FileKey(n, stored(inserts));
        ghost var e1, f1 := index.entries, index.filed;
        FrameTrans(old(index.entries), old(index.filed), e0, f0, e1, f1, Footprint(stream), Footprint(stream));
        if !ok {
          return false;
        }
        ok := FilePlace(n, stored(inserts + 1));
        FrameTrans(old(index.entries), old(index.filed), e1, f1, index.entries, index.filed,
                   Footprint(stream), Footprint(stream));
        if !ok {
          return false;
        }
        HoldsNext(index.entries, index.filed, stream, rows, keyOf, mode, n);
        inserts := inserts + 2;
      }
      return true;
    }

    /** Lists the key of row `n` unless it is listed. */
    method FileKey(n: nat, stored: bool) returns (ok: bool)
      requires n < |rows| && index.Valid() && index.valid
      requires Holds(index.entries, index.filed, stream, rows, keyOf, mode, n)
      modifies index
      ensures index.Valid() && ok == index.valid
      ensures Frame(old(index.entries), old(index.filed), index.entries, index.filed, Footprint(stream))
      ensures ok ==>
                && |Rows(index.entries, Ordered, stream, None)| == n
                && (forall key :: Rows(index.entries, Ordered, stream, Some(key)) ==
                     Mapped(Filed(rows, mode), Places(rows, keyOf, key, n)))
                && Mapped(PayloadOf, Rows(index.entries, Records, stream + ":keys", None)) ==
                     KeyRows(FirstKeys(rows[..n + 1], keyOf))
                && (forall key :: Taken(index.filed, (stream + ":keys", "identity", key)) <==>
                     key in FirstKeys(rows[..n + 1], keyOf))
    {
      hide Sound, Rows, Places;
      ghost var keys := FirstKeys(rows[..n], keyOf);
      assert rows[..n + 1][..n] == rows[..n];
      var key := keyOf(rows[n]);
      var found := index.Find(stream + ":keys", "identity", key);
      if found.value.None? {
        ghost var entries := index.entries;
        ghost var before := index.filed;
        OneIdentity(before, stream + ":keys", key);
        var filed := index.Append(stream + ":keys", Text(key), map["identity" := key], stored);
        if filed.Err? {
          return false;
        }
        ghost var e := index.entries[|entries|];
        FrameAppend(entries, before, e, index.filed[|before|]);
        OtherKind(entries, e, Ordered, stream);
        KeyFiled(entries, e, stream + ":keys", keys, key);
      }
      return true;
    }

    /** Files the place of row `n` under its key. */
    method FilePlace(n: nat, stored: bool) returns (ok: bool)
      requires n < |rows| && index.Valid() && index.valid
      requires |Rows(index.entries, Ordered, stream, None)| == n
      requires forall key :: Rows(index.entries, Ordered, stream, Some(key)) ==
                 Mapped(Filed(rows, mode), Places(rows, keyOf, key, n))
      modifies index
      ensures index.Valid() && ok == index.valid
      ensures index.filed == old(index.filed)
      ensures Frame(old(index.entries), old(index.filed), index.entries, index.filed, Footprint(stream))
      ensures ok ==>
                && |Rows(index.entries, Ordered, stream, None)| == n + 1
                && (forall key :: Rows(index.entries, Ordered, stream, Some(key)) ==
                     Mapped(Filed(rows, mode), Places(rows, keyOf, key, n + 1)))
                && forall keys :: Rows(index.entries, Records, keys, None) ==
                     Rows(old(index.entries), Records, keys, None)
    {
      hide Rows, Places;
      ghost var entries := index.entries;
      assert Count(index.counts, Ordered, stream) == n;
      var filed := index.Add(Ordered, stream, keyOf(rows[n]), NumberAt(rows, mode, n), Position(n), stored);
      if filed.Err? {
        return false;
      }
      ghost var e := index.entries[|entries|];
      FrameAdd(entries, index.filed, e);
      HoldsPlace(entries, stream, rows, keyOf, mode, n, e);
      RowsAppend(entries, e, Ordered, stream, None);
      forall keys ensures Rows(index.entries, Records, keys, None) == Rows(entries, Records, keys, None) {
        OtherKind(entries, e, Records, keys);
      }
      return true;
    }

    /** Inserts elsewhere in the same index leave the grouping valid. */
    twostate lemma Kept(touched: set<(Kind, string)>)
      requires old(Valid()) && index.Valid() && (index.valid ==> old(index.valid))
      requires Frame(old(index.entries), old(index.filed), index.entries, index.filed, touched)
      requires touched !! Footprint(stream)
      ensures Valid()
    {
      hide Sound, Indexed, Holds, Frame;
      if index.valid {
        HoldsKept(old(index.entries), old(index.filed), index.entries, index.filed, stream, rows, keyOf, mode, |rows|,
                  touched);
      }
    }

    /** The keys of the grouping. */
    method Keys() returns (r: Result<seq<string>>)
      requires Valid()
      ensures r.Ok? <==> index.valid
      ensures r.Ok? ==> r.value == FirstKeys(rows, keyOf)
    {
      hide Sound, FirstKeys, Places, Rows;
      if !index.valid {
        return Err(INVALID);
      }
      assert rows[..|rows|] == rows;
      var filed := Rows(index.entries, Records, stream + ":keys", None);
      var keys: seq<string> := [];
      for i := 0 to |filed|
        invariant keys == FirstKeys(rows, keyOf)[..i]
      {
        assert filed[i].payload == Mapped(PayloadOf, filed)[i];
        keys := keys + [filed[i].payload.text];
      }
      return Ok(keys);
    }

    /** The group's payloads in index order are its places in group order. */
    lemma Answered(key: string)
      requires Holds(index.entries, index.filed, stream, rows, keyOf, mode, |rows|)
      ensures Answer(Rows(index.entries, Ordered, stream, Some(key))) ==
                Mapped(Filed(rows, mode), Order(rows, keyOf, mode, key))
    {
      var places := Places(rows, keyOf, key, |rows|);
      SortedMapped(places, Filed(rows, mode), NumberOf(rows, mode), ValueOf);
    }

    /** One row of a group by its place in the group's own list of positions, counting from the
        end when negative. */
    method Item(key: string, positions: seq<nat>, at: int) returns (r: Result<T>)
      requires Valid()
      requires forall i :: 0 <= i < |positions| ==> positions[i] < |Plain(rows, keyOf, mode, key)|
      ensures r.Ok? <==> index.valid && -|positions| <= at < |positions|
      ensures r.Ok? ==>
                r.value == Pick(Plain(rows, keyOf, mode, key), positions)[if at < 0 then at + |positions| else at]
    {
      hide Sound, Plain, Order, Filed, Rows;
      if !index.valid {
        return Err(INVALID);
      }
      if !(-|positions| <= at < |positions|) {
        return Err("IndexError");
      }
      var place := positions[if at < 0 then at + |positions| else at];
      Answered(key);
      OrderIsPlain(rows, keyOf, mode, key);
      FiledPayload(rows, mode, Order(rows, keyOf, mode, key)[place]);
      ghost var group := Rows(index.entries, Ordered, stream, Some(key));
      AnswerIff(index.entries, index.counts, Ordered, stream, Some(key), Answer(group));
      var payload := index.OrderedAt(stream, key, place);
      return Ok(rows[payload.value.position]);
    }

    /** Iteration: all rows at once when the positions are the whole group, else one by one. */
    method Iterate(key: string, positions: seq<nat>) returns (r: Result<seq<T>>)
      requires Valid()
      requires forall i :: 0 <= i < |positions| ==> positions[i] < |Plain(rows, keyOf, mode, key)|
      ensures r.Ok? <==> index.valid
      ensures r.Ok? ==> r.value == Pick(Plain(rows, keyOf, mode, key), positions)
    {
      hide Sound, Plain, Order, Filed, Rows, Answer;
      if !index.valid {
        return Err(INVALID);
      }
      ghost var plain := Plain(rows, keyOf, mode, key);
      Answered(key);
      OrderIsPlain(rows, keyOf, mode, key);
      var whole := index.OrderedRows(stream, key);
      AnswerIff(index.entries, index.counts, Ordered, stream, Some(key), whole.value);
      var out: seq<T> := [];
      if positions == Range(|whole.value|) {
        for i := 0 to |whole.value|
          invariant out == plain[..i]
        {
          FiledPayload(rows, mode, Order(rows, keyOf, mode, key)[i]);
          out := out + [rows[whole.value[i].payload.position]];
        }
        assert out == Pick(plain, positions);
      } else {
        for i := 0 to |positions|
          invariant out == Pick(plain, positions)[..i]
        {
          var item := Item(key, positions, i);
          out := out + [item.value];
        }
      }
      return Ok(out);
    }

    /** The positions of a group after any number of slices. */
    method Positions(key: string, cuts: seq<Cut>) returns (r: Result<seq<nat>>)
      requires Valid()
      ensures r.Ok? <==> index.valid && AllSteps(cuts)
      ensures r.Ok? ==> r.value == Slices<nat>(Range(|Plain(rows, keyOf, mode, key)|), cuts)
    {
      hide Sound, Plain, Rows, Slice, Holds;
      if !index.valid {
        return Err(INVALID);
      }
      ghost var plain := Plain(rows, keyOf, mode, key);
      GroupSize(index.entries, index.filed, stream, rows, keyOf, mode, key);
      var positions := Range(|Rows(index.entries, Ordered, stream, Some(key))|);
      for i := 0 to |cuts|
        invariant AllSteps(cuts[..i]) && positions == Slices<nat>(Range(|plain|), cuts[..i])
      {
        if cuts[i].step == 0 {
          return Err("slice step cannot be zero");
        }
        assert cuts[..i + 1][..i] == cuts[..i];
        positions := Slice(positions, cuts[i]);
      }
      assert cuts[..|cuts|] == cuts;
      return Ok(positions);
    }

    /** A group sliced any number of times, then listed: the plain group sliced the same way. */
    method Listed(key: string, cuts: seq<Cut>) returns (r: Result<seq<T>>)
      requires Valid()
      ensures r.Ok? <==> index.valid && AllSteps(cuts)
      ensures r.Ok? ==> r.value == Slices(Plain(rows, keyOf, mode, key), cuts)
    {
      hide Sound, Plain, Holds;
      var positions := Positions(key, cuts);
      if positions.Err? {
        return Err(positions.code);
      }
      SlicesOfRange(Plain(rows, keyOf, mode, key), cuts);
      r := Iterate(key, positions.value);
    }

    /** One row of a group sliced any number of times, counting from the end when negative. */
    method SlicedItem(key: string, cuts: seq<Cut>, at: int) returns (r: Result<T>)
      requires Valid()
      ensures r.Ok? ==> index.valid && AllSteps(cuts)
      ensures index.valid && AllSteps(cuts) ==>
                var list := Slices(Plain(rows, keyOf, mode, key), cuts);
                && (r.Ok? <==> -|list| <= at < |list|)
                && (r.Ok? ==> r.value == list[if at < 0 then at + |list| else at])
    {
      hide Sound, Plain, Holds;
      var positions := Positions(key, cuts);
      if positions.Err? {
        return Err(positions.code);
      }
      SlicesOfRange(Plain(rows, keyOf, mode, key), cuts);
      r := Item(key, positions.value, at);
    }
  }

  /** The group's own length, as the index counts it. */
  lemma GroupSize<T(!new)>(entries: seq<Entry>, filed: seq<Filing>, stream: string, rows: seq<T>, keyOf: T -> string,
                           mode: Mode<T>, key: string)
    requires Holds(entries, filed, stream, rows, keyOf, mode, |rows|)
    ensures |Rows(entries, Ordered, stream, Some(key))| == |Plain(rows, keyOf, mode, key)|
  {
    OrderIsPlain(rows, keyOf, mode, key);
  }

  lemma FiledPayload<T>(rows: seq<T>, mode: Mode<T>, p: nat)
    ensures Filed(rows, mode)(p).payload == Position(p)
  {
  }
}
