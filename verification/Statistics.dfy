/** Streaming report statistics against the same statistics of the whole list. A number keeps its
    own JSON text, so equal numbers written differently stay different; `sha` is the digest. */
module Statistics {
  import opened Basics
  import opened Ordering
  import opened CapacityIndex

  datatype Number = Number(value: real, text: string)

  function Size(n: Number): real { n.value }

  /** `ceil(n * fraction)`. */
  function Place(n: nat, fraction: real): int { -(-(n as real * fraction)).Floor }

  // ---- the batch side ----

  /** The element the fraction selects from the sorted list. */
  function Percentile(values: seq<Number>, fraction: real): Number
    requires values != [] && 0.0 < fraction <= 1.0
  {
    PlaceInRange(|values|, fraction);
    Sorted(values, Size)[Place(|values|, fraction) - 1]
  }

  lemma PlaceInRange(n: nat, fraction: real)
    requires n > 0 && 0.0 < fraction <= 1.0
    ensures 1 <= Place(n, fraction) <= n
  {
    assert 0.0 < n as real * fraction <= n as real;
  }

  lemma PlaceIs(n: nat, fraction: real)
    ensures Place(n, fraction) as real - 1.0 < n as real * fraction <= Place(n, fraction) as real
  {
  }

  /** Places of a list whose numbers are at most `v`, or below it. */
  ghost function UpTo(values: seq<Number>, v: real): set<int> { set i | 0 <= i < |values| && values[i].value <= v }

  ghost function Below(values: seq<Number>, v: real): set<int> { set i | 0 <= i < |values| && values[i].value < v }

  /** The number is in the list; at least that fraction of the list is not larger, and less than
      that fraction is smaller. */
  ghost predicate Divides(p: Number, values: seq<Number>, fraction: real) {
    && p in values
    && |UpTo(values, p.value)| as real >= |values| as real * fraction
    && (|Below(values, p.value)| as real) < |values| as real * fraction
  }

  lemma SortedCounts(values: seq<Number>, k: nat)
    requires k < |values|
    ensures
      var p := Sorted(values, Size)[k];
      p in values && |UpTo(values, p.value)| > k && |Below(values, p.value)| <= k
  {
    hide Sorted, Tally;
    var s := Sorted(values, Size);
    var p := s[k];
    SortedStable(values, Size);
    SortedWithin(values, Size);
    var most, less := (x: Number) => x.value <= p.value, (x: Number) => x.value < p.value;
    TallyAround(s, Size, k, most, less);
    TallySorted(values, Size, most);
    TallySorted(values, Size, less);
    TallyIs(values, most);
    TallyIs(values, less);
    assert Spots(values, most) == UpTo(values, p.value) && Spots(values, less) == Below(values, p.value);
  }

  /** What a percentile is. */
  lemma PercentileDivides(values: seq<Number>, fraction: real)
    requires values != [] && 0.0 < fraction <= 1.0
    ensures Divides(Percentile(values, fraction), values, fraction)
  {
    hide Place, Sorted, UpTo, Below;
    PlaceInRange(|values|, fraction);
    PlaceIs(|values|, fraction);
    SortedCounts(values, Place(|values|, fraction) - 1);
  }

  /** The first of the largest elements, as `max` picks it. */
  predicate IsMaximum(m: Option<Number>, values: seq<Number>) {
    if values == [] then m == None
    else
      m.Some? && exists k :: 0 <= k < |values| && values[k] == m.value && Tops(values, k)
  }

  predicate Tops(values: seq<Number>, k: nat)
    requires k < |values|
  {
    && (forall i :: 0 <= i < k ==> values[i].value < values[k].value)
    && forall i :: k <= i < |values| ==> values[i].value <= values[k].value
  }

  function Over(values: seq<Number>, limit: real): nat {
    |set i | 0 <= i < |values| && values[i].value > limit|
  }

  /** Canonical JSON of a list: elements in order, commas between, brackets around. */
  function Json(values: seq<Number>): string { "[" + Elements(values) + "]" }

  function Elements(values: seq<Number>): string
    decreases |values|
  {
    if values == [] then ""
    else if |values| == 1 then values[0].text
    else values[0].text + "," + Elements(values[1..])
  }

  lemma {:induction false} ElementsAppend(values: seq<Number>, x: Number)
    ensures Elements(values + [x]) == if values == [] then x.text else Elements(values) + "," + x.text
    decreases |values|
  {
    if values == [] {
      assert values + [x] == [x];
    } else {
      assert (values + [x])[1..] == values[1..] + [x] && (values + [x])[0] == values[0];
      ElementsAppend(values[1..], x);
    }
  }

  lemma OverAppend(values: seq<Number>, x: Number, limit: real)
    ensures Over(values + [x], limit) == Over(values, limit) + if x.value > limit then 1 else 0
  {
    var a := set i | 0 <= i < |values| && values[i].value > limit;
    var b := set i | 0 <= i < |values + [x]| && (values + [x])[i].value > limit;
    assert b == if x.value > limit then a + {|values|} else a;
  }

  lemma MaximumAppend(m: Option<Number>, values: seq<Number>, x: Number)
    requires IsMaximum(m, values)
    ensures IsMaximum(Some(if m.None? || x.value > m.value.value then x else m.value), values + [x])
  {
    var all := values + [x];
    assert forall i :: 0 <= i < |values| ==> all[i] == values[i];
    if values == [] {
      assert Tops(all, 0);
    } else {
      var k :| 0 <= k < |values| && values[k] == m.value && Tops(values, k);
      assert Tops(all, if x.value > m.value.value then |values| else k);
    }
  }

  // ---- the streaming side ----

  function NumberOf(r: Row<Payload>): Number { Number(r.value, if r.payload.Text? then r.payload.text else "") }

  function Stored(entries: seq<Entry>, stream: string): seq<Number> {
    Mapped(NumberOf, Rows(entries, Kind.Numbers, stream, None))
  }

  /** The rank query answers the percentile of everything stored. */
  lemma RankIsPercentile(entries: seq<Entry>, stream: string, fraction: real)
    requires Stored(entries, stream) != [] && 0.0 < fraction <= 1.0
    ensures
      var rows := Rows(entries, Kind.Numbers, stream, None);
      var place := Place(|rows|, fraction) - 1;
      0 <= place < |rows| && NumberOf(Answer(rows)[place]) == Percentile(Stored(entries, stream), fraction)
  {
    hide Place, Sorted, Rows;
    var rows := Rows(entries, Kind.Numbers, stream, None);
    PlaceInRange(|rows|, fraction);
    SortedMapped(rows, NumberOf, ValueOf, Size);
    var place := Place(|rows|, fraction) - 1;
    assert Mapped(NumberOf, Answer(rows))[place] == NumberOf(Answer(rows)[place]);
  }

  datatype Summary = Summary(count: nat, maximum: Option<Number>, digest: string, p50: Option<Number>,
      p95: Option<Number>)

  /** The summary computed from the list at once. */
  function Batch(values: seq<Number>, maximum: Option<Number>, sha: string -> string): Summary {
    Summary(|values|, maximum, sha(Json(values)),
            if values == [] then None else Some(Percentile(values, 0.5)),
            if values == [] then None else Some(Percentile(values, 0.95)))
  }

  class NumberStream {
    const index: Index
    const stream: string
    var count: nat
    var maximum: Option<Number>
    var over200: nat
    var digested: string

    /** While the index session lasts, every running figure is that of the stored list. */
    ghost predicate Valid()
      reads this, index
    {
      && index.Valid()
      && (index.valid ==>
            var values := Stored(index.entries, stream);
            && count == |values| && IsMaximum(maximum, values) && over200 == Over(values, 200.0)
            && digested == "[" + Elements(values))
    }

    constructor (index: Index, stream: string)
      requires index.Valid() && Rows(index.entries, Kind.Numbers, stream, None) == []
      ensures Valid() && this.index == index && this.stream == stream
    {
      this.index, this.stream := index, stream;
      count, maximum, over200, digested := 0, None, 0, "[";
    }

    /** Adds one finite number to every figure. */
    method Add(number: Number, stored: bool) returns (ok: bool)
      requires Valid()
      modifies this, index
      ensures Valid()
      ensures ok == (old(index.valid) && stored) == index.valid
      ensures ok ==> Stored(index.entries, stream) == old(Stored(index.entries, stream)) + [number]
      ensures Frame(old(index.entries), old(index.filed), index.entries, index.filed, Footprint(stream))
    {
      hide Sound, Over, Elements, IsMaximum;
      if !index.valid {
        return false;
      }
      ghost var values := Stored(index.entries, stream);
      ghost var entries := index.entries;
      digested := digested + (if count > 0 then "," else "") + number.text;
      var filed := index.Add(Kind.Numbers, stream, "", number.value, Text(number.text), stored);
      if filed.Err? {
        return false;
      }
      StoredAppend(entries, index.entries[|entries|], stream);
      FrameAdd(entries, index.filed, index.entries[|entries|]);
      ElementsAppend(values, number);
      OverAppend(values, number, 200.0);
      MaximumAppend(maximum, values, number);
      NoElements();
      count := count + 1;
      maximum := Some(if maximum.None? || number.value > maximum.value.value then number else maximum.value);
      over200 := over200 + if number.value > 200.0 then 1 else 0;
      return true;
    }

    /** Inserts elsewhere in the same index leave the figures valid. */
    twostate lemma Kept(touched: set<(Kind, string)>)
      requires old(Valid()) && unchanged(this) && index.Valid() && (index.valid ==> old(index.valid))
      requires Frame(old(index.entries), old(index.filed), index.entries, index.filed, touched)
      requires touched !! Footprint(stream)
      ensures Valid()
    {
      hide Sound, Indexed;
      StoredKept(old(index.entries), old(index.filed), index.entries, index.filed, stream, touched);
    }

    /** The published figures are those of the whole list. */
    method Result(sha: string -> string) returns (r: Option<Summary>)
      requires Valid()
      ensures r.None? <==> !index.valid
      ensures r.Some? ==>
                var values := Stored(index.entries, stream);
                r.value == Batch(values, maximum, sha) && IsMaximum(maximum, values) && over200 == Over(values, 200.0)
      ensures r.Some? ==>
                var values := Stored(index.entries, stream);
                && (r.value.p50.None? <==> values == []) && (r.value.p95.None? <==> values == [])
                && (values != [] ==>
                     Divides(r.value.p50.value, values, 0.5) && Divides(r.value.p95.value, values, 0.95))
    {
      hide Divides, Place, Percentile, Over, Sound, Rows, Elements, IsMaximum;
      if !index.valid {
        return None;
      }
      ghost var values := Stored(index.entries, stream);
      var p50: Option<Number>, p95: Option<Number> := None, None;
      if count > 0 {
        PercentileDivides(values, 0.5);
        PercentileDivides(values, 0.95);
        RankIsPercentile(index.entries, stream, 0.5);
        RankIsPercentile(index.entries, stream, 0.95);
        var half := index.Rank(stream, Place(count, 0.5));
        var most := index.Rank(stream, Place(count, 0.95));
        p50, p95 := Some(NumberOf(half.value)), Some(NumberOf(most.value));
      }
      assert digested + "]" == Json(values);
      return Some(Summary(count, maximum, sha(digested + "]"), p50, p95));
    }
  }

  /** The streams of the index a number stream writes. */
  function Footprint(stream: string): set<(Kind, string)> { {(Kind.Numbers, stream)} }

  lemma StoredKept(entries: seq<Entry>, filed: seq<Filing>, later: seq<Entry>, laterFiled: seq<Filing>, stream: string,
                   touched: set<(Kind, string)>)
    requires Frame(entries, filed, later, laterFiled, touched) && touched !! Footprint(stream)
    ensures Stored(later, stream) == Stored(entries, stream)
  {
    hide Rows, Taken;
    assert (Kind.Numbers, stream) in Footprint(stream);
    assert Rows(later, Kind.Numbers, stream, None) == Rows(entries, Kind.Numbers, stream, None);
  }

  lemma StoredAppend(entries: seq<Entry>, e: Entry, stream: string)
    requires Matches(e, Kind.Numbers, stream, None)
    ensures Stored(entries + [e], stream) == Stored(entries, stream) + [NumberOf(e.row)]
  {
    RowsAppend(entries, e, Kind.Numbers, stream, None);
    MappedAppend(NumberOf, Rows(entries, Kind.Numbers, stream, None), e.row);
  }

  lemma NoElements()
    ensures Elements([]) == ""
  {
  }
}
