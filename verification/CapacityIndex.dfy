/** The disposable index: one relation per kind of row, an ordinal counter per stream, unique
    identities, and a latch that ends the session at the first failed insert. */
module CapacityIndex {
  import opened Basics
  import opened Ordering

  datatype Kind = Records | Numbers | Groups | Ordered

  datatype Payload = Text(text: string) | Position(position: nat)

  datatype Entry = Entry(kind: Kind, stream: string, identity: string, row: Row<Payload>)

  type Counts = map<(Kind, string), nat>

  function Count(counts: Counts, kind: Kind, stream: string): nat {
    if (kind, stream) in counts then counts[(kind, stream)] else 0
  }

  predicate Matches(e: Entry, kind: Kind, stream: string, identity: Option<string>) {
    e.kind == kind && e.stream == stream && (identity.Some? ==> e.identity == identity.value)
  }

  /** The rows of a stream, or of one identity in it, in insertion order. */
  function Rows(entries: seq<Entry>, kind: Kind, stream: string, identity: Option<string>): (r: seq<Row<Payload>>)
    decreases |entries|
  {
    if entries == [] then []
    else
      var last := entries[|entries| - 1];
      Rows(entries[..|entries| - 1], kind, stream, identity) + if Matches(last, kind, stream,
          identity) then [last.row] else []
  }

  lemma RowsAppend(entries: seq<Entry>, e: Entry, kind: Kind, stream: string, identity: Option<string>)
    ensures Rows(entries + [e], kind, stream, identity) ==
              Rows(entries, kind, stream, identity) + if Matches(e, kind, stream, identity) then [e.row] else []
  {
    assert (entries + [e])[..|entries|] == entries;
  }

  /** Ordinals increase and stay below the stream's counter. */
  ghost predicate Fine(rows: seq<Row<Payload>>, count: nat) {
    Numbered(rows) && forall i :: 0 <= i < |rows| ==> rows[i].ordinal < count
  }

  ghost predicate Sound(entries: seq<Entry>, counts: Counts) {
    && (forall kind, stream, identity :: Fine(Rows(entries, kind, stream, identity), Count(counts, kind, stream)))
    && (forall kind, stream :: |Rows(entries, kind, stream, None)| == Count(counts, kind, stream))
  }

  lemma FineAppend(rows: seq<Row<Payload>>, count: nat, row: Row<Payload>)
    requires Fine(rows, count) && row.ordinal == count
    ensures Fine(rows + [row], count + 1)
  {
  }

  lemma GroupAppend(entries: seq<Entry>, counts: Counts, e: Entry, kind: Kind, stream: string, identity: Option<string>)
    requires Fine(Rows(entries, kind, stream, identity), Count(counts, kind, stream))
    requires e.row.ordinal == Count(counts, e.kind, e.stream)
    ensures Fine(Rows(entries + [e], kind, stream, identity),
                 Count(counts[(e.kind, e.stream) := e.row.ordinal + 1], kind, stream))
  {
    hide Rows, Fine;
    RowsAppend(entries, e, kind, stream, identity);
    var rows := Rows(entries, kind, stream, identity);
    if Matches(e, kind, stream, identity) {
      FineAppend(rows, e.row.ordinal, e.row);
    } else {
      assert rows + [] == rows;
      FineMore(rows, Count(counts, kind, stream));
    }
  }

  lemma FineMore(rows: seq<Row<Payload>>, count: nat)
    requires Fine(rows, count)
    ensures Fine(rows, count + 1)
  {
  }

  lemma SoundAppend(entries: seq<Entry>, counts: Counts, e: Entry)
    requires Sound(entries, counts) && e.row.ordinal == Count(counts, e.kind, e.stream)
    ensures Sound(entries + [e], counts[(e.kind, e.stream) := e.row.ordinal + 1])
  {
    hide Rows, Fine;
    var more, next := entries + [e], counts[(e.kind, e.stream) := e.row.ordinal + 1];
    forall kind, stream, identity ensures Fine(Rows(more, kind, stream, identity), Count(next, kind, stream)) {
      GroupAppend(entries, counts, e, kind, stream, identity);
    }
    forall kind, stream ensures |Rows(more, kind, stream, None)| == Count(next, kind, stream) {
      RowsAppend(entries, e, kind, stream, None);
    }
  }

  /** `ORDER BY value, ordinal` over the rows of one group. */
  function Answer(rows: seq<Row<Payload>>): (r: seq<Row<Payload>>)
    ensures |r| == |rows|
  {
    Sorted(rows, ValueOf)
  }

  /** Whatever was inserted before and around it, the answer is the one strict enumeration of
      the group, and equals the stable sort of the group as inserted. */
  lemma AnswerIff(entries: seq<Entry>, counts: Counts, kind: Kind, stream: string, identity: Option<string>,
                  out: seq<Row<Payload>>)
    requires Sound(entries, counts)
    ensures
      var rows := Rows(entries, kind, stream, identity);
      && (Enumerates(out, rows) <==> out == Answer(rows))
      && StableSort(Answer(rows), rows, ValueOf)
  {
    var rows := Rows(entries, kind, stream, identity);
    assert Fine(rows, Count(counts, kind, stream));
    QueryIff(out, rows);
    SortedStable(rows, ValueOf);
  }

  const INVALID := "invalid disposable index session"
  const DUPLICATE := "duplicate indexed identity"
  const STORAGE := "disposable index quota or storage failure"

  /** One record as it was appended, with its identities by kind. */
  datatype Filing = Filing(stream: string, payload: Payload, keys: map<string, string>)

  type Identity = (string, string, string)

  /** The record was appended under this stream, kind and identity. */
  predicate Names(f: Filing, id: Identity) { f.stream == id.0 && id.1 in f.keys && f.keys[id.1] == id.2 }

  ghost predicate Taken(filed: seq<Filing>, id: Identity) { exists i :: 0 <= i < |filed| && Names(filed[i], id) }

  /** The row an identity points to holds the payload of the one record appended under it. */
  ghost predicate Points(filed: seq<Filing>, identities: map<Identity, nat>, records: seq<Row<Payload>>, id: Identity) {
    && (id in identities <==> Taken(filed, id))
    && (id in identities ==>
          && identities[id] < |records|
          && forall i :: 0 <= i < |filed| && Names(filed[i], id) ==>
               filed[i].payload == records[identities[id]].payload)
    && (forall i, j :: 0 <= i < |filed| && 0 <= j < |filed| && Names(filed[i], id) && Names(filed[j], id) ==> i == j)
  }

  ghost predicate Indexed(filed: seq<Filing>, identities: map<Identity, nat>, entries: seq<Entry>) {
    forall id: Identity :: Points(filed, identities, Rows(entries, Records, id.0, None), id)
  }

  /** The identities a record brings. */
  function Brings(f: Filing, ordinal: nat): map<Identity, nat> {
    map kind | kind in f.keys :: (f.stream, kind, f.keys[kind]) := ordinal
  }

  lemma BringsIff(f: Filing, ordinal: nat, id: Identity)
    ensures id in Brings(f, ordinal) <==> Names(f, id)
    ensures id in Brings(f, ordinal) ==> Brings(f, ordinal)[id] == ordinal
  {
    if Names(f, id) {
      assert id == (f.stream, id.1, f.keys[id.1]);
    }
  }

  /** A further row keeps every pointer. */
  lemma PointsKept(filed: seq<Filing>, identities: map<Identity, nat>, entries: seq<Entry>, e: Entry)
    requires Indexed(filed, identities, entries)
    ensures Indexed(filed, identities, entries + [e])
  {
    hide Rows;
    forall id: Identity ensures Points(filed, identities, Rows(entries + [e], Records, id.0, None), id) {
      assert Points(filed, identities, Rows(entries, Records, id.0, None), id);
      RowsAppend(entries, e, Records, id.0, None);
    }
  }

  /** Appending a record under identities that are free adds exactly those pointers. */
  lemma PointsAdded(filed: seq<Filing>, identities: map<Identity, nat>, entries: seq<Entry>, f: Filing, e: Entry)
    requires Indexed(filed, identities, entries)
    requires forall id :: Names(f, id) ==> id !in identities
    requires e.kind == Records && e.stream == f.stream && e.row.payload == f.payload
    requires e.row.ordinal == |Rows(entries, Records, f.stream, None)|
    ensures Indexed(filed + [f], identities + Brings(f, e.row.ordinal), entries + [e])
  {
    hide Rows, Points, Brings, Names;
    forall id: Identity
      ensures Points(filed + [f], identities + Brings(f, e.row.ordinal), Rows(entries + [e], Records, id.0, None), id)
    {
      assert Points(filed, identities, Rows(entries, Records, id.0, None), id);
      RowsAppend(entries, e, Records, id.0, None);
      BringsIff(f, e.row.ordinal, id);
      PointAdded(filed, identities, Rows(entries, Records, id.0, None), Rows(entries + [e], Records, id.0, None), f,
                 e.row, id);
    }
  }

  lemma PointAdded(filed: seq<Filing>, identities: map<Identity, nat>, records: seq<Row<Payload>>,
                   more: seq<Row<Payload>>, f: Filing, row: Row<Payload>, id: Identity)
    requires Points(filed, identities, records, id) && (Names(f, id) ==> id !in identities)
    requires more == if id.0 == f.stream then records + [row] else records
    requires row.payload == f.payload && (id.0 == f.stream ==> row.ordinal == |records|)
    requires id in Brings(f, row.ordinal) <==> Names(f, id)
    requires id in Brings(f, row.ordinal) ==> Brings(f, row.ordinal)[id] == row.ordinal
    ensures Points(filed + [f], identities + Brings(f, row.ordinal), more, id)
  {
    hide Brings;
    var all := filed + [f];
    assert forall i :: 0 <= i < |filed| ==> all[i] == filed[i];
    assert all[|filed|] == f;
    if Names(f, id) {
      assert Taken(all, id);
      forall i | 0 <= i < |filed| ensures !Names(all[i], id) {
        assert !Taken(filed, id);
      }
    } else if Taken(filed, id) {
      var i :| 0 <= i < |filed| && Names(filed[i], id);
      assert Names(all[i], id);
    }
  }

  /** Between two moments nothing changed outside the `touched` streams: neither their rows nor
      the identities taken in them. */
  ghost predicate Frame(entries: seq<Entry>, filed: seq<Filing>, later: seq<Entry>, laterFiled: seq<Filing>,
                        touched: set<(Kind, string)>)
  {
    && (forall kind, stream, identity :: (kind, stream) !in touched ==>
          Rows(later, kind, stream, identity) == Rows(entries, kind, stream, identity))
    && (forall id: Identity :: (Records, id.0) !in touched ==> (Taken(laterFiled, id) <==> Taken(filed, id)))
  }

  lemma FrameAdd(entries: seq<Entry>, filed: seq<Filing>, e: Entry)
    ensures Frame(entries, filed, entries + [e], filed, {(e.kind, e.stream)})
  {
    hide Rows;
    forall kind, stream, identity | (kind, stream) != (e.kind, e.stream)
      ensures Rows(entries + [e], kind, stream, identity) == Rows(entries, kind, stream, identity)
    {
      RowsAppend(entries, e, kind, stream, identity);
    }
  }

  lemma FrameAppend(entries: seq<Entry>, filed: seq<Filing>, e: Entry, f: Filing)
    requires e.kind == Records && e.stream == f.stream
    ensures Frame(entries, filed, entries + [e], filed + [f], {(Records, f.stream)})
  {
    hide Rows;
    FrameAdd(entries, filed, e);
    var all := filed + [f];
    forall id: Identity | id.0 != f.stream ensures Taken(all, id) <==> Taken(filed, id) {
      if i :| 0 <= i < |all| && Names(all[i], id) {
        assert Names(filed[i], id);
      }
      if i :| 0 <= i < |filed| && Names(filed[i], id) {
        assert Names(all[i], id);
      }
    }
  }

  lemma FrameTrans(e0: seq<Entry>, f0: seq<Filing>, e1: seq<Entry>, f1: seq<Filing>, e2: seq<Entry>, f2: seq<Filing>,
                   touched: set<(Kind, string)>, more: set<(Kind, string)>)
    requires Frame(e0, f0, e1, f1, touched) && Frame(e1, f1, e2, f2, more) && more <= touched
    ensures Frame(e0, f0, e2, f2, touched)
  {
    hide Rows, Taken;
  }

  class Index {
    var valid: bool
    var counts: Counts
    var entries: seq<Entry>
    var identities: map<Identity, nat>
    ghost var filed: seq<Filing>

    ghost predicate Valid()
      reads this
    {
      Sound(entries, counts) && Indexed(filed, identities, entries)
    }

    constructor ()
      ensures Valid() && valid && entries == [] && counts == map[] && identities == map[] && filed == []
    {
      valid, counts, entries, identities, filed := true, map[], [], map[], [];
    }

    /** Takes the next ordinal of the stream and inserts one row; `stored` says whether the
        storage accepted it. */
    method Add(kind: Kind, stream: string, identity: string, value: real, payload: Payload, stored: bool)
      returns (r: Result<nat>)
      requires Valid()
      modifies this
      ensures Valid()
      ensures identities == old(identities) && filed == old(filed)
      ensures r.Ok? <==> old(valid) && stored
      ensures valid == r.Ok?
      ensures r.Err? ==> entries == old(entries) && counts == old(counts)
      ensures r.Ok? ==>
                && r.value == Count(old(counts), kind, stream)
                && entries == old(entries) + [Entry(kind, stream, identity, Row(value, r.value, payload))]
                && counts == old(counts)[(kind, stream) := r.value + 1]
    {
      hide Sound, Rows, Indexed;
      if !valid {
        return Err(INVALID);
      }
      if !stored {
        valid := false;
        return Err(STORAGE);
      }
      var ordinal := Count(counts, kind, stream);
      var e := Entry(kind, stream, identity, Row(value, ordinal, payload));
      SoundAppend(entries, counts, e);
      PointsKept(filed, identities, entries, e);
      counts, entries := counts[(kind, stream) := ordinal + 1], entries + [e];
      return Ok(ordinal);
    }

    /** Appends a record under any number of identities; one that is taken ends the session. */
    method Append(stream: string, payload: Payload, keys: map<string, string>, stored: bool) returns (r: Result<nat>)
      requires Valid()
      modifies this
      ensures Valid()
      ensures r.Ok? <==> old(valid) && stored && forall id :: Names(Filing(stream, payload, keys), id) ==>
                !Taken(old(filed), id)
      ensures valid == r.Ok?
      ensures r.Err? ==> entries == old(entries) && counts == old(counts) && filed == old(filed)
      ensures r.Ok? ==>
                && filed == old(filed) + [Filing(stream, payload, keys)]
                && r.value == Count(old(counts), Records, stream)
                && entries == old(entries) + [Entry(Records, stream, "", Row(0.0, r.value, payload))]
                && counts == old(counts)[(Records, stream) := r.value + 1]
    {
      hide Sound, Rows, Points;
      var f := Filing(stream, payload, keys);
      TakenIff(filed, identities, entries);
      if !valid {
        return Err(INVALID);
      }
      if kind :| kind in keys && (stream, kind, keys[kind]) in identities {
        assert Names(f, (stream, kind, keys[kind]));
        valid := false;
        return Err(DUPLICATE);
      }
      forall id | Names(f, id) ensures id !in identities {
        assert id == (stream, id.1, keys[id.1]);
      }
      ghost var before, known := entries, identities;
      r := Add(Records, stream, "", 0.0, payload, stored);
      if r.Ok? {
        StreamCount(before, old(counts), stream);
        PointsAdded(filed, known, before, f, entries[|before|]);
        identities := identities + map kind | kind in keys :: (stream, kind, keys[kind]) := r.value;
        filed := filed + [f];
        assert identities == known + Brings(f, r.value);
      }
    }

    /** Answers the payload of the one record appended under the identity, or that there is none. */
    method Find(stream: string, kind: string, identity: string) returns (r: Result<Option<Payload>>)
      requires Valid()
      ensures r.Ok? <==> valid
      ensures r.Ok? ==> (r.value.Some? <==> Taken(filed, (stream, kind, identity)))
      ensures r.Ok? ==> forall i :: 0 <= i < |filed| && Names(filed[i], (stream, kind, identity)) ==>
                r.value == Some(filed[i].payload)
    {
      hide Sound, Rows;
      assert Points(filed, identities, Rows(entries, Records, stream, None), (stream, kind, identity));
      if !valid {
        return Err(INVALID);
      }
      if (stream, kind, identity) !in identities {
        return Ok(None);
      }
      return Ok(Some(Rows(entries, Records, stream, None)[identities[(stream, kind, identity)]].payload));
    }

    /** The group in the order of its values, ties in insertion order: each row once. */
    method OrderedRows(stream: string, identity: string) returns (r: Result<seq<Row<Payload>>>)
      requires Valid()
      ensures r.Ok? <==> valid
      ensures r.Ok? ==> Enumerates(r.value, Rows(entries, Ordered, stream, Some(identity)))
    {
      hide Sound, Rows, Answer;
      if !valid {
        return Err(INVALID);
      }
      var answer := Answer(Rows(entries, Ordered, stream, Some(identity)));
      AnswerIff(entries, counts, Ordered, stream, Some(identity), answer);
      return Ok(answer);
    }

    /** One row of the ordered group by its place in the enumeration of the group. */
    method OrderedAt(stream: string, identity: string, place: int) returns (r: Result<Payload>)
      requires Valid()
      ensures
        var rows := Rows(entries, Ordered, stream, Some(identity));
        && (r.Ok? <==> valid && 0 <= place < |rows|)
        && (r.Ok? ==> forall out: seq<Row<Payload>> :: Enumerates(out, rows) ==>
             place < |out| && out[place].payload == r.value)
    {
      hide Sound, Rows;
      var rows := Rows(entries, Ordered, stream, Some(identity));
      if place < 0 {
        return Err("IndexError");
      }
      if !valid {
        return Err(INVALID);
      }
      if place >= |rows| {
        return Err("IndexError");
      }
      forall out: seq<Row<Payload>> | Enumerates(out, rows) ensures out == Answer(rows) {
        AnswerIff(entries, counts, Ordered, stream, Some(identity), out);
      }
      return Ok(Answer(rows)[place].payload);
    }

    /** The rank-th smallest number of a stream, counting from one. */
    method Rank(stream: string, rank: int) returns (r: Result<Row<Payload>>)
      requires Valid()
      ensures
        var answer := Answer(Rows(entries, Numbers, stream, None));
        && (r.Ok? <==> valid && 1 <= rank <= |answer|)
        && (r.Ok? ==> r.value == answer[rank - 1])
    {
      if !valid {
        return Err(INVALID);
      }
      if !(1 <= rank <= Count(counts, Numbers, stream)) {
        return Err("numeric rank outside complete population");
      }
      return Ok(Answer(Rows(entries, Numbers, stream, None))[rank - 1]);
    }

    /** The latest row of a group: the one with the greatest ordinal. */
    method GroupLast(stream: string, identity: string) returns (r: Result<Option<Row<Payload>>>)
      requires Valid()
      ensures r.Ok? <==> valid
      ensures r.Ok? ==>
                var rows := Rows(entries, Groups, stream, Some(identity));
                && (r.value.None? <==> rows == [])
                && (r.value.Some? ==> r.value.value in rows && forall e :: e in rows ==>
                     e.ordinal <= r.value.value.ordinal)
                && (r.value.Some? ==> r.value.value == rows[|rows| - 1])
    {
      if !valid {
        return Err(INVALID);
      }
      var rows := Rows(entries, Groups, stream, Some(identity));
      assert Fine(rows, Count(counts, Groups, stream));
      if rows == [] {
        return Ok(None);
      }
      return Ok(Some(rows[|rows| - 1]));
    }
  }

  lemma TakenIff(filed: seq<Filing>, identities: map<Identity, nat>, entries: seq<Entry>)
    requires Indexed(filed, identities, entries)
    ensures forall id :: id in identities <==> Taken(filed, id)
  {
    hide Rows;
    forall id: Identity ensures id in identities <==> Taken(filed, id) {
      assert Points(filed, identities, Rows(entries, Records, id.0, None), id);
    }
  }

  lemma StreamCount(entries: seq<Entry>, counts: Counts, stream: string)
    requires Sound(entries, counts)
    ensures |Rows(entries, Records, stream, None)| == Count(counts, Records, stream)
  {
  }
}
