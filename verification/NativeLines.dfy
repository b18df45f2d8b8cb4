/** The incremental line transport: bytes in, numbered canonical records out. Decoding,
    canonical-form comparison and record validation of one line are the parameter `parse`. */
module NativeLines {
  import opened Basics

  datatype Row = Row(sequence: int, identity: string, closed: bool, line: seq<byte>)

  type Parser = seq<byte> -> Option<Row>

  const NEWLINE: byte := 10

  datatype Lines = Lines(partial: seq<byte>, sequence: nat, bytes: nat, closed: bool, failed: bool)

  function IndexOf(b: seq<byte>): (i: nat)
    ensures i <= |b|
    ensures i < |b| ==> b[i] == NEWLINE
    ensures forall j :: 0 <= j < i ==> b[j] != NEWLINE
  {
    if b == [] then 0 else if b[0] == NEWLINE then 0 else 1 + IndexOf(b[1..])
  }

  /** One line against the record that must come next. */
  function Accept(parse: Parser, identity: string, line: seq<byte>, sequence: nat, closed: bool): Result<Row> {
    if !(0 < |line| < LINE) then Err("transport-line-bound")
    else
      var row := parse(line);
      if row.None? then Err("noncanonical-json")
      else if row.value.sequence != sequence + 1 || sequence + 1 > RECORDS then Err("transport-sequence")
      else if row.value.identity != identity then Err("transport-owner")
      else if closed then Err("record-after-close")
      else Ok(row.value)
  }

  datatype Parsed = Parsed(rows: seq<Row>, sequence: nat, closed: bool, rest: seq<byte>)

  /** All complete lines of the input, and the unfinished rest. */
  function Consume(parse: Parser, identity: string, input: seq<byte>, sequence: nat, closed: bool): Result<Parsed>
    decreases |input|
  {
    var end := IndexOf(input);
    if end == |input| then Ok(Parsed([], sequence, closed, input))
    else
      var row := Accept(parse, identity, input[..end], sequence, closed);
      if row.Err? then Err(row.code)
      else
        Prepend([row.value], Consume(parse, identity, input[end + 1..], sequence + 1, row.value.closed))
  }

  function Prepend(rows: seq<Row>, r: Result<Parsed>): Result<Parsed> {
    if r.Err? then r else Ok(r.value.(rows := rows + r.value.rows))
  }

  function PushChunk(s: Lines, parse: Parser, identity: string, chunk: seq<byte>): (Lines, Result<seq<Row>>) {
    if s.failed then (s, Err("transport-failed"))
    else if s.closed || |chunk| > LINE then (s.(failed := true), Err("transport-closed-or-chunk-overflow"))
    else if s.bytes + |chunk| > SHARD then (s.(bytes := s.bytes + |chunk|, failed := true),
        Err("transport-shard-overflow"))
    else
      var r := Consume(parse, identity, s.partial + chunk, s.sequence, s.closed);
      if r.Err? then (s.(bytes := s.bytes + |chunk|, failed := true), Err(r.code))
      else if |r.value.rest| >= LINE then (s.(bytes := s.bytes + |chunk|, failed := true),
          Err("transport-partial-overflow"))
      else (Lines(r.value.rest, r.value.sequence, s.bytes + |chunk|, r.value.closed, false), Ok(r.value.rows))
  }

  predicate CanShard(s: Lines) { !s.failed && s.partial == [] && !s.closed }

  predicate CanEnd(s: Lines) { !s.failed && s.partial == [] && s.closed }

  /** Pushes every chunk; the rows come back only when every push succeeded. */
  function Feed(s: Lines, parse: Parser, identity: string, chunks: seq<seq<byte>>): (Lines, Result<seq<Row>>)
    decreases |chunks|
  {
    if chunks == [] then (s, Ok([]))
    else
      var (t, r) := PushChunk(s, parse, identity, chunks[0]);
      if r.Err? then (t, r)
      else
        var (u, q) := Feed(t, parse, identity, chunks[1..]);
        if q.Err? then (u, q) else (u, Ok(r.value + q.value))
  }

  /** A whole session: shards of chunks, a shard boundary between them, and the end. */
  function Session(s: Lines, parse: Parser, identity: string, shards: seq<seq<seq<byte>>>): Result<seq<Row>>
    decreases |shards|
  {
    if shards == [] then if CanEnd(s) then Ok([]) else Err("transport-partial-or-unclosed-eof")
    else
      var (t, r) := Feed(s, parse, identity, shards[0]);
      if r.Err? then r
      else if |shards| == 1 then if CanEnd(t) then r else Err("transport-partial-or-unclosed-eof")
      else if !CanShard(t) then Err("shard-boundary")
      else
        var q := Session(t.(bytes := 0), parse, identity, shards[1..]);
        if q.Err? then q else Ok(r.value + q.value)
  }

  function Flat(chunks: seq<seq<byte>>): seq<byte> {
    if chunks == [] then [] else chunks[0] + Flat(chunks[1..])
  }

  function FlatShards(shards: seq<seq<seq<byte>>>): seq<byte> {
    if shards == [] then [] else Flat(shards[0]) + FlatShards(shards[1..])
  }

  predicate ChunksOk(chunks: seq<seq<byte>>) {
    forall i :: 0 <= i < |chunks| ==> 0 < |chunks[i]| <= LINE
  }

  /** Each shard stays within its byte limit and all but the last end on a line boundary with
      more to come. */
  predicate ShardsOk(shards: seq<seq<seq<byte>>>)
    decreases |shards|
  {
    && |shards| > 0 && |Flat(shards[0])| <= SHARD
    && (|shards| > 1 ==>
          && (Flat(shards[0]) == [] || Flat(shards[0])[|Flat(shards[0])| - 1] == NEWLINE)
          && FlatShards(shards[1..]) != []
          && ShardsOk(shards[1..]))
  }

  function JoinLines(lines: seq<seq<byte>>): seq<byte> {
    if lines == [] then [] else lines[0] + [NEWLINE] + JoinLines(lines[1..])
  }

  ghost predicate LineOk(parse: Parser, identity: string, line: seq<byte>, row: Row, number: nat, last: bool) {
    && 0 < |line| < LINE && NEWLINE !in line
    && parse(line) == Some(row)
    && row.sequence == number && row.identity == identity && row.closed == last
  }

  ghost predicate LinesFrom(parse: Parser, identity: string, lines: seq<seq<byte>>, rows: seq<Row>, sequence: nat) {
    && |lines| == |rows| && sequence + |rows| <= RECORDS
    && forall i :: 0 <= i < |lines| ==> LineOk(parse, identity, lines[i], rows[i], sequence + i + 1, i == |lines| - 1)
  }

  /** The stream is a sequence of bounded lines, each parsing to the record of its own number
      for this owner, of which exactly the last is the closing record. */
  ghost predicate Transcript(parse: Parser, identity: string, stream: seq<byte>, rows: seq<Row>) {
    |rows| > 0 && exists lines :: stream == JoinLines(lines) && LinesFrom(parse, identity, lines, rows, 0)
  }

  // ---- consuming in pieces ----

  lemma IndexOfAppend(a: seq<byte>, b: seq<byte>)
    ensures IndexOf(a) < |a| ==> IndexOf(a + b) == IndexOf(a)
    ensures IndexOf(a) == |a| && IndexOf(b) < |b| ==> IndexOf(a + b) == |a| + IndexOf(b)
    ensures IndexOf(a) == |a| && IndexOf(b) == |b| ==> IndexOf(a + b) == |a + b|
  {
    var c := a + b;
    if IndexOf(a) < |a| {
      assert c[IndexOf(a)] == NEWLINE;
    } else if IndexOf(b) < |b| {
      assert c[|a| + IndexOf(b)] == NEWLINE;
      assert forall j :: 0 <= j < |a| + IndexOf(b) ==> c[j] != NEWLINE;
    } else {
      assert forall j :: 0 <= j < |c| ==> c[j] != NEWLINE;
    }
  }

  lemma PrependTwice(a: seq<Row>, b: seq<Row>, r: Result<Parsed>)
    ensures Prepend(a, Prepend(b, r)) == Prepend(a + b, r)
    ensures a == [] ==> Prepend(a, r) == r
  {
    if r.Ok? {
      assert a + (b + r.value.rows) == a + b + r.value.rows;
      assert [] + r.value.rows == r.value.rows;
    }
  }

  /** Consuming a prefix first and its rest later is consuming the whole. */
  lemma {:induction false} ConsumeAppend(parse: Parser, identity: string, a: seq<byte>, b: seq<byte>, sequence: nat,
                                         closed: bool)
    ensures
      var first := Consume(parse, identity, a, sequence, closed);
      var whole := Consume(parse, identity, a + b, sequence, closed);
      whole == if first.Err? then first
               else Prepend(first.value.rows,
                            Consume(parse, identity, first.value.rest + b, first.value.sequence, first.value.closed))
    decreases |a|
  {
    hide Accept, Prepend;
    IndexOfAppend(a, b);
    var end := IndexOf(a);
    if end == |a| {
      PrependTwice([], [], Consume(parse, identity, a + b, sequence, closed));
    } else {
      assert (a + b)[..end] == a[..end];
      assert (a + b)[end + 1..] == a[end + 1..] + b;
      var row := Accept(parse, identity, a[..end], sequence, closed);
      if row.Ok? {
        ConsumeAppend(parse, identity, a[end + 1..], b, sequence + 1, row.value.closed);
        ConsumeFirst(parse, identity, a, sequence, closed, row.value);
        ConsumeFirst(parse, identity, a + b, sequence, closed, row.value);
        var tail := Consume(parse, identity, a[end + 1..], sequence + 1, row.value.closed);
        PrependOk([row.value], tail);
        if tail.Ok? {
          PrependTwice([row.value], tail.value.rows,
                       Consume(parse, identity, tail.value.rest + b, tail.value.sequence, tail.value.closed));
        }
      }
    }
  }

  lemma ConsumeFirst(parse: Parser, identity: string, input: seq<byte>, sequence: nat, closed: bool, row: Row)
    requires IndexOf(input) < |input| && Accept(parse, identity, input[..IndexOf(input)], sequence, closed) == Ok(row)
    ensures Consume(parse, identity, input, sequence, closed) ==
              Prepend([row], Consume(parse, identity, input[IndexOf(input) + 1..], sequence + 1, row.closed))
  {
  }

  lemma PrependOk(rows: seq<Row>, r: Result<Parsed>)
    ensures Prepend(rows, r) == if r.Err? then r else Ok(r.value.(rows := rows + r.value.rows))
  {
  }

  lemma ConsumeNone(parse: Parser, identity: string, input: seq<byte>, sequence: nat, closed: bool)
    requires IndexOf(input) == |input|
    ensures Consume(parse, identity, input, sequence, closed) == Ok(Parsed([], sequence, closed, input))
  {
  }

  lemma ConsumeBad(parse: Parser, identity: string, input: seq<byte>, sequence: nat, closed: bool)
    requires IndexOf(input) < |input| && Accept(parse, identity, input[..IndexOf(input)], sequence, closed).Err?
    ensures Consume(parse, identity, input, sequence, closed) ==
              Err(Accept(parse, identity, input[..IndexOf(input)], sequence, closed).code)
  {
  }

  lemma NothingAfterClose(parse: Parser, identity: string, line: seq<byte>, sequence: nat)
    ensures Accept(parse, identity, line, sequence, true).Err?
  {
  }

  /** The unfinished rest never contains a newline, and a closed stream takes no further line. */
  lemma {:induction false} RestHasNoNewline(parse: Parser, identity: string, input: seq<byte>, sequence: nat,
                                            closed: bool)
    ensures
      var r := Consume(parse, identity, input, sequence, closed);
      r.Ok? ==> IndexOf(r.value.rest) == |r.value.rest| && (closed ==> r.value.rest == input)
    decreases |input|
  {
    hide Consume, Accept;
    var end := IndexOf(input);
    if end == |input| {
      ConsumeNone(parse, identity, input, sequence, closed);
    } else {
      var row := Accept(parse, identity, input[..end], sequence, closed);
      NothingAfterClose(parse, identity, input[..end], sequence);
      if row.Ok? {
        ConsumeFirst(parse, identity, input, sequence, closed, row.value);
        RestHasNoNewline(parse, identity, input[end + 1..], sequence + 1, row.value.closed);
      } else {
        ConsumeBad(parse, identity, input, sequence, closed);
      }
    }
  }

  /** A pending part as long as a line can never be completed. */
  lemma OverlongStuck(parse: Parser, identity: string, rest: seq<byte>, b: seq<byte>, sequence: nat, closed: bool)
    requires IndexOf(rest) == |rest| && |rest| >= LINE
    ensures
      var r := Consume(parse, identity, rest + b, sequence, closed);
      r.Ok? ==> r.value.rest != []
  {
    IndexOfAppend(rest, b);
  }

  predicate Complete(r: Result<Parsed>) { r.Ok? && r.value.closed && r.value.rest == [] }

  predicate Ready(s: Lines) { !s.failed && IndexOf(s.partial) == |s.partial| < LINE }

  /** Feeding chunks is consuming their concatenation; it fails only if no continuation `more`
      of the stream could be accepted, or if the shard limit is exceeded. */
  lemma {:induction false} FeedIsConsume(s: Lines, parse: Parser, identity: string, chunks: seq<seq<byte>>,
                                         more: seq<byte>)
    requires Ready(s) && ChunksOk(chunks)
    ensures
      var (t, r) := Feed(s, parse, identity, chunks);
      if r.Ok? then
        && Ready(t) && t.bytes == s.bytes + |Flat(chunks)| && (chunks != [] ==> t.bytes <= SHARD)
        && Consume(parse, identity, s.partial + Flat(chunks), s.sequence, s.closed) ==
             Ok(Parsed(r.value, t.sequence, t.closed, t.partial))
      else
        Complete(Consume(parse, identity, s.partial + Flat(chunks) + more, s.sequence, s.closed)) ==>
            s.bytes + |Flat(chunks)| > SHARD
    decreases |chunks|
  {
    hide Consume, Accept, PushChunk, IndexOf;
    if chunks == [] {
      assert s.partial + Flat(chunks) == s.partial;
      ConsumeNone(parse, identity, s.partial, s.sequence, s.closed);
    } else {
      var (t, r) := PushChunk(s, parse, identity, chunks[0]);
      var rest := Flat(chunks[1..]);
      if r.Err? {
        PushFails(s, parse, identity, chunks[0], rest + more);
      }
      assert s.partial + Flat(chunks) + more == s.partial + chunks[0] + (rest + more);
      assert s.partial + Flat(chunks) == s.partial + chunks[0] + rest;
      ConsumeAppend(parse, identity, s.partial + chunks[0], rest, s.sequence, s.closed);
      if r.Ok? {
        PushSucceeds(s, parse, identity, chunks[0]);
        ConsumeAppend(parse, identity, s.partial + chunks[0], rest + more, s.sequence, s.closed);
        assert t.partial + rest + more == t.partial + (rest + more);
        FeedIsConsume(t, parse, identity, chunks[1..], more);
      }
    }
  }

  lemma PushSucceeds(s: Lines, parse: Parser, identity: string, chunk: seq<byte>)
    requires Ready(s) && PushChunk(s, parse, identity, chunk).1.Ok?
    ensures
      var (t, r) := PushChunk(s, parse, identity, chunk);
      && Ready(t) && t.bytes == s.bytes + |chunk| <= SHARD
      && Consume(parse, identity, s.partial + chunk, s.sequence, s.closed) ==
           Ok(Parsed(r.value, t.sequence, t.closed, t.partial))
  {
    hide Consume;
    RestHasNoNewline(parse, identity, s.partial + chunk, s.sequence, s.closed);
  }

  /** A rejected chunk dooms every continuation, unless the shard limit rejected it. */
  lemma PushFails(s: Lines, parse: Parser, identity: string, chunk: seq<byte>, more: seq<byte>)
    requires Ready(s) && 0 < |chunk| <= LINE && PushChunk(s, parse, identity, chunk).1.Err?
    ensures Complete(Consume(parse, identity, s.partial + chunk + more, s.sequence, s.closed)) ==>
              s.bytes + |chunk| > SHARD
  {
    ConsumeAppend(parse, identity, s.partial + chunk, more, s.sequence, s.closed);
    RestHasNoNewline(parse, identity, s.partial + chunk + more, s.sequence, s.closed);
    RestHasNoNewline(parse, identity, s.partial + chunk, s.sequence, s.closed);
    var first := Consume(parse, identity, s.partial + chunk, s.sequence, s.closed);
    if first.Ok? && |first.value.rest| >= LINE {
      OverlongStuck(parse, identity, first.value.rest, more, first.value.sequence, first.value.closed);
    }
  }

  // ---- shards ----

  /** The rest is a suffix of the input, so it is empty exactly at a line boundary. */
  lemma {:induction false} RestIsSuffix(parse: Parser, identity: string, input: seq<byte>, sequence: nat, closed: bool)
    ensures
      var r := Consume(parse, identity, input, sequence, closed);
      r.Ok? ==>
        && |r.value.rest| <= |input| && r.value.rest == input[|input| - |r.value.rest|..]
        && (r.value.rest == [] <==> input == [] || input[|input| - 1] == NEWLINE)
    decreases |input|
  {
    hide Consume, Accept;
    var end := IndexOf(input);
    if end < |input| {
      var row := Accept(parse, identity, input[..end], sequence, closed);
      if row.Ok? {
        var tail := input[end + 1..];
        ConsumeFirst(parse, identity, input, sequence, closed, row.value);
        RestIsSuffix(parse, identity, tail, sequence + 1, row.value.closed);
        assert tail != [] ==> tail[|tail| - 1] == input[|input| - 1];
      } else {
        ConsumeBad(parse, identity, input, sequence, closed);
      }
    } else {
      ConsumeNone(parse, identity, input, sequence, closed);
      assert input != [] ==> input[|input| - 1] != NEWLINE;
    }
  }

  predicate ShardChunksOk(shards: seq<seq<seq<byte>>>) {
    forall i :: 0 <= i < |shards| ==> ChunksOk(shards[i])
  }

  predicate AtBoundary(s: Lines) { CanShard(s) && s.bytes == 0 }

  ghost predicate Yields(r: Result<Parsed>, rows: seq<Row>) { Complete(r) && r.value.rows == rows }

  lemma OneShard(s: Lines, parse: Parser, identity: string, chunks: seq<seq<byte>>, rows: seq<Row>)
    requires AtBoundary(s) && ChunksOk(chunks)
    ensures
      var (t, r) := Feed(s, parse, identity, chunks);
      (r == Ok(rows) && CanEnd(t)) <==>
          (|Flat(chunks)| <= SHARD && Yields(Consume(parse, identity, Flat(chunks), s.sequence, false), rows))
  {
    hide Consume, Feed;
    FeedIsConsume(s, parse, identity, chunks, []);
    assert s.partial + Flat(chunks) == Flat(chunks);
    assert s.partial + Flat(chunks) + [] == Flat(chunks);
  }

  /** A shard followed by more: it must end on a line boundary and leave the stream open. */
  lemma FirstShard(s: Lines, parse: Parser, identity: string, chunks: seq<seq<byte>>, more: seq<byte>)
    requires AtBoundary(s) && ChunksOk(chunks)
    ensures
      var flat := Flat(chunks);
      var (t, r) := Feed(s, parse, identity, chunks);
      var boundary := flat == [] || flat[|flat| - 1] == NEWLINE;
      var whole := Consume(parse, identity, flat + more, s.sequence, false);
      && (r.Ok? && CanShard(t) ==>
            && boundary && |flat| <= SHARD && AtBoundary(t.(bytes := 0))
            && whole == Prepend(r.value, Consume(parse, identity, more, t.sequence, false)))
      && (Complete(whole) && boundary && more != [] && |flat| <= SHARD ==> r.Ok? && CanShard(t))
  {
    hide Consume, Feed, IndexOf;
    FeedIsConsume(s, parse, identity, chunks, more);
    var flat := Flat(chunks);
    var (t, r) := Feed(s, parse, identity, chunks);
    assert s.partial + flat == flat;
    assert s.partial + flat + more == flat + more;
    ConsumeAppend(parse, identity, flat, more, s.sequence, false);
    RestIsSuffix(parse, identity, flat, s.sequence, false);
    if r.Ok? {
      RestHasNoNewline(parse, identity, t.partial + more, t.sequence, t.closed);
      if t.partial == [] {
        assert t.partial + more == more;
      }
    }
  }

  /** Chunking and sharding never matter: a session is accepted with rows `rows` exactly when
      its bytes, read in one piece, yield `rows`, and the shards respect their limits. */
  lemma {:induction false} SessionIff(s: Lines, parse: Parser, identity: string, shards: seq<seq<seq<byte>>>,
                                      rows: seq<Row>)
    requires AtBoundary(s) && ShardChunksOk(shards) && |shards| > 0
    ensures Session(s, parse, identity, shards) == Ok(rows) <==>
              ShardsOk(shards) && Yields(Consume(parse, identity, FlatShards(shards), s.sequence, false), rows)
    decreases |shards|
  {
    hide Feed, Consume, Flat, AtBoundary;
    var (t, r) := Feed(s, parse, identity, shards[0]);
    var more := FlatShards(shards[1..]);
    if |shards| == 1 {
      assert Flat(shards[0]) + more == Flat(shards[0]);
      OneShard(s, parse, identity, shards[0], rows);
    } else {
      FirstShard(s, parse, identity, shards[0], more);
      if r.Ok? && CanShard(t) {
        var q := Session(t.(bytes := 0), parse, identity, shards[1..]);
        var tail := Consume(parse, identity, more, t.sequence, false);
        NotYetClosed(parse, identity, more, t.sequence);
        if q.Ok? {
          SessionIff(t.(bytes := 0), parse, identity, shards[1..], q.value);
        }
        if tail.Ok? {
          SessionIff(t.(bytes := 0), parse, identity, shards[1..], tail.value.rows);
        }
      }
    }
  }

  lemma NotYetClosed(parse: Parser, identity: string, input: seq<byte>, sequence: nat)
    ensures Complete(Consume(parse, identity, input, sequence, false)) ==> input != []
  {
    if |input| == 0 {
      ConsumeEmpty(parse, identity, input, sequence, false);
    }
  }

  lemma ConsumeEmpty(parse: Parser, identity: string, input: seq<byte>, sequence: nat, closed: bool)
    requires |input| == 0
    ensures Consume(parse, identity, input, sequence, closed) == Ok(Parsed([], sequence, closed, []))
  {
  }

  // ---- the declarative transcript ----

  lemma LineFirst(line: seq<byte>, rest: seq<byte>)
    requires NEWLINE !in line
    ensures var s := line + [NEWLINE] + rest; IndexOf(s) == |line| && s[..|line|] == line && s[|line| + 1..] == rest
  {
    var s := line + [NEWLINE] + rest;
    assert s[|line|] == NEWLINE;
    assert forall j :: 0 <= j < |line| ==> s[j] == line[j];
  }

  lemma LinesTail(parse: Parser, identity: string, lines: seq<seq<byte>>, rows: seq<Row>, sequence: nat)
    requires LinesFrom(parse, identity, lines, rows, sequence) && |lines| > 1
    ensures LinesFrom(parse, identity, lines[1..], rows[1..], sequence + 1)
  {
    hide LineOk;
    forall i | 0 <= i < |lines| - 1
      ensures LineOk(parse, identity, lines[1..][i], rows[1..][i], sequence + 1 + i + 1, i == |lines| - 2)
    {
      assert LineOk(parse, identity, lines[i + 1], rows[i + 1], sequence + (i + 1) + 1, i + 1 == |lines| - 1);
    }
  }

  lemma LinesCons(parse: Parser, identity: string, line: seq<byte>, row: Row, lines: seq<seq<byte>>, rows: seq<Row>,
                  sequence: nat)
    requires LinesFrom(parse, identity, lines, rows, sequence + 1) && sequence < RECORDS
    requires LineOk(parse, identity, line, row, sequence + 1, lines == [])
    ensures LinesFrom(parse, identity, [line] + lines, [row] + rows, sequence)
  {
    hide LineOk;
    forall i | 0 < i <= |lines|
      ensures LineOk(parse, identity, ([line] + lines)[i], ([row] + rows)[i], sequence + i + 1, i == |lines|)
    {
      assert LineOk(parse, identity, lines[i - 1], rows[i - 1], sequence + 1 + (i - 1) + 1, i - 1 == |lines| - 1);
    }
  }

  lemma AcceptIff(parse: Parser, identity: string, line: seq<byte>, sequence: nat, row: Row)
    requires NEWLINE !in line && sequence < RECORDS
    ensures Accept(parse, identity, line, sequence, false) == Ok(row) <==>
              LineOk(parse, identity, line, row, sequence + 1, row.closed)
  {
  }

  lemma JoinCons(line: seq<byte>, lines: seq<seq<byte>>)
    ensures JoinLines([line] + lines) == line + [NEWLINE] + JoinLines(lines)
  {
    assert ([line] + lines)[1..] == lines;
  }

  lemma HeadLine(parse: Parser, identity: string, lines: seq<seq<byte>>, rows: seq<Row>, sequence: nat)
    requires LinesFrom(parse, identity, lines, rows, sequence) && |rows| > 0
    ensures
      var stream, rest := JoinLines(lines), JoinLines(lines[1..]);
      && |lines| == |rows| && rows[0].closed == (|lines| == 1) && (|lines| == 1 ==> |rest| == 0)
      && Consume(parse, identity, stream, sequence, false) ==
           Prepend([rows[0]], Consume(parse, identity, rest, sequence + 1, rows[0].closed))
  {
    assert LineOk(parse, identity, lines[0], rows[0], sequence + 0 + 1, 0 == |lines| - 1);
    hide Consume, Accept, LinesFrom;
    LineFirst(lines[0], JoinLines(lines[1..]));
    AcceptIff(parse, identity, lines[0], sequence, rows[0]);
    ConsumeFirst(parse, identity, JoinLines(lines), sequence, false, rows[0]);
  }

  /** Every transcript is consumed completely, yielding its rows. */
  lemma {:induction false} LinesConsumed(parse: Parser, identity: string, lines: seq<seq<byte>>, rows: seq<Row>,
                                         sequence: nat)
    requires LinesFrom(parse, identity, lines, rows, sequence) && |rows| > 0
    ensures Consume(parse, identity, JoinLines(lines), sequence, false) == Ok(Parsed(rows, sequence + |rows|, true, []))
    decreases |lines|
  {
    hide Consume, LinesFrom, JoinLines;
    HeadLine(parse, identity, lines, rows, sequence);
    if |lines| == 1 {
      ConsumeEmpty(parse, identity, JoinLines(lines[1..]), sequence + 1, true);
      assert [rows[0]] + [] == rows;
    } else {
      LinesTail(parse, identity, lines, rows, sequence);
      LinesConsumed(parse, identity, lines[1..], rows[1..], sequence + 1);
      assert [rows[0]] + rows[1..] == rows;
    }
  }

  lemma FirstLine(parse: Parser, identity: string, stream: seq<byte>,
                  sequence: nat) returns (line: seq<byte>, rest: seq<byte>, row: Row)
    requires sequence <= RECORDS && Complete(Consume(parse, identity, stream, sequence, false))
    ensures |rest| < |stream| && stream == line + [NEWLINE] + rest && sequence < RECORDS
    ensures LineOk(parse, identity, line, row, sequence + 1, row.closed)
    ensures Consume(parse, identity, stream, sequence, false) ==
              Prepend([row], Consume(parse, identity, rest, sequence + 1, row.closed))
  {
    var end := IndexOf(stream);
    line, rest := stream[..end], stream[end + 1..];
    row := Accept(parse, identity, line, sequence, false).value;
    assert stream == line + [NEWLINE] + rest;
    AcceptIff(parse, identity, line, sequence, row);
  }

  /** Everything consumed completely is a transcript. */
  lemma {:induction false} ConsumedLines(parse: Parser, identity: string, stream: seq<byte>,
                                         sequence: nat) returns (lines: seq<seq<byte>>)
    requires sequence <= RECORDS && Complete(Consume(parse, identity, stream, sequence, false))
    ensures
      var rows := Consume(parse, identity, stream, sequence, false).value.rows;
      |rows| > 0 && stream == JoinLines(lines) && LinesFrom(parse, identity, lines, rows, sequence) && |lines| > 0
    decreases |stream|
  {
    hide Consume, LinesFrom, LineOk;
    var line, rest, row := FirstLine(parse, identity, stream, sequence);
    var tail := Consume(parse, identity, rest, sequence + 1, row.closed);
    if row.closed {
      RestHasNoNewline(parse, identity, rest, sequence + 1, true);
      ConsumeEmpty(parse, identity, rest, sequence + 1, true);
      NoLines(parse, identity, sequence + 1);
      LinesCons(parse, identity, line, row, [], [], sequence);
      lines := [line] + [];
      JoinCons(line, []);
    } else {
      var more := ConsumedLines(parse, identity, rest, sequence + 1);
      LinesCons(parse, identity, line, row, more, tail.value.rows, sequence);
      JoinCons(line, more);
      lines := [line] + more;
    }
  }

  lemma NoLines(parse: Parser, identity: string, sequence: nat)
    requires sequence <= RECORDS
    ensures LinesFrom(parse, identity, [], [], sequence)
  {
  }

  /** The one-shot reading accepts exactly the transcripts. */
  lemma TranscriptIff(parse: Parser, identity: string, stream: seq<byte>, rows: seq<Row>)
    ensures
      var whole := Consume(parse, identity, stream, 0, false);
      Complete(whole) && whole.value.rows == rows <==> Transcript(parse, identity, stream, rows)
  {
    var whole := Consume(parse, identity, stream, 0, false);
    if Complete(whole) && whole.value.rows == rows {
      var lines := ConsumedLines(parse, identity, stream, 0);
    }
    if Transcript(parse, identity, stream, rows) {
      var lines :| stream == JoinLines(lines) && LinesFrom(parse, identity, lines, rows, 0);
      LinesConsumed(parse, identity, lines, rows, 0);
    }
  }

  /** The transport accepts a session exactly when its bytes are a transcript, however they
      were cut into chunks and shards. */
  lemma ChunkingIndependence(parse: Parser, identity: string, shards: seq<seq<seq<byte>>>, rows: seq<Row>)
    requires ShardChunksOk(shards) && |shards| > 0
    ensures Session(Lines([], 0, 0, false, false), parse, identity, shards) == Ok(rows) <==>
              ShardsOk(shards) && Transcript(parse, identity, FlatShards(shards), rows)
  {
    SessionIff(Lines([], 0, 0, false, false), parse, identity, shards, rows);
    TranscriptIff(parse, identity, FlatShards(shards), rows);
  }

  /** A refused push is the end of the transport: every later push is refused without effect, and
      it can neither go on to another shard nor end. */
  lemma RefusalIsFinal(s: Lines, parse: Parser, identity: string, chunk: seq<byte>, more: seq<byte>)
    requires PushChunk(s, parse, identity, chunk).1.Err?
    ensures
      var t := PushChunk(s, parse, identity, chunk).0;
      && PushChunk(t, parse, identity, more) == (t, Err("transport-failed"))
      && !CanShard(t) && !CanEnd(t)
  {
  }

  /** The transport object. */
  class Transport {
    const parse: Parser
    const identity: string
    var partial: seq<byte>
    var sequence: nat
    var bytes: nat
    var closed: bool
    var failed: bool

    ghost function Abs(): Lines
      reads this
    {
      Lines(partial, sequence, bytes, closed, failed)
    }

    constructor (parse: Parser, identity: string)
      ensures this.parse == parse && this.identity == identity && Abs() == Lines([], 0, 0, false, false)
    {
      this.parse, this.identity := parse, identity;
      partial, sequence, bytes, closed, failed := [], 0, 0, false, false;
    }

    method Push(chunk: seq<byte>) returns (result: Result<seq<Row>>)
      modifies this
      ensures result == PushChunk(old(Abs()), parse, identity, chunk).1
      ensures result.Ok? ==> Abs() == PushChunk(old(Abs()), parse, identity, chunk).0
      ensures result.Err? ==> failed
    {
      if failed {
        return Err("transport-failed");
      }
      if closed || |chunk| > LINE {
        failed := true;
        return Err("transport-closed-or-chunk-overflow");
      }
      bytes := bytes + |chunk|;
      if bytes > SHARD {
        failed := true;
        return Err("transport-shard-overflow");
      }
      result := ConsumeAll(partial + chunk);
      if result.Err? {
        failed := true;
      }
    }

    /** The line loop; `sequence`, `closed` and `partial` are updated as lines are accepted. */
    method ConsumeAll(input: seq<byte>) returns (result: Result<seq<Row>>)
      modifies this
      ensures bytes == old(bytes) && failed == old(failed)
      ensures
        var r := Consume(parse, identity, input, old(sequence), old(closed));
        if r.Err? then result == Err(r.code)
        else if |r.value.rest| >= LINE then result == Err("transport-partial-overflow")
        else
          && result == Ok(r.value.rows) && partial == r.value.rest
          && sequence == r.value.sequence && closed == r.value.closed
    {
      hide Consume, Accept;
      var rows: seq<Row> := [];
      var rest := input;
      ghost var whole := Consume(parse, identity, input, sequence, closed);
      PrependTwice([], [], whole);
      var end := IndexOf(rest);
      while end < |rest|
        invariant end == IndexOf(rest)
        invariant bytes == old(bytes) && failed == old(failed)
        invariant whole == Prepend(rows, Consume(parse, identity, rest, sequence, closed))
        decreases |rest|
      {
        var row := Accept(parse, identity, rest[..end], sequence, closed);
        if row.Err? {
          ConsumeBad(parse, identity, rest, sequence, closed);
          return Err(row.code);
        }
        ConsumeFirst(parse, identity, rest, sequence, closed, row.value);
        PrependTwice(rows, [row.value], Consume(parse, identity, rest[end + 1..], sequence + 1, row.value.closed));
        sequence := sequence + 1;
        closed := row.value.closed;
        rows := rows + [row.value];
        rest := rest[end + 1..];
        end := IndexOf(rest);
      }
      ConsumeNone(parse, identity, rest, sequence, closed);
      assert rows + [] == rows;
      partial := rest;
      if |partial| >= LINE {
        return Err("transport-partial-overflow");
      }
      return Ok(rows);
    }

    method NextShard() returns (ok: bool)
      modifies this
      ensures ok == CanShard(old(Abs()))
      ensures Abs() == if ok then old(Abs()).(bytes := 0) else old(Abs())
    {
      ok := !failed && partial == [] && !closed;
      if ok {
        bytes := 0;
      }
    }

    method End() returns (ok: bool)
      ensures ok == CanEnd(Abs())
    {
      ok := !failed && partial == [] && closed;
    }
  }
}
