/** The framed handoff wire format: 45 header bytes, then the payload. */
module Frames {
  import opened Basics

  const MAGIC: seq<byte> := [79, 67, 51, 66]
  const HEADER := 45
  const RECORD := 1
  const CALLBACK := 2
  const TERMINAL := 3
  const ACK := 4
  const MAX_ACK := 16 * 1024
  const MAX_CALLBACK := LINE + CHUNK

  function PayloadCap(kind: int): Result<nat> {
    if kind == RECORD then Ok(LINE - 1)
    else if kind == CALLBACK then Ok(LINE + CHUNK)
    else if kind == TERMINAL then Ok(FAILURE_SNAPSHOT)
    else if kind == ACK then Ok(MAX_ACK)
    else Err("handoff-stream-kind")
  }

  /** `frame`: refuses sequence numbers and payloads the header cannot carry. */
  function Frame(kind: byte, sequence: nat, key: seq<byte>, payload: seq<byte>): Result<seq<byte>>
    requires |key| == 32
  {
    if 0 < sequence < U32 && |payload| <= FAILURE_SNAPSHOT then Ok(Layout(kind, sequence, key, payload))
    else Err("handoff-frame-bound")
  }

  function Layout(kind: byte, sequence: nat, key: seq<byte>, payload: seq<byte>): (f: seq<byte>)
    requires |key| == 32 && sequence < U32 && |payload| < U32
    ensures |f| == HEADER + |payload|
  {
    MAGIC + [kind] + EncodeU32(sequence) + key + EncodeU32(|payload|) + payload
  }

  /** Every field of a frame is read back as it was written. */
  lemma FrameRoundTrip(kind: byte, sequence: nat, key: seq<byte>, payload: seq<byte>)
    requires |key| == 32 && sequence < U32 && |payload| < U32
    ensures
      var f := Layout(kind, sequence, key, payload);
      && f[..4] == MAGIC && f[4] == kind && ReadU32(f, 5) == sequence && f[9..41] == key
      && ReadU32(f, 41) == |payload| && f[HEADER..] == payload
  {
    var f := Layout(kind, sequence, key, payload);
    assert f[5..9] == EncodeU32(sequence);
    assert f[41..45] == EncodeU32(|payload|);
    U32RoundTrip(sequence, f, 5);
    U32RoundTrip(|payload|, f, 41);
  }

  /** What the stream demands of a request before it writes a byte. */
  predicate RequestOk(request: seq<byte>, sequence: nat, key: seq<byte>) {
    && |request| >= HEADER
    && request[..4] == MAGIC
    && RECORD <= request[4] <= TERMINAL
    && ReadU32(request, 5) == sequence + 1
    && request[9..41] == key
    && 0 < ReadU32(request, 41) <= PayloadCap(request[4]).value
    && |request| == HEADER + ReadU32(request, 41)
  }

  /** What the stream demands of an acknowledgement header. */
  predicate AckHeaderOk(header: seq<byte>, sequence: nat, key: seq<byte>) {
    |header| >= HEADER && header[..4] == MAGIC && header[4] == ACK && ReadU32(header, 5) == sequence
        && header[9..41] == key
  }

  /** `ackPayload` of the client. */
  function AckPayload(raw: seq<byte>, sequence: nat, key: seq<byte>): Result<seq<byte>> {
    if |raw| < HEADER then Err("handoff-ack-truncated")
    else if !AckHeaderOk(raw, sequence, key) then Err("handoff-ack-owner")
    else if ReadU32(raw, 41) <= MAX_ACK && |raw| == HEADER + ReadU32(raw, 41) then Ok(raw[HEADER..])
    else Err("handoff-ack-length")
  }

  /** What the three client operations may put into a frame. */
  datatype Message =
    | Record(line: seq<byte>)
    | Callback(metadata: seq<byte>, data: seq<byte>)
    | Final(snapshot: seq<byte>)

  predicate Sendable(m: Message) {
    match m
    case Record(line) => 1 < |line| < LINE && line[|line| - 1] == 10
    case Callback(metadata, data) =>
      0 < |metadata| < LINE && 0 < |data| <= CHUNK && |metadata| + |data| + 4 <= MAX_CALLBACK
    case Final(snapshot) => 0 < |snapshot| <= FAILURE_SNAPSHOT
  }

  /** A record is a line with something on it, of less than 96 KiB; a callback has metadata and up to 48
      KiB of data that fit 144 KiB with a length in front; a snapshot is at most 8 MiB. */
  lemma SendableIff(m: Message)
    ensures m.Record? ==>
              (Sendable(m) <==> exists text: seq<byte> :: 1 <= |text| <= 96 * 1024 - 2 && m.line == text + [10])
    ensures m.Callback? ==>
              (Sendable(m) <==>
                && 1 <= |m.metadata| <= 96 * 1024 - 1 && 1 <= |m.data| <= 48 * 1024
                && 4 + |m.metadata| + |m.data| <= 144 * 1024)
    ensures m.Final? ==> (Sendable(m) <==> 1 <= |m.snapshot| <= 8 * 1024 * 1024)
  {
    if m.Record? && Sendable(m) {
      var text := m.line[..|m.line| - 1];
      assert m.line == text + [10];
    }
  }

  function KindOf(m: Message): byte {
    match m case Record(_) => RECORD case Callback(_, _) => CALLBACK case Final(_) => TERMINAL
  }

  function PayloadOf(m: Message): seq<byte>
    requires Sendable(m)
  {
    match m
    case Record(line) => line
    case Callback(metadata, data) => EncodeU32(|metadata|) + metadata + data
    case Final(snapshot) => snapshot
  }

  /** Every frame the client builds passes the stream's gate when key and sequence agree. */
  lemma ClientFramePasses(m: Message, sequence: nat, key: seq<byte>)
    requires Sendable(m) && |key| == 32 && sequence + 1 < U32
    ensures Frame(KindOf(m), sequence + 1, key, PayloadOf(m)).Ok?
    ensures RequestOk(Frame(KindOf(m), sequence + 1, key, PayloadOf(m)).value, sequence, key)
  {
    FrameRoundTrip(KindOf(m), sequence + 1, key, PayloadOf(m));
  }

  /** Every reply the stream accepts passes the client's check, with the same payload. */
  lemma StreamReplyPasses(header: seq<byte>, payload: seq<byte>, sequence: nat, key: seq<byte>)
    requires |header| == HEADER && AckHeaderOk(header, sequence, key)
    requires ReadU32(header, 41) <= MAX_ACK && |payload| == ReadU32(header, 41)
    ensures AckPayload(header + payload, sequence, key) == Ok(payload)
  {
    var raw := header + payload;
    assert raw[..4] == header[..4] && raw[9..41] == header[9..41] && raw[HEADER..] == payload;
  }

  /** The largest payload of each kind of request. */
  predicate Bounded(kind: byte, size: nat) {
    || (kind == 1 && size <= 96 * 1024 - 1)
    || (kind == 2 && size <= 96 * 1024 + 48 * 1024)
    || (kind == 3 && size <= 8 * 1024 * 1024)
  }

  lemma LayoutIff(f: seq<byte>, kind: byte, sequence: nat, key: seq<byte>)
    requires |key| == 32 && sequence < U32 && |f| >= HEADER
    ensures && f[..4] == MAGIC && f[4] == kind && ReadU32(f, 5) == sequence && f[9..41] == key
            && ReadU32(f, 41) == |f| - HEADER <==>
            |f| - HEADER < U32 && f == Layout(kind, sequence, key, f[HEADER..])
  {
    if |f| - HEADER < U32 {
      var g := Layout(kind, sequence, key, f[HEADER..]);
      FrameRoundTrip(kind, sequence, key, f[HEADER..]);
      if && f[..4] == MAGIC && f[4] == kind && ReadU32(f, 5) == sequence && f[9..41] == key
         && ReadU32(f, 41) == |f| - HEADER {
        SameU32(f, g, 5);
        SameU32(f, g, 41);
        assert f == f[..4] + [f[4]] + f[5..9] + f[9..41] + f[41..45] + f[45..];
        assert g == g[..4] + [g[4]] + g[5..9] + g[9..41] + g[41..45] + g[45..];
      }
    }
  }

  lemma SameU32(a: seq<byte>, b: seq<byte>, at: nat)
    requires at + 4 <= |a| && at + 4 <= |b| && ReadU32(a, at) == ReadU32(b, at)
    ensures a[at..at + 4] == b[at..at + 4]
  {
    hide ReadU32, EncodeU32;
    U32Read(a, at);
    U32Read(b, at);
  }

  /** The stream accepts exactly the frames of the next number under its key, of a kind a client
      sends, with a payload that is there and within its bound. */
  lemma RequestIff(request: seq<byte>, sequence: nat, key: seq<byte>)
    requires |key| == 32 && sequence + 1 < U32
    ensures RequestOk(request, sequence, key) <==>
              exists kind: byte, payload: seq<byte> ::
                && |payload| > 0 && Bounded(kind, |payload|)
                && request == Layout(kind, sequence + 1, key, payload)
  {
    hide Layout, ReadU32;
    if RequestOk(request, sequence, key) {
      LayoutIff(request, request[4], sequence + 1, key);
      assert Bounded(request[4], |request[HEADER..]|);
    }
    if kind: byte, payload: seq<byte> :| && |payload| > 0 && Bounded(kind, |payload|)
                                         && request == Layout(kind, sequence + 1, key, payload) {
      FrameRoundTrip(kind, sequence + 1, key, payload);
    }
  }

  /** The client accepts exactly the acknowledgement of its frame. */
  lemma AckIff(raw: seq<byte>, sequence: nat, key: seq<byte>, payload: seq<byte>)
    requires |key| == 32 && sequence < U32
    ensures AckPayload(raw, sequence, key) == Ok(payload) <==>
              |payload| <= 16 * 1024 && raw == Layout(4, sequence, key, payload)
  {
    hide Layout, ReadU32;
    if AckPayload(raw, sequence, key) == Ok(payload) {
      LayoutIff(raw, 4, sequence, key);
    }
    if |payload| <= 16 * 1024 && raw == Layout(4, sequence, key, payload) {
      FrameRoundTrip(4, sequence, key, payload);
    }
  }

  /** Callback payloads are unambiguous: the length prefix separates metadata from data. */
  lemma CallbackRoundTrip(metadata: seq<byte>, data: seq<byte>)
    requires Sendable(Callback(metadata, data))
    ensures
      var p := PayloadOf(Callback(metadata, data));
      var n := ReadU32(p, 0);
      n == |metadata| && p[4..4 + n] == metadata && p[4 + n..] == data
  {
    var p := PayloadOf(Callback(metadata, data));
    assert p[0..4] == EncodeU32(|metadata|);
    U32RoundTrip(|metadata|, p, 0);
  }
}
