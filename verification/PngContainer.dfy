/** The PNG container (section 3.2 of RFC 2083) as `validatePNG` reads it. The checksum and the
    decompressor are arbitrary functions; the geometry the source fixes at 1440 by 900 is a
    parameter. */
module PngContainer {
  import opened Basics
  import opened PngFilter

  type u32 = x: int | 0 <= x < U32

  type Checksum = seq<byte> -> u32

  type Inflate = seq<byte> -> Option<seq<byte>>

  const SIGNATURE: seq<byte> := [137, 80, 78, 71, 13, 10, 26, 10]
  const IHDR: seq<byte> := [73, 72, 68, 82]
  const IDAT: seq<byte> := [73, 68, 65, 84]
  const IEND: seq<byte> := [73, 69, 78, 68]

  datatype Chunk = Chunk(kind: seq<byte>, body: seq<byte>)

  datatype Image = Image(rows: seq<seq<byte>>, channels: nat)

  /** Progress of the chunk walk: what was seen, and the image data so far in `parts` pieces. */
  datatype Walk = Walk(header: bool, end: bool, channels: nat, data: seq<byte>, parts: nat)

  const START := Walk(false, false, 0, [], 0)

  /** ASCII decoding drops the high bit of every byte. */
  function Ascii(kind: seq<byte>): (r: seq<byte>) {
    seq(|kind|, i requires 0 <= i < |kind| => kind[i] % 128)
  }

  predicate HeaderOk(body: seq<byte>, w: nat, h: nat) {
    && |body| == 13 && ReadU32(body, 0) == w && ReadU32(body, 4) == h
    && body[8] == 8 && (body[9] == 2 || body[9] == 6) && body[10..] == [0, 0, 0]
  }

  function ChannelsOf(body: seq<byte>): nat
    requires |body| == 13
  {
    if body[9] == 6 then 4 else 3
  }

  predicate Ancillary(kind: seq<byte>)
    requires |kind| == 4
  {
    Ascii(kind)[0] / 32 % 2 == 1
  }

  function Step(w: nat, h: nat, s: Walk, c: Chunk, last: bool): Result<Walk>
    requires |c.kind| == 4
  {
    var name := Ascii(c.kind);
    if !s.header then
      if name == IHDR && HeaderOk(c.body, w, h) then Ok(s.(header := true, channels := ChannelsOf(c.body)))
      else Err("png-geometry-format")
    else if name == IDAT then Ok(s.(data := s.data + c.body, parts := s.parts + 1))
    else if name == IEND then
      if c.body == [] && last then Ok(s.(end := true)) else Err("png-trailing")
    else if Ancillary(c.kind) then Ok(s)
    else Err("png-unknown-critical")
  }

  /** The chunk loop over the bytes that remain. */
  function Walked(crc: Checksum, w: nat, h: nat, rest: seq<byte>, s: Walk): Result<Walk>
    decreases |rest|
  {
    if rest == [] then Ok(s)
    else
      var chunk := Take(crc, rest);
      if chunk.Err? then Err(chunk.code)
      else
        var size := 12 + |chunk.value.body|;
        var next := Step(w, h, s, chunk.value, size == |rest|);
        if next.Err? then next else Walked(crc, w, h, rest[size..], next.value)
  }

  /** The first chunk of a nonempty rest. */
  function Take(crc: Checksum, rest: seq<byte>): (r: Result<Chunk>)
    ensures r.Ok? ==> |r.value.kind| == 4 && 12 + |r.value.body| <= |rest|
  {
    if |rest| < 12 then Err("png-truncated")
    else
      var length := ReadU32(rest, 0);
      if length > IMAGE || 12 + length > |rest| then Err("png-chunk-bound")
      else if crc(rest[4..8 + length]) != ReadU32(rest, 8 + length) then Err("png-crc")
      else Ok(Chunk(rest[4..8], rest[8..8 + length]))
  }

  /** `validatePNG`. */
  function Decode(crc: Checksum, inflate: Inflate, w: nat, h: nat, bytes: seq<byte>): Result<Image> {
    if !(32 < |bytes| <= IMAGE && bytes[..8] == SIGNATURE) then Err("png-size-signature")
    else Finish(inflate, w, h, Walked(crc, w, h, bytes[8..], START))
  }

  function Finish(inflate: Inflate, w: nat, h: nat, walk: Result<Walk>): Result<Image> {
    if walk.Err? then Err(walk.code)
    else if !walk.value.end || walk.value.parts == 0 then Err("png-incomplete")
    else Pixels(inflate(walk.value.data), w * walk.value.channels, h, walk.value.channels)
  }

  /** What the decompressed stream says, if its size and filters are right. A walk that saw a
      header has 3 or 4 channels. */
  function Pixels(stream: Option<seq<byte>>, row: nat, h: nat, channels: nat): Result<Image> {
    if stream.None? || |stream.value| > h * (row + 1) then Err("zlib")
    else if |stream.value| != h * (row + 1) || channels == 0 then Err("png-decoded-size")
    else if exists y :: 0 <= y < h && Lines(stream.value, row, h)[y].filter > 4 then Err("png-filter")
    else Ok(Image(UnfilterLines(Lines(stream.value, row, h), row, channels), channels))
  }

  // ---- writing chunks ----

  predicate Writable(c: Chunk) { |c.kind| == 4 && |c.body| <= IMAGE }

  predicate AllWritable(cs: seq<Chunk>) { forall i :: 0 <= i < |cs| ==> Writable(cs[i]) }

  function EncodeChunk(crc: Checksum, c: Chunk): (r: seq<byte>)
    requires Writable(c)
    ensures |r| == 12 + |c.body|
  {
    EncodeU32(|c.body|) + c.kind + c.body + EncodeU32(crc(c.kind + c.body))
  }

  function EncodeChunks(crc: Checksum, cs: seq<Chunk>): (r: seq<byte>)
    requires AllWritable(cs)
    ensures cs != [] ==> |r| >= 12
    decreases |cs|
  {
    if cs == [] then [] else EncodeChunk(crc, cs[0]) + EncodeChunks(crc, cs[1..])
  }

  lemma TakeEncoded(crc: Checksum, c: Chunk, more: seq<byte>)
    requires Writable(c)
    ensures Take(crc, EncodeChunk(crc, c) + more) == Ok(c)
    ensures (EncodeChunk(crc, c) + more)[12 + |c.body|..] == more
  {
    var rest := EncodeChunk(crc, c) + more;
    var n := |c.body|;
    assert rest[0..4] == EncodeU32(n);
    U32RoundTrip(n, rest, 0);
    assert rest[4..8] == c.kind && rest[8..8 + n] == c.body && rest[4..8 + n] == c.kind + c.body;
    assert rest[8 + n..8 + n + 4] == EncodeU32(crc(c.kind + c.body));
    U32RoundTrip(crc(c.kind + c.body), rest, 8 + n);
  }

  lemma EncodedTake(crc: Checksum, rest: seq<byte>)
    requires Take(crc, rest).Ok?
    ensures
      var c := Take(crc, rest).value;
      Writable(c) && rest == EncodeChunk(crc, c) + rest[12 + |c.body|..]
  {
    var c := Take(crc, rest).value;
    var n := |c.body|;
    U32Read(rest, 0);
    U32Read(rest, 8 + n);
    assert rest[4..8 + n] == c.kind + c.body;
    assert rest == rest[0..4] + rest[4..8] + rest[8..8 + n] + rest[8 + n..12 + n] + rest[12 + n..];
    assert rest[8 + n..8 + n + 4] == rest[8 + n..12 + n];
  }

  /** The walk as a fold over a chunk list. */
  function Steps(w: nat, h: nat, cs: seq<Chunk>, s: Walk): Result<Walk>
    requires AllWritable(cs)
    decreases |cs|
  {
    if cs == [] then Ok(s)
    else
      var next := Step(w, h, s, cs[0], |cs| == 1);
      if next.Err? then next else Steps(w, h, cs[1..], next.value)
  }

  lemma {:induction false} WalkedChunks(crc: Checksum, w: nat, h: nat, cs: seq<Chunk>, s: Walk)
    requires AllWritable(cs)
    ensures Walked(crc, w, h, EncodeChunks(crc, cs), s) == Steps(w, h, cs, s)
    decreases |cs|
  {
    hide EncodeChunk, Take, Step;
    if cs != [] {
      var rest := EncodeChunks(crc, cs);
      TakeEncoded(crc, cs[0], EncodeChunks(crc, cs[1..]));
      var next := Step(w, h, s, cs[0], |cs| == 1);
      if next.Ok? {
        WalkedChunks(crc, w, h, cs[1..], next.value);
      }
    }
  }

  lemma {:induction false} ChunksWalked(crc: Checksum, w: nat, h: nat, rest: seq<byte>,
                                        s: Walk) returns (cs: seq<Chunk>)
    requires Walked(crc, w, h, rest, s).Ok?
    ensures AllWritable(cs) && EncodeChunks(crc, cs) == rest
    decreases |rest|
  {
    hide EncodeChunk, Take, Step;
    cs := [];
    if rest != [] {
      var c := Take(crc, rest).value;
      EncodedTake(crc, rest);
      var more := ChunksWalked(crc, w, h, rest[12 + |c.body|..], Step(w, h, s, c, 12 + |c.body| == |rest|).value);
      cs := [c] + more;
      assert cs[1..] == more;
    }
  }

  // ---- what the walk accepts ----

  /** The four bytes spell the name, high bits aside. */
  predicate Named(kind: seq<byte>, name: string) {
    |kind| == |name| && forall i :: 0 <= i < |kind| ==> kind[i] % 128 == name[i] as int
  }

  /** Bit 5 of the first byte marks a chunk a reader may pass over. */
  predicate MayPass(kind: seq<byte>) { kind != [] && kind[0] % 64 >= 32 }

  /** The header of an image: its geometry, eight bits a channel, three or four channels, and nothing
      else. */
  function HeaderOf(w: nat, h: nat, channels: nat): seq<byte>
    requires w < U32 && h < U32
  {
    EncodeU32(w) + EncodeU32(h) + [8, if channels == 4 then 6 else 2, 0, 0, 0]
  }

  predicate IsHeader(body: seq<byte>, w: nat, h: nat, channels: nat) {
    w < U32 && h < U32 && channels in {3, 4} && body == HeaderOf(w, h, channels)
  }

  lemma Spells(kind: seq<byte>, name: seq<byte>, text: string)
    requires |kind| == |name| == |text| && forall i :: 0 <= i < |name| ==> name[i] == text[i] as int
    ensures Ascii(kind) == name <==> Named(kind, text)
  {
    var plain := Ascii(kind);
    assert forall i :: 0 <= i < |kind| ==> plain[i] == kind[i] % 128;
  }

  lemma NamedIff(kind: seq<byte>)
    requires |kind| == 4
    ensures (Ascii(kind) == IHDR <==> Named(kind, "IHDR")) && (Ascii(kind) == IDAT <==> Named(kind, "IDAT"))
    ensures (Ascii(kind) == IEND <==> Named(kind, "IEND")) && (Ancillary(kind) <==> MayPass(kind))
  {
    hide Named, Ascii, Ancillary, MayPass;
    Spells(kind, IHDR, "IHDR");
    Spells(kind, IDAT, "IDAT");
    Spells(kind, IEND, "IEND");
    PassIff(kind);
  }

  lemma PassIff(kind: seq<byte>)
    requires |kind| == 4
    ensures Ancillary(kind) <==> MayPass(kind)
  {
    assert Ascii(kind)[0] == kind[0] % 128;
    LowBits(kind[0]);
  }

  lemma LowBits(b: byte)
    ensures b % 128 / 32 % 2 == 1 <==> b % 64 >= 32
  {
    var low: int := b % 128;
    assert b % 64 == if low < 64 then low else low - 64;
    assert low / 32 == if low < 32 then 0 else if low < 64 then 1 else if low < 96 then 2 else 3;
  }

  lemma HeaderIff(body: seq<byte>, w: nat, h: nat, channels: nat)
    ensures HeaderOk(body, w, h) && ChannelsOf(body) == channels <==> IsHeader(body, w, h, channels)
  {
    if HeaderOk(body, w, h) && ChannelsOf(body) == channels {
      U32Read(body, 0);
      U32Read(body, 4);
      assert body == body[0..4] + body[4..8] + [body[8], body[9]] + body[10..];
    }
    if IsHeader(body, w, h, channels) {
      U32RoundTrip(w, body, 0);
      U32RoundTrip(h, body, 4);
    }
  }

  predicate IsData(c: Chunk) { Named(c.kind, "IDAT") }

  /** The concatenated image data. */
  function DataOf(cs: seq<Chunk>): seq<byte>
    decreases |cs|
  {
    if cs == [] then [] else (if IsData(cs[0]) then cs[0].body else []) + DataOf(cs[1..])
  }

  predicate Inner(c: Chunk)
    requires Writable(c)
  {
    IsData(c) || MayPass(c.kind)
  }

  /** After the header: data and ancillary chunks, then an empty IEND. */
  predicate Arranged(cs: seq<Chunk>)
    requires AllWritable(cs)
  {
    && cs != [] && Named(cs[|cs| - 1].kind, "IEND") && cs[|cs| - 1].body == []
    && forall i :: 0 <= i < |cs| - 1 ==> Inner(cs[i])
  }

  function CountData(cs: seq<Chunk>): nat
    decreases |cs|
  {
    if cs == [] then 0 else (if IsData(cs[0]) then 1 else 0) + CountData(cs[1..])
  }

  lemma ArrangedCons(cs: seq<Chunk>)
    requires AllWritable(cs) && |cs| > 1
    ensures Arranged(cs) <==> Inner(cs[0]) && Arranged(cs[1..])
  {
    hide Named, MayPass;
    assert forall i :: 0 < i < |cs| ==> cs[i] == cs[1..][i - 1];
  }

  /** One chunk between the header and the last. */
  lemma InnerStep(w: nat, h: nat, s: Walk, c: Chunk)
    requires Writable(c) && s.header
    ensures
      var next := Step(w, h, s, c, false);
      && (next.Ok? <==> Inner(c))
      && (IsData(c) ==> next == Ok(s.(data := s.data + c.body, parts := s.parts + 1)))
      && (Inner(c) && !IsData(c) ==> next == Ok(s))
  {
    hide Ascii, Named, Ancillary, MayPass;
    Names(c.kind);
  }

  lemma LastStep(w: nat, h: nat, s: Walk, c: Chunk)
    requires Writable(c) && s.header && !s.end
    ensures
      var next := Step(w, h, s, c, true);
      && (next.Ok? && next.value.end <==> Arranged([c]))
      && (Arranged([c]) ==> next == Ok(s.(end := true)) && !IsData(c))
  {
    hide Ascii, Ancillary, MayPass;
    Names(c.kind);
  }

  lemma {:induction false} ArrangedIff(w: nat, h: nat, cs: seq<Chunk>, s: Walk)
    requires AllWritable(cs) && s.header && !s.end
    ensures Steps(w, h, cs, s).Ok? && Steps(w, h, cs, s).value.end <==> Arranged(cs)
    ensures Arranged(cs) ==>
              Steps(w, h, cs, s).value == Walk(true, true, s.channels, s.data + DataOf(cs), s.parts + CountData(cs))
    decreases |cs|
  {
    hide Step, Named, MayPass;
    if cs == [] {
    } else if |cs| == 1 {
      assert cs[1..] == [] && cs == [cs[0]];
      LastStep(w, h, s, cs[0]);
    } else {
      var c := cs[0];
      InnerStep(w, h, s, c);
      ArrangedCons(cs);
      var next := Step(w, h, s, c, false);
      if next.Ok? {
        ArrangedIff(w, h, cs[1..], next.value);
        assert s.data + c.body + DataOf(cs[1..]) == s.data + (c.body + DataOf(cs[1..]));
      }
    }
  }

  /** The three names differ, and the two that carry the image are not ancillary. */
  lemma Names(kind: seq<byte>)
    requires |kind| == 4
    ensures Ascii(kind) in [IHDR, IDAT, IEND] ==> !Ancillary(kind)
    ensures IDAT != IEND && IHDR != IDAT && IHDR != IEND
    ensures (Ascii(kind) == IHDR <==> Named(kind, "IHDR")) && (Ascii(kind) == IDAT <==> Named(kind, "IDAT"))
    ensures (Ascii(kind) == IEND <==> Named(kind, "IEND")) && (Ancillary(kind) <==> MayPass(kind))
  {
    NamedIff(kind);
    assert IDAT[1] == 68 && IEND[1] == 69 && IHDR[1] == 72;
  }

  /** A complete chunk list for the geometry. */
  predicate Complete(cs: seq<Chunk>, w: nat, h: nat, channels: nat)
    requires AllWritable(cs)
  {
    && cs != [] && Named(cs[0].kind, "IHDR") && IsHeader(cs[0].body, w, h, channels)
    && Arranged(cs[1..]) && CountData(cs[1..]) > 0
  }

  lemma CompleteIff(w: nat, h: nat, cs: seq<Chunk>, channels: nat)
    requires AllWritable(cs)
    ensures
      var r := Steps(w, h, cs, START);
      && (r.Ok? && r.value.end && r.value.parts > 0 && r.value.channels == channels <==> Complete(cs, w, h, channels))
      && (Complete(cs, w, h, channels) ==> r.value.data == DataOf(cs[1..]))
  {
    hide HeaderOk, IsHeader, Ascii, Named, Arranged;
    if cs != [] {
      Names(cs[0].kind);
      HeaderIff(cs[0].body, w, h, channels);
      if Step(w, h, START, cs[0], |cs| == 1).Ok? {
        var s := Step(w, h, START, cs[0], |cs| == 1).value;
        ArrangedIff(w, h, cs[1..], s);
        assert [] + DataOf(cs[1..]) == DataOf(cs[1..]);
      }
    }
  }

  ghost predicate File(crc: Checksum, w: nat, h: nat, bytes: seq<byte>, cs: seq<Chunk>, channels: nat) {
    && 32 < |bytes| <= IMAGE && AllWritable(cs) && bytes == SIGNATURE + EncodeChunks(crc, cs)
    && Complete(cs, w, h, channels)
  }

  function Content(inflate: Inflate, cs: seq<Chunk>, w: nat, h: nat, channels: nat): Result<Image>
    requires AllWritable(cs) && cs != []
  {
    Pixels(inflate(DataOf(cs[1..])), w * channels, h, channels)
  }

  /** Exactly the well-formed files decode, each to the content of its chunks. */
  lemma DecodeIff(crc: Checksum, inflate: Inflate, w: nat, h: nat, bytes: seq<byte>, image: Image)
    ensures Decode(crc, inflate, w, h, bytes) == Ok(image) <==>
              exists cs :: && File(crc, w, h, bytes, cs, image.channels)
                           && Content(inflate, cs, w, h, image.channels) == Ok(image)
  {
    hide Pixels, Walked, Steps, EncodeChunks, IsHeader, Named, Arranged, CountData;
    if Decode(crc, inflate, w, h, bytes) == Ok(image) {
      var walk := Walked(crc, w, h, bytes[8..], START).value;
      PixelsChannels(inflate(walk.data), w * walk.channels, h, walk.channels);
      var cs := ChunksWalked(crc, w, h, bytes[8..], START);
      WalkedChunks(crc, w, h, cs, START);
      CompleteIff(w, h, cs, image.channels);
      assert bytes == bytes[..8] + bytes[8..];
      assert File(crc, w, h, bytes, cs, image.channels);
    }
    if cs :| && File(crc, w, h, bytes, cs, image.channels)
             && Content(inflate, cs, w, h, image.channels) == Ok(image) {
      FileDecodes(crc, inflate, w, h, bytes, cs, image.channels);
    }
  }

  lemma PixelsChannels(stream: Option<seq<byte>>, row: nat, h: nat, channels: nat)
    ensures Pixels(stream, row, h, channels).Ok? ==> Pixels(stream, row, h, channels).value.channels == channels
  {
  }

  lemma FileDecodes(crc: Checksum, inflate: Inflate, w: nat, h: nat, bytes: seq<byte>, cs: seq<Chunk>, channels: nat)
    requires File(crc, w, h, bytes, cs, channels)
    ensures cs != [] && Decode(crc, inflate, w, h, bytes) == Content(inflate, cs, w, h, channels)
  {
    hide Pixels, EncodeChunks, Steps, Walked, Complete;
    CompleteFirst(w, h, cs, channels);
    WalkedChunks(crc, w, h, cs, START);
    CompleteIff(w, h, cs, channels);
    assert bytes[..8] == SIGNATURE && bytes[8..] == EncodeChunks(crc, cs);
  }

  /** Any image, any filter per line, any cutting of the compressed data into chunks and any
      ancillary chunks between them: the file decodes to the image. */
  lemma ImageRoundTrip(crc: Checksum, inflate: Inflate, w: nat, h: nat, bytes: seq<byte>, cs: seq<Chunk>,
                       image: Image, filters: seq<byte>)
    requires File(crc, w, h, bytes, cs, image.channels)
    requires |image.rows| == h == |filters| && Rectangular(image.rows, w * image.channels)
    requires forall y :: 0 <= y < h ==> filters[y] <= 4
    requires inflate(DataOf(cs[1..])) == Some(Raw(FilterLines(filters, image.rows, w * image.channels, image.channels)))
    ensures Decode(crc, inflate, w, h, bytes) == Ok(image)
  {
    hide Pixels, Raw, FilterLines, EncodeChunks, Decode, DataOf, Complete;
    CompleteFirst(w, h, cs, image.channels);
    FileDecodes(crc, inflate, w, h, bytes, cs, image.channels);
    PixelsOfRaw(image, w * image.channels, h, filters);
  }

  lemma CompleteFirst(w: nat, h: nat, cs: seq<Chunk>, channels: nat)
    requires AllWritable(cs) && Complete(cs, w, h, channels)
    ensures cs != [] && channels in {3, 4}
  {
  }

  lemma {:induction false} FiltersKept(filters: seq<byte>, rows: seq<seq<byte>>, row: nat, c: nat)
    requires 0 < c && |filters| == |rows| && Rectangular(rows, row)
    ensures Filters(FilterLines(filters, rows, row, c)) == filters
    decreases |rows|
  {
    hide FilterLine;
    if rows != [] {
      var n := |rows| - 1;
      FiltersKept(filters[..n], rows[..n], row, c);
      assert filters == filters[..n] + [filters[n]];
    }
  }

  lemma PixelsOfRaw(image: Image, row: nat, h: nat, filters: seq<byte>)
    requires 0 < image.channels && |image.rows| == h == |filters| && Rectangular(image.rows, row)
    requires forall y :: 0 <= y < h ==> filters[y] <= 4
    ensures Pixels(Some(Raw(FilterLines(filters, image.rows, row, image.channels))), row, h, image.channels) ==
              Ok(image)
  {
    hide FilterLines, UnfilterLines, Raw;
    var lines := FilterLines(filters, image.rows, row, image.channels);
    LinesOfRaw(lines, row);
    UnfilterInvertsFilter(filters, image.rows, row, image.channels);
    FiltersKept(filters, image.rows, row, image.channels);
    assert forall y :: 0 <= y < h ==> lines[y].filter == Filters(lines)[y];
  }

  // ---- the loop ----

  /** `validatePNG` as it runs: the walk over the buffer, then reconstruction in place. */
  method ValidatePng(crc: Checksum, inflate: Inflate, w: nat, h: nat, bytes: seq<byte>)
    returns (result: Result<nat>, pixels: array<byte>)
    ensures fresh(pixels)
    ensures
      match Decode(crc, inflate, w, h, bytes)
      case Err(code) => result == Err(code)
      case Ok(image) => result == Ok(image.channels) && pixels[..] == Flat(image.rows)
  {
    hide Pixels, Walked;
    pixels := new byte[0];
    if !(32 < |bytes| <= IMAGE && bytes[..8] == SIGNATURE) {
      return Err("png-size-signature"), pixels;
    }
    var walk := WalkChunks(crc, w, h, bytes);
    if walk.Err? {
      return Err(walk.code), pixels;
    }
    var s := walk.value;
    if !s.end || s.parts == 0 {
      return Err("png-incomplete"), pixels;
    }
    result, pixels := Reconstruct(inflate(s.data), w * s.channels, h, s.channels);
  }

  method Reconstruct(stream: Option<seq<byte>>, row: nat, h: nat,
                     channels: nat) returns (result: Result<nat>, pixels: array<byte>)
    ensures fresh(pixels)
    ensures
      match Pixels(stream, row, h, channels)
      case Err(code) => result == Err(code)
      case Ok(image) => result == Ok(image.channels) && pixels[..] == Flat(image.rows)
  {
    hide UnfilterLines, Flat, Lines;
    pixels := new byte[0];
    if stream.None? || |stream.value| > h * (row + 1) {
      return Err("zlib"), pixels;
    }
    if |stream.value| != h * (row + 1) || channels == 0 {
      return Err("png-decoded-size"), pixels;
    }
    var ok, decoded := Unfilter(stream.value, row, h, channels);
    if !ok {
      return Err("png-filter"), pixels;
    }
    return Ok(channels), decoded;
  }

  method WalkChunks(crc: Checksum, w: nat, h: nat, bytes: seq<byte>) returns (walk: Result<Walk>)
    requires |bytes| >= 8
    ensures walk == Walked(crc, w, h, bytes[8..], START)
  {
    hide Take, Step;
    var pos, s := 8, START;
    while pos < |bytes|
      invariant 8 <= pos <= |bytes|
      invariant Walked(crc, w, h, bytes[pos..], s) == Walked(crc, w, h, bytes[8..], START)
    {
      var rest := bytes[pos..];
      var chunk := Take(crc, rest);
      if chunk.Err? {
        return Err(chunk.code);
      }
      var size := 12 + |chunk.value.body|;
      var next := Step(w, h, s, chunk.value, pos + size == |bytes|);
      if next.Err? {
        return next;
      }
      assert rest[size..] == bytes[pos + size..];
      pos, s := pos + size, next.value;
    }
    return Ok(s);
  }
}
