/** PNG scanline filters (section 6 of RFC 2083): the reconstruction loop and its inverse. */
module PngFilter {
  import opened Basics

  function Abs(x: int): nat { if x < 0 then -x else x }

  /** The neighbour closest to left + up - corner; ties go to the left, then to the one above. */
  function Paeth(a: byte, b: byte, c: byte): (r: byte)
    ensures r in {a, b, c}
    ensures Abs(a + b - c - r) <= Abs(a + b - c - a)
    ensures Abs(a + b - c - r) <= Abs(a + b - c - b)
    ensures Abs(a + b - c - r) <= Abs(a + b - c - c)
    ensures r != a ==> Abs(a + b - c - r) < Abs(a + b - c - a)
    ensures r != a && r != b ==> Abs(a + b - c - r) < Abs(a + b - c - b)
  {
    var p := a + b - c;
    var pa, pb, pc := Abs(p - a), Abs(p - b), Abs(p - c);
    if pa <= pb && pa <= pc then a else if pb <= pc then b else c
  }

  function Predict(filter: byte, left: byte, up: byte, corner: byte): byte {
    if filter == 0 then 0
    else if filter == 1 then left
    else if filter == 2 then up
    else if filter == 3 then (left + up) / 2
    else Paeth(left, up, corner)
  }

  /** The byte `c` places before position `x`, zero outside the line. */
  function Back(line: seq<byte>, x: nat, c: nat): byte
    requires 0 < c && x <= |line|
  {
    if x < c then 0 else line[x - c]
  }

  datatype Line = Line(filter: byte, data: seq<byte>)

  // ---- one line ----

  /** The prediction for position `x`, from what precedes it and the line above. */
  function Guess(filter: byte, before: seq<byte>, above: seq<byte>, c: nat, x: nat): byte
    requires 0 < c && x <= |before| && x < |above|
  {
    Predict(filter, Back(before, x, c), above[x], Back(above, x, c))
  }

  function FilterLine(filter: byte, pixels: seq<byte>, above: seq<byte>, c: nat): (r: seq<byte>)
    requires 0 < c && |pixels| == |above|
    ensures |r| == |pixels|
  {
    seq(|pixels|, x requires 0 <= x < |pixels| => (pixels[x] - Guess(filter, pixels, above, c, x)) % 256)
  }

  /** The first `k` bytes of a reconstructed line. */
  function UnfilterLine(filter: byte, data: seq<byte>, above: seq<byte>, c: nat, k: nat): (r: seq<byte>)
    requires 0 < c && |data| == |above| && k <= |data|
    ensures |r| == k
  {
    if k == 0 then []
    else
      var before := UnfilterLine(filter, data, above, c, k - 1);
      before + [(data[k - 1] + Guess(filter, before, above, c, k - 1)) % 256]
  }

  /** Only the bytes before the position matter to its prediction. */
  lemma GuessPrefix(filter: byte, line: seq<byte>, above: seq<byte>, c: nat, x: nat, k: nat)
    requires 0 < c && x <= k <= |line| && x < |above|
    ensures Guess(filter, line[..k], above, c, x) == Guess(filter, line, above, c, x)
  {
  }

  lemma ByteShift(p: byte, g: byte)
    ensures ((p - g) % 256 + g) % 256 == p && ((p + g) % 256 - g) % 256 == p
  {
  }

  lemma {:induction false} LineRoundTrip(filter: byte, pixels: seq<byte>, above: seq<byte>, c: nat, k: nat)
    requires 0 < c && |pixels| == |above| && k <= |pixels|
    ensures UnfilterLine(filter, FilterLine(filter, pixels, above, c), above, c, k) == pixels[..k]
    decreases k
  {
    hide Guess;
    if k > 0 {
      ByteShift(pixels[k - 1], Guess(filter, pixels, above, c, k - 1));
      LineRoundTrip(filter, pixels, above, c, k - 1);
      GuessPrefix(filter, pixels, above, c, k - 1, k - 1);
      assert pixels[..k] == pixels[..k - 1] + [pixels[k - 1]];
    }
  }

  lemma {:induction false} UnfilterPrefix(filter: byte, data: seq<byte>, above: seq<byte>, c: nat, j: nat, k: nat)
    requires 0 < c && |data| == |above| && j <= k <= |data|
    ensures UnfilterLine(filter, data, above, c, k)[..j] == UnfilterLine(filter, data, above, c, j)
    decreases k
  {
    if j < k {
      UnfilterPrefix(filter, data, above, c, j, k - 1);
    }
  }

  lemma LineRoundTripBack(filter: byte, data: seq<byte>, above: seq<byte>, c: nat)
    requires 0 < c && |data| == |above|
    ensures FilterLine(filter, UnfilterLine(filter, data, above, c, |data|), above, c) == data
  {
    hide Guess;
    var pixels := UnfilterLine(filter, data, above, c, |data|);
    forall x | 0 <= x < |data| ensures FilterLine(filter, pixels, above, c)[x] == data[x] {
      UnfilterPrefix(filter, data, above, c, x, |data|);
      UnfilterPrefix(filter, data, above, c, x + 1, |data|);
      GuessPrefix(filter, pixels, above, c, x, x);
      assert pixels[x] == pixels[..x + 1][x];
      ByteShift(data[x], Guess(filter, pixels, above, c, x));
    }
  }

  // ---- a raster ----

  predicate Rectangular(rows: seq<seq<byte>>, row: nat) { forall y :: 0 <= y < |rows| ==> |rows[y]| == row }

  predicate Scanlines(lines: seq<Line>, row: nat) { forall y :: 0 <= y < |lines| ==> |lines[y].data| == row }

  /** The line above the next one; zeros above the first. */
  function Above(rows: seq<seq<byte>>, row: nat): (r: seq<byte>)
    requires Rectangular(rows, row)
    ensures |r| == row
  {
    if rows == [] then seq(row, _ => 0) else rows[|rows| - 1]
  }

  function UnfilterLines(lines: seq<Line>, row: nat, c: nat): (rows: seq<seq<byte>>)
    requires 0 < c && Scanlines(lines, row)
    ensures |rows| == |lines| && Rectangular(rows, row)
    decreases |lines|
  {
    if lines == [] then []
    else
      var rows := UnfilterLines(lines[..|lines| - 1], row, c);
      var line := lines[|lines| - 1];
      rows + [UnfilterLine(line.filter, line.data, Above(rows, row), c, row)]
  }

  function FilterLines(filters: seq<byte>, rows: seq<seq<byte>>, row: nat, c: nat): (lines: seq<Line>)
    requires 0 < c && |filters| == |rows| && Rectangular(rows, row)
    ensures |lines| == |rows| && Scanlines(lines, row)
    decreases |rows|
  {
    if rows == [] then []
    else
      var n := |rows| - 1;
      FilterLines(filters[..n], rows[..n], row, c)
      + [Line(filters[n], FilterLine(filters[n], rows[n], Above(rows[..n], row), c))]
  }

  /** Reconstruction undoes filtering, whatever filter each line chose. */
  lemma {:induction false} UnfilterInvertsFilter(filters: seq<byte>, rows: seq<seq<byte>>, row: nat, c: nat)
    requires 0 < c && |filters| == |rows| && Rectangular(rows, row)
    ensures UnfilterLines(FilterLines(filters, rows, row, c), row, c) == rows
    decreases |rows|
  {
    hide UnfilterLine, FilterLine;
    if rows != [] {
      var n := |rows| - 1;
      var lines := FilterLines(filters, rows, row, c);
      UnfilterInvertsFilter(filters[..n], rows[..n], row, c);
      assert lines[..n] == FilterLines(filters[..n], rows[..n], row, c);
      LineRoundTrip(filters[n], rows[n], Above(rows[..n], row), c, row);
      assert rows[n][..row] == rows[n];
      assert rows == rows[..n] + [rows[n]];
    }
  }

  function Filters(lines: seq<Line>): seq<byte> {
    seq(|lines|, y requires 0 <= y < |lines| => lines[y].filter)
  }

  /** Filtering again with the same filters gives back the scanlines: no two scanline lists
      reconstruct to the same pixels. */
  lemma {:induction false} FilterInvertsUnfilter(lines: seq<Line>, row: nat, c: nat)
    requires 0 < c && Scanlines(lines, row)
    ensures FilterLines(Filters(lines), UnfilterLines(lines, row, c), row, c) == lines
    decreases |lines|
  {
    hide UnfilterLine, FilterLine;
    if lines != [] {
      var n := |lines| - 1;
      var rows := UnfilterLines(lines, row, c);
      FilterInvertsUnfilter(lines[..n], row, c);
      assert rows[..n] == UnfilterLines(lines[..n], row, c);
      assert Filters(lines)[..n] == Filters(lines[..n]);
      LineRoundTripBack(lines[n].filter, lines[n].data, Above(rows[..n], row), c);
      assert lines == lines[..n] + [lines[n]];
    }
  }

  // ---- what a reconstructed byte is ----

  /** Of the three neighbours one nearest to left + up - corner; of several, the first named. */
  predicate Nearest(r: byte, left: byte, up: byte, corner: byte) {
    var p := left + up - corner;
    && r in {left, up, corner}
    && Abs(p - r) <= Abs(p - left) && Abs(p - r) <= Abs(p - up) && Abs(p - r) <= Abs(p - corner)
    && (Abs(p - left) == Abs(p - r) ==> r == left)
    && (r != left && Abs(p - up) == Abs(p - r) ==> r == up)
  }

  /** Section 6 of RFC 2083, filter by filter, from the byte sent and the neighbours reconstructed. */
  ghost predicate Reconstructed(r: byte, filter: byte, sent: byte, left: byte, up: byte, corner: byte) {
    && (filter == 0 ==> r == sent)
    && (filter == 1 ==> r == (sent + left) % 256)
    && (filter == 2 ==> r == (sent + up) % 256)
    && (filter == 3 ==> r == (sent + (left + up) / 2) % 256)
    && (filter == 4 ==> exists n: byte :: Nearest(n, left, up, corner) && r == (sent + n) % 256)
  }

  /** A byte of the raster, zero outside it. */
  function At(rows: seq<seq<byte>>, y: int, x: int): byte
    requires y < |rows| && (y >= 0 ==> x < |rows[y]|)
  {
    if y < 0 || x < 0 then 0 else rows[y][x]
  }

  lemma PredictMeans(filter: byte, sent: byte, left: byte, up: byte, corner: byte)
    requires filter <= 4
    ensures Reconstructed((sent + Predict(filter, left, up, corner)) % 256, filter, sent, left, up, corner)
  {
    assert Nearest(Paeth(left, up, corner), left, up, corner);
  }

  lemma LineByte(filter: byte, data: seq<byte>, above: seq<byte>, c: nat, x: nat)
    requires 0 < c && |data| == |above| && x < |data|
    ensures
      var line := UnfilterLine(filter, data, above, c, |data|);
      line[x] == (data[x] + Guess(filter, line, above, c, x)) % 256
  {
    var line := UnfilterLine(filter, data, above, c, |data|);
    UnfilterPrefix(filter, data, above, c, x, |data|);
    UnfilterPrefix(filter, data, above, c, x + 1, |data|);
    GuessPrefix(filter, line, above, c, x, x);
    assert line[x] == line[..x + 1][x];
  }

  lemma {:induction false} RowIs(lines: seq<Line>, row: nat, c: nat, y: nat)
    requires 0 < c && Scanlines(lines, row) && y < |lines|
    ensures
      var rows := UnfilterLines(lines, row, c);
      rows[y] == UnfilterLine(lines[y].filter, lines[y].data, Above(rows[..y], row), c, row)
    decreases |lines|
  {
    hide UnfilterLine;
    var n := |lines| - 1;
    var rows := UnfilterLines(lines, row, c);
    assert rows[..n] == UnfilterLines(lines[..n], row, c);
    if y < n {
      RowIs(lines[..n], row, c, y);
      assert rows[..n][..y] == rows[..y];
    }
  }

  /** Every byte of the raster is what its line's filter makes of the byte sent and the neighbours. */
  lemma PixelIs(lines: seq<Line>, row: nat, c: nat, y: nat, x: nat)
    requires 0 < c && Scanlines(lines, row) && y < |lines| && x < row && lines[y].filter <= 4
    ensures
      var rows := UnfilterLines(lines, row, c);
      Reconstructed(rows[y][x], lines[y].filter, lines[y].data[x], At(rows, y, x - c), At(rows, y - 1, x),
                    At(rows, y - 1, x - c))
  {
    hide UnfilterLine, UnfilterLines, Predict, Reconstructed;
    var rows := UnfilterLines(lines, row, c);
    var line := lines[y];
    RowIs(lines, row, c, y);
    LineByte(line.filter, line.data, Above(rows[..y], row), c, x);
    PredictMeans(line.filter, line.data[x], At(rows, y, x - c), At(rows, y - 1, x), At(rows, y - 1, x - c));
  }

  // ---- flat layouts ----

  lemma RowOffset(y: nat, row: nat)
    ensures (y + 1) * row == y * row + row
  {
  }

  lemma RowOrder(y: nat, h: nat, row: nat)
    requires y <= h
    ensures y * row <= h * row
  {
  }

  function Flat(rows: seq<seq<byte>>): (r: seq<byte>)
    decreases |rows|
  {
    if rows == [] then [] else Flat(rows[..|rows| - 1]) + rows[|rows| - 1]
  }

  lemma {:induction false} FlatLength(rows: seq<seq<byte>>, row: nat)
    requires Rectangular(rows, row)
    ensures |Flat(rows)| == |rows| * row
    decreases |rows|
  {
    if rows != [] {
      FlatLength(rows[..|rows| - 1], row);
      RowOffset(|rows| - 1, row);
    }
  }

  /** Row `y` of the flat layout. */
  lemma {:induction false} FlatSlice(rows: seq<seq<byte>>, row: nat, y: nat)
    requires Rectangular(rows, row) && y < |rows|
    ensures 0 <= y * row <= y * row + row <= |Flat(rows)|
    ensures Flat(rows)[y * row..y * row + row] == rows[y]
    decreases |rows|
  {
    var n := |rows| - 1;
    FlatLength(rows, row);
    FlatLength(rows[..n], row);
    RowOffset(y, row);
    RowOrder(y + 1, n + 1, row);
    if y < n {
      RowOrder(y + 1, n, row);
      FlatSlice(rows[..n], row, y);
      assert Flat(rows)[..n * row] == Flat(rows[..n]);
      assert Flat(rows)[y * row..y * row + row] == Flat(rows[..n])[y * row..y * row + row];
    }
  }

  function Bytes(line: Line): seq<byte> { [line.filter] + line.data }

  function LineRows(lines: seq<Line>): seq<seq<byte>> {
    seq(|lines|, y requires 0 <= y < |lines| => Bytes(lines[y]))
  }

  /** The decompressed stream: every line preceded by its filter. */
  function Raw(lines: seq<Line>): seq<byte> { Flat(LineRows(lines)) }

  predicate Fits(y: nat, row: nat, length: nat) { 0 <= y * (row + 1) && y * (row + 1) + row + 1 <= length }

  function LineAt(raw: seq<byte>, row: nat, y: nat): Line
    requires Fits(y, row, |raw|)
  {
    Line(raw[y * (row + 1)], raw[y * (row + 1) + 1..y * (row + 1) + row + 1])
  }

  lemma LineFits(y: nat, row: nat, height: nat)
    requires y < height
    ensures Fits(y, row, height * (row + 1))
  {
    RowOrder(y + 1, height, row + 1);
    RowOffset(y, row + 1);
  }

  lemma LinesFit(row: nat, height: nat, length: nat)
    requires length == height * (row + 1)
    ensures forall y :: 0 <= y < height ==> Fits(y, row, length)
  {
    forall y | 0 <= y < height ensures Fits(y, row, length) {
      LineFits(y, row, height);
    }
  }

  /** Cuts the decompressed stream into lines. */
  function Lines(raw: seq<byte>, row: nat, height: nat): (lines: seq<Line>)
    requires |raw| == height * (row + 1)
    ensures |lines| == height && Scanlines(lines, row)
  {
    LinesFit(row, height, |raw|);
    seq(height, y requires 0 <= y < height && Fits(y, row, |raw|) => LineAt(raw, row, y))
  }

  lemma LineOfRaw(lines: seq<Line>, row: nat, y: nat)
    requires Scanlines(lines, row) && y < |lines|
    ensures Fits(y, row, |Raw(lines)|) && LineAt(Raw(lines), row, y) == lines[y]
  {
    hide Flat;
    FlatSlice(LineRows(lines), row + 1, y);
    var raw, at := Raw(lines), y * (row + 1);
    var slice := raw[at..at + (row + 1)];
    assert slice == Bytes(lines[y]);
    assert slice[0] == raw[at] && slice[1..] == raw[at + 1..at + row + 1];
  }

  lemma LinesOfRaw(lines: seq<Line>, row: nat)
    requires Scanlines(lines, row)
    ensures |Raw(lines)| == |lines| * (row + 1) && Lines(Raw(lines), row, |lines|) == lines
  {
    hide LineAt, Fits, Flat;
    FlatLength(LineRows(lines), row + 1);
    forall y | 0 <= y < |lines| ensures Lines(Raw(lines), row, |lines|)[y] == lines[y] {
      LineOfRaw(lines, row, y);
    }
  }

  /** The same byte for byte in the two buffers: `pixels` from `raw`, where every line of `row` bytes
      follows its filter. */
  ghost predicate PixelAt(raw: seq<byte>, pixels: seq<byte>, row: nat, c: nat, y: nat, x: nat) {
    var line, at := y * (row + 1), y * row + x;
    && 0 <= line && line + 1 + x < |raw| && 0 <= at < |pixels| && (x >= c ==> at >= c) && (y > 0 ==> at - row >= 0)
    && (y > 0 && x >= c ==> at - row - c >= 0)
    && Reconstructed(pixels[at], raw[line], raw[line + 1 + x], if x >= c then pixels[at - c] else 0,
                     if y > 0 then pixels[at - row] else 0, if y > 0 && x >= c then pixels[at - row - c] else 0)
  }

  lemma FlatAt(rows: seq<seq<byte>>, row: nat, y: nat, x: nat)
    requires Rectangular(rows, row) && y < |rows| && x < row
    ensures 0 <= y * row + x < |Flat(rows)| && Flat(rows)[y * row + x] == rows[y][x]
  {
    hide Flat;
    FlatSlice(rows, row, y);
    assert Flat(rows)[y * row..y * row + row][x] == Flat(rows)[y * row + x];
  }

  lemma PixelsAre(raw: seq<byte>, row: nat, height: nat, c: nat, y: nat, x: nat)
    requires 0 < c && |raw| == height * (row + 1) && y < height && x < row && Lines(raw, row, height)[y].filter <= 4
    ensures PixelAt(raw, Flat(UnfilterLines(Lines(raw, row, height), row, c)), row, c, y, x)
  {
    hide Flat, UnfilterLines, Reconstructed;
    var lines := Lines(raw, row, height);
    var rows := UnfilterLines(lines, row, c);
    LineFits(y, row, height);
    PixelIs(lines, row, c, y, x);
    FlatAt(rows, row, y, x);
    if x >= c {
      FlatAt(rows, row, y, x - c);
    }
    if y > 0 {
      RowOffset(y - 1, row);
      FlatAt(rows, row, y - 1, x);
      if x >= c {
        FlatAt(rows, row, y - 1, x - c);
      }
    }
  }

  // ---- the loop ----

  /** The reconstruction loop: refuses an unknown filter, otherwise fills the pixel buffer. */
  method Unfilter(raw: seq<byte>, row: nat, height: nat, channels: nat) returns (ok: bool, pixels: array<byte>)
    requires 0 < channels && |raw| == height * (row + 1)
    ensures fresh(pixels)
    ensures ok <==> forall y :: 0 <= y < height ==> Lines(raw, row, height)[y].filter <= 4
    ensures ok ==> forall y, x :: 0 <= y < height && 0 <= x < row ==> PixelAt(raw, pixels[..], row, channels, y, x)
    ensures ok ==> pixels[..] == Flat(UnfilterLines(Lines(raw, row, height), row, channels))
  {
    hide UnfilterLines, Flat, PixelAt;
    ghost var lines := Lines(raw, row, height);
    pixels := new byte[height * row];
    FlatNone(row, channels);
    assert lines[..0] == [];
    var y := 0;
    while y < height
      invariant 0 <= y <= height && 0 <= y * row <= pixels.Length
      invariant forall i :: 0 <= i < y ==> lines[i].filter <= 4
      invariant pixels[..y * row] == Flat(UnfilterLines(lines[..y], row, channels))
    {
      RowOrder(y + 1, height, row);
      RowOffset(y, row);
      LineFits(y, row, height);
      var line := LineAt(raw, row, y);
      assert lines[y] == line;
      if line.filter > 4 {
        return false, pixels;
      }
      assert lines[..y + 1] == lines[..y] + [line];
      UnfilterOne(line, row, channels, y, lines[..y], pixels);
      y := y + 1;
    }
    assert lines[..y] == lines;
    assert pixels[..y * row] == pixels[..];
    forall v, x | 0 <= v < height && 0 <= x < row ensures PixelAt(raw, pixels[..], row, channels, v, x) {
      PixelsAre(raw, row, height, channels, v, x);
    }
    ok := true;
  }

  lemma FlatNone(row: nat, c: nat)
    requires 0 < c
    ensures Flat(UnfilterLines([], row, c)) == []
  {
  }

  /** One line of the loop, in place after the lines already reconstructed. */
  method UnfilterOne(line: Line, row: nat, channels: nat, y: nat, ghost done: seq<Line>, pixels: array<byte>)
    requires 0 < channels && Scanlines(done, row) && |done| == y && |line.data| == row
    requires 0 <= y * row && y * row + row <= pixels.Length
    requires pixels[..y * row] == Flat(UnfilterLines(done, row, channels))
    modifies pixels
    ensures pixels[..y * row + row] == Flat(UnfilterLines(done + [line], row, channels))
  {
    hide UnfilterLines, UnfilterLine, Flat, Predict, Above;
    ghost var rows := UnfilterLines(done, row, channels);
    ghost var above := Above(rows, row);
    var base := y * row;
    FlatLength(rows, row);
    UnfilterStart(line, above, channels);
    for x := 0 to row
      invariant pixels[..base + x] == Flat(rows) + UnfilterLine(line.filter, line.data, above, channels, x)
    {
      var at := base + x;
      ghost var before := UnfilterLine(line.filter, line.data, above, channels, x);
      ghost var prefix := pixels[..at];
      var left := if x >= channels then pixels[at - channels] else 0;
      assert x >= channels ==> left == prefix[at - channels] == before[x - channels];
      ReadAbove(rows, row, x);
      var up := if y > 0 then pixels[at - row] else 0;
      assert y > 0 ==> up == prefix[at - row] == Flat(rows)[at - row];
      if x >= channels {
        ReadAbove(rows, row, x - channels);
      }
      var corner := if y > 0 && x >= channels then pixels[at - row - channels] else 0;
      assert y > 0 && x >= channels ==> corner == prefix[at - row - channels] == Flat(rows)[at - row - channels];
      UnfilterStep(line, above, channels, x, left, up, corner);
      pixels[at] := (line.data[x] + Predict(line.filter, left, up, corner)) % 256;
      assert pixels[..at] == prefix;
      assert pixels[..at + 1] == prefix + [pixels[at]];
    }
    UnfilterAppend(done, line, row, channels);
  }

  lemma UnfilterStart(line: Line, above: seq<byte>, c: nat)
    requires 0 < c && |line.data| == |above|
    ensures UnfilterLine(line.filter, line.data, above, c, 0) == []
  {
  }

  lemma UnfilterStep(line: Line, above: seq<byte>, c: nat, x: nat, left: byte, up: byte, corner: byte)
    requires 0 < c && |line.data| == |above| && x < |above|
    requires left == Back(UnfilterLine(line.filter, line.data, above, c, x), x, c)
    requires up == above[x] && corner == Back(above, x, c)
    ensures UnfilterLine(line.filter, line.data, above, c, x + 1) ==
              UnfilterLine(line.filter, line.data, above, c,
                  x) + [(line.data[x] + Predict(line.filter, left, up, corner)) % 256]
  {
  }

  lemma UnfilterAppend(done: seq<Line>, line: Line, row: nat, c: nat)
    requires 0 < c && Scanlines(done, row) && |line.data| == row
    ensures
      var rows := UnfilterLines(done, row, c);
      Flat(UnfilterLines(done + [line], row, c)) ==
        Flat(rows) + UnfilterLine(line.filter, line.data, Above(rows, row), c, row)
  {
    hide UnfilterLine;
    assert (done + [line])[..|done|] == done;
    var rows := UnfilterLines(done, row, c);
    var last := UnfilterLine(line.filter, line.data, Above(rows, row), c, row);
    assert UnfilterLines(done + [line], row, c) == rows + [last];
    assert (rows + [last])[..|rows|] == rows;
  }

  /** The line above, read off the flat layout. */
  lemma ReadAbove(rows: seq<seq<byte>>, row: nat, x: nat)
    requires Rectangular(rows, row) && x < row
    ensures rows == [] ==> Above(rows, row)[x] == 0
    ensures rows != [] ==>
              0 <= |rows| * row - row + x < |Flat(rows)| && Flat(rows)[|rows| * row - row + x] == Above(rows, row)[x]
  {
    if rows != [] {
      var n := |rows| - 1;
      FlatLength(rows[..n], row);
      FlatLength(rows, row);
      RowOffset(n, row);
    }
  }
}
