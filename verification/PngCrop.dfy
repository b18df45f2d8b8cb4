/** Cropping a screenshot to the outward hull of the progress rectangles, plus four pixels.
    A missing coordinate stands for a number that is not finite. Far edges are sums of a position
    and a size, and `round` is how the program rounds a sum. */
module PngCrop {
  import opened Basics
  import opened Doubles
  import opened PngFilter
  import opened PngContainer

  const SCREEN_WIDTH := 1440
  const SCREEN_HEIGHT := 900
  const MARGIN := 4

  type Rect = seq<Option<real>>

  datatype Box = Box(x: int, y: int, right: int, bottom: int)

  datatype Cropped = Cropped(bytes: seq<byte>, box: Box, channels: nat)

  type Deflate = seq<byte> -> seq<byte>

  // ---- the hull ----

  predicate RectOk(r: Rect) {
    |r| == 4 && (forall i :: 0 <= i < 4 ==> r[i].Some?) && r[2].value > 0.0 && r[3].value > 0.0
  }

  predicate RectsOk(rects: seq<Rect>) {
    0 < |rects| <= 32 && forall i :: 0 <= i < |rects| ==> RectOk(rects[i])
  }

  function MinOf(values: seq<real>): real
    requires values != []
  {
    if |values| == 1 then values[0]
    else var rest := MinOf(values[1..]); if values[0] < rest then values[0] else rest
  }

  function MaxOf(values: seq<real>): real
    requires values != []
  {
    if |values| == 1 then values[0]
    else var rest := MaxOf(values[1..]); if values[0] > rest then values[0] else rest
  }

  function Starts(rects: seq<Rect>, axis: nat): (v: seq<real>)
    requires axis < 2 && RectsOk(rects)
    ensures |v| == |rects|
  {
    seq(|rects|, i requires 0 <= i < |rects| => assert RectOk(rects[i]); rects[i][axis].value)
  }

  /** The far edges, as rounded sums. */
  function Stops(rects: seq<Rect>, axis: nat, round: Round): (v: seq<real>)
    requires axis < 2 && RectsOk(rects)
    ensures |v| == |rects|
  {
    seq(|rects|, i requires 0 <= i < |rects| =>
      assert RectOk(rects[i]); round(rects[i][axis].value + rects[i][axis + 2].value))
  }

  function HullOf(rects: seq<Rect>, round: Round): Box
    requires RectsOk(rects)
  {
    Box(MinOf(Starts(rects, 0)).Floor - MARGIN, MinOf(Starts(rects, 1)).Floor - MARGIN,
        Ceil(MaxOf(Stops(rects, 0, round))) + MARGIN, Ceil(MaxOf(Stops(rects, 1, round))) + MARGIN)
  }

  predicate OnScreen(b: Box) {
    && b.x >= 0 && b.y >= 0 && b.right <= SCREEN_WIDTH && b.bottom <= SCREEN_HEIGHT
    && b.right - b.x <= 320 && b.bottom - b.y <= 64
  }

  function Hull(rects: seq<Rect>, round: Round): Result<Box> {
    if !RectsOk(rects) || !OnScreen(HullOf(rects, round)) then Err("crop-geometry") else Ok(HullOf(rects, round))
  }

  /** Every rectangle, its far edges rounded by `round`, lies in the box with four pixels to spare
      at the near edges and `far` pixels at the far edges. */
  predicate Surrounds(b: Box, rects: seq<Rect>, round: Round, far: int)
    requires RectsOk(rects)
  {
    forall i :: 0 <= i < |rects| ==> RectOk(rects[i]) ==>
      && (b.x + MARGIN) as real <= rects[i][0].value && (b.y + MARGIN) as real <= rects[i][1].value
      && round(rects[i][0].value + rects[i][2].value) <= (b.right - far) as real
      && round(rects[i][1].value + rects[i][3].value) <= (b.bottom - far) as real
  }

  predicate Encloses(outer: Box, inner: Box) {
    outer.x <= inner.x && outer.y <= inner.y && inner.right <= outer.right && inner.bottom <= outer.bottom
  }

  lemma {:induction false} MinIff(values: seq<real>, a: real)
    requires values != []
    ensures a <= MinOf(values) <==> forall i :: 0 <= i < |values| ==> a <= values[i]
    decreases |values|
  {
    if |values| > 1 {
      MinIff(values[1..], a);
      assert forall i :: 0 < i < |values| ==> values[i] == values[1..][i - 1];
      assert forall i :: 0 <= i < |values| - 1 ==> values[1..][i] == values[i + 1];
    }
  }

  lemma {:induction false} MaxIff(values: seq<real>, a: real)
    requires values != []
    ensures MaxOf(values) <= a <==> forall i :: 0 <= i < |values| ==> values[i] <= a
    decreases |values|
  {
    if |values| > 1 {
      MaxIff(values[1..], a);
      assert forall i :: 0 < i < |values| ==> values[i] == values[1..][i - 1];
      assert forall i :: 0 <= i < |values| - 1 ==> values[1..][i] == values[i + 1];
    }
  }

  lemma SurroundsIff(rects: seq<Rect>, b: Box, round: Round, far: int)
    requires RectsOk(rects)
    ensures Surrounds(b, rects, round, far) <==>
              && (b.x + MARGIN) as real <= MinOf(Starts(rects, 0)) && (b.y + MARGIN) as real <= MinOf(Starts(rects, 1))
              && MaxOf(Stops(rects, 0, round)) <= (b.right - far) as real
              && MaxOf(Stops(rects, 1, round)) <= (b.bottom - far) as real
  {
    hide MinOf, MaxOf;
    MinIff(Starts(rects, 0), (b.x + MARGIN) as real);
    MinIff(Starts(rects, 1), (b.y + MARGIN) as real);
    MaxIff(Stops(rects, 0, round), (b.right - far) as real);
    MaxIff(Stops(rects, 1, round), (b.bottom - far) as real);
    forall i | 0 <= i < |rects|
      ensures RectOk(rects[i])
      ensures Starts(rects, 0)[i] == rects[i][0].value && Starts(rects, 1)[i] == rects[i][1].value
      ensures Stops(rects, 0, round)[i] == round(rects[i][0].value + rects[i][2].value)
      ensures Stops(rects, 1, round)[i] == round(rects[i][1].value + rects[i][3].value)
    {
    }
  }

  /** A box surrounds the rectangles exactly when it encloses the hull. */
  lemma HullLeast(rects: seq<Rect>, b: Box, round: Round)
    requires RectsOk(rects)
    ensures Surrounds(b, rects, round, MARGIN) <==> Encloses(b, HullOf(rects, round))
  {
    hide MinOf, MaxOf, Surrounds;
    SurroundsIff(rects, b, round, MARGIN);
    FloorIff(MinOf(Starts(rects, 0)), b.x + MARGIN);
    FloorIff(MinOf(Starts(rects, 1)), b.y + MARGIN);
    FloorIff(-MaxOf(Stops(rects, 0, round)), -(b.right - MARGIN));
    FloorIff(-MaxOf(Stops(rects, 1, round)), -(b.bottom - MARGIN));
  }

  lemma FloorIff(x: real, n: int)
    ensures n as real <= x <==> n <= x.Floor
  {
  }

  ghost predicate Tightest(rects: seq<Rect>, box: Box, round: Round)
    requires RectsOk(rects)
  {
    Surrounds(box, rects, round, MARGIN) && forall b :: Surrounds(b, rects, round, MARGIN) ==> Encloses(b, box)
  }

  lemma HullTightest(rects: seq<Rect>, box: Box, round: Round)
    ensures Hull(rects, round) == Ok(box) <==> RectsOk(rects) && OnScreen(box) && Tightest(rects, box, round)
  {
    if RectsOk(rects) {
      hide Surrounds;
      var hull := HullOf(rects, round);
      HullLeast(rects, hull, round);
      forall b ensures Surrounds(b, rects, round, MARGIN) <==> Encloses(b, hull) {
        HullLeast(rects, b, round);
      }
    }
  }

  /** One to thirty-two rectangles of four finite numbers, none of them empty. */
  predicate Proper(rects: seq<Rect>) {
    && 1 <= |rects| <= 32
    && forall i :: 0 <= i < |rects| ==>
         && |rects[i]| == 4 && rects[i][0].Some? && rects[i][1].Some? && rects[i][2].Some? && rects[i][3].Some?
         && rects[i][2].value > 0.0 && rects[i][3].value > 0.0
  }

  /** Four pixels are left on every side of every rectangle, as far as rounding lets the program see. */
  predicate Clears(b: Box, rects: seq<Rect>, round: Round)
    requires Proper(rects)
  {
    forall i :: 0 <= i < |rects| ==>
      && (b.x + 4) as real <= rects[i][0].value && (b.y + 4) as real <= rects[i][1].value
      && round(rects[i][0].value + rects[i][2].value) <= (b.right - 4) as real
      && round(rects[i][1].value + rects[i][3].value) <= (b.bottom - 4) as real
  }

  lemma ClearsIff(b: Box, rects: seq<Rect>, round: Round)
    requires RectsOk(rects)
    ensures Proper(rects) && (Surrounds(b, rects, round, MARGIN) <==> Clears(b, rects, round))
  {
    assert forall i :: 0 <= i < |rects| ==> RectOk(rects[i]);
  }

  lemma ProperIff(rects: seq<Rect>)
    ensures RectsOk(rects) <==> Proper(rects)
  {
    if Proper(rects) {
      forall i | 0 <= i < |rects| ensures RectOk(rects[i]) {
        var r := rects[i];
        assert |r| == 4 && r[0].Some? && r[1].Some? && r[2].Some? && r[3].Some?;
      }
    }
  }

  /** The hull is accepted exactly when it is the smallest whole-pixel box that leaves the margin, and
      that box is on the screen unclamped and within size; then it is returned. */
  lemma HullIff(rects: seq<Rect>, box: Box, round: Round)
    ensures Hull(rects, round) == Ok(box) <==>
              && Proper(rects) && Clears(box, rects, round)
              && (forall b: Box :: Clears(b, rects, round) ==>
                    b.x <= box.x && b.y <= box.y && box.right <= b.right && box.bottom <= b.bottom)
              && 0 <= box.x && 0 <= box.y && box.right <= 1440 && box.bottom <= 900
              && box.right - box.x <= 320 && box.bottom - box.y <= 64
  {
    hide Surrounds, Hull, Clears, Proper, RectsOk;
    HullTightest(rects, box, round);
    ProperIff(rects);
    if RectsOk(rects) {
      forall b ensures Proper(rects) && (Surrounds(b, rects, round, MARGIN) <==> Clears(b, rects, round)) {
        ClearsIff(b, rects, round);
      }
    }
  }

  // ---- what rounding costs ----

  /** The largest far edge, exactly. */
  function Reach(rects: seq<Rect>, axis: nat): real
    requires axis < 2 && RectsOk(rects)
  {
    MaxOf(Stops(rects, axis, Same))
  }

  lemma {:induction false} MaxRounded(values: seq<real>, rounded: seq<real>, round: Round)
    requires Rounding(round) && values != [] && |rounded| == |values|
    requires forall i :: 0 <= i < |values| ==> rounded[i] == round(values[i])
    ensures MaxOf(rounded) == round(MaxOf(values))
    decreases |values|
  {
    if |values| > 1 {
      MaxRounded(values[1..], rounded[1..], round);
    }
  }

  /** Rounding every edge and taking the largest is rounding the largest. */
  lemma ReachRounded(rects: seq<Rect>, axis: nat, round: Round)
    requires axis < 2 && RectsOk(rects) && Rounding(round)
    ensures MaxOf(Stops(rects, axis, round)) == round(Reach(rects, axis))
  {
    hide MaxOf, Rounding;
    MaxRounded(Stops(rects, axis, Same), Stops(rects, axis, round), round);
  }

  /** On an accepted axis every edge is well within 53 bits. */
  lemma ReachBounded(rects: seq<Rect>, axis: nat, round: Round, limit: int)
    requires axis < 2 && RectsOk(rects) && Rounding(round)
    requires MinOf(Starts(rects, axis)).Floor - MARGIN >= 0 && Ceil(MaxOf(Stops(rects, axis, round))) + MARGIN <= limit
    requires 0 <= limit <= 100000
    ensures MARGIN as real <= Reach(rects, axis) < limit as real
    ensures MARGIN <= Ceil(round(Reach(rects, axis)))
  {
    hide MinOf, MaxOf, Rounding;
    var start := MinOf(Starts(rects, axis));
    MinIff(Starts(rects, axis), start);
    MaxIff(Stops(rects, axis, Same), Reach(rects, axis));
    assert RectOk(rects[0]);
    assert start <= Starts(rects, axis)[0] && Stops(rects, axis, Same)[0] <= Reach(rects, axis);
    assert Stops(rects, axis, Same)[0] == Starts(rects, axis)[0] + rects[0][axis + 2].value;
    ReachRounded(rects, axis, round);
    RoundedBelow(round, Reach(rects, axis), limit - MARGIN);
    RoundedAbove(round, Reach(rects, axis), MARGIN);
  }

  lemma RoundedAbove(round: Round, m: real, n: int)
    requires Rounding(round) && -PRECISION <= n <= PRECISION && n as real <= m
    ensures n as real <= round(m) && n <= Ceil(round(m))
  {
    assert Fixes(round, n);
  }

  /** The largest far edge is rounded down to the whole pixel below it. */
  predicate RoundsDown(rects: seq<Rect>, axis: nat, round: Round)
    requires axis < 2 && RectsOk(rects)
  {
    round(Reach(rects, axis)) == (Ceil(Reach(rects, axis)) - 1) as real
  }

  /** What an accepted box leaves free of the exact far edges. */
  lemma FarMargin(rects: seq<Rect>, box: Box, round: Round, far: int)
    requires Rounding(round) && Hull(rects, round) == Ok(box)
    ensures Surrounds(box, rects, Same, far) <==>
              && far <= (if RoundsDown(rects, 0, round) then MARGIN - 1 else MARGIN)
              && far <= (if RoundsDown(rects, 1, round) then MARGIN - 1 else MARGIN)
  {
    hide MinOf, MaxOf, Rounding, Surrounds;
    SurroundsIff(rects, box, Same, far);
    FloorIff(MinOf(Starts(rects, 0)), box.x + MARGIN);
    FloorIff(MinOf(Starts(rects, 1)), box.y + MARGIN);
    ReachBounded(rects, 0, round, SCREEN_WIDTH);
    ReachBounded(rects, 1, round, SCREEN_HEIGHT);
    ReachRounded(rects, 0, round);
    ReachRounded(rects, 1, round);
    CeilRounded(round, Reach(rects, 0));
    CeilRounded(round, Reach(rects, 1));
    FloorIff(-Reach(rects, 0), -(box.right - far));
    FloorIff(-Reach(rects, 1), -(box.bottom - far));
  }

  /** Four pixels are free on every side at the near edges, and at least three at the far edges;
      four there if and only if on neither axis the largest far edge is rounded down to the whole
      pixel below it. */
  lemma MarginIff(rects: seq<Rect>, box: Box, round: Round)
    requires Rounding(round) && Hull(rects, round) == Ok(box)
    ensures Surrounds(box, rects, Same, MARGIN - 1)
    ensures Surrounds(box, rects, Same, MARGIN) <==> !RoundsDown(rects, 0, round) && !RoundsDown(rects, 1, round)
  {
    hide Rounding, Surrounds, RoundsDown, Hull;
    FarMargin(rects, box, round, MARGIN - 1);
    FarMargin(rects, box, round, MARGIN);
  }

  /** A rectangle that loses a pixel in double precision, however ties are rounded. */
  lemma MarginLost(round: Round)
    requires RoundsToNearest(round)
    ensures
      var rects := [[Some(100.0), Some(100.0), Some(Power(-53)), Some(1.0)]];
      && RectsOk(rects) && Hull(rects, round) == Ok(Box(96, 96, 104, 105))
      && !Surrounds(Box(96, 96, 104, 105), rects, Same, MARGIN)
  {
    hide RoundsToNearest, Rounding, Power;
    var w := Power(-53);
    var rects := [[Some(100.0), Some(100.0), Some(w), Some(1.0)]];
    NearestRounds(round);
    SmallWidth();
    HundredAbsorbs(round, w);
    WholeKept(round, 101);
    assert Starts(rects, 0) == [100.0] && Starts(rects, 1) == [100.0];
    assert Stops(rects, 0, round) == [100.0] && Stops(rects, 1, round) == [101.0];
    WholeCeil(100);
    WholeCeil(101);
    assert RectOk(rects[0]);
    assert !(Same(rects[0][0].value + rects[0][2].value) <= (104 - MARGIN) as real);
  }

  lemma WholeKept(round: Round, n: int)
    requires Rounding(round) && -PRECISION <= n <= PRECISION
    ensures round(n as real) == n as real
  {
    assert Fixes(round, n);
  }

  lemma WholeCeil(n: int)
    ensures Ceil(n as real) == n && (n as real).Floor == n
  {
    assert -(n as real) == (-n) as real;
  }

  lemma SmallWidth()
    ensures 0.0 < Power(-53) < Spacing() / 2.0
  {
    hide Power;
    PowerGrows(-53, -48);
    PowerNext(-48);
    PowerNext(-47);
  }

  lemma HullSpan(rects: seq<Rect>, box: Box, round: Round)
    requires Rounding(round) && Hull(rects, round) == Ok(box)
    ensures 0 <= box.x < box.right <= SCREEN_WIDTH && 0 <= box.y < box.bottom <= SCREEN_HEIGHT
  {
    hide MinOf, MaxOf, Rounding;
    AxisSpan(rects, 0, round, SCREEN_WIDTH);
    AxisSpan(rects, 1, round, SCREEN_HEIGHT);
  }

  /** Rounding cannot make a far edge fall behind the whole pixel of a near one. */
  lemma AxisSpan(rects: seq<Rect>, axis: nat, round: Round, limit: int)
    requires axis < 2 && RectsOk(rects) && Rounding(round)
    requires MinOf(Starts(rects, axis)).Floor - MARGIN >= 0 && Ceil(MaxOf(Stops(rects, axis, round))) + MARGIN <= limit
    requires 0 <= limit <= 100000
    ensures MinOf(Starts(rects, axis)).Floor <= Ceil(MaxOf(Stops(rects, axis, round)))
  {
    hide MinOf, MaxOf, Rounding;
    var start := MinOf(Starts(rects, axis));
    MinIff(Starts(rects, axis), start);
    MaxIff(Stops(rects, axis, Same), Reach(rects, axis));
    assert RectOk(rects[0]);
    assert start <= Starts(rects, axis)[0] && Stops(rects, axis, Same)[0] <= Reach(rects, axis);
    assert Stops(rects, axis, Same)[0] == Starts(rects, axis)[0] + rects[0][axis + 2].value;
    ReachRounded(rects, axis, round);
    ReachBounded(rects, axis, round, limit);
    RoundedAbove(round, Reach(rects, axis), start.Floor);
  }

  // ---- the cropped file ----

  /** The pixels of the box, row by row. */
  function Sub(image: Image, box: Box, w: nat, h: nat): (r: Image)
    requires |image.rows| == h && Rectangular(image.rows, w * image.channels)
    requires 0 <= box.x <= box.right <= w && 0 <= box.y <= box.bottom <= h
    ensures |r.rows| == box.bottom - box.y && Rectangular(r.rows, (box.right - box.x) * image.channels)
    ensures r.channels == image.channels
  {
    var c := image.channels;
    ScaleOrder(box.x, box.right, w, c);
    Image(Slices(image.rows, w * c, box.y, box.bottom - box.y, box.x * c, box.right * c), c)
  }

  /** The same stretch of each of `height` rows from row `y` on. */
  function Slices(rows: seq<seq<byte>>, row: nat, y: nat, height: nat, from: nat, to: nat): (r: seq<seq<byte>>)
    requires Rectangular(rows, row) && y + height <= |rows| && from <= to <= row
    ensures |r| == height && Rectangular(r, to - from)
  {
    seq(height, i requires 0 <= i < height => rows[y + i][from..to])
  }

  lemma ScaleOrder(a: nat, b: nat, w: nat, c: nat)
    requires a <= b <= w
    ensures 0 <= a * c <= b * c <= w * c && b * c - a * c == (b - a) * c
  {
    assert (b - a) * c >= 0 && (w - b) * c >= 0;
  }

  /** Byte `k` of the pixel in column `x` and row `y`. */
  function Sample(image: Image, x: nat, y: nat, k: nat, w: nat): byte
    requires y < |image.rows| && x < w && k < image.channels && |image.rows[y]| == w * image.channels
  {
    SampleFits(x, w, image.channels, k);
    image.rows[y][x * image.channels + k]
  }

  lemma SampleFits(x: nat, w: nat, c: nat, k: nat)
    requires x < w && k < c
    ensures 0 <= x * c + k < w * c
  {
    assert (x + 1) * c <= w * c by {
      assert (w - (x + 1)) * c >= 0;
    }
    assert (x + 1) * c == x * c + c;
  }

  /** Every pixel of the crop is the one of the screenshot as far right and down as the box begins. */
  lemma CropPixel(image: Image, box: Box, w: nat, h: nat, x: nat, y: nat, k: nat)
    requires |image.rows| == h && Rectangular(image.rows, w * image.channels)
    requires 0 <= box.x <= box.right <= w && 0 <= box.y <= box.bottom <= h
    requires x < box.right - box.x && y < box.bottom - box.y && k < image.channels
    ensures Sample(Sub(image, box, w, h), x, y, k, box.right - box.x) == Sample(image, box.x + x, box.y + y, k, w)
  {
    var c := image.channels;
    ScaleOrder(box.x, box.right, w, c);
    SampleFits(x, box.right - box.x, c, k);
    SampleFits(box.x + x, w, c, k);
    assert (box.x + x) * c == box.x * c + x * c;
    var slice := image.rows[box.y + y][box.x * c..box.right * c];
    assert Sub(image, box, w, h).rows[y] == slice;
    assert slice[x * c + k] == image.rows[box.y + y][box.x * c + (x * c + k)];
  }

  /** Scanlines with the neutral filter. */
  function Plain(rows: seq<seq<byte>>): seq<Line> {
    seq(|rows|, y requires 0 <= y < |rows| => Line(0, rows[y]))
  }

  function HeaderBody(width: nat, height: nat, channels: nat): (b: seq<byte>)
    requires width < U32 && height < U32
    ensures |b| == 13
  {
    EncodeU32(width) + EncodeU32(height) + [8, if channels == 4 then 6 else 2, 0, 0, 0]
  }

  function CropChunks(width: nat, height: nat, channels: nat, data: seq<byte>): seq<Chunk>
    requires width < U32 && height < U32
  {
    [Chunk(IHDR, HeaderBody(width, height, channels)), Chunk(IDAT, data), Chunk(IEND, [])]
  }

  function EncodeCrop(crc: Checksum, box: Box, channels: nat, data: seq<byte>): Result<Cropped>
    requires 0 <= box.x <= box.right < U32 && 0 <= box.y <= box.bottom < U32
  {
    if |data| > LINE then Err("crop-encoded-bound")
    else
      var bytes := SIGNATURE + EncodeChunks(crc, CropChunks(box.right - box.x, box.bottom - box.y, channels, data));
      if |bytes| > LINE then Err("crop-encoded-bound") else Ok(Cropped(bytes, box, channels))
  }

  /** A decoded image has the geometry it was decoded for. */
  lemma DecodeShape(crc: Checksum, inflate: Inflate, w: nat, h: nat, bytes: seq<byte>)
    requires Decode(crc, inflate, w, h, bytes).Ok?
    ensures
      var image := Decode(crc, inflate, w, h, bytes).value;
      |image.rows| == h && Rectangular(image.rows, w * image.channels) && image.channels in {3, 4}
  {
    hide Walked, Lines, UnfilterLines, Complete;
    var image := Decode(crc, inflate, w, h, bytes).value;
    DecodeIff(crc, inflate, w, h, bytes, image);
    var cs: seq<Chunk> :| && File(crc, w, h, bytes, cs, image.channels) && cs != []
                          && Content(inflate, cs, w, h, image.channels) == Ok(image);
    CompleteFirst(w, h, cs, image.channels);
  }

  /** `cropProgressPNG`. */
  function Crop(crc: Checksum, inflate: Inflate, deflate: Deflate, round: Round, original: seq<byte>, rects: seq<Rect>)
    : Result<Cropped>
    requires Rounding(round)
  {
    var hull := Hull(rects, round);
    if hull.Err? then Err(hull.code)
    else
      var decoded := Decode(crc, inflate, SCREEN_WIDTH, SCREEN_HEIGHT, original);
      if decoded.Err? then Err(decoded.code)
      else
        HullSpan(rects, hull.value, round);
        DecodeShape(crc, inflate, SCREEN_WIDTH, SCREEN_HEIGHT, original);
        var sub := Sub(decoded.value, hull.value, SCREEN_WIDTH, SCREEN_HEIGHT);
        EncodeCrop(crc, hull.value, decoded.value.channels, deflate(Raw(Plain(sub.rows))))
  }

  /** A crop is made exactly of an accepted hull of a decodable screenshot whose encoding is within 96
      KiB; eight bytes of signature and three chunks stand around the compressed data. */
  lemma CropIff(crc: Checksum, inflate: Inflate, deflate: Deflate, round: Round, original: seq<byte>, rects: seq<Rect>)
    requires Rounding(round)
    ensures
      var hull, screen := Hull(rects, round), Decode(crc, inflate, 1440, 900, original);
      Crop(crc, inflate, deflate, round, original, rects).Ok? <==>
        && hull.Ok? && screen.Ok?
        && (HullSpan(rects, hull.value, round); DecodeShape(crc, inflate, 1440, 900, original);
            57 + |deflate(Raw(Plain(Sub(screen.value, hull.value, 1440, 900).rows)))| <= 96 * 1024)
  {
    hide Decode, Hull, Sub, Raw, Plain, EncodeChunks, Rounding, CropChunks;
    var hull, screen := Hull(rects, round), Decode(crc, inflate, 1440, 900, original);
    if hull.Ok? && screen.Ok? {
      HullSpan(rects, hull.value, round);
      DecodeShape(crc, inflate, 1440, 900, original);
      var data := deflate(Raw(Plain(Sub(screen.value, hull.value, 1440, 900).rows)));
      var box := hull.value;
      if |data| <= LINE {
        CropLength(crc, box.right - box.x, box.bottom - box.y, screen.value.channels, data);
      }
    }
  }

  lemma {:induction false} NeutralFilter(rows: seq<seq<byte>>, row: nat, c: nat)
    requires 0 < c && Rectangular(rows, row)
    ensures FilterLines(seq(|rows|, _ => 0), rows, row, c) == Plain(rows)
    decreases |rows|
  {
    if rows != [] {
      var n := |rows| - 1;
      var zeros: seq<byte> := seq(|rows|, _ => 0);
      NeutralFilter(rows[..n], row, c);
      assert zeros[..n] == seq(n, _ => 0);
      assert FilterLine(0, rows[n], Above(rows[..n], row), c) == rows[n];
      assert Plain(rows) == Plain(rows[..n]) + [Line(0, rows[n])];
    }
  }

  lemma CropHeader(width: nat, height: nat, channels: nat)
    requires width < U32 && height < U32 && channels in {3, 4}
    ensures IsHeader(HeaderBody(width, height, channels), width, height, channels)
  {
  }

  lemma CropComplete(width: nat, height: nat, channels: nat, data: seq<byte>)
    requires width < U32 && height < U32 && channels in {3, 4} && |data| <= LINE
    ensures
      var cs := CropChunks(width, height, channels, data);
      AllWritable(cs) && Complete(cs, width, height, channels) && DataOf(cs[1..]) == data
  {
    hide HeaderBody, IsHeader, Arranged, DataOf, CountData;
    CropHeader(width, height, channels);
    var cs := CropChunks(width, height, channels, data);
    assert cs[1..] == [Chunk(IDAT, data), Chunk(IEND, [])];
    assert Named(IHDR, "IHDR");
    CropRest(data);
  }

  lemma CropRest(data: seq<byte>)
    requires |data| <= LINE
    ensures
      var rest := [Chunk(IDAT, data), Chunk(IEND, [])];
      AllWritable(rest) && Arranged(rest) && CountData(rest) > 0 && DataOf(rest) == data
  {
    hide Named;
    var rest, last := [Chunk(IDAT, data), Chunk(IEND, [])], [Chunk(IEND, [])];
    CropNames();
    assert rest[1..] == last && last[1..] == [];
    assert DataOf(last) == [] && data + [] == data;
  }

  lemma CropNames()
    ensures Named(IDAT, "IDAT") && Named(IEND, "IEND") && !Named(IEND, "IDAT")
  {
    assert IEND[1] % 128 != "IDAT"[1] as int;
  }

  /** The cropped file decodes, at its own geometry, to exactly the box of the original. */
  lemma CropDecodes(crc: Checksum, inflate: Inflate, deflate: Deflate, round: Round, original: seq<byte>,
                    rects: seq<Rect>)
    requires Rounding(round) && forall raw :: inflate(deflate(raw)) == Some(raw)
    requires Crop(crc, inflate, deflate, round, original, rects).Ok?
    ensures
      var cropped := Crop(crc, inflate, deflate, round, original, rects).value;
      var screen := Decode(crc, inflate, SCREEN_WIDTH, SCREEN_HEIGHT, original);
      && screen.Ok? && Hull(rects, round) == Ok(cropped.box) && cropped.channels == screen.value.channels
      && |screen.value.rows| == SCREEN_HEIGHT && Rectangular(screen.value.rows, SCREEN_WIDTH * screen.value.channels)
      && 0 <= cropped.box.x < cropped.box.right <= SCREEN_WIDTH
           && 0 <= cropped.box.y < cropped.box.bottom <= SCREEN_HEIGHT
      && |cropped.bytes| <= LINE
      && Decode(crc, inflate, cropped.box.right - cropped.box.x, cropped.box.bottom - cropped.box.y, cropped.bytes)
           == Ok(Sub(screen.value, cropped.box, SCREEN_WIDTH, SCREEN_HEIGHT))
  {
    hide Decode, Hull, Sub, Raw, Plain, EncodeChunks, Rounding;
    var cropped := Crop(crc, inflate, deflate, round, original, rects).value;
    var screen := Decode(crc, inflate, SCREEN_WIDTH, SCREEN_HEIGHT, original).value;
    var box := cropped.box;
    HullSpan(rects, box, round);
    DecodeShape(crc, inflate, SCREEN_WIDTH, SCREEN_HEIGHT, original);
    var sub := Sub(screen, box, SCREEN_WIDTH, SCREEN_HEIGHT);
    SubDecodes(crc, inflate, deflate, box, sub, screen.channels, cropped);
  }

  lemma SubDecodes(crc: Checksum, inflate: Inflate, deflate: Deflate, box: Box, sub: Image, channels: nat,
                   cropped: Cropped)
    requires 0 <= box.x <= box.right < U32 && 0 <= box.y <= box.bottom < U32
    requires |sub.rows| == box.bottom - box.y && Rectangular(sub.rows, (box.right - box.x) * channels)
    requires sub.channels == channels && channels in {3, 4}
    requires inflate(deflate(Raw(Plain(sub.rows)))) == Some(Raw(Plain(sub.rows)))
    requires EncodeCrop(crc, box, channels, deflate(Raw(Plain(sub.rows)))) == Ok(cropped)
    ensures Decode(crc, inflate, box.right - box.x, box.bottom - box.y, cropped.bytes) == Ok(sub)
  {
    hide Decode, Raw, Plain, Complete, CropChunks, DataOf, EncodeChunks;
    var width, height, data := box.right - box.x, box.bottom - box.y, deflate(Raw(Plain(sub.rows)));
    CropComplete(width, height, channels, data);
    var cs := CropChunks(width, height, channels, data);
    CropLength(crc, width, height, channels, data);
    assert File(crc, width, height, cropped.bytes, cs, channels);
    NeutralFilter(sub.rows, width * channels, channels);
    ImageRoundTrip(crc, inflate, width, height, cropped.bytes, cs, sub, seq(height, _ => 0));
  }

  lemma CropLength(crc: Checksum, width: nat, height: nat, channels: nat, data: seq<byte>)
    requires width < U32 && height < U32 && |data| <= LINE
    ensures
      var cs := CropChunks(width, height, channels, data);
      AllWritable(cs) && |EncodeChunks(crc, cs)| == 49 + |data|
  {
    hide EncodeChunk, HeaderBody;
    var cs := CropChunks(width, height, channels, data);
    assert cs[1..][0] == cs[1] && cs[1..][1..][0] == cs[2];
    assert |EncodeChunks(crc, cs[1..][1..])| == 12 by {
      assert cs[1..][1..][1..] == [];
    }
  }

  // ---- copying the rows ----

  /** The copy loop: zeroed buffer, one slice per row after its filter byte. */
  method CopyRows(ghost image: Image, pixels: seq<byte>, box: Box, w: nat, ghost h: nat,
                  c: nat) returns (raw: array<byte>)
    requires image.channels == c && |image.rows| == h && Rectangular(image.rows, w * c) && pixels == Flat(image.rows)
    requires 0 <= box.x <= box.right <= w && 0 <= box.y <= box.bottom <= h
    ensures fresh(raw)
    ensures raw[..] == Raw(Plain(Sub(image, box, w, h).rows))
  {
    hide Flat, Sub, Raw, Plain;
    ghost var rows := Sub(image, box, w, h).rows;
    var width, height := (box.right - box.x) * c, box.bottom - box.y;
    var line := width + 1;
    raw := new byte[height * line](_ => 0);
    ScaleOrder(box.x, box.right, w, c);
    RawNone();
    assert rows[..0] == [];
    for r := 0 to height
      invariant 0 <= r * line <= raw.Length
      invariant raw[..r * line] == Raw(Plain(rows[..r]))
      invariant forall i :: r * line <= i < raw.Length ==> raw[i] == 0
    {
      RowOrder(r + 1, height, line);
      RowOffset(r, line);
      SubRow(image, box, w, h, r);
      CopyRow(pixels, ((box.y + r) * w + box.x) * c, width, raw, r * line);
      RawAppend(rows[..r], rows[r]);
      assert rows[..r + 1] == rows[..r] + [rows[r]];
    }
    assert rows[..height] == rows;
    assert raw[..height * line] == raw[..];
  }

  /** One slice of `width` pixels bytes, after a filter byte that stays zero. */
  method CopyRow(pixels: seq<byte>, from: nat, width: nat, raw: array<byte>, at: nat)
    requires from + width <= |pixels| && at + 1 + width <= raw.Length
    requires forall i :: at <= i < raw.Length ==> raw[i] == 0
    modifies raw
    ensures raw[..at + 1 + width] == old(raw[..at]) + ([0] + pixels[from..from + width])
    ensures forall i :: at + 1 + width <= i < raw.Length ==> raw[i] == 0
  {
    forall j | 0 <= j < width {
      raw[at + 1 + j] := pixels[from + j];
    }
  }

  lemma RawNone()
    ensures Raw(Plain([])) == []
  {
  }

  lemma RawAppend(rows: seq<seq<byte>>, row: seq<byte>)
    ensures Raw(Plain(rows + [row])) == Raw(Plain(rows)) + ([0] + row)
  {
    var all := LineRows(Plain(rows + [row]));
    assert all[..|rows|] == LineRows(Plain(rows));
  }

  /** Row `r` of the box sits at one offset of the flat pixels. */
  lemma SubRow(image: Image, box: Box, w: nat, h: nat, r: nat)
    requires |image.rows| == h && Rectangular(image.rows, w * image.channels)
    requires 0 <= box.x <= box.right <= w && 0 <= box.y <= box.bottom <= h && r < box.bottom - box.y
    ensures
      var c := image.channels;
      var from := ((box.y + r) * w + box.x) * c;
      var width := (box.right - box.x) * c;
      0 <= from && from + width <= |Flat(image.rows)|
          && Flat(image.rows)[from..from + width] == Sub(image, box, w, h).rows[r]
  {
    hide Flat;
    var c, y := image.channels, box.y + r;
    FlatSlice(image.rows, w * c, y);
    ScaleOrder(box.x, box.right, w, c);
    OffsetScale(y, w, box.x, c);
    SliceOfSlice(Flat(image.rows), y * (w * c), w * c, box.x * c, box.right * c);
  }

  lemma OffsetScale(y: nat, w: nat, x: nat, c: nat)
    ensures (y * w + x) * c == y * (w * c) + x * c
  {
    assert (y * w) * c == y * (w * c);
  }

  lemma SliceOfSlice(flat: seq<byte>, base: nat, row: nat, a: nat, b: nat)
    requires base + row <= |flat| && a <= b <= row
    ensures flat[base..base + row][a..b] == flat[base + a..base + b]
  {
    var middle := flat[base..base + row];
    forall i | 0 <= i < b - a ensures middle[a..b][i] == flat[base + a..base + b][i] {
      assert middle[a + i] == flat[base + (a + i)];
    }
  }
}
