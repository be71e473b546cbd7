/** The scalar detectors `fast_corner_detect_9` and `fast_corner_detect_10`. */
module FastDetect {
  import opened FastCircle
  import opened SegmentTree
  import Fast9Tree
  import Fast10Tree

  /** Entry `k` of the offset table, as the source writes it. */
  function PixelOffset(k: int, stride: int): int
    requires 0 <= k < 16
  {
    match k
    case 0 => 0 + 3 * stride case 1 => 1 + 3 * stride case 2 => 2 + 2 * stride case 3 => 3 + 1 * stride
    case 4 => 3 + 0 * stride case 5 => 3 - 1 * stride case 6 => 2 - 2 * stride case 7 => 1 - 3 * stride
    case 8 => 0 - 3 * stride case 9 => -1 - 3 * stride case 10 => -2 - 2 * stride case 11 => -3 - 1 * stride
    case 12 => -3 + 0 * stride case 13 => -3 + 1 * stride case 14 => -2 + 2 * stride case _ => -1 + 3 * stride
  }

  ghost predicate IsOffsetTable(pixel: array<int>, stride: int)
    reads pixel
  {
    pixel.Length == 16 &&
    pixel[0] == PixelOffset(0, stride) && pixel[1] == PixelOffset(1, stride) && pixel[2] == PixelOffset(2, stride) && pixel[3] == PixelOffset(3, stride) &&
    pixel[4] == PixelOffset(4, stride) && pixel[5] == PixelOffset(5, stride) && pixel[6] == PixelOffset(6, stride) && pixel[7] == PixelOffset(7, stride) &&
    pixel[8] == PixelOffset(8, stride) && pixel[9] == PixelOffset(9, stride) && pixel[10] == PixelOffset(10, stride) && pixel[11] == PixelOffset(11, stride) &&
    pixel[12] == PixelOffset(12, stride) && pixel[13] == PixelOffset(13, stride) && pixel[14] == PixelOffset(14, stride) && pixel[15] == PixelOffset(15, stride)
  }

  /** Entry `k` leads to the pixel that the circle's table names. */
  lemma OffsetOf(pixel: array<int>, stride: int)
    requires IsOffsetTable(pixel, stride)
    ensures forall k :: 0 <= k < 16 ==> pixel[k] == OffX(k) + OffY(k) * stride
  {
    forall k | 0 <= k < 16
      ensures pixel[k] == PixelOffset(k, stride) == OffX(k) + OffY(k) * stride
    {
    }
  }

  /** `make_offsets`: the addresses of the circle relative to its centre. */
  method MakeOffsets(pixel: array<int>, rowStride: int)
    requires pixel.Length == 16
    modifies pixel
    ensures IsOffsetTable(pixel, rowStride)
    ensures forall k :: 0 <= k < 16 ==> pixel[k] == OffX(k) + OffY(k) * rowStride
  {
    hide OffX, OffY;
    pixel[0], pixel[1], pixel[2], pixel[3] :=
      0 + rowStride * 3, 1 + rowStride * 3, 2 + rowStride * 2, 3 + rowStride * 1;
    pixel[4], pixel[5], pixel[6], pixel[7] :=
      3 + rowStride * 0, 3 + rowStride * -1, 2 + rowStride * -2, 1 + rowStride * -3;
    pixel[8], pixel[9], pixel[10], pixel[11] :=
      0 + rowStride * -3, -1 + rowStride * -3, -2 + rowStride * -2, -3 + rowStride * -1;
    pixel[12], pixel[13], pixel[14], pixel[15] :=
      -3 + rowStride * 0, -3 + rowStride * 1, -2 + rowStride * 2, -1 + rowStride * 3;
    OffsetOf(pixel, rowStride);
  }

  /** The address of circle pixel `k` of (x, y), inside the buffer. */
  lemma CircleAddress(img: Image, x: int, y: int, k: int)
    requires img.Valid() && img.Inner(x, y) && 0 <= k < 16
    ensures 0 <= y * img.stride + x + PixelOffset(k, img.stride) < |img.data|
    ensures img.data[y * img.stride + x + PixelOffset(k, img.stride)] == CirclePixel(img, x, y, k)
  {
    assert PixelOffset(k, img.stride) == OffX(k) + OffY(k) * img.stride;
    assert (y + OffY(k)) * img.stride == y * img.stride + OffY(k) * img.stride;
    img.InBuffer(x + OffX(k), y + OffY(k));
  }

  /** Reading the circle through the offset table. */
  method ReadCircle(img: Image, p: int, pixel: array<int>, ghost x: int, ghost y: int) returns (c: seq<Byte>)
    requires img.Valid() && img.Inner(x, y) && p == y * img.stride + x
    requires IsOffsetTable(pixel, img.stride)
    ensures c == Circle(img, x, y)
  {
    c := [];
    for k := 0 to 16
      invariant c == Circle(img, x, y)[..k]
    {
      CircleAddress(img, x, y, k);
      c := c + [img.data[p + pixel[k]]];
    }
  }

  // ----------------------------------------------- the nests on one circle

  /** The largest barrier for which `*p + barrier` fits a `short` for every pixel */
  const MAX_BARRIER := 0x7fff - 255

  /** The nest of `fast_corner_detect_9`, with its thresholds `cb` and `c_b` in `short`s */
  predicate Nest9(circle: seq<Byte>, here: Byte, barrier: Short)
    requires |circle| == 16
  {
    Decide(Fast9Tree.Whole(), Above(circle, ToShort(here + barrier)), Below(circle, ToShort(here - barrier)))
  }

  /** The nest of `fast_corner_detect_10`, with its thresholds in `int`s */
  predicate Nest10(circle: seq<Byte>, here: Byte, barrier: Short)
    requires |circle| == 16
  {
    Decide(Fast10Tree.Whole(), Above(circle, here + barrier), Below(circle, here - barrier))
  }

  /** The barriers for which the nests compute the segment test: not those for which a pixel can be
      bright and dark at once, nor, for `short` thresholds, those that overflow. */
  predicate ScalarFits9(barrier: Short) {
    barrier <= -256 || 0 <= barrier <= MAX_BARRIER
  }

  predicate ScalarFits10(barrier: Short) {
    barrier <= -256 || 0 <= barrier
  }

  predicate AllSet(r: seq<bool>) {
    forall k :: 0 <= k < |r| ==> r[k]
  }

  lemma AllBright9(br: seq<bool>, dk: seq<bool>)
    requires |br| == |dk| == 16 && AllSet(br)
    ensures Decide(Fast9Tree.Whole(), br, dk)
  {
  }

  lemma AllBright10(br: seq<bool>, dk: seq<bool>)
    requires |br| == |dk| == 16 && AllSet(br)
    ensures Decide(Fast10Tree.Whole(), br, dk)
  {
  }

  /** Below -255 every pixel exceeds the threshold. */
  lemma AllAbove(circle: seq<Byte>, here: Byte, barrier: Short, n: nat)
    requires |circle| == 16 && barrier <= -256 && n <= 16
    ensures AllSet(Above(circle, here + barrier))
    ensures Segment(circle, here, barrier, n)
  {
    assert ArcFrom(Above(circle, here + barrier), 0, n);
  }

  lemma NoWrap(v: int)
    requires -0x8000 <= v < 0x8000
    ensures ToShort(v) == v
  {
  }

  lemma RingDecides(t: Tree, circle: seq<Byte>, here: Byte, barrier: Short, n: nat)
    requires |circle| == 16 && 0 <= barrier
    requires (t == Fast9Tree.Whole() && n == 9) || (t == Fast10Tree.Whole() && n == 10)
    ensures Decide(t, Above(circle, here + barrier), Below(circle, here - barrier)) <==> Segment(circle, here, barrier, n)
  {
    hide Decide;
    ThresholdsMakeRing(circle, here + barrier, here - barrier);
    Fast9Tree.WholeDecides();
    Fast10Tree.WholeDecides();
  }

  lemma Nest9Fits(circle: seq<Byte>, here: Byte, barrier: Short)
    requires |circle| == 16 && ScalarFits9(barrier)
    ensures Nest9(circle, here, barrier) <==> Segment(circle, here, barrier, 9)
  {
    hide Decide, Segment, ToShort, Above, Below;
    NoWrap(here + barrier);
    if barrier < 0 {
      AllAbove(circle, here, barrier, 9);
      AllBright9(Above(circle, here + barrier), Below(circle, ToShort(here - barrier)));
    } else {
      NoWrap(here - barrier);
      RingDecides(Fast9Tree.Whole(), circle, here, barrier, 9);
    }
  }

  lemma Nest10Fits(circle: seq<Byte>, here: Byte, barrier: Short)
    requires |circle| == 16 && ScalarFits10(barrier)
    ensures Nest10(circle, here, barrier) <==> Segment(circle, here, barrier, 10)
  {
    hide Decide, Segment, Above, Below;
    if barrier < 0 {
      AllAbove(circle, here, barrier, 10);
      AllBright10(Above(circle, here + barrier), Below(circle, here - barrier));
    } else {
      RingDecides(Fast10Tree.Whole(), circle, here, barrier, 10);
    }
  }

  // ------------------------------------------------------- the detectors

  /** The pixels at which `fast_corner_detect_9` finds a corner */
  ghost function NestPixels9(img: Image, barrier: Short): iset<XY>
    requires img.Valid()
  {
    iset c: XY | img.Inner(c.x, c.y) && Nest9(Circle(img, c.x, c.y), img.At(c.x, c.y), barrier)
  }

  ghost function NestPixels10(img: Image, barrier: Short): iset<XY>
    requires img.Valid()
  {
    iset c: XY | img.Inner(c.x, c.y) && Nest10(Circle(img, c.x, c.y), img.At(c.x, c.y), barrier)
  }

  lemma NestList9(img: Image, barrier: Short)
    requires img.Valid() && ScalarFits9(barrier)
    ensures Listed(img, NestPixels9(img, barrier)) == Corners(img, barrier, 9)
  {
    hide Nest9, Segment, Listed;
    forall c: XY | img.Inner(c.x, c.y)
      ensures c in NestPixels9(img, barrier) <==> c in CornerPixels(img, barrier, 9)
    {
      Nest9Fits(Circle(img, c.x, c.y), img.At(c.x, c.y), barrier);
    }
    SameListed(img, NestPixels9(img, barrier), CornerPixels(img, barrier, 9));
  }

  lemma NestList10(img: Image, barrier: Short)
    requires img.Valid() && ScalarFits10(barrier)
    ensures Listed(img, NestPixels10(img, barrier)) == Corners(img, barrier, 10)
  {
    hide Nest10, Segment, Listed;
    forall c: XY | img.Inner(c.x, c.y)
      ensures c in NestPixels10(img, barrier) <==> c in CornerPixels(img, barrier, 10)
    {
      Nest10Fits(Circle(img, c.x, c.y), img.At(c.x, c.y), barrier);
    }
    SameListed(img, NestPixels10(img, barrier), CornerPixels(img, barrier, 10));
  }

  /** The body of the pixel loop of `fast_corner_detect_9`, at address `p` */
  method TestPixel9(img: Image, barrier: Short, pixel: array<int>, p: int, ghost x: int, ghost y: int) returns (corner: bool)
    requires img.Valid() && img.Inner(x, y) && p == y * img.stride + x && IsOffsetTable(pixel, img.stride)
    ensures corner <==> XY(x, y) in NestPixels9(img, barrier)
    ensures ScalarFits9(barrier) ==> (corner <==> IsCorner(img, x, y, barrier, 9))
  {
    hide Decide, Segment, ToShort, Circle;
    img.InBuffer(x, y);
    var here := img.data[p];
    var cb: Short := ToShort(here + barrier);
    var c_b: Short := ToShort(here - barrier);
    var circle := ReadCircle(img, p, pixel, x, y);
    corner := Decide(Fast9Tree.Whole(), Above(circle, cb), Below(circle, c_b));
    if ScalarFits9(barrier) {
      Nest9Fits(circle, here, barrier);
    }
  }

  /** The body of the pixel loop of `fast_corner_detect_10`, at address `p` */
  method TestPixel10(img: Image, barrier: Short, pixel: array<int>, p: int, ghost x: int, ghost y: int) returns (corner: bool)
    requires img.Valid() && img.Inner(x, y) && p == y * img.stride + x && IsOffsetTable(pixel, img.stride)
    ensures corner <==> XY(x, y) in NestPixels10(img, barrier)
    ensures ScalarFits10(barrier) ==> (corner <==> IsCorner(img, x, y, barrier, 10))
  {
    hide Decide, Segment, ToShort, Circle;
    img.InBuffer(x, y);
    var here := img.data[p];
    var cb: int := here + barrier;
    var c_b: int := here - barrier;
    var circle := ReadCircle(img, p, pixel, x, y);
    corner := Decide(Fast10Tree.Whole(), Above(circle, cb), Below(circle, c_b));
    if ScalarFits10(barrier) {
      Nest10Fits(circle, here, barrier);
    }
  }

  /** Where the scan of a row ends: behind the last inner column, or where it started */
  function RowEnd(img: Image): int {
    if img.width - 3 < 3 then 3 else img.width - 3
  }

  /** The inner loop of `fast_corner_detect_9` */
  method ScanRow9(img: Image, barrier: Short, pixel: array<int>, y: int, corners: seq<XY>) returns (out: seq<XY>)
    requires img.Valid() && 3 <= y < img.height - 3 && IsOffsetTable(pixel, img.stride)
    ensures out == corners + RowListed(img, NestPixels9(img, barrier), y, RowEnd(img))
  {
    hide IsOffsetTable, NestPixels9;
    out := corners;
    var x := 3;
    while x < img.width - 3
      invariant 3 <= x <= RowEnd(img)
      invariant out == corners + RowListed(img, NestPixels9(img, barrier), y, x)
    {
      var corner := TestPixel9(img, barrier, pixel, y * img.stride + x, x, y);
      if corner {
        out := out + [MakeXY(x, y)];
      }
      x := x + 1;
    }
  }

  /** `fast_corner_detect_9`: for the barriers that fit, all corners of the image */
  method FastCornerDetect9(img: Image, barrier: Short, corners: seq<XY>) returns (out: seq<XY>)
    requires img.Valid()
    ensures out == corners + Listed(img, NestPixels9(img, barrier))
    ensures ScalarFits9(barrier) ==> out == corners + Corners(img, barrier, 9)
  {
    hide IsOffsetTable, NestPixels9, Corners;
    ghost var pixels := NestPixels9(img, barrier);
    var pixel := new int[16];
    MakeOffsets(pixel, img.stride);
    out := corners;
    var y := 3;
    while y < img.height - 3
      invariant IsOffsetTable(pixel, img.stride)
      invariant y == 3 || 3 < y <= img.height - 3
      invariant out == corners + RasterListed(img, pixels, y)
    {
      out := ScanRow9(img, barrier, pixel, y, out);
      EndOfRow(img, pixels, y, RowEnd(img));
      y := y + 1;
    }
    EndOfImage(img, pixels, y);
    if ScalarFits9(barrier) {
      NestList9(img, barrier);
    }
  }

  /** The pixel loop of `fast_corner_detect_10` */
  method ScanRow10(img: Image, barrier: Short, pixel: array<int>, y: int, corners: seq<XY>) returns (out: seq<XY>)
    requires img.Valid() && 3 <= y < img.height - 3 && IsOffsetTable(pixel, img.stride)
    ensures out == corners + RowListed(img, NestPixels10(img, barrier), y, RowEnd(img))
  {
    hide IsOffsetTable, NestPixels10;
    var line := y * img.stride;
    var cache := line + 3;
    var lineMin := cache - 3;
    var lineMax := line + img.width - 3;
    out := corners;
    while cache < lineMax
      invariant 3 <= cache - lineMin <= RowEnd(img)
      invariant out == corners + RowListed(img, NestPixels10(img, barrier), y, cache - lineMin)
    {
      var corner := TestPixel10(img, barrier, pixel, cache, cache - lineMin, y);
      if corner {
        out := out + [MakeXY(cache - lineMin, y)];
      }
      cache := cache + 1;
    }
  }

  /** `fast_corner_detect_10`: the same scan, with a pointer running along the row */
  method FastCornerDetect10(img: Image, barrier: Short, corners: seq<XY>) returns (out: seq<XY>)
    requires img.Valid()
    ensures out == corners + Listed(img, NestPixels10(img, barrier))
    ensures ScalarFits10(barrier) ==> out == corners + Corners(img, barrier, 10)
  {
    hide IsOffsetTable, NestPixels10, Corners;
    ghost var pixels := NestPixels10(img, barrier);
    var pixel := new int[16];
    MakeOffsets(pixel, img.stride);
    out := corners;
    var y := 3;
    while y < img.height - 3
      invariant IsOffsetTable(pixel, img.stride)
      invariant y == 3 || 3 < y <= img.height - 3
      invariant out == corners + RasterListed(img, pixels, y)
    {
      out := ScanRow10(img, barrier, pixel, y, out);
      EndOfRow(img, pixels, y, RowEnd(img));
      y := y + 1;
    }
    EndOfImage(img, pixels, y);
    if ScalarFits10(barrier) {
      NestList10(img, barrier);
    }
  }
}
