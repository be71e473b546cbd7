/** What the NEON and the SSE2 detector share: loading 16 neighbouring pixels, reading a
    surviving flag word back into corners, and the scalar columns left and right. */
module SimdBlocks {
  import opened FastCircle
  import opened LaneMasks
  import opened FastDetect

  /** The pixels x .. x + 15 of row y all have their circle inside the image. */
  predicate BlockInner(img: Image, x: int, y: int) {
    3 <= x && x + 16 <= img.width - 3 && 3 <= y < img.height - 3
  }

  /** A 128-bit load */
  function Load(data: seq<Byte>, p: int): Lanes
    requires 0 <= p && p + 16 <= |data|
  {
    data[p..p + 16]
  }

  function CentreLane(img: Image, x: int, y: int, i: int): Byte
    requires img.Valid() && BlockInner(img, x, y) && 0 <= i < 16
  {
    img.At(x + i, y)
  }

  function CircleLane(img: Image, x: int, y: int, k: int, i: int): Byte
    requires img.Valid() && BlockInner(img, x, y) && 0 <= i < 16 && 0 <= k < 16
  {
    CirclePixel(img, x + i, y, k)
  }

  /** The centre pixels of a block */
  function Centres(img: Image, x: int, y: int): (v: seq<Byte>)
    requires img.Valid() && BlockInner(img, x, y)
    ensures |v| == 16
  {
    seq(16, i requires 0 <= i < 16 => CentreLane(img, x, y, i))
  }

  /** Circle pixel `k` of each pixel of a block */
  function CircleLanes(img: Image, x: int, y: int, k: int): (v: seq<Byte>)
    requires img.Valid() && BlockInner(img, x, y) && 0 <= k < 16
    ensures |v| == 16
  {
    seq(16, i requires 0 <= i < 16 => CircleLane(img, x, y, k, i))
  }

  lemma LoadCentres(img: Image, x: int, y: int, p: int)
    requires img.Valid() && BlockInner(img, x, y) && p == y * img.stride + x
    ensures 0 <= p && p + 16 <= |img.data| && Load(img.data, p) == Centres(img, x, y)
  {
    img.InBuffer(x, y);
    img.InBuffer(x + 15, y);
    forall i | 0 <= i < 16 ensures Load(img.data, p)[i] == Centres(img, x, y)[i] {
      img.InBuffer(x + i, y);
    }
  }

  /** A load at the offset of circle pixel `k` reads that pixel for all 16 lanes, inside the buffer. */
  lemma LoadCircle(img: Image, x: int, y: int, p: int, k: int, q: int)
    requires img.Valid() && BlockInner(img, x, y) && 0 <= k < 16
    requires p == y * img.stride + x && q == p + PixelOffset(k, img.stride)
    ensures 0 <= q && q + 16 <= |img.data| && Load(img.data, q) == CircleLanes(img, x, y, k)
  {
    hide PixelOffset;
    CircleAddress(img, x, y, k);
    CircleAddress(img, x + 15, y, k);
    forall i | 0 <= i < 16 ensures Load(img.data, q)[i] == CircleLanes(img, x, y, k)[i] {
      CircleAddress(img, x + i, y, k);
    }
  }

  /** The flag word of circle pixel `k` */
  function PixelAnswers(img: Image, x: int, y: int, barrier: Byte, k: int): Mask
    requires img.Valid() && BlockInner(img, x, y) && 0 <= k < 16
  {
    var here := Centres(img, x, y);
    Answers(LoLanes(here, barrier), HiLanes(here, barrier), CircleLanes(img, x, y, k))
  }

  /** The flag words of the whole circle */
  function BlockAnswers(img: Image, x: int, y: int, barrier: Byte): (a: seq<Mask>)
    requires img.Valid() && BlockInner(img, x, y)
    ensures |a| == 16
  {
    seq(16, k requires 0 <= k < 16 => PixelAnswers(img, x, y, barrier, k))
  }

  /** The answers one lane has round the circle */
  function LaneBits(a: seq<Mask>, lane: int): (r: seq<bool>)
    ensures |r| == |a|
  {
    seq(|a|, k requires 0 <= k < |a| => lane in a[k])
  }

  /** Bit `lane` of a flag word, for the dark and the bright half */
  lemma AnswersBit(lo: Lanes, hi: Lanes, other: Lanes, lane: int)
    requires 0 <= lane < 16
    ensures lane in Answers(lo, hi, other) <==> lo[lane] > other[lane]
    ensures lane + 16 in Answers(lo, hi, other) <==> other[lane] > hi[lane]
  {
    ShiftLeftBit(Greater(other, hi), 16, lane);
    ShiftLeftBit(Greater(other, hi), 16, lane + 16);
  }

  /** The lanes of a block answer exactly the scalar comparisons. */
  lemma LanesAreSides(img: Image, x: int, y: int, barrier: Byte, lane: int)
    requires img.Valid() && BlockInner(img, x, y) && 0 <= lane < 16
    ensures LaneBits(BlockAnswers(img, x, y, barrier), lane) ==
            Below(Circle(img, x + lane, y), img.At(x + lane, y) - barrier)
    ensures LaneBits(BlockAnswers(img, x, y, barrier), lane + 16) ==
            Above(Circle(img, x + lane, y), img.At(x + lane, y) + barrier)
  {
    var here := Centres(img, x, y);
    SaturationExact(barrier);
    forall k | 0 <= k < 16
      ensures lane in PixelAnswers(img, x, y, barrier, k) <==> Circle(img, x + lane, y)[k] < img.At(x + lane, y) - barrier
      ensures lane + 16 in PixelAnswers(img, x, y, barrier, k) <==> Circle(img, x + lane, y)[k] > img.At(x + lane, y) + barrier
    {
      AnswersBit(LoLanes(here, barrier), HiLanes(here, barrier), CircleLanes(img, x, y, k), lane);
      assert LaneExact(barrier, here[lane], CircleLanes(img, x, y, k)[lane]);
    }
  }

  /** The bits that survive are those of the lanes with an `n`-arc. */
  ghost predicate Survivors(possible: Mask, a: seq<Mask>, n: nat)
    requires |a| == 16
  {
    forall lane :: 0 <= lane < 32 ==> (lane in possible <==> HasArc(LaneBits(a, lane), n))
  }

  /** `possible |= possible >> 16` leaves bit `lane` set exactly at the corners of the block. */
  lemma FoldedSurvivors(img: Image, x: int, y: int, barrier: Byte, n: nat, possible: Mask, lane: int)
    requires img.Valid() && BlockInner(img, x, y) && 0 <= lane < 16
    requires Survivors(possible, BlockAnswers(img, x, y, barrier), n)
    ensures lane in possible + ShiftRight(possible, 16) <==> IsCorner(img, x + lane, y, barrier, n)
  {
    ShiftRightBit(possible, 16, lane);
    LanesAreSides(img, x, y, barrier, lane);
  }

  /** Within the block the set holds the pixels that are corners. */
  ghost predicate BlockPixels(img: Image, pixels: iset<XY>, x: int, y: int, barrier: Byte, n: nat)
    requires img.Valid() && BlockInner(img, x, y)
  {
    forall c: XY :: c.y == y && x <= c.x < x + 16 ==> (c in pixels <==> IsCorner(img, c.x, c.y, barrier, n))
  }

  /** The sixteen `if(possible & (1 << lane)) corners.push_back(...)`. */
  method PushBlock(img: Image, ghost pixels: iset<XY>, x: int, y: int, ghost barrier: Byte, ghost n: nat, possible: Mask,
                   corners: seq<XY>, ghost before: seq<XY>)
    returns (out: seq<XY>)
    requires img.Valid() && BlockInner(img, x, y) && BlockPixels(img, pixels, x, y, barrier, n)
    requires Survivors(possible, BlockAnswers(img, x, y, barrier), n)
    requires corners == before + RowListed(img, pixels, y, x)
    ensures out == before + RowListed(img, pixels, y, x + 16)
  {
    hide IsCorner, Survivors;
    var folded := possible + ShiftRight(possible, 16);
    out := corners;
    for lane := 0 to 16
      invariant out == before + RowListed(img, pixels, y, x + lane)
    {
      FoldedSurvivors(img, x, y, barrier, n, possible, lane);
      assert XY(x + lane, y) in pixels <==> lane in folded;
      if lane in folded {
        out := out + [MakeXY(x + lane, y)];
      }
    }
  }

  /** A block from which nothing survives contributes no corner. */
  lemma {:induction false} EmptyBlock(img: Image, pixels: iset<XY>, x: int, y: int, barrier: Byte, n: nat, m: nat)
    requires img.Valid() && BlockInner(img, x, y) && BlockPixels(img, pixels, x, y, barrier, n) && m <= 16
    requires Survivors({}, BlockAnswers(img, x, y, barrier), n)
    ensures RowListed(img, pixels, y, x + m) == RowListed(img, pixels, y, x)
  {
    hide IsCorner, Survivors;
    if m > 0 {
      EmptyBlock(img, pixels, x, y, barrier, n, m - 1);
      FoldedSurvivors(img, x, y, barrier, n, {}, m - 1);
      assert XY(x + m - 1, y) !in pixels;
    }
  }

  // ------------------------------------------------ what is found on a row

  /** The columns that the SIMD detectors test in blocks of 16 */
  predicate InBlocks(img: Image, x: int) {
    16 <= x < img.width - 3 - (img.width - 3) % 16
  }

  /** `is_corner_<n><Less> || is_corner_<n><Greater>`, whose thresholds are `short`s */
  predicate ColumnTest(circle: seq<Byte>, here: Byte, barrier: Short, n: nat)
    requires |circle| == 16
  {
    HasArc(Below(circle, ToShort(here - barrier)), n) || HasArc(Above(circle, ToShort(here + barrier)), n)
  }

  /** The pixels at which a SIMD detector finds a corner: the blocks use the barrier as it fits a byte. */
  ghost function SimdPixels(img: Image, barrier: Short, n: nat): iset<XY>
    requires img.Valid()
  {
    iset c: XY | img.Inner(c.x, c.y) &&
      if InBlocks(img, c.x) then IsCorner(img, c.x, c.y, LaneBarrier(barrier), n)
      else ColumnTest(Circle(img, c.x, c.y), img.At(c.x, c.y), barrier, n)
  }

  /** The barriers for which the SIMD detectors find the corners of every image */
  predicate SimdFits(barrier: int) {
    BarrierFits(barrier) && barrier <= MAX_BARRIER
  }

  lemma ColumnFits(circle: seq<Byte>, here: Byte, barrier: Short, n: nat)
    requires |circle| == 16 && SimdFits(barrier)
    ensures ColumnTest(circle, here, barrier, n) <==> Segment(circle, here, barrier, n)
  {
    NoWrap(here + barrier);
    NoWrap(here - barrier);
    hide ToShort, HasArc;
  }

  /** A barrier above 255 that fits exceeds every difference, as the 255 that is left of it does. */
  lemma LaneFits(circle: seq<Byte>, here: Byte, barrier: Short, n: nat)
    requires |circle| == 16 && BarrierFits(barrier)
    ensures Segment(circle, here, LaneBarrier(barrier), n) <==> Segment(circle, here, barrier, n)
  {
    hide HasArc;
    var b := LaneBarrier(barrier);
    assert Above(circle, here + b) == Above(circle, here + barrier);
    assert Below(circle, here - b) == Below(circle, here - barrier);
  }

  lemma SimdList(img: Image, barrier: Short, n: nat)
    requires img.Valid() && SimdFits(barrier)
    ensures Listed(img, SimdPixels(img, barrier, n)) == Corners(img, barrier, n)
  {
    hide Segment, ColumnTest, Listed, InBlocks, LaneBarrier;
    forall c: XY | img.Inner(c.x, c.y)
      ensures c in SimdPixels(img, barrier, n) <==> c in CornerPixels(img, barrier, n)
    {
      ColumnFits(Circle(img, c.x, c.y), img.At(c.x, c.y), barrier, n);
      LaneFits(Circle(img, c.x, c.y), img.At(c.x, c.y), barrier, n);
    }
    SameListed(img, SimdPixels(img, barrier, n), CornerPixels(img, barrier, n));
  }

  /** The registers of the block at (x, y) */
  ghost predicate AtBlock(img: Image, x: int, y: int, p: int, barrier: Byte, lo: Lanes, hi: Lanes) {
    img.Valid() && BlockInner(img, x, y) && p == y * img.stride + x &&
    lo == LoLanes(Centres(img, x, y), barrier) && hi == HiLanes(Centres(img, x, y), barrier)
  }

  lemma StartBlock(img: Image, x: int, y: int, p: int, barrier: Byte, lo: Lanes, hi: Lanes)
    requires img.Valid() && BlockInner(img, x, y) && p == y * img.stride + x
    requires lo == LoLanes(Centres(img, x, y), barrier) && hi == HiLanes(Centres(img, x, y), barrier)
    ensures AtBlock(img, x, y, p, barrier, lo, hi)
  {
  }

  /** A pixel and its circle, read through addresses as `is_corner_9` and `is_corner_10` do */
  method ReadPixel(img: Image, x: int, y: int) returns (circle: seq<Byte>, here: Byte)
    requires img.Valid() && img.Inner(x, y)
    ensures circle == Circle(img, x, y) && here == img.At(x, y)
  {
    hide PixelOffset;
    var p := y * img.stride + x;
    img.InBuffer(x, y);
    here := img.data[p];
    circle := [];
    for k := 0 to 16
      invariant circle == Circle(img, x, y)[..k]
    {
      CircleAddress(img, x, y, k);
      circle := circle + [img.data[p + PixelOffset(k, img.stride)]];
    }
  }
}
