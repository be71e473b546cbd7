/** The SSE2 detector `fast_corner_detect_10_sse2`. */
module FastSse10 {
  import opened FastCircle
  import opened LaneMasks
  import opened SimdBlocks
  import opened FastDetect
  import ArcHeaders

  // ------------------------------- the `possible &=` steps, block by block

  function Narrow1(ans_b: Mask, ans_e: Mask, ans_m: Mask, ans_p: Mask): (r: Mask)
    ensures r <= ans_b + ans_e
  {
    ((ans_m * ans_b) + (ans_e * ans_p))
  }

  function Narrow2(possible: Mask, ans_b: Mask, ans_e: Mask, ans_o: Mask, ans_n: Mask): (r: Mask)
    ensures r <= possible
  {
    possible *
    (ans_o + (ans_b * ans_n)) *
    (ans_n + (ans_e * ans_o))
  }

  function Narrow3(possible: Mask, ans_m: Mask, ans_p: Mask, ans_o: Mask, ans_n: Mask, ans_h: Mask, ans_k: Mask): (r: Mask)
    ensures r <= possible
  {
    possible *
    (ans_h + (ans_n * ans_k * ans_p)) *
    (ans_k + (ans_m * ans_h * ans_o))
  }

  function Narrow4(possible: Mask, ans_e: Mask, ans_p: Mask, ans_o: Mask, ans_a: Mask, ans_c: Mask): (r: Mask)
    ensures r <= possible
  {
    possible *
    (ans_a + (ans_e * ans_p)) *
    (ans_c + (ans_o * ans_e))
  }

  function Narrow5(possible: Mask, ans_b: Mask, ans_m: Mask, ans_n: Mask, ans_a: Mask, ans_c: Mask, ans_d: Mask, ans_f: Mask): (r: Mask)
    ensures r <= possible
  {
    var ans_abc := ans_a * ans_b * ans_c;
    possible *
    (ans_d + (ans_abc * ans_n)) *
    (ans_f + (ans_m * ans_abc))
  }

  function Narrow6(possible: Mask, ans_p: Mask, ans_n: Mask, ans_k: Mask, ans_c: Mask, ans_f: Mask, ans_g: Mask, ans_i: Mask): (r: Mask)
    ensures r <= possible
  {
    possible *
    (ans_g + (ans_f * ans_p * ans_k)) *
    (ans_i + (ans_c * ans_n * ans_k))
  }

  function Narrow7(possible: Mask, ans_m: Mask, ans_o: Mask, ans_h: Mask, ans_a: Mask, ans_d: Mask, ans_g: Mask, ans_i: Mask, ans_j: Mask, ans_l: Mask): (r: Mask)
    ensures r <= possible
  {
    var ans_ghi := ans_g * ans_h * ans_i;
    possible *
    (ans_j + (ans_d * ans_o * ans_ghi)) *
    (ans_l + (ans_m * ans_a * ans_ghi))
  }

  // What is left after each block, when `a` holds the answers by circle pixel.

  function Stage1(a: seq<Mask>): Mask
    requires |a| == 16
  {
    Narrow1(a[8], a[0], a[10], a[2])
  }

  function Stage2(a: seq<Mask>): Mask
    requires |a| == 16
  {
    Narrow2(Stage1(a), a[8], a[0], a[14], a[6])
  }

  function Stage3(a: seq<Mask>): Mask
    requires |a| == 16
  {
    Narrow3(Stage2(a), a[10], a[2], a[14], a[6], a[12], a[4])
  }

  function Stage4(a: seq<Mask>): Mask
    requires |a| == 16
  {
    Narrow4(Stage3(a), a[0], a[2], a[14], a[9], a[7])
  }

  function Stage5(a: seq<Mask>): Mask
    requires |a| == 16
  {
    Narrow5(Stage4(a), a[8], a[10], a[6], a[9], a[7], a[15], a[1])
  }

  function Stage6(a: seq<Mask>): Mask
    requires |a| == 16
  {
    Narrow6(Stage5(a), a[2], a[6], a[4], a[7], a[1], a[11], a[13])
  }

  function Stage7(a: seq<Mask>): Mask
    requires |a| == 16
  {
    Narrow7(Stage6(a), a[10], a[14], a[12], a[9], a[15], a[11], a[13], a[5], a[3])
  }

  lemma EarlyBlocksKeepArcs(a: seq<Mask>, lane: int)
    requires |a| == 16 && Any10(LaneBits(a, lane))
    ensures lane in Stage5(a)
  {
  }

  lemma BlockKeepsArcs(a: seq<Mask>, lane: int)
    requires |a| == 16 && Any10(LaneBits(a, lane))
    ensures lane in Stage6(a)
  {
    EarlyBlocksKeepArcs(a, lane);
    hide Stage5;
  }

  /** No lane with an arc is dropped. */
  lemma ChainKeepsArcs(a: seq<Mask>, lane: int)
    requires |a| == 16 && Any10(LaneBits(a, lane))
    ensures lane in Stage7(a)
  {
    BlockKeepsArcs(a, lane);
    hide Stage6;
  }

  /** No lane without an arc survives. */
  lemma ChainDropsOthers(a: seq<Mask>, lane: int)
    requires |a| == 16 && lane in Stage7(a)
    ensures Any10(LaneBits(a, lane))
  {
  }

  /** What survives every block is exactly the lanes with an arc. */
  lemma ChainExact(a: seq<Mask>, lane: int)
    requires |a| == 16
    ensures lane in Stage7(a) <==> HasArc(LaneBits(a, lane), 10)
  {
    hide HasArc, Any10, Stage7;
    Arc10WrittenOut(LaneBits(a, lane));
    if Any10(LaneBits(a, lane)) {
      ChainKeepsArcs(a, lane);
    }
    if lane in Stage7(a) {
      ChainDropsOthers(a, lane);
    }
  }

  /** `_mm_insert_epi16(_mm_srli_si128(a, 2), *(unsigned short*)q, 7)`: the register two
      columns to the right, from the one already loaded and one 16-bit load */
  function ShiftIn(a: Lanes, data: seq<Byte>, q: int): Lanes
    requires 0 <= q && q + 2 <= |data|
  {
    a[2..] + data[q..q + 2]
  }

  /** `CHECK_BARRIER` on the register shifted in from the one at address `q - 2`, circle pixel `left` */
  method CheckShifted(img: Image, ghost x: int, ghost y: int, ghost p: int, ghost barrier: Byte, lo: Lanes, hi: Lanes,
                      ghost k: int, ghost left: int, q: int) returns (flags: Mask)
    requires AtBlock(img, x, y, p, barrier, lo, hi) && 0 <= k < 16 && q == p + PixelOffset(k, img.stride)
    requires 0 <= left < 16 && q - 2 == p + PixelOffset(left, img.stride)
    ensures flags == BlockAnswers(img, x, y, barrier)[k]
  {
    LoadCircle(img, x, y, p, k, q);
    LoadCircle(img, x, y, p, left, q - 2);
    var other := ShiftIn(Load(img.data, q - 2), img.data, q + 14);
    assert other == Load(img.data, q);
    flags := CheckBarrierSse(lo, hi, other);
    CheckBarrierSseExact(lo, hi, other);
  }

  /** One `CHECK_BARRIER` on the pixels loaded at address `q`, circle pixel `k` of the block */
  method Check(img: Image, ghost x: int, ghost y: int, ghost p: int, ghost barrier: Byte, lo: Lanes, hi: Lanes,
               ghost k: int, q: int) returns (flags: Mask)
    requires AtBlock(img, x, y, p, barrier, lo, hi) && 0 <= k < 16 && q == p + PixelOffset(k, img.stride)
    ensures flags == BlockAnswers(img, x, y, barrier)[k]
  {
    LoadCircle(img, x, y, p, k, q);
    var other := Load(img.data, q);
    flags := CheckBarrierSse(lo, hi, other);
    CheckBarrierSseExact(lo, hi, other);
  }

  /** The body of the block loop up to the fold: which of the 32 lanes survive */
  method FilterBlock(img: Image, x: int, y: int, barriers: Byte) returns (possible: Mask)
    requires img.Valid() && BlockInner(img, x, y)
    ensures possible == Stage7(BlockAnswers(img, x, y, barriers))
  {
    hide AtBlock, LoLanes, HiLanes, Centres, Load, BlockAnswers, Narrow1, Narrow2, Narrow3, Narrow4, Narrow5, Narrow6, Narrow7;
    ghost var a := BlockAnswers(img, x, y, barriers);
    var w := img.stride;
    var p := y * w + x;
    LoadCentres(img, x, y, p);
    var here := Load(img.data, p);
    var lo := LoLanes(here, barriers);
    var hi := HiLanes(here, barriers);
    StartBlock(img, x, y, p, barriers, lo, hi);
    possible := {};
    var ans_b := Check(img, x, y, p, barriers, lo, hi, 8, p - 3 * w);
    var ans_e := Check(img, x, y, p, barriers, lo, hi, 0, p + 3 * w);
    if ans_b + ans_e == {} {
      return;
    }
    var ans_m := Check(img, x, y, p, barriers, lo, hi, 10, p - 2 - 2 * w);
    var ans_p := Check(img, x, y, p, barriers, lo, hi, 2, p + 2 + 2 * w);
    possible := Narrow1(ans_b, ans_e, ans_m, ans_p);
    if possible == {} {
      return;
    }
    var ans_o := Check(img, x, y, p, barriers, lo, hi, 14, p - 2 + 2 * w);
    var ans_n := Check(img, x, y, p, barriers, lo, hi, 6, p + 2 - 2 * w);
    possible := Narrow2(possible, ans_b, ans_e, ans_o, ans_n);
    if possible == {} {
      return;
    }
    var ans_h := Check(img, x, y, p, barriers, lo, hi, 12, p - 3);
    var ans_k := Check(img, x, y, p, barriers, lo, hi, 4, p + 3);
    possible := Narrow3(possible, ans_m, ans_p, ans_o, ans_n, ans_h, ans_k);
    if possible == {} {
      return;
    }
    var ans_a := Check(img, x, y, p, barriers, lo, hi, 9, p - 1 - 3 * w);
    var ans_c := CheckShifted(img, x, y, p, barriers, lo, hi, 7, 9, p + 1 - 3 * w);
    possible := Narrow4(possible, ans_e, ans_p, ans_o, ans_a, ans_c);
    if possible == {} {
      return;
    }
    var ans_d := Check(img, x, y, p, barriers, lo, hi, 15, p - 1 + 3 * w);
    var ans_f := CheckShifted(img, x, y, p, barriers, lo, hi, 1, 15, p + 1 + 3 * w);
    possible := Narrow5(possible, ans_b, ans_m, ans_n, ans_a, ans_c, ans_d, ans_f);
    if possible == {} {
      return;
    }
    var ans_g := Check(img, x, y, p, barriers, lo, hi, 11, p - 3 - w);
    var ans_i := Check(img, x, y, p, barriers, lo, hi, 13, p - 3 + w);
    possible := Narrow6(possible, ans_p, ans_n, ans_k, ans_c, ans_f, ans_g, ans_i);
    if possible == {} {
      return;
    }
    var ans_j := Check(img, x, y, p, barriers, lo, hi, 5, p + 3 - w);
    var ans_l := Check(img, x, y, p, barriers, lo, hi, 3, p + 3 + w);
    possible := Narrow7(possible, ans_m, ans_o, ans_h, ans_a, ans_d, ans_g, ans_i, ans_j, ans_l);
  }

  /** `is_corner_10<Less> || is_corner_10<Greater>` at address p */
  method TestColumn(img: Image, barrier: Short, x: int, y: int) returns (corner: bool)
    requires img.Valid() && img.Inner(x, y)
    ensures corner <==> ColumnTest(Circle(img, x, y), img.At(x, y), barrier, 10)
  {
    hide HasArc, Circle;
    var circle, here := ReadPixel(img, x, y);
    corner := ArcHeaders.IsCorner10(Below(circle, ToShort(here - barrier)));
    if !corner {
      corner := ArcHeaders.IsCorner10(Above(circle, ToShort(here + barrier)));
    }
  }

  /** The scalar columns `x0 .. x1` of a row */
  method ScanColumns(img: Image, barrier: Short, y: int, x0: int, x1: int, corners: seq<XY>, ghost before: seq<XY>)
    returns (out: seq<XY>)
    requires img.Valid() && 3 <= y < img.height - 3 && 3 <= x0 <= x1 <= img.width - 3
    requires forall x :: x0 <= x < x1 ==> !InBlocks(img, x)
    requires corners == before + RowListed(img, SimdPixels(img, barrier, 10), y, x0)
    ensures out == before + RowListed(img, SimdPixels(img, barrier, 10), y, x1)
  {
    hide ColumnTest, IsCorner, InBlocks;
    out := corners;
    var x := x0;
    while x < x1
      invariant x0 <= x <= x1
      invariant out == before + RowListed(img, SimdPixels(img, barrier, 10), y, x)
    {
      assert !InBlocks(img, x);
      var corner := TestColumn(img, barrier, x, y);
      assert XY(x, y) in SimdPixels(img, barrier, 10) <==> corner;
      if corner {
        out := out + [MakeXY(x, y)];
      }
      x := x + 1;
    }
  }

  /** The block at (x, y) */
  method ScanBlock(img: Image, barrier: Short, x: int, y: int, corners: seq<XY>, ghost before: seq<XY>) returns (out: seq<XY>)
    requires img.Valid() && BlockInner(img, x, y) && forall i :: x <= i < x + 16 ==> InBlocks(img, i)
    requires corners == before + RowListed(img, SimdPixels(img, barrier, 10), y, x)
    ensures out == before + RowListed(img, SimdPixels(img, barrier, 10), y, x + 16)
  {
    hide IsCorner, BlockAnswers, HasArc, ColumnTest, InBlocks;
    ghost var pixels := SimdPixels(img, barrier, 10);
    var b := LaneBarrier(barrier);
    var possible := FilterBlock(img, x, y, b);
    forall lane | 0 <= lane < 32
      ensures lane in possible <==> HasArc(LaneBits(BlockAnswers(img, x, y, b), lane), 10)
    {
      ChainExact(BlockAnswers(img, x, y, b), lane);
    }
    assert BlockPixels(img, pixels, x, y, b, 10);
    if possible != {} {
      out := PushBlock(img, pixels, x, y, b, 10, possible, corners, before);
    } else {
      EmptyBlock(img, pixels, x, y, b, 10, 16);
      out := corners;
    }
  }

  /** One row: columns 3 .. 16, then blocks of 16, then the rest */
  method ScanRow(img: Image, barrier: Short, y: int, xend: int, corners: seq<XY>) returns (out: seq<XY>)
    requires img.Valid() && 3 <= y < img.height - 3 && 22 <= img.width && xend == img.width - 3 - (img.width - 3) % 16
    ensures out == corners + RowListed(img, SimdPixels(img, barrier, 10), y, img.width - 3)
  {
    hide SimdPixels;
    out := ScanColumns(img, barrier, y, 3, 16, corners, corners);
    var x := 16;
    while x < xend
      invariant 16 <= x <= xend && x % 16 == 0
      invariant out == corners + RowListed(img, SimdPixels(img, barrier, 10), y, x)
    {
      out := ScanBlock(img, barrier, x, y, out, corners);
      x := x + 16;
    }
    out := ScanColumns(img, barrier, y, x, img.width - 3, out, corners);
  }

  /** `faster_corner_detect_10` */
  method FasterCornerDetect10(img: Image, barrier: Short, corners: seq<XY>) returns (out: seq<XY>)
    requires img.Valid() && 22 <= img.width
    ensures out == corners + Listed(img, SimdPixels(img, barrier, 10))
    ensures SimdFits(barrier) ==> out == corners + Corners(img, barrier, 10)
  {
    hide SimdPixels, Corners, RowListed, SimdFits;
    ghost var pixels := SimdPixels(img, barrier, 10);
    var xend := img.width - 3;
    xend := xend - (img.width - 3) % 16;
    out := corners;
    var y := 3;
    while y < img.height - 3
      invariant y == 3 || 3 < y <= img.height - 3
      invariant out == corners + RasterListed(img, pixels, y)
    {
      out := ScanRow(img, barrier, y, xend, out);
      EndOfRow(img, pixels, y, img.width - 3);
      y := y + 1;
    }
    EndOfImage(img, pixels, y);
    if SimdFits(barrier) {
      SimdList(img, barrier, 10);
    }
  }

  /** The pixels at which `fast_corner_detect_10_sse2` finds a corner */
  ghost function SsePixels(img: Image, barrier: Short): iset<XY>
    requires img.Valid()
  {
    if img.width < 22 then NestPixels10(img, barrier) else SimdPixels(img, barrier, 10)
  }

  /** The entry point, with its fallbacks for small images: for the barriers that fit, all corners
      of the image. The source's two instances differ only in how they load. */
  method FastCornerDetect10Sse2(img: Image, barrier: Short, corners: seq<XY>) returns (out: seq<XY>)
    requires img.Valid()
    ensures out == corners + Listed(img, SsePixels(img, barrier))
    ensures SimdFits(barrier) ==> out == corners + Corners(img, barrier, 10)
  {
    hide Listed, NestPixels10, SimdPixels, CornerPixels;
    if img.width < 22 {
      out := FastCornerDetect10(img, barrier, corners);
      return;
    } else if img.width < 22 || img.height < 7 {
      NoCorners(img, SsePixels(img, barrier));
      NoCorners(img, CornerPixels(img, barrier, 10));
      return corners;
    }
    out := FasterCornerDetect10(img, barrier, corners);
  }
}
