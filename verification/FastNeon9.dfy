/** The NEON detector `fast_corner_detect_9_neon`. */
module FastNeon9 {
  import opened FastCircle
  import opened LaneMasks
  import opened SimdBlocks
  import opened FastDetect
  import ArcHeaders

  // ------------------------------- the `possible &=` steps, block by block

  function Narrow1(ans_0: Mask, ans_8: Mask): (r: Mask)
  {
    (ans_0 + ans_8)
  }

  function Narrow2(possible: Mask, ans_8: Mask, ans_15: Mask, ans_1: Mask): (r: Mask)
    ensures r <= possible
  {
    possible *
    (ans_8 + (ans_15 * ans_1))
  }

  function Narrow3(possible: Mask, ans_0: Mask, ans_15: Mask, ans_1: Mask, ans_9: Mask, ans_7: Mask): (r: Mask)
    ensures r <= possible
  {
    possible *
    (ans_9 + (ans_0 * ans_1)) *
    (ans_7 + (ans_15 * ans_0))
  }

  function Narrow4(possible: Mask, ans_15: Mask, ans_1: Mask, ans_9: Mask, ans_7: Mask, ans_12: Mask, ans_4: Mask): (r: Mask)
    ensures r <= possible
  {
    possible *
    (ans_12 + (ans_4 * (ans_1 + ans_7))) *
    (ans_4 + (ans_12 * (ans_9 + ans_15)))
  }

  function Narrow5(possible: Mask, ans_0: Mask, ans_8: Mask, ans_15: Mask, ans_1: Mask, ans_9: Mask, ans_7: Mask, ans_12: Mask, ans_4: Mask, ans_14: Mask, ans_6: Mask): (r: Mask)
    ensures r <= possible
  {
    var ans_6_7 := ans_6 * ans_7;
    var ans_14_15 := ans_14 * ans_15;
    possible *
    (ans_14 + (ans_6_7 * (ans_4 + (ans_8 * ans_9)))) *
    (ans_1 + (ans_6_7) + ans_12) *
    (ans_6 + (ans_14_15 * (ans_12 + (ans_0 * ans_1)))) *
    (ans_9 + (ans_14_15) + ans_4)
  }

  function Narrow6(possible: Mask, ans_0: Mask, ans_8: Mask, ans_15: Mask, ans_1: Mask, ans_9: Mask, ans_7: Mask, ans_12: Mask, ans_4: Mask, ans_14: Mask, ans_6: Mask, ans_10: Mask, ans_2: Mask): (r: Mask)
    ensures r <= possible
  {
    var ans_1_2 := ans_1 * ans_2;
    var ans_9_10 := ans_9 * ans_10;
    possible *
    (ans_10 + (ans_1_2 * ((ans_0 * ans_15) + ans_4))) *
    (ans_12 + (ans_1_2) + (ans_6 * ans_7)) *
    (ans_2 + (ans_9_10 * ((ans_7 * ans_8) + ans_12))) *
    (ans_4 + (ans_9_10) + (ans_14 * ans_15)) *
    (ans_8 + ans_14 + ans_2) *
    (ans_0 + ans_10 + ans_6)
  }

  function Narrow7(possible: Mask, ans_0: Mask, ans_8: Mask, ans_15: Mask, ans_1: Mask, ans_9: Mask, ans_7: Mask, ans_12: Mask, ans_4: Mask, ans_14: Mask, ans_6: Mask, ans_10: Mask, ans_2: Mask, ans_13: Mask, ans_5: Mask): (r: Mask)
    ensures r <= possible
  {
    var ans_15_0 := ans_15 * ans_0;
    var ans_7_8 := ans_7 * ans_8;
    var ans_12_13 := ans_12 * ans_13;
    var ans_4_5 := ans_4 * ans_5;
    var ans_9_10 := ans_9 * ans_10;
    possible *
    (ans_5 + (ans_12_13 * ans_14 * ((ans_15_0) + ans_10))) *
    (ans_7 + (ans_1 * ans_2) + (ans_12_13)) *
    (ans_2 + (ans_12_13) + (ans_7_8)) *
    (ans_13 + (ans_4_5 * ans_6 * ((ans_7_8) + ans_2))) *
    (ans_15 + (ans_4_5) + (ans_9_10)) *
    (ans_10 + (ans_4_5) + (ans_15_0)) *
    (ans_15 + (ans_9_10) + (ans_4_5)) *
    (ans_8 + (ans_13 * ans_14) + ans_2) *
    (ans_0 + (ans_5 * ans_6) + ans_10)
  }

  function Narrow8(possible: Mask, ans_0: Mask, ans_8: Mask, ans_15: Mask, ans_1: Mask, ans_9: Mask, ans_7: Mask, ans_12: Mask, ans_4: Mask, ans_14: Mask, ans_6: Mask, ans_10: Mask, ans_2: Mask, ans_13: Mask, ans_5: Mask, ans_11: Mask, ans_3: Mask): (r: Mask)
    ensures r <= possible
  {
    var ans_2_3 := ans_2 * ans_3;
    var ans_11_12 := ans_11 * ans_12;
    var ans_3_4 := ans_3 * ans_4;
    var ans_10_11 := ans_10 * ans_11;
    possible *
    (ans_11 + (ans_2_3 * ans_4 * ((ans_0 * ans_1) + (ans_5 * ans_6)))) *
    (ans_13 + (ans_7 * ans_8) + (ans_2_3)) *
    (ans_8 + (ans_2_3) + (ans_13 * ans_14)) *
    (ans_3 + (ans_10 * ans_11_12 * ((ans_8 * ans_9) + (ans_13 * ans_14)))) *
    (ans_1 + (ans_11_12) + (ans_6 * ans_7)) *
    (ans_6 + (ans_0 * ans_1) + (ans_11_12)) *
    (ans_9 + (ans_3_4) + (ans_14 * ans_15)) *
    (ans_14 + (ans_8 * ans_9) + (ans_3_4)) *
    (ans_5 + (ans_15 * ans_0) + (ans_10_11)) *
    (ans_0 + (ans_10_11) + (ans_5 * ans_6))
  }

  // What is left after each block, when `a` holds the answers by circle pixel:
  // `ans_k` is circle pixel (8 - k) mod 16.

  function Stage1(a: seq<Mask>): Mask
    requires |a| == 16
  {
    Narrow1(a[8], a[0])
  }

  function Stage2(a: seq<Mask>): Mask
    requires |a| == 16
  {
    Narrow2(Stage1(a), a[0], a[9], a[7])
  }

  function Stage3(a: seq<Mask>): Mask
    requires |a| == 16
  {
    Narrow3(Stage2(a), a[8], a[9], a[7], a[15], a[1])
  }

  function Stage4(a: seq<Mask>): Mask
    requires |a| == 16
  {
    Narrow4(Stage3(a), a[9], a[7], a[15], a[1], a[12], a[4])
  }

  function Stage5(a: seq<Mask>): Mask
    requires |a| == 16
  {
    Narrow5(Stage4(a), a[8], a[0], a[9], a[7], a[15], a[1], a[12], a[4], a[10], a[2])
  }

  function Stage6(a: seq<Mask>): Mask
    requires |a| == 16
  {
    Narrow6(Stage5(a), a[8], a[0], a[9], a[7], a[15], a[1], a[12], a[4], a[10], a[2], a[14], a[6])
  }

  function Stage7(a: seq<Mask>): Mask
    requires |a| == 16
  {
    Narrow7(Stage6(a), a[8], a[0], a[9], a[7], a[15], a[1], a[12], a[4], a[10], a[2], a[14], a[6], a[11], a[3])
  }

  function Stage8(a: seq<Mask>): Mask
    requires |a| == 16
  {
    Narrow8(Stage7(a), a[8], a[0], a[9], a[7], a[15], a[1], a[12], a[4], a[10], a[2], a[14], a[6], a[11], a[3], a[13], a[5])
  }

  lemma EarlyBlocksKeepArcs(a: seq<Mask>, lane: int)
    requires |a| == 16 && Any9(LaneBits(a, lane))
    ensures lane in Stage6(a)
  {
  }

  lemma BlockKeepsArcs(a: seq<Mask>, lane: int)
    requires |a| == 16 && Any9(LaneBits(a, lane))
    ensures lane in Stage7(a)
  {
    EarlyBlocksKeepArcs(a, lane);
    hide Stage6;
  }

  /** No lane with an arc is dropped. */
  lemma ChainKeepsArcs(a: seq<Mask>, lane: int)
    requires |a| == 16 && Any9(LaneBits(a, lane))
    ensures lane in Stage8(a)
  {
    BlockKeepsArcs(a, lane);
    hide Stage7;
  }

  /** No lane without an arc survives. */
  lemma ChainDropsOthers(a: seq<Mask>, lane: int)
    requires |a| == 16 && lane in Stage8(a)
    ensures Any9(LaneBits(a, lane))
  {
  }

  /** What survives every block is exactly the lanes with an arc. */
  lemma ChainExact(a: seq<Mask>, lane: int)
    requires |a| == 16
    ensures lane in Stage8(a) <==> HasArc(LaneBits(a, lane), 9)
  {
    hide HasArc, Any9, Stage8;
    Arc9WrittenOut(LaneBits(a, lane));
    if Any9(LaneBits(a, lane)) {
      ChainKeepsArcs(a, lane);
    }
    if lane in Stage8(a) {
      ChainDropsOthers(a, lane);
    }
  }

  /** One `CHECK_BARRIER` on the pixels loaded at address `q`, circle pixel `k` of the block */
  method Check(img: Image, ghost x: int, ghost y: int, ghost p: int, ghost barrier: Byte, lo: Lanes, hi: Lanes,
               ghost k: int, q: int) returns (flags: Mask)
    requires AtBlock(img, x, y, p, barrier, lo, hi) && 0 <= k < 16 && q == p + PixelOffset(k, img.stride)
    ensures flags == BlockAnswers(img, x, y, barrier)[k]
  {
    LoadCircle(img, x, y, p, k, q);
    var other := Load(img.data, q);
    flags := CheckBarrierNeon(lo, hi, other);
    CheckBarrierNeonExact(lo, hi, other);
  }

  /** The body of the block loop up to the fold: which of the 32 lanes survive */
  method FilterBlock(img: Image, x: int, y: int, barriers: Byte) returns (possible: Mask)
    requires img.Valid() && BlockInner(img, x, y)
    ensures possible == Stage8(BlockAnswers(img, x, y, barriers))
  {
    hide AtBlock, LoLanes, HiLanes, Centres, Load, BlockAnswers, Narrow1, Narrow2, Narrow3, Narrow4, Narrow5, Narrow6, Narrow7, Narrow8;
    ghost var a := BlockAnswers(img, x, y, barriers);
    var w := img.stride;
    var p := y * w + x;
    LoadCentres(img, x, y, p);
    var here := Load(img.data, p);
    var lo := LoLanes(here, barriers);
    var hi := HiLanes(here, barriers);
    StartBlock(img, x, y, p, barriers, lo, hi);
    possible := {};
    var ans_0 := Check(img, x, y, p, barriers, lo, hi, 8, p - 3 * w);
    var ans_8 := Check(img, x, y, p, barriers, lo, hi, 0, p + 3 * w);
    possible := Narrow1(ans_0, ans_8);
    if possible == {} {
      return;
    }
    var ans_15 := Check(img, x, y, p, barriers, lo, hi, 9, p - 1 - 3 * w);
    var ans_1 := Check(img, x, y, p, barriers, lo, hi, 7, p + 1 - 3 * w);
    possible := Narrow2(possible, ans_8, ans_15, ans_1);
    if possible == {} {
      return;
    }
    var ans_9 := Check(img, x, y, p, barriers, lo, hi, 15, p - 1 + 3 * w);
    var ans_7 := Check(img, x, y, p, barriers, lo, hi, 1, p + 1 + 3 * w);
    possible := Narrow3(possible, ans_0, ans_15, ans_1, ans_9, ans_7);
    if possible == {} {
      return;
    }
    var ans_12 := Check(img, x, y, p, barriers, lo, hi, 12, p - 3);
    var ans_4 := Check(img, x, y, p, barriers, lo, hi, 4, p + 3);
    possible := Narrow4(possible, ans_15, ans_1, ans_9, ans_7, ans_12, ans_4);
    if possible == {} {
      return;
    }
    var ans_14 := Check(img, x, y, p, barriers, lo, hi, 10, p - 2 - 2 * w);
    var ans_6 := Check(img, x, y, p, barriers, lo, hi, 2, p + 2 + 2 * w);
    possible := Narrow5(possible, ans_0, ans_8, ans_15, ans_1, ans_9, ans_7, ans_12, ans_4, ans_14, ans_6);
    if possible == {} {
      return;
    }
    var ans_10 := Check(img, x, y, p, barriers, lo, hi, 14, p - 2 + 2 * w);
    var ans_2 := Check(img, x, y, p, barriers, lo, hi, 6, p + 2 - 2 * w);
    possible := Narrow6(possible, ans_0, ans_8, ans_15, ans_1, ans_9, ans_7, ans_12, ans_4, ans_14, ans_6, ans_10, ans_2);
    if possible == {} {
      return;
    }
    var ans_13 := Check(img, x, y, p, barriers, lo, hi, 11, p - 3 - w);
    var ans_5 := Check(img, x, y, p, barriers, lo, hi, 3, p + 3 + w);
    possible := Narrow7(possible, ans_0, ans_8, ans_15, ans_1, ans_9, ans_7, ans_12, ans_4, ans_14, ans_6, ans_10, ans_2, ans_13, ans_5);
    if possible == {} {
      return;
    }
    var ans_11 := Check(img, x, y, p, barriers, lo, hi, 13, p - 3 + w);
    var ans_3 := Check(img, x, y, p, barriers, lo, hi, 5, p + 3 - w);
    possible := Narrow8(possible, ans_0, ans_8, ans_15, ans_1, ans_9, ans_7, ans_12, ans_4, ans_14, ans_6, ans_10, ans_2, ans_13, ans_5, ans_11, ans_3);
  }

  /** `is_corner_9<Less> || is_corner_9<Greater>` at address p */
  method TestColumn(img: Image, barrier: Short, x: int, y: int) returns (corner: bool)
    requires img.Valid() && img.Inner(x, y)
    ensures corner <==> ColumnTest(Circle(img, x, y), img.At(x, y), barrier, 9)
  {
    hide HasArc, Circle;
    var circle, here := ReadPixel(img, x, y);
    corner := ArcHeaders.IsCorner9(Below(circle, ToShort(here - barrier)));
    if !corner {
      corner := ArcHeaders.IsCorner9(Above(circle, ToShort(here + barrier)));
    }
  }

  /** The scalar columns `x0 .. x1` of a row */
  method ScanColumns(img: Image, barrier: Short, y: int, x0: int, x1: int, corners: seq<XY>, ghost before: seq<XY>)
    returns (out: seq<XY>)
    requires img.Valid() && 3 <= y < img.height - 3 && 3 <= x0 <= x1 <= img.width - 3
    requires forall x :: x0 <= x < x1 ==> !InBlocks(img, x)
    requires corners == before + RowListed(img, SimdPixels(img, barrier, 9), y, x0)
    ensures out == before + RowListed(img, SimdPixels(img, barrier, 9), y, x1)
  {
    hide ColumnTest, IsCorner, InBlocks;
    out := corners;
    var x := x0;
    while x < x1
      invariant x0 <= x <= x1
      invariant out == before + RowListed(img, SimdPixels(img, barrier, 9), y, x)
    {
      assert !InBlocks(img, x);
      var corner := TestColumn(img, barrier, x, y);
      assert XY(x, y) in SimdPixels(img, barrier, 9) <==> corner;
      if corner {
        out := out + [MakeXY(x, y)];
      }
      x := x + 1;
    }
  }

  /** The block at (x, y) */
  method ScanBlock(img: Image, barrier: Short, x: int, y: int, corners: seq<XY>, ghost before: seq<XY>) returns (out: seq<XY>)
    requires img.Valid() && BlockInner(img, x, y) && forall i :: x <= i < x + 16 ==> InBlocks(img, i)
    requires corners == before + RowListed(img, SimdPixels(img, barrier, 9), y, x)
    ensures out == before + RowListed(img, SimdPixels(img, barrier, 9), y, x + 16)
  {
    hide IsCorner, BlockAnswers, HasArc, ColumnTest, InBlocks;
    ghost var pixels := SimdPixels(img, barrier, 9);
    var b := LaneBarrier(barrier);
    var possible := FilterBlock(img, x, y, b);
    forall lane | 0 <= lane < 32
      ensures lane in possible <==> HasArc(LaneBits(BlockAnswers(img, x, y, b), lane), 9)
    {
      ChainExact(BlockAnswers(img, x, y, b), lane);
    }
    assert BlockPixels(img, pixels, x, y, b, 9);
    if possible != {} {
      out := PushBlock(img, pixels, x, y, b, 9, possible, corners, before);
    } else {
      EmptyBlock(img, pixels, x, y, b, 9, 16);
      out := corners;
    }
  }

  /** One row: columns 3 .. 16, then blocks of 16, then the rest */
  method ScanRow(img: Image, barrier: Short, y: int, xend: int, corners: seq<XY>) returns (out: seq<XY>)
    requires img.Valid() && 3 <= y < img.height - 3 && 22 <= img.width && xend == img.width - 3 - (img.width - 3) % 16
    ensures out == corners + RowListed(img, SimdPixels(img, barrier, 9), y, img.width - 3)
  {
    hide SimdPixels;
    out := ScanColumns(img, barrier, y, 3, 16, corners, corners);
    var x := 16;
    while x < xend
      invariant 16 <= x <= xend && x % 16 == 0
      invariant out == corners + RowListed(img, SimdPixels(img, barrier, 9), y, x)
    {
      out := ScanBlock(img, barrier, x, y, out, corners);
      x := x + 16;
    }
    out := ScanColumns(img, barrier, y, x, img.width - 3, out, corners);
  }

  /** `faster_corner_detect_9` */
  method FasterCornerDetect9(img: Image, barrier: Short, corners: seq<XY>) returns (out: seq<XY>)
    requires img.Valid() && 22 <= img.width
    ensures out == corners + Listed(img, SimdPixels(img, barrier, 9))
    ensures SimdFits(barrier) ==> out == corners + Corners(img, barrier, 9)
  {
    hide SimdPixels, Corners, RowListed, SimdFits;
    ghost var pixels := SimdPixels(img, barrier, 9);
    var xend := img.width - 3;
    xend := xend - (img.width - 3) % 16;
    out := corners;
    var y := 3;
    while y < img.height - 3
      invariant y == 3 || 3 < y <= img.height - 3
      invariant out == corners + RasterListed(img, pixels, y)
    {
      out := ScanRow(img, barrier, y, xend, out);
      EndOfRow(img, pixels, y, img.width - 3);
      y := y + 1;
    }
    EndOfImage(img, pixels, y);
    if SimdFits(barrier) {
      SimdList(img, barrier, 9);
    }
  }

  /** The pixels at which `fast_corner_detect_9_neon` finds a corner */
  ghost function NeonPixels(img: Image, barrier: Short): iset<XY>
    requires img.Valid()
  {
    if img.width < 22 then NestPixels9(img, barrier) else SimdPixels(img, barrier, 9)
  }

  /** The entry point, with its fallbacks for small images: for the barriers that fit, all corners
      of the image. */
  method FastCornerDetect9Neon(img: Image, barrier: Short, corners: seq<XY>) returns (out: seq<XY>)
    requires img.Valid()
    ensures out == corners + Listed(img, NeonPixels(img, barrier))
    ensures SimdFits(barrier) ==> out == corners + Corners(img, barrier, 9)
  {
    hide Listed, NestPixels9, SimdPixels, CornerPixels;
    if img.width < 7 || img.height < 7 {
      NoCorners(img, NeonPixels(img, barrier));
      NoCorners(img, CornerPixels(img, barrier, 9));
      return corners;
    } else if img.width < 22 {
      out := FastCornerDetect9(img, barrier, corners);
    } else {
      out := FasterCornerDetect9(img, barrier, corners);
    }
  }
}
