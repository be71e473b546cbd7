/** The geometry shared by every FAST detector: images, the 16-pixel circle, the
    segment test, and the raster-ordered list of corners it defines.

    Everything else in the corner pipeline (decision trees, lane masks, scores) is a
    fast form of the definitions in this module. */
module FastCircle {

  /** `fast_byte` */
  type Byte = x: int | 0 <= x < 256

  /** `short`, the type of the barriers */
  type Short = x: int | -0x8000 <= x < 0x8000

  /** `fast_xy`: both coordinates are 16-bit signed integers. */
  datatype XY = XY(x: int, y: int)

  /** Conversion of an `int` to the 16-bit `short`, which wraps around. */
  function ToShort(v: int): Short {
    (v + 0x8000) % 0x1_0000 - 0x8000
  }

  /** `fast_xy(x, y)` as the detectors build it from `int` loop counters. */
  function MakeXY(x: int, y: int): XY {
    XY(ToShort(x), ToShort(y))
  }

  /** A grey image: `data[y * stride + x]` is the pixel in column `x` of row `y`. */
  datatype Image = Image(data: seq<Byte>, width: int, height: int, stride: nat) {

    /** The buffer reaches to the last pixel of the last row. */
    predicate Valid() {
      0 < width && 0 < height ==> stride * (height - 1) + width <= |data|
    }

    lemma InBuffer(x: int, y: int)
      requires Valid() && 0 <= x < width && 0 <= y < height
      ensures 0 <= y * stride + x < |data|
    {
      assert y * stride <= (height - 1) * stride;
    }

    function At(x: int, y: int): Byte
      requires Valid() && 0 <= x < width && 0 <= y < height
    {
      InBuffer(x, y);
      data[y * stride + x]
    }

    /** The pixel has its whole circle inside the image. */
    predicate Inner(x: int, y: int) {
      3 <= x < width - 3 && 3 <= y < height - 3
    }
  }

  /** Every listed pixel has its whole circle inside the image. */
  ghost predicate AllInner(img: Image, cs: seq<XY>) {
    forall i :: 0 <= i < |cs| ==> img.Inner(cs[i].x, cs[i].y)
  }

  // ---------------------------------------------------------------- circle

  /** Column offset of circle pixel `k`; the numbering starts below the centre. */
  function OffX(k: int): int
    requires 0 <= k < 16
    ensures -3 <= OffX(k) <= 3
  {
    match k
    case 0 => 0 case 1 => 1 case 2 => 2 case 3 => 3
    case 4 => 3 case 5 => 3 case 6 => 2 case 7 => 1
    case 8 => 0 case 9 => -1 case 10 => -2 case 11 => -3
    case 12 => -3 case 13 => -3 case 14 => -2 case _ => -1
  }

  /** Row offset of circle pixel `k`. */
  function OffY(k: int): int
    requires 0 <= k < 16
    ensures -3 <= OffY(k) <= 3
  {
    match k
    case 0 => 3 case 1 => 3 case 2 => 2 case 3 => 1
    case 4 => 0 case 5 => -1 case 6 => -2 case 7 => -3
    case 8 => -3 case 9 => -3 case 10 => -2 case 11 => -1
    case 12 => 0 case 13 => 1 case 14 => 2 case _ => 3
  }

  /** Circle pixel `k` around (x, y). */
  function CirclePixel(img: Image, x: int, y: int, k: int): Byte
    requires img.Valid() && img.Inner(x, y) && 0 <= k < 16
  {
    img.At(x + OffX(k), y + OffY(k))
  }

  /** The circle around (x, y), as the values of its 16 pixels. */
  function Circle(img: Image, x: int, y: int): (c: seq<Byte>)
    requires img.Valid() && img.Inner(x, y)
    ensures |c| == 16
  {
    seq(16, k requires 0 <= k < 16 => CirclePixel(img, x, y, k))
  }

  /** Which circle pixels exceed `cb`. */
  function Above(c: seq<Byte>, cb: int): (r: seq<bool>)
    ensures |r| == |c|
  {
    seq(|c|, k requires 0 <= k < |c| => c[k] > cb)
  }

  /** Which circle pixels are under `c_b`. */
  function Below(c: seq<Byte>, c_b: int): (r: seq<bool>)
    ensures |r| == |c|
  {
    seq(|c|, k requires 0 <= k < |c| => c[k] < c_b)
  }

  // ------------------------------------------------------------------ arcs

  /** The `n` pixels from `s` on, going round the circle, are all set. */
  predicate ArcFrom(r: seq<bool>, s: int, n: nat)
    requires |r| == 16
  {
    forall i :: s <= i < s + n ==> r[i % 16]
  }

  /** Some `n` contiguous pixels of the circle are all set. */
  predicate HasArc(r: seq<bool>, n: nat)
    requires |r| == 16
  {
    exists s :: 0 <= s < 16 && ArcFrom(r, s, n)
  }

  /** The segment test: `n` contiguous circle pixels all brighter than `c + b`, or all
      darker than `c - b`. */
  predicate Segment(circle: seq<Byte>, c: int, b: int, n: nat)
    requires |circle| == 16
  {
    HasArc(Above(circle, c + b), n) || HasArc(Below(circle, c - b), n)
  }

  predicate IsCorner(img: Image, x: int, y: int, b: int, n: nat)
    requires img.Valid() && img.Inner(x, y)
  {
    Segment(Circle(img, x, y), img.At(x, y), b, n)
  }

  /** A corner at some barrier is a corner at every smaller one. */
  lemma SegmentAntitone(circle: seq<Byte>, c: int, b: int, b': int, n: nat)
    requires |circle| == 16 && b <= b'
    ensures Segment(circle, c, b', n) ==> Segment(circle, c, b, n)
  {
    if HasArc(Above(circle, c + b'), n) {
      var s :| 0 <= s < 16 && ArcFrom(Above(circle, c + b'), s, n);
      assert ArcFrom(Above(circle, c + b), s, n) by {
        forall i | s <= i < s + n ensures Above(circle, c + b)[i % 16] {
          assert Above(circle, c + b')[i % 16];
        }
      }
    } else if HasArc(Below(circle, c - b'), n) {
      var s :| 0 <= s < 16 && ArcFrom(Below(circle, c - b'), s, n);
      assert ArcFrom(Below(circle, c - b), s, n) by {
        forall i | s <= i < s + n ensures Below(circle, c - b)[i % 16] {
          assert Below(circle, c - b')[i % 16];
        }
      }
    }
  }

  // ---------------------------------------------------- arcs, written out

  predicate Any9(r: seq<bool>)
    requires |r| == 16
  {
    (r[0] && r[1] && r[2] && r[3] && r[4] && r[5] && r[6] && r[7] && r[8]) ||
    (r[1] && r[2] && r[3] && r[4] && r[5] && r[6] && r[7] && r[8] && r[9]) ||
    (r[2] && r[3] && r[4] && r[5] && r[6] && r[7] && r[8] && r[9] && r[10]) ||
    (r[3] && r[4] && r[5] && r[6] && r[7] && r[8] && r[9] && r[10] && r[11]) ||
    (r[4] && r[5] && r[6] && r[7] && r[8] && r[9] && r[10] && r[11] && r[12]) ||
    (r[5] && r[6] && r[7] && r[8] && r[9] && r[10] && r[11] && r[12] && r[13]) ||
    (r[6] && r[7] && r[8] && r[9] && r[10] && r[11] && r[12] && r[13] && r[14]) ||
    (r[7] && r[8] && r[9] && r[10] && r[11] && r[12] && r[13] && r[14] && r[15]) ||
    (r[8] && r[9] && r[10] && r[11] && r[12] && r[13] && r[14] && r[15] && r[0]) ||
    (r[9] && r[10] && r[11] && r[12] && r[13] && r[14] && r[15] && r[0] && r[1]) ||
    (r[10] && r[11] && r[12] && r[13] && r[14] && r[15] && r[0] && r[1] && r[2]) ||
    (r[11] && r[12] && r[13] && r[14] && r[15] && r[0] && r[1] && r[2] && r[3]) ||
    (r[12] && r[13] && r[14] && r[15] && r[0] && r[1] && r[2] && r[3] && r[4]) ||
    (r[13] && r[14] && r[15] && r[0] && r[1] && r[2] && r[3] && r[4] && r[5]) ||
    (r[14] && r[15] && r[0] && r[1] && r[2] && r[3] && r[4] && r[5] && r[6]) ||
    (r[15] && r[0] && r[1] && r[2] && r[3] && r[4] && r[5] && r[6] && r[7])
  }

  predicate Any10(r: seq<bool>)
    requires |r| == 16
  {
    (r[0] && r[1] && r[2] && r[3] && r[4] && r[5] && r[6] && r[7] && r[8] && r[9]) ||
    (r[1] && r[2] && r[3] && r[4] && r[5] && r[6] && r[7] && r[8] && r[9] && r[10]) ||
    (r[2] && r[3] && r[4] && r[5] && r[6] && r[7] && r[8] && r[9] && r[10] && r[11]) ||
    (r[3] && r[4] && r[5] && r[6] && r[7] && r[8] && r[9] && r[10] && r[11] && r[12]) ||
    (r[4] && r[5] && r[6] && r[7] && r[8] && r[9] && r[10] && r[11] && r[12] && r[13]) ||
    (r[5] && r[6] && r[7] && r[8] && r[9] && r[10] && r[11] && r[12] && r[13] && r[14]) ||
    (r[6] && r[7] && r[8] && r[9] && r[10] && r[11] && r[12] && r[13] && r[14] && r[15]) ||
    (r[7] && r[8] && r[9] && r[10] && r[11] && r[12] && r[13] && r[14] && r[15] && r[0]) ||
    (r[8] && r[9] && r[10] && r[11] && r[12] && r[13] && r[14] && r[15] && r[0] && r[1]) ||
    (r[9] && r[10] && r[11] && r[12] && r[13] && r[14] && r[15] && r[0] && r[1] && r[2]) ||
    (r[10] && r[11] && r[12] && r[13] && r[14] && r[15] && r[0] && r[1] && r[2] && r[3]) ||
    (r[11] && r[12] && r[13] && r[14] && r[15] && r[0] && r[1] && r[2] && r[3] && r[4]) ||
    (r[12] && r[13] && r[14] && r[15] && r[0] && r[1] && r[2] && r[3] && r[4] && r[5]) ||
    (r[13] && r[14] && r[15] && r[0] && r[1] && r[2] && r[3] && r[4] && r[5] && r[6]) ||
    (r[14] && r[15] && r[0] && r[1] && r[2] && r[3] && r[4] && r[5] && r[6] && r[7]) ||
    (r[15] && r[0] && r[1] && r[2] && r[3] && r[4] && r[5] && r[6] && r[7] && r[8])
  }

  /** The nine pixels from `s` on. */
  predicate Run9(r: seq<bool>, s: int)
    requires |r| == 16 && 0 <= s < 16
  {
    r[s] && r[(s + 1) % 16] && r[(s + 2) % 16] && r[(s + 3) % 16] && r[(s + 4) % 16] &&
    r[(s + 5) % 16] && r[(s + 6) % 16] && r[(s + 7) % 16] && r[(s + 8) % 16]
  }

  lemma RunIsArc(r: seq<bool>, s: int)
    requires |r| == 16 && 0 <= s < 16
    ensures Run9(r, s) <==> ArcFrom(r, s, 9)
    ensures Run9(r, s) && r[(s + 9) % 16] <==> ArcFrom(r, s, 10)
  {
    assert r[s] == r[s % 16];
  }

  lemma Arc9WrittenOut(r: seq<bool>)
    requires |r| == 16
    ensures HasArc(r, 9) <==> Any9(r)
  {
    forall s | 0 <= s < 16 ensures Run9(r, s) <==> ArcFrom(r, s, 9) {
      RunIsArc(r, s);
    }
    assert Any9(r) <==>
      Run9(r, 0) || Run9(r, 1) || Run9(r, 2) || Run9(r, 3) ||
      Run9(r, 4) || Run9(r, 5) || Run9(r, 6) || Run9(r, 7) ||
      Run9(r, 8) || Run9(r, 9) || Run9(r, 10) || Run9(r, 11) ||
      Run9(r, 12) || Run9(r, 13) || Run9(r, 14) || Run9(r, 15);
  }

  lemma Arc10WrittenOut(r: seq<bool>)
    requires |r| == 16
    ensures HasArc(r, 10) <==> Any10(r)
  {
    forall s | 0 <= s < 16 ensures Run9(r, s) && r[(s + 9) % 16] <==> ArcFrom(r, s, 10) {
      RunIsArc(r, s);
    }
    assert Any10(r) <==>
      (Run9(r, 0) && r[9]) || (Run9(r, 1) && r[10]) || (Run9(r, 2) && r[11]) || (Run9(r, 3) && r[12]) ||
      (Run9(r, 4) && r[13]) || (Run9(r, 5) && r[14]) || (Run9(r, 6) && r[15]) || (Run9(r, 7) && r[0]) ||
      (Run9(r, 8) && r[1]) || (Run9(r, 9) && r[2]) || (Run9(r, 10) && r[3]) || (Run9(r, 11) && r[4]) ||
      (Run9(r, 12) && r[5]) || (Run9(r, 13) && r[6]) || (Run9(r, 14) && r[7]) || (Run9(r, 15) && r[8]);
  }

  // -------------------------------------------------- the list of corners

  /** The listed pixels of row `y` in columns `3 .. x1`, left to right. */
  ghost function RowListed(img: Image, pixels: iset<XY>, y: int, x1: int): seq<XY>
    decreases x1
  {
    if x1 <= 3 then []
    else RowListed(img, pixels, y, x1 - 1) + if XY(x1 - 1, y) in pixels then [MakeXY(x1 - 1, y)] else []
  }

  /** The listed pixels of rows `3 .. y1`, in raster order. */
  ghost function RasterListed(img: Image, pixels: iset<XY>, y1: int): seq<XY>
    decreases y1
  {
    if y1 <= 3 then [] else RasterListed(img, pixels, y1 - 1) + RowListed(img, pixels, y1 - 1, img.width - 3)
  }

  /** What a detector reports that finds a corner at exactly these inner pixels of an image. */
  ghost function Listed(img: Image, pixels: iset<XY>): seq<XY> {
    RasterListed(img, pixels, img.height - 3)
  }

  /** The pixels that pass the segment test for `n`-arcs. */
  ghost function CornerPixels(img: Image, b: int, n: nat): iset<XY>
    requires img.Valid()
  {
    iset c: XY | img.Inner(c.x, c.y) && IsCorner(img, c.x, c.y, b, n)
  }

  /** What a detector for `n`-arcs should report. */
  ghost function Corners(img: Image, b: int, n: nat): seq<XY>
    requires img.Valid()
  {
    Listed(img, CornerPixels(img, b, n))
  }

  lemma EndOfRow(img: Image, pixels: iset<XY>, y: int, x: int)
    requires 3 <= y < img.height - 3
    requires x == 3 || 3 < x <= img.width - 3
    requires x >= img.width - 3
    ensures RasterListed(img, pixels, y + 1) == RasterListed(img, pixels, y) + RowListed(img, pixels, y, x)
  {
  }

  lemma EndOfImage(img: Image, pixels: iset<XY>, y: int)
    requires y == 3 || 3 < y <= img.height - 3
    requires y >= img.height - 3
    ensures RasterListed(img, pixels, y) == Listed(img, pixels)
  {
  }

  /** An image without inner pixels has no corners. */
  lemma NoCorners(img: Image, pixels: iset<XY>)
    requires img.width < 7 || img.height < 7
    ensures Listed(img, pixels) == []
  {
    NoneInRows(img, pixels, img.height - 3);
  }

  lemma {:induction false} NoneInRows(img: Image, pixels: iset<XY>, y1: int)
    requires (img.width < 7 || img.height < 7) && (y1 <= 3 || y1 <= img.height - 3)
    ensures RasterListed(img, pixels, y1) == []
    decreases y1
  {
    if y1 > 3 {
      NoneInRows(img, pixels, y1 - 1);
    }
  }

  /** The list depends only on which inner pixels it takes. */
  lemma {:induction false} SameRowListed(img: Image, p: iset<XY>, q: iset<XY>, y: int, x1: int)
    requires 3 <= y < img.height - 3 && (x1 <= 3 || x1 <= img.width - 3)
    requires forall c: XY :: img.Inner(c.x, c.y) ==> (c in p <==> c in q)
    ensures RowListed(img, p, y, x1) == RowListed(img, q, y, x1)
    decreases x1
  {
    if x1 > 3 {
      SameRowListed(img, p, q, y, x1 - 1);
      assert img.Inner(x1 - 1, y) && XY(x1 - 1, y).x == x1 - 1;
    }
  }

  lemma {:induction false} SameRaster(img: Image, p: iset<XY>, q: iset<XY>, y1: int)
    requires y1 <= 3 || y1 <= img.height - 3
    requires forall c: XY :: img.Inner(c.x, c.y) ==> (c in p <==> c in q)
    ensures RasterListed(img, p, y1) == RasterListed(img, q, y1)
    decreases y1
  {
    if y1 > 3 {
      SameRaster(img, p, q, y1 - 1);
      SameRowListed(img, p, q, y1 - 1, img.width - 3);
    }
  }

  lemma SameListed(img: Image, p: iset<XY>, q: iset<XY>)
    requires forall c: XY :: img.Inner(c.x, c.y) ==> (c in p <==> c in q)
    ensures Listed(img, p) == Listed(img, q)
  {
    SameRaster(img, p, q, img.height - 3);
  }

  /** Raster order: top to bottom, then left to right. */
  predicate Before(a: XY, b: XY) {
    a.y < b.y || (a.y == b.y && a.x < b.x)
  }

  ghost predicate RasterSorted(cs: seq<XY>) {
    forall i, j :: 0 <= i < j < |cs| ==> Before(cs[i], cs[j])
  }

  /** Every coordinate of the image fits a `short`. */
  predicate FitsShort(img: Image) {
    img.width <= 0x8000 && img.height <= 0x8000
  }

  lemma {:induction false} RowMembers(img: Image, pixels: iset<XY>, y: int, x1: int)
    requires FitsShort(img) && 3 <= y < img.height - 3 && (x1 <= 3 || x1 <= img.width - 3)
    ensures RasterSorted(RowListed(img, pixels, y, x1))
    ensures forall c :: c in RowListed(img, pixels, y, x1) <==> c.y == y && 3 <= c.x < x1 && c in pixels
    decreases x1
  {
    if x1 > 3 {
      RowMembers(img, pixels, y, x1 - 1);
      assert MakeXY(x1 - 1, y) == XY(x1 - 1, y);
    }
  }

  lemma {:induction false} RasterMembers(img: Image, pixels: iset<XY>, y1: int)
    requires FitsShort(img) && (y1 <= 3 || y1 <= img.height - 3)
    ensures RasterSorted(RasterListed(img, pixels, y1))
    ensures forall c :: c in RasterListed(img, pixels, y1) <==> 3 <= c.y < y1 && 3 <= c.x < img.width - 3 && c in pixels
    decreases y1
  {
    if y1 > 3 {
      RasterMembers(img, pixels, y1 - 1);
      RowMembers(img, pixels, y1 - 1, img.width - 3);
    }
  }

  /** The list holds exactly the inner pixels of the set, each once, in raster order. */
  lemma ListedExact(img: Image, pixels: iset<XY>)
    requires FitsShort(img)
    ensures RasterSorted(Listed(img, pixels))
    ensures forall c :: c in Listed(img, pixels) <==> img.Inner(c.x, c.y) && c in pixels
  {
    RasterMembers(img, pixels, img.height - 3);
  }

  /** What the detectors should report is the set of pixels that pass the segment test, each once,
      in raster order. */
  lemma CornersExact(img: Image, b: int, n: nat)
    requires img.Valid() && FitsShort(img)
    ensures RasterSorted(Corners(img, b, n))
    ensures forall c :: c in Corners(img, b, n) <==> img.Inner(c.x, c.y) && IsCorner(img, c.x, c.y, b, n)
  {
    ListedExact(img, CornerPixels(img, b, n));
  }

  /** Two detectors agree on an image whose coordinates fit a `short` only if they find the same. */
  lemma ListedDiffers(img: Image, p: iset<XY>, q: iset<XY>, c: XY)
    requires FitsShort(img) && img.Inner(c.x, c.y) && c in p && c !in q
    ensures Listed(img, p) != Listed(img, q)
  {
    ListedExact(img, p);
    ListedExact(img, q);
  }
}
