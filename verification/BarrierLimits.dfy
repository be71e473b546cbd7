/** For which barriers a detector reports the corners of every image: exactly those that fit it.
    For every other barrier there is an image, given here, on which it reports something else. */
module BarrierLimits {
  import opened FastCircle
  import opened SegmentTree
  import opened FastDetect
  import opened LaneMasks
  import opened SimdBlocks
  import opened Basics
  import Fast9Tree
  import Fast10Tree
  import FastNeon9
  import FastSse10

  // --------------------------------------------------------- small images

  /** The image whose pixels are `f(x, y)` */
  function Picture(width: nat, height: nat, f: (int, int) -> Byte): (img: Image)
    ensures img.Valid() && img.width == width && img.height == height
  {
    Image(seq(width * height, i requires 0 <= i < width * height => f(i % width, i / width)), width, height, width)
  }

  lemma PictureAt(width: nat, height: nat, f: (int, int) -> Byte, x: int, y: int)
    requires 0 <= x < width && 0 <= y < height
    ensures Picture(width, height, f).At(x, y) == f(x, y)
  {
    var img := Picture(width, height, f);
    img.InBuffer(x, y);
    DivisionIsUnique(y * width + x, width, y, x);
  }

  lemma PictureCircle(width: nat, height: nat, f: (int, int) -> Byte, x: int, y: int)
    requires 3 <= x < width - 3 && 3 <= y < height - 3
    ensures var img := Picture(width, height, f); var c := Circle(img, x, y);
      img.At(x, y) == f(x, y) && forall k :: 0 <= k < 16 ==> c[k] == f(x + OffX(k), y + OffY(k))
  {
    hide Picture, OffX, OffY;
    PictureAt(width, height, f, x, y);
    forall k | 0 <= k < 16
      ensures Circle(Picture(width, height, f), x, y)[k] == f(x + OffX(k), y + OffY(k))
    {
      PictureAt(width, height, f, x + OffX(k), y + OffY(k));
    }
  }

  /** The same value everywhere */
  function Uniform(width: nat, height: nat, v: Byte): (img: Image)
    ensures img.Valid() && img.width == width && img.height == height
  {
    Picture(width, height, (x, y) => v)
  }

  /** White but for the pixel (16, 3) */
  function Spot(): (img: Image)
    ensures img.Valid() && img.width == 40 && img.height == 7
  {
    Picture(40, 7, (x, y) => if x == 16 && y == 3 then 0 else 255)
  }

  /** White, with a black pixel where both coordinates are even: on the circle of (3, 3), at every
      other pixel */
  function Dots(): (img: Image)
    ensures img.Valid() && img.width == 7 && img.height == 7
  {
    Picture(7, 7, (x, y) => DotAt(x, y))
  }

  function DotAt(x: int, y: int): Byte {
    if x % 2 == 0 && y % 2 == 0 then 0 else 255
  }

  /** Both offsets of a circle pixel are odd exactly for the odd pixels. */
  lemma OffsetParity(k: int)
    requires 0 <= k < 16
    ensures DotAt(3 + OffX(k), 3 + OffY(k)) == if k % 2 == 0 then 255 else 0
  {
  }

  /** No pixel of the circle differs from the centre. */
  predicate Flat(circle: seq<Byte>, here: Byte) {
    |circle| == 16 && forall k :: 0 <= k < 16 ==> circle[k] == here
  }

  lemma UniformIsFlat(width: nat, height: nat, v: Byte, x: int, y: int)
    requires 3 <= x < width - 3 && 3 <= y < height - 3
    ensures var img := Uniform(width, height, v); img.At(x, y) == v && Flat(Circle(img, x, y), v)
  {
    PictureCircle(width, height, (x, y) => v, x, y);
  }

  /** A flat circle is a corner exactly at negative barriers. */
  lemma FlatSegment(circle: seq<Byte>, here: Byte, b: int, n: nat)
    requires Flat(circle, here) && 1 <= n <= 16
    ensures Segment(circle, here, b, n) <==> b < 0
  {
    var up, down := Above(circle, here + b), Below(circle, here - b);
    if b < 0 {
      assert ArcFrom(up, 0, n);
    } else {
      NoArc(up, n);
      NoArc(down, n);
    }
  }

  lemma NoArc(r: seq<bool>, n: nat)
    requires |r| == 16 && 1 <= n && forall k :: 0 <= k < 16 ==> !r[k]
    ensures !HasArc(r, n)
  {
    forall s | 0 <= s < 16
      ensures !ArcFrom(r, s, n)
    {
      assert !r[s % 16];
    }
  }

  lemma WholeArc(r: seq<bool>, n: nat)
    requires |r| == 16 && AllSet(r)
    ensures HasArc(r, n)
  {
    assert ArcFrom(r, 0, n);
  }

  // ------------------------------------------------- overflow of a short

  /** Above 32512 the sum with a white pixel wraps to a negative `short`, below every pixel. */
  lemma Overflow(circle: seq<Byte>, barrier: Short, n: nat)
    requires Flat(circle, 255) && barrier > MAX_BARRIER && 1 <= n <= 16
    ensures AllSet(Above(circle, ToShort(255 + barrier)))
    ensures Nest9(circle, 255, barrier) && ColumnTest(circle, 255, barrier, n) && !Segment(circle, 255, barrier, n)
  {
    assert ToShort(255 + barrier) < 0;
    var up := Above(circle, ToShort(255 + barrier));
    assert AllSet(up);
    WholeArc(up, n);
    AllBright9(up, Below(circle, ToShort(255 - barrier)));
    FlatSegment(circle, 255, barrier, n);
  }

  // ----------------------------------------------- bright and dark at once

  /** Every other pixel is bright, and all are dark: the nests reject, although the circle is dark. */
  lemma AlternatingRejected(br: seq<bool>, dk: seq<bool>)
    requires |br| == |dk| == 16 && AllSet(dk) && forall k :: 0 <= k < 16 ==> br[k] == (k % 2 == 0)
    ensures !Decide(Fast9Tree.Whole(), br, dk) && !Decide(Fast10Tree.Whole(), br, dk)
  {
  }

  lemma DotCentre()
    ensures DotAt(3, 3) == 255
  {
  }

  predicate Alternating(circle: seq<Byte>) {
    |circle| == 16 && forall k :: 0 <= k < 16 ==> circle[k] == if k % 2 == 0 then 255 else 0
  }

  lemma DotsCircle()
    ensures Dots().At(3, 3) == 255 && Alternating(Circle(Dots(), 3, 3))
  {
    hide DotAt, OffX, OffY, Picture, Circle;
    PictureCircle(7, 7, (x, y) => DotAt(x, y), 3, 3);
    forall k | 0 <= k < 16
      ensures Circle(Dots(), 3, 3)[k] == if k % 2 == 0 then 255 else 0
    {
      OffsetParity(k);
    }
    assert DotAt(3, 3) == 255 by {
      DotCentre();
    }
  }

  /** Between -255 and -1 white pixels are both brighter and darker than a white centre. */
  lemma Overlap(circle: seq<Byte>, barrier: Short, n: nat)
    requires Alternating(circle) && -255 <= barrier < 0
    ensures !Nest9(circle, 255, barrier) && !Nest10(circle, 255, barrier) && Segment(circle, 255, barrier, n)
  {
    NoWrap(255 + barrier);
    NoWrap(255 - barrier);
    var up, down := Above(circle, 255 + barrier), Below(circle, 255 - barrier);
    AlternatingRejected(up, down);
    WholeArc(down, n);
  }

  // -------------------------------------------------- the scalar detectors

  lemma Differs(img: Image, p: iset<XY>, b: int, n: nat, c: XY)
    requires img.Valid() && FitsShort(img) && img.Inner(c.x, c.y)
    requires c in p <==> !IsCorner(img, c.x, c.y, b, n)
    ensures Listed(img, p) != Corners(img, b, n)
  {
    hide IsCorner, Listed;
    if c in p {
      ListedDiffers(img, p, CornerPixels(img, b, n), c);
    } else {
      ListedDiffers(img, CornerPixels(img, b, n), p, c);
    }
  }

  /** `fast_corner_detect_9` reports the corners of every image if and only if the barrier fits. */
  lemma Scalar9Exact(barrier: Short)
    ensures ScalarFits9(barrier) <==>
      forall img: Image | img.Valid() :: Listed(img, NestPixels9(img, barrier)) == Corners(img, barrier, 9)
  {
    hide Nest9, IsCorner, Listed, Corners, Circle, Uniform, Dots;
    if ScalarFits9(barrier) {
      forall img: Image | img.Valid()
        ensures Listed(img, NestPixels9(img, barrier)) == Corners(img, barrier, 9)
      {
        NestList9(img, barrier);
      }
    } else {
      var img := WrongScalar9(barrier);
    }
  }

  lemma WrongScalar9(barrier: Short) returns (img: Image)
    requires !ScalarFits9(barrier)
    ensures img.Valid() && Listed(img, NestPixels9(img, barrier)) != Corners(img, barrier, 9)
  {
    hide Nest9, Segment, Listed, Circle, Uniform, Dots, Alternating;
    if barrier < 0 {
      img := Dots();
      DotsCircle();
      Overlap(Circle(img, 3, 3), barrier, 9);
    } else {
      img := Uniform(7, 7, 255);
      UniformIsFlat(7, 7, 255, 3, 3);
      Overflow(Circle(img, 3, 3), barrier, 9);
    }
    Differs(img, NestPixels9(img, barrier), barrier, 9, XY(3, 3));
  }

  /** `fast_corner_detect_10` reports the corners of every image if and only if the barrier fits. */
  lemma Scalar10Exact(barrier: Short)
    ensures ScalarFits10(barrier) <==>
      forall img: Image | img.Valid() :: Listed(img, NestPixels10(img, barrier)) == Corners(img, barrier, 10)
  {
    hide Nest10, Segment, Listed, Corners, Circle, Dots;
    if ScalarFits10(barrier) {
      forall img: Image | img.Valid()
        ensures Listed(img, NestPixels10(img, barrier)) == Corners(img, barrier, 10)
      {
        NestList10(img, barrier);
      }
    } else {
      var img := WrongScalar10(barrier);
    }
  }

  lemma WrongScalar10(barrier: Short) returns (img: Image)
    requires !ScalarFits10(barrier)
    ensures img.Valid() && Listed(img, NestPixels10(img, barrier)) != Corners(img, barrier, 10)
  {
    hide Nest10, Segment, Listed, Circle, Dots, Alternating;
    img := Dots();
    DotsCircle();
    Overlap(Circle(img, 3, 3), barrier, 10);
    Differs(img, NestPixels10(img, barrier), barrier, 10, XY(3, 3));
  }

  // ---------------------------------------------------- the SIMD detectors

  /** A black pixel on white is a corner exactly at barriers below 255. */
  lemma SpotSegment(b: int, n: nat)
    requires 0 <= b && 1 <= n <= 16
    ensures Spot().At(16, 3) == 0 && (Segment(Circle(Spot(), 16, 3), 0, b, n) <==> b < 255)
  {
    PictureCircle(40, 7, (x, y) => if x == 16 && y == 3 then 0 else 255, 16, 3);
    var circle := Circle(Spot(), 16, 3);
    assert forall k :: 0 <= k < 16 ==> circle[k] == 255;
    NoArc(Below(circle, 0 - b), n);
    if b < 255 {
      WholeArc(Above(circle, 0 + b), n);
    } else {
      NoArc(Above(circle, 0 + b), n);
    }
  }

  /** For a barrier that does not fit, a detector that tests columns 16 .. 31 in a block and the
      others one by one reports a wrong list for some image. */
  lemma WrongSimd(barrier: Short, n: nat) returns (img: Image)
    requires !SimdFits(barrier) && 1 <= n <= 16
    ensures img.Valid() && img.width == 40 && Listed(img, SimdPixels(img, barrier, n)) != Corners(img, barrier, n)
  {
    hide Segment, Listed, Circle, Uniform, Spot, ColumnTest;
    if barrier < 0 {
      img := Uniform(40, 7, 255);
      UniformIsFlat(40, 7, 255, 16, 3);
      FlatSegment(Circle(img, 16, 3), 255, barrier, n);
      FlatSegment(Circle(img, 16, 3), 255, LaneBarrier(barrier), n);
      Differs(img, SimdPixels(img, barrier, n), barrier, n, XY(16, 3));
    } else if BarrierFits(barrier) {
      img := Uniform(40, 7, 255);
      UniformIsFlat(40, 7, 255, 3, 3);
      Overflow(Circle(img, 3, 3), barrier, n);
      Differs(img, SimdPixels(img, barrier, n), barrier, n, XY(3, 3));
    } else {
      img := Spot();
      SpotSegment(barrier, n);
      SpotSegment(LaneBarrier(barrier), n);
      Differs(img, SimdPixels(img, barrier, n), barrier, n, XY(16, 3));
    }
  }

  /** `fast_corner_detect_9_neon` reports the corners of every image if and only if the barrier
      fits: within 0 .. 255, or above if 255 is left modulo 256 and no `short` overflows. */
  lemma NeonExact(barrier: Short)
    ensures SimdFits(barrier) <==>
      forall img: Image | img.Valid() :: Listed(img, FastNeon9.NeonPixels(img, barrier)) == Corners(img, barrier, 9)
  {
    hide Listed, Corners, SimdPixels, NestPixels9, SimdFits;
    if SimdFits(barrier) {
      forall img: Image | img.Valid()
        ensures Listed(img, FastNeon9.NeonPixels(img, barrier)) == Corners(img, barrier, 9)
      {
        FitsBoth(barrier);
        NestList9(img, barrier);
        SimdList(img, barrier, 9);
      }
    } else {
      var img := WrongSimd(barrier, 9);
    }
  }

  lemma FitsBoth(barrier: Short)
    requires SimdFits(barrier)
    ensures ScalarFits9(barrier) && ScalarFits10(barrier)
  {
  }

  /** `fast_corner_detect_10_sse2`: the same barriers. */
  lemma SseExact(barrier: Short)
    ensures SimdFits(barrier) <==>
      forall img: Image | img.Valid() :: Listed(img, FastSse10.SsePixels(img, barrier)) == Corners(img, barrier, 10)
  {
    hide Listed, Corners, SimdPixels, NestPixels10, SimdFits;
    if SimdFits(barrier) {
      forall img: Image | img.Valid()
        ensures Listed(img, FastSse10.SsePixels(img, barrier)) == Corners(img, barrier, 10)
      {
        FitsBoth(barrier);
        NestList10(img, barrier);
        SimdList(img, barrier, 10);
      }
    } else {
      var img := WrongSimd(barrier, 10);
    }
  }
}
