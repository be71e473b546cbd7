/** The corner score `fast_corner_score_10`: the barrier is raised by the smallest margin on the
    path through the decision nest until the pixel stops being a corner. */
module FastScore {
  import opened FastCircle
  import opened SegmentTree
  import opened FastDetect
  import opened Basics
  import Fast10Tree

  // ------------------------------------------------------- what a score is

  function Max(a: int, b: int): int {
    if a < b then b else a
  }

  /** How much circle pixel `i` exceeds the centre, or falls short of it when `sign` is -1 */
  function Excess(circle: seq<Byte>, c: int, sign: int, i: int): int
    requires |circle| == 16
  {
    if sign > 0 then circle[i % 16] - c else c - circle[i % 16]
  }

  /** The smallest excess on the arc of `n` pixels from `s` on */
  function ArcMargin(circle: seq<Byte>, c: int, sign: int, s: int, n: nat): int
    requires |circle| == 16 && n > 0
  {
    if n == 1 then Excess(circle, c, sign, s)
    else Min(ArcMargin(circle, c, sign, s, n - 1), Excess(circle, c, sign, s + n - 1))
  }

  /** The best arc margin, on either side, among the arcs that start before `m` */
  function BestMargin(circle: seq<Byte>, c: int, n: nat, m: nat): int
    requires |circle| == 16 && n > 0 && m > 0
  {
    var here := Max(ArcMargin(circle, c, 1, m - 1, n), ArcMargin(circle, c, -1, m - 1, n));
    if m == 1 then here else Max(BestMargin(circle, c, n, m - 1), here)
  }

  lemma {:induction false} ArcMarginExact(circle: seq<Byte>, c: int, s: int, n: nat, b: int)
    requires |circle| == 16 && n > 0
    ensures ArcFrom(Above(circle, c + b), s, n) <==> b < ArcMargin(circle, c, 1, s, n)
    ensures ArcFrom(Below(circle, c - b), s, n) <==> b < ArcMargin(circle, c, -1, s, n)
  {
    var up, down := Above(circle, c + b), Below(circle, c - b);
    assert up[(s + n - 1) % 16] == (circle[(s + n - 1) % 16] > c + b);
    assert down[(s + n - 1) % 16] == (circle[(s + n - 1) % 16] < c - b);
    if n > 1 {
      ArcMarginExact(circle, c, s, n - 1, b);
      assert ArcFrom(up, s, n) <==> ArcFrom(up, s, n - 1) && up[(s + n - 1) % 16];
      assert ArcFrom(down, s, n) <==> ArcFrom(down, s, n - 1) && down[(s + n - 1) % 16];
    }
  }

  predicate ArcOnASide(circle: seq<Byte>, c: int, b: int, s: int, n: nat)
    requires |circle| == 16
  {
    ArcFrom(Above(circle, c + b), s, n) || ArcFrom(Below(circle, c - b), s, n)
  }

  lemma {:induction false} BestMarginExact(circle: seq<Byte>, c: int, n: nat, m: nat, b: int)
    requires |circle| == 16 && n > 0 && m > 0
    ensures b < BestMargin(circle, c, n, m) <==>
      exists s :: 0 <= s < m && ArcOnASide(circle, c, b, s, n)
  {
    ArcMarginExact(circle, c, m - 1, n, b);
    assert ArcOnASide(circle, c, b, m - 1, n) <==>
      b < ArcMargin(circle, c, 1, m - 1, n) || b < ArcMargin(circle, c, -1, m - 1, n);
    if m > 1 {
      BestMarginExact(circle, c, n, m - 1, b);
    }
    hide ArcOnASide;
  }

  /** A pixel is a corner exactly at the barriers below its best arc margin. */
  lemma SegmentIffBelowMargin(circle: seq<Byte>, c: int, b: int, n: nat)
    requires |circle| == 16 && n > 0
    ensures Segment(circle, c, b, n) <==> b < BestMargin(circle, c, n, 16)
  {
    BestMarginExact(circle, c, n, 16, b);
    assert Segment(circle, c, b, n) <==> exists s :: 0 <= s < 16 && ArcOnASide(circle, c, b, s, n) by {
      if HasArc(Above(circle, c + b), n) {
        var s :| 0 <= s < 16 && ArcFrom(Above(circle, c + b), s, n);
        assert ArcOnASide(circle, c, b, s, n);
      } else if HasArc(Below(circle, c - b), n) {
        var s :| 0 <= s < 16 && ArcFrom(Below(circle, c - b), s, n);
        assert ArcOnASide(circle, c, b, s, n);
      }
    }
  }

  // -------------------------------------------------------- the climbing loop

  /** Accepting at one barrier shows that the pixel is a corner for the next `min_diff` barriers. */
  lemma MarginIsSafe(t: Tree, n: nat, circle: seq<Byte>, c: int, b: int)
    requires DecidesSegment(t, n) && |circle| == 16 && 0 <= b
    ensures var w := Walk(t, circle, c + b, c - b, INT_MAX);
      w.1 > 0 && (w.0 <==> Segment(circle, c, b, n)) &&
      (w.0 ==> forall t :: b <= t < b + w.1 ==> Segment(circle, c, t, n))
  {
    WalkDecides(t, circle, c + b, c - b, INT_MAX);
    ThresholdsMakeRing(circle, c + b, c - b);
    assert Decide(t, Above(circle, c + b), Below(circle, c - b)) <==> Segment(circle, c, b, n);
    var w := Walk(t, circle, c + b, c - b, INT_MAX);
    if w.0 {
      forall t' | b <= t' < b + w.1 ensures Segment(circle, c, t', n) {
        PathStable(t, circle, c + b, c - b, INT_MAX, t' - b);
        ThresholdsMakeRing(circle, c + t', c - t');
        assert Decide(t, Above(circle, c + t'), Below(circle, c - t'));
      }
    }
  }

  /** `fast_corner_score_10` for one pixel */
  method ScoreCircle(circle: seq<Byte>, here: Byte, barrier: int) returns (score: int)
    requires |circle| == 16 && -1 <= barrier
    ensures score == Max(barrier, BestMargin(circle, here, 10, 16) - 1)
  {
    hide Walk, Segment, BestMargin, DecidesSegment;
    Fast10Tree.WholeDecides();
    ghost var best := BestMargin(circle, here, 10, 16);
    var b := barrier + 1;
    while true
      invariant barrier < b && (barrier + 1 < b ==> b <= best)
      decreases best - b
    {
      var cb := here + b;
      var c_b := here - b;
      MarginIsSafe(Fast10Tree.Whole(), 10, circle, here, b);
      SegmentIffBelowMargin(circle, here, b, 10);
      var walk := Walk(Fast10Tree.Whole(), circle, cb, c_b, INT_MAX);
      if walk.0 {
        var minDiff := walk.1;
        SegmentIffBelowMargin(circle, here, b + (minDiff - 1), 10);
        b := b + minDiff;
      } else {
        break;
      }
    }
    score := b - 1;
  }

  /** For a corner the score is the greatest barrier at which it still is one. */
  lemma ScoreIsGreatestBarrier(circle: seq<Byte>, here: Byte, barrier: int, score: int, t: int)
    requires |circle| == 16 && Segment(circle, here, barrier, 10)
    requires score == Max(barrier, BestMargin(circle, here, 10, 16) - 1)
    ensures Segment(circle, here, t, 10) <==> t <= score
  {
    SegmentIffBelowMargin(circle, here, barrier, 10);
    SegmentIffBelowMargin(circle, here, t, 10);
  }

  function ScoreAt(img: Image, c: XY, barrier: int): int
    requires img.Valid() && img.Inner(c.x, c.y)
  {
    Max(barrier, BestMargin(Circle(img, c.x, c.y), img.At(c.x, c.y), 10, 16) - 1)
  }

  /** `fast_corner_score_10` for a list of corners */
  method FastCornerScore10(img: Image, corners: seq<XY>, threshold: int) returns (scores: seq<int>)
    requires img.Valid() && -1 <= threshold
    requires AllInner(img, corners)
    ensures |scores| == |corners|
    ensures forall i :: 0 <= i < |corners| ==> scores[i] == ScoreAt(img, corners[i], threshold)
  {
    hide IsOffsetTable, BestMargin;
    scores := seq(|corners|, _ => 0);
    var pixel := new int[16];
    MakeOffsets(pixel, img.stride);
    var n := 0;
    while n < |corners|
      invariant IsOffsetTable(pixel, img.stride)
      invariant 0 <= n <= |corners| == |scores|
      invariant forall i :: 0 <= i < n ==> scores[i] == ScoreAt(img, corners[i], threshold)
    {
      var c := corners[n];
      var p := c.y * img.stride + c.x;
      img.InBuffer(c.x, c.y);
      var circle := ReadCircle(img, p, pixel, c.x, c.y);
      var score := ScoreCircle(circle, img.data[p], threshold);
      scores := scores[n := score];
      n := n + 1;
    }
  }

  /** The scores of detected corners rank them by the barriers at which detection still reports them. */
  lemma ScoresRankDetections(img: Image, b: int, c: XY, t: int)
    requires img.Valid() && FitsShort(img) && c in Corners(img, b, 10) && img.Inner(c.x, c.y)
    ensures c in Corners(img, t, 10) <==> t <= ScoreAt(img, c, b)
  {
    CornersExact(img, b, 10);
    CornersExact(img, t, 10);
    ScoreIsGreatestBarrier(Circle(img, c.x, c.y), img.At(c.x, c.y), b, ScoreAt(img, c, b), t);
  }
}
