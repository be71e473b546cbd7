/** Non-maximum suppression in a 5x5 window, `fast_nonmax_5x5`, with its own corner score. */
module Nonmax5x5 {
  import opened FastCircle
  import opened FastDetect
  import opened Nonmax3x3

  // --------------------------------------------------------- the corner score

  /** Sum of `p - pix` over the first `n` circle pixels with `p > pix + barrier` */
  function BrightSum(circle: seq<Byte>, pix: int, barrier: int, n: nat): int
    requires n <= |circle|
  {
    if n == 0 then 0
    else BrightSum(circle, pix, barrier, n - 1) +
         if circle[n - 1] > pix + barrier then circle[n - 1] - pix else 0
  }

  /** Sum of `pix - p` over the first `n` circle pixels with `p < pix - barrier` */
  function DarkSum(circle: seq<Byte>, pix: int, barrier: int, n: nat): int
    requires n <= |circle|
  {
    if n == 0 then 0
    else DarkSum(circle, pix, barrier, n - 1) +
         if circle[n - 1] < pix - barrier then pix - circle[n - 1] else 0
  }

  lemma {:induction false} SumsBounded(circle: seq<Byte>, pix: Byte, barrier: nat, n: nat)
    requires n <= |circle|
    ensures 0 <= BrightSum(circle, pix, barrier, n) && 0 <= DarkSum(circle, pix, barrier, n)
    ensures BrightSum(circle, pix, barrier, n) + DarkSum(circle, pix, barrier, n) <= 255 * n
  {
    if n > 0 {
      SumsBounded(circle, pix, barrier, n - 1);
    }
  }

  /** A pixel on the bright side gives the score at least `barrier + 1`; likewise the dark side. */
  lemma {:induction false} SumsPositive(circle: seq<Byte>, pix: Byte, barrier: nat, n: nat, k: nat)
    requires k < n <= |circle|
    ensures circle[k] > pix + barrier ==> BrightSum(circle, pix, barrier, n) > barrier
    ensures circle[k] < pix - barrier ==> DarkSum(circle, pix, barrier, n) > barrier
  {
    SumsBounded(circle, pix, barrier, n - 1);
    if k < n - 1 {
      SumsPositive(circle, pix, barrier, n - 1, k);
    }
  }

  function Score(circle: seq<Byte>, pix: Byte, barrier: nat): int
    requires |circle| == 16
  {
    var sp, sn := BrightSum(circle, pix, barrier, 16), DarkSum(circle, pix, barrier, 16);
    if sp > sn then sp else sn
  }

  /** `true`: dark centre on a bright background */
  predicate IsDark(circle: seq<Byte>, pix: Byte, barrier: nat)
    requires |circle| == 16
  {
    BrightSum(circle, pix, barrier, 16) > DarkSum(circle, pix, barrier, 16)
  }

  /** `corner_score_test`; its sums stay far inside a `short`. */
  method CornerScoreTest(circle: seq<Byte>, pix: Byte, barrier: nat) returns (score: int, dark: bool)
    requires |circle| == 16
    ensures score == Score(circle, pix, barrier) && dark == IsDark(circle, pix, barrier)
    ensures 0 <= score <= 16 * 255
  {
    var cb := pix + barrier;
    var c_b := pix - barrier;
    var sp := 0;
    var sn := 0;
    for i := 0 to 16
      invariant sp == BrightSum(circle, pix, barrier, i) && sn == DarkSum(circle, pix, barrier, i)
    {
      var p := circle[i];
      if p > cb {
        sp := sp + (p - pix);
      } else if p < c_b {
        sn := sn + (pix - p);
      }
    }
    SumsBounded(circle, pix, barrier, 16);
    if sp > sn {
      return sp, true;
    } else {
      return sn, false;
    }
  }

  /** A corner of the segment test has a score above the barrier. */
  lemma CornersScorePositive(circle: seq<Byte>, pix: Byte, barrier: nat, n: nat)
    requires |circle| == 16 && n > 0 && Segment(circle, pix, barrier, n)
    ensures Score(circle, pix, barrier) > barrier
  {
    var up, down := Above(circle, pix + barrier), Below(circle, pix - barrier);
    if HasArc(up, n) {
      var s :| 0 <= s < 16 && ArcFrom(up, s, n);
      assert up[s % 16];
      SumsPositive(circle, pix, barrier, 16, s % 16);
    } else {
      var s :| 0 <= s < 16 && ArcFrom(down, s, n);
      assert down[s % 16];
      SumsPositive(circle, pix, barrier, 16, s % 16);
    }
  }

  lemma {:induction false} NoneOnSide(circle: seq<Byte>, pix: Byte, barrier: nat, n: nat)
    requires n <= |circle|
    ensures (forall k :: 0 <= k < n ==> circle[k] <= pix + barrier) ==> BrightSum(circle, pix, barrier, n) == 0
    ensures (forall k :: 0 <= k < n ==> circle[k] >= pix - barrier) ==> DarkSum(circle, pix, barrier, n) == 0
  {
    if n > 0 {
      NoneOnSide(circle, pix, barrier, n - 1);
    }
  }

  /** A centre with brighter pixels around it and no darker ones is dark, and one with darker pixels around it
      and no brighter ones is not. */
  lemma OneSided(circle: seq<Byte>, pix: Byte, barrier: nat, k: nat)
    requires |circle| == 16 && k < 16
    ensures circle[k] > pix + barrier && (forall j :: 0 <= j < 16 ==> circle[j] >= pix - barrier) ==> IsDark(circle, pix, barrier)
    ensures circle[k] < pix - barrier && (forall j :: 0 <= j < 16 ==> circle[j] <= pix + barrier) ==> !IsDark(circle, pix, barrier)
  {
    NoneOnSide(circle, pix, barrier, 16);
    SumsPositive(circle, pix, barrier, 16, k);
  }

  /** The negative of a picture: bright and dark change places. */
  function Negative(circle: seq<Byte>): (r: seq<Byte>)
    ensures |r| == |circle|
  {
    seq(|circle|, k requires 0 <= k < |circle| => 255 - circle[k])
  }

  lemma {:induction false} SumsOfNegative(circle: seq<Byte>, pix: Byte, barrier: nat, n: nat)
    requires n <= |circle|
    ensures BrightSum(Negative(circle), 255 - pix, barrier, n) == DarkSum(circle, pix, barrier, n)
    ensures DarkSum(Negative(circle), 255 - pix, barrier, n) == BrightSum(circle, pix, barrier, n)
  {
    if n > 0 {
      SumsOfNegative(circle, pix, barrier, n - 1);
    }
  }

  /** In the negative the score stays, and unless both sides weigh the same, the centre changes its kind. */
  lemma NegativeCorner(circle: seq<Byte>, pix: Byte, barrier: nat)
    requires |circle| == 16
    ensures Score(Negative(circle), 255 - pix, barrier) == Score(circle, pix, barrier)
    ensures IsDark(circle, pix, barrier) ==> !IsDark(Negative(circle), 255 - pix, barrier)
    ensures !IsDark(circle, pix, barrier) && !IsDark(Negative(circle), 255 - pix, barrier) ==>
      BrightSum(circle, pix, barrier, 16) == DarkSum(circle, pix, barrier, 16)
  {
    SumsOfNegative(circle, pix, barrier, 16);
  }

  // ------------------------------------------------------------ who is kept

  /** Higher score, and of equal scores the earlier corner in raster order */
  predicate Better(scores: seq<int>, j: int, i: int)
    requires 0 <= i < |scores| && 0 <= j < |scores|
  {
    scores[j] > scores[i] || (scores[j] == scores[i] && j < i)
  }

  predicate Beats5(cs: seq<XY>, scores: seq<int>, j: int, i: int)
    requires |scores| == |cs| && 0 <= i < |cs| && 0 <= j < |cs|
  {
    Near(cs[i], cs[j], 2) && Better(scores, j, i)
  }

  ghost predicate Kept(cs: seq<XY>, scores: seq<int>, i: int)
    requires |scores| == |cs| && 0 <= i < |cs|
  {
    forall j :: 0 <= j < |cs| ==> !Beats5(cs, scores, j, i)
  }

  /** Written out: every other corner at most two columns and two rows away scores less, or scores the same and
      comes later in raster order. */
  lemma KeptByPixels(cs: seq<XY>, scores: seq<int>, i: int)
    requires |scores| == |cs| && 0 <= i < |cs| && RasterSorted(cs)
    ensures Kept(cs, scores, i) <==>
      forall j :: 0 <= j < |cs| && j != i && -2 <= cs[j].x - cs[i].x <= 2 && -2 <= cs[j].y - cs[i].y <= 2 ==>
        scores[j] < scores[i] || (scores[j] == scores[i] && (cs[i].y < cs[j].y || (cs[i].y == cs[j].y && cs[i].x < cs[j].x)))
  {
    forall j | 0 <= j < |cs| && j != i
      ensures j < i <==> !(cs[i].y < cs[j].y || (cs[i].y == cs[j].y && cs[i].x < cs[j].x))
    {
      assert if j < i then Before(cs[j], cs[i]) else Before(cs[i], cs[j]);
    }
    forall j | 0 <= j < |cs| && j != i
      ensures Beats5(cs, scores, j, i) <==>
        -2 <= cs[j].x - cs[i].x <= 2 && -2 <= cs[j].y - cs[i].y <= 2 &&
        (scores[j] > scores[i] || (scores[j] == scores[i] && j < i))
    {
    }
  }

  /** Two kept corners never lie in the same window. */
  lemma KeptAreApart(cs: seq<XY>, scores: seq<int>, i: int, j: int)
    requires |scores| == |cs| && 0 <= i < |cs| && 0 <= j < |cs| && i != j
    requires Kept(cs, scores, i) && Kept(cs, scores, j)
    ensures !Near(cs[i], cs[j], 2)
  {
    assert !Beats5(cs, scores, j, i) && !Beats5(cs, scores, i, j);
  }

  function BetterSet(scores: seq<int>, i: int): set<int>
    requires 0 <= i < |scores|
  {
    set j | 0 <= j < |scores| && Better(scores, j, i)
  }

  /** Each corner on the path is beaten by the next one, and the last one is kept. */
  ghost predicate ClimbsToKept(cs: seq<XY>, scores: seq<int>, path: seq<int>)
    requires |scores| == |cs|
  {
    |path| > 0 && (forall k :: 0 <= k < |path| ==> 0 <= path[k] < |cs|) &&
    (forall k :: 0 <= k < |path| - 1 ==> Beats5(cs, scores, path[k + 1], path[k])) &&
    Kept(cs, scores, path[|path| - 1])
  }

  /** From every corner, better and better neighbours lead to a kept one. */
  lemma {:induction false} DroppedHasKeptDominator(cs: seq<XY>, scores: seq<int>, i: int) returns (path: seq<int>)
    requires |scores| == |cs| && 0 <= i < |cs|
    ensures ClimbsToKept(cs, scores, path) && path[0] == i
    ensures !Kept(cs, scores, i) ==> |path| > 1
    decreases BetterSet(scores, i)
  {
    if Kept(cs, scores, i) {
      path := [i];
    } else {
      var j :| 0 <= j < |cs| && Beats5(cs, scores, j, i);
      assert BetterSet(scores, j) < BetterSet(scores, i) by {
        assert j in BetterSet(scores, i) && j !in BetterSet(scores, j);
      }
      var rest := DroppedHasKeptDominator(cs, scores, j);
      path := [i] + rest;
    }
  }

  /** A non-empty list of corners keeps at least one. */
  lemma SomeKept(cs: seq<XY>, scores: seq<int>)
    requires |scores| == |cs| && |cs| > 0
    ensures exists i :: 0 <= i < |cs| && Kept(cs, scores, i)
  {
    var path := DroppedHasKeptDominator(cs, scores, 0);
    assert Kept(cs, scores, path[|path| - 1]);
  }

  // ---------------------------------------------------------- the row scans

  ghost predicate Beaten5InRow(cs: seq<XY>, scores: seq<int>, i: int, y: int)
    requires |scores| == |cs| && 0 <= i < |cs|
  {
    exists j :: 0 <= j < |cs| && cs[j].y == y && Beats5(cs, scores, j, i)
  }

  lemma LowerRowLater(cs: seq<XY>, a: int, b: int)
    requires IsCornerList(cs) && 0 <= a < |cs| && 0 <= b < |cs| && cs[a].y < cs[b].y
    ensures a < b
  {
  }

  /** The check of the row `up` lines above (1 or 2), from where that row starts */
  method ScanUp(cs: seq<XY>, scores: seq<int>, i: int, up: int, start: int) returns (beaten: bool)
    requires IsCornerList(cs) && |scores| == |cs| && 0 <= i < |cs| && 1 <= up <= 2
    requires 0 <= start < |cs| && cs[start].y == cs[i].y - up
    requires forall j :: 0 <= j < start ==> cs[j].y < cs[i].y - up
    ensures beaten <==> Beaten5InRow(cs, scores, i, cs[i].y - up)
  {
    var pos := cs[i];
    LowerRowLater(cs, start, i);
    var pointAbove := start;
    while cs[pointAbove].y < pos.y - up + 1 && cs[pointAbove].x < pos.x - 2
      invariant start <= pointAbove <= i && pos.y - up <= cs[pointAbove].y
      invariant forall m :: start <= m < pointAbove ==> cs[m].x < pos.x - 2
    {
      assert Before(cs[pointAbove], cs[pointAbove + 1]);
      pointAbove := pointAbove + 1;
    }
    var j := pointAbove;
    while cs[j].y < pos.y - up + 1 && cs[j].x <= pos.x + 2
      invariant pointAbove <= j <= i && pos.y - up <= cs[j].y
      invariant forall m :: start <= m < j ==> !Beats5(cs, scores, m, i)
    {
      if scores[j] >= scores[i] && cs[j].x >= pos.x - 2 {
        assert Beats5(cs, scores, j, i);
        return true;
      }
      assert Before(cs[j], cs[j + 1]);
      j := j + 1;
    }
    forall m | 0 <= m < |cs| && cs[m].y == pos.y - up ensures !Beats5(cs, scores, m, i) {
      assert j < m ==> Before(cs[j], cs[m]);
    }
    beaten := false;
  }

  /** The check of the row `down` lines below (1 or 2), from where that row starts */
  method ScanDown(cs: seq<XY>, scores: seq<int>, i: int, down: int, start: int) returns (beaten: bool)
    requires IsCornerList(cs) && |scores| == |cs| && 0 <= i < |cs| && 1 <= down <= 2
    requires 0 <= start < |cs| && cs[start].y == cs[i].y + down
    requires forall j :: 0 <= j < start ==> cs[j].y < cs[i].y + down
    ensures beaten <==> Beaten5InRow(cs, scores, i, cs[i].y + down)
  {
    var pos := cs[i];
    LowerRowLater(cs, i, start);
    var pointBelow := start;
    while pointBelow < |cs| && cs[pointBelow].y == pos.y + down && cs[pointBelow].x < pos.x - 2
      invariant start <= pointBelow <= |cs|
      invariant forall m :: start <= m < pointBelow ==> cs[m].x < pos.x - 2
    {
      pointBelow := pointBelow + 1;
    }
    var j := pointBelow;
    while j < |cs| && cs[j].y == pos.y + down && cs[j].x <= pos.x + 2
      invariant pointBelow <= j <= |cs|
      invariant forall m :: start <= m < j ==> !Beats5(cs, scores, m, i)
    {
      if scores[j] > scores[i] && cs[j].x >= pos.x - 2 {
        assert Beats5(cs, scores, j, i);
        return true;
      }
      j := j + 1;
    }
    forall m | 0 <= m < |cs| && cs[m].y == pos.y + down ensures !Beats5(cs, scores, m, i) {
      if j < m {
        assert Before(cs[j], cs[m]);
        assert start < j ==> Before(cs[start], cs[j]);
      }
    }
    beaten := false;
  }

  // -------------------------------------------------------------- the whole

  /** The four checks in the row itself: a window reaches two places to either side. */
  predicate BeatenBeside5(cs: seq<XY>, scores: seq<int>, i: int)
    requires |scores| == |cs| && 0 <= i < |cs|
  {
    (i > 0 && scores[i - 1] >= scores[i] && cs[i - 1].y == cs[i].y && cs[i - 1].x >= cs[i].x - 2) ||
    (i > 1 && scores[i - 2] >= scores[i] && cs[i - 2].y == cs[i].y && cs[i - 2].x >= cs[i].x - 2) ||
    (i < |cs| - 2 && scores[i + 2] > scores[i] && cs[i + 2].y == cs[i].y && cs[i + 2].x <= cs[i].x + 2) ||
    (i < |cs| - 1 && scores[i + 1] > scores[i] && cs[i + 1].y == cs[i].y && cs[i + 1].x <= cs[i].x + 2)
  }

  lemma BesideIsSameRow(cs: seq<XY>, scores: seq<int>, i: int)
    requires IsCornerList(cs) && |scores| == |cs| && 0 <= i < |cs|
    ensures BeatenBeside5(cs, scores, i) <==> Beaten5InRow(cs, scores, i, cs[i].y)
  {
    if Beaten5InRow(cs, scores, i, cs[i].y) {
      var j :| 0 <= j < |cs| && cs[j].y == cs[i].y && Beats5(cs, scores, j, i);
      if j < i {
        RowGap(cs, j, i);
      } else {
        RowGap(cs, i, j);
      }
      assert j == i - 2 || j == i - 1 || j == i + 1 || j == i + 2;
    }
    if BeatenBeside5(cs, scores, i) {
      var j := if i > 0 && scores[i - 1] >= scores[i] && cs[i - 1].y == cs[i].y && cs[i - 1].x >= cs[i].x - 2 then i - 1
               else if i > 1 && scores[i - 2] >= scores[i] && cs[i - 2].y == cs[i].y && cs[i - 2].x >= cs[i].x - 2 then i - 2
               else if i < |cs| - 2 && scores[i + 2] > scores[i] && cs[i + 2].y == cs[i].y && cs[i + 2].x <= cs[i].x + 2 then i + 2
               else i + 1;
      assert j < i ==> Before(cs[j], cs[i]);
      assert i < j ==> Before(cs[i], cs[j]);
      assert Beats5(cs, scores, j, i);
    }
  }

  lemma KeptByRows(cs: seq<XY>, scores: seq<int>, i: int)
    requires IsCornerList(cs) && |scores| == |cs| && 0 <= i < |cs|
    ensures Kept(cs, scores, i) <==>
      !Beaten5InRow(cs, scores, i, cs[i].y - 2) && !Beaten5InRow(cs, scores, i, cs[i].y - 1) &&
      !Beaten5InRow(cs, scores, i, cs[i].y) &&
      !Beaten5InRow(cs, scores, i, cs[i].y + 1) && !Beaten5InRow(cs, scores, i, cs[i].y + 2)
  {
    if !Kept(cs, scores, i) {
      var j :| 0 <= j < |cs| && Beats5(cs, scores, j, i);
      assert Beaten5InRow(cs, scores, i, cs[j].y);
    }
  }

  lemma EmptyRow5(cs: seq<XY>, scores: seq<int>, i: int, y: int, row: seq<int>)
    requires |scores| == |cs| && 0 <= i < |cs| && RowStarts(row, cs, |cs|)
    requires y < 0 || y >= |row| || row[y] == -1
    ensures !Beaten5InRow(cs, scores, i, y)
  {
  }

  /** The check of one neighbouring row, looked up in `row_start` */
  method CheckRow(cs: seq<XY>, scores: seq<int>, row: array<int>, i: int, dy: int) returns (beaten: bool)
    requires IsCornerList(cs) && |scores| == |cs| && 0 <= i < |cs| && RowStarts(row[..], cs, |cs|)
    requires -2 <= dy <= 2 && dy != 0
    ensures beaten <==> Beaten5InRow(cs, scores, i, cs[i].y + dy)
  {
    hide RowStarts, Beaten5InRow;
    var y := cs[i].y + dy;
    if 0 <= y < row.Length && row[y] != -1 {
      StartOf(row[..], cs, y);
      if dy < 0 {
        beaten := ScanUp(cs, scores, i, -dy, row[y]);
      } else {
        beaten := ScanDown(cs, scores, i, dy, row[y]);
      }
    } else {
      EmptyRow5(cs, scores, i, y, row[..]);
      beaten := false;
    }
  }

  /** One turn of the suppression loop */
  method Test5(cs: seq<XY>, scores: seq<int>, row: array<int>, i: int) returns (keep: bool)
    requires IsCornerList(cs) && |scores| == |cs| && 0 <= i < |cs| && RowStarts(row[..], cs, |cs|)
    ensures keep <==> Kept(cs, scores, i)
  {
    hide RowStarts, Beaten5InRow, Kept;
    KeptByRows(cs, scores, i);
    BesideIsSameRow(cs, scores, i);
    var score := scores[i];
    var pos := cs[i];
    if i > 0 && scores[i - 1] >= score && cs[i - 1].y == pos.y && cs[i - 1].x >= pos.x - 2 {
      return false;
    }
    if i > 1 && scores[i - 2] >= score && cs[i - 2].y == pos.y && cs[i - 2].x >= pos.x - 2 {
      return false;
    }
    if i < |cs| - 2 && scores[i + 2] > score && cs[i + 2].y == pos.y && cs[i + 2].x <= pos.x + 2 {
      return false;
    }
    if i < |cs| - 1 && scores[i + 1] > score && cs[i + 1].y == pos.y && cs[i + 1].x <= pos.x + 2 {
      return false;
    }
    var beaten := CheckRow(cs, scores, row, i, -2);
    if beaten { return false; }
    beaten := CheckRow(cs, scores, row, i, -1);
    if beaten { return false; }
    beaten := CheckRow(cs, scores, row, i, 1);
    if beaten { return false; }
    beaten := CheckRow(cs, scores, row, i, 2);
    keep := !beaten;
  }

  // ------------------------------------------------------- the two out lists

  datatype ScoredCorner = ScoredCorner(xy: XY, score: int)

  predicate ScoredPoint(img: Image, barrier: nat, c: XY, score: int, dark: bool)
    requires img.Valid()
  {
    img.Inner(c.x, c.y) &&
    score == Score(Circle(img, c.x, c.y), img.At(c.x, c.y), barrier) &&
    dark == IsDark(Circle(img, c.x, c.y), img.At(c.x, c.y), barrier)
  }

  /** The scores and orientations of a list of corners of an image */
  ghost predicate ScoredAs(img: Image, barrier: nat, cs: seq<XY>, scores: seq<int>, types: seq<bool>)
    requires img.Valid()
  {
    |scores| == |types| == |cs| &&
    forall i :: 0 <= i < |cs| ==> ScoredPoint(img, barrier, cs[i], scores[i], types[i])
  }

  ghost function ScoresOf(img: Image, barrier: nat, cs: seq<XY>): (s: seq<int>)
    requires img.Valid() && AllInner(img, cs)
    ensures |s| == |cs|
  {
    seq(|cs|, i requires 0 <= i < |cs| => Score(Circle(img, cs[i].x, cs[i].y), img.At(cs[i].x, cs[i].y), barrier))
  }

  ghost function TypesOf(img: Image, barrier: nat, cs: seq<XY>): (t: seq<bool>)
    requires img.Valid() && AllInner(img, cs)
    ensures |t| == |cs|
  {
    seq(|cs|, i requires 0 <= i < |cs| => IsDark(Circle(img, cs[i].x, cs[i].y), img.At(cs[i].x, cs[i].y), barrier))
  }

  lemma ScoredIs(img: Image, barrier: nat, cs: seq<XY>, scores: seq<int>, types: seq<bool>)
    requires img.Valid() && AllInner(img, cs) && ScoredAs(img, barrier, cs, scores, types)
    ensures scores == ScoresOf(img, barrier, cs) && types == TypesOf(img, barrier, cs)
  {
    forall i | 0 <= i < |cs|
      ensures scores[i] == ScoresOf(img, barrier, cs)[i] && types[i] == TypesOf(img, barrier, cs)[i]
    {
      assert ScoredPoint(img, barrier, cs[i], scores[i], types[i]);
    }
  }

  /** The first `n` corners that are kept and of type `dark`, in order */
  ghost function Select(cs: seq<XY>, scores: seq<int>, types: seq<bool>, dark: bool, n: nat): seq<ScoredCorner>
    requires |scores| == |types| == |cs| && n <= |cs|
  {
    if n == 0 then []
    else Select(cs, scores, types, dark, n - 1) +
         if Kept(cs, scores, n - 1) && types[n - 1] == dark then [ScoredCorner(cs[n - 1], scores[n - 1])] else []
  }

  lemma PointScored(img: Image, barrier: nat, c: XY, score: int, dark: bool)
    requires img.Valid() && img.Inner(c.x, c.y)
    requires score == Score(Circle(img, c.x, c.y), img.At(c.x, c.y), barrier)
    requires dark == IsDark(Circle(img, c.x, c.y), img.At(c.x, c.y), barrier)
    ensures ScoredPoint(img, barrier, c, score, dark)
  {
  }

  method ScoreCorner(img: Image, c: XY, pointerDir: array<int>, barrier: nat) returns (score: int, dark: bool)
    requires img.Valid() && img.Inner(c.x, c.y) && IsOffsetTable(pointerDir, img.stride)
    ensures ScoredPoint(img, barrier, c, score, dark)
  {
    img.InBuffer(c.x, c.y);
    var p := c.x + c.y * img.stride;
    var circle := ReadCircle(img, p, pointerDir, c.x, c.y);
    score, dark := CornerScoreTest(circle, img.data[p], barrier);
    PointScored(img, barrier, c, score, dark);
  }

  /** Scoring, and `row_start` along the way */
  method ScoreAll(img: Image, corners: seq<XY>, barrier: nat) returns (row: array<int>, scores: seq<int>, types: seq<bool>)
    requires img.Valid() && IsCornerList(corners)
    requires AllInner(img, corners)
    ensures fresh(row) && RowStarts(row[..], corners, |corners|)
    ensures ScoredAs(img, barrier, corners, scores, types)
  {
    hide RowStarts, ScoredPoint, IsOffsetTable;
    row := EmptyRows(img.height, corners);
    var pointerDir := new int[16];
    MakeOffsets(pointerDir, img.stride);
    scores, types := [], [];
    var prevRow := -1;
    var i := 0;
    while i < |corners|
      invariant 0 <= i <= |corners|
      invariant IsOffsetTable(pointerDir, img.stride)
      invariant prevRow == if i == 0 then -1 else corners[i - 1].y
      invariant fresh(row) && row.Length == (if img.height < 0 then 0 else img.height) && RowStarts(row[..], corners, i)
      invariant ScoredAs(img, barrier, corners[..i], scores, types)
    {
      var c := corners[i];
      if c.y != prevRow {
        MarkRow(row, corners, i);
        prevRow := c.y;
      } else {
        SameRowStart(row[..], corners, i);
      }
      var score, dark := ScoreCorner(img, c, pointerDir, barrier);
      scores, types := scores + [score], types + [dark];
      i := i + 1;
    }
    assert corners[..|corners|] == corners;
  }

  /** `fast_nonmax_5x5`: the kept corners, split by orientation, in raster order */
  method FastNonmax5x5(img: Image, corners: seq<XY>, barrier: nat)
    returns (darkCorners: seq<ScoredCorner>, brightCorners: seq<ScoredCorner>)
    requires img.Valid() && IsCornerList(corners) && AllInner(img, corners)
    ensures darkCorners ==
      Select(corners, ScoresOf(img, barrier, corners), TypesOf(img, barrier, corners), true, |corners|)
    ensures brightCorners ==
      Select(corners, ScoresOf(img, barrier, corners), TypesOf(img, barrier, corners), false, |corners|)
  {
    hide ScoredAs, RowStarts, Kept, ScoresOf, TypesOf;
    var row, sc, ty := ScoreAll(img, corners, barrier);
    ScoredIs(img, barrier, corners, sc, ty);
    darkCorners, brightCorners := [], [];
    for i := 0 to |corners|
      invariant RowStarts(row[..], corners, |corners|)
      invariant darkCorners == Select(corners, sc, ty, true, i)
      invariant brightCorners == Select(corners, sc, ty, false, i)
    {
      var keep := Test5(corners, sc, row, i);
      if keep {
        if ty[i] {
          darkCorners := darkCorners + [ScoredCorner(corners[i], sc[i])];
        } else {
          brightCorners := brightCorners + [ScoredCorner(corners[i], sc[i])];
        }
      }
    }
  }

  lemma {:induction false} SelectMembers(cs: seq<XY>, scores: seq<int>, types: seq<bool>, dark: bool, n: nat)
    requires |scores| == |types| == |cs| && n <= |cs|
    ensures forall c :: c in Select(cs, scores, types, dark, n) <==>
      exists i :: 0 <= i < n && Kept(cs, scores, i) && types[i] == dark && c == ScoredCorner(cs[i], scores[i])
  {
    if n > 0 {
      SelectMembers(cs, scores, types, dark, n - 1);
    }
  }

  /** A corner is in the list of its own orientation exactly when it is kept, and never in the other. */
  lemma KeptInExactlyOneList(cs: seq<XY>, scores: seq<int>, types: seq<bool>, i: int)
    requires IsCornerList(cs) && |scores| == |types| == |cs| && 0 <= i < |cs|
    ensures ScoredCorner(cs[i], scores[i]) in Select(cs, scores, types, types[i], |cs|) <==> Kept(cs, scores, i)
    ensures ScoredCorner(cs[i], scores[i]) !in Select(cs, scores, types, !types[i], |cs|)
  {
    hide Kept;
    assert forall j :: 0 <= j < |cs| && cs[j] == cs[i] ==> j == i;
    SelectMembers(cs, scores, types, true, |cs|);
    SelectMembers(cs, scores, types, false, |cs|);
  }

  /** A non-empty list leaves a non-empty output. */
  lemma SomethingIsReported(cs: seq<XY>, scores: seq<int>, types: seq<bool>)
    requires IsCornerList(cs) && |scores| == |types| == |cs| && |cs| > 0
    ensures Select(cs, scores, types, true, |cs|) + Select(cs, scores, types, false, |cs|) != []
  {
    SomeKept(cs, scores);
    var i :| 0 <= i < |cs| && Kept(cs, scores, i);
    KeptInExactlyOneList(cs, scores, types, i);
    hide Select, Kept;
    assert types[i] == true || types[i] == false;
  }
}
