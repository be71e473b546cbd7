/** `fastDetector`: detection, scoring and 3x3 suppression on each level of an image pyramid, and
    the best corner of each cell of a grid. The detector differs by build: 10-arcs with SSE2 or
    without vector instructions, 9-arcs with NEON. */
module FeatureDetector {
  import opened FastCircle
  import opened SimdBlocks
  import opened FastDetect
  import opened FastScore
  import opened Nonmax3x3
  import opened Basics
  import FastNeon9
  import FastSse10

  datatype Build = Sse2 | Neon | Plain

  function ArcLength(build: Build): nat {
    if build.Neon? then 9 else 10
  }

  /** A corner in the coordinates of the full image */
  datatype Corner = Corner(x: int, y: int, score: int, level: nat)

  /** The part of `OccupandyGrid2D` that detection reads */
  datatype Grid = Grid(cellSize: real, nCols: nat, nRows: nat, occupancy: seq<bool>) {
    predicate Valid() {
      cellSize > 0.0 && |occupancy| == nCols * nRows
    }

    /** `getCellIndex` */
    function CellIndex(x: int, y: int, scale: nat): int
      requires Valid()
    {
      CellNumber(scale * y, cellSize) * nCols + CellNumber(scale * x, cellSize)
    }
  }

  /** `std::floor(px / cell_size)` */
  function CellNumber(px: int, cellSize: real): int
    requires cellSize > 0.0
  {
    (px as real / cellSize).Floor
  }

  /** The last pixel of the level has its cell in the grid. */
  predicate LevelFits(g: Grid, img: Image, scale: nat)
    requires g.Valid()
  {
    CellNumber(scale * (img.width - 1), g.cellSize) < g.nCols && CellNumber(scale * (img.height - 1), g.cellSize) < g.nRows
  }

  lemma CellsInOrder(a: int, b: int, cellSize: real)
    requires cellSize > 0.0 && 0 <= a <= b
    ensures 0 <= CellNumber(a, cellSize) <= CellNumber(b, cellSize)
  {
    QuotientOrder(0.0, a as real, cellSize);
    QuotientOrder(a as real, b as real, cellSize);
  }

  lemma QuotientOrder(a: real, b: real, c: real)
    requires c > 0.0 && a <= b
    ensures a / c <= b / c
  {
    assert b / c - a / c == (b - a) / c;
  }

  /** A scaled coordinate below the scaled size has its cell among the first `cells`. */
  lemma CellBelow(scale: nat, x: nat, size: nat, cells: nat, cellSize: real)
    requires cellSize > 0.0 && x < size && CellNumber(scale * (size - 1), cellSize) < cells
    ensures 0 <= CellNumber(scale * x, cellSize) < cells
  {
    MulLe(x, size - 1, scale);
    assert x * scale == scale * x && (size - 1) * scale == scale * (size - 1);
    assert 0 <= scale * x;
    hide CellNumber;
    CellsInOrder(scale * x, scale * (size - 1), cellSize);
  }

  lemma RowMajor(row: nat, col: nat, rows: nat, cols: nat)
    requires row < rows && col < cols
    ensures 0 <= row * cols + col < cols * rows
  {
    MulLe(row + 1, rows, cols);
  }

  /** Every pixel of a level has its cell in the grid. */
  lemma CellInGrid(g: Grid, img: Image, scale: nat, x: nat, y: nat)
    requires g.Valid() && LevelFits(g, img, scale) && x < img.width && y < img.height
    ensures 0 <= g.CellIndex(x, y, scale) < |g.occupancy|
  {
    CellBelow(scale, x, img.width, g.nCols, g.cellSize);
    CellBelow(scale, y, img.height, g.nRows, g.cellSize);
    hide CellNumber;
    RowMajor(CellNumber(scale * y, g.cellSize), CellNumber(scale * x, g.cellSize), g.nRows, g.nCols);
  }

  // -------------------------------------------------- which pixels a cell holds

  /** Pixel (x, y) of the full image lies in cell `k`: the cells are squares of `cellSize` pixels,
      numbered row by row. */
  ghost predicate InCell(g: Grid, k: int, x: int, y: int)
    requires 0 <= k < g.nCols * g.nRows
  {
    var col, row := k % g.nCols, k / g.nCols;
    col as real * g.cellSize <= x as real < (col + 1) as real * g.cellSize &&
    row as real * g.cellSize <= y as real < (row + 1) as real * g.cellSize
  }

  lemma CellEdges(px: int, cellSize: real, n: int)
    requires cellSize > 0.0
    ensures CellNumber(px, cellSize) == n <==> n as real * cellSize <= px as real < (n + 1) as real * cellSize
  {
    CellEdge(px, cellSize, n);
    CellEdge(px, cellSize, n + 1);
  }

  /** Cell `n` begins at pixel `n * cellSize`. */
  lemma CellEdge(px: int, cellSize: real, n: int)
    requires cellSize > 0.0
    ensures n <= CellNumber(px, cellSize) <==> n as real * cellSize <= px as real
  {
    var q := px as real / cellSize;
    assert q * cellSize == px as real;
    var edge := n as real;
    if edge <= q {
      assert edge * cellSize <= q * cellSize;
    } else {
      assert edge * cellSize > q * cellSize;
    }
  }

  lemma RowMajorParts(row: nat, col: nat, cols: nat, k: nat)
    requires col < cols
    ensures row * cols + col == k <==> col == k % cols && row == k / cols
  {
    DivisionIsUnique(row * cols + col, cols, row, col);
  }

  lemma InCellNumbers(g: Grid, k: int, x: int, y: int)
    requires g.Valid() && 0 <= k < g.nCols * g.nRows
    ensures g.nCols > 0
    ensures InCell(g, k, x, y) <==> CellNumber(x, g.cellSize) == k % g.nCols && CellNumber(y, g.cellSize) == k / g.nCols
  {
    CellEdges(x, g.cellSize, k % g.nCols);
    CellEdges(y, g.cellSize, k / g.nCols);
    hide CellNumber;
  }

  /** The index of a pixel's cell is the one of the cell that the pixel lies in. */
  lemma CellIndexExact(g: Grid, img: Image, scale: nat, x: nat, y: nat, k: int)
    requires g.Valid() && LevelFits(g, img, scale) && x < img.width && y < img.height && 0 <= k < |g.occupancy|
    ensures g.CellIndex(x, y, scale) == k <==> InCell(g, k, x * scale, y * scale)
  {
    hide CellNumber, InCell;
    CellBelow(scale, x, img.width, g.nCols, g.cellSize);
    CellBelow(scale, y, img.height, g.nRows, g.cellSize);
    InCellNumbers(g, k, x * scale, y * scale);
    assert scale * x == x * scale && scale * y == y * scale;
    RowMajorParts(CellNumber(y * scale, g.cellSize), CellNumber(x * scale, g.cellSize), g.nCols, k);
  }

  // ----------------------------------------------------- what is selected

  predicate InBorder(img: Image, border: int, c: XY) {
    border <= c.x < img.width - border && border <= c.y < img.height - border
  }

  /** A corner that scores strictly higher than every other corner in its 3x3 window, and keeps
      its distance from the image border */
  ghost predicate Candidate(img: Image, threshold: int, border: int, n: nat, c: XY)
    requires img.Valid()
  {
    img.Inner(c.x, c.y) && IsCorner(img, c.x, c.y, threshold, n) && InBorder(img, border, c) &&
    forall q: XY :: q != c && Near(c, q, 1) && img.Inner(q.x, q.y) && IsCorner(img, q.x, q.y, threshold, n) ==>
      ScoreAt(img, q, threshold) < ScoreAt(img, c, threshold)
  }

  /** All candidates, in raster order */
  ghost predicate AreCandidates(img: Image, threshold: int, border: int, n: nat, found: seq<XY>)
    requires img.Valid()
  {
    RasterSorted(found) && forall c :: c in found <==> Candidate(img, threshold, border, n, c)
  }

  /** One level of one pyramid, as `fastDetector` treats it */
  datatype Level = Level(img: Image, scale: nat, level: nat, threshold: int, grid: Grid)
  {
    ghost predicate Valid() {
      img.Valid() && FitsShort(img) && grid.Valid() && scale > 0 && LevelFits(grid, img, scale)
    }

    function CellOf(c: XY): int
      requires grid.Valid()
    {
      grid.CellIndex(c.x, c.y, scale)
    }

    function ScoreOf(c: XY): int
      requires img.Valid() && img.Inner(c.x, c.y)
    {
      ScoreAt(img, c, threshold)
    }

    function CornerOf(c: XY): Corner
      requires img.Valid() && img.Inner(c.x, c.y)
    {
      Corner(c.x * scale, c.y * scale, ScoreOf(c), level)
    }
  }

  /** `c` wins its cell: its score is the highest, and among equal scores it comes first. */
  ghost predicate Wins(l: Level, found: seq<XY>, c: XY, k: int)
    requires l.Valid() && AllInner(l.img, found)
  {
    c in found && l.CellOf(c) == k &&
    forall d :: d in found && l.CellOf(d) == k ==>
      l.ScoreOf(d) < l.ScoreOf(c) || (l.ScoreOf(d) == l.ScoreOf(c) && !Before(d, c))
  }

  /** What becomes of cell `k`: the old corner stays unless a better one is found. */
  ghost predicate CellResult(l: Level, found: seq<XY>, before: Corner, after: Corner, k: int)
    requires l.Valid() && AllInner(l.img, found)
  {
    if exists c :: c in found && l.CellOf(c) == k && l.ScoreOf(c) > before.score then
      exists c :: Wins(l, found, c, k) && l.ScoreOf(c) > before.score && after == l.CornerOf(c)
    else after == before
  }

  /** What becomes of all cells; occupied ones stay as they are. */
  ghost predicate CellResults(l: Level, found: seq<XY>, before: seq<Corner>, after: seq<Corner>)
    requires l.Valid() && AllInner(l.img, found)
  {
    |before| == |after| == |l.grid.occupancy| &&
    forall k :: 0 <= k < |before| ==>
      if l.grid.occupancy[k] then after[k] == before[k] else CellResult(l, found, before[k], after[k], k)
  }

  ghost predicate LevelResult(l: Level, border: int, n: nat, before: seq<Corner>, after: seq<Corner>)
    requires l.Valid()
  {
    exists found :: AreCandidates(l.img, l.threshold, border, n, found) && AllInner(l.img, found) && CellResults(l, found, before, after)
  }

  // ------------------------------------------------------------ one level

  method Detect(build: Build, img: Image, threshold: int) returns (corners: seq<XY>)
    requires img.Valid() && SimdFits(threshold)
    ensures corners == Corners(img, threshold, ArcLength(build))
  {
    match build {
      case Sse2 => corners := FastSse10.FastCornerDetect10Sse2(img, threshold, []);
      case Neon => corners := FastNeon9.FastCornerDetect9Neon(img, threshold, []);
      case Plain => corners := FastCornerDetect10(img, threshold, []);
    }
  }

  /** The corners found on the image, their scores, and which of them are the local maxima */
  ghost predicate Scored(l: Level, n: nat, cs: seq<XY>, scores: seq<int>) {
    l.Valid() && cs == Corners(l.img, l.threshold, n) && |scores| == |cs| && IsCornerList(cs) && AllInner(l.img, cs) &&
    (forall c :: c in cs <==> l.img.Inner(c.x, c.y) && IsCorner(l.img, c.x, c.y, l.threshold, n)) &&
    forall i :: 0 <= i < |cs| ==> scores[i] == l.ScoreOf(cs[i])
  }

  lemma MaximumIsCandidate(l: Level, border: int, n: nat, cs: seq<XY>, scores: seq<int>, i: int)
    requires Scored(l, n, cs, scores) && 0 <= i < |cs|
    ensures Candidate(l.img, l.threshold, border, n, cs[i]) <==> IsMaximum(cs, scores, i) && InBorder(l.img, border, cs[i])
  {
    hide IsCorner, ScoreAt;
    var c := cs[i];
    assert c in cs;
    if IsMaximum(cs, scores, i) {
      forall q: XY | q != c && Near(c, q, 1) && l.img.Inner(q.x, q.y) && IsCorner(l.img, q.x, q.y, l.threshold, n)
        ensures ScoreAt(l.img, q, l.threshold) < ScoreAt(l.img, c, l.threshold)
      {
        assert q in cs;
        var j :| 0 <= j < |cs| && cs[j] == q;
        assert !Beats(cs, scores, j, i);
      }
    }
    if Candidate(l.img, l.threshold, border, n, c) {
      forall j | 0 <= j < |cs| && j != i
        ensures !Beats(cs, scores, j, i)
      {
        assert cs[j] in cs && cs[j] != c;
      }
    }
  }

  /** The survivors among the first maxima that lie inside the border */
  ghost predicate Seen(l: Level, border: int, cs: seq<XY>, nm: seq<int>, m: nat, seen: seq<XY>) {
    m <= |nm| && (forall j :: 0 <= j < |nm| ==> 0 <= nm[j] < |cs|) && RasterSorted(seen) && AllInner(l.img, seen) &&
    (forall c :: c in seen <==> exists j :: 0 <= j < m && c == cs[nm[j]] && InBorder(l.img, border, cs[nm[j]]))
  }

  lemma SeenAll(l: Level, border: int, n: nat, cs: seq<XY>, scores: seq<int>, nm: seq<int>, seen: seq<XY>)
    requires Scored(l, n, cs, scores) && Seen(l, border, cs, nm, |nm|, seen)
    requires forall i :: i in nm <==> 0 <= i < |cs| && IsMaximum(cs, scores, i)
    ensures AreCandidates(l.img, l.threshold, border, n, seen)
  {
    hide IsMaximum, IsCorner, ScoreAt, InBorder;
    forall c
      ensures c in seen <==> Candidate(l.img, l.threshold, border, n, c)
    {
      if c in cs {
        var i :| 0 <= i < |cs| && cs[i] == c;
        MaximumIsCandidate(l, border, n, cs, scores, i);
        if Candidate(l.img, l.threshold, border, n, c) {
          assert i in nm;
          var j :| 0 <= j < |nm| && nm[j] == i;
          assert c == cs[nm[j]];
        }
        if c in seen {
          var j :| 0 <= j < |nm| && c == cs[nm[j]] && InBorder(l.img, border, cs[nm[j]]);
          assert nm[j] in nm;
          MaximumIsCandidate(l, border, n, cs, scores, nm[j]);
        }
      }
    }
  }

  /** A later corner of the level replaces what its cell holds if its score is higher. */
  lemma CellTakes(l: Level, seen: seq<XY>, c: XY, before: Corner, after: Corner, k: int)
    requires l.Valid() && AllInner(l.img, seen) && l.img.Inner(c.x, c.y) && forall d :: d in seen ==> Before(d, c)
    requires CellResult(l, seen, before, after, k)
    ensures AllInner(l.img, seen + [c])
    ensures CellResult(l, seen + [c], before,
      if l.CellOf(c) == k && l.ScoreOf(c) > after.score then l.CornerOf(c) else after, k)
  {
    hide ScoreAt, Level.CellOf;
    var more := seen + [c];
    assert forall d :: d in more <==> d in seen || d == c;
    if l.CellOf(c) == k && l.ScoreOf(c) > after.score {
      assert Wins(l, more, c, k);
    } else if exists d :: d in seen && l.CellOf(d) == k && l.ScoreOf(d) > before.score {
      var d :| Wins(l, seen, d, k) && l.ScoreOf(d) > before.score && after == l.CornerOf(d);
      assert Wins(l, more, d, k);
    }
  }

  lemma DetectionScored(l: Level, n: nat, cs: seq<XY>, scores: seq<int>)
    requires l.Valid() && cs == Corners(l.img, l.threshold, n) && |scores| == |cs|
    requires AllInner(l.img, cs) ==> forall i :: 0 <= i < |cs| ==> scores[i] == l.ScoreOf(cs[i])
    ensures Scored(l, n, cs, scores)
  {
    DetectionSorted(l, n, cs);
  }

  lemma DetectionSorted(l: Level, n: nat, cs: seq<XY>)
    requires l.Valid() && cs == Corners(l.img, l.threshold, n)
    ensures IsCornerList(cs) && AllInner(l.img, cs)
    ensures forall c :: c in cs <==> l.img.Inner(c.x, c.y) && IsCorner(l.img, c.x, c.y, l.threshold, n)
  {
    hide Corners, IsCorner;
    CornersExact(l.img, l.threshold, n);
    forall k | 0 <= k < |cs|
      ensures l.img.Inner(cs[k].x, cs[k].y)
    {
      assert cs[k] in cs;
    }
  }

  lemma NothingSeen(l: Level, border: int, cs: seq<XY>, nm: seq<int>, before: seq<Corner>)
    requires l.Valid() && |before| == |l.grid.occupancy| && forall j :: 0 <= j < |nm| ==> 0 <= nm[j] < |cs|
    ensures Seen(l, border, cs, nm, 0, []) && CellResults(l, [], before, before)
  {
  }

  lemma SeenBefore(l: Level, border: int, cs: seq<XY>, nm: seq<int>, m: nat, seen: seq<XY>)
    requires Seen(l, border, cs, nm, m, seen) && m < |nm| && Increasing(nm) && RasterSorted(cs)
    ensures forall d :: d in seen ==> Before(d, cs[nm[m]])
  {
  }

  lemma SeenGrows(l: Level, border: int, cs: seq<XY>, nm: seq<int>, m: nat, seen: seq<XY>)
    requires Seen(l, border, cs, nm, m, seen) && m < |nm| && Increasing(nm) && RasterSorted(cs) && AllInner(l.img, cs)
    ensures Seen(l, border, cs, nm, m + 1, if InBorder(l.img, border, cs[nm[m]]) then seen + [cs[nm[m]]] else seen)
  {
    hide InBorder;
    SeenBefore(l, border, cs, nm, m, seen);
    var c := cs[nm[m]];
    if InBorder(l.img, border, c) {
      assert forall d :: d in seen + [c] <==> d in seen || d == c;
    }
  }

  /** One survivor: skipped at the border and in occupied cells */
  method Offer(l: Level, border: int, xy: XY, score: int, corners: seq<Corner>, ghost before: seq<Corner>, ghost seen: seq<XY>)
    returns (out: seq<Corner>)
    requires l.Valid() && AllInner(l.img, seen) && l.img.Inner(xy.x, xy.y) && score == l.ScoreOf(xy)
    requires CellResults(l, seen, before, corners) && forall d :: d in seen ==> Before(d, xy)
    ensures AllInner(l.img, seen + [xy])
    ensures CellResults(l, if InBorder(l.img, border, xy) then seen + [xy] else seen, before, out)
  {
    hide ScoreAt, CellResult, Grid.CellIndex;
    out := corners;
    ghost var seen' := seen + [xy];
    var maxw := l.img.width - border;
    var maxh := l.img.height - border;
    if xy.x < border || xy.y < border || xy.x >= maxw || xy.y >= maxh {
      return;
    }
    CellInGrid(l.grid, l.img, l.scale, xy.x, xy.y);
    var k := l.grid.CellIndex(xy.x, xy.y, l.scale);
    forall i | 0 <= i < |corners| && !l.grid.occupancy[i]
      ensures CellResult(l, seen', before[i],
        if l.CellOf(xy) == i && l.ScoreOf(xy) > corners[i].score then l.CornerOf(xy) else corners[i], i)
    {
      CellTakes(l, seen, xy, before[i], corners[i], i);
    }
    if !l.grid.occupancy[k] && score > corners[k].score {
      out := corners[k := Corner(xy.x * l.scale, xy.y * l.scale, score, l.level)];
    }
  }

  /** The body of the loop over the levels */
  method DetectLevel(build: Build, l: Level, border: int, corners: seq<Corner>) returns (out: seq<Corner>)
    requires l.Valid() && SimdFits(l.threshold) && |corners| == |l.grid.occupancy|
    ensures LevelResult(l, border, ArcLength(build), corners, out)
  {
    hide IsMaximum, ScoreAt, CellResults, IsCorner, Corners;
    var fastCorners := Detect(build, l.img, l.threshold);
    DetectionSorted(l, ArcLength(build), fastCorners);
    var scores := FastCornerScore10(l.img, fastCorners, l.threshold);
    DetectionScored(l, ArcLength(build), fastCorners, scores);
    var nm, _ := FastNonmax3x3(fastCorners, scores);
    ghost var seen: seq<XY> := [];
    out := corners;
    assert forall j :: 0 <= j < |nm| ==> nm[j] in nm;
    NothingSeen(l, border, fastCorners, nm, corners);
    for i := 0 to |nm|
      invariant Seen(l, border, fastCorners, nm, i, seen) && CellResults(l, seen, corners, out)
    {
      var xy := fastCorners[nm[i]];
      SeenBefore(l, border, fastCorners, nm, i, seen);
      SeenGrows(l, border, fastCorners, nm, i, seen);
      out := Offer(l, border, xy, scores[nm[i]], out, corners, seen);
      seen := if InBorder(l.img, border, xy) then seen + [xy] else seen;
    }
    SeenAll(l, border, ArcLength(build), fastCorners, scores, nm, seen);
  }

  // ---------------------------------------------------------- all levels

  /** `1 << level` */
  function Scale(level: nat): (s: nat)
    ensures s > 0
  {
    if level == 0 then 1 else 2 * Scale(level - 1)
  }

  /** The scales are the powers of two. */
  lemma {:induction false} ScaleIsPower(a: nat, b: nat)
    ensures Scale(0) == 1 && Scale(1) == 2 && Scale(a + b) == Scale(a) * Scale(b)
  {
    if a > 0 {
      ScaleIsPower(a - 1, b);
      assert 2 * (Scale(a - 1) * Scale(b)) == (2 * Scale(a - 1)) * Scale(b);
    }
  }

  function LevelOf(pyramid: seq<Image>, level: nat, threshold: int, grid: Grid): Level
    requires level < |pyramid|
  {
    Level(pyramid[level], Scale(level), level, threshold, grid)
  }

  ghost predicate PyramidFits(pyramid: seq<Image>, threshold: int, grid: Grid) {
    forall level :: 0 <= level < |pyramid| ==> LevelOf(pyramid, level, threshold, grid).Valid()
  }

  /** The results of levels `lo .. hi`, one after the other */
  ghost predicate LevelResults(pyramid: seq<Image>, lo: nat, hi: nat, threshold: int, border: int, n: nat, grid: Grid,
                               before: seq<Corner>, after: seq<Corner>)
    requires hi <= |pyramid| && PyramidFits(pyramid, threshold, grid)
  {
    if hi <= lo then after == before
    else
      var last := hi - 1;
      var l := LevelOf(pyramid, last, threshold, grid);
      exists mid ::
        LevelResults(pyramid, lo, last, threshold, border, n, grid, before, mid) && LevelResult(l, border, n, mid, after)
  }

  // ------------------------------------------------ all builds find the same

  /** A 10-arc holds a 9-arc. */
  lemma SegmentShortens(circle: seq<Byte>, here: int, threshold: int)
    requires |circle| == 16 && Segment(circle, here, threshold, 10)
    ensures Segment(circle, here, threshold, 9)
  {
    hide HasArc;
    if HasArc(Above(circle, here + threshold), 10) {
      ArcShortens(Above(circle, here + threshold));
    } else {
      ArcShortens(Below(circle, here - threshold));
    }
  }

  /** A pixel whose score exceeds the threshold is a corner for 10-arcs, hence for 9-arcs. */
  lemma HighScoreIsCorner(img: Image, threshold: int, c: XY)
    requires img.Valid() && img.Inner(c.x, c.y) && ScoreAt(img, c, threshold) > threshold
    ensures IsCorner(img, c.x, c.y, threshold, 9) && IsCorner(img, c.x, c.y, threshold, 10)
  {
    hide BestMargin, Segment, Circle;
    var circle, here := Circle(img, c.x, c.y), img.At(c.x, c.y);
    SegmentIffBelowMargin(circle, here, threshold, 10);
    SegmentShortens(circle, here, threshold);
  }

  lemma ArcShortens(r: seq<bool>)
    requires |r| == 16 && HasArc(r, 10)
    ensures HasArc(r, 9)
  {
    var s :| 0 <= s < 16 && ArcFrom(r, s, 10);
    assert ArcFrom(r, s, 9);
  }

  /** Above the threshold the candidates for 9-arcs are those for 10-arcs. */
  lemma SameCandidates(img: Image, threshold: int, border: int, c: XY)
    requires img.Valid() && img.Inner(c.x, c.y) && ScoreAt(img, c, threshold) > threshold
    ensures Candidate(img, threshold, border, 9, c) <==> Candidate(img, threshold, border, 10, c)
  {
    hide ScoreAt, IsCorner, Near, InBorder;
    HighScoreIsCorner(img, threshold, c);
    forall q: XY | img.Inner(q.x, q.y) && ScoreAt(img, q, threshold) >= ScoreAt(img, c, threshold)
      ensures IsCorner(img, q.x, q.y, threshold, 9) && IsCorner(img, q.x, q.y, threshold, 10)
    {
      HighScoreIsCorner(img, threshold, q);
    }
  }

  ghost predicate AtLeast(corners: seq<Corner>, threshold: int) {
    forall k :: 0 <= k < |corners| ==> corners[k].score >= threshold
  }

  /** Two lists that agree above the old score give a cell the same result. */
  lemma CellUnique(l: Level, found: seq<XY>, found': seq<XY>, before: Corner, after: Corner, after': Corner, k: int)
    requires l.Valid() && AllInner(l.img, found) && AllInner(l.img, found')
    requires forall c: XY :: l.img.Inner(c.x, c.y) && l.ScoreOf(c) > before.score ==> (c in found <==> c in found')
    requires CellResult(l, found, before, after, k) && CellResult(l, found', before, after', k)
    ensures after == after' && after.score >= before.score
  {
    hide ScoreAt, Level.CellOf;
    if c :| c in found && l.CellOf(c) == k && l.ScoreOf(c) > before.score {
      assert c in found';
      var w :| Wins(l, found, w, k) && l.ScoreOf(w) > before.score && after == l.CornerOf(w);
      var w' :| Wins(l, found', w', k) && l.ScoreOf(w') > before.score && after' == l.CornerOf(w');
      assert w in found' && w' in found;
      assert w == w';
    } else {
      assert forall c :: c in found' && l.CellOf(c) == k ==> l.ScoreOf(c) <= before.score;
    }
  }

  lemma LevelSame(l: Level, border: int, n: nat, n': nat, before: seq<Corner>, after: seq<Corner>, after': seq<Corner>)
    requires l.Valid() && AtLeast(before, l.threshold) && n in {9, 10} && n' in {9, 10}
    requires LevelResult(l, border, n, before, after) && LevelResult(l, border, n', before, after')
    ensures after == after' && AtLeast(after, l.threshold)
  {
    hide ScoreAt, CellResult, Candidate;
    var found :| AreCandidates(l.img, l.threshold, border, n, found) && AllInner(l.img, found) && CellResults(l, found, before, after);
    var found' :| AreCandidates(l.img, l.threshold, border, n', found') && AllInner(l.img, found') && CellResults(l, found', before, after');
    forall c: XY | l.img.Inner(c.x, c.y) && l.ScoreOf(c) > l.threshold
      ensures c in found <==> c in found'
    {
      SameCandidates(l.img, l.threshold, border, c);
    }
    forall k | 0 <= k < |before|
      ensures after[k] == after'[k] && after[k].score >= l.threshold
    {
      if !l.grid.occupancy[k] {
        CellUnique(l, found, found', before[k], after[k], after'[k], k);
      }
    }
  }

  /** Every build selects the same corners, although the NEON build detects 9-arcs: what is a corner
      for 9-arcs only scores no more than the threshold, and the cells start at the threshold. */
  lemma {:induction false} BuildsAgree(build: Build, build': Build, pyramid: seq<Image>, lo: nat, hi: nat, threshold: int, border: int,
                                       grid: Grid, before: seq<Corner>, after: seq<Corner>, after': seq<Corner>)
    requires hi <= |pyramid| && PyramidFits(pyramid, threshold, grid) && AtLeast(before, threshold)
    requires LevelResults(pyramid, lo, hi, threshold, border, ArcLength(build), grid, before, after)
    requires LevelResults(pyramid, lo, hi, threshold, border, ArcLength(build'), grid, before, after')
    ensures after == after' && AtLeast(after, threshold)
    decreases hi
  {
    hide LevelResult, Level.Valid;
    if hi > lo {
      var l := LevelOf(pyramid, hi - 1, threshold, grid);
      var mid :| LevelResults(pyramid, lo, hi - 1, threshold, border, ArcLength(build), grid, before, mid) &&
        LevelResult(l, border, ArcLength(build), mid, after);
      var mid' :| LevelResults(pyramid, lo, hi - 1, threshold, border, ArcLength(build'), grid, before, mid') &&
        LevelResult(l, border, ArcLength(build'), mid', after');
      BuildsAgree(build, build', pyramid, lo, hi - 1, threshold, border, grid, before, mid, mid');
      LevelSame(l, border, ArcLength(build), ArcLength(build'), mid, after, after');
    }
  }

  // ----------------------------------------------------- what a cell holds

  /** Corner `c` of the level is a candidate for cell `k`. */
  ghost predicate CandidateFor(l: Level, border: int, n: nat, c: XY, k: int)
    requires l.Valid()
  {
    Candidate(l.img, l.threshold, border, n, c) && l.CellOf(c) == k
  }

  /** Besides, no candidate for the cell comes before it that scores the same. */
  ghost predicate FirstOfLevel(l: Level, border: int, n: nat, c: XY, k: int)
    requires l.Valid()
  {
    CandidateFor(l, border, n, c, k) && forall d :: CandidateFor(l, border, n, d, k) && l.ScoreOf(d) == l.ScoreOf(c) ==> !Before(d, c)
  }

  lemma CellKeepsBest(l: Level, found: seq<XY>, before: Corner, after: Corner, k: int) returns (w: XY)
    requires l.Valid() && AllInner(l.img, found) && CellResult(l, found, before, after, k)
    ensures after.score >= before.score
    ensures forall c :: c in found && l.CellOf(c) == k ==> l.ScoreOf(c) <= after.score
    ensures after == before || (w in found && l.CellOf(w) == k && after == l.CornerOf(w) && after.score > before.score)
    ensures after == before || forall d :: d in found && l.CellOf(d) == k && l.ScoreOf(d) == after.score ==> !Before(d, w)
  {
    hide ScoreAt, Level.CellOf;
    w := XY(0, 0);
    if c :| c in found && l.CellOf(c) == k && l.ScoreOf(c) > before.score {
      w :| Wins(l, found, w, k) && l.ScoreOf(w) > before.score && after == l.CornerOf(w);
    }
  }

  lemma LevelKeepsBest(l: Level, border: int, n: nat, before: seq<Corner>, after: seq<Corner>, k: int)
    requires l.Valid() && LevelResult(l, border, n, before, after) && 0 <= k < |before|
    ensures |before| == |after| == |l.grid.occupancy| && after[k].score >= before[k].score
    ensures l.grid.occupancy[k] ==> after[k] == before[k]
    ensures !l.grid.occupancy[k] ==> forall c :: CandidateFor(l, border, n, c, k) ==> l.ScoreOf(c) <= after[k].score
    ensures after[k] == before[k] || after[k].score > before[k].score
    ensures after[k] == before[k] || exists c :: FirstOfLevel(l, border, n, c, k) && after[k] == l.CornerOf(c)
  {
    hide ScoreAt, Candidate, Level.CellOf, Level.ScoreOf, CellResult;
    var found :| AreCandidates(l.img, l.threshold, border, n, found) && AllInner(l.img, found) && CellResults(l, found, before, after);
    if !l.grid.occupancy[k] {
      var w := CellKeepsBest(l, found, before[k], after[k], k);
      assert after[k] == before[k] || FirstOfLevel(l, border, n, w, k);
    }
  }

  /** No candidate for cell `k` of any level scores higher. */
  ghost predicate NoneBetter(pyramid: seq<Image>, lo: nat, hi: nat, threshold: int, border: int, n: nat, grid: Grid, score: int, k: int)
    requires hi <= |pyramid| && PyramidFits(pyramid, threshold, grid)
  {
    forall level, c | lo <= level < hi && CandidateFor(LevelOf(pyramid, level, threshold, grid), border, n, c, k) ::
      LevelOf(pyramid, level, threshold, grid).ScoreOf(c) <= score
  }

  /** The corner is a candidate for cell `k` of some level, and the first one with its score. */
  ghost predicate FoundThere(pyramid: seq<Image>, lo: nat, hi: nat, threshold: int, border: int, n: nat, grid: Grid, corner: Corner, k: int)
    requires hi <= |pyramid| && PyramidFits(pyramid, threshold, grid)
  {
    exists level, c | lo <= level < hi && FirstOfLevel(LevelOf(pyramid, level, threshold, grid), border, n, c, k) ::
      corner == LevelOf(pyramid, level, threshold, grid).CornerOf(c) && NoneBefore(pyramid, lo, level, threshold, border, n, grid, corner.score, k)
  }

  /** No candidate for cell `k` of these levels scores as much. */
  ghost predicate NoneBefore(pyramid: seq<Image>, lo: nat, hi: nat, threshold: int, border: int, n: nat, grid: Grid, score: int, k: int)
    requires hi <= |pyramid| && PyramidFits(pyramid, threshold, grid)
  {
    forall level, c | lo <= level < hi && CandidateFor(LevelOf(pyramid, level, threshold, grid), border, n, c, k) ::
      LevelOf(pyramid, level, threshold, grid).ScoreOf(c) < score
  }

  /** After all levels a free cell holds a candidate of some level, or what it held before, and no
      candidate of any level has a higher score; an occupied cell holds what it held before. */
  lemma {:induction false} CellsHoldBest(pyramid: seq<Image>, lo: nat, hi: nat, threshold: int, border: int, n: nat, grid: Grid,
                                         before: seq<Corner>, after: seq<Corner>, k: int)
    requires hi <= |pyramid| && PyramidFits(pyramid, threshold, grid) && 0 <= k < |before| == |grid.occupancy|
    requires LevelResults(pyramid, lo, hi, threshold, border, n, grid, before, after)
    ensures |after| == |before| && after[k].score >= before[k].score
    ensures grid.occupancy[k] ==> after[k] == before[k]
    ensures !grid.occupancy[k] ==> NoneBetter(pyramid, lo, hi, threshold, border, n, grid, after[k].score, k)
    ensures after[k] == before[k] || after[k].score > before[k].score
    ensures after[k] == before[k] || FoundThere(pyramid, lo, hi, threshold, border, n, grid, after[k], k)
    decreases hi
  {
    hide LevelResult, Level.Valid, ScoreAt, Candidate, Level.CellOf, FirstOfLevel;
    if hi > lo {
      var l := LevelOf(pyramid, hi - 1, threshold, grid);
      var mid :| LevelResults(pyramid, lo, hi - 1, threshold, border, n, grid, before, mid) && LevelResult(l, border, n, mid, after);
      CellsHoldBest(pyramid, lo, hi - 1, threshold, border, n, grid, before, mid, k);
      LevelKeepsBest(l, border, n, mid, after, k);
    }
  }

  // ------------------------------------- the same, without index and scaling

  /** The corner is pixel `c` of a level, in the coordinates of the full image: a corner of the level inside the
      border, with a higher score than the corners next to it. */
  ghost predicate ComesFrom(pyramid: seq<Image>, level: nat, threshold: int, border: int, n: nat, corner: Corner, c: XY)
    requires level < |pyramid| && pyramid[level].Valid()
  {
    var img := pyramid[level];
    img.Inner(c.x, c.y) && IsCorner(img, c.x, c.y, threshold, n) &&
    border <= c.x < img.width - border && border <= c.y < img.height - border &&
    (forall q: XY ::
       q != c && -1 <= q.x - c.x <= 1 && -1 <= q.y - c.y <= 1 && img.Inner(q.x, q.y) && IsCorner(img, q.x, q.y, threshold, n) ==>
         ScoreAt(img, q, threshold) < ScoreAt(img, c, threshold)) &&
    corner.x == c.x * Scale(level) && corner.y == c.y * Scale(level) && corner.level == level &&
    corner.score == ScoreAt(img, c, threshold)
  }

  /** What a level finds in the cell with the same score is found on a later level, or on the same level but not
      before `c`. */
  ghost predicate FoundFirst(pyramid: seq<Image>, lo: nat, hi: nat, threshold: int, border: int, n: nat, grid: Grid,
                             level: nat, c: XY, score: int, k: int)
    requires hi <= |pyramid| && PyramidFits(pyramid, threshold, grid) && 0 <= k < grid.nCols * grid.nRows
  {
    forall level', corner, d ::
      lo <= level' < hi && LevelOf(pyramid, level', threshold, grid).Valid() &&
      ComesFrom(pyramid, level', threshold, border, n, corner, d) && InCell(grid, k, corner.x, corner.y) && corner.score == score ==>
        level' > level || (level' == level && !Before(d, c))
  }

  /** What a cell holds is what it held before, or a higher-scoring corner that a level found at a
      pixel of the cell, and found first. */
  ghost predicate HoldsFound(pyramid: seq<Image>, lo: nat, hi: nat, threshold: int, border: int, n: nat, grid: Grid,
                             before: Corner, after: Corner, k: int)
    requires hi <= |pyramid| && PyramidFits(pyramid, threshold, grid) && 0 <= k < grid.nCols * grid.nRows
  {
    after == before ||
    (after.score > before.score && InCell(grid, k, after.x, after.y) &&
     exists level, c :: lo <= level < hi && LevelOf(pyramid, level, threshold, grid).Valid() &&
       ComesFrom(pyramid, level, threshold, border, n, after, c) &&
       FoundFirst(pyramid, lo, hi, threshold, border, n, grid, level, c, after.score, k))
  }

  /** No level has a candidate at a pixel of the cell with a higher score. */
  ghost predicate HoldsBest(pyramid: seq<Image>, lo: nat, hi: nat, threshold: int, border: int, n: nat, grid: Grid, score: int, k: int)
    requires hi <= |pyramid| && PyramidFits(pyramid, threshold, grid) && 0 <= k < grid.nCols * grid.nRows
  {
    forall level, corner, c ::
      lo <= level < hi && LevelOf(pyramid, level, threshold, grid).Valid() &&
      ComesFrom(pyramid, level, threshold, border, n, corner, c) && InCell(grid, k, corner.x, corner.y) ==>
        corner.score <= score
  }

  lemma CandidateWrittenOut(pyramid: seq<Image>, level: nat, threshold: int, border: int, n: nat, corner: Corner, c: XY)
    requires level < |pyramid| && pyramid[level].Valid()
    ensures ComesFrom(pyramid, level, threshold, border, n, corner, c) <==>
      Candidate(pyramid[level], threshold, border, n, c) && corner.x == c.x * Scale(level) && corner.y == c.y * Scale(level) &&
      corner.level == level && corner.score == ScoreAt(pyramid[level], c, threshold)
  {
    hide IsCorner, ScoreAt, Scale;
    var img := pyramid[level];
    assert forall q: XY :: Near(c, q, 1) <==> -1 <= q.x - c.x <= 1 && -1 <= q.y - c.y <= 1;
  }

  lemma CandidateInCell(l: Level, border: int, n: nat, c: XY, k: int)
    requires l.Valid() && Candidate(l.img, l.threshold, border, n, c) && 0 <= k < |l.grid.occupancy|
    ensures l.CellOf(c) == k <==> InCell(l.grid, k, c.x * l.scale, c.y * l.scale)
  {
    hide IsCorner, ScoreAt, InCell, Grid.CellIndex, InBorder;
    CellIndexExact(l.grid, l.img, l.scale, c.x, c.y, k);
  }

  /** Which corner a cell ends with, by the pixels of the cell and of the levels alone */
  lemma CellsByPixels(pyramid: seq<Image>, lo: nat, hi: nat, threshold: int, border: int, n: nat, grid: Grid,
                      before: seq<Corner>, after: seq<Corner>, k: int)
    requires hi <= |pyramid| && PyramidFits(pyramid, threshold, grid) && 0 <= k < |before| == |grid.occupancy| == grid.nCols * grid.nRows
    requires LevelResults(pyramid, lo, hi, threshold, border, n, grid, before, after)
    ensures |after| == |before|
    ensures grid.occupancy[k] ==> after[k] == before[k]
    ensures HoldsFound(pyramid, lo, hi, threshold, border, n, grid, before[k], after[k], k)
    ensures !grid.occupancy[k] ==> HoldsBest(pyramid, lo, hi, threshold, border, n, grid, after[k].score, k)
  {
    hide LevelResults, Candidate, ScoreAt, InCell, Level.CellOf, CandidateFor;
    CellsHoldBest(pyramid, lo, hi, threshold, border, n, grid, before, after, k);
    if after[k] != before[k] {
      FoundByPixels(pyramid, lo, hi, threshold, border, n, grid, before[k], after[k], k);
    }
    if !grid.occupancy[k] {
      BestByPixels(pyramid, lo, hi, threshold, border, n, grid, after[k].score, k);
    }
  }

  lemma FoundByPixels(pyramid: seq<Image>, lo: nat, hi: nat, threshold: int, border: int, n: nat, grid: Grid,
                      before: Corner, after: Corner, k: int)
    requires hi <= |pyramid| && PyramidFits(pyramid, threshold, grid) && 0 <= k < |grid.occupancy| == grid.nCols * grid.nRows
    requires after.score > before.score && FoundThere(pyramid, lo, hi, threshold, border, n, grid, after, k)
    ensures HoldsFound(pyramid, lo, hi, threshold, border, n, grid, before, after, k)
  {
    hide InCell, ComesFrom, FoundThere, FoundFirst, Level.Valid;
    var level, c := FoundWhere(pyramid, lo, hi, threshold, border, n, grid, after, k);
  }

  lemma FoundWhere(pyramid: seq<Image>, lo: nat, hi: nat, threshold: int, border: int, n: nat, grid: Grid, after: Corner, k: int)
    returns (level: nat, c: XY)
    requires hi <= |pyramid| && PyramidFits(pyramid, threshold, grid) && 0 <= k < |grid.occupancy| == grid.nCols * grid.nRows
    requires FoundThere(pyramid, lo, hi, threshold, border, n, grid, after, k)
    ensures lo <= level < hi && LevelOf(pyramid, level, threshold, grid).Valid()
    ensures ComesFrom(pyramid, level, threshold, border, n, after, c)
    ensures InCell(grid, k, after.x, after.y)
    ensures FoundFirst(pyramid, lo, hi, threshold, border, n, grid, level, c, after.score, k)
  {
    hide ScoreAt, InCell, Level.CellOf, IsCorner, InBorder, NoneBefore, FoundFirst, ComesFrom;
    level, c :| lo <= level < hi && FirstOfLevel(LevelOf(pyramid, level, threshold, grid), border, n, c, k) &&
      after == LevelOf(pyramid, level, threshold, grid).CornerOf(c) &&
      NoneBefore(pyramid, lo, level, threshold, border, n, grid, after.score, k);
    FirstByPixels(pyramid, lo, hi, threshold, border, n, grid, level, c, after, k);
  }

  lemma FirstByPixels(pyramid: seq<Image>, lo: nat, hi: nat, threshold: int, border: int, n: nat, grid: Grid,
                      level: nat, c: XY, after: Corner, k: int)
    requires lo <= level < hi <= |pyramid| && PyramidFits(pyramid, threshold, grid) && 0 <= k < |grid.occupancy| == grid.nCols * grid.nRows
    requires FirstOfLevel(LevelOf(pyramid, level, threshold, grid), border, n, c, k)
    requires after == LevelOf(pyramid, level, threshold, grid).CornerOf(c)
    requires NoneBefore(pyramid, lo, level, threshold, border, n, grid, after.score, k)
    ensures LevelOf(pyramid, level, threshold, grid).Valid() && ComesFrom(pyramid, level, threshold, border, n, after, c)
    ensures InCell(grid, k, after.x, after.y)
    ensures FoundFirst(pyramid, lo, hi, threshold, border, n, grid, level, c, after.score, k)
  {
    hide ScoreAt, InCell, Level.CellOf, Candidate, ComesFrom;
    var l := LevelOf(pyramid, level, threshold, grid);
    CandidateInCell(l, border, n, c, k);
    CandidateWrittenOut(pyramid, level, threshold, border, n, after, c);
    forall level', corner, d | lo <= level' < hi && LevelOf(pyramid, level', threshold, grid).Valid() &&
      ComesFrom(pyramid, level', threshold, border, n, corner, d) && InCell(grid, k, corner.x, corner.y) && corner.score == after.score
      ensures level' > level || (level' == level && !Before(d, c))
    {
      CandidateWrittenOut(pyramid, level', threshold, border, n, corner, d);
      CandidateInCell(LevelOf(pyramid, level', threshold, grid), border, n, d, k);
      assert CandidateFor(LevelOf(pyramid, level', threshold, grid), border, n, d, k);
    }
  }

  lemma BestByPixels(pyramid: seq<Image>, lo: nat, hi: nat, threshold: int, border: int, n: nat, grid: Grid, score: int, k: int)
    requires hi <= |pyramid| && PyramidFits(pyramid, threshold, grid) && 0 <= k < |grid.occupancy| == grid.nCols * grid.nRows
    requires NoneBetter(pyramid, lo, hi, threshold, border, n, grid, score, k)
    ensures HoldsBest(pyramid, lo, hi, threshold, border, n, grid, score, k)
  {
    hide ScoreAt, InCell, Level.CellOf, Candidate, ComesFrom;
    forall level, corner, c | lo <= level < hi && LevelOf(pyramid, level, threshold, grid).Valid() &&
      ComesFrom(pyramid, level, threshold, border, n, corner, c) && InCell(grid, k, corner.x, corner.y)
      ensures corner.score <= score
    {
      CandidateWrittenOut(pyramid, level, threshold, border, n, corner, c);
      CandidateInCell(LevelOf(pyramid, level, threshold, grid), border, n, c, k);
      assert CandidateFor(LevelOf(pyramid, level, threshold, grid), border, n, c, k);
    }
  }

  /** Every cell: an occupied one keeps its corner; a free one holds the best that was found in it. */
  ghost predicate CellsDone(pyramid: seq<Image>, lo: nat, hi: nat, threshold: int, border: int, n: nat, grid: Grid,
                            before: seq<Corner>, after: seq<Corner>)
    requires hi <= |pyramid| && PyramidFits(pyramid, threshold, grid) && |before| == |after| == grid.nCols * grid.nRows == |grid.occupancy|
  {
    forall k :: 0 <= k < |after| ==>
      if grid.occupancy[k] then after[k] == before[k]
      else
        HoldsFound(pyramid, lo, hi, threshold, border, n, grid, before[k], after[k], k) &&
        HoldsBest(pyramid, lo, hi, threshold, border, n, grid, after[k].score, k)
  }

  lemma AllCellsByPixels(pyramid: seq<Image>, lo: nat, hi: nat, threshold: int, border: int, n: nat, grid: Grid,
                         before: seq<Corner>, after: seq<Corner>)
    requires pyramid != [] && hi <= |pyramid| && PyramidFits(pyramid, threshold, grid) && |before| == |after| == |grid.occupancy|
    requires LevelResults(pyramid, lo, hi, threshold, border, n, grid, before, after)
    ensures |grid.occupancy| == grid.nCols * grid.nRows
    ensures CellsDone(pyramid, lo, hi, threshold, border, n, grid, before, after)
  {
    hide HoldsFound, HoldsBest, LevelResults;
    assert LevelOf(pyramid, 0, threshold, grid).Valid();
    forall k | 0 <= k < |after|
      ensures grid.occupancy[k] ==> after[k] == before[k]
      ensures HoldsFound(pyramid, lo, hi, threshold, border, n, grid, before[k], after[k], k)
      ensures !grid.occupancy[k] ==> HoldsBest(pyramid, lo, hi, threshold, border, n, grid, after[k].score, k)
    {
      CellsByPixels(pyramid, lo, hi, threshold, border, n, grid, before, after, k);
    }
  }

  // ------------------------------------------------------------ the detector

  /** The loop over the levels */
  method RunLevels(build: Build, pyramid: seq<Image>, threshold: int, border: int, minLevel: nat, maxLevel: nat,
                   corners: seq<Corner>, grid: Grid)
    returns (out: seq<Corner>)
    requires SimdFits(threshold) && PyramidFits(pyramid, threshold, grid)
    requires |corners| == |grid.occupancy| && maxLevel < |pyramid|
    ensures LevelResults(pyramid, minLevel, maxLevel + 1, threshold, border, ArcLength(build), grid, corners, out)
    ensures |out| == |corners|
  {
    out := corners;
    var level := minLevel;
    while level <= maxLevel
      invariant minLevel <= level && (level <= maxLevel + 1 || level == minLevel) && |out| == |corners|
      invariant level <= maxLevel + 1 ==> LevelResults(pyramid, minLevel, level, threshold, border, ArcLength(build), grid, corners, out)
      invariant level > maxLevel + 1 ==> out == corners
    {
      var l := LevelOf(pyramid, level, threshold, grid);
      var next := DetectLevel(build, l, border, out);
      out := next;
      level := level + 1;
    }
  }

  /** `fastDetector` */
  method FastDetector(build: Build, pyramid: seq<Image>, threshold: int, border: int, minLevel: nat, maxLevel: nat,
                      corners: seq<Corner>, grid: Grid)
    returns (out: seq<Corner>)
    requires SimdFits(threshold) && PyramidFits(pyramid, threshold, grid)
    requires |corners| == |grid.occupancy| && maxLevel < |pyramid|
    ensures LevelResults(pyramid, minLevel, maxLevel + 1, threshold, border, ArcLength(build), grid, corners, out)
    ensures |out| == |corners| == grid.nCols * grid.nRows == |grid.occupancy|
    ensures CellsDone(pyramid, minLevel, maxLevel + 1, threshold, border, ArcLength(build), grid, corners, out)
  {
    hide CellsDone, LevelResults, PyramidFits, SimdFits, Grid.Valid;
    out := RunLevels(build, pyramid, threshold, border, minLevel, maxLevel, corners, grid);
    AllCellsByPixels(pyramid, minLevel, maxLevel + 1, threshold, border, ArcLength(build), grid, corners, out);
  }
}
