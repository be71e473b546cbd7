/** Non-maximum suppression in a 3x3 window, `fast_nonmax_3x3`. */
module Nonmax3x3 {
  import opened FastCircle

  /** The list is in strict raster order and its rows are not negative. */
  ghost predicate IsCornerList(cs: seq<XY>) {
    RasterSorted(cs) && forall i :: 0 <= i < |cs| ==> 0 <= cs[i].y
  }

  /** `b` lies in the square window of half-width `r` around `a`. */
  predicate Near(a: XY, b: XY, r: int) {
    -r <= b.x - a.x <= r && -r <= b.y - a.y <= r
  }

  /** Corner `j` is in the window of corner `i` and does not score less. */
  predicate Beats(cs: seq<XY>, scores: seq<int>, j: int, i: int)
    requires |scores| == |cs| && 0 <= i < |cs| && 0 <= j < |cs|
  {
    Near(cs[i], cs[j], 1) && scores[j] >= scores[i]
  }

  /** Every other corner in the 3x3 window scores less. */
  ghost predicate IsMaximum(cs: seq<XY>, scores: seq<int>, i: int)
    requires |scores| == |cs| && 0 <= i < |cs|
  {
    forall j :: 0 <= j < |cs| && j != i ==> !Beats(cs, scores, j, i)
  }

  /** Written out: every other corner at most one column and one row away scores less. */
  lemma MaximumByPixels(cs: seq<XY>, scores: seq<int>, i: int)
    requires |scores| == |cs| && 0 <= i < |cs|
    ensures IsMaximum(cs, scores, i) <==>
      forall j :: 0 <= j < |cs| && j != i && -1 <= cs[j].x - cs[i].x <= 1 && -1 <= cs[j].y - cs[i].y <= 1 ==> scores[j] < scores[i]
  {
    forall j | 0 <= j < |cs|
      ensures Beats(cs, scores, j, i) <==>
        -1 <= cs[j].x - cs[i].x <= 1 && -1 <= cs[j].y - cs[i].y <= 1 && scores[j] >= scores[i]
    {
    }
  }

  ghost predicate Increasing(s: seq<int>) {
    forall a, b :: 0 <= a < b < |s| ==> s[a] < s[b]
  }

  /** `row_start` of the first `n` corners: where each row begins, or -1 for an empty row */
  ghost predicate RowStarts(row: seq<int>, cs: seq<XY>, n: int)
    requires 0 <= n <= |cs|
  {
    (forall j :: 0 <= j < n ==> 0 <= cs[j].y < |row| && 0 <= row[cs[j].y] <= j) &&
    (forall y :: 0 <= y < |row| && row[y] != -1 ==>
      0 <= row[y] < n && cs[row[y]].y == y && forall j :: 0 <= j < row[y] ==> cs[j].y < y)
  }

  /** A vector of `height` entries, all -1 */
  method EmptyRows(height: int, cs: seq<XY>) returns (row: array<int>)
    ensures fresh(row) && row.Length == (if height < 0 then 0 else height) && RowStarts(row[..], cs, 0)
  {
    row := new int[if height < 0 then 0 else height](_ => -1);
  }

  method MarkRow(row: array<int>, cs: seq<XY>, i: int)
    requires IsCornerList(cs) && 0 <= i < |cs| && RowStarts(row[..], cs, i) && cs[i].y < row.Length
    requires i == 0 || cs[i - 1].y != cs[i].y
    modifies row
    ensures RowStarts(row[..], cs, i + 1)
  {
    row[cs[i].y] := i;
  }

  lemma SameRowStart(row: seq<int>, cs: seq<XY>, i: int)
    requires IsCornerList(cs) && 0 < i < |cs| && RowStarts(row, cs, i) && cs[i - 1].y == cs[i].y
    ensures RowStarts(row, cs, i + 1)
  {
  }

  method FindRows(cs: seq<XY>) returns (row: array<int>)
    requires IsCornerList(cs) && |cs| > 0
    ensures fresh(row) && row.Length == cs[|cs| - 1].y + 1 && RowStarts(row[..], cs, |cs|)
  {
    hide RowStarts;
    row := EmptyRows(cs[|cs| - 1].y + 1, cs);
    var prevRow := -1;
    var i := 0;
    while i < |cs|
      invariant 0 <= i <= |cs|
      invariant prevRow == if i == 0 then -1 else cs[i - 1].y
      invariant fresh(row) && row.Length == cs[|cs| - 1].y + 1 && RowStarts(row[..], cs, i)
    {
      RowBound(cs, i);
      if cs[i].y != prevRow {
        MarkRow(row, cs, i);
        prevRow := cs[i].y;
      } else {
        SameRowStart(row[..], cs, i);
      }
      i := i + 1;
    }
  }

  lemma RowBound(cs: seq<XY>, i: int)
    requires IsCornerList(cs) && 0 <= i < |cs|
    ensures 0 <= cs[i].y <= cs[|cs| - 1].y
  {
    assert i < |cs| - 1 ==> Before(cs[i], cs[|cs| - 1]);
  }

  /** What a non-empty entry of `row_start` says */
  lemma StartOf(row: seq<int>, cs: seq<XY>, y: int)
    requires RowStarts(row, cs, |cs|) && 0 <= y < |row| && row[y] != -1
    ensures 0 <= row[y] < |cs| && cs[row[y]].y == y && forall j :: 0 <= j < row[y] ==> cs[j].y < y
  {
  }

  // ---------------------------------------------------------- the row above

  /** Corner `j` comes before everything in the row above corner `i` that its window covers. */
  predicate LeftOfAbove(cs: seq<XY>, j: int, i: int)
    requires 0 <= i < |cs| && 0 <= j < |cs|
  {
    cs[j].y < cs[i].y - 1 || (cs[j].y == cs[i].y - 1 && cs[j].x < cs[i].x - 1)
  }

  /** The cursor has passed only corners that are too far left, or in an earlier row. */
  ghost predicate AbovePassed(cs: seq<XY>, above: int, i: int) {
    0 <= above <= i < |cs| && forall j :: 0 <= j < above ==> LeftOfAbove(cs, j, i)
  }

  /** What corner `i` may skip, every later corner may skip. */
  lemma AbovePersists(cs: seq<XY>, above: int, i: int)
    requires IsCornerList(cs) && AbovePassed(cs, above, i) && i + 1 < |cs|
    ensures AbovePassed(cs, above, i + 1)
  {
    var next := i + 1;
    assert Before(cs[i], cs[next]);
    forall j | 0 <= j < above ensures LeftOfAbove(cs, j, next) {
      assert LeftOfAbove(cs, j, i);
    }
  }

  method AdvanceAbove(cs: seq<XY>, row: array<int>, i: int, above: int) returns (cursor: int)
    requires IsCornerList(cs) && AbovePassed(cs, above, i)
    requires RowStarts(row[..], cs, |cs|) && cs[i].y != 0 && row[cs[i].y - 1] != -1
    ensures above <= cursor && AbovePassed(cs, cursor, i)
    ensures !LeftOfAbove(cs, cursor, i)
  {
    var pos := cs[i];
    cursor := above;
    StartOf(row[..], cs, pos.y - 1);
    hide RowStarts;
    if cs[cursor].y < pos.y - 1 {
      cursor := row[pos.y - 1];
    }
    while cs[cursor].y < pos.y && cs[cursor].x < pos.x - 1
      invariant above <= cursor <= i && pos.y - 1 <= cs[cursor].y
      invariant forall j :: 0 <= j < cursor ==> LeftOfAbove(cs, j, i)
    {
      assert Before(cs[cursor], cs[cursor + 1]);
      cursor := cursor + 1;
    }
  }

  method ScanAbove(cs: seq<XY>, scores: seq<int>, i: int, cursor: int) returns (beaten: bool, ghost visited: nat)
    requires IsCornerList(cs) && |scores| == |cs| && AbovePassed(cs, cursor, i) && !LeftOfAbove(cs, cursor, i)
    ensures beaten <==> BeatenInRow(cs, scores, i, cs[i].y - 1)
    ensures visited <= 3
  {
    var pos := cs[i];
    var j := cursor;
    while cs[j].y < pos.y && cs[j].x <= pos.x + 1
      invariant cursor <= j <= i
      invariant cursor < j ==> cs[cursor].y == cs[j - 1].y == pos.y - 1
      invariant cursor < j ==> pos.x - 1 <= cs[cursor].x && cs[cursor].x + (j - 1 - cursor) <= cs[j - 1].x <= pos.x + 1
      invariant forall m :: cursor <= m < j ==> !Beats(cs, scores, m, i)
    {
      assert cursor < j ==> Before(cs[j - 1], cs[j]);
      var x := cs[j].x;
      if (x == pos.x - 1 || x == pos.x || x == pos.x + 1) && scores[j] >= scores[i] {
        assert Beats(cs, scores, j, i);
        return true, j - cursor + 1;
      }
      j := j + 1;
    }
    forall m | 0 <= m < |cs| && cs[m].y == pos.y - 1 ensures !Beats(cs, scores, m, i) {
      if m < cursor {
        assert LeftOfAbove(cs, m, i);
      } else if m > j {
        assert Before(cs[j], cs[m]);
      }
    }
    beaten := false;
    visited := j - cursor;
  }

  // ---------------------------------------------------------- the row below

  /** Corner `j` comes before everything in the row below corner `i` that its window covers. */
  predicate LeftOfBelow(cs: seq<XY>, j: int, i: int)
    requires 0 <= i < |cs| && 0 <= j < |cs|
  {
    cs[j].y <= cs[i].y || (cs[j].y == cs[i].y + 1 && cs[j].x < cs[i].x - 1)
  }

  ghost predicate BelowPassed(cs: seq<XY>, below: int, i: int) {
    0 <= below <= |cs| && 0 <= i < |cs| && forall j :: 0 <= j < below ==> LeftOfBelow(cs, j, i)
  }

  lemma BelowPersists(cs: seq<XY>, below: int, i: int)
    requires IsCornerList(cs) && BelowPassed(cs, below, i) && i + 1 < |cs|
    ensures BelowPassed(cs, below, i + 1)
  {
    var next := i + 1;
    assert Before(cs[i], cs[next]);
    forall j | 0 <= j < below ensures LeftOfBelow(cs, j, next) {
      assert LeftOfBelow(cs, j, i);
    }
  }

  method AdvanceBelow(cs: seq<XY>, row: array<int>, i: int, below: int) returns (cursor: int)
    requires IsCornerList(cs) && BelowPassed(cs, below, i) && below < |cs|
    requires RowStarts(row[..], cs, |cs|) && cs[i].y + 1 < row.Length && row[cs[i].y + 1] != -1
    ensures below <= cursor <= |cs| && BelowPassed(cs, cursor, i)
    ensures cursor < |cs| ==> !LeftOfBelow(cs, cursor, i)
  {
    var pos := cs[i];
    cursor := below;
    StartOf(row[..], cs, pos.y + 1);
    hide RowStarts;
    if cs[cursor].y < pos.y + 1 {
      cursor := row[pos.y + 1];
    }
    while cursor < |cs| && cs[cursor].y == pos.y + 1 && cs[cursor].x < pos.x - 1
      invariant below <= cursor <= |cs| && (cursor < |cs| ==> pos.y + 1 <= cs[cursor].y)
      invariant forall j :: 0 <= j < cursor ==> LeftOfBelow(cs, j, i)
    {
      assert cursor + 1 < |cs| ==> Before(cs[cursor], cs[cursor + 1]);
      cursor := cursor + 1;
    }
  }

  method ScanBelow(cs: seq<XY>, scores: seq<int>, i: int, cursor: int) returns (beaten: bool, ghost visited: nat)
    requires IsCornerList(cs) && |scores| == |cs| && BelowPassed(cs, cursor, i)
    requires cursor < |cs| ==> !LeftOfBelow(cs, cursor, i)
    ensures beaten <==> BeatenInRow(cs, scores, i, cs[i].y + 1)
    ensures visited <= 3
  {
    var pos := cs[i];
    var j := cursor;
    while j < |cs| && cs[j].y == pos.y + 1 && cs[j].x <= pos.x + 1
      invariant cursor <= j <= |cs|
      invariant cursor < j ==> cs[cursor].y == cs[j - 1].y == pos.y + 1
      invariant cursor < j ==> pos.x - 1 <= cs[cursor].x && cs[cursor].x + (j - 1 - cursor) <= cs[j - 1].x <= pos.x + 1
      invariant forall m :: cursor <= m < j ==> !Beats(cs, scores, m, i)
    {
      assert cursor < j ==> Before(cs[j - 1], cs[j]);
      var x := cs[j].x;
      if (x == pos.x - 1 || x == pos.x || x == pos.x + 1) && scores[j] >= scores[i] {
        assert Beats(cs, scores, j, i);
        return true, j - cursor + 1;
      }
      j := j + 1;
    }
    forall m | 0 <= m < |cs| && cs[m].y == pos.y + 1 ensures !Beats(cs, scores, m, i) {
      if m < cursor {
        assert LeftOfBelow(cs, m, i);
      } else if m > j {
        assert Before(cs[j], cs[m]);
      }
    }
    beaten := false;
    visited := j - cursor;
  }

  // -------------------------------------------------------------- the whole

  /** Within a row, columns grow at least as fast as indices. */
  lemma {:induction false} RowGap(cs: seq<XY>, a: int, b: int)
    requires IsCornerList(cs) && 0 <= a <= b < |cs| && cs[a].y == cs[b].y
    ensures b - a <= cs[b].x - cs[a].x
    decreases b - a
  {
    if a < b {
      assert Before(cs[b - 1], cs[b]);
      assert a < b - 1 ==> Before(cs[a], cs[b - 1]);
      RowGap(cs, a, b - 1);
    }
  }

  /** So the window covers, in the row itself, only the corners just before and just after. */
  lemma SameRow(cs: seq<XY>, scores: seq<int>, i: int, j: int)
    requires IsCornerList(cs) && |scores| == |cs| && 0 <= i < |cs| && 0 <= j < |cs| && j != i
    requires cs[j].y == cs[i].y && Beats(cs, scores, j, i)
    ensures (j == i - 1 && cs[j].x == cs[i].x - 1) || (j == i + 1 && cs[j].x == cs[i].x + 1)
  {
    if j < i {
      RowGap(cs, j, i);
    } else {
      RowGap(cs, i, j);
    }
  }

  ghost predicate BeatenInRow(cs: seq<XY>, scores: seq<int>, i: int, y: int)
    requires |scores| == |cs| && 0 <= i < |cs|
  {
    exists j :: 0 <= j < |cs| && cs[j].y == y && Beats(cs, scores, j, i)
  }

  predicate BeatenBeside(cs: seq<XY>, scores: seq<int>, i: int)
    requires |scores| == |cs| && 0 <= i < |cs|
  {
    (i > 0 && cs[i - 1].x == cs[i].x - 1 && cs[i - 1].y == cs[i].y && scores[i - 1] >= scores[i]) ||
    (i < |cs| - 1 && cs[i + 1].x == cs[i].x + 1 && cs[i + 1].y == cs[i].y && scores[i + 1] >= scores[i])
  }

  lemma MaximumByRows(cs: seq<XY>, scores: seq<int>, i: int)
    requires IsCornerList(cs) && |scores| == |cs| && 0 <= i < |cs|
    ensures IsMaximum(cs, scores, i) <==>
      !BeatenBeside(cs, scores, i) &&
      !BeatenInRow(cs, scores, i, cs[i].y - 1) && !BeatenInRow(cs, scores, i, cs[i].y + 1)
  {
    if BeatenBeside(cs, scores, i) {
      assert (i > 0 && Beats(cs, scores, i - 1, i)) || (i + 1 < |cs| && Beats(cs, scores, i + 1, i));
    }
    if !IsMaximum(cs, scores, i) {
      var j :| 0 <= j < |cs| && j != i && Beats(cs, scores, j, i);
      if cs[j].y == cs[i].y {
        SameRow(cs, scores, i, j);
      }
    }
  }

  lemma EmptyRow(cs: seq<XY>, scores: seq<int>, i: int, y: int, row: seq<int>)
    requires IsCornerList(cs) && |scores| == |cs| && 0 <= i < |cs| && RowStarts(row, cs, |cs|)
    requires y < 0 || y >= |row| || row[y] == -1
    ensures !BeatenInRow(cs, scores, i, y)
  {
  }

  /** One turn of the main loop: is corner `i` kept, and where the cursors are afterwards */
  method Test(corners: seq<XY>, scores: seq<int>, rowStart: array<int>, i: int, above: int, below: int)
    returns (keep: bool, pointAbove: int, pointBelow: int, ghost visited: nat)
    requires IsCornerList(corners) && |scores| == |corners| && 0 <= i < |corners|
    requires rowStart.Length == corners[|corners| - 1].y + 1 && RowStarts(rowStart[..], corners, |corners|)
    requires AbovePassed(corners, above, i) && BelowPassed(corners, below, i) && below <= |corners|
    ensures above <= pointAbove && AbovePassed(corners, pointAbove, i)
    ensures below <= pointBelow && BelowPassed(corners, pointBelow, i)
    ensures keep <==> IsMaximum(corners, scores, i)
    ensures visited <= 6
  {
    hide IsMaximum, AbovePassed, BelowPassed, RowStarts, BeatenInRow;
    RowBound(corners, i);
    MaximumByRows(corners, scores, i);
    pointAbove, pointBelow, visited := above, below, 0;
    var sz := |corners|;
    var lastRow := corners[sz - 1].y;
    var score := scores[i];
    var pos := corners[i];
    if i > 0 && corners[i - 1].x == pos.x - 1 && corners[i - 1].y == pos.y && scores[i - 1] >= score {
      return false, above, below, 0;
    }
    if i < sz - 1 && corners[i + 1].x == pos.x + 1 && corners[i + 1].y == pos.y && scores[i + 1] >= score {
      return false, above, below, 0;
    }
    if pos.y != 0 && rowStart[pos.y - 1] != -1 {
      pointAbove := AdvanceAbove(corners, rowStart, i, pointAbove);
      var beaten, v := ScanAbove(corners, scores, i, pointAbove);
      visited := visited + v;
      if beaten {
        return false, pointAbove, pointBelow, visited;
      }
    } else {
      EmptyRow(corners, scores, i, pos.y - 1, rowStart[..]);
    }
    if pos.y != lastRow && rowStart[pos.y + 1] != -1 && pointBelow < sz {
      pointBelow := AdvanceBelow(corners, rowStart, i, pointBelow);
      var beaten, v := ScanBelow(corners, scores, i, pointBelow);
      visited := visited + v;
      if beaten {
        return false, pointAbove, pointBelow, visited;
      }
    } else if pointBelow < sz {
      EmptyRow(corners, scores, i, pos.y + 1, rowStart[..]);
    } else {
      NothingBelow(corners, scores, i, pointBelow);
    }
    keep := true;
  }

  lemma NothingBelow(cs: seq<XY>, scores: seq<int>, i: int, below: int)
    requires |scores| == |cs| && BelowPassed(cs, below, i) && below == |cs|
    ensures !BeatenInRow(cs, scores, i, cs[i].y + 1)
  {
    forall j | 0 <= j < |cs| && cs[j].y == cs[i].y + 1 ensures !Beats(cs, scores, j, i) {
      assert LeftOfBelow(cs, j, i);
    }
  }

  /** `fast_nonmax_3x3` keeps, in order, exactly the corners that score strictly higher than every
      other corner in their 3x3 window. The cursors into the rows above and below only move
      forward, so the total work is linear in the number of corners. */
  method FastNonmax3x3(corners: seq<XY>, scores: seq<int>) returns (nonmax: seq<int>, ghost work: nat)
    requires IsCornerList(corners) && |scores| == |corners|
    ensures Increasing(nonmax)
    ensures forall i :: i in nonmax <==> 0 <= i < |corners| && IsMaximum(corners, scores, i)
    ensures work <= 8 * |corners|
  {
    hide IsMaximum, RowStarts;
    nonmax := [];
    work := 0;
    if |corners| < 1 {
      return;
    }
    var rowStart := FindRows(corners);
    var pointAbove := 0;
    var pointBelow := 0;
    var i := 0;
    while i < |corners|
      invariant 0 <= i <= |corners|
      invariant RowStarts(rowStart[..], corners, |corners|)
      invariant i < |corners| ==> AbovePassed(corners, pointAbove, i) && BelowPassed(corners, pointBelow, i)
      invariant 0 <= pointAbove <= |corners| && 0 <= pointBelow <= |corners|
      invariant Increasing(nonmax) && forall a :: 0 <= a < |nonmax| ==> nonmax[a] < i
      invariant forall k :: k in nonmax <==> 0 <= k < i && IsMaximum(corners, scores, k)
      invariant work <= 6 * i + pointAbove + pointBelow
    {
      ghost var before := pointAbove + pointBelow;
      var keep;
      ghost var visited;
      keep, pointAbove, pointBelow, visited := Test(corners, scores, rowStart, i, pointAbove, pointBelow);
      work := work + (pointAbove + pointBelow - before) + visited;
      if keep {
        nonmax := nonmax + [i];
      }
      if i + 1 < |corners| {
        AbovePersists(corners, pointAbove, i);
        BelowPersists(corners, pointBelow, i);
      }
      i := i + 1;
    }
  }
}
