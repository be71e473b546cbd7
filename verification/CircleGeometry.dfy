/** The circle of the segment test, without its table of offsets: the 16 pixels whose distance from
    the centre rounds to three, each touching the next. A pixel is a corner if and only if a
    chain of touching circle pixels is brighter, or darker, than it. */
module CircleGeometry {
  import opened FastCircle

  /** The offset lies on the circle of radius three. */
  predicate OnRing(p: XY) {
    8 <= p.x * p.x + p.y * p.y <= 10
  }

  /** Two pixels are neighbours, side by side or corner to corner. */
  predicate Touch(p: XY, q: XY) {
    p != q && -1 <= p.x - q.x <= 1 && -1 <= p.y - q.y <= 1
  }

  function Offset(k: int): XY
    requires 0 <= k < 16
  {
    XY(OffX(k), OffY(k))
  }

  lemma RingBound(p: XY)
    requires OnRing(p)
    ensures -3 <= p.x <= 3 && -3 <= p.y <= 3
  {
    SquareBound(p.x, p.y);
    SquareBound(p.y, p.x);
  }

  lemma SquareBound(a: int, b: int)
    requires a * a + b * b <= 10
    ensures -3 <= a <= 3
  {
    assert b * b >= 0 && (a - 2) * (a - 2) >= 0 && (a + 2) * (a + 2) >= 0;
  }

  /** The table holds the offsets on the circle, all of them and no other. */
  lemma TableIsRing(p: XY)
    ensures OnRing(p) <==> exists k :: 0 <= k < 16 && p == Offset(k)
  {
    if OnRing(p) {
      RingBound(p);
      var _ := PlaceOnRing(p);
    }
  }

  lemma PlaceOnRing(p: XY) returns (k: int)
    requires OnRing(p)
    ensures 0 <= k < 16 && p == Offset(k)
  {
    RingBound(p);
    k := match (p.x, p.y)
      case (0, _) => if p.y > 0 then 0 else 8
      case (1, _) => if p.y > 0 then 1 else 7
      case (2, _) => if p.y > 0 then 2 else 6
      case (3, _) => 4 - p.y
      case (-1, _) => if p.y > 0 then 15 else 9
      case (-2, _) => if p.y > 0 then 14 else 10
      case _ => 12 + p.y;
  }

  /** No two entries of the table are the same pixel; two touch if and only if they follow each
      other, going round; and the numbering goes from straight below to the right. */
  lemma TableGoesRound(j: int, k: int)
    requires 0 <= j < 16 && 0 <= k < 16
    ensures Offset(j) == Offset(k) <==> j == k
    ensures Touch(Offset(j), Offset(k)) <==> k == (j + 1) % 16 || j == (k + 1) % 16
    ensures Offset(0) == XY(0, 3) && Offset(1) == XY(1, 3)
  {
  }

  /** Different circle pixels, each touching the next */
  ghost predicate Chain(p: seq<XY>) {
    (forall i :: 0 <= i < |p| ==> OnRing(p[i])) &&
    (forall i :: 0 < i < |p| ==> Touch(p[i - 1], p[i])) &&
    (forall i, j :: 0 <= i < j < |p| ==> p[i] != p[j])
  }

  /** The circle pixel of (x, y) at this offset */
  function RingPixel(img: Image, x: int, y: int, q: XY): Byte
    requires img.Valid() && img.Inner(x, y) && OnRing(q)
  {
    RingBound(q);
    img.At(x + q.x, y + q.y)
  }

  /** All pixels of the chain around (x, y) exceed `t`. */
  ghost predicate Brighter(img: Image, x: int, y: int, t: int, p: seq<XY>)
    requires img.Valid() && img.Inner(x, y) && Chain(p)
  {
    forall i :: 0 <= i < |p| ==> RingPixel(img, x, y, p[i]) > t
  }

  /** All pixels of the chain around (x, y) are below `t`. */
  ghost predicate Darker(img: Image, x: int, y: int, t: int, p: seq<XY>)
    requires img.Valid() && img.Inner(x, y) && Chain(p)
  {
    forall i :: 0 <= i < |p| ==> RingPixel(img, x, y, p[i]) < t
  }

  // --------------------------------------------------- chains are arcs

  function Next(k: int): int {
    (k + 1) % 16
  }

  /** The places of a chain in the table */
  ghost predicate PlacesOf(p: seq<XY>, ks: seq<int>) {
    |ks| == |p| && forall i :: 0 <= i < |p| ==> 0 <= ks[i] < 16 && p[i] == Offset(ks[i])
  }

  lemma {:induction false} ChainHasPlaces(p: seq<XY>) returns (ks: seq<int>)
    requires forall i :: 0 <= i < |p| ==> OnRing(p[i])
    ensures PlacesOf(p, ks)
  {
    if p == [] {
      ks := [];
    } else {
      var k := PlaceOnRing(p[|p| - 1]);
      var front := ChainHasPlaces(p[..|p| - 1]);
      ks := front + [k];
    }
  }

  lemma NextOf(v: int)
    ensures 0 <= v % 16 < 16 && (v + 1) % 16 == Next(v % 16)
  {
  }

  lemma NextIsOneToOne(a: int, b: int)
    requires 0 <= b < 16
    ensures 0 <= a < 16 && Next(a) == Next(b) ==> a == b
  {
  }

  /** Going on round the circle without turning back */
  lemma KeepsGoing(k: int, i: int, a: int, b: int, c: int)
    requires 0 <= c < 16 && c != a && (c == Next(b) || b == Next(c))
    ensures a == (k + i) % 16 && b == (k + i + 1) % 16 ==> c == (k + i + 2) % 16
    ensures a == (k - i) % 16 && b == (k - i - 1) % 16 ==> c == (k - i - 2) % 16
  {
    hide Next;
    NextOf(k + i);
    NextOf(k + i + 1);
    NextOf(k - i - 1);
    NextOf(k - i - 2);
    NextIsOneToOne(a, c);
    NextIsOneToOne((k - i - 2) % 16, c);
  }

  /** A chain goes round in one direction. */
  lemma {:induction false} OneDirection(p: seq<XY>, ks: seq<int>, i: nat)
    requires Chain(p) && PlacesOf(p, ks) && 1 < |p| && i < |p|
    ensures ks[1] == Next(ks[0]) ==> ks[i] == (ks[0] + i) % 16
    ensures ks[1] != Next(ks[0]) ==> ks[i] == (ks[0] - i) % 16
  {
    hide OnRing, Touch, Offset;
    if i <= 1 {
      assert Touch(p[0], p[1]);
      TableGoesRound(ks[0], ks[1]);
    } else {
      OneDirection(p, ks, i - 1);
      OneDirection(p, ks, i - 2);
      assert Touch(p[i - 1], p[i]) && p[i - 2] != p[i];
      TableGoesRound(ks[i - 1], ks[i]);
      TableGoesRound(ks[i - 2], ks[i]);
      KeepsGoing(ks[0], i - 2, ks[i - 2], ks[i - 1], ks[i]);
      hide Next;
    }
  }

  /** Where a chain of `n` pixels that starts at place `k` reaches place `m` of its arc */
  lemma ReachedAt(k: int, n: nat, m: int)
    requires 0 <= k < 16
    ensures (k + (m - k)) % 16 == m % 16
    ensures var s := (k - (n - 1)) % 16; (k - (n - 1 - (m - s))) % 16 == m % 16
  {
    var s := (k - (n - 1)) % 16;
    var q := (k - (n - 1)) / 16;
    assert k - (n - 1 - (m - s)) == m + 16 * q;
  }

  /** The pixels of a chain, taken from the table, are an arc. */
  lemma ChainIsArc(p: seq<XY>, ks: seq<int>, r: seq<bool>) returns (s: int)
    requires Chain(p) && PlacesOf(p, ks) && 0 < |p|
    requires |r| == 16 && forall i :: 0 <= i < |ks| ==> r[ks[i]]
    ensures 0 <= s < 16 && ArcFrom(r, s, |p|)
  {
    hide Chain, OnRing, Touch, Offset;
    var n := |p|;
    var up := n == 1 || ks[1] == Next(ks[0]);
    s := if up then ks[0] else (ks[0] - (n - 1)) % 16;
    forall m | s <= m < s + n
      ensures r[m % 16]
    {
      var i := if up then m - s else n - 1 - (m - s);
      if n > 1 {
        OneDirection(p, ks, i);
      }
      ReachedAt(ks[0], n, m);
      assert r[ks[i]];
    }
  }

  /** The chain of an arc */
  function ArcChain(s: int, n: nat): (p: seq<XY>)
    requires 0 <= s < 16
    ensures |p| == n && forall i :: 0 <= i < n ==> p[i] == Offset((s + i) % 16)
  {
    seq(n, i requires 0 <= i < n => Offset((s + i) % 16))
  }

  lemma ArcIsChain(s: int, n: nat)
    requires 0 <= s < 16 && n <= 16
    ensures Chain(ArcChain(s, n))
  {
    hide OnRing, Touch, Offset, ArcChain;
    var p := ArcChain(s, n);
    forall i | 0 <= i < n ensures OnRing(p[i]) {
      TableIsRing(p[i]);
    }
    forall i | 0 < i < n ensures Touch(p[i - 1], p[i]) {
      TableGoesRound((s + (i - 1)) % 16, (s + i) % 16);
    }
    forall i, j | 0 <= i < j < n ensures p[i] != p[j] {
      TableGoesRound((s + i) % 16, (s + j) % 16);
    }
  }

  // ----------------------------------------------------- what a corner is

  /** `n` different circle pixels, each touching the next, are all brighter than the centre by more
      than the barrier, or all darker. */
  ghost predicate CornerByChain(img: Image, x: int, y: int, b: int, n: nat)
    requires img.Valid() && img.Inner(x, y)
  {
    exists p: seq<XY> :: |p| == n && Chain(p) &&
      (Brighter(img, x, y, img.At(x, y) + b, p) || Darker(img, x, y, img.At(x, y) - b, p))
  }

  lemma ArcHolds(r: seq<bool>, s: int, n: nat, i: nat)
    requires |r| == 16 && 0 <= s < 16 && ArcFrom(r, s, n) && i < n
    ensures r[(s + i) % 16]
  {
  }

  /** Circle pixel `k` is the one at the `k`-th offset. */
  lemma PlacePixel(img: Image, x: int, y: int, k: int)
    requires img.Valid() && img.Inner(x, y) && 0 <= k < 16
    ensures OnRing(Offset(k)) && RingPixel(img, x, y, Offset(k)) == Circle(img, x, y)[k]
  {
    TableIsRing(Offset(k));
  }

  lemma BrightArc(img: Image, x: int, y: int, t: int, s: int, n: nat)
    requires img.Valid() && img.Inner(x, y) && n <= 16 && 0 <= s < 16 && ArcFrom(Above(Circle(img, x, y), t), s, n)
    ensures Chain(ArcChain(s, n)) && Brighter(img, x, y, t, ArcChain(s, n))
  {
    hide Chain, ArcChain, ArcFrom, RingPixel, Offset, OnRing, Circle;
    ArcIsChain(s, n);
    var p := ArcChain(s, n);
    forall i | 0 <= i < n
      ensures OnRing(p[i]) && RingPixel(img, x, y, p[i]) > t
    {
      PlacePixel(img, x, y, (s + i) % 16);
      ArcHolds(Above(Circle(img, x, y), t), s, n, i);
    }
  }

  lemma DarkArc(img: Image, x: int, y: int, t: int, s: int, n: nat)
    requires img.Valid() && img.Inner(x, y) && n <= 16 && 0 <= s < 16 && ArcFrom(Below(Circle(img, x, y), t), s, n)
    ensures Chain(ArcChain(s, n)) && Darker(img, x, y, t, ArcChain(s, n))
  {
    hide Chain, ArcChain, ArcFrom, RingPixel, Offset, OnRing, Circle;
    ArcIsChain(s, n);
    var p := ArcChain(s, n);
    forall i | 0 <= i < n
      ensures OnRing(p[i]) && RingPixel(img, x, y, p[i]) < t
    {
      PlacePixel(img, x, y, (s + i) % 16);
      ArcHolds(Below(Circle(img, x, y), t), s, n, i);
    }
  }

  lemma ArcGivesChain(img: Image, x: int, y: int, b: int, n: nat)
    requires img.Valid() && img.Inner(x, y) && n <= 16 && IsCorner(img, x, y, b, n)
    ensures CornerByChain(img, x, y, b, n)
  {
    hide Brighter, Darker, Chain, ArcFrom, Circle, Image.At;
    var circle, c := Circle(img, x, y), img.At(x, y);
    if HasArc(Above(circle, c + b), n) {
      var s :| 0 <= s < 16 && ArcFrom(Above(circle, c + b), s, n);
      BrightArc(img, x, y, c + b, s, n);
    } else {
      var s :| 0 <= s < 16 && ArcFrom(Below(circle, c - b), s, n);
      DarkArc(img, x, y, c - b, s, n);
    }
  }

  lemma ChainGivesArc(img: Image, x: int, y: int, b: int, p: seq<XY>)
    requires img.Valid() && img.Inner(x, y) && Chain(p)
    requires Brighter(img, x, y, img.At(x, y) + b, p) || Darker(img, x, y, img.At(x, y) - b, p)
    ensures IsCorner(img, x, y, b, |p|)
  {
    var circle, c := Circle(img, x, y), img.At(x, y);
    if p == [] {
      assert ArcFrom(Above(circle, c + b), 0, 0);
    } else {
      var ks := ChainHasPlaces(p);
      if Brighter(img, x, y, c + b, p) {
        forall i | 0 <= i < |p| ensures Above(circle, c + b)[ks[i]] {
          PlacePixel(img, x, y, ks[i]);
        }
        var s := ChainIsArc(p, ks, Above(circle, c + b));
      } else {
        forall i | 0 <= i < |p| ensures Below(circle, c - b)[ks[i]] {
          PlacePixel(img, x, y, ks[i]);
        }
        var s := ChainIsArc(p, ks, Below(circle, c - b));
      }
    }
  }

  /** The corners of the detectors are the pixels with such a chain. */
  lemma CornerIffChain(img: Image, x: int, y: int, b: int, n: nat)
    requires img.Valid() && img.Inner(x, y) && n <= 16
    ensures IsCorner(img, x, y, b, n) <==> CornerByChain(img, x, y, b, n)
  {
    hide Brighter, Darker, Chain, IsCorner;
    if IsCorner(img, x, y, b, n) {
      ArcGivesChain(img, x, y, b, n);
    }
    if CornerByChain(img, x, y, b, n) {
      var p: seq<XY> :| |p| == n && Chain(p) &&
        (Brighter(img, x, y, img.At(x, y) + b, p) || Darker(img, x, y, img.At(x, y) - b, p));
      ChainGivesArc(img, x, y, b, p);
    }
  }

  /** What the detectors list, pixel by pixel, without the table or the arcs */
  lemma CornersByChain(img: Image, b: int, n: nat)
    requires img.Valid() && FitsShort(img) && n <= 16
    ensures forall c :: c in Corners(img, b, n) <==> img.Inner(c.x, c.y) && CornerByChain(img, c.x, c.y, b, n)
  {
    hide Corners, IsCorner, CornerByChain;
    CornersExact(img, b, n);
    forall c: XY | img.Inner(c.x, c.y)
      ensures IsCorner(img, c.x, c.y, b, n) <==> CornerByChain(img, c.x, c.y, b, n)
    {
      CornerIffChain(img, c.x, c.y, b, n);
    }
  }
}
