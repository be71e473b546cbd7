/** Decision trees for the segment test, as data.

    `fast_9.cpp`, `fast_10.cpp` and `fast_10_score.cpp` are machine-generated nests of
    `if`s over single pixel comparisons. Here such a nest is a value, and what makes one
    correct is stated and proved for every tree; the repository's own trees follow in
    `Fast9Tree`, `Fast10Tree` and `ArcHeaders`. */
module SegmentTree {
  import opened FastCircle

  type Index = k: int | 0 <= k < 16

  /** `Bright(k, y, n)` asks whether circle pixel `k` exceeds `cb`, `Dark(k, y, n)` whether
      it is under `c_b`. */
  datatype Tree =
    | Accept
    | Reject
    | Bright(k: Index, yes: Tree, no: Tree)
    | Dark(k: Index, yes: Tree, no: Tree)

  /** The answers a circle can give: no pixel is both bright and dark. */
  predicate IsRing(br: seq<bool>, dk: seq<bool>) {
    |br| == |dk| == 16 && forall k :: 0 <= k < 16 ==> !(br[k] && dk[k])
  }

  /** Running the nest of `if`s. */
  predicate Decide(t: Tree, br: seq<bool>, dk: seq<bool>)
    requires |br| == |dk| == 16
    decreases t
  {
    if t.Accept? then true
    else if t.Reject? then false
    else if t.Bright? then (if br[t.k] then Decide(t.yes, br, dk) else Decide(t.no, br, dk))
    else (if dk[t.k] then Decide(t.yes, br, dk) else Decide(t.no, br, dk))
  }

  predicate SegmentHolds(br: seq<bool>, dk: seq<bool>, n: nat)
    requires |br| == |dk| == 16
  {
    HasArc(br, n) || HasArc(dk, n)
  }

  /** The tree computes the segment test, whatever the circle. */
  ghost predicate DecidesSegment(t: Tree, n: nat) {
    forall br, dk | IsRing(br, dk) :: Decide(t, br, dk) <==> SegmentHolds(br, dk, n)
  }

  lemma ThresholdsMakeRing(circle: seq<Byte>, cb: int, c_b: int)
    requires |circle| == 16 && c_b <= cb
    ensures IsRing(Above(circle, cb), Below(circle, c_b))
  {
  }

  // ------------------------------------------------ which trees are correct

  /** What the path from the root to a node has established. */
  datatype Facts = Facts(bright: set<Index>, notBright: set<Index>, dark: set<Index>, notDark: set<Index>)

  const NOTHING := Facts({}, {}, {}, {})

  function ArcSet(s: int, n: nat): set<Index> {
    set i | s <= i < s + n :: (i % 16) as Index
  }

  /** Some circle takes the path. */
  predicate Feasible(f: Facts) {
    f.bright !! f.notBright && f.dark !! f.notDark && f.bright !! f.dark
  }

  function Passed(t: Tree, f: Facts): Facts
    requires t.Bright? || t.Dark?
  {
    if t.Bright? then f.(bright := f.bright + {t.k}) else f.(dark := f.dark + {t.k})
  }

  function Failed(t: Tree, f: Facts): Facts
    requires t.Bright? || t.Dark?
  {
    if t.Bright? then f.(notBright := f.notBright + {t.k}) else f.(notDark := f.notDark + {t.k})
  }

  /** The checker: at every leaf that some circle reaches, the answer is forced. An Accept leaf
      has passed a whole arc on one side; a Reject leaf has ruled out all 32 arcs. */
  predicate Sound(t: Tree, n: nat, f: Facts)
    decreases t
  {
    match t
    case Accept =>
      Feasible(f) ==> exists s {:trigger ArcSet(s, n)} :: 0 <= s < 16 && (ArcSet(s, n) <= f.bright || ArcSet(s, n) <= f.dark)
    case Reject =>
      Feasible(f) ==>
        forall s {:trigger ArcSet(s, n)} :: 0 <= s < 16 ==>
          ArcSet(s, n) * (f.notBright + f.dark) != {} && ArcSet(s, n) * (f.notDark + f.bright) != {}
    case Bright(_, yes, no) => Sound(yes, n, Passed(t, f)) && Sound(no, n, Failed(t, f))
    case Dark(_, yes, no) => Sound(yes, n, Passed(t, f)) && Sound(no, n, Failed(t, f))
  }

  ghost predicate Agrees(br: seq<bool>, dk: seq<bool>, f: Facts)
    requires |br| == |dk| == 16
  {
    forall k: Index ::
      (k in f.bright ==> br[k]) && (k in f.notBright ==> !br[k]) &&
      (k in f.dark ==> dk[k]) && (k in f.notDark ==> !dk[k])
  }

  lemma AgreesFeasible(br: seq<bool>, dk: seq<bool>, f: Facts)
    requires IsRing(br, dk) && Agrees(br, dk, f)
    ensures Feasible(f)
  {
    forall k: Index ensures !(k in f.bright && k in f.notBright) && !(k in f.dark && k in f.notDark) && !(k in f.bright && k in f.dark) {
      assert !(br[k] && dk[k]);
    }
  }

  lemma ArcSetAt(r: seq<bool>, s: int, n: nat)
    requires |r| == 16
    ensures ArcFrom(r, s, n) <==> forall k :: k in ArcSet(s, n) ==> r[k]
  {
    if forall k :: k in ArcSet(s, n) ==> r[k] {
      forall i | s <= i < s + n ensures r[i % 16] {
        assert (i % 16) as Index in ArcSet(s, n);
      }
    }
  }

  /** Soundness of the checker. */
  lemma {:induction false} SoundDecides(t: Tree, n: nat, f: Facts, br: seq<bool>, dk: seq<bool>)
    requires Sound(t, n, f) && IsRing(br, dk) && Agrees(br, dk, f)
    ensures Decide(t, br, dk) <==> SegmentHolds(br, dk, n)
    decreases t
  {
    match t
    case Accept =>
      AgreesFeasible(br, dk, f);
      var s :| 0 <= s < 16 && (ArcSet(s, n) <= f.bright || ArcSet(s, n) <= f.dark);
      ArcSetAt(br, s, n);
      ArcSetAt(dk, s, n);
    case Reject =>
      AgreesFeasible(br, dk, f);
      forall s | 0 <= s < 16 ensures !ArcFrom(br, s, n) && !ArcFrom(dk, s, n) {
        ArcSetAt(br, s, n);
        ArcSetAt(dk, s, n);
        var k :| k in ArcSet(s, n) * (f.notBright + f.dark);
        var k' :| k' in ArcSet(s, n) * (f.notDark + f.bright);
      }
    case Bright(k, yes, no) =>
      if br[k] {
        SoundDecides(yes, n, Passed(t, f), br, dk);
      } else {
        SoundDecides(no, n, Failed(t, f), br, dk);
      }
    case Dark(k, yes, no) =>
      if dk[k] {
        SoundDecides(yes, n, Passed(t, f), br, dk);
      } else {
        SoundDecides(no, n, Failed(t, f), br, dk);
      }
  }

  /** The tree is right on every circle that agrees with the facts. */
  ghost predicate RightOn(t: Tree, n: nat, f: Facts) {
    forall br, dk | IsRing(br, dk) && Agrees(br, dk, f) :: Decide(t, br, dk) <==> SegmentHolds(br, dk, n)
  }

  lemma AcceptForced(n: nat, f: Facts)
    requires RightOn(Accept, n, f)
    ensures Sound(Accept, n, f)
  {
    if Feasible(f) {
      // the circle that is bright, and dark, only where the path says so
      var br := seq(16, k requires 0 <= k < 16 => k in f.bright);
      var dk := seq(16, k requires 0 <= k < 16 => k in f.dark);
      assert IsRing(br, dk) && Agrees(br, dk, f) && Decide(Accept, br, dk);
      var s :| 0 <= s < 16 && (ArcFrom(br, s, n) || ArcFrom(dk, s, n));
      ArcSetAt(br, s, n);
      ArcSetAt(dk, s, n);
      assert ArcFrom(br, s, n) ==> forall k :: k in ArcSet(s, n) ==> br[k] && k in f.bright;
      assert ArcFrom(dk, s, n) ==> forall k :: k in ArcSet(s, n) ==> dk[k] && k in f.dark;
    }
  }

  lemma RejectForced(n: nat, f: Facts)
    requires RightOn(Reject, n, f)
    ensures Sound(Reject, n, f)
  {
    if Feasible(f) {
      // the circles that are as bright, and as dark, as the path allows
      var br := seq(16, k requires 0 <= k < 16 => k !in f.notBright + f.dark);
      var least := seq(16, k requires 0 <= k < 16 => k in f.dark);
      assert IsRing(br, least) && Agrees(br, least, f) && !Decide(Reject, br, least);
      var dk := seq(16, k requires 0 <= k < 16 => k !in f.notDark + f.bright);
      var least' := seq(16, k requires 0 <= k < 16 => k in f.bright);
      assert IsRing(least', dk) && Agrees(least', dk, f) && !Decide(Reject, least', dk);
      forall s | 0 <= s < 16
        ensures ArcSet(s, n) * (f.notBright + f.dark) != {} && ArcSet(s, n) * (f.notDark + f.bright) != {}
      {
        ArcSetAt(br, s, n);
        ArcSetAt(dk, s, n);
        assert !ArcFrom(br, s, n) && !ArcFrom(dk, s, n);
        var k :| k in ArcSet(s, n) && !br[k];
        var k' :| k' in ArcSet(s, n) && !dk[k'];
        assert k in ArcSet(s, n) * (f.notBright + f.dark);
        assert k' in ArcSet(s, n) * (f.notDark + f.bright);
      }
    }
  }

  /** Completeness of the checker: a tree that is right on every circle passes it. */
  lemma {:induction false} DecidesSound(t: Tree, n: nat, f: Facts)
    requires RightOn(t, n, f)
    ensures Sound(t, n, f)
    decreases t
  {
    match t
    case Accept =>
      AcceptForced(n, f);
    case Reject =>
      RejectForced(n, f);
    case Bright(k, yes, no) =>
      PathsSplit(t, n, f);
      DecidesSound(yes, n, Passed(t, f));
      DecidesSound(no, n, Failed(t, f));
    case Dark(k, yes, no) =>
      PathsSplit(t, n, f);
      DecidesSound(yes, n, Passed(t, f));
      DecidesSound(no, n, Failed(t, f));
  }

  lemma PathsSplit(t: Tree, n: nat, f: Facts)
    requires (t.Bright? || t.Dark?) && RightOn(t, n, f)
    ensures RightOn(t.yes, n, Passed(t, f)) && RightOn(t.no, n, Failed(t, f))
  {
    forall br, dk | IsRing(br, dk) && Agrees(br, dk, Passed(t, f))
      ensures Decide(t.yes, br, dk) <==> SegmentHolds(br, dk, n)
    {
      assert Agrees(br, dk, f);
      assert Decide(t, br, dk) == Decide(t.yes, br, dk);
    }
    forall br, dk | IsRing(br, dk) && Agrees(br, dk, Failed(t, f))
      ensures Decide(t.no, br, dk) <==> SegmentHolds(br, dk, n)
    {
      assert Agrees(br, dk, f);
      assert Decide(t, br, dk) == Decide(t.no, br, dk);
    }
  }

  /** A tree computes the segment test on all pixel values if and only if the checker passes it. */
  lemma CheckerExact(t: Tree, n: nat)
    ensures Sound(t, n, NOTHING) <==> DecidesSegment(t, n)
  {
    if Sound(t, n, NOTHING) {
      forall br, dk | IsRing(br, dk) ensures Decide(t, br, dk) <==> SegmentHolds(br, dk, n) {
        SoundDecides(t, n, NOTHING, br, dk);
      }
    }
    if DecidesSegment(t, n) {
      DecidesSound(t, n, NOTHING);
    }
  }

  // -------------------------------------------- how far a path stays the same

  const INT_MAX := 0x7fff_ffff

  /** `test_gt_set`'s effect on `min_diff` when the comparison holds. */
  function Tighten(m: int, diff: int): int {
    if diff < m then diff else m
  }

  /** Running the scoring nest: does it accept, and the smallest margin by which a test on
      the path was passed (`m` at the start). */
  function Walk(t: Tree, circle: seq<Byte>, cb: int, c_b: int, m: int): (bool, int)
    requires |circle| == 16
    decreases t
  {
    match t
    case Accept => (true, m)
    case Reject => (false, m)
    case Bright(k, yes, no) =>
      if circle[k] > cb then Walk(yes, circle, cb, c_b, Tighten(m, circle[k] - cb))
      else Walk(no, circle, cb, c_b, m)
    case Dark(k, yes, no) =>
      if c_b > circle[k] then Walk(yes, circle, cb, c_b, Tighten(m, c_b - circle[k]))
      else Walk(no, circle, cb, c_b, m)
  }

  lemma {:induction false} WalkDecides(t: Tree, circle: seq<Byte>, cb: int, c_b: int, m: int)
    requires |circle| == 16 && m > 0
    ensures Walk(t, circle, cb, c_b, m).0 == Decide(t, Above(circle, cb), Below(circle, c_b))
    ensures 0 < Walk(t, circle, cb, c_b, m).1 <= m
    decreases t
  {
    match t
    case Accept =>
    case Reject =>
    case Bright(k, yes, no) =>
      if circle[k] > cb { WalkDecides(yes, circle, cb, c_b, Tighten(m, circle[k] - cb)); }
      else { WalkDecides(no, circle, cb, c_b, m); }
    case Dark(k, yes, no) =>
      if c_b > circle[k] { WalkDecides(yes, circle, cb, c_b, Tighten(m, c_b - circle[k])); }
      else { WalkDecides(no, circle, cb, c_b, m); }
  }

  /** Raising the barrier by less than the margin leaves the path, hence the answer, unchanged. */
  lemma {:induction false} PathStable(t: Tree, circle: seq<Byte>, cb: int, c_b: int, m: int, d: nat)
    requires |circle| == 16 && m > 0
    requires d < Walk(t, circle, cb, c_b, m).1
    ensures Decide(t, Above(circle, cb + d), Below(circle, c_b - d)) == Walk(t, circle, cb, c_b, m).0
    decreases t
  {
    match t
    case Accept =>
    case Reject =>
    case Bright(k, yes, no) =>
      if circle[k] > cb {
        WalkDecides(yes, circle, cb, c_b, Tighten(m, circle[k] - cb));
        PathStable(yes, circle, cb, c_b, Tighten(m, circle[k] - cb), d);
      } else {
        PathStable(no, circle, cb, c_b, m, d);
      }
    case Dark(k, yes, no) =>
      if c_b > circle[k] {
        WalkDecides(yes, circle, cb, c_b, Tighten(m, c_b - circle[k]));
        PathStable(yes, circle, cb, c_b, Tighten(m, c_b - circle[k]), d);
      } else {
        PathStable(no, circle, cb, c_b, m, d);
      }
  }
}
