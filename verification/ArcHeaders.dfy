/** The one-sided tests `is_corner_9` and `is_corner_10`, which scan one side of the circle
    (`Less` or `Greater`) for an arc. Only Bright nodes occur; `br` is the chosen side.

    Generated by tools/generate_trees.py. */
module ArcHeaders {
  import opened FastCircle
  import opened SegmentTree

  // corner_9.h:380
  function Corner9Part0(): Tree {
    Bright(12, Bright(6, Bright(13, Bright(5, Accept, Bright(14, Accept, Reject)), Bright(5, Bright(4, Accept,
    Reject), Reject)), Bright(15, Bright(14, Bright(13, Accept, Reject), Reject), Reject)), Bright(3, Bright(4,
    Bright(5, Bright(6, Accept, Bright(13, Bright(14, Bright(2, Bright(1, Bright(0, Bright(15, Accept, Reject),
    Reject), Reject), Reject), Reject), Reject)), Reject), Reject), Reject))
  }

  lemma Corner9Part0Decides(br: seq<bool>, dk: seq<bool>)
    requires |br| == |dk| == 16
    requires br[9] && br[10] && br[8] && br[11] && br[7]
    ensures Decide(Corner9Part0(), br, dk) <==> Any9(br)
  {
  }

  // corner_9.h:267
  function Corner9Part1(): Tree {
    Bright(3, Bright(4, Bright(5, Bright(6, Bright(7, Accept, Bright(1, Bright(0, Bright(15, Bright(14, Accept,
    Reject), Reject), Reject), Reject)), Bright(13, Bright(1, Bright(0, Bright(15, Bright(14, Accept, Reject),
    Reject), Reject), Reject), Reject)), Bright(12, Bright(13, Bright(1, Bright(0, Bright(15, Bright(14, Accept,
    Reject), Reject), Reject), Reject), Reject), Reject)), Reject), Reject)
  }

  lemma Corner9Part1Decides(br: seq<bool>, dk: seq<bool>)
    requires |br| == |dk| == 16
    requires br[9] && br[10] && br[8] && !br[11] && br[2]
    ensures Decide(Corner9Part1(), br, dk) <==> Any9(br)
  {
  }

  // corner_9.h:263
  function Corner9Part2(): Tree {
    Bright(11, Bright(7, Corner9Part0(), Bright(14, Bright(15, Bright(0, Bright(13, Bright(12, Accept, Bright(1,
    Bright(5, Bright(4, Bright(3, Bright(2, Accept, Reject), Reject), Reject), Reject), Reject)), Bright(1,
    Bright(2, Bright(6, Bright(5, Bright(4, Bright(3, Accept, Reject), Reject), Reject), Reject), Reject), Reject)),
    Reject), Reject), Reject)), Bright(2, Corner9Part1(), Reject))
  }

  lemma Corner9Part2Decides(br: seq<bool>, dk: seq<bool>)
    requires |br| == |dk| == 16
    requires br[9] && br[10] && br[8]
    ensures Decide(Corner9Part2(), br, dk) <==> Any9(br)
  {
    if br[11] && br[7] { Corner9Part0Decides(br, dk); }
    if !br[11] && br[2] { Corner9Part1Decides(br, dk); }
  }

  // corner_9.h:195
  function Corner9Part3(): Tree {
    Bright(14, Bright(13, Bright(12, Bright(11, Accept, Bright(4, Bright(3, Bright(2, Accept, Reject), Reject),
    Reject)), Bright(5, Bright(4, Bright(3, Bright(2, Accept, Reject), Reject), Reject), Reject)), Bright(2,
    Bright(6, Bright(5, Bright(4, Bright(3, Accept, Reject), Reject), Reject), Reject), Reject)), Bright(2,
    Bright(3, Bright(7, Bright(6, Bright(5, Bright(4, Accept, Reject), Reject), Reject), Reject), Reject), Reject))
  }

  lemma Corner9Part3Decides(br: seq<bool>, dk: seq<bool>)
    requires |br| == |dk| == 16
    requires br[9] && br[10] && !br[8] && br[1] && br[15] && br[0]
    ensures Decide(Corner9Part3(), br, dk) <==> Any9(br)
  {
  }

  // corner_9.h:108
  function Corner9Part4(): Tree {
    Bright(4, Bright(5, Bright(6, Bright(7, Bright(8, Accept, Bright(0, Bright(15, Accept, Reject), Reject)),
    Bright(0, Bright(15, Bright(14, Accept, Reject), Reject), Reject)), Bright(0, Bright(15, Bright(14, Bright(13,
    Accept, Reject), Reject), Reject), Reject)), Bright(12, Bright(0, Bright(15, Bright(14, Bright(13, Accept,
    Reject), Reject), Reject), Reject), Reject)), Bright(11, Bright(12, Bright(0, Bright(15, Bright(14, Bright(13,
    Accept, Reject), Reject), Reject), Reject), Reject), Reject))
  }

  lemma Corner9Part4Decides(br: seq<bool>, dk: seq<bool>)
    requires |br| == |dk| == 16
    requires br[9] && !br[10] && br[3] && br[1] && br[2]
    ensures Decide(Corner9Part4(), br, dk) <==> Any9(br)
  {
  }

  // corner_9.h:36
  function Corner9Part5(): Tree {
    Bright(4, Bright(5, Bright(15, Bright(6, Bright(14, Accept, Bright(7, Accept, Reject)), Bright(14, Bright(13,
    Accept, Reject), Reject)), Bright(8, Bright(7, Bright(6, Accept, Reject), Reject), Reject)), Bright(15,
    Bright(14, Bright(13, Bright(12, Accept, Reject), Reject), Reject), Reject)), Bright(11, Bright(15, Bright(14,
    Bright(13, Bright(12, Accept, Reject), Reject), Reject), Reject), Reject))
  }

  lemma Corner9Part5Decides(br: seq<bool>, dk: seq<bool>)
    requires |br| == |dk| == 16
    requires !br[9] && br[0] && br[1] && br[2] && br[3]
    ensures Decide(Corner9Part5(), br, dk) <==> Any9(br)
  {
  }

  // corner_9.h:5
  function Corner9Part6(): Tree {
    Bright(9, Bright(10, Bright(8, Corner9Part2(), Bright(1, Bright(15, Bright(0, Corner9Part3(), Reject), Reject),
    Reject)), Bright(3, Bright(1, Bright(2, Corner9Part4(), Reject), Reject), Reject)), Bright(0, Bright(1,
    Bright(2, Bright(3, Corner9Part5(), Bright(10, Bright(11, Bright(15, Bright(14, Bright(13, Bright(12, Accept,
    Reject), Reject), Reject), Reject), Reject), Reject)), Reject), Reject), Reject))
  }

  lemma Corner9Part6Decides(br: seq<bool>, dk: seq<bool>)
    requires |br| == |dk| == 16
    ensures Decide(Corner9Part6(), br, dk) <==> Any9(br)
  {
    if br[9] && br[10] && br[8] { Corner9Part2Decides(br, dk); }
    if br[9] && br[10] && !br[8] && br[1] && br[15] && br[0] { Corner9Part3Decides(br, dk); }
    if br[9] && !br[10] && br[3] && br[1] && br[2] { Corner9Part4Decides(br, dk); }
    if !br[9] && br[0] && br[1] && br[2] && br[3] { Corner9Part5Decides(br, dk); }
  }

  /** `is_corner_9` finds an arc exactly when there is one. */
  lemma IsCorner9Exact(br: seq<bool>, dk: seq<bool>)
    requires |br| == |dk| == 16
    ensures Decide(Corner9Part6(), br, dk) <==> HasArc(br, 9)
  {
    Corner9Part6Decides(br, dk);
    Arc9WrittenOut(br);
  }

  /** `is_corner_9` on the side that `br` gives. */
  method IsCorner9(br: seq<bool>) returns (corner: bool)
    requires |br| == 16
    ensures corner <==> HasArc(br, 9)
  {
    var none := seq(16, _ => false);
    IsCorner9Exact(br, none);
    corner := Decide(Corner9Part6(), br, none);
  }

  // corner_10.h:304
  function Corner10Part0(): Tree {
    Bright(7, Bright(6, Bright(13, Bright(14, Bright(5, Accept, Bright(15, Accept, Reject)), Bright(5, Bright(4,
    Accept, Reject), Reject)), Bright(5, Bright(4, Bright(3, Accept, Reject), Reject), Reject)), Bright(13,
    Bright(0, Bright(15, Bright(14, Accept, Reject), Reject), Reject), Reject)), Bright(1, Bright(13, Bright(0,
    Bright(15, Bright(14, Accept, Reject), Reject), Reject), Reject), Reject))
  }

  lemma Corner10Part0Decides(br: seq<bool>, dk: seq<bool>)
    requires |br| == |dk| == 16
    requires br[9] && br[10] && br[11] && br[8] && br[12]
    ensures Decide(Corner10Part0(), br, dk) <==> Any10(br)
  {
  }

  // corner_10.h:217
  function Corner10Part1(): Tree {
    Bright(8, Bright(12, Corner10Part0(), Bright(2, Bright(6, Bright(5, Bright(3, Bright(4, Bright(7, Accept,
    Bright(1, Bright(13, Bright(0, Bright(15, Bright(14, Accept, Reject), Reject), Reject), Reject), Reject)),
    Reject), Reject), Reject), Reject), Reject)), Bright(2, Bright(1, Bright(14, Bright(0, Bright(15, Bright(13,
    Bright(12, Accept, Bright(3, Bright(6, Bright(5, Bright(4, Accept, Reject), Reject), Reject), Reject)),
    Bright(7, Bright(3, Bright(6, Bright(5, Bright(4, Accept, Reject), Reject), Reject), Reject), Reject)), Reject),
    Reject), Reject), Reject), Reject))
  }

  lemma Corner10Part1Decides(br: seq<bool>, dk: seq<bool>)
    requires |br| == |dk| == 16
    requires br[9] && br[10] && br[11]
    ensures Decide(Corner10Part1(), br, dk) <==> Any10(br)
  {
    if br[8] && br[12] { Corner10Part0Decides(br, dk); }
  }

  // corner_10.h:155
  function Corner10Part2(): Tree {
    Bright(1, Bright(5, Bright(4, Bright(3, Bright(2, Bright(6, Bright(7, Bright(8, Accept, Bright(0, Bright(15,
    Bright(14, Accept, Reject), Reject), Reject)), Bright(13, Bright(0, Bright(15, Bright(14, Accept, Reject),
    Reject), Reject), Reject)), Bright(0, Bright(12, Bright(15, Bright(14, Bright(13, Accept, Reject), Reject),
    Reject), Reject), Reject)), Reject), Reject), Reject), Reject), Reject)
  }

  lemma Corner10Part2Decides(br: seq<bool>, dk: seq<bool>)
    requires |br| == |dk| == 16
    requires br[9] && br[10] && !br[11]
    ensures Decide(Corner10Part2(), br, dk) <==> Any10(br)
  {
  }

  // corner_10.h:92
  function Corner10Part3(): Tree {
    Bright(1, Bright(2, Bright(5, Bright(6, Bright(7, Bright(8, Accept, Bright(15, Bright(14, Accept, Reject),
    Reject)), Bright(15, Bright(14, Bright(13, Accept, Reject), Reject), Reject)), Bright(12, Bright(15, Bright(14,
    Bright(13, Accept, Reject), Reject), Reject), Reject)), Bright(15, Bright(11, Bright(14, Bright(13, Bright(12,
    Accept, Reject), Reject), Reject), Reject), Reject)), Reject), Reject)
  }

  lemma Corner10Part3Decides(br: seq<bool>, dk: seq<bool>)
    requires |br| == |dk| == 16
    requires br[9] && !br[10] && br[4] && br[3] && br[0]
    ensures Decide(Corner10Part3(), br, dk) <==> Any10(br)
  {
  }

  // corner_10.h:20
  function Corner10Part4(): Tree {
    Bright(14, Bright(13, Bright(4, Bright(5, Bright(12, Accept, Bright(6, Accept, Reject)), Bright(12, Bright(11,
    Accept, Reject), Reject)), Bright(12, Bright(11, Bright(10, Accept, Reject), Reject), Reject)), Bright(4,
    Bright(7, Bright(6, Bright(5, Accept, Reject), Reject), Reject), Reject)), Bright(8, Bright(4, Bright(7,
    Bright(6, Bright(5, Accept, Reject), Reject), Reject), Reject), Reject))
  }

  lemma Corner10Part4Decides(br: seq<bool>, dk: seq<bool>)
    requires |br| == |dk| == 16
    requires !br[9] && br[3] && br[2] && br[15] && br[1] && br[0]
    ensures Decide(Corner10Part4(), br, dk) <==> Any10(br)
  {
  }

  // corner_10.h:4
  function Corner10Part5(): Tree {
    Bright(9, Bright(10, Bright(11, Corner10Part1(), Corner10Part2()), Bright(4, Bright(3, Bright(0,
    Corner10Part3(), Reject), Reject), Reject)), Bright(3, Bright(2, Bright(15, Bright(1, Bright(0, Corner10Part4(),
    Reject), Reject), Reject), Reject), Reject))
  }

  lemma Corner10Part5Decides(br: seq<bool>, dk: seq<bool>)
    requires |br| == |dk| == 16
    ensures Decide(Corner10Part5(), br, dk) <==> Any10(br)
  {
    if br[9] && br[10] && br[11] { Corner10Part1Decides(br, dk); }
    if br[9] && br[10] && !br[11] { Corner10Part2Decides(br, dk); }
    if br[9] && !br[10] && br[4] && br[3] && br[0] { Corner10Part3Decides(br, dk); }
    if !br[9] && br[3] && br[2] && br[15] && br[1] && br[0] { Corner10Part4Decides(br, dk); }
  }

  /** `is_corner_10` finds an arc exactly when there is one. */
  lemma IsCorner10Exact(br: seq<bool>, dk: seq<bool>)
    requires |br| == |dk| == 16
    ensures Decide(Corner10Part5(), br, dk) <==> HasArc(br, 10)
  {
    Corner10Part5Decides(br, dk);
    Arc10WrittenOut(br);
  }

  /** `is_corner_10` on the side that `br` gives. */
  method IsCorner10(br: seq<bool>) returns (corner: bool)
    requires |br| == 16
    ensures corner <==> HasArc(br, 10)
  {
    var none := seq(16, _ => false);
    IsCorner10Exact(br, none);
    corner := Decide(Corner10Part5(), br, none);
  }
}
