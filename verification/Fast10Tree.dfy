/** The decision nest of `fast_corner_detect_10`. The nest of
    `fast_corner_score_10` asks the same tests in the same order.

    Generated by tools/generate_trees.py. */
module Fast10Tree {
  import opened FastCircle
  import opened SegmentTree

  // fast_10.cpp:57
  function Part0(): Tree {
    Bright(7, Bright(1, Bright(9, Accept, Bright(15, Accept, Reject)), Dark(1, Bright(9, Bright(10, Bright(11,
    Accept, Reject), Reject), Reject), Bright(11, Bright(10, Bright(9, Accept, Reject), Reject), Reject))), Dark(7,
    Bright(1, Bright(13, Bright(14, Bright(15, Accept, Reject), Reject), Reject), Reject), Bright(13, Bright(14,
    Bright(15, Bright(1, Accept, Reject), Reject), Reject), Reject)))
  }

  lemma Part0Decides(br: seq<bool>, dk: seq<bool>)
    requires IsRing(br, dk)
    requires br[0] && br[8] && br[3] && br[5] && br[2] && br[6] && br[4]
    ensures Decide(Part0(), br, dk) <==> Any10(br) || Any10(dk)
  {
  }

  // fast_10.cpp:116
  function Part1(): Tree {
    Dark(4, Bright(10, Bright(11, Bright(12, Bright(13, Bright(14, Bright(1, Bright(15, Accept, Bright(7, Bright(9,
    Accept, Reject), Reject)), Bright(7, Bright(9, Accept, Reject), Reject)), Reject), Reject), Reject), Reject),
    Reject), Bright(12, Bright(14, Bright(10, Bright(11, Bright(13, Bright(1, Bright(7, Bright(9, Accept, Bright(15,
    Accept, Reject)), Bright(15, Accept, Reject)), Dark(1, Bright(7, Bright(9, Accept, Reject), Reject), Bright(9,
    Bright(7, Accept, Reject), Reject))), Reject), Reject), Reject), Reject), Reject))
  }

  lemma Part1Decides(br: seq<bool>, dk: seq<bool>)
    requires IsRing(br, dk)
    requires br[0] && br[8] && br[3] && br[5] && br[2] && br[6] && !br[4]
    ensures Decide(Part1(), br, dk) <==> Any10(br) || Any10(dk)
  {
  }

  // fast_10.cpp:197
  function Part2(): Tree {
    Dark(6, Bright(12, Bright(13, Bright(14, Bright(15, Bright(1, Bright(4, Accept, Bright(10, Bright(11, Accept,
    Reject), Reject)), Bright(7, Bright(9, Bright(10, Bright(11, Accept, Reject), Reject), Reject), Reject)),
    Reject), Reject), Reject), Reject), Bright(12, Bright(14, Bright(15, Bright(13, Bright(1, Bright(4, Accept,
    Bright(10, Bright(11, Accept, Reject), Reject)), Dark(1, Bright(7, Bright(9, Bright(10, Bright(11, Accept,
    Reject), Reject), Reject), Reject), Bright(7, Bright(10, Bright(11, Bright(9, Accept, Reject), Reject), Reject),
    Reject))), Reject), Reject), Reject), Reject))
  }

  lemma Part2Decides(br: seq<bool>, dk: seq<bool>)
    requires IsRing(br, dk)
    requires br[0] && br[8] && br[3] && br[5] && br[2] && !br[6]
    ensures Decide(Part2(), br, dk) <==> Any10(br) || Any10(dk)
  {
  }

  // fast_10.cpp:342
  function Part3(): Tree {
    Bright(7, Bright(6, Bright(4, Accept, Dark(4, Bright(13, Bright(14, Accept, Reject), Reject), Bright(14,
    Bright(13, Accept, Reject), Reject))), Dark(6, Bright(13, Bright(14, Bright(15, Accept, Reject), Reject),
    Reject), Bright(14, Bright(13, Bright(15, Accept, Reject), Reject), Reject))), Dark(7, Bright(1, Bright(13,
    Bright(14, Bright(15, Accept, Reject), Reject), Reject), Reject), Bright(14, Bright(1, Bright(13, Bright(15,
    Accept, Reject), Reject), Reject), Reject)))
  }

  lemma Part3Decides(br: seq<bool>, dk: seq<bool>)
    requires IsRing(br, dk)
    requires br[0] && br[8] && br[3] && br[5] && !br[2] && !dk[2] && br[11] && br[10] && br[12] && br[9]
    ensures Decide(Part3(), br, dk) <==> Any10(br) || Any10(dk)
  {
  }

  // fast_10.cpp:287
  function Part4(): Tree {
    Dark(2, Bright(12, Bright(9, Bright(10, Bright(11, Bright(7, Bright(6, Bright(4, Accept, Bright(13, Bright(14,
    Accept, Reject), Reject)), Bright(13, Bright(14, Bright(15, Accept, Reject), Reject), Reject)), Bright(1,
    Bright(13, Bright(14, Bright(15, Accept, Reject), Reject), Reject), Reject)), Reject), Reject), Reject),
    Reject), Bright(11, Bright(10, Bright(12, Bright(9, Part3(), Reject), Reject), Reject), Reject))
  }

  lemma Part4Decides(br: seq<bool>, dk: seq<bool>)
    requires IsRing(br, dk)
    requires br[0] && br[8] && br[3] && br[5] && !br[2]
    ensures Decide(Part4(), br, dk) <==> Any10(br) || Any10(dk)
  {
    if !dk[2] && br[11] && br[10] && br[12] && br[9] { Part3Decides(br, dk); }
  }

  // fast_10.cpp:465
  function Part5(): Tree {
    Bright(12, Bright(14, Bright(11, Bright(15, Bright(10, Bright(13, Bright(1, Bright(2, Accept, Bright(9, Accept,
    Reject)), Bright(7, Bright(9, Accept, Reject), Reject)), Reject), Dark(10, Bright(1, Bright(2, Bright(4,
    Bright(13, Accept, Reject), Reject), Reject), Reject), Bright(4, Bright(2, Bright(1, Bright(13, Accept, Reject),
    Reject), Reject), Reject))), Reject), Reject), Reject), Reject)
  }

  lemma Part5Decides(br: seq<bool>, dk: seq<bool>)
    requires IsRing(br, dk)
    requires br[0] && br[8] && br[3] && !br[5] && !dk[5]
    ensures Decide(Part5(), br, dk) <==> Any10(br) || Any10(dk)
  {
  }

  // fast_10.cpp:53
  function Part6(): Tree {
    Bright(5, Bright(2, Bright(6, Bright(4, Part0(), Part1()), Part2()), Part4()), Dark(5, Bright(13, Bright(11,
    Bright(12, Bright(14, Bright(15, Bright(10, Bright(9, Bright(1, Accept, Bright(7, Accept, Reject)), Bright(1,
    Bright(2, Accept, Reject), Reject)), Bright(1, Bright(2, Bright(4, Accept, Reject), Reject), Reject)), Reject),
    Reject), Reject), Reject), Reject), Part5()))
  }

  lemma Part6Decides(br: seq<bool>, dk: seq<bool>)
    requires IsRing(br, dk)
    requires br[0] && br[8] && br[3]
    ensures Decide(Part6(), br, dk) <==> Any10(br) || Any10(dk)
  {
    if br[5] && br[2] && br[6] && br[4] { Part0Decides(br, dk); }
    if br[5] && br[2] && br[6] && !br[4] { Part1Decides(br, dk); }
    if br[5] && br[2] && !br[6] { Part2Decides(br, dk); }
    if br[5] && !br[2] { Part4Decides(br, dk); }
    if !br[5] && !dk[5] { Part5Decides(br, dk); }
  }

  // fast_10.cpp:578
  function Part7(): Tree {
    Bright(14, Bright(11, Bright(13, Bright(9, Bright(7, Bright(15, Accept, Bright(5, Bright(6, Accept, Reject),
    Reject)), Bright(1, Bright(15, Accept, Reject), Reject)), Reject), Reject), Reject), Dark(14, Bright(4,
    Bright(5, Bright(6, Bright(7, Bright(9, Bright(11, Bright(13, Accept, Reject), Reject), Reject), Reject),
    Reject), Reject), Reject), Bright(4, Bright(13, Bright(6, Bright(11, Bright(7, Bright(5, Bright(9, Accept,
    Reject), Reject), Reject), Reject), Reject), Reject), Reject)))
  }

  lemma Part7Decides(br: seq<bool>, dk: seq<bool>)
    requires IsRing(br, dk)
    requires br[0] && br[8] && !br[3] && !dk[3] && br[12] && br[10]
    ensures Decide(Part7(), br, dk) <==> Any10(br) || Any10(dk)
  {
  }

  // fast_10.cpp:525
  function Part8(): Tree {
    Dark(3, Bright(12, Bright(10, Bright(13, Bright(9, Bright(11, Bright(14, Bright(15, Bright(7, Accept, Bright(1,
    Accept, Reject)), Bright(5, Bright(6, Bright(7, Accept, Reject), Reject), Reject)), Bright(4, Bright(5,
    Bright(6, Bright(7, Accept, Reject), Reject), Reject), Reject)), Reject), Reject), Reject), Reject), Reject),
    Bright(12, Bright(10, Part7(), Reject), Reject))
  }

  lemma Part8Decides(br: seq<bool>, dk: seq<bool>)
    requires IsRing(br, dk)
    requires br[0] && br[8] && !br[3]
    ensures Decide(Part8(), br, dk) <==> Any10(br) || Any10(dk)
  {
    if !dk[3] && br[12] && br[10] { Part7Decides(br, dk); }
  }

  // fast_10.cpp:659
  function Part9(): Tree {
    Bright(2, Bright(15, Bright(1, Bright(14, Bright(13, Bright(3, Bright(12, Bright(4, Accept, Bright(10, Accept,
    Reject)), Bright(4, Bright(5, Bright(6, Accept, Reject), Reject), Reject)), Bright(9, Bright(10, Bright(12,
    Accept, Reject), Reject), Reject)), Bright(3, Bright(4, Bright(5, Bright(6, Bright(7, Accept, Reject), Reject),
    Reject), Reject), Reject)), Reject), Reject), Reject), Dark(2, Dark(1, Dark(3, Dark(4, Dark(5, Dark(6, Dark(7,
    Dark(9, Dark(10, Accept, Reject), Reject), Reject), Reject), Reject), Reject), Reject), Reject), Reject))
  }

  lemma Part9Decides(br: seq<bool>, dk: seq<bool>)
    requires IsRing(br, dk)
    requires br[0] && !br[8] && dk[8] && br[11]
    ensures Decide(Part9(), br, dk) <==> Any10(br) || Any10(dk)
  {
  }

  // fast_10.cpp:834
  function Part10(): Tree {
    Dark(7, Bright(14, Bright(12, Bright(1, Bright(2, Bright(3, Bright(4, Bright(13, Bright(15, Accept, Reject),
    Reject), Reject), Reject), Reject), Reject), Reject), Dark(14, Dark(9, Dark(12, Dark(13, Dark(15, Accept,
    Reject), Reject), Reject), Reject), Reject)), Bright(12, Bright(1, Bright(2, Bright(3, Bright(4, Bright(13,
    Bright(14, Bright(15, Accept, Reject), Reject), Reject), Reject), Reject), Reject), Reject), Reject))
  }

  lemma Part10Decides(br: seq<bool>, dk: seq<bool>)
    requires IsRing(br, dk)
    requires br[0] && !br[8] && dk[8] && !br[11] && dk[11] && !br[6] && dk[6] && !br[10] && dk[10] && br[5] &&
    !br[7]
    ensures Decide(Part10(), br, dk) <==> Any10(br) || Any10(dk)
  {
  }

  // fast_10.cpp:901
  function Part11(): Tree {
    Bright(12, Dark(2, Dark(3, Dark(4, Dark(7, Dark(9, Accept, Reject), Reject), Reject), Reject), Reject), Dark(12,
    Dark(9, Bright(4, Dark(7, Dark(13, Dark(14, Accept, Reject), Reject), Reject), Dark(4, Dark(7, Dark(13, Accept,
    Dark(3, Accept, Reject)), Reject), Dark(14, Dark(13, Dark(7, Accept, Reject), Reject), Reject))), Reject),
    Dark(2, Dark(7, Dark(3, Dark(9, Dark(4, Accept, Reject), Reject), Reject), Reject), Reject)))
  }

  lemma Part11Decides(br: seq<bool>, dk: seq<bool>)
    requires IsRing(br, dk)
    requires br[0] && !br[8] && dk[8] && !br[11] && dk[11] && !br[6] && dk[6] && !br[10] && dk[10] && !br[5] &&
    dk[5]
    ensures Decide(Part11(), br, dk) <==> Any10(br) || Any10(dk)
  {
  }

  // fast_10.cpp:806
  function Part12(): Tree {
    Dark(10, Bright(5, Bright(7, Bright(1, Bright(2, Bright(3, Bright(4, Bright(12, Bright(13, Bright(14, Bright(15,
    Accept, Reject), Reject), Reject), Reject), Reject), Reject), Reject), Reject), Part10()), Dark(5, Part11(),
    Dark(15, Dark(14, Dark(7, Dark(9, Dark(12, Dark(13, Accept, Reject), Reject), Reject), Reject), Reject),
    Reject))), Bright(12, Bright(1, Bright(2, Bright(3, Bright(4, Bright(5, Bright(13, Bright(14, Bright(15, Accept,
    Reject), Reject), Reject), Reject), Reject), Reject), Reject), Reject), Reject))
  }

  lemma Part12Decides(br: seq<bool>, dk: seq<bool>)
    requires IsRing(br, dk)
    requires br[0] && !br[8] && dk[8] && !br[11] && dk[11] && !br[6] && dk[6] && !br[10]
    ensures Decide(Part12(), br, dk) <==> Any10(br) || Any10(dk)
  {
    if dk[10] && br[5] && !br[7] { Part10Decides(br, dk); }
    if dk[10] && !br[5] && dk[5] { Part11Decides(br, dk); }
  }

  // fast_10.cpp:776
  function Part13(): Tree {
    Dark(6, Bright(10, Bright(1, Bright(2, Bright(3, Bright(4, Bright(5, Bright(12, Bright(13, Bright(14, Bright(15,
    Accept, Reject), Reject), Reject), Reject), Reject), Reject), Reject), Reject), Reject), Part12()), Bright(12,
    Bright(3, Bright(1, Bright(2, Bright(4, Bright(5, Bright(13, Bright(14, Bright(15, Accept, Reject), Reject),
    Reject), Reject), Reject), Reject), Reject), Reject), Reject))
  }

  lemma Part13Decides(br: seq<bool>, dk: seq<bool>)
    requires IsRing(br, dk)
    requires br[0] && !br[8] && dk[8] && !br[11] && dk[11] && !br[6]
    ensures Decide(Part13(), br, dk) <==> Any10(br) || Any10(dk)
  {
    if dk[6] && !br[10] { Part12Decides(br, dk); }
  }

  // fast_10.cpp:1052
  function Part14(): Tree {
    Bright(5, Bright(14, Bright(15, Bright(13, Bright(1, Bright(2, Bright(4, Bright(6, Accept, Bright(12, Accept,
    Reject)), Reject), Reject), Reject), Dark(13, Bright(6, Bright(1, Bright(2, Bright(4, Bright(7, Accept, Reject),
    Reject), Reject), Reject), Reject), Bright(7, Bright(1, Bright(2, Bright(4, Bright(6, Accept, Reject), Reject),
    Reject), Reject), Reject))), Reject), Reject), Reject)
  }

  lemma Part14Decides(br: seq<bool>, dk: seq<bool>)
    requires IsRing(br, dk)
    requires br[0] && !br[8] && dk[8] && !br[11] && !dk[11] && br[3]
    ensures Decide(Part14(), br, dk) <==> Any10(br) || Any10(dk)
  {
  }

  // fast_10.cpp:746
  function Part15(): Tree {
    Dark(11, Bright(6, Bright(14, Bright(3, Bright(1, Bright(2, Bright(4, Bright(5, Bright(15, Bright(7, Accept,
    Bright(13, Accept, Reject)), Reject), Reject), Reject), Reject), Reject), Reject), Reject), Part13()), Bright(3,
    Part14(), Dark(3, Dark(1, Dark(10, Dark(2, Dark(4, Dark(5, Dark(6, Dark(7, Dark(9, Accept, Reject), Reject),
    Reject), Reject), Reject), Reject), Reject), Reject), Reject)))
  }

  lemma Part15Decides(br: seq<bool>, dk: seq<bool>)
    requires IsRing(br, dk)
    requires br[0] && !br[8] && dk[8] && !br[11]
    ensures Decide(Part15(), br, dk) <==> Any10(br) || Any10(dk)
  {
    if dk[11] && !br[6] { Part13Decides(br, dk); }
    if !dk[11] && br[3] { Part14Decides(br, dk); }
  }

  // fast_10.cpp:1145
  function Part16(): Tree {
    Bright(4, Bright(15, Bright(1, Bright(13, Bright(11, Accept, Bright(5, Accept, Reject)), Dark(13, Bright(5,
    Bright(6, Bright(7, Accept, Reject), Reject), Reject), Bright(7, Bright(5, Bright(6, Accept, Reject), Reject),
    Reject))), Reject), Reject), Dark(4, Bright(1, Bright(10, Bright(11, Bright(13, Bright(15, Accept, Reject),
    Reject), Reject), Reject), Reject), Bright(10, Bright(13, Bright(11, Bright(15, Bright(1, Accept, Reject),
    Reject), Reject), Reject), Reject)))
  }

  lemma Part16Decides(br: seq<bool>, dk: seq<bool>)
    requires IsRing(br, dk)
    requires br[0] && !br[8] && !dk[8] && br[3] && br[14] && br[12] && br[2]
    ensures Decide(Part16(), br, dk) <==> Any10(br) || Any10(dk)
  {
  }

  // fast_10.cpp:1218
  function Part17(): Tree {
    Dark(12, Bright(6, Bright(1, Bright(2, Bright(4, Bright(5, Bright(15, Bright(7, Accept, Bright(13, Accept,
    Reject)), Reject), Reject), Reject), Reject), Reject), Reject), Bright(6, Bright(2, Bright(5, Bright(13,
    Bright(15, Bright(4, Bright(1, Accept, Reject), Reject), Reject), Dark(13, Bright(1, Bright(4, Bright(7,
    Bright(15, Accept, Reject), Reject), Reject), Reject), Bright(7, Bright(15, Bright(4, Bright(1, Accept, Reject),
    Reject), Reject), Reject))), Reject), Reject), Reject))
  }

  lemma Part17Decides(br: seq<bool>, dk: seq<bool>)
    requires IsRing(br, dk)
    requires br[0] && !br[8] && !dk[8] && br[3] && br[14] && !br[12]
    ensures Decide(Part17(), br, dk) <==> Any10(br) || Any10(dk)
  {
  }

  // fast_10.cpp:1141
  function Part18(): Tree {
    Bright(3, Bright(14, Bright(12, Bright(2, Part16(), Reject), Part17()), Reject), Dark(3, Bright(2, Bright(9,
    Bright(1, Bright(10, Bright(11, Bright(12, Bright(13, Bright(14, Bright(15, Accept, Reject), Reject), Reject),
    Reject), Reject), Reject), Reject), Reject), Reject), Bright(9, Bright(2, Bright(12, Bright(14, Bright(11,
    Bright(13, Bright(15, Bright(10, Bright(1, Accept, Reject), Reject), Reject), Reject), Reject), Reject),
    Reject), Reject), Reject)))
  }

  lemma Part18Decides(br: seq<bool>, dk: seq<bool>)
    requires IsRing(br, dk)
    requires br[0] && !br[8] && !dk[8]
    ensures Decide(Part18(), br, dk) <==> Any10(br) || Any10(dk)
  {
    if br[3] && br[14] && br[12] && br[2] { Part16Decides(br, dk); }
    if br[3] && br[14] && !br[12] { Part17Decides(br, dk); }
  }

  // fast_10.cpp:1360
  function Part19(): Tree {
    Bright(5, Bright(11, Bright(4, Bright(3, Accept, Bright(12, Bright(13, Accept, Reject), Reject)), Bright(12,
    Bright(13, Bright(14, Accept, Reject), Reject), Reject)), Bright(1, Bright(3, Bright(4, Accept, Reject),
    Reject), Reject)), Dark(5, Bright(11, Bright(12, Bright(13, Bright(14, Bright(15, Accept, Reject), Reject),
    Reject), Reject), Reject), Bright(13, Bright(11, Bright(12, Bright(14, Bright(15, Accept, Reject), Reject),
    Reject), Reject), Reject)))
  }

  lemma Part19Decides(br: seq<bool>, dk: seq<bool>)
    requires IsRing(br, dk)
    requires !br[0] && dk[0] && br[8] && br[2] && br[10] && br[6] && br[7] && br[9]
    ensures Decide(Part19(), br, dk) <==> Any10(br) || Any10(dk)
  {
  }

  // fast_10.cpp:1439
  function Part20(): Tree {
    Bright(6, Bright(11, Bright(9, Bright(7, Bright(10, Bright(5, Bright(12, Bright(4, Accept, Bright(14, Accept,
    Reject)), Reject), Bright(15, Bright(12, Bright(14, Accept, Reject), Reject), Reject)), Reject), Reject),
    Reject), Reject), Dark(6, Dark(7, Dark(1, Dark(3, Dark(4, Dark(5, Dark(14, Dark(15, Accept, Reject), Reject),
    Reject), Reject), Reject), Reject), Reject), Reject))
  }

  lemma Part20Decides(br: seq<bool>, dk: seq<bool>)
    requires IsRing(br, dk)
    requires !br[0] && dk[0] && br[8] && !br[2] && dk[2] && br[13]
    ensures Decide(Part20(), br, dk) <==> Any10(br) || Any10(dk)
  {
  }

  // fast_10.cpp:1575
  function Part21(): Tree {
    Dark(5, Dark(4, Dark(6, Dark(14, Accept, Reject), Dark(12, Dark(14, Accept, Reject), Reject)), Dark(10, Dark(11,
    Dark(12, Dark(14, Accept, Reject), Reject), Reject), Reject)), Dark(11, Bright(10, Dark(4, Dark(12, Dark(14,
    Accept, Reject), Reject), Reject), Dark(10, Dark(14, Dark(12, Accept, Reject), Reject), Dark(4, Dark(14,
    Dark(12, Accept, Reject), Reject), Reject))), Reject))
  }

  lemma Part21Decides(br: seq<bool>, dk: seq<bool>)
    requires IsRing(br, dk)
    requires !br[0] && dk[0] && br[8] && !br[2] && dk[2] && !br[13] && dk[13] && !br[3] && dk[3] && dk[15] && dk[1]
    && !br[5]
    ensures Decide(Part21(), br, dk) <==> Any10(br) || Any10(dk)
  {
  }

  // fast_10.cpp:1546
  function Part22(): Tree {
    Dark(3, Dark(15, Dark(1, Bright(5, Dark(10, Dark(14, Dark(11, Dark(12, Accept, Reject), Reject), Reject),
    Dark(4, Dark(11, Dark(12, Dark(14, Accept, Reject), Reject), Reject), Reject)), Part21()), Reject), Reject),
    Dark(9, Dark(11, Dark(1, Dark(10, Dark(12, Dark(14, Dark(15, Accept, Reject), Reject), Reject), Reject),
    Reject), Reject), Reject))
  }

  lemma Part22Decides(br: seq<bool>, dk: seq<bool>)
    requires IsRing(br, dk)
    requires !br[0] && dk[0] && br[8] && !br[2] && dk[2] && !br[13] && dk[13] && !br[3]
    ensures Decide(Part22(), br, dk) <==> Any10(br) || Any10(dk)
  {
    if dk[3] && dk[15] && dk[1] && !br[5] { Part21Decides(br, dk); }
  }

  // fast_10.cpp:1499
  function Part23(): Tree {
    Dark(13, Bright(3, Bright(10, Bright(7, Bright(4, Bright(5, Bright(6, Bright(9, Bright(11, Bright(12, Accept,
    Reject), Reject), Reject), Reject), Reject), Reject), Reject), Dark(10, Dark(9, Dark(1, Dark(11, Dark(12,
    Dark(14, Dark(15, Accept, Reject), Reject), Reject), Reject), Reject), Reject), Reject)), Part22()), Bright(7,
    Bright(3, Bright(10, Bright(4, Bright(5, Bright(6, Bright(9, Bright(11, Bright(12, Accept, Reject), Reject),
    Reject), Reject), Reject), Reject), Reject), Reject), Dark(7, Dark(1, Dark(3, Dark(4, Dark(5, Dark(6, Dark(14,
    Dark(15, Accept, Reject), Reject), Reject), Reject), Reject), Reject), Reject), Reject)))
  }

  lemma Part23Decides(br: seq<bool>, dk: seq<bool>)
    requires IsRing(br, dk)
    requires !br[0] && dk[0] && br[8] && !br[2] && dk[2] && !br[13]
    ensures Decide(Part23(), br, dk) <==> Any10(br) || Any10(dk)
  {
    if dk[13] && !br[3] { Part22Decides(br, dk); }
  }

  // fast_10.cpp:1437
  function Part24(): Tree {
    Dark(2, Bright(13, Part20(), Part23()), Bright(12, Bright(6, Bright(11, Bright(9, Bright(10, Bright(13,
    Bright(7, Bright(5, Bright(4, Accept, Bright(14, Accept, Reject)), Bright(15, Bright(14, Accept, Reject),
    Reject)), Reject), Bright(3, Bright(4, Bright(5, Bright(7, Accept, Reject), Reject), Reject), Reject)), Reject),
    Reject), Reject), Reject), Reject))
  }

  lemma Part24Decides(br: seq<bool>, dk: seq<bool>)
    requires IsRing(br, dk)
    requires !br[0] && dk[0] && br[8] && !br[2]
    ensures Decide(Part24(), br, dk) <==> Any10(br) || Any10(dk)
  {
    if dk[2] && br[13] { Part20Decides(br, dk); }
    if dk[2] && !br[13] { Part23Decides(br, dk); }
  }

  // fast_10.cpp:1771
  function Part25(): Tree {
    Dark(14, Dark(15, Dark(13, Dark(1, Dark(11, Bright(9, Dark(2, Dark(3, Accept, Reject), Reject), Dark(9, Accept,
    Dark(3, Dark(2, Accept, Reject), Reject))), Reject), Dark(7, Dark(9, Dark(11, Accept, Reject), Reject),
    Reject)), Reject), Dark(5, Dark(6, Dark(7, Dark(9, Dark(11, Dark(13, Accept, Reject), Reject), Reject), Reject),
    Reject), Reject)), Reject)
  }

  lemma Part25Decides(br: seq<bool>, dk: seq<bool>)
    requires IsRing(br, dk)
    requires !br[0] && dk[0] && !br[8] && dk[8] && br[4] && dk[12] && dk[10]
    ensures Decide(Part25(), br, dk) <==> Any10(br) || Any10(dk)
  {
  }

  // fast_10.cpp:1839
  function Part26(): Tree {
    Dark(11, Dark(9, Dark(13, Dark(14, Dark(7, Bright(15, Dark(5, Dark(6, Accept, Reject), Reject), Dark(15, Accept,
    Dark(6, Dark(5, Accept, Reject), Reject))), Dark(1, Dark(15, Accept, Reject), Reject)), Dark(5, Dark(6, Dark(7,
    Accept, Reject), Reject), Reject)), Dark(3, Dark(5, Dark(6, Dark(7, Accept, Reject), Reject), Reject), Reject)),
    Reject), Reject)
  }

  lemma Part26Decides(br: seq<bool>, dk: seq<bool>)
    requires IsRing(br, dk)
    requires !br[0] && dk[0] && !br[8] && dk[8] && !br[4] && dk[4] && br[2] && dk[10] && dk[12]
    ensures Decide(Part26(), br, dk) <==> Any10(br) || Any10(dk)
  {
  }

  // fast_10.cpp:2021
  function Part27(): Tree {
    Bright(7, Dark(1, Dark(13, Dark(14, Dark(15, Accept, Reject), Reject), Reject), Reject), Dark(7, Bright(1,
    Dark(9, Dark(10, Dark(11, Accept, Reject), Reject), Reject), Dark(1, Dark(9, Accept, Dark(15, Accept, Reject)),
    Dark(11, Dark(10, Dark(9, Accept, Reject), Reject), Reject))), Dark(13, Dark(15, Dark(14, Dark(1, Accept,
    Reject), Reject), Reject), Reject)))
  }

  lemma Part27Decides(br: seq<bool>, dk: seq<bool>)
    requires IsRing(br, dk)
    requires !br[0] && dk[0] && !br[8] && dk[8] && !br[4] && dk[4] && !br[2] && dk[2] && !br[6] && dk[6] && !br[3]
    && dk[3] && !br[5] && dk[5]
    ensures Decide(Part27(), br, dk) <==> Any10(br) || Any10(dk)
  {
  }

  // fast_10.cpp:1991
  function Part28(): Tree {
    Bright(5, Dark(11, Dark(12, Dark(13, Dark(14, Dark(15, Dark(1, Accept, Dark(7, Dark(9, Dark(10, Accept, Reject),
    Reject), Reject)), Reject), Reject), Reject), Reject), Reject), Dark(5, Part27(), Dark(12, Dark(14, Dark(11,
    Dark(13, Dark(15, Bright(1, Dark(7, Dark(9, Dark(10, Accept, Reject), Reject), Reject), Dark(1, Accept, Dark(9,
    Dark(7, Dark(10, Accept, Reject), Reject), Reject))), Reject), Reject), Reject), Reject), Reject)))
  }

  lemma Part28Decides(br: seq<bool>, dk: seq<bool>)
    requires IsRing(br, dk)
    requires !br[0] && dk[0] && !br[8] && dk[8] && !br[4] && dk[4] && !br[2] && dk[2] && !br[6] && dk[6] && !br[3]
    && dk[3]
    ensures Decide(Part28(), br, dk) <==> Any10(br) || Any10(dk)
  {
    if !br[5] && dk[5] { Part27Decides(br, dk); }
  }

  // fast_10.cpp:1952
  function Part29(): Tree {
    Bright(3, Dark(9, Dark(10, Dark(11, Dark(12, Dark(13, Dark(7, Dark(5, Accept, Dark(14, Dark(15, Accept, Reject),
    Reject)), Dark(1, Dark(14, Dark(15, Accept, Reject), Reject), Reject)), Reject), Reject), Reject), Reject),
    Reject), Dark(3, Part28(), Dark(11, Dark(13, Dark(10, Dark(9, Dark(12, Bright(7, Dark(1, Dark(14, Dark(15,
    Accept, Reject), Reject), Reject), Dark(7, Dark(5, Accept, Dark(14, Dark(15, Accept, Reject), Reject)), Dark(15,
    Dark(1, Dark(14, Accept, Reject), Reject), Reject))), Reject), Reject), Reject), Reject), Reject)))
  }

  lemma Part29Decides(br: seq<bool>, dk: seq<bool>)
    requires IsRing(br, dk)
    requires !br[0] && dk[0] && !br[8] && dk[8] && !br[4] && dk[4] && !br[2] && dk[2] && !br[6] && dk[6]
    ensures Decide(Part29(), br, dk) <==> Any10(br) || Any10(dk)
  {
    if !br[3] && dk[3] { Part28Decides(br, dk); }
  }

  // fast_10.cpp:2174
  function Part30(): Tree {
    Bright(11, Dark(1, Dark(3, Dark(5, Accept, Reject), Reject), Reject), Dark(11, Bright(1, Dark(7, Dark(9,
    Dark(10, Accept, Reject), Reject), Reject), Dark(1, Bright(3, Dark(9, Dark(10, Accept, Reject), Reject), Dark(3,
    Accept, Dark(10, Dark(9, Accept, Reject), Reject))), Dark(7, Dark(10, Dark(9, Accept, Reject), Reject),
    Reject))), Dark(5, Dark(3, Dark(1, Accept, Reject), Reject), Reject)))
  }

  lemma Part30Decides(br: seq<bool>, dk: seq<bool>)
    requires IsRing(br, dk)
    requires !br[0] && dk[0] && !br[8] && dk[8] && !br[4] && dk[4] && !br[2] && dk[2] && !br[6] && !dk[6] && dk[12]
    && dk[14] && dk[15] && dk[13]
    ensures Decide(Part30(), br, dk) <==> Any10(br) || Any10(dk)
  {
  }

  // fast_10.cpp:1904
  function Part31(): Tree {
    Bright(6, Dark(13, Dark(14, Dark(15, Dark(12, Dark(1, Dark(3, Dark(11, Accept, Dark(5, Accept, Reject)), Dark(9,
    Dark(10, Dark(11, Accept, Reject), Reject), Reject)), Dark(7, Dark(9, Dark(10, Dark(11, Accept, Reject),
    Reject), Reject), Reject)), Reject), Reject), Reject), Reject), Dark(6, Part29(), Dark(12, Dark(14, Dark(15,
    Dark(13, Part30(), Reject), Reject), Reject), Reject)))
  }

  lemma Part31Decides(br: seq<bool>, dk: seq<bool>)
    requires IsRing(br, dk)
    requires !br[0] && dk[0] && !br[8] && dk[8] && !br[4] && dk[4] && !br[2] && dk[2]
    ensures Decide(Part31(), br, dk) <==> Any10(br) || Any10(dk)
  {
    if !br[6] && dk[6] { Part29Decides(br, dk); }
    if !br[6] && !dk[6] && dk[12] && dk[14] && dk[15] && dk[13] { Part30Decides(br, dk); }
  }

  // fast_10.cpp:2251
  function Part32(): Tree {
    Bright(13, Dark(3, Dark(5, Dark(6, Dark(7, Accept, Reject), Reject), Reject), Reject), Dark(13, Dark(7, Dark(6,
    Dark(5, Accept, Dark(14, Dark(15, Accept, Reject), Reject)), Dark(14, Dark(15, Accept, Reject), Reject)),
    Dark(1, Dark(14, Dark(15, Accept, Reject), Reject), Reject)), Dark(3, Dark(6, Dark(7, Dark(5, Accept, Reject),
    Reject), Reject), Reject)))
  }

  lemma Part32Decides(br: seq<bool>, dk: seq<bool>)
    requires IsRing(br, dk)
    requires !br[0] && dk[0] && !br[8] && dk[8] && !br[4] && dk[4] && !br[2] && !dk[2] && dk[11] && dk[10] && dk[12]
    && dk[9]
    ensures Decide(Part32(), br, dk) <==> Any10(br) || Any10(dk)
  {
  }

  // fast_10.cpp:2320
  function Part33(): Tree {
    Dark(12, Dark(10, Dark(14, Dark(11, Dark(13, Dark(15, Bright(9, Dark(1, Dark(2, Dark(3, Accept, Reject),
    Reject), Reject), Dark(9, Dark(1, Accept, Dark(7, Accept, Reject)), Dark(3, Dark(2, Dark(1, Accept, Reject),
    Reject), Reject))), Dark(5, Dark(6, Dark(7, Dark(9, Accept, Reject), Reject), Reject), Reject)), Reject),
    Reject), Reject), Reject), Reject)
  }

  lemma Part33Decides(br: seq<bool>, dk: seq<bool>)
    requires IsRing(br, dk)
    requires !br[0] && dk[0] && !br[8] && dk[8] && !br[4] && !dk[4]
    ensures Decide(Part33(), br, dk) <==> Any10(br) || Any10(dk)
  {
  }

  // fast_10.cpp:2384
  function Part34(): Tree {
    Dark(14, Bright(7, Dark(1, Dark(3, Dark(4, Dark(5, Dark(13, Dark(15, Accept, Reject), Reject), Reject), Reject),
    Reject), Reject), Dark(7, Dark(4, Dark(5, Dark(1, Dark(3, Dark(15, Accept, Reject), Reject), Reject), Reject),
    Reject), Dark(13, Dark(1, Dark(3, Dark(4, Dark(5, Dark(15, Accept, Reject), Reject), Reject), Reject), Reject),
    Reject))), Reject)
  }

  lemma Part34Decides(br: seq<bool>, dk: seq<bool>)
    requires IsRing(br, dk)
    requires !br[0] && dk[0] && !br[8] && !dk[8] && dk[2] && br[12] && dk[6]
    ensures Decide(Part34(), br, dk) <==> Any10(br) || Any10(dk)
  {
  }

  // fast_10.cpp:2472
  function Part35(): Tree {
    Bright(4, Dark(10, Dark(15, Dark(1, Dark(11, Dark(13, Accept, Reject), Reject), Reject), Reject), Reject),
    Dark(4, Dark(15, Dark(1, Bright(13, Dark(5, Dark(6, Dark(7, Accept, Reject), Reject), Reject), Dark(13, Dark(5,
    Accept, Dark(11, Accept, Reject)), Dark(7, Dark(6, Dark(5, Accept, Reject), Reject), Reject))), Reject),
    Reject), Dark(10, Dark(11, Dark(15, Dark(13, Dark(1, Accept, Reject), Reject), Reject), Reject), Reject)))
  }

  lemma Part35Decides(br: seq<bool>, dk: seq<bool>)
    requires IsRing(br, dk)
    requires !br[0] && dk[0] && !br[8] && !dk[8] && dk[2] && !br[12] && dk[12] && !br[3] && dk[3] && dk[14]
    ensures Decide(Part35(), br, dk) <==> Any10(br) || Any10(dk)
  {
  }

  // fast_10.cpp:2446
  function Part36(): Tree {
    Dark(12, Bright(3, Dark(9, Dark(11, Dark(14, Dark(13, Dark(15, Dark(1, Dark(10, Accept, Reject), Reject),
    Reject), Reject), Reject), Reject), Reject), Dark(3, Dark(14, Part35(), Reject), Dark(9, Dark(10, Dark(14,
    Dark(11, Dark(15, Dark(1, Dark(13, Accept, Reject), Reject), Reject), Reject), Reject), Reject), Reject))),
    Dark(6, Dark(14, Dark(4, Bright(13, Dark(7, Dark(3, Dark(1, Dark(5, Dark(15, Accept, Reject), Reject), Reject),
    Reject), Reject), Dark(13, Dark(5, Dark(15, Dark(1, Dark(3, Accept, Reject), Reject), Reject), Reject), Dark(7,
    Dark(15, Dark(3, Dark(5, Dark(1, Accept, Reject), Reject), Reject), Reject), Reject))), Reject), Reject),
    Reject))
  }

  lemma Part36Decides(br: seq<bool>, dk: seq<bool>)
    requires IsRing(br, dk)
    requires !br[0] && dk[0] && !br[8] && !dk[8] && dk[2] && !br[12]
    ensures Decide(Part36(), br, dk) <==> Any10(br) || Any10(dk)
  {
    if dk[12] && !br[3] && dk[3] && dk[14] { Part35Decides(br, dk); }
  }

  // fast_10.cpp:1767
  function Part37(): Tree {
    Dark(8, Bright(4, Dark(12, Dark(10, Part25(), Reject), Reject), Dark(4, Bright(2, Dark(10, Dark(12, Part26(),
    Reject), Reject), Dark(2, Part31(), Dark(11, Dark(10, Dark(12, Dark(9, Part32(), Reject), Reject), Reject),
    Reject))), Part33())), Dark(2, Bright(12, Dark(6, Part34(), Reject), Part36()), Reject))
  }

  lemma Part37Decides(br: seq<bool>, dk: seq<bool>)
    requires IsRing(br, dk)
    requires !br[0] && dk[0] && !br[8]
    ensures Decide(Part37(), br, dk) <==> Any10(br) || Any10(dk)
  {
    if dk[8] && br[4] && dk[12] && dk[10] { Part25Decides(br, dk); }
    if dk[8] && !br[4] && dk[4] && br[2] && dk[10] && dk[12] { Part26Decides(br, dk); }
    if dk[8] && !br[4] && dk[4] && !br[2] && dk[2] { Part31Decides(br, dk); }
    if dk[8] && !br[4] && dk[4] && !br[2] && !dk[2] && dk[11] && dk[10] && dk[12] && dk[9] { Part32Decides(br, dk);
    }
    if dk[8] && !br[4] && !dk[4] { Part33Decides(br, dk); }
    if !dk[8] && dk[2] && br[12] && dk[6] { Part34Decides(br, dk); }
    if !dk[8] && dk[2] && !br[12] { Part36Decides(br, dk); }
  }

  // fast_10.cpp:2635
  function Part38(): Tree {
    Bright(11, Bright(9, Bright(5, Bright(3, Accept, Dark(3, Bright(12, Bright(13, Accept, Reject), Reject),
    Bright(13, Bright(12, Accept, Reject), Reject))), Dark(5, Bright(12, Bright(13, Bright(14, Bright(15, Accept,
    Reject), Reject), Reject), Reject), Bright(15, Bright(14, Bright(12, Bright(13, Accept, Reject), Reject),
    Reject), Reject))), Reject), Bright(1, Bright(3, Bright(5, Bright(9, Accept, Reject), Reject), Reject), Reject))
  }

  lemma Part38Decides(br: seq<bool>, dk: seq<bool>)
    requires IsRing(br, dk)
    requires !br[0] && !dk[0] && br[8] && br[10] && br[4] && br[2] && br[6] && br[7]
    ensures Decide(Part38(), br, dk) <==> Any10(br) || Any10(dk)
  {
  }

  // fast_10.cpp:2741
  function Part39(): Tree {
    Bright(6, Bright(11, Bright(13, Bright(7, Bright(9, Bright(5, Accept, Dark(5, Bright(14, Bright(15, Accept,
    Reject), Reject), Bright(15, Bright(14, Accept, Reject), Reject))), Reject), Reject), Dark(13, Bright(3,
    Bright(5, Bright(7, Bright(9, Accept, Reject), Reject), Reject), Reject), Bright(3, Bright(7, Bright(9,
    Bright(5, Accept, Reject), Reject), Reject), Reject))), Reject), Reject)
  }

  lemma Part39Decides(br: seq<bool>, dk: seq<bool>)
    requires IsRing(br, dk)
    requires !br[0] && !dk[0] && br[8] && br[10] && br[4] && !br[2] && !dk[2] && br[12]
    ensures Decide(Part39(), br, dk) <==> Any10(br) || Any10(dk)
  {
  }

  // fast_10.cpp:2802
  function Part40(): Tree {
    Dark(4, Bright(6, Bright(14, Bright(13, Bright(7, Bright(15, Bright(9, Bright(11, Bright(12, Accept, Reject),
    Reject), Reject), Bright(5, Bright(9, Bright(11, Bright(12, Accept, Reject), Reject), Reject), Reject)),
    Reject), Reject), Reject), Reject), Bright(14, Bright(6, Bright(12, Bright(5, Bright(11, Bright(9, Bright(7,
    Bright(13, Accept, Reject), Reject), Reject), Reject), Dark(5, Bright(15, Bright(7, Bright(9, Bright(11,
    Bright(13, Accept, Reject), Reject), Reject), Reject), Reject), Bright(15, Bright(11, Bright(9, Bright(13,
    Bright(7, Accept, Reject), Reject), Reject), Reject), Reject))), Reject), Reject), Reject))
  }

  lemma Part40Decides(br: seq<bool>, dk: seq<bool>)
    requires IsRing(br, dk)
    requires !br[0] && !dk[0] && br[8] && br[10] && !br[4]
    ensures Decide(Part40(), br, dk) <==> Any10(br) || Any10(dk)
  {
  }

  // fast_10.cpp:2631
  function Part41(): Tree {
    Bright(4, Bright(2, Bright(6, Bright(7, Part38(), Reject), Reject), Dark(2, Bright(11, Bright(12, Bright(9,
    Bright(6, Bright(7, Bright(13, Bright(5, Accept, Bright(14, Bright(15, Accept, Reject), Reject)), Bright(3,
    Bright(5, Accept, Reject), Reject)), Reject), Reject), Reject), Reject), Reject), Bright(12, Part39(),
    Reject))), Part40())
  }

  lemma Part41Decides(br: seq<bool>, dk: seq<bool>)
    requires IsRing(br, dk)
    requires !br[0] && !dk[0] && br[8] && br[10]
    ensures Decide(Part41(), br, dk) <==> Any10(br) || Any10(dk)
  {
    if br[4] && br[2] && br[6] && br[7] { Part38Decides(br, dk); }
    if br[4] && !br[2] && !dk[2] && br[12] { Part39Decides(br, dk); }
    if !br[4] { Part40Decides(br, dk); }
  }

  // fast_10.cpp:2993
  function Part42(): Tree {
    Bright(11, Dark(1, Dark(2, Dark(3, Dark(5, Dark(9, Accept, Reject), Reject), Reject), Reject), Reject), Dark(11,
    Dark(9, Bright(5, Dark(13, Dark(14, Dark(15, Accept, Reject), Reject), Reject), Dark(5, Dark(13, Accept, Dark(3,
    Accept, Reject)), Dark(15, Dark(14, Dark(13, Accept, Reject), Reject), Reject))), Reject), Dark(1, Dark(2,
    Dark(9, Dark(3, Dark(5, Accept, Reject), Reject), Reject), Reject), Reject)))
  }

  lemma Part42Decides(br: seq<bool>, dk: seq<bool>)
    requires IsRing(br, dk)
    requires !br[0] && !dk[0] && !br[8] && dk[8] && dk[10] && !br[4] && dk[4] && dk[6] && !br[12] && dk[12] && dk[7]
    ensures Decide(Part42(), br, dk) <==> Any10(br) || Any10(dk)
  {
  }

  // fast_10.cpp:2939
  function Part43(): Tree {
    Bright(12, Dark(2, Bright(1, Dark(3, Dark(5, Dark(7, Dark(9, Dark(11, Accept, Reject), Reject), Reject),
    Reject), Reject), Dark(1, Dark(5, Dark(9, Dark(3, Dark(7, Accept, Reject), Reject), Reject), Reject), Dark(11,
    Dark(3, Dark(5, Dark(7, Dark(9, Accept, Reject), Reject), Reject), Reject), Reject))), Reject), Dark(12, Dark(7,
    Part42(), Reject), Dark(2, Dark(1, Dark(3, Dark(7, Dark(9, Dark(5, Accept, Reject), Reject), Reject), Reject),
    Dark(11, Dark(3, Dark(5, Dark(7, Dark(9, Accept, Reject), Reject), Reject), Reject), Reject)), Reject)))
  }

  lemma Part43Decides(br: seq<bool>, dk: seq<bool>)
    requires IsRing(br, dk)
    requires !br[0] && !dk[0] && !br[8] && dk[8] && dk[10] && !br[4] && dk[4] && dk[6]
    ensures Decide(Part43(), br, dk) <==> Any10(br) || Any10(dk)
  {
    if !br[12] && dk[12] && dk[7] { Part42Decides(br, dk); }
  }

  // fast_10.cpp:2937
  function Part44(): Tree {
    Dark(4, Dark(6, Part43(), Reject), Dark(14, Dark(6, Dark(12, Bright(5, Dark(9, Dark(7, Dark(11, Dark(13,
    Dark(15, Accept, Reject), Reject), Reject), Reject), Reject), Dark(5, Dark(13, Dark(11, Dark(7, Dark(9, Accept,
    Reject), Reject), Reject), Reject), Dark(15, Dark(13, Dark(7, Dark(9, Dark(11, Accept, Reject), Reject),
    Reject), Reject), Reject))), Reject), Reject), Reject))
  }

  lemma Part44Decides(br: seq<bool>, dk: seq<bool>)
    requires IsRing(br, dk)
    requires !br[0] && !dk[0] && !br[8] && dk[8] && dk[10] && !br[4]
    ensures Decide(Part44(), br, dk) <==> Any10(br) || Any10(dk)
  {
    if dk[4] && dk[6] { Part43Decides(br, dk); }
  }

  // fast_10.cpp:1353
  function Part45(): Tree {
    Dark(0, Bright(8, Bright(2, Bright(10, Bright(6, Bright(7, Bright(9, Part19(), Reject), Reject), Reject),
    Reject), Part24()), Part37()), Bright(8, Bright(10, Part41(), Reject), Dark(8, Dark(10, Bright(4, Dark(14,
    Dark(6, Dark(12, Dark(9, Dark(11, Dark(15, Dark(13, Dark(7, Accept, Reject), Reject), Dark(5, Dark(7, Dark(13,
    Accept, Reject), Reject), Reject)), Reject), Reject), Reject), Reject), Reject), Part44()), Reject), Reject)))
  }

  lemma Part45Decides(br: seq<bool>, dk: seq<bool>)
    requires IsRing(br, dk)
    requires !br[0]
    ensures Decide(Part45(), br, dk) <==> Any10(br) || Any10(dk)
  {
    if dk[0] && br[8] && br[2] && br[10] && br[6] && br[7] && br[9] { Part19Decides(br, dk); }
    if dk[0] && br[8] && !br[2] { Part24Decides(br, dk); }
    if dk[0] && !br[8] { Part37Decides(br, dk); }
    if !dk[0] && br[8] && br[10] { Part41Decides(br, dk); }
    if !dk[0] && !br[8] && dk[8] && dk[10] && !br[4] { Part44Decides(br, dk); }
  }

  // fast_10.cpp:50
  function Part46(): Tree {
    Bright(0, Bright(8, Bright(3, Part6(), Part8()), Dark(8, Bright(11, Part9(), Part15()), Part18())), Part45())
  }

  lemma Part46Decides(br: seq<bool>, dk: seq<bool>)
    requires IsRing(br, dk)
    ensures Decide(Part46(), br, dk) <==> Any10(br) || Any10(dk)
  {
    if br[0] && br[8] && br[3] { Part6Decides(br, dk); }
    if br[0] && br[8] && !br[3] { Part8Decides(br, dk); }
    if br[0] && !br[8] && dk[8] && br[11] { Part9Decides(br, dk); }
    if br[0] && !br[8] && dk[8] && !br[11] { Part15Decides(br, dk); }
    if br[0] && !br[8] && !dk[8] { Part18Decides(br, dk); }
    if !br[0] { Part45Decides(br, dk); }
  }

  /** The whole nest. */
  function Whole(): Tree {
    Part46()
  }

  /** The nest computes the segment test for 10-arcs on every circle. */
  lemma WholeDecides()
    ensures DecidesSegment(Whole(), 10)
  {
    forall br, dk | IsRing(br, dk)
      ensures Decide(Whole(), br, dk) <==> SegmentHolds(br, dk, 10)
    {
      Part46Decides(br, dk);
      Arc10WrittenOut(br);
      Arc10WrittenOut(dk);
    }
  }

  /** Running the nest on one circle. */
  method Run(br: seq<bool>, dk: seq<bool>) returns (corner: bool)
    requires IsRing(br, dk)
    ensures corner <==> SegmentHolds(br, dk, 10)
  {
    WholeDecides();
    corner := Decide(Whole(), br, dk);
  }
}
