/** The decision nest of `fast_corner_detect_9`.

    Generated by tools/generate_trees.py. */
module Fast9Tree {
  import opened FastCircle
  import opened SegmentTree

  // fast_9.cpp:102
  function Part0(): Tree {
    Dark(6, Bright(15, Bright(13, Bright(14, Accept, Reject), Dark(13, Dark(7, Dark(8, Dark(9, Dark(10, Dark(11,
    Dark(12, Dark(14, Accept, Reject), Reject), Reject), Reject), Reject), Reject), Reject), Reject)), Dark(7,
    Dark(8, Dark(9, Dark(10, Dark(11, Dark(12, Dark(13, Dark(14, Accept, Reject), Reject), Reject), Reject),
    Reject), Reject), Reject), Reject)), Bright(13, Bright(14, Bright(15, Accept, Reject), Reject), Dark(13, Dark(7,
    Dark(8, Dark(9, Dark(10, Dark(11, Dark(12, Dark(14, Dark(15, Accept, Reject), Reject), Reject), Reject),
    Reject), Reject), Reject), Reject), Reject)))
  }

  lemma Part0Decides(br: seq<bool>, dk: seq<bool>)
    requires IsRing(br, dk)
    requires br[0] && br[1] && br[2] && br[3] && br[4] && br[5] && !br[6]
    ensures Decide(Part0(), br, dk) <==> Any9(br) || Any9(dk)
  {
  }

  // fast_9.cpp:198
  function Part1(): Tree {
    Bright(14, Bright(12, Bright(13, Bright(15, Accept, Bright(6, Bright(7, Bright(8, Bright(9, Bright(10,
    Bright(11, Accept, Reject), Reject), Reject), Reject), Reject), Reject)), Reject), Dark(12, Dark(6, Dark(7,
    Dark(8, Dark(9, Dark(10, Dark(11, Dark(13, Accept, Reject), Reject), Reject), Reject), Reject), Reject),
    Reject), Reject)), Dark(14, Dark(7, Dark(8, Dark(9, Dark(10, Dark(11, Dark(12, Dark(13, Dark(6, Accept, Dark(15,
    Accept, Reject)), Reject), Reject), Reject), Reject), Reject), Reject), Reject), Dark(6, Dark(7, Dark(8, Dark(9,
    Dark(10, Dark(11, Dark(12, Dark(13, Accept, Reject), Reject), Reject), Reject), Reject), Reject), Reject),
    Reject)))
  }

  lemma Part1Decides(br: seq<bool>, dk: seq<bool>)
    requires IsRing(br, dk)
    requires br[0] && br[1] && br[2] && br[3] && br[4] && !br[5] && dk[5]
    ensures Decide(Part1(), br, dk) <==> Any9(br) || Any9(dk)
  {
  }

  // fast_9.cpp:306
  function Part2(): Tree {
    Bright(12, Bright(13, Bright(14, Bright(15, Accept, Bright(6, Bright(7, Bright(8, Bright(9, Bright(10,
    Bright(11, Accept, Reject), Reject), Reject), Reject), Reject), Reject)), Reject), Reject), Dark(12, Dark(7,
    Dark(8, Dark(9, Dark(10, Dark(11, Dark(13, Dark(14, Dark(6, Accept, Dark(15, Accept, Reject)), Reject), Reject),
    Reject), Reject), Reject), Reject), Reject), Reject))
  }

  lemma Part2Decides(br: seq<bool>, dk: seq<bool>)
    requires IsRing(br, dk)
    requires br[0] && br[1] && br[2] && br[3] && br[4] && !br[5] && !dk[5]
    ensures Decide(Part2(), br, dk) <==> Any9(br) || Any9(dk)
  {
  }

  // fast_9.cpp:53
  function Part3(): Tree {
    Bright(5, Bright(6, Bright(7, Bright(8, Accept, Bright(15, Accept, Reject)), Dark(7, Bright(14, Bright(15,
    Accept, Reject), Dark(14, Dark(8, Dark(9, Dark(10, Dark(11, Dark(12, Dark(13, Dark(15, Accept, Reject), Reject),
    Reject), Reject), Reject), Reject), Reject), Reject)), Bright(14, Bright(15, Accept, Reject), Reject))),
    Part0()), Dark(5, Part1(), Part2()))
  }

  lemma Part3Decides(br: seq<bool>, dk: seq<bool>)
    requires IsRing(br, dk)
    requires br[0] && br[1] && br[2] && br[3] && br[4]
    ensures Decide(Part3(), br, dk) <==> Any9(br) || Any9(dk)
  {
    if br[5] && !br[6] { Part0Decides(br, dk); }
    if !br[5] && dk[5] { Part1Decides(br, dk); }
    if !br[5] && !dk[5] { Part2Decides(br, dk); }
  }

  // fast_9.cpp:368
  function Part4(): Tree {
    Bright(11, Bright(12, Bright(14, Bright(15, Accept, Bright(6, Bright(7, Bright(8, Bright(9, Bright(10, Accept,
    Reject), Reject), Reject), Reject), Reject)), Bright(5, Bright(6, Bright(7, Bright(8, Bright(9, Bright(10,
    Accept, Reject), Reject), Reject), Reject), Reject), Reject)), Reject), Dark(11, Dark(5, Dark(6, Dark(7, Dark(8,
    Dark(9, Dark(10, Dark(12, Accept, Reject), Reject), Reject), Reject), Reject), Reject), Reject), Reject))
  }

  lemma Part4Decides(br: seq<bool>, dk: seq<bool>)
    requires IsRing(br, dk)
    requires br[0] && br[1] && br[2] && br[3] && !br[4] && dk[4] && br[13]
    ensures Decide(Part4(), br, dk) <==> Any9(br) || Any9(dk)
  {
  }

  // fast_9.cpp:437
  function Part5(): Tree {
    Dark(13, Dark(7, Dark(8, Dark(9, Dark(10, Dark(11, Dark(12, Dark(6, Dark(5, Accept, Dark(14, Accept, Reject)),
    Dark(14, Dark(15, Accept, Reject), Reject)), Reject), Reject), Reject), Reject), Reject), Reject), Dark(5,
    Dark(6, Dark(7, Dark(8, Dark(9, Dark(10, Dark(11, Dark(12, Accept, Reject), Reject), Reject), Reject), Reject),
    Reject), Reject), Reject))
  }

  lemma Part5Decides(br: seq<bool>, dk: seq<bool>)
    requires IsRing(br, dk)
    requires br[0] && br[1] && br[2] && br[3] && !br[4] && dk[4] && !br[13]
    ensures Decide(Part5(), br, dk) <==> Any9(br) || Any9(dk)
  {
  }

  // fast_9.cpp:499
  function Part6(): Tree {
    Bright(11, Bright(12, Bright(13, Bright(14, Bright(15, Accept, Bright(6, Bright(7, Bright(8, Bright(9,
    Bright(10, Accept, Reject), Reject), Reject), Reject), Reject)), Bright(5, Bright(6, Bright(7, Bright(8,
    Bright(9, Bright(10, Accept, Reject), Reject), Reject), Reject), Reject), Reject)), Reject), Reject), Dark(11,
    Dark(7, Dark(8, Dark(9, Dark(10, Dark(12, Dark(13, Dark(6, Dark(5, Accept, Dark(14, Accept, Reject)), Dark(14,
    Dark(15, Accept, Reject), Reject)), Reject), Reject), Reject), Reject), Reject), Reject), Reject))
  }

  lemma Part6Decides(br: seq<bool>, dk: seq<bool>)
    requires IsRing(br, dk)
    requires br[0] && br[1] && br[2] && br[3] && !br[4] && !dk[4]
    ensures Decide(Part6(), br, dk) <==> Any9(br) || Any9(dk)
  {
  }

  // fast_9.cpp:585
  function Part7(): Tree {
    Bright(11, Bright(12, Bright(13, Bright(14, Bright(15, Accept, Bright(6, Bright(7, Bright(8, Bright(9, Accept,
    Reject), Reject), Reject), Reject)), Bright(5, Bright(6, Bright(7, Bright(8, Bright(9, Accept, Reject), Reject),
    Reject), Reject), Reject)), Bright(4, Bright(5, Bright(6, Bright(7, Bright(8, Bright(9, Accept, Reject),
    Reject), Reject), Reject), Reject), Reject)), Reject), Reject)
  }

  lemma Part7Decides(br: seq<bool>, dk: seq<bool>)
    requires IsRing(br, dk)
    requires br[0] && br[1] && br[2] && !br[3] && dk[3] && br[10]
    ensures Decide(Part7(), br, dk) <==> Any9(br) || Any9(dk)
  {
  }

  // fast_9.cpp:700
  function Part8(): Tree {
    Bright(11, Bright(12, Bright(13, Bright(14, Bright(15, Accept, Bright(6, Bright(7, Bright(8, Bright(9, Accept,
    Reject), Reject), Reject), Reject)), Bright(5, Bright(6, Bright(7, Bright(8, Bright(9, Accept, Reject), Reject),
    Reject), Reject), Reject)), Bright(4, Bright(5, Bright(6, Bright(7, Bright(8, Bright(9, Accept, Reject),
    Reject), Reject), Reject), Reject), Reject)), Reject), Reject)
  }

  lemma Part8Decides(br: seq<bool>, dk: seq<bool>)
    requires IsRing(br, dk)
    requires br[0] && br[1] && br[2] && !br[3] && !dk[3] && br[10]
    ensures Decide(Part8(), br, dk) <==> Any9(br) || Any9(dk)
  {
  }

  // fast_9.cpp:583
  function Part9(): Tree {
    Dark(3, Bright(10, Part7(), Dark(10, Dark(7, Dark(8, Dark(9, Dark(11, Dark(6, Dark(5, Dark(4, Accept, Dark(12,
    Dark(13, Accept, Reject), Reject)), Dark(12, Dark(13, Dark(14, Accept, Reject), Reject), Reject)), Dark(12,
    Dark(13, Dark(14, Dark(15, Accept, Reject), Reject), Reject), Reject)), Reject), Reject), Reject), Reject),
    Reject)), Bright(10, Part8(), Dark(10, Dark(7, Dark(8, Dark(9, Dark(11, Dark(12, Dark(6, Dark(5, Dark(4, Accept,
    Dark(13, Accept, Reject)), Dark(13, Dark(14, Accept, Reject), Reject)), Dark(13, Dark(14, Dark(15, Accept,
    Reject), Reject), Reject)), Reject), Reject), Reject), Reject), Reject), Reject)))
  }

  lemma Part9Decides(br: seq<bool>, dk: seq<bool>)
    requires IsRing(br, dk)
    requires br[0] && br[1] && br[2] && !br[3]
    ensures Decide(Part9(), br, dk) <==> Any9(br) || Any9(dk)
  {
    if dk[3] && br[10] { Part7Decides(br, dk); }
    if !dk[3] && br[10] { Part8Decides(br, dk); }
  }

  // fast_9.cpp:811
  function Part10(): Tree {
    Bright(12, Bright(13, Bright(14, Bright(15, Accept, Bright(6, Bright(7, Bright(8, Accept, Reject), Reject),
    Reject)), Bright(5, Bright(6, Bright(7, Bright(8, Accept, Reject), Reject), Reject), Reject)), Bright(4,
    Bright(5, Bright(6, Bright(7, Bright(8, Accept, Reject), Reject), Reject), Reject), Reject)), Bright(3,
    Bright(4, Bright(5, Bright(6, Bright(7, Bright(8, Accept, Reject), Reject), Reject), Reject), Reject), Reject))
  }

  lemma Part10Decides(br: seq<bool>, dk: seq<bool>)
    requires IsRing(br, dk)
    requires br[0] && br[1] && !br[2] && dk[2] && br[9] && br[10] && br[11]
    ensures Decide(Part10(), br, dk) <==> Any9(br) || Any9(dk)
  {
  }

  // fast_9.cpp:884
  function Part11(): Tree {
    Dark(8, Dark(10, Dark(6, Dark(5, Dark(4, Dark(3, Accept, Dark(11, Dark(12, Accept, Reject), Reject)), Dark(11,
    Dark(12, Dark(13, Accept, Reject), Reject), Reject)), Dark(11, Dark(12, Dark(13, Dark(14, Accept, Reject),
    Reject), Reject), Reject)), Dark(11, Dark(12, Dark(13, Dark(14, Dark(15, Accept, Reject), Reject), Reject),
    Reject), Reject)), Reject), Reject)
  }

  lemma Part11Decides(br: seq<bool>, dk: seq<bool>)
    requires IsRing(br, dk)
    requires br[0] && br[1] && !br[2] && dk[2] && !br[9] && dk[9] && dk[7]
    ensures Decide(Part11(), br, dk) <==> Any9(br) || Any9(dk)
  {
  }

  // fast_9.cpp:953
  function Part12(): Tree {
    Bright(12, Bright(13, Bright(14, Bright(15, Accept, Bright(6, Bright(7, Bright(8, Accept, Reject), Reject),
    Reject)), Bright(5, Bright(6, Bright(7, Bright(8, Accept, Reject), Reject), Reject), Reject)), Bright(4,
    Bright(5, Bright(6, Bright(7, Bright(8, Accept, Reject), Reject), Reject), Reject), Reject)), Bright(3,
    Bright(4, Bright(5, Bright(6, Bright(7, Bright(8, Accept, Reject), Reject), Reject), Reject), Reject), Reject))
  }

  lemma Part12Decides(br: seq<bool>, dk: seq<bool>)
    requires IsRing(br, dk)
    requires br[0] && br[1] && !br[2] && !dk[2] && br[9] && br[10] && br[11]
    ensures Decide(Part12(), br, dk) <==> Any9(br) || Any9(dk)
  {
  }

  // fast_9.cpp:950
  function Part13(): Tree {
    Bright(9, Bright(10, Bright(11, Part12(), Reject), Reject), Dark(9, Dark(7, Dark(8, Dark(10, Dark(11, Dark(6,
    Dark(5, Dark(4, Dark(3, Accept, Dark(12, Accept, Reject)), Dark(12, Dark(13, Accept, Reject), Reject)), Dark(12,
    Dark(13, Dark(14, Accept, Reject), Reject), Reject)), Dark(12, Dark(13, Dark(14, Dark(15, Accept, Reject),
    Reject), Reject), Reject)), Reject), Reject), Reject), Reject), Reject))
  }

  lemma Part13Decides(br: seq<bool>, dk: seq<bool>)
    requires IsRing(br, dk)
    requires br[0] && br[1] && !br[2] && !dk[2]
    ensures Decide(Part13(), br, dk) <==> Any9(br) || Any9(dk)
  {
    if br[9] && br[10] && br[11] { Part12Decides(br, dk); }
  }

  // fast_9.cpp:1086
  function Part14(): Tree {
    Bright(11, Bright(12, Bright(13, Bright(14, Bright(15, Accept, Bright(6, Bright(7, Accept, Reject), Reject)),
    Bright(5, Bright(6, Bright(7, Accept, Reject), Reject), Reject)), Bright(4, Bright(5, Bright(6, Bright(7,
    Accept, Reject), Reject), Reject), Reject)), Bright(3, Bright(4, Bright(5, Bright(6, Bright(7, Accept, Reject),
    Reject), Reject), Reject), Reject)), Bright(2, Bright(3, Bright(4, Bright(5, Bright(6, Bright(7, Accept,
    Reject), Reject), Reject), Reject), Reject), Reject))
  }

  lemma Part14Decides(br: seq<bool>, dk: seq<bool>)
    requires IsRing(br, dk)
    requires br[0] && !br[1] && dk[1] && br[8] && br[9] && br[10]
    ensures Decide(Part14(), br, dk) <==> Any9(br) || Any9(dk)
  {
  }

  // fast_9.cpp:1169
  function Part15(): Tree {
    Dark(6, Dark(5, Dark(4, Dark(3, Dark(2, Accept, Dark(10, Dark(11, Accept, Reject), Reject)), Dark(10, Dark(11,
    Dark(12, Accept, Reject), Reject), Reject)), Dark(10, Dark(11, Dark(12, Dark(13, Accept, Reject), Reject),
    Reject), Reject)), Dark(10, Dark(11, Dark(12, Dark(13, Dark(14, Accept, Reject), Reject), Reject), Reject),
    Reject)), Dark(10, Dark(11, Dark(12, Dark(13, Dark(14, Dark(15, Accept, Reject), Reject), Reject), Reject),
    Reject), Reject))
  }

  lemma Part15Decides(br: seq<bool>, dk: seq<bool>)
    requires IsRing(br, dk)
    requires br[0] && !br[1] && dk[1] && !br[8] && dk[8] && dk[7] && dk[9]
    ensures Decide(Part15(), br, dk) <==> Any9(br) || Any9(dk)
  {
  }

  // fast_9.cpp:1255
  function Part16(): Tree {
    Bright(11, Bright(12, Bright(13, Bright(14, Bright(15, Accept, Bright(6, Bright(7, Accept, Reject), Reject)),
    Bright(5, Bright(6, Bright(7, Accept, Reject), Reject), Reject)), Bright(4, Bright(5, Bright(6, Bright(7,
    Accept, Reject), Reject), Reject), Reject)), Bright(3, Bright(4, Bright(5, Bright(6, Bright(7, Accept, Reject),
    Reject), Reject), Reject), Reject)), Bright(2, Bright(3, Bright(4, Bright(5, Bright(6, Bright(7, Accept,
    Reject), Reject), Reject), Reject), Reject), Reject))
  }

  lemma Part16Decides(br: seq<bool>, dk: seq<bool>)
    requires IsRing(br, dk)
    requires br[0] && !br[1] && !dk[1] && br[8] && br[9] && br[10]
    ensures Decide(Part16(), br, dk) <==> Any9(br) || Any9(dk)
  {
  }

  // fast_9.cpp:1339
  function Part17(): Tree {
    Dark(6, Dark(5, Dark(4, Dark(3, Dark(2, Accept, Dark(11, Accept, Reject)), Dark(11, Dark(12, Accept, Reject),
    Reject)), Dark(11, Dark(12, Dark(13, Accept, Reject), Reject), Reject)), Dark(11, Dark(12, Dark(13, Dark(14,
    Accept, Reject), Reject), Reject), Reject)), Dark(11, Dark(12, Dark(13, Dark(14, Dark(15, Accept, Reject),
    Reject), Reject), Reject), Reject))
  }

  lemma Part17Decides(br: seq<bool>, dk: seq<bool>)
    requires IsRing(br, dk)
    requires br[0] && !br[1] && !dk[1] && !br[8] && dk[8] && dk[7] && dk[9] && dk[10]
    ensures Decide(Part17(), br, dk) <==> Any9(br) || Any9(dk)
  {
  }

  // fast_9.cpp:49
  function Part18(): Tree {
    Bright(1, Bright(2, Bright(3, Bright(4, Part3(), Dark(4, Bright(13, Part4(), Part5()), Part6())), Part9()),
    Dark(2, Bright(9, Bright(10, Bright(11, Part10(), Reject), Reject), Dark(9, Dark(7, Part11(), Reject), Reject)),
    Part13())), Dark(1, Bright(8, Bright(9, Bright(10, Part14(), Reject), Reject), Dark(8, Dark(7, Dark(9, Part15(),
    Reject), Reject), Reject)), Bright(8, Bright(9, Bright(10, Part16(), Reject), Reject), Dark(8, Dark(7, Dark(9,
    Dark(10, Part17(), Reject), Reject), Reject), Reject))))
  }

  lemma Part18Decides(br: seq<bool>, dk: seq<bool>)
    requires IsRing(br, dk)
    requires br[0]
    ensures Decide(Part18(), br, dk) <==> Any9(br) || Any9(dk)
  {
    if br[1] && br[2] && br[3] && br[4] { Part3Decides(br, dk); }
    if br[1] && br[2] && br[3] && !br[4] && dk[4] && br[13] { Part4Decides(br, dk); }
    if br[1] && br[2] && br[3] && !br[4] && dk[4] && !br[13] { Part5Decides(br, dk); }
    if br[1] && br[2] && br[3] && !br[4] && !dk[4] { Part6Decides(br, dk); }
    if br[1] && br[2] && !br[3] { Part9Decides(br, dk); }
    if br[1] && !br[2] && dk[2] && br[9] && br[10] && br[11] { Part10Decides(br, dk); }
    if br[1] && !br[2] && dk[2] && !br[9] && dk[9] && dk[7] { Part11Decides(br, dk); }
    if br[1] && !br[2] && !dk[2] { Part13Decides(br, dk); }
    if !br[1] && dk[1] && br[8] && br[9] && br[10] { Part14Decides(br, dk); }
    if !br[1] && dk[1] && !br[8] && dk[8] && dk[7] && dk[9] { Part15Decides(br, dk); }
    if !br[1] && !dk[1] && br[8] && br[9] && br[10] { Part16Decides(br, dk); }
    if !br[1] && !dk[1] && !br[8] && dk[8] && dk[7] && dk[9] && dk[10] { Part17Decides(br, dk); }
  }

  // fast_9.cpp:1413
  function Part19(): Tree {
    Bright(6, Bright(5, Bright(4, Bright(3, Bright(2, Accept, Bright(10, Bright(11, Accept, Reject), Reject)),
    Bright(10, Bright(11, Bright(12, Accept, Reject), Reject), Reject)), Bright(10, Bright(11, Bright(12, Bright(13,
    Accept, Reject), Reject), Reject), Reject)), Bright(10, Bright(11, Bright(12, Bright(13, Bright(14, Accept,
    Reject), Reject), Reject), Reject), Reject)), Bright(10, Bright(11, Bright(12, Bright(13, Bright(14, Bright(15,
    Accept, Reject), Reject), Reject), Reject), Reject), Reject))
  }

  lemma Part19Decides(br: seq<bool>, dk: seq<bool>)
    requires IsRing(br, dk)
    requires !br[0] && dk[0] && br[1] && br[8] && br[7] && br[9]
    ensures Decide(Part19(), br, dk) <==> Any9(br) || Any9(dk)
  {
  }

  // fast_9.cpp:1496
  function Part20(): Tree {
    Dark(11, Dark(12, Dark(13, Dark(14, Dark(15, Accept, Dark(6, Dark(7, Accept, Reject), Reject)), Dark(5, Dark(6,
    Dark(7, Accept, Reject), Reject), Reject)), Dark(4, Dark(5, Dark(6, Dark(7, Accept, Reject), Reject), Reject),
    Reject)), Dark(3, Dark(4, Dark(5, Dark(6, Dark(7, Accept, Reject), Reject), Reject), Reject), Reject)), Dark(2,
    Dark(3, Dark(4, Dark(5, Dark(6, Dark(7, Accept, Reject), Reject), Reject), Reject), Reject), Reject))
  }

  lemma Part20Decides(br: seq<bool>, dk: seq<bool>)
    requires IsRing(br, dk)
    requires !br[0] && dk[0] && br[1] && !br[8] && dk[8] && dk[9] && dk[10]
    ensures Decide(Part20(), br, dk) <==> Any9(br) || Any9(dk)
  {
  }

  // fast_9.cpp:1582
  function Part21(): Tree {
    Bright(8, Bright(10, Bright(6, Bright(5, Bright(4, Bright(3, Accept, Bright(11, Bright(12, Accept, Reject),
    Reject)), Bright(11, Bright(12, Bright(13, Accept, Reject), Reject), Reject)), Bright(11, Bright(12, Bright(13,
    Bright(14, Accept, Reject), Reject), Reject), Reject)), Bright(11, Bright(12, Bright(13, Bright(14, Bright(15,
    Accept, Reject), Reject), Reject), Reject), Reject)), Reject), Reject)
  }

  lemma Part21Decides(br: seq<bool>, dk: seq<bool>)
    requires IsRing(br, dk)
    requires !br[0] && dk[0] && !br[1] && dk[1] && br[2] && br[9] && br[7]
    ensures Decide(Part21(), br, dk) <==> Any9(br) || Any9(dk)
  {
  }

  // fast_9.cpp:1648
  function Part22(): Tree {
    Dark(12, Dark(13, Dark(14, Dark(15, Accept, Dark(6, Dark(7, Dark(8, Accept, Reject), Reject), Reject)), Dark(5,
    Dark(6, Dark(7, Dark(8, Accept, Reject), Reject), Reject), Reject)), Dark(4, Dark(5, Dark(6, Dark(7, Dark(8,
    Accept, Reject), Reject), Reject), Reject), Reject)), Dark(3, Dark(4, Dark(5, Dark(6, Dark(7, Dark(8, Accept,
    Reject), Reject), Reject), Reject), Reject), Reject))
  }

  lemma Part22Decides(br: seq<bool>, dk: seq<bool>)
    requires IsRing(br, dk)
    requires !br[0] && dk[0] && !br[1] && dk[1] && br[2] && !br[9] && dk[9] && dk[10] && dk[11]
    ensures Decide(Part22(), br, dk) <==> Any9(br) || Any9(dk)
  {
  }

  // fast_9.cpp:1774
  function Part23(): Tree {
    Dark(11, Dark(12, Dark(13, Dark(14, Dark(15, Accept, Dark(6, Dark(7, Dark(8, Dark(9, Accept, Reject), Reject),
    Reject), Reject)), Dark(5, Dark(6, Dark(7, Dark(8, Dark(9, Accept, Reject), Reject), Reject), Reject), Reject)),
    Dark(4, Dark(5, Dark(6, Dark(7, Dark(8, Dark(9, Accept, Reject), Reject), Reject), Reject), Reject), Reject)),
    Reject), Reject)
  }

  lemma Part23Decides(br: seq<bool>, dk: seq<bool>)
    requires IsRing(br, dk)
    requires !br[0] && dk[0] && !br[1] && dk[1] && !br[2] && dk[2] && br[3] && !br[10] && dk[10]
    ensures Decide(Part23(), br, dk) <==> Any9(br) || Any9(dk)
  {
  }

  // fast_9.cpp:1875
  function Part24(): Tree {
    Bright(11, Bright(5, Bright(6, Bright(7, Bright(8, Bright(9, Bright(10, Bright(12, Accept, Reject), Reject),
    Reject), Reject), Reject), Reject), Reject), Dark(11, Dark(12, Dark(14, Dark(15, Accept, Dark(6, Dark(7, Dark(8,
    Dark(9, Dark(10, Accept, Reject), Reject), Reject), Reject), Reject)), Dark(5, Dark(6, Dark(7, Dark(8, Dark(9,
    Dark(10, Accept, Reject), Reject), Reject), Reject), Reject), Reject)), Reject), Reject))
  }

  lemma Part24Decides(br: seq<bool>, dk: seq<bool>)
    requires IsRing(br, dk)
    requires !br[0] && dk[0] && !br[1] && dk[1] && !br[2] && dk[2] && !br[3] && dk[3] && br[4] && !br[13] && dk[13]
    ensures Decide(Part24(), br, dk) <==> Any9(br) || Any9(dk)
  {
  }

  // fast_9.cpp:1839
  function Part25(): Tree {
    Bright(13, Bright(7, Bright(8, Bright(9, Bright(10, Bright(11, Bright(12, Bright(6, Bright(5, Accept, Bright(14,
    Accept, Reject)), Bright(14, Bright(15, Accept, Reject), Reject)), Reject), Reject), Reject), Reject), Reject),
    Reject), Dark(13, Part24(), Bright(5, Bright(6, Bright(7, Bright(8, Bright(9, Bright(10, Bright(11, Bright(12,
    Accept, Reject), Reject), Reject), Reject), Reject), Reject), Reject), Reject)))
  }

  lemma Part25Decides(br: seq<bool>, dk: seq<bool>)
    requires IsRing(br, dk)
    requires !br[0] && dk[0] && !br[1] && dk[1] && !br[2] && dk[2] && !br[3] && dk[3] && br[4]
    ensures Decide(Part25(), br, dk) <==> Any9(br) || Any9(dk)
  {
    if !br[13] && dk[13] { Part24Decides(br, dk); }
  }

  // fast_9.cpp:2001
  function Part26(): Tree {
    Dark(14, Bright(12, Bright(6, Bright(7, Bright(8, Bright(9, Bright(10, Bright(11, Bright(13, Accept, Reject),
    Reject), Reject), Reject), Reject), Reject), Reject), Dark(12, Dark(13, Dark(15, Accept, Dark(6, Dark(7, Dark(8,
    Dark(9, Dark(10, Dark(11, Accept, Reject), Reject), Reject), Reject), Reject), Reject)), Reject), Reject)),
    Bright(6, Bright(7, Bright(8, Bright(9, Bright(10, Bright(11, Bright(12, Bright(13, Accept, Reject), Reject),
    Reject), Reject), Reject), Reject), Reject), Reject))
  }

  lemma Part26Decides(br: seq<bool>, dk: seq<bool>)
    requires IsRing(br, dk)
    requires !br[0] && dk[0] && !br[1] && dk[1] && !br[2] && dk[2] && !br[3] && dk[3] && !br[4] && dk[4] && br[5] &&
    !br[14]
    ensures Decide(Part26(), br, dk) <==> Any9(br) || Any9(dk)
  {
  }

  // fast_9.cpp:2138
  function Part27(): Tree {
    Dark(6, Bright(7, Bright(14, Bright(8, Bright(9, Bright(10, Bright(11, Bright(12, Bright(13, Bright(15, Accept,
    Reject), Reject), Reject), Reject), Reject), Reject), Reject), Dark(14, Dark(15, Accept, Reject), Reject)),
    Dark(7, Dark(8, Accept, Dark(15, Accept, Reject)), Dark(14, Dark(15, Accept, Reject), Reject))), Bright(13,
    Bright(7, Bright(8, Bright(9, Bright(10, Bright(11, Bright(12, Bright(14, Bright(15, Accept, Reject), Reject),
    Reject), Reject), Reject), Reject), Reject), Reject), Dark(13, Dark(14, Dark(15, Accept, Reject), Reject),
    Reject)))
  }

  lemma Part27Decides(br: seq<bool>, dk: seq<bool>)
    requires IsRing(br, dk)
    requires !br[0] && dk[0] && !br[1] && dk[1] && !br[2] && dk[2] && !br[3] && dk[3] && !br[4] && dk[4] && !br[5]
    && dk[5] && !br[6]
    ensures Decide(Part27(), br, dk) <==> Any9(br) || Any9(dk)
  {
  }

  // fast_9.cpp:2080
  function Part28(): Tree {
    Bright(6, Dark(15, Bright(13, Bright(7, Bright(8, Bright(9, Bright(10, Bright(11, Bright(12, Bright(14, Accept,
    Reject), Reject), Reject), Reject), Reject), Reject), Reject), Dark(13, Dark(14, Accept, Reject), Reject)),
    Bright(7, Bright(8, Bright(9, Bright(10, Bright(11, Bright(12, Bright(13, Bright(14, Accept, Reject), Reject),
    Reject), Reject), Reject), Reject), Reject), Reject)), Part27())
  }

  lemma Part28Decides(br: seq<bool>, dk: seq<bool>)
    requires IsRing(br, dk)
    requires !br[0] && dk[0] && !br[1] && dk[1] && !br[2] && dk[2] && !br[3] && dk[3] && !br[4] && dk[4] && !br[5]
    && dk[5]
    ensures Decide(Part28(), br, dk) <==> Any9(br) || Any9(dk)
  {
    if !br[6] { Part27Decides(br, dk); }
  }

  // fast_9.cpp:2224
  function Part29(): Tree {
    Bright(12, Bright(7, Bright(8, Bright(9, Bright(10, Bright(11, Bright(13, Bright(14, Bright(6, Accept,
    Bright(15, Accept, Reject)), Reject), Reject), Reject), Reject), Reject), Reject), Reject), Dark(12, Dark(13,
    Dark(14, Dark(15, Accept, Dark(6, Dark(7, Dark(8, Dark(9, Dark(10, Dark(11, Accept, Reject), Reject), Reject),
    Reject), Reject), Reject)), Reject), Reject), Reject))
  }

  lemma Part29Decides(br: seq<bool>, dk: seq<bool>)
    requires IsRing(br, dk)
    requires !br[0] && dk[0] && !br[1] && dk[1] && !br[2] && dk[2] && !br[3] && dk[3] && !br[4] && dk[4] && !br[5]
    && !dk[5]
    ensures Decide(Part29(), br, dk) <==> Any9(br) || Any9(dk)
  {
  }

  // fast_9.cpp:2285
  function Part30(): Tree {
    Bright(11, Bright(7, Bright(8, Bright(9, Bright(10, Bright(12, Bright(13, Bright(6, Bright(5, Accept, Bright(14,
    Accept, Reject)), Bright(14, Bright(15, Accept, Reject), Reject)), Reject), Reject), Reject), Reject), Reject),
    Reject), Dark(11, Dark(12, Dark(13, Dark(14, Dark(15, Accept, Dark(6, Dark(7, Dark(8, Dark(9, Dark(10, Accept,
    Reject), Reject), Reject), Reject), Reject)), Dark(5, Dark(6, Dark(7, Dark(8, Dark(9, Dark(10, Accept, Reject),
    Reject), Reject), Reject), Reject), Reject)), Reject), Reject), Reject))
  }

  lemma Part30Decides(br: seq<bool>, dk: seq<bool>)
    requires IsRing(br, dk)
    requires !br[0] && dk[0] && !br[1] && dk[1] && !br[2] && dk[2] && !br[3] && dk[3] && !br[4] && !dk[4]
    ensures Decide(Part30(), br, dk) <==> Any9(br) || Any9(dk)
  {
  }

  // fast_9.cpp:2415
  function Part31(): Tree {
    Dark(11, Dark(12, Dark(13, Dark(14, Dark(15, Accept, Dark(6, Dark(7, Dark(8, Dark(9, Accept, Reject), Reject),
    Reject), Reject)), Dark(5, Dark(6, Dark(7, Dark(8, Dark(9, Accept, Reject), Reject), Reject), Reject), Reject)),
    Dark(4, Dark(5, Dark(6, Dark(7, Dark(8, Dark(9, Accept, Reject), Reject), Reject), Reject), Reject), Reject)),
    Reject), Reject)
  }

  lemma Part31Decides(br: seq<bool>, dk: seq<bool>)
    requires IsRing(br, dk)
    requires !br[0] && dk[0] && !br[1] && dk[1] && !br[2] && dk[2] && !br[3] && !dk[3] && !br[10] && dk[10]
    ensures Decide(Part31(), br, dk) <==> Any9(br) || Any9(dk)
  {
  }

  // fast_9.cpp:1837
  function Part32(): Tree {
    Dark(3, Bright(4, Part25(), Dark(4, Bright(5, Bright(14, Bright(7, Bright(8, Bright(9, Bright(10, Bright(11,
    Bright(12, Bright(13, Bright(6, Accept, Bright(15, Accept, Reject)), Reject), Reject), Reject), Reject),
    Reject), Reject), Reject), Part26()), Dark(5, Part28(), Part29())), Part30())), Bright(10, Bright(7, Bright(8,
    Bright(9, Bright(11, Bright(12, Bright(6, Bright(5, Bright(4, Accept, Bright(13, Accept, Reject)), Bright(13,
    Bright(14, Accept, Reject), Reject)), Bright(13, Bright(14, Bright(15, Accept, Reject), Reject), Reject)),
    Reject), Reject), Reject), Reject), Reject), Dark(10, Part31(), Reject)))
  }

  lemma Part32Decides(br: seq<bool>, dk: seq<bool>)
    requires IsRing(br, dk)
    requires !br[0] && dk[0] && !br[1] && dk[1] && !br[2] && dk[2] && !br[3]
    ensures Decide(Part32(), br, dk) <==> Any9(br) || Any9(dk)
  {
    if dk[3] && br[4] { Part25Decides(br, dk); }
    if dk[3] && !br[4] && dk[4] && br[5] && !br[14] { Part26Decides(br, dk); }
    if dk[3] && !br[4] && dk[4] && !br[5] && dk[5] { Part28Decides(br, dk); }
    if dk[3] && !br[4] && dk[4] && !br[5] && !dk[5] { Part29Decides(br, dk); }
    if dk[3] && !br[4] && !dk[4] { Part30Decides(br, dk); }
    if !dk[3] && !br[10] && dk[10] { Part31Decides(br, dk); }
  }

  // fast_9.cpp:1722
  function Part33(): Tree {
    Bright(3, Bright(10, Bright(7, Bright(8, Bright(9, Bright(11, Bright(6, Bright(5, Bright(4, Accept, Bright(12,
    Bright(13, Accept, Reject), Reject)), Bright(12, Bright(13, Bright(14, Accept, Reject), Reject), Reject)),
    Bright(12, Bright(13, Bright(14, Bright(15, Accept, Reject), Reject), Reject), Reject)), Reject), Reject),
    Reject), Reject), Dark(10, Part23(), Reject)), Part32())
  }

  lemma Part33Decides(br: seq<bool>, dk: seq<bool>)
    requires IsRing(br, dk)
    requires !br[0] && dk[0] && !br[1] && dk[1] && !br[2] && dk[2]
    ensures Decide(Part33(), br, dk) <==> Any9(br) || Any9(dk)
  {
    if br[3] && !br[10] && dk[10] { Part23Decides(br, dk); }
    if !br[3] { Part32Decides(br, dk); }
  }

  // fast_9.cpp:2538
  function Part34(): Tree {
    Dark(12, Dark(13, Dark(14, Dark(15, Accept, Dark(6, Dark(7, Dark(8, Accept, Reject), Reject), Reject)), Dark(5,
    Dark(6, Dark(7, Dark(8, Accept, Reject), Reject), Reject), Reject)), Dark(4, Dark(5, Dark(6, Dark(7, Dark(8,
    Accept, Reject), Reject), Reject), Reject), Reject)), Dark(3, Dark(4, Dark(5, Dark(6, Dark(7, Dark(8, Accept,
    Reject), Reject), Reject), Reject), Reject), Reject))
  }

  lemma Part34Decides(br: seq<bool>, dk: seq<bool>)
    requires IsRing(br, dk)
    requires !br[0] && dk[0] && !br[1] && dk[1] && !br[2] && !dk[2] && !br[9] && dk[9] && dk[10] && dk[11]
    ensures Decide(Part34(), br, dk) <==> Any9(br) || Any9(dk)
  {
  }

  // fast_9.cpp:2479
  function Part35(): Tree {
    Bright(9, Bright(7, Bright(8, Bright(10, Bright(11, Bright(6, Bright(5, Bright(4, Bright(3, Accept, Bright(12,
    Accept, Reject)), Bright(12, Bright(13, Accept, Reject), Reject)), Bright(12, Bright(13, Bright(14, Accept,
    Reject), Reject), Reject)), Bright(12, Bright(13, Bright(14, Bright(15, Accept, Reject), Reject), Reject),
    Reject)), Reject), Reject), Reject), Reject), Dark(9, Dark(10, Dark(11, Part34(), Reject), Reject), Reject))
  }

  lemma Part35Decides(br: seq<bool>, dk: seq<bool>)
    requires IsRing(br, dk)
    requires !br[0] && dk[0] && !br[1] && dk[1] && !br[2] && !dk[2]
    ensures Decide(Part35(), br, dk) <==> Any9(br) || Any9(dk)
  {
    if !br[9] && dk[9] && dk[10] && dk[11] { Part34Decides(br, dk); }
  }

  // fast_9.cpp:2616
  function Part36(): Tree {
    Bright(6, Bright(5, Bright(4, Bright(3, Bright(2, Accept, Bright(11, Accept, Reject)), Bright(11, Bright(12,
    Accept, Reject), Reject)), Bright(11, Bright(12, Bright(13, Accept, Reject), Reject), Reject)), Bright(11,
    Bright(12, Bright(13, Bright(14, Accept, Reject), Reject), Reject), Reject)), Bright(11, Bright(12, Bright(13,
    Bright(14, Bright(15, Accept, Reject), Reject), Reject), Reject), Reject))
  }

  lemma Part36Decides(br: seq<bool>, dk: seq<bool>)
    requires IsRing(br, dk)
    requires !br[0] && dk[0] && !br[1] && !dk[1] && br[8] && br[7] && br[9] && br[10]
    ensures Decide(Part36(), br, dk) <==> Any9(br) || Any9(dk)
  {
  }

  // fast_9.cpp:2686
  function Part37(): Tree {
    Dark(11, Dark(12, Dark(13, Dark(14, Dark(15, Accept, Dark(6, Dark(7, Accept, Reject), Reject)), Dark(5, Dark(6,
    Dark(7, Accept, Reject), Reject), Reject)), Dark(4, Dark(5, Dark(6, Dark(7, Accept, Reject), Reject), Reject),
    Reject)), Dark(3, Dark(4, Dark(5, Dark(6, Dark(7, Accept, Reject), Reject), Reject), Reject), Reject)), Dark(2,
    Dark(3, Dark(4, Dark(5, Dark(6, Dark(7, Accept, Reject), Reject), Reject), Reject), Reject), Reject))
  }

  lemma Part37Decides(br: seq<bool>, dk: seq<bool>)
    requires IsRing(br, dk)
    requires !br[0] && dk[0] && !br[1] && !dk[1] && !br[8] && dk[8] && dk[9] && dk[10]
    ensures Decide(Part37(), br, dk) <==> Any9(br) || Any9(dk)
  {
  }

  // fast_9.cpp:1578
  function Part38(): Tree {
    Dark(1, Bright(2, Bright(9, Bright(7, Part21(), Reject), Dark(9, Dark(10, Dark(11, Part22(), Reject), Reject),
    Reject)), Dark(2, Part33(), Part35())), Bright(8, Bright(7, Bright(9, Bright(10, Part36(), Reject), Reject),
    Reject), Dark(8, Dark(9, Dark(10, Part37(), Reject), Reject), Reject)))
  }

  lemma Part38Decides(br: seq<bool>, dk: seq<bool>)
    requires IsRing(br, dk)
    requires !br[0] && dk[0] && !br[1]
    ensures Decide(Part38(), br, dk) <==> Any9(br) || Any9(dk)
  {
    if dk[1] && br[2] && br[9] && br[7] { Part21Decides(br, dk); }
    if dk[1] && br[2] && !br[9] && dk[9] && dk[10] && dk[11] { Part22Decides(br, dk); }
    if dk[1] && !br[2] && dk[2] { Part33Decides(br, dk); }
    if dk[1] && !br[2] && !dk[2] { Part35Decides(br, dk); }
    if !dk[1] && br[8] && br[7] && br[9] && br[10] { Part36Decides(br, dk); }
    if !dk[1] && !br[8] && dk[8] && dk[9] && dk[10] { Part37Decides(br, dk); }
  }

  // fast_9.cpp:2773
  function Part39(): Tree {
    Bright(5, Bright(4, Bright(3, Bright(2, Bright(1, Accept, Bright(10, Accept, Reject)), Bright(10, Bright(11,
    Accept, Reject), Reject)), Bright(10, Bright(11, Bright(12, Accept, Reject), Reject), Reject)), Bright(10,
    Bright(11, Bright(12, Bright(13, Accept, Reject), Reject), Reject), Reject)), Bright(10, Bright(11, Bright(12,
    Bright(13, Bright(14, Accept, Reject), Reject), Reject), Reject), Reject))
  }

  lemma Part39Decides(br: seq<bool>, dk: seq<bool>)
    requires IsRing(br, dk)
    requires !br[0] && !dk[0] && br[7] && br[8] && br[9] && br[6]
    ensures Decide(Part39(), br, dk) <==> Any9(br) || Any9(dk)
  {
  }

  // fast_9.cpp:2862
  function Part40(): Tree {
    Dark(5, Dark(4, Dark(3, Dark(2, Dark(1, Accept, Dark(10, Accept, Reject)), Dark(10, Dark(11, Accept, Reject),
    Reject)), Dark(10, Dark(11, Dark(12, Accept, Reject), Reject), Reject)), Dark(10, Dark(11, Dark(12, Dark(13,
    Accept, Reject), Reject), Reject), Reject)), Dark(10, Dark(11, Dark(12, Dark(13, Dark(14, Accept, Reject),
    Reject), Reject), Reject), Reject))
  }

  lemma Part40Decides(br: seq<bool>, dk: seq<bool>)
    requires IsRing(br, dk)
    requires !br[0] && !dk[0] && !br[7] && dk[7] && dk[8] && dk[9] && dk[6]
    ensures Decide(Part40(), br, dk) <==> Any9(br) || Any9(dk)
  {
  }

  // fast_9.cpp:2769
  function Part41(): Tree {
    Bright(7, Bright(8, Bright(9, Bright(6, Part39(), Bright(10, Bright(11, Bright(12, Bright(13, Bright(14,
    Bright(15, Accept, Reject), Reject), Reject), Reject), Reject), Reject)), Reject), Reject), Dark(7, Dark(8,
    Dark(9, Dark(6, Part40(), Dark(10, Dark(11, Dark(12, Dark(13, Dark(14, Dark(15, Accept, Reject), Reject),
    Reject), Reject), Reject), Reject)), Reject), Reject), Reject))
  }

  lemma Part41Decides(br: seq<bool>, dk: seq<bool>)
    requires IsRing(br, dk)
    requires !br[0] && !dk[0]
    ensures Decide(Part41(), br, dk) <==> Any9(br) || Any9(dk)
  {
    if br[7] && br[8] && br[9] && br[6] { Part39Decides(br, dk); }
    if !br[7] && dk[7] && dk[8] && dk[9] && dk[6] { Part40Decides(br, dk); }
  }

  // fast_9.cpp:48
  function Part42(): Tree {
    Bright(0, Part18(), Dark(0, Bright(1, Bright(8, Bright(7, Bright(9, Part19(), Reject), Reject), Dark(8, Dark(9,
    Dark(10, Part20(), Reject), Reject), Reject)), Part38()), Part41()))
  }

  lemma Part42Decides(br: seq<bool>, dk: seq<bool>)
    requires IsRing(br, dk)
    ensures Decide(Part42(), br, dk) <==> Any9(br) || Any9(dk)
  {
    if br[0] { Part18Decides(br, dk); }
    if !br[0] && dk[0] && br[1] && br[8] && br[7] && br[9] { Part19Decides(br, dk); }
    if !br[0] && dk[0] && br[1] && !br[8] && dk[8] && dk[9] && dk[10] { Part20Decides(br, dk); }
    if !br[0] && dk[0] && !br[1] { Part38Decides(br, dk); }
    if !br[0] && !dk[0] { Part41Decides(br, dk); }
  }

  /** The whole nest. */
  function Whole(): Tree {
    Part42()
  }

  /** The nest computes the segment test for 9-arcs on every circle. */
  lemma WholeDecides()
    ensures DecidesSegment(Whole(), 9)
  {
    forall br, dk | IsRing(br, dk)
      ensures Decide(Whole(), br, dk) <==> SegmentHolds(br, dk, 9)
    {
      Part42Decides(br, dk);
      Arc9WrittenOut(br);
      Arc9WrittenOut(dk);
    }
  }

  /** Running the nest on one circle. */
  method Run(br: seq<bool>, dk: seq<bool>) returns (corner: bool)
    requires IsRing(br, dk)
    ensures corner <==> SegmentHolds(br, dk, 9)
  {
    WholeDecides();
    corner := Decide(Whole(), br, dk);
  }
}
