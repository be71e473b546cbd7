/** The flag words of the SIMD detectors. Sixteen pixels are compared at once; a flag word (an
    `unsigned int`) is modelled by the set of its one bits, so that `&`, `|` and `!word` are
    `*`, `+` and `word == {}`. Bits 0 .. 15 hold the dark answers, bits 16 .. 31 the bright ones. */
module LaneMasks {
  import opened FastCircle

  type Mask = set<int>

  /** `word << n`, for words whose bits stay below 32 */
  function ShiftLeft(m: Mask, n: nat): Mask {
    set b | b in m :: b + n
  }

  /** `word >> n` */
  function ShiftRight(m: Mask, n: nat): Mask {
    set b | b in m && n <= b :: b - n
  }

  const WORD: Mask := {0, 1, 2, 3, 4, 5, 6, 7, 8, 9, 10, 11, 12, 13, 14, 15,
                       16, 17, 18, 19, 20, 21, 22, 23, 24, 25, 26, 27, 28, 29, 30, 31}

  /** `~word` */
  function Complement(m: Mask): Mask {
    WORD - m
  }

  lemma ShiftLeftBit(m: Mask, n: nat, b: int)
    ensures b in ShiftLeft(m, n) <==> b - n in m
  {
    if b - n in m {
      assert (b - n) + n in ShiftLeft(m, n);
    }
  }

  lemma ShiftRightBit(m: Mask, n: nat, b: nat)
    ensures b in ShiftRight(m, n) <==> b + n in m
  {
    if b + n in m {
      assert (b + n) - n in ShiftRight(m, n);
    }
  }

  // -------------------------------------------------- saturating comparisons

  /** One lane of `vqsubq_u8` and `_mm_subs_epu8` */
  function SatSub(x: Byte, y: Byte): Byte {
    if x < y then 0 else x - y
  }

  /** One lane of `vqaddq_u8` and `_mm_adds_epu8` */
  function SatAdd(x: Byte, y: Byte): Byte {
    if x + y > 255 then 255 else x + y
  }

  /** `(unsigned char)barrier`: what the vector registers hold of the barrier. */
  function LaneBarrier(barrier: int): Byte {
    barrier % 256
  }

  /** The barriers for which the 8-bit comparisons are exact: the conversion to
      `unsigned char` loses nothing, or what it leaves still exceeds every difference. */
  predicate BarrierFits(barrier: int) {
    0 <= barrier <= 255 || (barrier > 255 && barrier % 256 == 255)
  }

  ghost predicate LaneExact(barrier: int, here: Byte, other: Byte) {
    (SatSub(here, LaneBarrier(barrier)) > other <==> other < here - barrier) &&
    (other > SatAdd(here, LaneBarrier(barrier)) <==> other > here + barrier)
  }

  /** The 8-bit comparisons agree with the scalar ones on all pixel values if and only if the
      barrier fits. */
  lemma SaturationExact(barrier: int)
    ensures BarrierFits(barrier) <==> forall here: Byte, other: Byte :: LaneExact(barrier, here, other)
  {
    if !BarrierFits(barrier) {
      if barrier < 0 {
        assert !LaneExact(barrier, 128, 128);
      } else {
        assert !LaneExact(barrier, 0, 255);
      }
    }
  }

  type Lanes = v: seq<Byte> | |v| == 16 witness seq(16, _ => 0)

  /** `lo` and `hi` of a block */
  function LoLanes(here: Lanes, barrier: Byte): Lanes {
    seq(16, i requires 0 <= i < 16 => SatSub(here[i], barrier))
  }

  function HiLanes(here: Lanes, barrier: Byte): Lanes {
    seq(16, i requires 0 <= i < 16 => SatAdd(here[i], barrier))
  }

  /** The lanes in which `x` exceeds `y` */
  function Greater(x: Lanes, y: Lanes): Mask {
    set i | 0 <= i < 16 && x[i] > y[i]
  }

  /** The answers a flag word must hold: dark lanes in the low half-word, bright ones in the
      high half-word. */
  function Answers(lo: Lanes, hi: Lanes, other: Lanes): Mask {
    Greater(lo, other) + ShiftLeft(Greater(other, hi), 16)
  }

  // ---------------------------------------------------- CHECK_BARRIER, NEON

  /** One byte of a `vcgtq_u8` result (all ones or zero), and-ed with a byte of the magic mask */
  function Masked(greater: bool, magic: nat): nat {
    if greater then magic else 0
  }

  /** Eight bytes of a comparison and-ed with the magic mask 0x8040201008040201, then three
      rounds of widening pairwise addition (`vpaddlq`); the low byte of the 64-bit sum */
  function FoldBytes(m: seq<bool>): nat
    requires |m| == 8
  {
    (((Masked(m[0], 0x01) + Masked(m[1], 0x02)) + (Masked(m[2], 0x04) + Masked(m[3], 0x08))) +
     ((Masked(m[4], 0x10) + Masked(m[5], 0x20)) + (Masked(m[6], 0x40) + Masked(m[7], 0x80)))) % 256
  }

  /** Bytes `j .. j + 8` of the comparison `x > y`, folded */
  function FoldHalf(x: Lanes, y: Lanes, j: int): nat
    requires j == 0 || j == 8
  {
    FoldBytes(seq(8, k requires 0 <= k < 8 => x[j + k] > y[j + k]))
  }

  /** Bit `k` of a number */
  predicate BitOf(v: nat, k: nat) {
    if k == 0 then v % 2 == 1 else BitOf(v / 2, k - 1)
  }

  /** The one bits of a byte */
  function BitsOf(v: nat): Mask {
    set k: nat | 0 <= k < 8 && BitOf(v, k)
  }

  /** The NEON `CHECK_BARRIER` */
  function CheckBarrierNeon(lo: Lanes, hi: Lanes, other: Lanes): Mask {
    ShiftLeft(BitsOf(FoldHalf(other, hi, 8)), 24) + ShiftLeft(BitsOf(FoldHalf(other, hi, 0)), 16) +
    ShiftLeft(BitsOf(FoldHalf(lo, other, 8)), 8) + BitsOf(FoldHalf(lo, other, 0))
  }

  /** The number with the bits `b[i..]` */
  function Value(b: seq<bool>, i: nat): nat
    requires i <= |b|
    decreases |b| - i
  {
    if i == |b| then 0 else Masked(b[i], 1) + 2 * Value(b, i + 1)
  }

  lemma {:induction false} ValueBit(b: seq<bool>, i: nat, k: nat)
    requires i <= |b| && i + k < |b|
    ensures BitOf(Value(b, i), k) <==> b[i + k]
    decreases |b| - i
  {
    assert Value(b, i) / 2 == Value(b, i + 1);
    if k > 0 {
      ValueBit(b, i + 1, k - 1);
    }
  }

  /** The number with the bits `b`, written out (Horner's rule) */
  function Horner(b: seq<bool>): nat
    requires |b| == 8
  {
    Masked(b[0], 1) + 2 * (Masked(b[1], 1) + 2 * (Masked(b[2], 1) + 2 * (Masked(b[3], 1) +
    2 * (Masked(b[4], 1) + 2 * (Masked(b[5], 1) + 2 * (Masked(b[6], 1) + 2 * Masked(b[7], 1)))))))
  }

  lemma HornerIsValue(b: seq<bool>)
    requires |b| == 8
    ensures Horner(b) == Value(b, 0)
  {
    assert Value(b, 7) == Masked(b[7], 1) + 2 * Value(b, 8);
    assert Value(b, 5) == Masked(b[5], 1) + 2 * (Masked(b[6], 1) + 2 * Value(b, 7));
    assert Value(b, 3) == Masked(b[3], 1) + 2 * (Masked(b[4], 1) + 2 * Value(b, 5));
    assert Value(b, 1) == Masked(b[1], 1) + 2 * (Masked(b[2], 1) + 2 * Value(b, 3));
  }

  lemma SumIsHorner(b: seq<bool>)
    requires |b| == 8
    ensures Masked(b[0], 0x01) + Masked(b[1], 0x02) + Masked(b[2], 0x04) + Masked(b[3], 0x08) +
            Masked(b[4], 0x10) + Masked(b[5], 0x20) + Masked(b[6], 0x40) + Masked(b[7], 0x80) == Horner(b)
    ensures Horner(b) < 256
  {
  }

  lemma FoldedBit(m: seq<bool>)
    requires |m| == 8
    ensures forall k :: 0 <= k < 8 ==> (k in BitsOf(FoldBytes(m)) <==> m[k])
  {
    SumIsHorner(m);
    HornerIsValue(m);
    forall k | 0 <= k < 8 ensures BitOf(Value(m, 0), k) <==> m[k] {
      ValueBit(m, 0, k);
    }
  }

  /** The mask-and-fold sequence stands in for the movemask instruction that NEON lacks. */
  lemma FoldedHalf(x: Lanes, y: Lanes, j: int)
    requires j == 0 || j == 8
    ensures forall k :: 0 <= k < 8 ==> (k in BitsOf(FoldHalf(x, y, j)) <==> x[j + k] > y[j + k])
  {
    hide FoldBytes;
    FoldedBit(seq(8, k requires 0 <= k < 8 => x[j + k] > y[j + k]));
  }

  lemma CheckBarrierNeonExact(lo: Lanes, hi: Lanes, other: Lanes)
    ensures CheckBarrierNeon(lo, hi, other) == Answers(lo, hi, other)
  {
    FoldedHalf(other, hi, 8);
    FoldedHalf(other, hi, 0);
    FoldedHalf(lo, other, 8);
    FoldedHalf(lo, other, 0);
    hide FoldHalf, BitsOf;
    forall b ensures b in CheckBarrierNeon(lo, hi, other) <==> b in Answers(lo, hi, other) {
      ShiftLeftBit(BitsOf(FoldHalf(other, hi, 8)), 24, b);
      ShiftLeftBit(BitsOf(FoldHalf(other, hi, 0)), 16, b);
      ShiftLeftBit(BitsOf(FoldHalf(lo, other, 8)), 8, b);
      ShiftLeftBit(Greater(other, hi), 16, b);
    }
  }

  // ---------------------------------------------------- CHECK_BARRIER, SSE2

  /** `_mm_movemask_epi8(_mm_cmpeq_epi8(_mm_subs_epu8(x, y), zero))` */
  function ZeroMask(x: Lanes, y: Lanes): Mask {
    set i | 0 <= i < 16 && SatSub(x[i], y[i]) == 0
  }

  /** The SSE2 `CHECK_BARRIER` */
  function CheckBarrierSse(lo: Lanes, hi: Lanes, other: Lanes): Mask {
    Complement(ZeroMask(lo, other) + ShiftLeft(ZeroMask(other, hi), 16))
  }

  lemma CheckBarrierSseExact(lo: Lanes, hi: Lanes, other: Lanes)
    ensures CheckBarrierSse(lo, hi, other) == Answers(lo, hi, other)
  {
    forall b ensures b in CheckBarrierSse(lo, hi, other) <==> b in Answers(lo, hi, other) {
      ShiftLeftBit(ZeroMask(other, hi), 16, b);
      ShiftLeftBit(Greater(other, hi), 16, b);
    }
  }
}
