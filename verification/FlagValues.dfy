/** Flag values and their text, `FlagValue::ParseFrom` and `FlagValue::ToString`.
    Strings are C strings: sequences of characters without NUL. */
module FlagValues {
  import opened Basics

  datatype FlagType = BoolType | Int32Type | UInt32Type | Int64Type | UInt64Type | StringType

  datatype Value =
    | Bool(b: bool)
    | Int32(n: int)
    | UInt32(n: int)
    | Int64(n: int)
    | UInt64(n: int)
    | Str(s: string)

  function TypeOf(v: Value): FlagType {
    match v
    case Bool(_) => BoolType
    case Int32(_) => Int32Type
    case UInt32(_) => UInt32Type
    case Int64(_) => Int64Type
    case UInt64(_) => UInt64Type
    case Str(_) => StringType
  }

  const TWO_31 := 0x8000_0000
  const TWO_32 := 0x1_0000_0000
  const TWO_63 := 0x8000_0000_0000_0000
  const TWO_64 := 0x1_0000_0000_0000_0000

  /** The number fits the C type that holds it. */
  predicate InRange(v: Value) {
    match v
    case Bool(_) => true
    case Int32(n) => -TWO_31 <= n < TWO_31
    case UInt32(n) => 0 <= n < TWO_32
    case Int64(n) => -TWO_63 <= n < TWO_63
    case UInt64(n) => 0 <= n < TWO_64
    case Str(_) => true
  }

  // ------------------------------------------------------------- characters

  predicate IsSpace(c: char) {
    c == ' ' || '\t' <= c <= '\r'
  }

  /** The value of a digit, or `base` for any other character */
  function Digit(c: char, base: nat): (d: nat)
    ensures d <= base
  {
    var d := if '0' <= c <= '9' then (c as int) - ('0' as int)
             else if 'a' <= c <= 'f' then (c as int) - ('a' as int) + 10
             else if 'A' <= c <= 'F' then (c as int) - ('A' as int) + 10
             else base;
    if d < base then d else base
  }

  function Lower(c: char): char {
    if 'A' <= c <= 'Z' then ((c as int) - ('A' as int) + ('a' as int)) as char else c
  }

  /** `strcasecmp(a, b) == 0` */
  predicate SameIgnoringCase(a: string, b: string) {
    |a| == |b| && forall i :: 0 <= i < |a| ==> Lower(a[i]) == Lower(b[i])
  }

  // ----------------------------------------------------- strtoll, strtoull

  /** The first character from `i` on that is not white space */
  function SkipSpaces(s: string, i: nat): (j: nat)
    requires i <= |s|
    ensures i <= j <= |s|
    decreases |s| - i
  {
    if i < |s| && IsSpace(s[i]) then SkipSpaces(s, i + 1) else i
  }

  function DigitsEnd(s: string, i: nat, base: nat): (j: nat)
    requires i <= |s|
    ensures i <= j <= |s|
    decreases |s| - i
  {
    if i < |s| && Digit(s[i], base) < base then DigitsEnd(s, i + 1, base) else i
  }

  function DigitsValue(s: string, i: nat, j: nat, base: nat): nat
    requires i <= j <= |s|
    decreases j
  {
    if i == j then 0 else DigitsValue(s, i, j - 1, base) * base + Digit(s[j - 1], base)
  }

  /** What the C conversions read: sign, magnitude, and where they stopped (0 if there was no
      number, in which case the end pointer is the start of the string) */
  datatype Scanned = Scanned(negative: bool, magnitude: nat, end: nat)

  function Strto(s: string, base: nat): (r: Scanned)
    ensures r.end <= |s|
  {
    var i := SkipSpaces(s, 0);
    var negative := i < |s| && s[i] == '-';
    var j := if i < |s| && (s[i] == '-' || s[i] == '+') then i + 1 else i;
    var k := if base == 16 && j + 2 < |s| && s[j] == '0' && (s[j + 1] == 'x' || s[j + 1] == 'X') &&
                Digit(s[j + 2], 16) < 16 then j + 2 else j;
    var end := DigitsEnd(s, k, base);
    if end == k then Scanned(negative, 0, 0) else Scanned(negative, DigitsValue(s, k, end, base), end)
  }

  // ---------------------------------------------------------------- parsing

  /** `while (*value == ' ') value++;` */
  function DropBlanks(s: string): string {
    if |s| > 0 && s[0] == ' ' then DropBlanks(s[1..]) else s
  }

  const TRUE_WORDS := ["1", "t", "true", "y", "yes"]
  const FALSE_WORDS := ["0", "f", "false", "n", "no"]

  function ParseBool(s: string, i: nat): Option<Value>
    requires i <= 5
    decreases 5 - i
  {
    if i == 5 then None
    else if SameIgnoringCase(s, TRUE_WORDS[i]) then Some(Bool(true))
    else if SameIgnoringCase(s, FALSE_WORDS[i]) then Some(Bool(false))
    else ParseBool(s, i + 1)
  }

  function ParseSigned(s: string, base: nat): (v: Option<int>)
    ensures v.Some? ==> -TWO_63 <= v.value < TWO_63
  {
    var r := Strto(s, base);
    var n := if r.negative then -(r.magnitude as int) else r.magnitude;
    if !(-TWO_63 <= n < TWO_63) || r.end != |s| then None else Some(n)
  }

  /** `strtoull` accepts a sign after white space and then negates modulo 2^64. */
  function ParseUnsigned(s: string, base: nat): (v: Option<int>)
    ensures v.Some? ==> 0 <= v.value < TWO_64
  {
    var t := DropBlanks(s);
    if |t| > 0 && t[0] == '-' then None
    else
      var r := Strto(t, base);
      if r.magnitude >= TWO_64 || r.end != |t| then None
      else if r.negative && r.magnitude > 0 then Some(TWO_64 - r.magnitude)
      else Some(r.magnitude)
  }

  /** `FlagValue::ParseFrom` */
  function ParseFrom(t: FlagType, s: string): (v: Option<Value>)
    ensures v.Some? ==> TypeOf(v.value) == t && InRange(v.value)
  {
    if t.BoolType? then ParseBool(s, 0)
    else if t.StringType? then Some(Str(s))
    else if s == [] then None
    else
      var base := if |s| > 1 && s[0] == '0' && (s[1] == 'x' || s[1] == 'X') then 16 else 10;
      if t.Int32Type? then
        var n := ParseSigned(s, base);
        if n.Some? && -TWO_31 <= n.value < TWO_31 then Some(Int32(n.value)) else None
      else if t.UInt32Type? then
        var n := ParseUnsigned(s, base);
        if n.Some? && n.value < TWO_32 then Some(UInt32(n.value)) else None
      else if t.Int64Type? then
        var n := ParseSigned(s, base);
        if n.Some? then Some(Int64(n.value)) else None
      else
        var n := ParseUnsigned(s, base);
        if n.Some? then Some(UInt64(n.value)) else None
  }

  // --------------------------------------------------------------- printing

  function DigitChar(d: nat): char
    requires d < 10
  {
    (('0' as int) + d) as char
  }

  function Decimal(n: nat): (s: string)
    ensures |s| > 0
  {
    if n < 10 then [DigitChar(n)] else Decimal(n / 10) + [DigitChar(n % 10)]
  }

  function SignedDecimal(n: int): string {
    if n < 0 then "-" + Decimal(-n) else Decimal(n)
  }

  /** `FlagValue::ToString` */
  function ToString(v: Value): string {
    match v
    case Bool(b) => if b then "true" else "false"
    case Int32(n) => SignedDecimal(n)
    case UInt32(n) => SignedDecimal(n)
    case Int64(n) => SignedDecimal(n)
    case UInt64(n) => SignedDecimal(n)
    case Str(s) => s
  }

  // ------------------------------------------------------------- round trip

  predicate AllDigits(s: string, i: nat) {
    i <= |s| && forall k :: i <= k < |s| ==> '0' <= s[k] <= '9'
  }

  lemma {:induction false} DecimalDigits(n: nat)
    ensures AllDigits(Decimal(n), 0)
    ensures n > 0 ==> Decimal(n)[0] != '0'
  {
    if n >= 10 {
      DecimalDigits(n / 10);
    }
  }

  lemma {:induction false} DigitsRun(s: string, i: nat)
    requires AllDigits(s, i)
    ensures DigitsEnd(s, i, 10) == |s|
    decreases |s| - i
  {
    if i < |s| {
      DigitsRun(s, i + 1);
    }
  }

  lemma {:induction false} ValuePrefix(s: string, t: string, i: nat, j: nat)
    requires i <= j <= |s| && s <= t
    ensures DigitsValue(s, i, j, 10) == DigitsValue(t, i, j, 10)
    decreases j
  {
    if i < j {
      ValuePrefix(s, t, i, j - 1);
    }
  }

  lemma {:induction false} DecimalValue(sign: string, n: nat)
    ensures DigitsValue(sign + Decimal(n), |sign|, |sign + Decimal(n)|, 10) == n
    decreases n
  {
    var s := sign + Decimal(n);
    if n < 10 {
      assert s[|s| - 1] == DigitChar(n);
    } else {
      var p := sign + Decimal(n / 10);
      assert s == p + [DigitChar(n % 10)];
      DecimalValue(sign, n / 10);
      ValuePrefix(p, s, |sign|, |p|);
    }
  }

  /** Facts about the first characters of a printed number */
  lemma PrintedShape(n: int, sign: string, m: nat)
    requires m == (if n < 0 then -n else n) && sign == (if n < 0 then "-" else "")
    ensures SignedDecimal(n) == sign + Decimal(m)
    ensures AllDigits(SignedDecimal(n), |sign|) && |SignedDecimal(n)| > |sign|
    ensures SignedDecimal(n)[0] == '-' <==> n < 0
    ensures n >= 0 ==> '0' <= SignedDecimal(n)[0] <= '9'
  {
    DecimalDigits(m);
    var s := sign + Decimal(m);
    assert s == SignedDecimal(n);
    forall k | |sign| <= k < |s| ensures '0' <= s[k] <= '9' {
      assert s[k] == Decimal(m)[k - |sign|];
    }
    assert s[|sign|] == Decimal(m)[0];
  }

  lemma ScanDecimal(n: int)
    ensures Strto(SignedDecimal(n), 10) == Scanned(n < 0, if n < 0 then -n else n, |SignedDecimal(n)|)
  {
    var m: nat := if n < 0 then -n else n;
    var sign := if n < 0 then "-" else "";
    PrintedShape(n, sign, m);
    DecimalValue(sign, m);
    DigitsRun(SignedDecimal(n), |sign|);
    hide SignedDecimal, Decimal, DigitsValue, DigitsEnd;
    var s := SignedDecimal(n);
    assert SkipSpaces(s, 0) == 0;
  }

  /** Every value in its C range survives being printed and parsed back. */
  lemma RoundTrip(v: Value)
    requires InRange(v)
    ensures ParseFrom(TypeOf(v), ToString(v)) == Some(v)
  {
    BoolWords();
    hide ParseBool, ParseSigned, ParseUnsigned, SignedDecimal;
    match v
    case Bool(_) =>
    case Str(_) =>
    case Int32(n) => NumberRoundTrip(n);
    case UInt32(n) => NumberRoundTrip(n);
    case Int64(n) => NumberRoundTrip(n);
    case UInt64(n) => NumberRoundTrip(n);
  }

  /** A printed number starts neither with a blank nor with 0x, and both conversions read it back. */
  lemma NumberRoundTrip(n: int)
    ensures var s := SignedDecimal(n);
      s != [] && !(|s| > 1 && s[0] == '0' && (s[1] == 'x' || s[1] == 'X')) &&
      (-TWO_63 <= n < TWO_63 ==> ParseSigned(s, 10) == Some(n)) &&
      (0 <= n < TWO_64 ==> ParseUnsigned(s, 10) == Some(n))
  {
    ScanDecimal(n);
    PrintedShape(n, if n < 0 then "-" else "", if n < 0 then -n else n);
    hide SignedDecimal, Strto;
    var s := SignedDecimal(n);
    assert s[0] != ' ' && DropBlanks(s) == s;
  }

  lemma BoolWords()
    ensures ParseBool("true", 0) == Some(Bool(true)) && ParseBool("false", 0) == Some(Bool(false))
  {
    assert "false"[0] == 'f' && "true"[0] == 't' && "f"[0] == 'f';
    assert ParseBool("true", 0) == ParseBool("true", 1) == ParseBool("true", 2);
    assert ParseBool("false", 0) == ParseBool("false", 1) == ParseBool("false", 2);
  }
}
