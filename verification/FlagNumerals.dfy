/** Which texts a flag accepts, and for which value: the words of a bool, and the numerals of the
    numeric types, described without the scanner that reads them. */
module FlagNumerals {
  import opened FlagValues
  import opened Basics

  // ------------------------------------------------------------------ words

  /** Upper and lower case apart, five words are true, five are false, and no other text is a bool. */
  lemma BoolTexts(s: string)
    ensures ParseFrom(BoolType, s) ==
      if SameIgnoringCase(s, "1") || SameIgnoringCase(s, "t") || SameIgnoringCase(s, "true") ||
         SameIgnoringCase(s, "y") || SameIgnoringCase(s, "yes") then Some(Bool(true))
      else if SameIgnoringCase(s, "0") || SameIgnoringCase(s, "f") || SameIgnoringCase(s, "false") ||
              SameIgnoringCase(s, "n") || SameIgnoringCase(s, "no") then Some(Bool(false))
      else None
  {
    FirstLetters(s);
    hide SameIgnoringCase;
    BoolUnrolled(s);
  }

  lemma BoolUnrolled(s: string)
    ensures ParseBool(s, 0) ==
      if SameIgnoringCase(s, "1") then Some(Bool(true)) else if SameIgnoringCase(s, "0") then Some(Bool(false))
      else if SameIgnoringCase(s, "t") then Some(Bool(true)) else if SameIgnoringCase(s, "f") then Some(Bool(false))
      else if SameIgnoringCase(s, "true") then Some(Bool(true)) else if SameIgnoringCase(s, "false") then Some(Bool(false))
      else if SameIgnoringCase(s, "y") then Some(Bool(true)) else if SameIgnoringCase(s, "n") then Some(Bool(false))
      else if SameIgnoringCase(s, "yes") then Some(Bool(true)) else if SameIgnoringCase(s, "no") then Some(Bool(false))
      else None
  {
    hide SameIgnoringCase;
    BoolStep(s, 4);
    BoolStep(s, 3);
    BoolStep(s, 2);
    BoolStep(s, 1);
    BoolStep(s, 0);
  }

  lemma BoolStep(s: string, i: nat)
    requires i < 5
    ensures ParseBool(s, 5) == None
    ensures ParseBool(s, i) ==
      if SameIgnoringCase(s, TRUE_WORDS[i]) then Some(Bool(true))
      else if SameIgnoringCase(s, FALSE_WORDS[i]) then Some(Bool(false))
      else ParseBool(s, i + 1)
  {
    hide SameIgnoringCase;
  }

  /** No text is one of the true words and one of the false words. */
  lemma FirstLetters(s: string)
    ensures (SameIgnoringCase(s, "1") || SameIgnoringCase(s, "t") || SameIgnoringCase(s, "true") ||
             SameIgnoringCase(s, "y") || SameIgnoringCase(s, "yes")) ==> s != "" && Lower(s[0]) in "1ty"
    ensures (SameIgnoringCase(s, "0") || SameIgnoringCase(s, "f") || SameIgnoringCase(s, "false") ||
             SameIgnoringCase(s, "n") || SameIgnoringCase(s, "no")) ==> s != "" && Lower(s[0]) !in "1ty"
  {
  }

  // --------------------------------------------------------------- numerals

  const DIGITS := "0123456789abcdef"

  /** The character is a digit of the base, with value `d`. */
  predicate IsDigit(c: char, base: nat, d: nat)
    requires base <= 16
  {
    d < base && Lower(c) == DIGITS[d]
  }

  predicate AllSpaces(s: string) {
    forall k :: 0 <= k < |s| ==> IsSpace(s[k])
  }

  /** The number with these digits, the most significant one first */
  ghost function Horner(ds: seq<nat>, base: nat): nat {
    if ds == [] then 0 else Horner(ds[..|ds| - 1], base) * base + ds[|ds| - 1]
  }

  ghost predicate DigitsOf(s: string, base: nat, ds: seq<nat>)
    requires base <= 16
  {
    |ds| == |s| && forall k :: 0 <= k < |s| ==> IsDigit(s[k], base, ds[k])
  }

  /** A non-empty text of digits, and the number it stands for */
  ghost predicate Numeral(s: string, base: nat, n: nat)
    requires base <= 16
  {
    s != "" && exists ds :: DigitsOf(s, base, ds) && n == Horner(ds, base)
  }

  /** The text is white space, perhaps a sign, and a decimal numeral. */
  ghost predicate Decimals(s: string, spaces: string, sign: string, digits: string, m: nat) {
    s == spaces + sign + digits && AllSpaces(spaces) && sign in ["", "+", "-"] && Numeral(digits, 10, m)
  }

  /** The text is 0x and a hexadecimal numeral. */
  ghost predicate Hexadecimals(s: string, digits: string, m: nat) {
    (s == "0x" + digits || s == "0X" + digits) && Numeral(digits, 16, m)
  }

  lemma DigitIs(c: char, base: nat, d: nat)
    requires base == 10 || base == 16
    ensures IsDigit(c, base, d) <==> Digit(c, base) == d < base
  {
  }

  ghost predicate ReadsAsDigits(t: string, i: nat, base: nat) {
    forall k :: i <= k < |t| ==> Digit(t[k], base) < base
  }

  lemma {:induction false} HornerIsValue(t: string, i: nat, j: nat, base: nat, ds: seq<nat>)
    requires i <= j <= |t| && (base == 10 || base == 16) && DigitsOf(t[i..j], base, ds)
    ensures DigitsValue(t, i, j, base) == Horner(ds, base)
    decreases j
  {
    hide IsDigit, Digit;
    if i < j {
      assert t[i..j - 1] == t[i..j][..j - 1 - i];
      HornerIsValue(t, i, j - 1, base, ds[..|ds| - 1]);
      assert t[i..j][j - 1 - i] == t[j - 1];
      DigitIs(t[j - 1], base, ds[|ds| - 1]);
    }
  }

  /** The rest of a text is a numeral if and only if the scanner reads it to its end, and the numbers
      agree. */
  lemma NumeralIsValue(t: string, i: nat, base: nat, n: nat)
    requires i <= |t| && (base == 10 || base == 16)
    ensures Numeral(t[i..], base, n) <==> i < |t| && ReadsAsDigits(t, i, base) && DigitsValue(t, i, |t|, base) == n
  {
    hide IsDigit, Digit, DigitsValue, Horner;
    assert t[i..|t|] == t[i..];
    if ds :| DigitsOf(t[i..], base, ds) && n == Horner(ds, base) {
      HornerIsValue(t, i, |t|, base, ds);
      forall k | i <= k < |t| ensures Digit(t[k], base) < base {
        assert t[i..][k - i] == t[k];
        DigitIs(t[k], base, ds[k - i]);
      }
    }
    if ReadsAsDigits(t, i, base) {
      var ds := seq(|t| - i, k requires 0 <= k < |t| - i => Digit(t[i + k], base));
      forall k | 0 <= k < |t| - i ensures IsDigit(t[i..][k], base, ds[k]) {
        DigitIs(t[i + k], base, ds[k]);
      }
      HornerIsValue(t, i, |t|, base, ds);
      assert DigitsOf(t[i..], base, ds);
    }
  }

  // ---------------------------------------------------- what the scanner reads

  lemma {:induction false} SpacesSkipped(s: string, i: nat, j: nat)
    requires i <= j <= |s|
    ensures SkipSpaces(s, i) == j <==> (forall k :: i <= k < j ==> IsSpace(s[k])) && (j < |s| ==> !IsSpace(s[j]))
    decreases |s| - i
  {
    hide IsSpace;
    if i < |s| && IsSpace(s[i]) && i < j {
      SpacesSkipped(s, i + 1, j);
    } else if i < |s| && IsSpace(s[i]) {
      assert SkipSpaces(s, i) == SkipSpaces(s, i + 1);
    }
  }

  lemma {:induction false} DigitsReadTo(s: string, i: nat, base: nat)
    requires i <= |s|
    ensures DigitsEnd(s, i, base) == |s| <==> ReadsAsDigits(s, i, base)
    decreases |s| - i
  {
    hide Digit;
    if i < |s| {
      DigitsReadTo(s, i + 1, base);
    }
  }

  /** Where the spaces, the sign and the digits of a text begin, for the scanner */
  lemma DecimalParts(s: string, i: nat, j: nat)
    requires i <= j <= |s| && SkipSpaces(s, 0) == i
    requires j == if i < |s| && (s[i] == '-' || s[i] == '+') then i + 1 else i
    ensures s != "" && Strto(s, 10).end == |s| <==> j < |s| && ReadsAsDigits(s, j, 10)
    ensures j < |s| && ReadsAsDigits(s, j, 10) ==>
      Strto(s, 10) == Scanned(i < |s| && s[i] == '-', DigitsValue(s, j, |s|, 10), |s|)
  {
    hide Digit, SkipSpaces, DigitsValue, ReadsAsDigits, DigitsEnd, IsSpace;
    DigitsReadTo(s, j, 10);
  }

  /** A text that is a decimal numeral is read to its end. */
  lemma DecimalsScanned(s: string, spaces: string, sign: string, digits: string, m: nat)
    requires Decimals(s, spaces, sign, digits, m)
    ensures s != "" && Strto(s, 10) == Scanned(sign == "-", m, |s|)
  {
    hide Strto, DigitsValue, Digit;
    var i, j := |spaces|, |spaces| + |sign|;
    assert s[j..] == digits;
    NumeralIsValue(s, j, 10, m);
    assert s[j] == digits[0] && Digit(s[j], 10) < 10;
    NotADigit(s[j]);
    assert sign != "" ==> s[i] == sign[0];
    assert !IsSpace(s[i]);
    forall k | 0 <= k < i ensures IsSpace(s[k]) {
      assert s[k] == spaces[k];
    }
    SpacesSkipped(s, 0, i);
    DecimalParts(s, i, j);
  }

  lemma NotADigit(c: char)
    requires Digit(c, 10) < 10
    ensures !IsSpace(c) && c != '-' && c != '+' && c != 'x' && c != 'X'
  {
  }

  /** A text that is read to its end is a decimal numeral. */
  lemma ScannedIsDecimals(s: string) returns (spaces: string, sign: string, digits: string)
    requires s != "" && Strto(s, 10).end == |s|
    ensures Decimals(s, spaces, sign, digits, Strto(s, 10).magnitude) && (sign == "-" <==> Strto(s, 10).negative)
  {
    hide Strto, DigitsValue, Digit;
    var i := SkipSpaces(s, 0);
    var j := if i < |s| && (s[i] == '-' || s[i] == '+') then i + 1 else i;
    DecimalParts(s, i, j);
    SpacesSkipped(s, 0, i);
    spaces, sign, digits := s[..i], s[i..j], s[j..];
    NumeralIsValue(s, j, 10, DigitsValue(s, j, |s|, 10));
    assert s == spaces + sign + digits;
    assert sign == if j == i then "" else [s[i]];
  }

  predicate Prefixed(s: string) {
    |s| > 1 && s[0] == '0' && (s[1] == 'x' || s[1] == 'X')
  }

  /** With the prefix, the text is read to its end if and only if the rest is a hexadecimal numeral. */
  lemma HexScanned(s: string, m: nat)
    requires Prefixed(s)
    ensures Strto(s, 16) == Scanned(false, m, |s|) <==> Numeral(s[2..], 16, m)
    ensures Strto(s, 16).end == |s| ==> !Strto(s, 16).negative
    ensures Strto(s, 10).end != |s|
  {
    hide DigitsValue, Digit, Numeral;
    NumeralIsValue(s, 2, 16, m);
    DigitsReadTo(s, 2, 16);
    DigitsReadTo(s, 0, 16);
    DigitsReadTo(s, 0, 10);
    PrefixDigits(s[1]);
    assert SkipSpaces(s, 0) == 0;
  }

  lemma PrefixDigits(c: char)
    requires c == 'x' || c == 'X'
    ensures Digit(c, 16) == 16 && Digit(c, 10) == 10
  {
  }

  // ------------------------------------------------------ what a text stands for

  function Signed(negative: bool, m: nat): int {
    if negative then -(m as int) else m
  }

  ghost predicate StandsForDecimal(s: string, n: int) {
    exists spaces, sign, digits, m: nat :: Decimals(s, spaces, sign, digits, m) && n == Signed(sign == "-", m)
  }

  ghost predicate StandsForHex(s: string, n: int) {
    exists digits, m: nat :: Hexadecimals(s, digits, m) && n == m
  }

  lemma HexStands(s: string, n: int)
    ensures StandsForHex(s, n) <==> Prefixed(s) && Strto(s, 16).end == |s| && n == Strto(s, 16).magnitude
    ensures Prefixed(s) && Strto(s, 16).end == |s| ==> !Strto(s, 16).negative
  {
    hide Strto, Numeral;
    var r := Strto(s, 16);
    if Prefixed(s) {
      HexScanned(s, r.magnitude);
      if r.end == |s| {
        assert s == (if s[1] == 'x' then "0x" else "0X") + s[2..];
        assert Hexadecimals(s, s[2..], r.magnitude);
      }
    }
    if StandsForHex(s, n) {
      var digits, m: nat :| Hexadecimals(s, digits, m) && n == m;
      assert s[2..] == digits;
      HexScanned(s, m);
    }
  }

  lemma DecimalStands(s: string, n: int)
    ensures StandsForDecimal(s, n) <==>
      s != "" && Strto(s, 10).end == |s| && n == Signed(Strto(s, 10).negative, Strto(s, 10).magnitude)
  {
    hide Strto, Numeral, Decimals;
    var r := Strto(s, 10);
    if s != "" && r.end == |s| {
      var spaces, sign, digits := ScannedIsDecimals(s);
    }
    if StandsForDecimal(s, n) {
      var spaces, sign, digits, m: nat :| Decimals(s, spaces, sign, digits, m) && n == Signed(sign == "-", m);
      DecimalsScanned(s, spaces, sign, digits, m);
    }
  }

  lemma SignedScan(s: string, n: int)
    ensures StandsForDecimal(s, n) || StandsForHex(s, n) <==>
      s != "" && var r := Strto(s, if Prefixed(s) then 16 else 10); r.end == |s| && n == Signed(r.negative, r.magnitude)
  {
    hide Strto, StandsForDecimal, StandsForHex, Numeral;
    HexStands(s, n);
    DecimalStands(s, n);
    if Prefixed(s) {
      HexScanned(s, Strto(s, 16).magnitude);
    }
  }

  /** A signed flag accepts exactly the numerals, with white space before them and perhaps a sign, or with
      the prefix 0x, whose value fits the type. */
  lemma SignedTexts(s: string, n: int)
    ensures ParseFrom(Int64Type, s) == Some(Int64(n)) <==>
      -9223372036854775808 <= n <= 9223372036854775807 && (StandsForDecimal(s, n) || StandsForHex(s, n))
    ensures ParseFrom(Int32Type, s) == Some(Int32(n)) <==>
      -2147483648 <= n <= 2147483647 && (StandsForDecimal(s, n) || StandsForHex(s, n))
  {
    hide Strto, StandsForDecimal, StandsForHex;
    SignedScan(s, n);
  }

  // ---------------------------------------------------------- unsigned types

  predicate OnlyBlanks(s: string) {
    forall k :: 0 <= k < |s| ==> s[k] == ' '
  }

  /** A minus sign is refused behind blanks, but behind other white space it negates modulo 2^64. */
  ghost predicate StandsForUnsigned(s: string, n: int) {
    exists spaces, sign, digits, m: nat ::
      Decimals(s, spaces, sign, digits, m) && m < TWO_64 && (sign == "-" ==> !OnlyBlanks(spaces)) &&
      n == if sign == "-" && m > 0 then TWO_64 - m else m
  }

  /** The text behind its leading blanks */
  lemma BlanksDropped(s: string) returns (b: nat)
    ensures b <= |s| && OnlyBlanks(s[..b]) && (b < |s| ==> s[b] != ' ') && DropBlanks(s) == s[b..]
  {
    if s != "" && s[0] == ' ' {
      var c := BlanksDropped(s[1..]);
      b := c + 1;
      assert s[1..][c..] == s[b..] && s[..b] == [s[0]] + s[1..][..c];
    } else {
      b := 0;
    }
  }

  /** Blanks before a numeral change nothing. */
  lemma BlanksBefore(s: string, b: nat, spaces: string, sign: string, digits: string, m: nat)
    requires b <= |s| && OnlyBlanks(s[..b]) && Decimals(s[b..], spaces, sign, digits, m)
    ensures Decimals(s, s[..b] + spaces, sign, digits, m)
  {
    hide Numeral;
    assert s == s[..b] + s[b..];
  }

  /** Where the white space of a numeral ends */
  lemma NumeralStart(s: string, spaces: string, sign: string, digits: string, m: nat)
    requires Decimals(s, spaces, sign, digits, m)
    ensures |spaces| < |s| && !IsSpace(s[|spaces|]) && (s[|spaces|] == '-' <==> sign == "-")
  {
    NumeralIsValue(digits, 0, 10, m);
    assert digits[0..] == digits;
    NotADigit(digits[0]);
    hide Numeral, IsSpace;
    assert s[|spaces| + |sign|] == digits[0];
    assert sign != "" ==> s[|spaces|] == sign[0];
  }

  /** The white space of a numeral begins with the blanks of the text. */
  lemma BlanksAmong(s: string, b: nat, spaces: string, sign: string, digits: string, m: nat)
    requires b <= |s| && OnlyBlanks(s[..b]) && (b < |s| ==> s[b] != ' ') && Decimals(s, spaces, sign, digits, m)
    ensures b <= |spaces| && Decimals(s[b..], spaces[b..], sign, digits, m)
    ensures OnlyBlanks(spaces) <==> b == |spaces|
    ensures b < |spaces| ==> IsSpace(s[b])
  {
    hide Numeral;
    NumeralStart(s, spaces, sign, digits, m);
    forall k | 0 <= k < b ensures s[k] == ' ' {
      assert s[..b][k] == ' ';
    }
    assert spaces == s[..|spaces|];
    assert s[b..] == spaces[b..] + sign + digits;
    assert b < |spaces| ==> spaces[b] == s[b];
    assert forall k :: 0 <= k < |spaces| ==> spaces[k] == s[k];
  }

  lemma DashIsNoSpace(c: char)
    ensures IsSpace(c) ==> c != '-'
  {
  }

  lemma UnsignedScan(s: string, b: nat, n: int)
    requires b <= |s| && OnlyBlanks(s[..b]) && (b < |s| ==> s[b] != ' ')
    ensures StandsForUnsigned(s, n) <==> b < |s| && s[b] != '-' && ReadAsUnsigned(s[b..], n)
  {
    hide Strto, Decimals, IsSpace, OnlyBlanks;
    var t := s[b..];
    var r := Strto(t, 10);
    if b < |s| && s[b] != '-' && ReadAsUnsigned(t, n) {
      var spaces, sign, digits := ScannedIsDecimals(t);
      BlanksBefore(s, b, spaces, sign, digits, r.magnitude);
      BlanksAmong(s, b, s[..b] + spaces, sign, digits, r.magnitude);
      NumeralStart(s, s[..b] + spaces, sign, digits, r.magnitude);
    }
    if StandsForUnsigned(s, n) {
      var spaces, sign, digits, m: nat :| Decimals(s, spaces, sign, digits, m) && m < TWO_64 &&
        (sign == "-" ==> !OnlyBlanks(spaces)) && n == if sign == "-" && m > 0 then TWO_64 - m else m;
      BlanksAmong(s, b, spaces, sign, digits, m);
      NumeralStart(s, spaces, sign, digits, m);
      DecimalsScanned(t, spaces[b..], sign, digits, m);
      DashIsNoSpace(s[b]);
    }
  }

  /** What `strtoull` makes of a text, if it reads it to its end */
  predicate ReadAsUnsigned(t: string, n: int) {
    var r := Strto(t, 10);
    r.end == |t| && r.magnitude < TWO_64 && n == if r.negative && r.magnitude > 0 then TWO_64 - r.magnitude else r.magnitude
  }

  /** An unsigned flag accepts exactly these texts, if the value fits the type; and blanks alone are 0. */
  lemma UnsignedTexts(s: string, n: int)
    ensures ParseFrom(UInt64Type, s) == Some(UInt64(n)) <==>
      0 <= n <= 18446744073709551615 && (StandsForUnsigned(s, n) || StandsForHex(s, n) || (s != "" && OnlyBlanks(s) && n == 0))
    ensures ParseFrom(UInt32Type, s) == Some(UInt32(n)) <==>
      0 <= n <= 4294967295 && (StandsForUnsigned(s, n) || StandsForHex(s, n) || (s != "" && OnlyBlanks(s) && n == 0))
  {
    hide Strto, StandsForUnsigned, StandsForHex, DropBlanks, Numeral;
    var b := BlanksDropped(s);
    UnsignedScan(s, b, n);
    HexStands(s, n);
    NothingScanned();
    assert s[..|s|] == s;
    if Prefixed(s) {
      assert b == 0 && s[0..] == s;
      HexScanned(s, Strto(s, 16).magnitude);
    }
  }

  lemma NothingScanned()
    ensures Strto("", 10) == Scanned(false, 0, 0)
  {
  }
}
