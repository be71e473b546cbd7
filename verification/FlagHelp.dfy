/** Line wrapping of flag descriptions, `DescribeOneFlag` and `AddString`. */
module FlagHelp {
  import opened FlagValues
  import opened FlagText
  import opened Basics

  const LINE_LENGTH := 80

  // ----------------------------------------------------- what a line is

  /** The number of characters after the last line end */
  function Column(s: string): nat {
    if s == [] || s[|s| - 1] == '\n' then 0 else Column(s[..|s| - 1]) + 1
  }

  /** No line reaches 80 characters. */
  predicate ShortLines(s: string) {
    s == [] || (ShortLines(s[..|s| - 1]) && Column(s) < LINE_LENGTH)
  }

  /** The characters that are not white space, in order */
  function Ink(s: string): string {
    if s == [] then [] else Ink(s[..|s| - 1]) + if IsSpace(s[|s| - 1]) then [] else [s[|s| - 1]]
  }

  lemma {:induction false} InkAppend(s: string, t: string)
    ensures Ink(s + t) == Ink(s) + Ink(t)
  {
    if t == [] {
      assert s + t == s;
    } else {
      InkAppend(s, t[..|t| - 1]);
      assert (s + t)[..|s + t| - 1] == s + t[..|t| - 1];
    }
  }

  lemma {:induction false} BlankHasNoInk(t: string)
    requires forall k :: 0 <= k < |t| ==> IsSpace(t[k])
    ensures Ink(t) == []
  {
    if t != [] {
      BlankHasNoInk(t[..|t| - 1]);
    }
  }

  /** Appending text without line ends */
  lemma {:induction false} AppendToLine(s: string, t: string)
    requires '\n' !in t
    ensures Column(s + t) == Column(s) + |t|
    ensures ShortLines(s) && Column(s) + |t| < LINE_LENGTH ==> ShortLines(s + t)
  {
    if t == [] {
      assert s + t == s;
    } else {
      AppendToLine(s, t[..|t| - 1]);
      assert (s + t)[..|s + t| - 1] == s + t[..|t| - 1];
    }
  }

  const BREAK := "\n      "

  lemma NewLine(s: string)
    requires ShortLines(s)
    ensures Column(s + BREAK) == 6 && ShortLines(s + BREAK) && Ink(s + BREAK) == Ink(s)
  {
    assert (s + "\n")[..|s + "\n"| - 1] == s;
    AppendToLine(s + "\n", "      ");
    assert s + BREAK == s + "\n" + "      ";
    InkAppend(s, BREAK);
    BlankHasNoInk(BREAK);
  }

  /** `w` consecutive characters without white space */
  ghost predicate LongWord(s: string, at: int, w: nat) {
    0 <= at && at + w <= |s| && forall k :: at <= k < at + w ==> !IsSpace(s[k])
  }

  // --------------------------------------------------------------- wrapping

  /** The last white space of `text` in `at + 1 .. at + width`, or `at` */
  method LastBlank(text: string, at: nat, width: nat) returns (cut: nat)
    requires at + width < |text|
    ensures at <= cut <= at + width
    ensures cut > at ==> IsSpace(text[cut])
    ensures forall k :: cut < k <= at + width ==> !IsSpace(text[k])
  {
    var whitespace := width;
    while whitespace > 0 && !IsSpace(text[at + whitespace])
      invariant 0 <= whitespace <= width
      invariant forall k :: at + whitespace < k <= at + width ==> !IsSpace(text[k])
    {
      whitespace := whitespace - 1;
    }
    cut := at + whitespace;
  }

  /** A piece of the text that is put on a line: the characters `start .. stop`, after which the text goes
      on at `next` on a new line. */
  datatype Piece = Piece(start: nat, stop: nat, next: nat)

  /** Where the piece ends, the text has a line end; or it has white space there, and the word behind it
      would reach column 80 of a line that had `lead` characters before the piece. */
  ghost predicate BreaksWell(text: string, p: Piece, lead: nat) {
    p.start <= p.stop < p.next <= |text| && '\n' !in text[p.start..p.stop] && lead < LINE_LENGTH &&
    (forall k :: p.stop <= k < p.next ==> IsSpace(text[k])) &&
    ((text[p.stop] == '\n' && p.next == p.stop + 1) ||
     (p.start < p.stop && (p.next < |text| ==> !IsSpace(text[p.next])) &&
      p.stop <= p.start + (LINE_LENGTH - 1 - lead) < |text| &&
      forall k :: p.stop < k <= p.start + (LINE_LENGTH - 1 - lead) ==> !IsSpace(text[k])))
  }

  /** Where the text goes on after these pieces */
  function After(ps: seq<Piece>): nat {
    if ps == [] then 0 else ps[|ps| - 1].next
  }

  /** The pieces follow each other, and each is broken off where it has to be. Only the first line starts at
      its left end; the others are indented by 6 characters. */
  ghost predicate Pieces(text: string, ps: seq<Piece>) {
    forall i :: 0 <= i < |ps| ==>
      ps[i].start == After(ps[..i]) && BreaksWell(text, ps[i], if i == 0 then 0 else 6)
  }

  /** The pieces on their lines, each with the line break behind it */
  function Printed(text: string, ps: seq<Piece>): string {
    if ps == [] then ""
    else
      var p := ps[|ps| - 1];
      Printed(text, ps[..|ps| - 1]) + (if p.start <= p.stop <= |text| then text[p.start..p.stop] else "") + BREAK
  }

  /** The whole text: the pieces with breaks between them, and then the rest; but no break behind the
      last piece if nothing follows. */
  ghost predicate BrokenInto(text: string, final: string, ps: seq<Piece>) {
    Pieces(text, ps) && After(ps) <= |text| &&
    if ps != [] && After(ps) == |text| then final + BREAK == Printed(text, ps) else final == Printed(text, ps) + text[After(ps)..]
  }

  lemma NextPiece(text: string, ps: seq<Piece>, stop: nat, next: nat)
    requires Pieces(text, ps) && BreaksWell(text, Piece(After(ps), stop, next), if ps == [] then 0 else 6)
    ensures var more := ps + [Piece(After(ps), stop, next)];
      Pieces(text, more) && After(more) == next && Printed(text, more) == Printed(text, ps) + text[After(ps)..stop] + BREAK
  {
    hide BreaksWell;
    var p := Piece(After(ps), stop, next);
    var more := ps + [p];
    assert more[..|ps|] == ps;
    assert BreaksWell(text, p, if ps == [] then 0 else 6) ==> p.start <= p.stop <= |text| by {
      PieceInText(text, p, if ps == [] then 0 else 6);
    }
    forall i | 0 <= i < |more|
      ensures more[i].start == After(more[..i]) && BreaksWell(text, more[i], if i == 0 then 0 else 6)
    {
      if i < |ps| {
        assert more[..i] == ps[..i] && more[i] == ps[i];
      }
    }
  }

  lemma PieceInText(text: string, p: Piece, lead: nat)
    ensures BreaksWell(text, p, lead) ==> p.start <= p.stop <= |text|
  {
  }

  /** What the wrap loop maintains: everything before `at` is out, on lines that are short. */
  ghost predicate Wrapped(text: string, final: string, at: nat) {
    at <= |text| && ShortLines(final) && Ink(final) + Ink(text[at..]) == Ink(text)
  }

  lemma Emit(text: string, final: string, at: nat, to: nat, next: nat)
    requires Wrapped(text, final, at) && at <= to <= next <= |text|
    requires '\n' !in text[at..to] && Column(final) + (to - at) < LINE_LENGTH
    requires forall k :: to <= k < next ==> IsSpace(text[k])
    ensures Wrapped(text, final + text[at..to], next)
    ensures Column(final + text[at..to]) == Column(final) + (to - at)
  {
    PieceOf(text, at, to, next);
    AppendToLine(final, text[at..to]);
    InkAppend(final, text[at..to]);
  }

  lemma EmitBreak(text: string, final: string, at: nat)
    requires Wrapped(text, final, at)
    ensures Wrapped(text, final + BREAK, at) && Column(final + BREAK) == 6
  {
    NewLine(final);
  }

  lemma EmitRest(text: string, final: string, at: nat)
    requires Wrapped(text, final, at)
    ensures Ink(final + text[at..]) == Ink(text)
  {
    InkAppend(final, text[at..]);
  }

  /** The text up to `k` stands on short lines, and the rest of it was dumped where a line of 6
      characters could not be continued: a word of at least 73 characters follows. */
  ghost predicate DumpAt(text: string, part: string, head: string, k: nat) {
    k < |text| && part == head + text[k..] && ShortLines(head) && Column(head) == 6 &&
    Ink(head) + Ink(text[k..]) == Ink(text) && LongWord(text, k + 1, 73)
  }

  ghost predicate Dumped(text: string, part: string) {
    exists head: string, k: nat :: DumpAt(text, part, head, k)
  }

  /** The text on short lines, or on short lines up to a dump */
  ghost predicate WrappedText(text: string, part: string) {
    (ShortLines(part) && Ink(part) == Ink(text)) || Dumped(text, part)
  }

  /** The wrap loop of `DescribeOneFlag` on the main part. All characters but white space come out
      in order, and every line stays under 80 characters, except that the rest is dumped as it is
      where the line has no place to break: then a word of at least 73 characters follows. */
  method Wrap(text: string) returns (final: string, charsInLine: nat, ghost dumped: bool, ghost ps: seq<Piece>)
    requires |text| > 1 && IsSpace(text[1])
    ensures Ink(final) == Ink(text)
    ensures BrokenInto(text, final, ps)
    ensures !dumped ==> ShortLines(final) && (IsSpace(text[|text| - 1]) || Column(final) == charsInLine)
    ensures dumped ==> charsInLine == LINE_LENGTH && Dumped(text, final)
  {
    hide Wrapped, ShortLines, Column, Ink, Pieces, Printed, BreaksWell;
    final, charsInLine, dumped, ps := "", 0, false, [];
    var at := 0;
    var charsLeft := |text|;
    StartWrap(text);
    while true
      invariant 0 <= at < |text| && charsLeft == |text| - at
      invariant Wrapped(text, final, at) && Column(final) == charsInLine
      invariant (at == 0 && charsInLine == 0 && ps == []) || (charsInLine == 6 && ps != [])
      invariant Pieces(text, ps) && final == Printed(text, ps) && After(ps) == at
      decreases |text| - at
    {
      var newline := IndexOf(text, '\n', at);
      if newline.None? && charsInLine + charsLeft < LINE_LENGTH {
        Emit(text, final, at, |text|, |text|);
        assert text[at..] == text[at..|text|];
        final := final + text[at..];
        charsInLine := charsInLine + charsLeft;
        EndWrap(text, final);
        return;
      }
      if newline.Some? && newline.value - at < LINE_LENGTH - charsInLine {
        var n := newline.value - at;
        Emit(text, final, at, at + n, at + n + 1);
        LineEndBreaks(text, at, newline.value, charsInLine);
        NextPiece(text, ps, at + n, at + n + 1);
        ps := ps + [Piece(at, at + n, at + n + 1)];
        final := final + text[at..at + n];
        charsLeft := charsLeft - (n + 1);
        at := at + n + 1;
      } else {
        var cut := LastBlank(text, at, LINE_LENGTH - charsInLine - 1);
        if cut <= at {
          EmitRest(text, final, at);
          DumpHere(text, final, at);
          final := final + text[at..];
          charsInLine := LINE_LENGTH;
          dumped := true;
          return;
        }
        var next := SkipSpaces(text, cut);
        BlanksSkipped(text, cut);
        Emit(text, final, at, cut, next);
        BlankBreaks(text, at, cut, charsInLine);
        NextPiece(text, ps, cut, next);
        ps := ps + [Piece(at, cut, next)];
        final := final + text[at..cut];
        charsInLine := charsInLine + (cut - at);
        charsLeft := charsLeft - (next - at);
        at := next;
      }
      if at == |text| {
        EndWrap(text, final);
        return;
      }
      EmitBreak(text, final, at);
      final := final + BREAK;
      charsInLine := 6;
    }
  }

  lemma LineEndBreaks(text: string, at: nat, newline: nat, lead: nat)
    requires at <= newline < |text| && text[newline] == '\n' && '\n' !in text[at..newline] && lead < LINE_LENGTH
    ensures BreaksWell(text, Piece(at, newline, newline + 1), lead)
  {
  }

  lemma BlankBreaks(text: string, at: nat, cut: nat, lead: nat)
    requires at < cut <= at + (LINE_LENGTH - 1 - lead) < |text| && lead < LINE_LENGTH && IsSpace(text[cut])
    requires '\n' !in text[at..cut] && forall k :: cut < k <= at + (LINE_LENGTH - 1 - lead) ==> !IsSpace(text[k])
    ensures BreaksWell(text, Piece(at, cut, SkipSpaces(text, cut)), lead)
  {
    BlanksSkipped(text, cut);
    hide IsSpace;
  }

  lemma DumpHere(text: string, final: string, at: nat)
    requires Wrapped(text, final, at) && at < |text| && Column(final) == 6 && LongWord(text, at + 1, 73)
    ensures Dumped(text, final + text[at..])
  {
    assert DumpAt(text, final + text[at..], final, at);
  }

  lemma StartWrap(text: string)
    ensures Wrapped(text, "", 0) && Column("") == 0
    ensures Pieces(text, []) && Printed(text, []) == ""
  {
    assert text[0..] == text;
  }

  lemma EndWrap(text: string, final: string)
    requires Wrapped(text, final, |text|)
    ensures ShortLines(final) && Ink(final) == Ink(text)
  {
    assert text[|text|..] == "";
  }

  /** The text from `from` on has the ink of the piece before `to` and of what follows the blanks. */
  lemma PieceOf(text: string, from: nat, to: nat, next: nat)
    requires from <= to <= next <= |text| && forall k :: to <= k < next ==> IsSpace(text[k])
    ensures Ink(text[from..]) == Ink(text[from..to]) + Ink(text[next..])
  {
    assert text[from..] == text[from..to] + (text[to..next] + text[next..]);
    InkAppend(text[from..to], text[to..next] + text[next..]);
    InkAppend(text[to..next], text[next..]);
    BlankHasNoInk(text[to..next]);
  }

  lemma {:induction false} BlanksSkipped(text: string, i: nat)
    requires i <= |text|
    ensures forall k :: i <= k < SkipSpaces(text, i) ==> IsSpace(text[k])
    ensures i < |text| && IsSpace(text[i]) ==> SkipSpaces(text, i) > i
    ensures SkipSpaces(text, i) < |text| ==> !IsSpace(text[SkipSpaces(text, i)])
    decreases |text| - i
  {
    if i < |text| && IsSpace(text[i]) {
      BlanksSkipped(text, i + 1);
    }
  }

  // ------------------------------------------------------- the whole text

  /** `AddString`: appends a part on the line if it fits, else on a line of its own */
  method AddString(s: string, final: string, charsInLine: nat) returns (final': string, charsInLine': nat)
    ensures final <= final' && Ink(final') == Ink(final) + Ink(s)
    ensures '\n' !in s && Column(final) == charsInLine ==> Column(final') == charsInLine'
    ensures '\n' !in s && |s| <= 73 && ShortLines(final) && (Column(final) == charsInLine || charsInLine >= LINE_LENGTH) ==>
      ShortLines(final') && Column(final') == charsInLine'
  {
    hide ShortLines, Column, Ink;
    AfterBreak(final, s);
    AfterBlank(final, s);
    if charsInLine + 1 + |s| >= LINE_LENGTH {
      final', charsInLine' := final + BREAK, 6;
    } else {
      final', charsInLine' := final + " ", charsInLine + 1;
    }
    final' := final' + s;
    charsInLine' := charsInLine' + |s|;
  }

  lemma AfterBreak(final: string, s: string)
    ensures Ink(final + BREAK + s) == Ink(final) + Ink(s)
    ensures '\n' !in s ==> Column(final + BREAK + s) == 6 + |s|
    ensures '\n' !in s && ShortLines(final) && 6 + |s| < LINE_LENGTH ==> ShortLines(final + BREAK + s)
  {
    hide Ink, Column, ShortLines;
    InkAppend(final, BREAK);
    InkAppend(final + BREAK, s);
    BlankHasNoInk(BREAK);
    BreakColumn(final);
    if '\n' !in s {
      AppendToLine(final + BREAK, s);
    }
    if ShortLines(final) {
      NewLine(final);
    }
  }

  lemma AfterBlank(final: string, s: string)
    ensures Ink(final + " " + s) == Ink(final) + Ink(s)
    ensures '\n' !in s ==> Column(final + " " + s) == Column(final) + 1 + |s|
    ensures '\n' !in s && ShortLines(final) && Column(final) + 1 + |s| < LINE_LENGTH ==> ShortLines(final + " " + s)
  {
    hide Ink, Column, ShortLines;
    InkAppend(final, " ");
    InkAppend(final + " ", s);
    BlankHasNoInk(" ");
    AppendToLine(final, " ");
    if '\n' !in s {
      AppendToLine(final + " ", s);
    }
  }

  lemma BreakColumn(s: string)
    ensures Column(s + BREAK) == 6
  {
    assert (s + "\n")[..|s + "\n"| - 1] == s;
    AppendToLine(s + "\n", "      ");
    assert s + BREAK == s + "\n" + "      ";
  }

  datatype FlagInfo = FlagInfo(name: string, typeName: string, description: string,
                               currentValue: string, defaultValue: string, isDefault: bool)

  function MainPart(flag: FlagInfo): string {
    "    -" + flag.name + " (" + flag.description + ")"
  }

  /** `PrintStringFlagsWithQuotes` */
  function Quoted(flag: FlagInfo, text: string, current: bool): string {
    var value := if current then flag.currentValue else flag.defaultValue;
    if flag.typeName == "string" then text + ": \"" + value + "\"" else text + ": " + value
  }

  /** A part that can stand on a line of its own */
  predicate FitsOnLine(s: string) {
    '\n' !in s && |s| <= 73
  }

  /** What is said about a value: the default, and the current one if it differs */
  lemma QuotedText(flag: FlagInfo)
    ensures Quoted(flag, "default", false) ==
      if flag.typeName == "string" then "default: \"" + flag.defaultValue + "\"" else "default: " + flag.defaultValue
    ensures Quoted(flag, "currently", true) ==
      if flag.typeName == "string" then "currently: \"" + flag.currentValue + "\"" else "currently: " + flag.currentValue
  {
    assert "default" + ": \"" == "default: \"" && "default" + ": " == "default: ";
    assert "currently" + ": \"" == "currently: \"" && "currently" + ": " == "currently: ";
  }

  /** `DescribeOneFlag`: nothing but white space is added or lost. The name and the description are broken
      into lines only where they have to be, and their lines are short, up to a dump of the rest at
      their end. And if the name and the description have no word longer than 72 characters and
      the other parts fit on a line, no line reaches 80 characters. */
  method DescribeOneFlag(flag: FlagInfo) returns (final: string)
    ensures Ink(final) == Ink(MainPart(flag)) + Ink("type: " + flag.typeName) + Ink(Quoted(flag, "default", false)) +
      (if flag.isDefault then "" else Ink(Quoted(flag, "currently", true)))
    ensures Quoted(flag, "default", false) ==
      if flag.typeName == "string" then "default: \"" + flag.defaultValue + "\"" else "default: " + flag.defaultValue
    ensures Quoted(flag, "currently", true) ==
      if flag.typeName == "string" then "currently: \"" + flag.currentValue + "\"" else "currently: " + flag.currentValue
    ensures (forall k :: !LongWord(MainPart(flag), k, 73)) && FitsOnLine("type: " + flag.typeName) &&
      FitsOnLine(Quoted(flag, "default", false)) && (flag.isDefault || FitsOnLine(Quoted(flag, "currently", true)))
      ==> ShortLines(final)
    ensures exists part: string, ps: seq<Piece> ::
      part <= final && WrappedText(MainPart(flag), part) && BrokenInto(MainPart(flag), part, ps)
  {
    hide Ink, ShortLines, Column, Quoted, BrokenInto;
    QuotedText(flag);
    var charsInLine;
    ghost var dumped;
    var text := MainPart(flag);
    assert text[1] == ' ' && text[|text| - 1] == ')';
    ghost var ps;
    final, charsInLine, dumped, ps := Wrap(text);
    ghost var part := final;
    final, charsInLine := AddString("type: " + flag.typeName, final, charsInLine);
    final, charsInLine := AddString(Quoted(flag, "default", false), final, charsInLine);
    if !flag.isDefault {
      final, charsInLine := AddString(Quoted(flag, "currently", true), final, charsInLine);
    }
    EndOfText(final);
    final := final + "\n";
    assert part <= final && WrappedText(text, part) && BrokenInto(text, part, ps);
  }

  lemma EndOfText(s: string)
    ensures Ink(s + "\n") == Ink(s) && (ShortLines(s) ==> ShortLines(s + "\n"))
  {
    InkAppend(s, "\n");
    BlankHasNoInk("\n");
    assert (s + "\n")[..|s + "\n"| - 1] == s;
  }
}
