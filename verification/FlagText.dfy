/** Flags as text: looking a flag up, splitting `name=value`, printing all flags, and reading a
    flag file back, over a registry seen as a map from names to flag states. */
module FlagText {
  import opened FlagValues
  import opened FlagStates
  import opened Basics

  type Store = map<string, FlagState>

  // ---------------------------------------------------------------- lookup

  /** `strchr(s, c)`, counted from `i` */
  function IndexOf(s: string, c: char, i: nat): (r: Option<nat>)
    requires i <= |s|
    ensures r.Some? ==> i <= r.value < |s| && s[r.value] == c
    ensures r.None? ==> forall k :: i <= k < |s| ==> s[k] != c
    ensures r.Some? ==> forall k :: i <= k < r.value ==> s[k] != c
    decreases |s| - i
  {
    if i == |s| then None else if s[i] == c then Some(i) else IndexOf(s, c, i + 1)
  }

  function DashesReplaced(name: string): string {
    seq(|name|, i requires 0 <= i < |name| => if name[i] == '-' then '_' else name[i])
  }

  /** `FindFlagLocked`: the name under which the flag is registered */
  function FindFlag(names: set<string>, name: string): (r: Option<string>)
    ensures r.Some? ==> r.value in names && r.value == if name in names then name else DashesReplaced(name)
    ensures r.None? <==> name !in names && DashesReplaced(name) !in names
  {
    assert '-' !in name ==> DashesReplaced(name) == name;
    if name in names then Some(name)
    else if '-' !in name then None
    else if DashesReplaced(name) in names then Some(DashesReplaced(name)) else None
  }

  /** A flag without dashes in its name is found under every spelling that has dashes for some of its
      underscores, unless a flag goes by that spelling. */
  lemma DashSpelling(names: set<string>, n: string, spelling: string)
    requires n in names && '-' !in n && spelling !in names && |spelling| == |n|
    requires forall i :: 0 <= i < |n| ==> spelling[i] == n[i] || (spelling[i] == '-' && n[i] == '_')
    ensures FindFlag(names, spelling) == Some(n)
  {
    assert DashesReplaced(spelling) == n;
  }

  /** The outcome of `SplitArgumentLocked`: an error for `key`, or the flag and its value text, if any */
  datatype Split = Unknown(key: string) | Found(name: string, key: string, value: Option<string>)

  /** `SplitArgumentLocked`; `types` gives the registered flags and their types. */
  function SplitArgument(types: map<string, FlagType>, arg: string): (r: Split)
    ensures r.Found? ==> r.name in types && (types[r.name].BoolType? ==> r.value.Some?)
  {
    var eq := IndexOf(arg, '=', 0);
    var key := if eq.None? then arg else arg[..eq.value];
    var v := if eq.None? then None else Some(arg[eq.value + 1..]);
    var flag := FindFlag(types.Keys, key);
    if flag.Some? then
      Found(flag.value, key, if v.None? && types[flag.value].BoolType? then Some("1") else v)
    else if !(|key| >= 2 && key[0] == 'n' && key[1] == 'o') then Unknown(key)
    else
      var inner := FindFlag(types.Keys, key[2..]);
      if inner.None? || !types[inner.value].BoolType? then Unknown(key)
      else Found(inner.value, key[2..], Some("0"))
  }

  function Types(store: Store): (t: map<string, FlagType>)
    ensures t.Keys == store.Keys
  {
    map n | n in store :: TypeOf(store[n].def)
  }

  // --------------------------------------------------------- setting by name

  /** The registry and the flags for which the parser has recorded an error */
  datatype Parser = Parser(store: Store, errors: set<string>)

  /** `ProcessSingleOptionLocked` */
  function SetOption(p: Parser, name: string, spec: string, mode: Mode): (r: Parser)
    requires name in p.store
    ensures r.store.Keys == p.store.Keys
  {
    var r := SetFlag(p.store[name], spec, mode);
    Parser(p.store[name := r.state], if r.ok then p.errors else p.errors + {name})
  }

  // ------------------------------------------------------- reading flag files

  /** Lines end at the first CR of the rest of the text, if there is one, else at the first LF. */
  function LineEnd(text: string, i: nat): (r: Option<nat>)
    requires i <= |text|
    ensures r.Some? ==> i <= r.value < |text|
  {
    var cr := IndexOf(text, '\r', i);
    if cr.Some? then cr else IndexOf(text, '\n', i)
  }

  /** Does one of the blank-separated patterns of a file-name line match this program? */
  predicate AnyWordMatches(line: string, matches: string -> bool)
    decreases |line|
  {
    var blank := IndexOf(line, ' ', 0);
    if blank.None? then matches(line)
    else matches(line[..blank.value]) || AnyWordMatches(line[blank.value + 1..], matches)
  }

  datatype FileState = FileState(parser: Parser, relevant: bool, inFilenames: bool)

  /** One line of a flag file */
  function ReadLine(st: FileState, line: string, mode: Mode, matches: string -> bool): (r: FileState)
    ensures r.parser.store.Keys == st.parser.store.Keys
  {
    if line == [] || line[0] == '#' then st
    else if line[0] == '-' then
      var st' := st.(inFilenames := false);
      if !st.relevant then st'
      else
        var arg := if |line| > 1 && line[1] == '-' then line[2..] else line[1..];
        match SplitArgument(Types(st.parser.store), arg)
        case Unknown(_) => st'
        case Found(_, _, None) => st'
        case Found(name, _, Some(v)) => st'.(parser := SetOption(st.parser, name, v, mode))
    else
      var relevant := st.inFilenames && st.relevant;
      st.(inFilenames := true, relevant := relevant || AnyWordMatches(line, matches))
  }

  /** `ProcessOptionsFromStringLocked`, from position `i` on */
  function ReadText(st: FileState, text: string, i: nat, mode: Mode, matches: string -> bool): (r: FileState)
    requires i <= |text|
    ensures r.parser.store.Keys == st.parser.store.Keys
    decreases |text| - i
  {
    var start := SkipSpaces(text, i);
    var end := LineEnd(text, start);
    if end.None? then ReadLine(st, text[start..], mode, matches)
    else ReadText(ReadLine(st, text[start..end.value], mode, matches), text, end.value + 1, mode, matches)
  }

  // ---------------------------------------------------------------- printing

  /** `TheseCommandlineFlagsIntoString` for the flags `names[i..]` */
  function PrintFlags(store: Store, names: seq<string>, i: nat): string
    requires i <= |names| && forall k :: 0 <= k < |names| ==> names[k] in store
    decreases |names| - i
  {
    if i == |names| then ""
    else "--" + names[i] + "=" + ToString(store[names[i]].cur) + "\n" + PrintFlags(store, names, i + 1)
  }

  // -------------------------------------------------------------- round trip

  predicate OneLine(s: string) {
    '\r' !in s && '\n' !in s
  }

  /** A name that a `DEFINE_` macro can give a flag, as far as the text format is concerned */
  predicate PlainName(s: string) {
    OneLine(s) && '=' !in s
  }

  /** The value fits on one line of text and the other flag accepts it. */
  predicate Carries(from: FlagState, to: FlagState) {
    Validates(to, from.cur) && (from.cur.Str? ==> OneLine(from.cur.s))
  }

  /** Two registries agree on which flags there are and on their types. */
  ghost predicate SameFlags(from: Store, to: Store) {
    from.Keys == to.Keys && forall n :: n in from ==>
      PlainName(n) && WellTyped(from[n]) && WellTyped(to[n]) && TypeOf(from[n].cur) == TypeOf(to[n].cur)
  }

  /** Besides, the text can carry every value of the first one. */
  ghost predicate Compatible(from: Store, to: Store) {
    SameFlags(from, to) && forall n :: n in from ==> Carries(from[n], to[n])
  }

  /** Flag `n` as it is after reading back the line that `from` printed for it */
  function Restored(from: Store, to: Store, n: string): FlagState
    requires n in from && n in to
  {
    Updated(to[n]).(cur := from[n].cur, modified := true)
  }

  /** The registry after reading back the first `i` names */
  function RestoredUpTo(from: Store, to: Store, names: seq<string>, i: nat): (r: Store)
    requires from.Keys == to.Keys && i <= |names| && forall k :: 0 <= k < |names| ==> names[k] in from
    ensures r.Keys == to.Keys
  {
    if i == 0 then to
    else RestoredUpTo(from, to, names, i - 1)[names[i - 1] := Restored(from, to, names[i - 1])]
  }

  lemma PrintedOnOneLine(v: Value)
    requires v.Str? ==> OneLine(v.s)
    ensures OneLine(ToString(v))
  {
    match v
    case Bool(b) =>
    case Str(_) =>
    case Int32(n) => NumberOnOneLine(n);
    case UInt32(n) => NumberOnOneLine(n);
    case Int64(n) => NumberOnOneLine(n);
    case UInt64(n) => NumberOnOneLine(n);
  }

  lemma NumberOnOneLine(n: int)
    ensures OneLine(SignedDecimal(n))
  {
    PrintedShape(n, if n < 0 then "-" else "", if n < 0 then -n else n);
  }

  /** The line of one flag, without its line end */
  function FlagLine(name: string, v: Value): string {
    "--" + name + "=" + ToString(v)
  }

  lemma SplitPrinted(types: map<string, FlagType>, name: string, value: string)
    requires name in types && '=' !in name
    ensures SplitArgument(types, name + "=" + value) == Found(name, name, Some(value))
  {
    var arg := name + "=" + value;
    var eq := IndexOf(arg, '=', 0);
    assert arg[|name|] == '=';
    assert eq.Some? && eq.value == |name| by {
      assert forall k :: 0 <= k < |name| ==> arg[k] == name[k];
    }
    assert arg[..|name|] == name && arg[|name| + 1..] == value;
  }

  /** Reading one printed line restores one flag. */
  lemma ReadPrintedLine(from: Store, to: Store, p: Parser, name: string, matches: string -> bool)
    requires Compatible(from, to) && name in from && p.store.Keys == to.Keys && Types(p.store) == Types(to)
    requires p.store[name] == to[name] || p.store[name] == Restored(from, to, name)
    ensures ReadLine(FileState(p, true, false), FlagLine(name, from[name].cur), SetValue, matches) ==
      FileState(Parser(p.store[name := Restored(from, to, name)], p.errors), true, false)
  {
    hide ToString, SplitArgument, SetOption, Types, Compatible, Restored, FlagLine;
    var v := from[name].cur;
    LineForm(name, v);
    PlainNames(from, to, name);
    SplitPrinted(Types(p.store), name, ToString(v));
    SetRestores(from, to, p, name);
  }

  lemma PlainNames(from: Store, to: Store, name: string)
    requires Compatible(from, to) && name in from
    ensures name in to && '=' !in name
  {
  }

  lemma LineForm(name: string, v: Value)
    ensures var line := FlagLine(name, v);
      |line| > 1 && line[0] == '-' && line[1] == '-' && line[2..] == name + "=" + ToString(v)
  {
    hide ToString;
  }

  /** Setting a flag to the printed text of a value restores the value. */
  lemma SetRestores(from: Store, to: Store, p: Parser, name: string)
    requires Compatible(from, to) && name in from && p.store.Keys == to.Keys
    requires p.store[name] == to[name] || p.store[name] == Restored(from, to, name)
    ensures SetOption(p, name, ToString(from[name].cur), SetValue) ==
      Parser(p.store[name := Restored(from, to, name)], p.errors)
  {
    hide ParseFrom, ToString, OneLine;
    RoundTrip(from[name].cur);
  }

  lemma {:induction false} RestoredAt(from: Store, to: Store, names: seq<string>, i: nat)
    requires from.Keys == to.Keys && i <= |names| && forall k :: 0 <= k < |names| ==> names[k] in from
    ensures forall n :: n in to ==> RestoredUpTo(from, to, names, i)[n] == if n in names[..i] then Restored(from, to, n) else to[n]
  {
    hide Restored;
    if i > 0 {
      RestoredAt(from, to, names, i - 1);
      assert names[..i] == names[..i - 1] + [names[i - 1]];
    }
  }

  lemma RestoredTypes(from: Store, to: Store, names: seq<string>, i: nat)
    requires from.Keys == to.Keys && i <= |names| && forall k :: 0 <= k < |names| ==> names[k] in from
    ensures Types(RestoredUpTo(from, to, names, i)) == Types(to)
  {
    RestoredAt(from, to, names, i);
    var r := RestoredUpTo(from, to, names, i);
    assert forall n :: n in to ==> r[n].def == to[n].def;
    hide Restored, RestoredUpTo;
  }

  lemma LineHasNoReturn(name: string, v: Value)
    requires '\r' !in name && (v.Str? ==> '\r' !in v.s)
    ensures '\r' !in FlagLine(name, v)
  {
    hide ToString;
    assert '\r' !in ToString(v) by {
      NoReturnPrinted(v);
    }
  }

  lemma NoReturnPrinted(v: Value)
    requires v.Str? ==> '\r' !in v.s
    ensures '\r' !in ToString(v)
  {
    if !v.Str? {
      PrintedOnOneLine(v);
    }
  }

  ghost predicate NoReturns(from: Store) {
    forall n :: n in from ==> '\r' !in n && (from[n].cur.Str? ==> '\r' !in from[n].cur.s)
  }

  lemma CompatibleHasNoReturns(from: Store, to: Store)
    requires Compatible(from, to)
    ensures NoReturns(from)
  {
  }

  lemma {:induction false} NoCarriageReturn(from: Store, names: seq<string>, i: nat)
    requires i <= |names| && forall k :: 0 <= k < |names| ==> names[k] in from
    requires NoReturns(from)
    ensures '\r' !in PrintFlags(from, names, i)
    decreases |names| - i
  {
    hide PrintFlags, FlagLine;
    if i < |names| {
      NoCarriageReturn(from, names, i + 1);
      LineHasNoReturn(names[i], from[names[i]].cur);
      PrintStep(from, names, i);
    } else {
      PrintNothing(from, names);
    }
  }

  lemma PrintNothing(from: Store, names: seq<string>)
    requires forall k :: 0 <= k < |names| ==> names[k] in from
    ensures PrintFlags(from, names, |names|) == ""
  {
  }

  /** The first line of what is left of a text */
  lemma FirstLine(text: string, at: nat, line: string, rest: string)
    requires at <= |text| && text[at..] == line + "\n" + rest
    requires OneLine(line) && '\r' !in rest && line != [] && !IsSpace(line[0])
    ensures SkipSpaces(text, at) == at && LineEnd(text, at) == Some(at + |line|)
    ensures text[at..at + |line|] == line && text[at + |line| + 1..] == rest
  {
    var tail := line + "\n" + rest;
    assert forall k :: at <= k < |text| ==> text[k] == tail[k - at];
    assert '\r' !in tail;
    assert text[at + |line|] == '\n';
    assert text[at..at + |line|] == tail[..|line|] == line;
    assert text[at + |line| + 1..] == tail[|line| + 1..] == rest;
  }

  lemma PrintStep(from: Store, names: seq<string>, i: nat)
    requires i < |names| && forall k :: 0 <= k < |names| ==> names[k] in from
    ensures PrintFlags(from, names, i) ==
      FlagLine(names[i], from[names[i]].cur) + "\n" + PrintFlags(from, names, i + 1)
  {
    hide ToString;
  }

  lemma ReadStep(st: FileState, text: string, at: nat, line: string, mode: Mode, matches: string -> bool)
    requires at <= |text| && SkipSpaces(text, at) == at && LineEnd(text, at) == Some(at + |line|)
    requires text[at..at + |line|] == line
    ensures ReadText(st, text, at, mode, matches) ==
      ReadText(ReadLine(st, line, mode, matches), text, at + |line| + 1, mode, matches)
  {
    hide ReadLine, LineEnd, SkipSpaces;
  }

  lemma ReadEnd(st: FileState, from: Store, names: seq<string>, text: string, at: nat, mode: Mode, matches: string -> bool)
    requires forall k :: 0 <= k < |names| ==> names[k] in from
    requires at <= |text| && text[at..] == PrintFlags(from, names, |names|)
    ensures ReadText(st, text, at, mode, matches) == st
  {
    assert text[at..] == "";
  }

  /** The line of flag `i` stands at position `at` of the file, and the lines of the other flags follow. */
  lemma PrintedLineAt(from: Store, to: Store, names: seq<string>, i: nat, text: string, at: nat)
    requires Compatible(from, to) && i < |names| && forall k :: 0 <= k < |names| ==> names[k] in from
    requires at <= |text| && text[at..] == PrintFlags(from, names, i)
    ensures var line := FlagLine(names[i], from[names[i]].cur);
      line != [] && SkipSpaces(text, at) == at && LineEnd(text, at) == Some(at + |line|) && text[at..at + |line|] == line &&
      text[at + |line| + 1..] == PrintFlags(from, names, i + 1)
  {
    hide FlagLine, LineEnd, SkipSpaces, Compatible, NoReturns, OneLine, IsSpace, PrintFlags;
    PrintStep(from, names, i);
    LineIsPlain(from, to, names[i]);
    CompatibleHasNoReturns(from, to);
    NoCarriageReturn(from, names, i + 1);
    FirstLine(text, at, FlagLine(names[i], from[names[i]].cur), PrintFlags(from, names, i + 1));
  }

  /** Reading the line of flag `i` restores it. */
  lemma LineRestores(from: Store, to: Store, errors: set<string>, names: seq<string>, i: nat, matches: string -> bool)
    requires Compatible(from, to) && i < |names| && forall k :: 0 <= k < |names| ==> names[k] in from
    requires from.Keys == to.Keys
    ensures ReadLine(FileState(Parser(RestoredUpTo(from, to, names, i), errors), true, false),
                     FlagLine(names[i], from[names[i]].cur), SetValue, matches) ==
      FileState(Parser(RestoredUpTo(from, to, names, i + 1), errors), true, false)
  {
    hide ReadLine, FlagLine, Restored, Compatible, Types;
    RestoredAt(from, to, names, i);
    RestoredTypes(from, to, names, i);
    ReadPrintedLine(from, to, Parser(RestoredUpTo(from, to, names, i), errors), names[i], matches);
  }

  /** Reading the printed text from flag `i` on, which stands at position `at` of the file */
  lemma {:induction false} ReadPrinted(from: Store, to: Store, errors: set<string>, names: seq<string>, i: nat,
                                       text: string, at: nat, matches: string -> bool)
    requires Compatible(from, to) && from.Keys == to.Keys
    requires i <= |names| && forall k :: 0 <= k < |names| ==> names[k] in from
    requires at <= |text| && text[at..] == PrintFlags(from, names, i)
    ensures ReadText(FileState(Parser(RestoredUpTo(from, to, names, i), errors), true, false), text, at, SetValue, matches) ==
      FileState(Parser(RestoredUpTo(from, to, names, |names|), errors), true, false)
    decreases |names| - i
  {
    hide ReadLine, FlagLine, LineEnd, SkipSpaces, Compatible, PrintFlags, ReadText, RestoredUpTo;
    var st := FileState(Parser(RestoredUpTo(from, to, names, i), errors), true, false);
    if i == |names| {
      ReadEnd(st, from, names, text, at, SetValue, matches);
    } else {
      var line := FlagLine(names[i], from[names[i]].cur);
      PrintedLineAt(from, to, names, i, text, at);
      LineRestores(from, to, errors, names, i, matches);
      ReadStep(st, text, at, line, SetValue, matches);
      ReadPrinted(from, to, errors, names, i + 1, text, at + |line| + 1, matches);
    }
  }

  lemma LineIsPlain(from: Store, to: Store, name: string)
    requires Compatible(from, to) && name in from
    ensures var line := FlagLine(name, from[name].cur); line != [] && OneLine(line) && !IsSpace(line[0])
  {
    assert Carries(from[name], to[name]);
    PrintedOnOneLine(from[name].cur);
  }

  lemma StartsAsItWas(from: Store, to: Store, names: seq<string>)
    requires Compatible(from, to) && forall k :: 0 <= k < |names| ==> names[k] in from
    ensures from.Keys == to.Keys && RestoredUpTo(from, to, names, 0) == to
  {
  }

  /** Printing all flags of one registry and reading the text into another one that has the same
      flags restores every value, reports no error, and leaves the defaults alone. */
  lemma PrintReadRoundTrip(from: Store, to: Store, names: seq<string>, matches: string -> bool)
    requires Compatible(from, to) && forall k :: 0 <= k < |names| ==> names[k] in from
    requires forall n :: n in from ==> n in names
    ensures var r := ReadText(FileState(Parser(to, {}), true, false), PrintFlags(from, names, 0), 0, SetValue, matches).parser;
      r.errors == {} && r.store.Keys == to.Keys &&
      forall n :: n in to ==> r.store[n].cur == from[n].cur && r.store[n].def == to[n].def && r.store[n].modified
  {
    hide ReadText, PrintFlags, Compatible, RestoredUpTo;
    var text := PrintFlags(from, names, 0);
    assert text[0..] == text;
    StartsAsItWas(from, to, names);
    ReadPrinted(from, to, {}, names, 0, text, 0, matches);
    RestoredAt(from, to, names, |names|);
    assert names[..|names|] == names;
  }

  // ------------------------------------- what happens to CR and LF in strings

  /** A line holds no CR, and no LF either when the text has no CR. */
  predicate CutAt(text: string, c: char) {
    c == '\r' || (c == '\n' && '\r' !in text)
  }

  lemma LineLacks(text: string, start: nat, c: char)
    requires start <= |text| && CutAt(text, c)
    ensures var end := LineEnd(text, start);
      c !in (if end.Some? then text[start..end.value] else text[start..])
  {
  }

  /** The value that a line gives to a string flag is a piece of the line. */
  lemma ValueIsPiece(types: map<string, FlagType>, arg: string, c: char)
    requires c !in arg
    ensures var r := SplitArgument(types, arg);
      r.Found? && r.value.Some? && types[r.name].StringType? ==> c !in r.value.value
  {
  }

  ghost predicate Misses(st: FileState, name: string, s: string) {
    name in st.parser.store && TypeOf(st.parser.store[name].def) == StringType && st.parser.store[name].cur != Str(s)
  }

  lemma ReadLineMisses(st: FileState, line: string, name: string, s: string, c: char, matches: string -> bool)
    requires Misses(st, name, s) && c in s && c !in line
    ensures Misses(ReadLine(st, line, SetValue, matches), name, s)
  {
    hide SplitArgument, SetFlag, AnyWordMatches;
    if line != [] && line[0] == '-' && st.relevant {
      var arg := if |line| > 1 && line[1] == '-' then line[2..] else line[1..];
      ValueIsPiece(Types(st.parser.store), arg, c);
      var split := SplitArgument(Types(st.parser.store), arg);
      if split.Found? && split.value.Some? {
        SettingMisses(st.parser.store[split.name], split.value.value, s);
      }
    }
  }

  /** Setting a flag, even to a different text, does not make it hold `s`. */
  lemma SettingMisses(st: FlagState, v: string, s: string)
    ensures TypeOf(SetFlag(st, v, SetValue).state.def) == TypeOf(st.def)
    ensures TypeOf(st.def) == StringType && st.cur != Str(s) && v != s ==> SetFlag(st, v, SetValue).state.cur != Str(s)
  {
  }

  /** A string with a character at which lines are cut is never read back. */
  lemma {:induction false} ReadTextMisses(st: FileState, text: string, i: nat, name: string, s: string, c: char,
                                          matches: string -> bool)
    requires i <= |text| && Misses(st, name, s) && c in s && CutAt(text, c)
    ensures Misses(ReadText(st, text, i, SetValue, matches), name, s)
    decreases |text| - i
  {
    hide ReadLine, Misses, LineEnd, CutAt;
    var start := SkipSpaces(text, i);
    var end := LineEnd(text, start);
    LineLacks(text, start, c);
    var line := if end.Some? then text[start..end.value] else text[start..];
    ReadLineMisses(st, line, name, s, c, matches);
    if end.Some? {
      ReadTextMisses(ReadLine(st, line, SetValue, matches), text, end.value + 1, name, s, c, matches);
    }
  }

  // ------------------------------------- when the whole registry survives

  /** The registry after reading the printed text of another one */
  function ReadBack(from: Store, to: Store, names: seq<string>, matches: string -> bool): (r: Store)
    requires forall k :: 0 <= k < |names| ==> names[k] in from
    ensures r.Keys == to.Keys
  {
    ReadText(FileState(Parser(to, {}), true, false), PrintFlags(from, names, 0), 0, SetValue, matches).parser.store
  }

  /** The flag does not hold `v`, and its validator does not accept `v`. */
  ghost predicate Refuses(st: FileState, name: string, v: Value) {
    name in st.parser.store && !Validates(st.parser.store[name], v) && st.parser.store[name].cur != v
  }

  lemma SettingRefuses(st: FlagState, spec: string, v: Value)
    requires !Validates(st, v) && st.cur != v
    ensures var r := SetFlag(st, spec, SetValue).state; !Validates(r, v) && r.cur != v
  {
    hide ParseFrom;
    assert Updated(st).validator == st.validator;
  }

  lemma ReadLineRefuses(st: FileState, line: string, name: string, v: Value, matches: string -> bool)
    requires Refuses(st, name, v)
    ensures Refuses(ReadLine(st, line, SetValue, matches), name, v)
  {
    hide SplitArgument, SetFlag, AnyWordMatches, Validates;
    if line != [] && line[0] == '-' && st.relevant {
      SettingRefuses(st.parser.store[name], "", v);
      var arg := if |line| > 1 && line[1] == '-' then line[2..] else line[1..];
      var split := SplitArgument(Types(st.parser.store), arg);
      if split.Found? && split.value.Some? && split.name == name {
        SettingRefuses(st.parser.store[name], split.value.value, v);
      }
    }
  }

  /** A value that the validator does not accept is never read back. */
  lemma {:induction false} ReadTextRefuses(st: FileState, text: string, i: nat, name: string, v: Value, matches: string -> bool)
    requires i <= |text| && Refuses(st, name, v)
    ensures Refuses(ReadText(st, text, i, SetValue, matches), name, v)
    decreases |text| - i
  {
    hide ReadLine, Refuses, LineEnd;
    var start := SkipSpaces(text, i);
    var end := LineEnd(text, start);
    var line := if end.Some? then text[start..end.value] else text[start..];
    ReadLineRefuses(st, line, name, v, matches);
    if end.Some? {
      ReadTextRefuses(ReadLine(st, line, SetValue, matches), text, end.value + 1, name, v, matches);
    }
  }

  /** The other registry does not happen to hold a value that the text cannot carry. */
  ghost predicate NothingHeld(from: Store, to: Store)
    requires from.Keys == to.Keys
  {
    forall n :: n in from && !Carries(from[n], to[n]) ==> to[n].cur != from[n].cur
  }

  lemma StringIsLost(from: Store, to: Store, names: seq<string>, n: string, c: char, matches: string -> bool)
    requires SameFlags(from, to) && forall k :: 0 <= k < |names| ==> names[k] in from
    requires n in from && from[n].cur.Str? && to[n].cur != from[n].cur
    requires c in from[n].cur.s && CutAt(PrintFlags(from, names, 0), c)
    ensures ReadBack(from, to, names, matches)[n].cur != from[n].cur
  {
    hide ReadText, PrintFlags, CutAt;
    var st := FileState(Parser(to, {}), true, false);
    ReadTextMisses(st, PrintFlags(from, names, 0), 0, n, from[n].cur.s, c, matches);
  }

  /** If the text cannot carry some value, some value is lost. */
  lemma SomethingIsLost(from: Store, to: Store, names: seq<string>, n: string, matches: string -> bool)
    requires SameFlags(from, to) && NothingHeld(from, to) && forall k :: 0 <= k < |names| ==> names[k] in from
    requires n in from && !Carries(from[n], to[n])
    ensures exists m :: m in from && ReadBack(from, to, names, matches)[m].cur != from[m].cur
  {
    hide ReadText, PrintFlags, WellTyped, PlainName;
    var text := PrintFlags(from, names, 0);
    if !Validates(to[n], from[n].cur) {
      ReadTextRefuses(FileState(Parser(to, {}), true, false), text, 0, n, from[n].cur, matches);
      assert ReadBack(from, to, names, matches)[n].cur != from[n].cur;
    } else if m :| m in from && from[m].cur.Str? && '\r' in from[m].cur.s {
      StringIsLost(from, to, names, m, '\r', matches);
    } else {
      NamesHaveNoReturns(from, to);
      NoCarriageReturn(from, names, 0);
      StringIsLost(from, to, names, n, '\n', matches);
    }
  }

  lemma NamesHaveNoReturns(from: Store, to: Store)
    requires SameFlags(from, to)
    ensures forall n :: n in from ==> '\r' !in n
  {
  }

  /** Printing all flags of one registry and reading the text into another one with the same flags
      restores every value if and only if no string has a CR or LF and every value passes the
      other registry's validator. */
  lemma PrintReadExact(from: Store, to: Store, names: seq<string>, matches: string -> bool)
    requires SameFlags(from, to) && NothingHeld(from, to)
    requires (forall k :: 0 <= k < |names| ==> names[k] in from) && forall n :: n in from ==> n in names
    ensures (forall n :: n in from ==> ReadBack(from, to, names, matches)[n].cur == from[n].cur) <==>
            (forall n :: n in from ==> Carries(from[n], to[n]))
  {
    hide ReadText, PrintFlags, WellTyped, PlainName, Carries;
    if n :| n in from && !Carries(from[n], to[n]) {
      SomethingIsLost(from, to, names, n, matches);
    } else {
      PrintReadRoundTrip(from, to, names, matches);
    }
  }

  /** The first cut of `head + s + LF` comes after `head`. */
  lemma FirstCut(head: string, s: string, c: char) returns (v: string)
    requires OneLine(head) && head != [] && !IsSpace(head[0]) && c in s && CutAt(head + s + "\n", c)
    ensures var text := head + s + "\n";
      SkipSpaces(text, 0) == 0 && LineEnd(text, 0).Some? && text[..LineEnd(text, 0).value] == head + v && c !in v
  {
    var text := head + s + "\n";
    assert forall k :: 0 <= k < |head| ==> text[k] == head[k] && text[k] != '\r' && text[k] != '\n';
    var at :| 0 <= at < |s| && s[at] == c;
    assert text[|head| + at] == c;
    var end := LineEnd(text, 0);
    assert end.Some? && |head| <= end.value;
    LineLacks(text, 0, c);
    assert text[..end.value] == text[0..end.value];
    v := text[|head|..end.value];
    assert text[..end.value] == head + v;
  }

  lemma LineSets(p: Parser, name: string, v: string, matches: string -> bool)
    requires '=' !in name && name in p.store
    ensures ReadLine(FileState(p, true, false), "--" + name + "=" + v, SetValue, matches).parser == SetOption(p, name, v, SetValue)
  {
    hide SplitArgument, SetOption;
    var line := "--" + name + "=" + v;
    assert line[0] == '-' && line[1] == '-' && line[2..] == name + "=" + v;
    SplitPrinted(Types(p.store), name, v);
  }

  lemma LineSetsString(name: string, v: string, to: Store, matches: string -> bool)
    requires '=' !in name && name in to && TypeOf(to[name].def) == StringType && to[name].validator == None
    ensures var r := ReadLine(FileState(Parser(to, {}), true, false), "--" + name + "=" + v, SetValue, matches);
      name in r.parser.store && TypeOf(r.parser.store[name].def) == StringType && r.parser.store[name].cur == Str(v)
  {
    hide ReadLine;
    LineSets(Parser(to, {}), name, v, matches);
  }

  /** The first line of a printed string flag sets the flag to a piece of the value. */
  lemma FirstLineMisses(name: string, s: string, to: Store, c: char, matches: string -> bool)
    requires PlainName(name) && name in to && TypeOf(to[name].def) == StringType && to[name].validator == None
    requires c in s && CutAt("--" + name + "=" + s + "\n", c)
    ensures var text := "--" + name + "=" + s + "\n";
      SkipSpaces(text, 0) == 0 && LineEnd(text, 0).Some? &&
      Misses(ReadLine(FileState(Parser(to, {}), true, false), text[..LineEnd(text, 0).value], SetValue, matches), name, s)
  {
    hide LineEnd, SkipSpaces, CutAt, ReadLine;
    var v := FirstCut("--" + name + "=", s, c);
    assert c in s && c !in v;
    LineSetsString(name, v, to, matches);
  }

  // Where the round trip fails, by example.

  function StringFlag(s: string): FlagState {
    FlagState(false, Str(""), Str(s), None)
  }

  /** A text cut at a CR into one line and the beginning of a list of file names */
  lemma CutInTwo(st: FileState, first: string, rest: string, matches: string -> bool)
    requires '\r' !in first && first != [] && !IsSpace(first[0])
    requires OneLine(rest) && rest != [] && !IsSpace(rest[0]) && rest[0] != '-'
    ensures ReadText(st, first + "\r" + rest + "\n", 0, SetValue, matches).parser == ReadLine(st, first, SetValue, matches).parser
  {
    var text := first + "\r" + rest + "\n";
    var at := |first| + 1;
    assert text[|first|] == '\r' && text[0..|first|] == first && text[at..] == rest + "\n" + "";
    assert forall k :: 0 <= k < |first| ==> text[k] == first[k];
    assert LineEnd(text, 0) == Some(|first|);
    var st' := ReadLine(st, first, SetValue, matches);
    FirstLine(text, at, rest, "");
    hide ReadLine, ReadText, LineEnd, SkipSpaces;
    ReadStep(st, text, 0, first, SetValue, matches);
    ReadStep(st', text, at, rest, SetValue, matches);
    NameLine(st', rest, matches);
    NothingLeft(ReadLine(st', rest, SetValue, matches), text, matches);
  }

  lemma NameLine(st: FileState, line: string, matches: string -> bool)
    requires line != [] && line[0] != '-'
    ensures ReadLine(st, line, SetValue, matches).parser == st.parser
  {
  }

  lemma NothingLeft(st: FileState, text: string, matches: string -> bool)
    ensures ReadText(st, text, |text|, SetValue, matches) == st
  {
    assert text[|text|..] == "";
  }

  lemma PrintOne(from: Store, a: string, v: string)
    requires a in from && from[a].cur == Str(v)
    ensures PrintFlags(from, [a], 0) == "--" + a + "=" + v + "\n"
  {
    PrintStep(from, [a], 0);
    PrintNothing(from, [a]);
    assert FlagLine(a, from[a].cur) + "\n" + "" == "--" + a + "=" + v + "\n";
  }

  lemma PrintTwo(from: Store, a: string, v: string, b: string, w: string)
    requires a in from && b in from && from[a].cur == Str(v) && from[b].cur == Str(w)
    ensures PrintFlags(from, [a, b], 0) == "--" + a + "=" + v + "\n" + ("--" + b + "=" + w + "\n")
  {
    PrintStep(from, [a, b], 0);
    PrintStep(from, [a, b], 1);
    PrintNothing(from, [a, b]);
    assert FlagLine(b, from[b].cur) + "\n" + "" == "--" + b + "=" + w + "\n";
  }

  lemma SetString(p: Parser, name: string, v: string)
    requires name in p.store && TypeOf(p.store[name].def) == StringType && p.store[name].validator == None
    ensures var r := SetOption(p, name, v, SetValue).store;
      r.Keys == p.store.Keys && r[name].cur == Str(v) && forall n :: n in r && n != name ==> r[n] == p.store[n]
  {
  }

  /** A line runs to the first CR of the whole rest of the text, so a CR in one flag also spoils a
      flag printed before it: `a` is read as everything up to the CR, and `b` is not read at all. */
  lemma ReturnSpoilsBoth(from: Store, to: Store, a: string, v: string, b: string, p: string, q: string, matches: string -> bool)
    requires SameFlags(from, to) && a in from && b in from && a != b && to[a].validator == None
    requires from[a].cur == Str(v) && from[b].cur == Str(p + "\r" + q)
    requires OneLine(v) && '\r' !in p && OneLine(q) && q != [] && !IsSpace(q[0]) && q[0] != '-'
    ensures var r := ReadBack(from, to, [a, b], matches);
      r[a].cur == Str(v + "\n--" + b + "=" + p) && r[b] == to[b]
  {
    var taken := v + "\n--" + b + "=" + p;
    var line := "--" + a + "=" + taken;
    PrintTwo(from, a, v, b, p + "\r" + q);
    SamePieces(a, v, b, p, q);
    assert '\r' !in line && line[0] == '-';
    hide ReadText, PrintFlags, ReadLine, SetOption, OneLine;
    LineSets(Parser(to, {}), a, taken, matches);
    SetString(Parser(to, {}), a, taken);
    CutInTwo(FileState(Parser(to, {}), true, false), line, q, matches);
  }

  lemma SamePieces(a: string, v: string, b: string, p: string, q: string)
    ensures "--" + a + "=" + v + "\n" + ("--" + b + "=" + (p + "\r" + q) + "\n") ==
      "--" + a + "=" + (v + "\n--" + b + "=" + p) + "\r" + q + "\n"
  {
  }

  /** For instance, the flag `a`, whose value the text can carry, does not survive here. */
  lemma ReturnSpoilsOthers(matches: string -> bool)
    ensures var from := map["a" := StringFlag("x"), "b" := StringFlag("p\rq")];
      var to := map["a" := StringFlag(""), "b" := StringFlag("")];
      SameFlags(from, to) && NothingHeld(from, to) && Carries(from["a"], to["a"]) &&
      ReadBack(from, to, ["a", "b"], matches)["a"].cur != from["a"].cur
  {
    var from := map["a" := StringFlag("x"), "b" := StringFlag("p\rq")];
    var to := map["a" := StringFlag(""), "b" := StringFlag("")];
    assert "p" + "\r" + "q" == "p\rq";
    hide ReadText, PrintFlags;
    ReturnSpoilsBoth(from, to, "a", "x", "b", "p", "q", matches);
    assert |"x" + "\n--" + "b" + "=" + "p"| > 1;
  }

  /** A value that the other registry already holds can survive although the text cannot carry it:
      here the validator refuses the piece that is read. */
  lemma HeldValueSurvives(matches: string -> bool)
    ensures var to := map["a" := StringFlag("p\rq").(validator := Some(v => v == Str("p\rq")))];
      SameFlags(to, to) && !Carries(to["a"], to["a"]) && ReadBack(to, to, ["a"], matches)["a"].cur == to["a"].cur
  {
    var to := map["a" := StringFlag("p\rq").(validator := Some(v => v == Str("p\rq")))];
    PieceRefused(to, "a", "p", "q", matches);
    assert "p" + "\r" + "q" == "p\rq";
    hide ReadText, PrintFlags;
  }

  lemma PieceRefused(to: Store, a: string, p: string, q: string, matches: string -> bool)
    requires SameFlags(to, to) && a in to && to[a].cur == Str(p + "\r" + q) && !Validates(to[a], Str(p))
    requires '\r' !in p && OneLine(q) && q != [] && !IsSpace(q[0]) && q[0] != '-'
    ensures ReadBack(to, to, [a], matches)[a].cur == to[a].cur
  {
    var line := "--" + a + "=" + p;
    PrintOne(to, a, p + "\r" + q);
    assert "--" + a + "=" + (p + "\r" + q) + "\n" == line + "\r" + q + "\n";
    assert '\r' !in line && line[0] == '-';
    PieceNotSet(Parser(to, {}), a, p);
    hide ReadText, PrintFlags, ReadLine, OneLine, SetOption;
    LineSets(Parser(to, {}), a, p, matches);
    CutInTwo(FileState(Parser(to, {}), true, false), line, q, matches);
  }

  lemma PieceNotSet(p: Parser, name: string, v: string)
    requires name in p.store && TypeOf(p.store[name].def) == StringType && !Validates(p.store[name], Str(v))
    ensures SetOption(p, name, v, SetValue).store[name].cur == p.store[name].cur
  {
  }

  function StringLine(name: string, s: string): string {
    "--" + name + "=" + ToString(Str(s)) + "\n"
  }

  lemma OneLineSurvives(name: string, s: string, to: Store, matches: string -> bool)
    requires PlainName(name) && to.Keys == {name} && WellTyped(to[name]) && OneLine(s)
    requires TypeOf(to[name].def) == StringType && to[name].validator == None
    ensures ReadText(FileState(Parser(to, {}), true, false), StringLine(name, s), 0, SetValue, matches).parser.store[name].cur == Str(s)
  {
    var from := to[name := to[name].(cur := Str(s))];
    assert PrintFlags(from, [name], 1) == "";
    assert PrintFlags(from, [name], 0) == StringLine(name, s);
    hide PrintFlags, ReadText, StringLine;
    PrintReadRoundTrip(from, to, [name], matches);
  }

  lemma CutLineIsLost(name: string, s: string, to: Store, matches: string -> bool)
    requires PlainName(name) && to.Keys == {name} && !OneLine(s)
    requires TypeOf(to[name].def) == StringType && to[name].validator == None
    ensures ReadText(FileState(Parser(to, {}), true, false), StringLine(name, s), 0, SetValue, matches).parser.store[name].cur != Str(s)
  {
    hide ReadLine, LineEnd, SkipSpaces;
    var text := StringLine(name, s);
    var st := FileState(Parser(to, {}), true, false);
    var c := if '\r' in s then '\r' else '\n';
    FirstLineMisses(name, s, to, c, matches);
    var end := LineEnd(text, 0).value;
    ReadTextMisses(ReadLine(st, text[..end], SetValue, matches), text, end + 1, name, s, c, matches);
    assert text[0..end] == text[..end];
  }

  /** A string flag without validator survives printing and reading if and only if its value has
      neither CR nor LF. */
  lemma StringSurvivesIffOneLine(name: string, s: string, to: Store, matches: string -> bool)
    requires PlainName(name) && to.Keys == {name} && WellTyped(to[name])
    requires TypeOf(to[name].def) == StringType && to[name].validator == None
    ensures ReadText(FileState(Parser(to, {}), true, false), StringLine(name, s), 0, SetValue, matches).parser.store[name].cur == Str(s)
      <==> OneLine(s)
  {
    hide ReadText, StringLine;
    if OneLine(s) {
      OneLineSurvives(name, s, to, matches);
    } else {
      CutLineIsLost(name, s, to, matches);
    }
  }
}
