/** What a text, or a sequence of words, does to the flags, setting by setting: which flag is given
    which text, which settings are refused, and what every flag holds in the end. */
module FlagSettings {
  import opened FlagValues
  import opened FlagStates
  import opened FlagText
  import opened Basics

  /** A flag is given a text. */
  datatype Setting = Setting(name: string, text: string)

  ghost predicate Registered(store: Store, ss: seq<Setting>) {
    forall k :: 0 <= k < |ss| ==> ss[k].name in store
  }

  // ----------------------------------------------------- what a flag word names

  /** A flag word: one dash or two, and then `a` */
  ghost predicate Dashed(w: string, a: string) {
    a != "" && (w == "--" + a || (w == "-" + a && a[0] != '-'))
  }

  /** A name, perhaps with a value */
  function Spelled(key: string, v: Option<string>): string {
    match v
    case None => key
    case Some(value) => key + "=" + value
  }

  lemma KeyAndValue(key: string, v: Option<string>)
    requires '=' !in key
    ensures var a := Spelled(key, v);
      var eq := IndexOf(a, '=', 0);
      if v.None? then eq.None? else eq == Some(|key|) && a[..|key|] == key && a[|key| + 1..] == v.value
  {
    var a := Spelled(key, v);
    assert forall k :: 0 <= k < |key| ==> a[k] == key[k];
    if v.Some? {
      assert a[|key|] == '=';
    }
  }

  /** The name after `no`, if the word could negate a flag */
  function Negated(key: string): (r: Option<string>)
    ensures r.Some? <==> |key| >= 2 && key[0] == 'n' && key[1] == 'o'
    ensures r.Some? ==> key == "no" + r.value
  {
    if |key| >= 2 && key[0] == 'n' && key[1] == 'o' then Some(key[2..]) else None
  }

  /** A name and perhaps a value may set a flag, want the next word for one, or do nothing. */
  datatype Meaning = Nothing | Sets(name: string, text: string) | Wants(name: string)

  /** A registered name sets its flag to the value, if there is one; without one a bool becomes true, and any
      other flag wants a value. A name that is not registered sets a bool to false if it is `no`
      and the name of the bool. */
  function Names(types: map<string, FlagType>, key: string, v: Option<string>): Meaning {
    var flag := FindFlag(types.Keys, key);
    var negated := if Negated(key).Some? then FindFlag(types.Keys, Negated(key).value) else None;
    if flag.Some? then
      if v.Some? then Sets(flag.value, v.value)
      else if types[flag.value].BoolType? then Sets(flag.value, "1")
      else Wants(flag.value)
    else if negated.Some? && types[negated.value].BoolType? then Sets(negated.value, "0")
    else Nothing
  }

  lemma SplitNames(types: map<string, FlagType>, key: string, v: Option<string>)
    requires '=' !in key
    ensures Names(types, key, v) ==
      match SplitArgument(types, Spelled(key, v))
      case Unknown(_) => Nothing
      case Found(name, _, Some(text)) => Sets(name, text)
      case Found(name, _, None) => Wants(name)
    ensures SplitArgument(types, Spelled(key, v)).Unknown? || Names(types, key, v).Wants? ==>
      SplitArgument(types, Spelled(key, v)).key == key
  {
    hide FindFlag, IndexOf;
    KeyAndValue(key, v);
  }

  // --------------------------------------------------------- one by one

  /** The settings, one after the other */
  function Apply(p: Parser, ss: seq<Setting>): (r: Parser)
    requires Registered(p.store, ss)
    ensures r.store.Keys == p.store.Keys
  {
    if ss == [] then p
    else
      var q := Apply(p, ss[..|ss| - 1]);
      SetOption(q, ss[|ss| - 1].name, ss[|ss| - 1].text, SetValue)
  }

  // ------------------------------------------------ what settings amount to

  /** Setting `k` gives flag `n` a text that it does not accept. */
  ghost predicate Refused(store: Store, ss: seq<Setting>, k: int, n: string)
    requires n in store
  {
    0 <= k < |ss| && ss[k].name == n && TryParse(store[n], ss[k].text).None?
  }

  /** Setting `k` is the last one of flag `n` that it accepts. */
  ghost predicate LastAccepted(store: Store, ss: seq<Setting>, k: int, n: string)
    requires n in store
  {
    0 <= k < |ss| && ss[k].name == n && TryParse(store[n], ss[k].text).Some? &&
    forall j :: k < j < |ss| && ss[j].name == n ==> Refused(store, ss, j, n)
  }

  /** Every flag ends with the value of the last setting that it accepts, and one without such a
      setting keeps its value. Defaults and validators stay. */
  ghost predicate Ends(store: Store, ss: seq<Setting>, n: string, st: FlagState)
    requires n in store
  {
    st.def == store[n].def && st.validator == store[n].validator &&
    (forall k :: LastAccepted(store, ss, k, n) ==> st.cur == TryParse(store[n], ss[k].text).value && st.modified) &&
    ((forall k :: !LastAccepted(store, ss, k, n)) ==> st.cur == store[n].cur) &&
    ((forall k :: 0 <= k < |ss| ==> ss[k].name != n) ==> st == store[n])
  }

  lemma {:induction false} ApplyEnds(p: Parser, ss: seq<Setting>, n: string)
    requires Registered(p.store, ss) && n in p.store
    ensures Ends(p.store, ss, n, Apply(p, ss).store[n])
  {
    hide ParseFrom, Apply;
    ApplyStep(p, ss);
    if ss != [] {
      var front, last := ss[..|ss| - 1], ss[|ss| - 1];
      ApplyEnds(p, front, n);
      assert ss == front + [last];
      EndsStep(p.store, front, last, n, Apply(p, front).store[n], Apply(p, ss).store[n]);
    }
  }

  lemma EndsStep(store: Store, front: seq<Setting>, last: Setting, n: string, before: FlagState, after: FlagState)
    requires n in store && Ends(store, front, n, before)
    requires if last.name == n then after == SetFlag(before, last.text, SetValue).state else after == before
    ensures Ends(store, front + [last], n, after)
  {
    hide TryParse;
    var ss := front + [last];
    assert ss[|front|] == last;
    LastOfMore(store, front, last, n);
    AcceptedAlike(store[n], Updated(before), last.text);
    if last.name == n && TryParse(store[n], last.text).Some? {
      assert LastAccepted(store, ss, |front|, n);
    } else {
      assert forall k :: LastAccepted(store, ss, k, n) <==> LastAccepted(store, front, k, n);
      if forall k :: 0 <= k < |ss| ==> ss[k].name != n {
        forall k | 0 <= k < |front| ensures front[k].name != n {
          assert ss[k] == front[k];
        }
      }
    }
  }

  lemma ApplyStep(p: Parser, ss: seq<Setting>)
    requires Registered(p.store, ss)
    ensures ss == [] ==> Apply(p, ss) == p
    ensures ss != [] ==>
      var q, s := Apply(p, ss[..|ss| - 1]), ss[|ss| - 1];
      s.name in q.store && Apply(p, ss) == SetOption(q, s.name, s.text, SetValue)
  {
  }

  /** Whether a text is accepted depends on what no setting changes. */
  lemma AcceptedAlike(a: FlagState, b: FlagState, text: string)
    requires a.def == b.def && a.validator == b.validator
    ensures TryParse(a, text) == TryParse(b, text)
  {
  }

  lemma LastOfMore(store: Store, front: seq<Setting>, last: Setting, n: string)
    requires n in store
    ensures forall k :: LastAccepted(store, front + [last], k, n) <==>
      if last.name == n && TryParse(store[n], last.text).Some? then k == |front| else LastAccepted(store, front, k, n)
  {
    hide TryParse;
    var ss := front + [last];
    assert ss[|front|] == last;
    forall k
      ensures LastAccepted(store, ss, k, n) <==>
        if last.name == n && TryParse(store[n], last.text).Some? then k == |front| else LastAccepted(store, front, k, n)
    {
      if 0 <= k < |front| {
        assert ss[k] == front[k];
        if last.name == n && TryParse(store[n], last.text).Some? {
          assert !Refused(store, ss, |front|, n);
        } else if LastAccepted(store, front, k, n) {
          forall j | k < j < |ss| && ss[j].name == n ensures Refused(store, ss, j, n) {
            if j < |front| {
              assert Refused(store, front, j, n);
            }
          }
        } else if LastAccepted(store, ss, k, n) {
          forall j | k < j < |front| && front[j].name == n ensures Refused(store, front, j, n) {
            assert Refused(store, ss, j, n);
          }
        }
      }
    }
  }

  ghost predicate RefusesSome(store: Store, ss: seq<Setting>, n: string)
    requires n in store
  {
    exists k :: Refused(store, ss, k, n)
  }

  lemma RefusedOfMore(store: Store, front: seq<Setting>, last: Setting, n: string)
    requires n in store
    ensures RefusesSome(store, front + [last], n) <==>
      RefusesSome(store, front, n) || (last.name == n && TryParse(store[n], last.text).None?)
  {
    hide TryParse;
    var ss := front + [last];
    assert ss[|front|] == last;
    if RefusesSome(store, front, n) {
      var k :| Refused(store, front, k, n);
      assert Refused(store, ss, k, n);
    }
    if last.name == n && TryParse(store[n], last.text).None? {
      assert Refused(store, ss, |front|, n);
    }
    if RefusesSome(store, ss, n) {
      var k :| Refused(store, ss, k, n);
      assert k < |front| ==> Refused(store, front, k, n);
    }
  }

  lemma SetErrors(p: Parser, name: string, text: string)
    requires name in p.store
    ensures SetOption(p, name, text, SetValue).errors ==
      if TryParse(p.store[name], text).None? then p.errors + {name} else p.errors
  {
    hide TryParse;
    AcceptedAlike(p.store[name], Updated(p.store[name]), text);
  }

  /** The errors that settings add are the names of the flags that refuse one. */
  lemma {:induction false} ApplyErrors(p: Parser, ss: seq<Setting>)
    requires Registered(p.store, ss)
    ensures forall n :: n in Apply(p, ss).errors <==> n in p.errors || (n in p.store && RefusesSome(p.store, ss, n))
  {
    hide TryParse, Apply, SetOption, RefusesSome;
    ApplyStep(p, ss);
    if ss == [] {
      forall n | n in p.store ensures !RefusesSome(p.store, ss, n) {
        NoneRefused(p.store, n);
      }
    } else {
      var front, last := ss[..|ss| - 1], ss[|ss| - 1];
      ApplyErrors(p, front);
      var q := Apply(p, front);
      ApplyEnds(p, front, last.name);
      AcceptedAlike(p.store[last.name], q.store[last.name], last.text);
      SetErrors(q, last.name, last.text);
      assert ss == front + [last];
      forall n | n in p.store
        ensures RefusesSome(p.store, ss, n) <==>
          RefusesSome(p.store, front, n) || (last.name == n && TryParse(p.store[n], last.text).None?)
      {
        RefusedOfMore(p.store, front, last, n);
      }
    }
  }

  lemma NoneRefused(store: Store, n: string)
    requires n in store
    ensures !RefusesSome(store, [], n)
  {
  }

  // --------------------------------------------------- the lines of a text

  predicate IsFlagLine(line: string) {
    line != [] && line[0] == '-'
  }

  /** A line of program names: neither empty nor a comment nor a flag */
  predicate IsNames(line: string) {
    line != [] && line[0] != '-' && line[0] != '#'
  }

  /** The lines of a text, without the white space before them */
  function LinesOf(text: string, i: nat): (lines: seq<string>)
    requires i <= |text|
    decreases |text| - i
  {
    var start := SkipSpaces(text, i);
    var end := LineEnd(text, start);
    if end.None? then [text[start..]] else [text[start..end.value]] + LinesOf(text, end.value + 1)
  }

  /** The state after the first `k` lines */
  function ReadLines(st: FileState, lines: seq<string>, k: nat, mode: Mode, matches: string -> bool): (r: FileState)
    requires k <= |lines|
    ensures r.parser.store.Keys == st.parser.store.Keys
  {
    if k == 0 then st else ReadLine(ReadLines(st, lines, k - 1, mode, matches), lines[k - 1], mode, matches)
  }

  lemma {:induction false} ReadLinesTail(st: FileState, line: string, lines: seq<string>, k: nat, mode: Mode, matches: string -> bool)
    requires k <= |lines|
    ensures ReadLines(st, [line] + lines, k + 1, mode, matches) == ReadLines(ReadLine(st, line, mode, matches), lines, k, mode, matches)
  {
    hide ReadLine;
    if k > 0 {
      ReadLinesTail(st, line, lines, k - 1, mode, matches);
    } else {
      assert ReadLines(st, [line] + lines, 0, mode, matches) == st;
    }
  }

  /** Reading a text is reading its lines. */
  lemma {:induction false} TextIsLines(st: FileState, text: string, i: nat, mode: Mode, matches: string -> bool)
    requires i <= |text|
    ensures var lines := LinesOf(text, i); ReadText(st, text, i, mode, matches) == ReadLines(st, lines, |lines|, mode, matches)
    decreases |text| - i
  {
    hide ReadLine, SkipSpaces, LineEnd;
    var start := SkipSpaces(text, i);
    var end := LineEnd(text, start);
    var none: seq<string> := [];
    if end.None? {
      var line := text[start..];
      assert [line] + none == [line];
      ReadLinesTail(st, line, none, 0, mode, matches);
    } else {
      var line := text[start..end.value];
      var rest := LinesOf(text, end.value + 1);
      TextIsLines(ReadLine(st, line, mode, matches), text, end.value + 1, mode, matches);
      ReadLinesTail(st, line, rest, |rest|, mode, matches);
    }
  }

  // ------------------------------------------------- which names match

  /** The characters `i .. j` are one of the words between the blanks of a line. */
  ghost predicate IsWord(line: string, i: int, j: int) {
    0 <= i <= j <= |line| && (i == 0 || line[i - 1] == ' ') && (j == |line| || line[j] == ' ') &&
    forall k :: i <= k < j ==> line[k] != ' '
  }

  /** A line of names matches if and only if one of its words does. */
  lemma {:induction false} WordsMatched(line: string, matches: string -> bool)
    ensures AnyWordMatches(line, matches) <==> exists i, j :: IsWord(line, i, j) && matches(line[i..j])
    decreases |line|
  {
    hide IndexOf;
    var blank := IndexOf(line, ' ', 0);
    var first := if blank.None? then |line| else blank.value;
    assert line[0..|line|] == line && line[0..first] == line[..first];
    assert IsWord(line, 0, first);
    if blank.None? {
      forall i, j | IsWord(line, i, j) ensures i == 0 && j == |line| {
      }
    } else {
      var rest := line[first + 1..];
      WordsMatched(rest, matches);
      forall i, j | IsWord(line, i, j) && i > 0
        ensures i > first && IsWord(rest, i - first - 1, j - first - 1) && rest[i - first - 1..j - first - 1] == line[i..j]
      {
      }
      forall i, j | IsWord(rest, i, j)
        ensures IsWord(line, i + first + 1, j + first + 1) && line[i + first + 1..j + first + 1] == rest[i..j]
      {
      }
      forall j | IsWord(line, 0, j) ensures j == first {
      }
    }
  }

  // ----------------------------------------------- which lines are relevant

  /** Line `i` is of names, and no flag line comes between it and line `k`. */
  ghost predicate NamesRunTo(lines: seq<string>, i: int, k: int) {
    0 <= i < k <= |lines| && IsNames(lines[i]) && forall j :: i < j < k ==> !IsFlagLine(lines[j])
  }

  /** The names in line `i` govern line `k`: names that follow belong to the same section. */
  ghost predicate Governs(lines: seq<string>, i: int, k: int) {
    0 <= i < k <= |lines| && IsNames(lines[i]) &&
    forall j :: i < j < k && IsNames(lines[j]) ==> NamesRunTo(lines, i, j)
  }

  /** No names come before line `k`, or the section before it names this program. */
  ghost predicate Relevant(lines: seq<string>, k: nat, matches: string -> bool)
    requires k <= |lines|
  {
    (forall i :: 0 <= i < k ==> !IsNames(lines[i])) ||
    exists i :: Governs(lines, i, k) && AnyWordMatches(lines[i], matches)
  }

  ghost predicate InNames(lines: seq<string>, k: nat)
    requires k <= |lines|
  {
    exists i :: NamesRunTo(lines, i, k)
  }

  lemma InNamesStep(lines: seq<string>, k: nat)
    requires k < |lines|
    ensures InNames(lines, k + 1) <==> IsNames(lines[k]) || (InNames(lines, k) && !IsFlagLine(lines[k]))
  {
    if IsNames(lines[k]) {
      assert NamesRunTo(lines, k, k + 1);
    } else if InNames(lines, k) && !IsFlagLine(lines[k]) {
      var i :| NamesRunTo(lines, i, k);
      assert NamesRunTo(lines, i, k + 1);
    }
    if InNames(lines, k + 1) {
      var i :| NamesRunTo(lines, i, k + 1);
      assert i < k ==> NamesRunTo(lines, i, k);
    }
  }

  lemma GovernsStep(lines: seq<string>, i: int, k: nat)
    requires k < |lines| && 0 <= i < k
    ensures Governs(lines, i, k + 1) <==> Governs(lines, i, k) && (IsNames(lines[k]) ==> NamesRunTo(lines, i, k))
  {
  }

  /** Names that run up to line `k` govern it, and whatever governs it then runs up to it. */
  lemma RunsGovern(lines: seq<string>, k: nat, i: int, j: int)
    requires k <= |lines| && NamesRunTo(lines, i, k) && Governs(lines, j, k)
    ensures NamesRunTo(lines, j, k)
  {
    if j < i {
      assert NamesRunTo(lines, j, i);
    }
  }

  lemma RelevantAfterNames(lines: seq<string>, k: nat, matches: string -> bool)
    requires k < |lines| && IsNames(lines[k])
    ensures Relevant(lines, k + 1, matches) <==>
      (InNames(lines, k) && Relevant(lines, k, matches)) || AnyWordMatches(lines[k], matches)
  {
    hide AnyWordMatches, IsNames;
    if AnyWordMatches(lines[k], matches) {
      assert Governs(lines, k, k + 1);
    }
    if InNames(lines, k) && Relevant(lines, k, matches) {
      var i :| NamesRunTo(lines, i, k);
      var j :| Governs(lines, j, k) && AnyWordMatches(lines[j], matches);
      RunsGovern(lines, k, i, j);
      assert Governs(lines, j, k + 1);
    }
    if Relevant(lines, k + 1, matches) {
      var i :| Governs(lines, i, k + 1) && AnyWordMatches(lines[i], matches);
      if i < k {
        assert NamesRunTo(lines, i, k) && Governs(lines, i, k);
      }
    }
  }

  lemma RelevantAfterOther(lines: seq<string>, k: nat, matches: string -> bool)
    requires k < |lines| && !IsNames(lines[k])
    ensures Relevant(lines, k + 1, matches) <==> Relevant(lines, k, matches)
  {
    hide AnyWordMatches, IsNames, NamesRunTo;
    if i :| Governs(lines, i, k) && AnyWordMatches(lines[i], matches) {
      assert Governs(lines, i, k + 1);
    }
    if i :| Governs(lines, i, k + 1) && AnyWordMatches(lines[i], matches) {
      assert Governs(lines, i, k);
    }
  }

  // -------------------------------------------------- the settings of a text

  /** What follows the dashes of a flag line */
  function Undashed(line: string): string
    requires IsFlagLine(line)
  {
    if |line| > 1 && line[1] == '-' then line[2..] else line[1..]
  }

  /** The setting that a flag line makes, if it names a registered flag and gives it a text */
  function LineSetting(types: map<string, FlagType>, line: string): (ss: seq<Setting>)
    ensures forall k :: 0 <= k < |ss| ==> ss[k].name in types
  {
    if !IsFlagLine(line) then []
    else match SplitArgument(types, Undashed(line))
      case Found(name, _, Some(text)) => [Setting(name, text)]
      case _ => []
  }

  /** A flag line sets the flag that it names, unless the value is missing. */
  lemma LineSets(types: map<string, FlagType>, line: string, key: string, v: Option<string>)
    requires Dashed(line, Spelled(key, v)) && '=' !in key
    ensures LineSetting(types, line) ==
      match Names(types, key, v)
      case Sets(x, text) => [Setting(x, text)]
      case _ => []
  {
    hide Names, SplitArgument;
    SplitNames(types, key, v);
    assert line[0] == '-' && |line| > 1;
    var a := Spelled(key, v);
    assert line == "--" + a ==> line[1] == '-' && line[2..] == a;
    assert line == "-" + a ==> line[1] == a[0] && line[1..] == a;
  }

  /** The settings that the relevant ones among the first `k` lines make, in order */
  ghost function Settings(types: map<string, FlagType>, lines: seq<string>, k: nat, matches: string -> bool): (ss: seq<Setting>)
    requires k <= |lines|
    ensures forall j :: 0 <= j < |ss| ==> ss[j].name in types
  {
    if k == 0 then []
    else
      Settings(types, lines, k - 1, matches) +
      if Relevant(lines, k - 1, matches) then LineSetting(types, lines[k - 1]) else []
  }

  ghost function TextSettings(types: map<string, FlagType>, text: string, matches: string -> bool): (ss: seq<Setting>)
    ensures forall j :: 0 <= j < |ss| ==> ss[j].name in types
  {
    Settings(types, LinesOf(text, 0), |LinesOf(text, 0)|, matches)
  }

  lemma ApplyMore(p: Parser, ss: seq<Setting>, line: string, types: map<string, FlagType>)
    requires types == Types(p.store) && Registered(p.store, ss)
    ensures Registered(p.store, ss + LineSetting(types, line))
    ensures var more := LineSetting(types, line);
      more == [] ==> Apply(p, ss + more) == Apply(p, ss)
    ensures var more := LineSetting(types, line);
      more != [] ==> Apply(p, ss + more) == SetOption(Apply(p, ss), more[0].name, more[0].text, SetValue)
  {
    hide SplitArgument, SetOption;
    var more := LineSetting(types, line);
    if more == [] {
      assert ss + more == ss;
    } else {
      assert (ss + more)[..|ss + more| - 1] == ss;
    }
  }

  lemma {:induction false} ApplyTypes(p: Parser, ss: seq<Setting>)
    requires Registered(p.store, ss)
    ensures Types(Apply(p, ss).store) == Types(p.store)
  {
    hide SetFlag, ParseFrom;
    forall n | n in p.store
      ensures TypeOf(Apply(p, ss).store[n].def) == TypeOf(p.store[n].def)
    {
      ApplyEnds(p, ss, n);
    }
  }

  /** Reading the lines makes the settings of the relevant ones. */
  lemma {:induction false} LinesMakeSettings(p: Parser, lines: seq<string>, k: nat, matches: string -> bool)
    requires k <= |lines|
    ensures ReadLines(FileState(p, true, false), lines, k, SetValue, matches) ==
      FileState(Apply(p, Settings(Types(p.store), lines, k, matches)), Relevant(lines, k, matches), InNames(lines, k))
  {
    hide Apply, SetOption, SplitArgument, AnyWordMatches, Relevant, InNames, Types;
    if k == 0 {
      NothingRead(p, lines, matches);
    } else {
      LinesMakeSettings(p, lines, k - 1, matches);
      var types, line := Types(p.store), lines[k - 1];
      var before := Settings(types, lines, k - 1, matches);
      ApplyTypes(p, before);
      ApplyMore(p, before, line, types);
      InNamesStep(lines, k - 1);
      if IsNames(line) {
        RelevantAfterNames(lines, k - 1, matches);
      } else {
        RelevantAfterOther(lines, k - 1, matches);
      }
      assert before + [] == before;
    }
  }

  lemma NothingRead(p: Parser, lines: seq<string>, matches: string -> bool)
    ensures Apply(p, []) == p && Relevant(lines, 0, matches) && !InNames(lines, 0)
  {
  }

  /** What reading a text does: every flag ends as the settings of the text say, errors never shrink,
      and the errors added are the flags that refuse a setting. */
  lemma TextOutcome(p: Parser, text: string, matches: string -> bool)
    ensures var ss, r := TextSettings(Types(p.store), text, matches), ReadText(FileState(p, true, false), text, 0, SetValue, matches).parser;
      Registered(p.store, ss) && (forall n :: n in p.store ==> Ends(p.store, ss, n, r.store[n])) &&
      (forall n :: n in r.errors <==> n in p.errors || (n in p.store && RefusesSome(p.store, ss, n)))
  {
    hide ReadText, ReadLines, LinesOf, Settings, Apply, Ends, RefusesSome, Types;
    var lines := LinesOf(text, 0);
    TextIsLines(FileState(p, true, false), text, 0, SetValue, matches);
    LinesMakeSettings(p, lines, |lines|, matches);
    var ss := TextSettings(Types(p.store), text, matches);
    ApplyErrors(p, ss);
    forall n | n in p.store
      ensures Ends(p.store, ss, n, Apply(p, ss).store[n])
    {
      ApplyEnds(p, ss, n);
    }
  }

  /** Every flag accepts every text that it is given. */
  ghost predicate AllAccepted(store: Store, ss: seq<Setting>)
    requires Registered(store, ss)
  {
    forall k :: 0 <= k < |ss| ==> TryParse(store[ss[k].name], ss[k].text).Some?
  }

  lemma AcceptedOrRefused(store: Store, ss: seq<Setting>)
    requires Registered(store, ss)
    ensures AllAccepted(store, ss) <==> forall n :: n in store ==> !RefusesSome(store, ss, n)
  {
    hide TryParse;
    if !AllAccepted(store, ss) {
      var k :| 0 <= k < |ss| && TryParse(store[ss[k].name], ss[k].text).None?;
      assert Refused(store, ss, k, ss[k].name);
      assert RefusesSome(store, ss, ss[k].name);
    }
  }

  /** A line without CR and LF that starts with neither ends at the first LF, when no CR follows. */
  lemma LinesStart(line: string, rest: string)
    requires OneLine(line) && line != [] && !IsSpace(line[0]) && '\r' !in rest
    ensures LinesOf((line + "\n") + rest, 0) == [line] + LinesOf(rest, 0)
  {
    hide SkipSpaces, LineEnd, IsSpace, OneLine, LinesOf;
    var pre := line + "\n";
    var text := pre + rest;
    assert text[0..] == text;
    FirstLine(text, 0, line, rest);
    LinesShift(pre, rest, 0);
    LinesUnfold(text, 0);
  }

  lemma LinesUnfold(text: string, i: nat)
    requires i <= |text|
    ensures var start := SkipSpaces(text, i);
      var end := LineEnd(text, start);
      LinesOf(text, i) == if end.None? then [text[start..]] else [text[start..end.value]] + LinesOf(text, end.value + 1)
  {
    hide SkipSpaces, LineEnd;
  }

  lemma ShiftedSpaces(pre: string, rest: string, i: nat)
    requires i <= |rest|
    ensures SkipSpaces(pre + rest, |pre| + i) == |pre| + SkipSpaces(rest, i)
    decreases |rest| - i
  {
    if i < |rest| && IsSpace(rest[i]) {
      ShiftedSpaces(pre, rest, i + 1);
    }
  }

  lemma ShiftedIndex(pre: string, rest: string, c: char, i: nat)
    requires i <= |rest|
    ensures var a, b := IndexOf(pre + rest, c, |pre| + i), IndexOf(rest, c, i);
      if b.None? then a.None? else a == Some(|pre| + b.value)
    decreases |rest| - i
  {
    if i < |rest| && rest[i] != c {
      ShiftedIndex(pre, rest, c, i + 1);
    }
  }

  lemma ShiftedEnd(pre: string, rest: string, start: nat)
    requires start <= |rest|
    ensures var a, b := LineEnd(pre + rest, |pre| + start), LineEnd(rest, start);
      if b.None? then a.None? else a == Some(|pre| + b.value)
  {
    hide IndexOf;
    ShiftedIndex(pre, rest, '\r', start);
    ShiftedIndex(pre, rest, '\n', start);
  }

  lemma ShiftedSlice(pre: string, rest: string, i: nat, j: nat)
    requires i <= j <= |rest|
    ensures (pre + rest)[|pre| + i..|pre| + j] == rest[i..j] && (pre + rest)[|pre| + i..] == rest[i..]
  {
  }

  /** The lines from some place on depend on nothing before it. */
  lemma {:induction false} LinesShift(pre: string, rest: string, i: nat)
    requires i <= |rest|
    ensures LinesOf(pre + rest, |pre| + i) == LinesOf(rest, i)
    decreases |rest| - i
  {
    hide SkipSpaces, LineEnd, LinesOf;
    ShiftedSpaces(pre, rest, i);
    var start := SkipSpaces(rest, i);
    ShiftedEnd(pre, rest, start);
    LinesUnfold(rest, i);
    LinesUnfold(pre + rest, |pre| + i);
    var end := LineEnd(rest, start);
    if end.Some? {
      LinesShift(pre, rest, end.value + 1);
      ShiftedSlice(pre, rest, start, end.value);
    } else {
      ShiftedSlice(pre, rest, start, start);
    }
  }

  // ------------------------------------------- sections for other programs

  /** After a section of names of which none matches, nothing is set until the next section: if lines
      `a .. b` start a section without a match, and lines `b .. c` hold no names, they set nothing. */
  lemma {:induction false} OthersSectionSetsNothing(types: map<string, FlagType>, lines: seq<string>, a: nat, b: nat, c: nat,
                                                   matches: string -> bool)
    requires a < b <= c <= |lines| && IsNames(lines[a]) && !InNames(lines, a)
    requires forall j :: a <= j < b ==> !IsFlagLine(lines[j])
    requires forall j :: a <= j < b && IsNames(lines[j]) ==> !AnyWordMatches(lines[j], matches)
    requires forall j :: b <= j < c ==> !IsNames(lines[j])
    ensures !Relevant(lines, c, matches) && Settings(types, lines, c, matches) == Settings(types, lines, a, matches)
  {
    hide AnyWordMatches, LineSetting, IsNames, Relevant, InNames, IsFlagLine;
    if c > b {
      OthersSectionSetsNothing(types, lines, a, b, c - 1, matches);
      RelevantAfterOther(lines, c - 1, matches);
    } else {
      if b > a + 1 {
        OthersSectionSetsNothing(types, lines, a, b - 1, c - 1, matches);
      }
      if IsNames(lines[c - 1]) {
        RelevantAfterNames(lines, c - 1, matches);
      } else {
        RelevantAfterOther(lines, c - 1, matches);
      }
      NamesSetNothing(types, lines[c - 1]);
    }
    assert Settings(types, lines, c - 1, matches) + [] == Settings(types, lines, c - 1, matches);
  }

  lemma NamesSetNothing(types: map<string, FlagType>, line: string)
    ensures !IsFlagLine(line) ==> LineSetting(types, line) == []
  {
  }

  /** After a section of names of which one matches, the flag lines count, until the next section. */
  lemma OwnSectionCounts(lines: seq<string>, a: nat, j: nat, b: nat, c: nat, matches: string -> bool)
    requires a <= j < b <= c <= |lines| && IsNames(lines[j]) && AnyWordMatches(lines[j], matches)
    requires forall k :: a <= k < b ==> !IsFlagLine(lines[k])
    requires forall k :: b <= k < c ==> !IsNames(lines[k])
    ensures Relevant(lines, c, matches)
  {
    hide AnyWordMatches;
    assert Governs(lines, j, c);
  }
}
