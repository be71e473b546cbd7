/** The command-line parser `ParseNewCommandLineFlags`: flags are set as they are met, and argv is
    permuted in place so that the other words come last. */
module FlagArgv {
  import opened FlagValues
  import opened FlagStates
  import opened FlagText
  import opened FlagSettings
  import opened FlagRegistry
  import opened Basics

  // ------------------------------------------------------ what a word is

  datatype Word =
    | Positional
    | Terminator
    | Undefined(key: string)
    | Assign(name: string, value: string)
    | NeedsValue(name: string, key: string)

  function Classify(types: map<string, FlagType>, arg: string): (w: Word)
    ensures w.Assign? || w.NeedsValue? ==> w.name in types
  {
    if arg == [] || arg[0] != '-' || arg == "-" then Positional
    else
      var a := if arg[1] == '-' then arg[2..] else arg[1..];
      if a == [] then Terminator
      else match SplitArgument(types, a)
        case Unknown(key) => Undefined(key)
        case Found(name, _, Some(v)) => Assign(name, v)
        case Found(name, key, None) => NeedsValue(name, key)
  }

  /** Where the words of a command line go: `front` are the flags with the values they consume,
      `rest` the words after a bare `--`, `back` the other words. */
  datatype Arrangement = Arrangement(front: seq<string>, rest: seq<string>, back: seq<string>)

  function Arrange(types: map<string, FlagType>, ws: seq<string>): Arrangement {
    if ws == [] then Arrangement([], [], [])
    else match Classify(types, ws[0])
      case Positional =>
        var r := Arrange(types, ws[1..]);
        r.(back := [ws[0]] + r.back)
      case Terminator => Arrangement([ws[0]], ws[1..], [])
      case NeedsValue(_, _) =>
        if |ws| == 1 then Arrangement([ws[0]], [], [])
        else
          var r := Arrange(types, ws[2..]);
          r.(front := [ws[0], ws[1]] + r.front)
      case _ =>
        var r := Arrange(types, ws[1..]);
        r.(front := [ws[0]] + r.front)
  }

  /** What the words do to the flags */
  function RunWords(p: Parser, ws: seq<string>): Parser
    decreases |ws|
  {
    if ws == [] then p
    else match Classify(Types(p.store), ws[0])
      case Positional => RunWords(p, ws[1..])
      case Terminator => p
      case Undefined(key) => RunWords(p.(errors := p.errors + {key}), ws[1..])
      case Assign(name, v) => RunWords(SetOption(p, name, v, SetValue), ws[1..])
      case NeedsValue(name, key) =>
        if |ws| == 1 then p.(errors := p.errors + {key})
        else RunWords(SetOption(p, name, ws[1], SetValue), ws[2..])
  }

  lemma SettingKeepsTypes(p: Parser, name: string, spec: string, mode: Mode)
    requires name in p.store
    ensures Types(SetOption(p, name, spec, mode).store) == Types(p.store)
  {
  }

  // ------------------------------------------------- what the flags end with

  /** The settings that the words make, up to where the parser stops */
  function Given(types: map<string, FlagType>, ws: seq<string>): (ss: seq<Setting>)
    ensures forall k :: 0 <= k < |ss| ==> ss[k].name in types
    decreases |ws|
  {
    if ws == [] then []
    else match Classify(types, ws[0])
      case Terminator => []
      case Assign(name, v) => [Setting(name, v)] + Given(types, ws[1..])
      case NeedsValue(name, _) => if |ws| == 1 then [] else [Setting(name, ws[1])] + Given(types, ws[2..])
      case _ => Given(types, ws[1..])
  }

  /** The names that the words give to no flag, or to a flag whose value is missing */
  function Complaints(types: map<string, FlagType>, ws: seq<string>): set<string>
    decreases |ws|
  {
    if ws == [] then {}
    else match Classify(types, ws[0])
      case Terminator => {}
      case Undefined(key) => {key} + Complaints(types, ws[1..])
      case NeedsValue(_, key) => if |ws| == 1 then {key} else Complaints(types, ws[2..])
      case _ => Complaints(types, ws[1..])
  }

  lemma {:induction false} ApplyFirst(p: Parser, s: Setting, ss: seq<Setting>)
    requires s.name in p.store && Registered(p.store, ss)
    ensures Registered(p.store, [s] + ss)
    ensures Apply(p, [s] + ss) == Apply(SetOption(p, s.name, s.text, SetValue), ss)
  {
    hide SetOption;
    var all := [s] + ss;
    if ss == [] {
      assert all[..0] == [];
    } else {
      ApplyFirst(p, s, ss[..|ss| - 1]);
      assert all[..|all| - 1] == [s] + ss[..|ss| - 1];
    }
  }

  lemma {:induction false} MoreErrors(p: Parser, errors: set<string>, ss: seq<Setting>)
    requires Registered(p.store, ss)
    ensures Apply(p.(errors := p.errors + errors), ss) == var r := Apply(p, ss); r.(errors := r.errors + errors)
  {
    hide SetFlag;
    if ss != [] {
      MoreErrors(p, errors, ss[..|ss| - 1]);
    }
  }

  /** The parser makes the settings of the words, and records their complaints. */
  lemma {:induction false} WordsMakeSettings(p: Parser, ws: seq<string>)
    ensures var ss := Given(Types(p.store), ws);
      var r := Apply(p, ss);
      RunWords(p, ws) == r.(errors := r.errors + Complaints(Types(p.store), ws))
    decreases |ws|
  {
    hide Classify, SetOption, Types, Apply;
    var types := Types(p.store);
    if ws == [] {
      NothingApplied(p);
    } else {
      match Classify(types, ws[0])
      case Positional => WordsMakeSettings(p, ws[1..]);
      case Terminator => NothingApplied(p);
      case Undefined(key) =>
        WordsMakeSettings(p.(errors := p.errors + {key}), ws[1..]);
        MoreErrors(p, {key}, Given(types, ws[1..]));
      case Assign(name, v) =>
        SettingKeepsTypes(p, name, v, SetValue);
        WordsMakeSettings(SetOption(p, name, v, SetValue), ws[1..]);
        ApplyFirst(p, Setting(name, v), Given(types, ws[1..]));
      case NeedsValue(name, key) =>
        NothingApplied(p);
        if |ws| > 1 {
          SettingKeepsTypes(p, name, ws[1], SetValue);
          WordsMakeSettings(SetOption(p, name, ws[1], SetValue), ws[2..]);
          ApplyFirst(p, Setting(name, ws[1]), Given(types, ws[2..]));
        }
    }
  }

  lemma NothingApplied(p: Parser)
    ensures Apply(p, []) == p
  {
  }

  /** What a command line does: every flag ends as the settings of the words say, and the errors added
      are the complaints and the flags that refuse a setting. */
  ghost predicate Outcome(before: Parser, ws: seq<string>, after: Parser) {
    var types := Types(before.store);
    var ss := Given(types, ws);
    Registered(before.store, ss) && after.store.Keys == before.store.Keys &&
    (forall n :: n in before.store ==> Ends(before.store, ss, n, after.store[n])) &&
    forall n :: n in after.errors <==>
      n in before.errors || n in Complaints(types, ws) || (n in before.store && RefusesSome(before.store, ss, n))
  }

  lemma WordsOutcome(p: Parser, ws: seq<string>)
    ensures Outcome(p, ws, RunWords(p, ws))
  {
    hide RunWords, Given, Complaints, Apply, Ends, RefusesSome, Types;
    var ss := Given(Types(p.store), ws);
    WordsMakeSettings(p, ws);
    ApplyErrors(p, ss);
    forall n | n in p.store
      ensures Ends(p.store, ss, n, Apply(p, ss).store[n])
    {
      ApplyEnds(p, ss, n);
    }
  }

  // --------------------------------------------------- order is preserved

  /** `all` is an interleaving of `x` and `y`: both keep their order in it. */
  ghost predicate Interleaved(all: seq<string>, x: seq<string>, y: seq<string>)
    decreases |all|
  {
    if all == [] then x == [] && y == []
    else (x != [] && all[0] == x[0] && Interleaved(all[1..], x[1..], y)) ||
         (y != [] && all[0] == y[0] && Interleaved(all[1..], x, y[1..]))
  }

  lemma InterleavedCons(all: seq<string>, x: seq<string>, y: seq<string>, h: string)
    requires Interleaved(all, x, y)
    ensures Interleaved([h] + all, [h] + x, y) && Interleaved([h] + all, x, [h] + y)
  {
    assert ([h] + all)[1..] == all && ([h] + x)[1..] == x && ([h] + y)[1..] == y;
  }

  lemma InterleavedPair(all: seq<string>, x: seq<string>, y: seq<string>, g: string, h: string)
    requires Interleaved(all, x, y)
    ensures Interleaved([g, h] + all, [g, h] + x, y)
  {
    hide Interleaved;
    InterleavedCons(all, x, y, h);
    InterleavedCons([h] + all, [h] + x, y, g);
    assert [g] + ([h] + all) == [g, h] + all && [g] + ([h] + x) == [g, h] + x;
  }

  /** One word, with the value it consumes, goes to the front; a positional word goes to the back. */
  lemma ArrangeOne(types: map<string, FlagType>, ws: seq<string>)
    requires ws != []
    ensures var w, a, one := Classify(types, ws[0]), Arrange(types, ws), Arrange(types, ws[1..]);
      if w.Terminator? then a == Arrangement([ws[0]], ws[1..], [])
      else if w.NeedsValue? then |ws| == 1 ==> a == Arrangement([ws[0]], [], [])
      else if w.Positional? then a == one.(back := [ws[0]] + one.back)
      else a == one.(front := [ws[0]] + one.front)
    ensures var w, a := Classify(types, ws[0]), Arrange(types, ws);
      w.NeedsValue? && |ws| > 1 ==>
        var two := Arrange(types, ws[2..]); a == two.(front := [ws[0], ws[1]] + two.front)
  {
    hide Classify;
  }

  /** Up to a bare `--`, the command line is an interleaving of the flags, with the values they
      consume, and of the other words: both groups keep their order. The words after a bare `--`
      stay together at the end. */
  lemma {:induction false} OrderPreserved(types: map<string, FlagType>, ws: seq<string>) returns (scanned: seq<string>)
    ensures var a := Arrange(types, ws); ws == scanned + a.rest && Interleaved(scanned, a.front, a.back)
    decreases |ws|
  {
    hide Classify, Interleaved, Arrange;
    NothingInterleaved();
    if ws == [] {
      ArrangeNothing(types);
      return [];
    }
    var w := Classify(types, ws[0]);
    ArrangeOne(types, ws);
    if w.Terminator? || (w.NeedsValue? && |ws| == 1) {
      InterleavedCons([], [], [], ws[0]);
      scanned := [ws[0]];
      assert [ws[0]] + [] == [ws[0]] && ws == [ws[0]] + ws[1..];
    } else if w.NeedsValue? {
      var s := OrderPreserved(types, ws[2..]);
      var r := Arrange(types, ws[2..]);
      InterleavedPair(s, r.front, r.back, ws[0], ws[1]);
      scanned := [ws[0], ws[1]] + s;
      assert ws == [ws[0], ws[1]] + ws[2..];
    } else {
      var s := OrderPreserved(types, ws[1..]);
      var r := Arrange(types, ws[1..]);
      InterleavedCons(s, r.front, r.back, ws[0]);
      scanned := [ws[0]] + s;
      assert ws == [ws[0]] + ws[1..];
    }
  }

  lemma ArrangeNothing(types: map<string, FlagType>)
    ensures Arrange(types, []) == Arrangement([], [], [])
  {
  }

  lemma NothingInterleaved()
    ensures Interleaved([], [], [])
  {
  }

  lemma {:induction false} InterleavedPermutes(all: seq<string>, x: seq<string>, y: seq<string>)
    requires Interleaved(all, x, y)
    ensures multiset(all) == multiset(x) + multiset(y)
    decreases |all|
  {
    if all != [] {
      assert all == [all[0]] + all[1..];
      if x != [] && all[0] == x[0] && Interleaved(all[1..], x[1..], y) {
        InterleavedPermutes(all[1..], x[1..], y);
        assert x == [x[0]] + x[1..];
      } else {
        InterleavedPermutes(all[1..], x, y[1..]);
        assert y == [y[0]] + y[1..];
      }
    }
  }

  /** Nothing is lost, duplicated or invented. */
  lemma ArrangePermutes(types: map<string, FlagType>, ws: seq<string>)
    ensures var a := Arrange(types, ws); multiset(a.front + a.rest + a.back) == multiset(ws)
  {
    hide Arrange;
    var scanned := OrderPreserved(types, ws);
    InterleavedPermutes(scanned, Arrange(types, ws).front, Arrange(types, ws).back);
  }

  /** The words the parser stopped at: without a bare `--`, `rest` is empty. */
  lemma {:induction false} RestNeedsTerminator(types: map<string, FlagType>, ws: seq<string>)
    requires forall k :: 0 <= k < |ws| ==> !Classify(types, ws[k]).Terminator?
    ensures Arrange(types, ws).rest == []
    decreases |ws|
  {
    if ws != [] {
      RestNeedsTerminator(types, ws[1..]);
      if |ws| > 1 {
        RestNeedsTerminator(types, ws[2..]);
      }
    }
  }

  // ------------------------------------------------ what goes where, and again

  /** How a list of flag words ends: in a bare `--`, in a flag whose value is missing, or neither.
      `Mixed` is a list that holds something else than flags with their values. */
  datatype Ending = Complete | Terminated | MissingValue | Mixed

  function EndingOf(types: map<string, FlagType>, front: seq<string>): Ending {
    if front == [] then Complete
    else match Classify(types, front[0])
      case Positional => Mixed
      case Terminator => if |front| == 1 then Terminated else Mixed
      case NeedsValue(_, _) => if |front| == 1 then MissingValue else EndingOf(types, front[2..])
      case _ => EndingOf(types, front[1..])
  }

  ghost predicate AllPositional(types: map<string, FlagType>, back: seq<string>) {
    forall k :: 0 <= k < |back| ==> Classify(types, back[k]).Positional?
  }

  /** Only flags with their values go first, only other words go last, and something lies in
      between only after a bare `--`. */
  lemma {:induction false} FrontIsFlags(types: map<string, FlagType>, ws: seq<string>)
    ensures var a := Arrange(types, ws);
      EndingOf(types, a.front) != Mixed && AllPositional(types, a.back) &&
      (EndingOf(types, a.front) != Terminated ==> a.rest == [])
    decreases |ws|
  {
    hide Classify, Arrange;
    if ws == [] {
      ArrangeNothing(types);
    } else {
      ArrangeOne(types, ws);
      var w := Classify(types, ws[0]);
      if w.NeedsValue? && |ws| > 1 {
        FrontIsFlags(types, ws[2..]);
        FlagFirst(types, ws[..2], Arrange(types, ws[2..]).front);
      } else if !w.NeedsValue? && !w.Terminator? {
        FrontIsFlags(types, ws[1..]);
        if !w.Positional? {
          FlagFirst(types, ws[..1], Arrange(types, ws[1..]).front);
        }
      }
    }
  }

  /** A flag, with its value if it needs one */
  predicate OneFlag(types: map<string, FlagType>, flag: seq<string>) {
    flag != [] && match Classify(types, flag[0])
      case Positional => false
      case Terminator => false
      case NeedsValue(_, _) => |flag| == 2
      case _ => |flag| == 1
  }

  lemma FlagFirst(types: map<string, FlagType>, flag: seq<string>, front: seq<string>)
    requires OneFlag(types, flag)
    ensures EndingOf(types, flag + front) == EndingOf(types, front)
    ensures Arrange(types, flag + front) == var r := Arrange(types, front); r.(front := flag + r.front)
  {
    hide Classify, Arrange;
    ArrangeOne(types, flag + front);
    assert (flag + front)[|flag|..] == front;
    assert flag == if |flag| == 1 then [flag[0]] else [flag[0], flag[1]];
  }

  lemma {:induction false} PositionalStays(types: map<string, FlagType>, back: seq<string>)
    requires AllPositional(types, back)
    ensures Arrange(types, back) == Arrangement([], [], back)
  {
    hide Classify;
    if back != [] {
      PositionalStays(types, back[1..]);
      assert [back[0]] + back[1..] == back;
    }
  }

  /** Either the first flag can be split off, or the only word is a bare `--` or lacks its value. */
  lemma SplitFlag(types: map<string, FlagType>, front: seq<string>) returns (n: nat)
    requires front != [] && EndingOf(types, front) != Mixed
    ensures n == 0 ==> |front| == 1
    ensures n == 0 && Classify(types, front[0]).Terminator? ==> EndingOf(types, front) == Terminated
    ensures n == 0 && !Classify(types, front[0]).Terminator? ==>
      EndingOf(types, front) == MissingValue && Classify(types, front[0]).NeedsValue?
    ensures n > 0 ==> n <= |front| && OneFlag(types, front[..n]) && EndingOf(types, front[n..]) == EndingOf(types, front)
  {
    hide Classify;
    var w := Classify(types, front[0]);
    if w.Terminator? || (w.NeedsValue? && |front| == 1) {
      n := 0;
    } else {
      n := if w.NeedsValue? then 2 else 1;
    }
  }

  lemma {:induction false} CompleteThen(types: map<string, FlagType>, front: seq<string>, tail: seq<string>)
    requires EndingOf(types, front) == Complete
    ensures Arrange(types, front + tail) == var r := Arrange(types, tail); r.(front := front + r.front)
    decreases |front|
  {
    hide Classify, Arrange, EndingOf, OneFlag;
    var r := Arrange(types, tail);
    if front == [] {
      assert front + tail == tail && front + r.front == r.front;
    } else {
      var n := SplitFlag(types, front);
      CompleteThen(types, front[n..], tail);
      assert front == front[..n] + front[n..] && front + tail == front[..n] + (front[n..] + tail);
      FlagFirst(types, front[..n], front[n..] + tail);
      assert front[..n] + (front[n..] + r.front) == front + r.front;
    }
  }

  lemma {:induction false} TerminatedThen(types: map<string, FlagType>, front: seq<string>, tail: seq<string>)
    requires EndingOf(types, front) == Terminated
    ensures Arrange(types, front + tail) == Arrangement(front, tail, [])
    decreases |front|
  {
    hide Classify, Arrange, OneFlag;
    var n := SplitFlag(types, front);
    if n == 0 {
      ArrangeOne(types, front + tail);
      assert (front + tail)[1..] == tail && [front[0]] == front;
    } else {
      TerminatedThen(types, front[n..], tail);
      assert front == front[..n] + front[n..] && front + tail == front[..n] + (front[n..] + tail);
      FlagFirst(types, front[..n], front[n..] + tail);
    }
  }

  lemma {:induction false} MissingThen(types: map<string, FlagType>, front: seq<string>, tail: seq<string>)
    requires EndingOf(types, front) == MissingValue
    ensures if tail == [] then Arrange(types, front + tail).front == front
            else |Arrange(types, front + tail).front| > |front|
    decreases |front|
  {
    hide Classify, Arrange, OneFlag;
    var n := SplitFlag(types, front);
    if n == 0 {
      ArrangeOne(types, front + tail);
      assert [front[0]] == front;
    } else {
      MissingThen(types, front[n..], tail);
      assert front == front[..n] + front[n..] && front + tail == front[..n] + (front[n..] + tail);
      FlagFirst(types, front[..n], front[n..] + tail);
    }
  }

  /** Parsing the new argv again finds the same flags at the front if and only if no flag at its
      end lacked a value, or nothing follows that it could take for one. */
  lemma ParsedAgain(types: map<string, FlagType>, ws: seq<string>)
    ensures var a := Arrange(types, ws);
      Arrange(types, a.front + a.rest + a.back).front == a.front <==>
      !(EndingOf(types, a.front) == MissingValue && a.back != [])
  {
    hide Classify, Arrange, EndingOf;
    var a := Arrange(types, ws);
    FrontIsFlags(types, ws);
    var tail := a.rest + a.back;
    assert a.front + a.rest + a.back == a.front + tail;
    match EndingOf(types, a.front)
    case Complete =>
      CompleteThen(types, a.front, tail);
      PositionalStays(types, a.back);
      assert tail == a.back && a.front + [] == a.front;
    case Terminated =>
      TerminatedThen(types, a.front, tail);
    case MissingValue =>
      MissingThen(types, a.front, tail);
      assert tail == a.back;
  }

  /** For instance, `p --s` becomes `--s p`, where `--s` lacked its value and now takes `p`. */
  lemma ParsedAgainDiffers()
    ensures var types: map<string, FlagType> := map["s" := StringType];
      Arrange(types, ["p", "--s"]) == Arrangement(["--s"], [], ["p"]) &&
      Arrange(types, ["--s", "p"]) == Arrangement(["--s", "p"], [], [])
  {
    var types: map<string, FlagType> := map["s" := StringType];
    assert "--s"[2..] == "s";
    assert Classify(types, "p") == Positional && Classify(types, "--s") == NeedsValue("s", "s");
    hide Classify, Arrange;
    ArrangeNothing(types);
    ArrangeOne(types, ["--s"]);
    ArrangeOne(types, ["p", "--s"]);
    ArrangeOne(types, ["--s", "p"]);
  }

  // ------------------------------------------------------- the parser itself

  /** `memmove` of the tail one place down, and `arg` into the freed last place */
  method MoveToEnd(argv: array<string>, i: int)
    requires 0 <= i < argv.Length
    modifies argv
    ensures argv[..] == old(argv[..i]) + old(argv[i + 1..]) + [old(argv[i])]
  {
    var arg := argv[i];
    forall k | i <= k < argv.Length - 1 {
      argv[k] := argv[k + 1];
    }
    argv[argv.Length - 1] := arg;
  }

  /** Where the parser stands on the way to the final state `goal`: `front` and `back` are placed,
      `todo` is still to be looked at. */
  ghost predicate Progress(types: map<string, FlagType>, ws: seq<string>, goal: Parser, p: Parser,
                           front: seq<string>, todo: seq<string>, back: seq<string>) {
    var a, r := Arrange(types, ws), Arrange(types, todo);
    Types(p.store) == types && a == Arrangement(front + r.front, r.rest, back + r.back) && RunWords(p, todo) == goal
  }

  lemma StepBack(types: map<string, FlagType>, ws: seq<string>, goal: Parser, p: Parser,
                 front: seq<string>, todo: seq<string>, back: seq<string>)
    requires Progress(types, ws, goal, p, front, todo, back) && todo != [] && Classify(types, todo[0]).Positional?
    ensures Progress(types, ws, goal, p, front, todo[1..], back + [todo[0]])
  {
    hide Classify;
    var r := Arrange(types, todo[1..]);
    assert back + ([todo[0]] + r.back) == back + [todo[0]] + r.back;
  }

  lemma StepUndefined(types: map<string, FlagType>, ws: seq<string>, goal: Parser, p: Parser,
                      front: seq<string>, todo: seq<string>, back: seq<string>)
    requires Progress(types, ws, goal, p, front, todo, back) && todo != [] && Classify(types, todo[0]).Undefined?
    ensures var key := Classify(types, todo[0]).key;
      Progress(types, ws, goal, p.(errors := p.errors + {key}), front + [todo[0]], todo[1..], back)
  {
    hide Classify;
    var r := Arrange(types, todo[1..]);
    assert front + ([todo[0]] + r.front) == front + [todo[0]] + r.front;
  }

  lemma StepAssign(types: map<string, FlagType>, ws: seq<string>, goal: Parser, p: Parser,
                   front: seq<string>, todo: seq<string>, back: seq<string>)
    requires Progress(types, ws, goal, p, front, todo, back) && todo != [] && Classify(types, todo[0]).Assign?
    ensures var w := Classify(types, todo[0]);
      w.name in p.store && Progress(types, ws, goal, SetOption(p, w.name, w.value, SetValue), front + [todo[0]], todo[1..], back)
  {
    var w := Classify(types, todo[0]);
    SettingKeepsTypes(p, w.name, w.value, SetValue);
    hide Classify, SetOption;
    var r := Arrange(types, todo[1..]);
    assert front + ([todo[0]] + r.front) == front + [todo[0]] + r.front;
  }

  lemma StepPair(types: map<string, FlagType>, ws: seq<string>, goal: Parser, p: Parser,
                 front: seq<string>, todo: seq<string>, back: seq<string>)
    requires Progress(types, ws, goal, p, front, todo, back) && |todo| > 1 && Classify(types, todo[0]).NeedsValue?
    ensures var w := Classify(types, todo[0]);
      w.name in p.store &&
      Progress(types, ws, goal, SetOption(p, w.name, todo[1], SetValue), front + [todo[0], todo[1]], todo[2..], back)
  {
    var w := Classify(types, todo[0]);
    SettingKeepsTypes(p, w.name, todo[1], SetValue);
    hide Classify, SetOption;
    var r := Arrange(types, todo[2..]);
    assert front + ([todo[0], todo[1]] + r.front) == front + [todo[0], todo[1]] + r.front;
  }

  lemma StepStop(types: map<string, FlagType>, ws: seq<string>, goal: Parser, p: Parser,
                 front: seq<string>, todo: seq<string>, back: seq<string>)
    requires Progress(types, ws, goal, p, front, todo, back) && todo != []
    requires Classify(types, todo[0]).Terminator? || (Classify(types, todo[0]).NeedsValue? && |todo| == 1)
    ensures Arrange(types, ws) == Arrangement(front + [todo[0]], todo[1..], back)
    ensures var w := Classify(types, todo[0]);
      goal == if w.Terminator? then p else p.(errors := p.errors + {w.key})
  {
    hide Classify;
  }

  lemma StepDone(types: map<string, FlagType>, ws: seq<string>, goal: Parser, p: Parser,
                 front: seq<string>, todo: seq<string>, back: seq<string>)
    requires Progress(types, ws, goal, p, front, todo, back) && todo == []
    ensures Arrange(types, ws) == Arrangement(front, [], back) && goal == p
  {
  }

  lemma StartProgress(p: Parser, ws: seq<string>)
    ensures Progress(Types(p.store), ws, RunWords(p, ws), p, [], ws, [])
  {
  }

  // ------------------------------------------------- moving the boundaries

  lemma Take1(prog: string, front: seq<string>, todo: seq<string>, back: seq<string>)
    requires todo != []
    ensures [prog] + front + todo + back == [prog] + (front + [todo[0]]) + todo[1..] + back
  {
  }

  lemma Take2(prog: string, front: seq<string>, todo: seq<string>, back: seq<string>)
    requires |todo| > 1
    ensures [prog] + front + todo + back == [prog] + (front + [todo[0], todo[1]]) + todo[2..] + back
  {
  }

  lemma MoveBack(prog: string, front: seq<string>, todo: seq<string>, back: seq<string>, i: nat)
    requires todo != [] && i == 1 + |front|
    ensures var all := [prog] + front + todo + back;
      all[..i] + all[i + 1..] + [todo[0]] == [prog] + front + todo[1..] + (back + [todo[0]])
  {
  }

  lemma ProgressTypes(types: map<string, FlagType>, ws: seq<string>, goal: Parser, p: Parser,
                      front: seq<string>, todo: seq<string>, back: seq<string>)
    requires Progress(types, ws, goal, p, front, todo, back)
    ensures Types(p.store) == types
  {
  }

  /** The program name moves up to place `start`. */
  method MoveName(argv: array<string>, start: nat)
    requires start < argv.Length
    modifies argv
    ensures argv[start..] == [old(argv[0])] + old(argv[start + 1..])
  {
    argv[start] := argv[0];
  }

  /** `ParseNewCommandLineFlags`. The words are permuted as `Arrange` says, the flags are set as
      `RunWords` says, and the result is where the words that are not flags begin. With
      `removeFlags` the new argv begins at `start`: the program name moves up to just before them. */
  method ParseNewCommandLineFlags(parser: CommandLineFlagParser, argv: array<string>, removeFlags: bool)
    returns (start: nat, first: nat)
    requires parser.registry.Valid() && argv.Length >= 1
    modifies parser, parser.registry.flags.Values, argv
    ensures parser.registry.Valid() && parser.registry.flags == old(parser.registry.flags)
    ensures parser.State() == RunWords(old(parser.State()), old(argv[1..]))
    ensures var a := Arrange(Types(old(parser.registry.Contents())), old(argv[1..]));
      if removeFlags then
        start == |a.front| < argv.Length && first == 1 && argv[start..] == [old(argv[0])] + a.rest + a.back
      else
        start == 0 && first == 1 + |a.front| && argv[..] == [old(argv[0])] + a.front + a.rest + a.back
    ensures Outcome(old(parser.State()), old(argv[1..]), parser.State())
  {
    hide Arrange, RunWords, Types, CommandLineFlagParser.State, Registry.Valid, Outcome;
    ghost var a := Arrange(Types(parser.registry.Contents()), argv[1..]);
    WordsOutcome(parser.State(), argv[1..]);
    first := SetAndPermute(parser, argv);
    start := 0;
    if removeFlags {
      assert argv[first..] == a.rest + a.back;
      MoveName(argv, first - 1);
      start := first - 1;
      first := 1;
    }
  }

  /** argv and the flags while the loop stands before word `i` */
  ghost predicate At(parser: CommandLineFlagParser, argv: array<string>, types: map<string, FlagType>, ws: seq<string>,
                     goal: Parser, prog: string, front: seq<string>, todo: seq<string>, back: seq<string>, i: int, firstNonopt: int)
    reads parser, parser.registry, parser.registry.flags.Values, argv
  {
    parser.registry.Valid() && Progress(types, ws, goal, parser.State(), front, todo, back) &&
    1 <= i <= firstNonopt <= argv.Length && |front| == i - 1 && |todo| == firstNonopt - i &&
    argv[..] == [prog] + front + todo + back
  }

  /** A flag word: sets the flag, perhaps from the next word. */
  method StepFlag(parser: CommandLineFlagParser, argv: array<string>, i: int, firstNonopt: int, word: Word,
                  ghost types: map<string, FlagType>, ghost ws: seq<string>, ghost goal: Parser, ghost prog: string,
                  ghost front: seq<string>, ghost todo: seq<string>, ghost back: seq<string>)
    returns (next: int, stop: bool, ghost front': seq<string>, ghost todo': seq<string>)
    requires At(parser, argv, types, ws, goal, prog, front, todo, back, i, firstNonopt) && i < firstNonopt
    requires word == Classify(types, todo[0]) && !word.Positional? && !word.Terminator?
    modifies parser, parser.registry.flags.Values
    ensures parser.registry.flags == old(parser.registry.flags) && parser.registry.Valid()
    ensures !stop ==> i < next && At(parser, argv, types, ws, goal, prog, front', todo', back, next, firstNonopt)
    ensures stop ==> parser.State() == goal && i + 1 == firstNonopt
    ensures stop ==> Arrange(types, ws) == Arrangement(front + [todo[0]], todo[1..], back)
  {
    hide Classify, SetOption, Arrange, Progress, Types, RunWords;
    front', todo', next, stop := front + [todo[0]], todo[1..], i + 1, false;
    ghost var p := parser.State();
    Take1(prog, front, todo, back);
    match word {
      case Undefined(key) =>
        StepUndefined(types, ws, goal, p, front, todo, back);
        parser.errors := parser.errors + {key};
      case Assign(name, value) =>
        StepAssign(types, ws, goal, p, front, todo, back);
        parser.ProcessSingleOption(name, value, SetValue);
      case NeedsValue(name, key) =>
        if i + 1 >= firstNonopt {
          StepStop(types, ws, goal, p, front, todo, back);
          parser.errors := parser.errors + {key};
          stop := true;
        } else {
          StepPair(types, ws, goal, p, front, todo, back);
          Take2(prog, front, todo, back);
          var value := argv[i + 1];
          assert value == argv[..][i + 1] == todo[1];
          parser.ProcessSingleOption(name, value, SetValue);
          front', todo', next := front + [todo[0], todo[1]], todo[2..], i + 2;
        }
    }
  }

  /** A word that is not a flag goes to the end of argv. */
  method StepPositional(parser: CommandLineFlagParser, argv: array<string>, i: int, firstNonopt: int,
                        ghost types: map<string, FlagType>, ghost ws: seq<string>, ghost goal: Parser, ghost prog: string,
                        ghost front: seq<string>, ghost todo: seq<string>, ghost back: seq<string>)
    requires At(parser, argv, types, ws, goal, prog, front, todo, back, i, firstNonopt) && i < firstNonopt
    requires Classify(types, todo[0]).Positional?
    modifies argv
    ensures At(parser, argv, types, ws, goal, prog, front, todo[1..], back + [todo[0]], i, firstNonopt - 1)
  {
    hide Classify, Arrange, Progress, Types, RunWords;
    StepBack(types, ws, goal, parser.State(), front, todo, back);
    MoveBack(prog, front, todo, back, i);
    ghost var words := argv[..];
    assert argv[..i] == words[..i] && argv[i + 1..] == words[i + 1..] && argv[i] == todo[0];
    MoveToEnd(argv, i);
  }

  /** The loop of `ParseNewCommandLineFlags` */
  method SetAndPermute(parser: CommandLineFlagParser, argv: array<string>) returns (firstNonopt: nat)
    requires parser.registry.Valid() && argv.Length >= 1
    modifies parser, parser.registry.flags.Values, argv
    ensures parser.registry.Valid() && parser.registry.flags == old(parser.registry.flags)
    ensures parser.State() == RunWords(old(parser.State()), old(argv[1..]))
    ensures var a := Arrange(Types(old(parser.registry.Contents())), old(argv[1..]));
      firstNonopt == 1 + |a.front| && argv[..] == [old(argv[0])] + a.front + a.rest + a.back
  {
    hide Classify, Arrange, Progress, Types, RunWords;
    ghost var types := Types(parser.registry.Contents());
    ghost var ws := argv[1..];
    ghost var prog := argv[0];
    ghost var goal := RunWords(parser.State(), ws);
    ghost var front: seq<string>, todo, back: seq<string> := [], ws, [];
    StartProgress(parser.State(), ws);
    firstNonopt := argv.Length;
    var i := 1;
    while i < firstNonopt
      invariant At(parser, argv, types, ws, goal, prog, front, todo, back, i, firstNonopt)
      invariant parser.registry.flags == old(parser.registry.flags)
      decreases firstNonopt - i
    {
      var arg := argv[i];
      assert arg == argv[..][i] == todo[0];
      ProgressTypes(types, ws, goal, parser.State(), front, todo, back);
      var word := Classify(parser.registry.FlagTypes(), arg);
      if word.Positional? {
        StepPositional(parser, argv, i, firstNonopt, types, ws, goal, prog, front, todo, back);
        firstNonopt := firstNonopt - 1;
        todo, back := todo[1..], back + [arg];
      } else if word.Terminator? {
        firstNonopt := i + 1;
        StepStop(types, ws, goal, parser.State(), front, todo, back);
        Take1(prog, front, todo, back);
        return;
      } else {
        var next, stop;
        ghost var f, t;
        next, stop, f, t := StepFlag(parser, argv, i, firstNonopt, word, types, ws, goal, prog, front, todo, back);
        if stop {
          Take1(prog, front, todo, back);
          return;
        }
        i, front, todo := next, f, t;
      }
    }
    StepDone(types, ws, goal, parser.State(), front, todo, back);
  }
}
