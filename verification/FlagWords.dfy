/** The command line, word by word: what a word means, and what it does to its flag and to argv
    wherever the parser meets it. */
module FlagWords {
  import opened FlagValues
  import opened FlagStates
  import opened FlagText
  import opened FlagSettings
  import opened FlagNumerals
  import opened FlagArgv
  import opened Basics

  // ------------------------------------------------------- what a word means

  /** A word is left for the program if it does not begin with a dash, or is just a dash. */
  predicate IsPositional(w: string) {
    w == "" || w[0] != '-' || w == "-"
  }

  lemma PlainWord(types: map<string, FlagType>, w: string)
    ensures Classify(types, w).Positional? <==> IsPositional(w)
    ensures Classify(types, w).Terminator? <==> w == "--"
  {
    hide SplitArgument;
    if Classify(types, w).Terminator? {
      assert w[1] == '-' && w[2..] == [];
      assert |w| == 2;
    }
  }

  lemma DashedWord(types: map<string, FlagType>, w: string, a: string)
    requires Dashed(w, a)
    ensures Classify(types, w) ==
      match SplitArgument(types, a)
      case Unknown(key) => Undefined(key)
      case Found(name, _, Some(v)) => Assign(name, v)
      case Found(name, key, None) => NeedsValue(name, key)
  {
    hide SplitArgument;
    assert |w| >= 2 && w[0] == '-';
    if w == "--" + a {
      assert w[1] == '-' && w[2..] == a;
    } else {
      assert w[1] == a[0] && w[1..] == a;
    }
  }

  /** Every flag word: `Names` says which flag it names, and what for. */
  lemma FlagWord(types: map<string, FlagType>, w: string, key: string, v: Option<string>)
    requires Dashed(w, Spelled(key, v)) && '=' !in key
    ensures Classify(types, w) ==
      match Names(types, key, v)
      case Nothing => Undefined(key)
      case Sets(x, text) => Assign(x, text)
      case Wants(x) => NeedsValue(x, key)
  {
    hide Names, Classify;
    DashedWord(types, w, Spelled(key, v));
    SplitNames(types, key, v);
  }

  /** What the two texts mean that the parser makes up */
  lemma MadeUpTexts(st: FlagState)
    requires TypeOf(st.def).BoolType?
    ensures TryParse(st, "1") == if Validates(st, Bool(true)) then Some(Bool(true)) else None
    ensures TryParse(st, "0") == if Validates(st, Bool(false)) then Some(Bool(false)) else None
  {
    BoolTexts("1");
    BoolTexts("0");
    assert "0"[0] == '0' && "1"[0] == '1' && "t"[0] == 't' && "y"[0] == 'y';
    assert |"true"| == 4 && |"yes"| == 3;
  }

  // -------------------------------------------------- wherever the word stands

  /** The parser gets past these words: they hold no bare `--`, and no flag among them lacks its value. */
  predicate Passed(types: map<string, FlagType>, ws: seq<string>) {
    if ws == [] then true
    else match Classify(types, ws[0])
      case Terminator => false
      case NeedsValue(_, _) => |ws| > 1 && Passed(types, ws[2..])
      case _ => Passed(types, ws[1..])
  }

  /** Any command line: the parser gets past all of it, or it stops at a bare `--` or at a last word
      that lacks its value. */
  lemma {:induction false} WhereItStops(types: map<string, FlagType>, ws: seq<string>) returns (pre: seq<string>, post: seq<string>)
    ensures Passed(types, pre)
    ensures ws == pre || ws == pre + ["--"] + post ||
      (|ws| == |pre| + 1 && ws == pre + [ws[|pre|]] && Classify(types, ws[|pre|]).NeedsValue?)
    decreases |ws|
  {
    hide Classify;
    if ws == [] {
      pre, post := [], [];
    } else {
      PlainWord(types, ws[0]);
      var w := Classify(types, ws[0]);
      if w.Terminator? || (w.NeedsValue? && |ws| == 1) {
        pre, post := [], ws[1..];
      } else {
        var n := if w.NeedsValue? then 2 else 1;
        var p, q := WhereItStops(types, ws[n..]);
        pre, post := ws[..n] + p, q;
        assert ws == ws[..n] + ws[n..] && pre[n..] == p;
        assert ws[n..] == p + ["--"] + q ==> ws == pre + ["--"] + post;
      }
    }
  }

  /** The first word of a passed list, with the value it takes */
  lemma PassedStep(types: map<string, FlagType>, pre: seq<string>, ws: seq<string>) returns (n: nat)
    requires Passed(types, pre) && pre != []
    ensures n == (if Classify(types, pre[0]).NeedsValue? then 2 else 1) <= |pre|
    ensures Passed(types, pre[n..]) && (pre + ws)[0] == pre[0] && (pre + ws)[n..] == pre[n..] + ws
    ensures !Classify(types, pre[0]).Terminator? && (n == 2 ==> (pre + ws)[1] == pre[1])
  {
    hide Classify;
    n := if Classify(types, pre[0]).NeedsValue? then 2 else 1;
  }

  lemma {:induction false} GivenThen(types: map<string, FlagType>, pre: seq<string>, ws: seq<string>)
    requires Passed(types, pre)
    ensures Given(types, pre + ws) == Given(types, pre) + Given(types, ws)
    decreases |pre|
  {
    hide Classify, Passed;
    if pre == [] {
      assert pre + ws == ws;
    } else {
      var n := PassedStep(types, pre, ws);
      GivenThen(types, pre[n..], ws);
    }
  }

  lemma {:induction false} ComplaintsThen(types: map<string, FlagType>, pre: seq<string>, ws: seq<string>)
    requires Passed(types, pre)
    ensures Complaints(types, pre + ws) == Complaints(types, pre) + Complaints(types, ws)
    decreases |pre|
  {
    hide Classify, Passed;
    if pre == [] {
      assert pre + ws == ws;
    } else {
      var n := PassedStep(types, pre, ws);
      ComplaintsThen(types, pre[n..], ws);
    }
  }

  lemma {:induction false} ArrangeThen(types: map<string, FlagType>, pre: seq<string>, ws: seq<string>)
    requires Passed(types, pre)
    ensures var a, r := Arrange(types, pre), Arrange(types, ws);
      a.rest == [] && Arrange(types, pre + ws) == Arrangement(a.front + r.front, r.rest, a.back + r.back)
    decreases |pre|
  {
    hide Classify, Passed, Arrange;
    if pre == [] {
      assert pre + ws == ws;
      ArrangeNothing(types);
    } else {
      var n := PassedStep(types, pre, ws);
      ArrangeThen(types, pre[n..], ws);
      ArrangeOne(types, pre);
      ArrangeOne(types, pre + ws);
      var r := Arrange(types, ws);
      var a := Arrange(types, pre[n..]);
      ConsThen(pre, a.front, r.front);
      ConsThen(pre, a.back, r.back);
    }
  }

  lemma ConsThen(pre: seq<string>, x: seq<string>, y: seq<string>)
    requires pre != []
    ensures [pre[0]] + (x + y) == ([pre[0]] + x) + y
    ensures |pre| > 1 ==> [pre[0], pre[1]] + (x + y) == ([pre[0], pre[1]] + x) + y
  {
  }

  // --------------------------------------------------------- where words go

  /** Behind words that the parser gets past, a word that is no flag joins the words at the end; a bare
      `--` stops the parser, and all words behind it stay as they are, right behind it; and any other
      word joins the flags in front. */
  lemma WordGoes(types: map<string, FlagType>, pre: seq<string>, w: string, post: seq<string>)
    requires Passed(types, pre)
    ensures var a, r, all := Arrange(types, pre), Arrange(types, post), Arrange(types, pre + [w] + post);
      if IsPositional(w) then all == Arrangement(a.front + r.front, r.rest, a.back + [w] + r.back)
      else if w == "--" then all == Arrangement(a.front + [w], post, a.back)
      else a.front + [w] <= all.front
  {
    hide Classify, Passed, Arrange, IsPositional;
    PlainWord(types, w);
    assert pre + [w] + post == pre + ([w] + post);
    ArrangeThen(types, pre, [w] + post);
    ArrangeOne(types, [w] + post);
    assert ([w] + post)[1..] == post;
  }

  /** What the parser complains about: a word that names no flag, and a last word that lacks its value. A word
      that is no flag, or that sets a flag, gives no reason. */
  lemma WordComplains(types: map<string, FlagType>, pre: seq<string>, w: string, post: seq<string>, key: string, v: Option<string>)
    requires Passed(types, pre) && '=' !in key
    ensures var more := Complaints(types, pre + [w] + post);
      if IsPositional(w) then more == Complaints(types, pre) + Complaints(types, post)
      else if w == "--" then more == Complaints(types, pre)
      else Dashed(w, Spelled(key, v)) ==>
        match Names(types, key, v)
        case Nothing => more == Complaints(types, pre) + {key} + Complaints(types, post)
        case Sets(_, _) => more == Complaints(types, pre) + Complaints(types, post)
        case Wants(_) => post == [] ==> more == Complaints(types, pre) + {key}
  {
    hide Classify, Passed, IsPositional, Names, Dashed;
    PlainWord(types, w);
    assert pre + [w] + post == pre + ([w] + post);
    ComplaintsThen(types, pre, [w] + post);
    assert ([w] + post)[0] == w && ([w] + post)[1..] == post;
    if Dashed(w, Spelled(key, v)) {
      FlagWord(types, w, key, v);
    }
  }

  // ------------------------------------------------------ what words do

  /** No word among these sets the flag. */
  ghost predicate LeftAlone(types: map<string, FlagType>, ws: seq<string>, x: string) {
    forall s :: s in Given(types, ws) ==> s.name != x
  }

  /** If the flag accepts the text, it ends set to its value, and else the parser records an error. */
  ghost predicate EndsSet(before: Parser, after: Parser, x: string, text: string)
    requires x in before.store
  {
    x in after.store &&
    match TryParse(before.store[x], text)
    case Some(v) => after.store[x].cur == v && after.store[x].modified
    case None => x in after.errors
  }

  /** The setting behind which no other sets the flag */
  lemma LastSetting(store: Store, before: seq<Setting>, x: string, text: string, after: seq<Setting>)
    requires x in store && forall s :: s in after ==> s.name != x
    ensures var ss := before + ([Setting(x, text)] + after);
      if TryParse(store[x], text).Some? then LastAccepted(store, ss, |before|, x) && ss[|before|].text == text
      else RefusesSome(store, ss, x)
  {
    hide TryParse;
    var ss := before + ([Setting(x, text)] + after);
    var k := |before|;
    assert ss[k] == Setting(x, text);
    forall j | k < j < |ss| ensures ss[j].name != x {
      assert ss[j] == after[j - k - 1];
    }
    assert TryParse(store[x], text).None? ==> Refused(store, ss, k, x);
  }

  /** A setting counts if the parser gets to its word and no later word sets the flag. */
  lemma SettingCounts(p: Parser, pre: seq<string>, ws: seq<string>, post: seq<string>, x: string, text: string)
    requires x in p.store && Passed(Types(p.store), pre) && LeftAlone(Types(p.store), post, x)
    requires Given(Types(p.store), ws + post) == [Setting(x, text)] + Given(Types(p.store), post)
    ensures EndsSet(p, RunWords(p, pre + ws + post), x, text)
  {
    hide TryParse, Given, Passed, RunWords, Complaints, Types, LastAccepted, RefusesSome;
    var types := Types(p.store);
    assert pre + ws + post == pre + (ws + post);
    GivenThen(types, pre, ws + post);
    WordsOutcome(p, pre + ws + post);
    LastSetting(p.store, Given(types, pre), x, text, Given(types, post));
  }

  lemma OneWordCounts(p: Parser, pre: seq<string>, w: string, post: seq<string>, x: string, text: string)
    requires x in p.store && Passed(Types(p.store), pre) && LeftAlone(Types(p.store), post, x)
    requires Classify(Types(p.store), w) == Assign(x, text)
    ensures EndsSet(p, RunWords(p, pre + [w] + post), x, text)
  {
    hide Classify, Passed, EndsSet, RunWords, Types;
    assert ([w] + post)[0] == w && ([w] + post)[1..] == post;
    SettingCounts(p, pre, [w], post, x, text);
  }

  /** `--x` and `-x` leave a bool true. */
  lemma BareWordSets(p: Parser, pre: seq<string>, w: string, post: seq<string>, key: string, x: string)
    requires Dashed(w, key) && '=' !in key && FindFlag(p.store.Keys, key) == Some(x) && TypeOf(p.store[x].def).BoolType?
    requires Passed(Types(p.store), pre) && LeftAlone(Types(p.store), post, x)
    ensures var r := RunWords(p, pre + [w] + post);
      x in r.store && if Validates(p.store[x], Bool(true)) then r.store[x].cur == Bool(true) else x in r.errors
  {
    hide Classify, Passed, RunWords, TryParse, FindFlag, Dashed, LeftAlone;
    FlagWord(Types(p.store), w, key, None);
    MadeUpTexts(p.store[x]);
    OneWordCounts(p, pre, w, post, x, "1");
  }

  /** `--nox` and `-nox` leave a bool false, unless a flag goes by that name. */
  lemma NegatedWordSets(p: Parser, pre: seq<string>, w: string, post: seq<string>, key: string, x: string)
    requires Dashed(w, "no" + key) && '=' !in key && FindFlag(p.store.Keys, key) == Some(x) && TypeOf(p.store[x].def).BoolType?
    requires FindFlag(p.store.Keys, "no" + key).None?
    requires Passed(Types(p.store), pre) && LeftAlone(Types(p.store), post, x)
    ensures var r := RunWords(p, pre + [w] + post);
      x in r.store && if Validates(p.store[x], Bool(false)) then r.store[x].cur == Bool(false) else x in r.errors
  {
    hide Classify, Passed, RunWords, TryParse, FindFlag, Dashed, LeftAlone;
    FlagWord(Types(p.store), w, "no" + key, None);
    assert Negated("no" + key) == Some(key);
    MadeUpTexts(p.store[x]);
    OneWordCounts(p, pre, w, post, x, "0");
  }

  /** `--n=v` and `-n=v` set a flag of any type to what `v` stands for. */
  lemma ValueWordSets(p: Parser, pre: seq<string>, w: string, post: seq<string>, key: string, v: string, x: string)
    requires Dashed(w, key + "=" + v) && '=' !in key && FindFlag(p.store.Keys, key) == Some(x)
    requires Passed(Types(p.store), pre) && LeftAlone(Types(p.store), post, x)
    ensures EndsSet(p, RunWords(p, pre + [w] + post), x, v)
  {
    hide Classify, Passed, RunWords, EndsSet, FindFlag, Dashed, LeftAlone;
    FlagWord(Types(p.store), w, key, Some(v));
    OneWordCounts(p, pre, w, post, x, v);
  }

  /** `--n v` and `-n v` set a flag that is not a bool to what `v` stands for, whatever `v` looks like. */
  lemma NextWordSets(p: Parser, pre: seq<string>, w: string, v: string, post: seq<string>, key: string, x: string)
    requires Dashed(w, key) && '=' !in key && FindFlag(p.store.Keys, key) == Some(x) && !TypeOf(p.store[x].def).BoolType?
    requires Passed(Types(p.store), pre) && LeftAlone(Types(p.store), post, x)
    ensures EndsSet(p, RunWords(p, pre + [w, v] + post), x, v)
  {
    hide Classify, Passed, RunWords, EndsSet, FindFlag, Dashed, LeftAlone;
    FlagWord(Types(p.store), w, key, None);
    var all := [w, v] + post;
    assert all[0] == w && all[1] == v && all[2..] == post;
    SettingCounts(p, pre, [w, v], post, x, v);
  }
}
