/** The registry objects: flags with fields that are set in place, the registry that owns them,
    the saver that copies and restores them, and the parser that reads a flag file with
    rollback on error. */
module FlagRegistry {
  import opened FlagValues
  import opened FlagStates
  import opened FlagText
  import opened FlagSettings
  import opened Basics

  class CommandLineFlag {
    const name: string
    var modified: bool
    var defvalue: Value
    var current: Value
    var validator: Option<Value -> bool>

    constructor (name: string, current: Value, defvalue: Value)
      ensures this.name == name && State() == FlagState(false, defvalue, current, None)
    {
      this.name := name;
      modified := false;
      this.defvalue := defvalue;
      this.current := current;
      validator := None;
    }

    function State(): FlagState
      reads this
    {
      FlagState(modified, defvalue, current, validator)
    }

    method UpdateModifiedBit()
      modifies this`modified
      ensures State() == Updated(old(State()))
    {
      if !modified && current != defvalue {
        modified := true;
      }
    }

    /** Copies every field that is not fixed at construction. */
    method CopyFrom(src: CommandLineFlag)
      modifies this
      ensures State() == old(src.State())
    {
      if modified != src.modified { modified := src.modified; }
      if current != src.current { current := src.current; }
      if defvalue != src.defvalue { defvalue := src.defvalue; }
      validator := src.validator;
    }

    /** `TryParseLocked`: works on a tentative value, so that nothing changes on failure */
    method TryParse(spec: string) returns (v: Option<Value>)
      ensures v == FlagStates.TryParse(State(), spec)
    {
      var tentative := ParseFrom(TypeOf(defvalue), spec);
      if tentative.None? {
        return None;
      } else if validator.Some? && !validator.value(tentative.value) {
        return None;
      }
      return tentative;
    }

    /** `SetFlagLocked` */
    method Set(spec: string, mode: Mode) returns (ok: bool)
      modifies this
      ensures SetResult(ok, State()) == SetFlag(old(State()), spec, mode)
    {
      UpdateModifiedBit();
      match mode {
        case SetValue =>
          var v := TryParse(spec);
          if v.None? { return false; }
          current := v.value;
          modified := true;
        case SetIfDefault =>
          if !modified {
            var v := TryParse(spec);
            if v.None? { return false; }
            current := v.value;
            modified := true;
          }
        case SetDefault =>
          var v := TryParse(spec);
          if v.None? { return false; }
          defvalue := v.value;
          if !modified {
            var again := TryParse(spec);
            if again.Some? { current := again.value; }
          }
      }
      return true;
    }
  }

  class Registry {
    var flags: map<string, CommandLineFlag>

    constructor ()
      ensures Valid() && Contents() == map[]
    {
      flags := map[];
    }

    ghost predicate Valid()
      reads this, flags.Values
    {
      forall n :: n in flags ==> flags[n].name == n
    }

    /** The registry as a map from names to flag states */
    ghost function Contents(): (s: Store)
      reads this, flags.Values
      ensures s.Keys == flags.Keys
    {
      map n | n in flags :: flags[n].State()
    }

    /** `RegisterFlag`; a second flag of the same name is refused. */
    method RegisterFlag(flag: CommandLineFlag) returns (ok: bool)
      requires Valid()
      modifies this
      ensures Valid() && ok == (flag.name !in old(flags))
      ensures flags == if ok then old(flags)[flag.name := flag] else old(flags)
      ensures Contents() == if ok then old(Contents())[flag.name := flag.State()] else old(Contents())
    {
      if flag.name in flags {
        return false;
      }
      flags := flags[flag.name := flag];
      return true;
    }

    /** The types of the registered flags */
    function FlagTypes(): (t: map<string, FlagType>)
      reads this, flags.Values
      ensures t == Types(Contents())
    {
      map n | n in flags :: TypeOf(flags[n].defvalue)
    }
  }

  function NamesOf(fs: seq<CommandLineFlag>): set<string> {
    set f | f in fs :: f.name
  }

  lemma NoNames()
    ensures NamesOf([]) == {}
  {
  }

  lemma NamesOfSnoc(fs: seq<CommandLineFlag>, f: CommandLineFlag)
    ensures NamesOf(fs + [f]) == NamesOf(fs) + {f.name}
  {
    forall g | g in fs ensures g.name in NamesOf(fs + [f]) {
      assert g in fs + [f];
    }
    assert f in fs + [f];
  }

  method CopyOf(flag: CommandLineFlag) returns (copy: CommandLineFlag)
    ensures fresh(copy) && copy.name == flag.name && copy.State() == flag.State()
  {
    copy := new CommandLineFlag(flag.name, flag.current, flag.defvalue);
    copy.CopyFrom(flag);
  }

  /** `FlagSaverImpl`: copies of all flags */
  class FlagSaver {
    const main: Registry
    var backup: seq<CommandLineFlag>

    /** The states saved, by name */
    ghost predicate Saved(s: Store)
      reads this, backup
    {
      NamesOf(backup) == s.Keys && forall f :: f in backup ==> f.name in s && f.State() == s[f.name]
    }

    /** `SaveFromRegistry` */
    constructor (registry: Registry)
      requires registry.Valid()
      ensures main == registry && fresh(backup) && Saved(registry.Contents())
    {
      main := registry;
      backup := [];
      new;
      hide NamesOf, CommandLineFlag.State;
      NoNames();
      var todo := registry.flags.Keys;
      while todo != {}
        invariant todo <= registry.flags.Keys && fresh(backup)
        invariant registry.flags == old(registry.flags) && registry.Contents() == old(registry.Contents())
        invariant NamesOf(backup) == registry.flags.Keys - todo
        invariant forall f :: f in backup ==> f.name in registry.flags && f.State() == registry.Contents()[f.name]
        decreases todo
      {
        var n :| n in todo;
        var copy := CopyOf(registry.flags[n]);
        NamesOfSnoc(backup, copy);
        backup := backup + [copy];
        todo := todo - {n};
      }
    }

    /** `RestoreToRegistry`: the flags keep their place, only their contents go back. */
    method RestoreToRegistry(ghost s: Store)
      requires main.Valid() && Saved(s) && main.flags.Keys == s.Keys
      requires forall f :: f in backup ==> f !in main.flags.Values
      modifies main.flags.Values
      ensures main.Valid() && main.flags == old(main.flags) && main.Contents() == s
    {
      hide NamesOf, CommandLineFlag.State;
      NoNames();
      var i := 0;
      while i < |backup|
        invariant 0 <= i <= |backup| && Saved(s)
        invariant forall n :: n in NamesOf(backup[..i]) ==> n in main.flags && main.flags[n].State() == s[n]
      {
        var saved := backup[i];
        assert saved in backup;
        if saved.name in main.flags {
          main.flags[saved.name].CopyFrom(saved);
        }
        assert backup[..i + 1] == backup[..i] + [saved];
        NamesOfSnoc(backup[..i], saved);
        i := i + 1;
      }
      assert backup[..|backup|] == backup;
    }
  }

  class CommandLineFlagParser {
    const registry: Registry
    var errors: set<string>

    constructor (registry: Registry)
      ensures this.registry == registry && errors == {}
    {
      this.registry := registry;
      errors := {};
    }

    ghost function State(): Parser
      reads this, registry, registry.flags.Values
    {
      Parser(registry.Contents(), errors)
    }

    /** `ProcessSingleOptionLocked` */
    method ProcessSingleOption(name: string, spec: string, mode: Mode)
      requires registry.Valid() && name in registry.flags
      modifies this, registry.flags[name]
      ensures registry.Valid() && registry.flags == old(registry.flags)
      ensures State() == SetOption(old(State()), name, spec, mode)
    {
      hide SetFlag, CommandLineFlag.State;
      var ok := registry.flags[name].Set(spec, mode);
      if !ok {
        errors := errors + {name};
      }
    }

    /** One line of a flag file */
    method ProcessLine(line: string, mode: Mode, matches: string -> bool, relevant: bool, inFilenames: bool)
      returns (relevant': bool, inFilenames': bool)
      requires registry.Valid()
      modifies this, registry.flags.Values
      ensures registry.Valid() && registry.flags == old(registry.flags)
      ensures FileState(State(), relevant', inFilenames') ==
        ReadLine(FileState(old(State()), relevant, inFilenames), line, mode, matches)
    {
      hide SetOption, SplitArgument, AnyWordMatches;
      relevant', inFilenames' := relevant, inFilenames;
      if line == [] || line[0] == '#' {
        // a comment or an empty line
      } else if line[0] == '-' {
        inFilenames' := false;
        if relevant {
          var arg := if |line| > 1 && line[1] == '-' then line[2..] else line[1..];
          var split := SplitArgument(registry.FlagTypes(), arg);
          if split.Found? && split.value.Some? {
            ProcessSingleOption(split.name, split.value.value, mode);
          }
        }
      } else {
        if !inFilenames {
          inFilenames' := true;
          relevant' := false;
        }
        if !relevant' {
          relevant' := AnyWordMatches(line, matches);
        }
      }
    }

    /** `ProcessOptionsFromStringLocked` */
    method ProcessOptionsFromString(text: string, mode: Mode, matches: string -> bool)
      requires registry.Valid()
      modifies this, registry.flags.Values
      ensures registry.Valid() && registry.flags == old(registry.flags)
      ensures State() == ReadText(FileState(old(State()), true, false), text, 0, mode, matches).parser
    {
      hide ReadLine;
      var relevant, inFilenames := true, false;
      var at := 0;
      var more := true;
      ghost var goal := ReadText(FileState(old(State()), true, false), text, 0, mode, matches);
      while more
        invariant at <= |text| && registry.Valid() && registry.flags == old(registry.flags)
        invariant if more then ReadText(FileState(State(), relevant, inFilenames), text, at, mode, matches) == goal
                  else State() == goal.parser
        decreases more, |text| - at
      {
        var start := SkipSpaces(text, at);
        var end := LineEnd(text, start);
        var line := if end.Some? then text[start..end.value] else text[start..];
        relevant, inFilenames := ProcessLine(line, mode, matches, relevant, inFilenames);
        more := end.Some?;
        if more {
          at := end.value + 1;
        }
      }
    }
  }

  lemma ReadOutcome(before: Store, text: string, matches: string -> bool)
    ensures var ss, r := TextSettings(Types(before), text, matches),
        ReadText(FileState(Parser(before, {}), true, false), text, 0, SetValue, matches).parser;
      Registered(before, ss) && (r.errors == {} <==> AllAccepted(before, ss)) &&
      forall n :: n in before ==> Ends(before, ss, n, r.store[n])
  {
    hide ReadText, TextSettings, Ends, AllAccepted, RefusesSome, Types;
    TextOutcome(Parser(before, {}), text, matches);
    AcceptedOrRefused(before, TextSettings(Types(before), text, matches));
    var errors := ReadText(FileState(Parser(before, {}), true, false), text, 0, SetValue, matches).parser.errors;
    if n :| n in errors {
      assert errors != {};
    }
  }

  /** `ReadFlagsFromString`: either the whole text is applied, or every flag is back where it was -
      value, default, modified bit and validator. */
  method ReadFlagsFromString(registry: Registry, text: string, matches: string -> bool) returns (ok: bool)
    requires registry.Valid()
    modifies registry.flags.Values
    ensures registry.Valid() && registry.flags == old(registry.flags)
    ensures var r := ReadText(FileState(Parser(old(registry.Contents()), {}), true, false), text, 0, SetValue, matches).parser;
      ok == (r.errors == {}) && registry.Contents() == if ok then r.store else old(registry.Contents())
    ensures var before := old(registry.Contents());
      var ss := TextSettings(Types(before), text, matches);
      Registered(before, ss) && (ok <==> AllAccepted(before, ss)) && (!ok ==> registry.Contents() == before) &&
      (ok ==> forall n :: n in before ==> Ends(before, ss, n, registry.Contents()[n]))
  {
    hide ReadText, FlagSaver.Saved, TextSettings, Ends, AllAccepted, RefusesSome, Types;
    ReadOutcome(registry.Contents(), text, matches);
    var saver := new FlagSaver(registry);
    var parser := new CommandLineFlagParser(registry);
    parser.ProcessOptionsFromString(text, SetValue, matches);
    ok := parser.errors == {};
    if !ok {
      saver.RestoreToRegistry(old(registry.Contents()));
    }
  }
}
