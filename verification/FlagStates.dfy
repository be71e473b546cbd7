/** What setting a flag does to it: the modified bit, the three set modes, and what they keep
    over any sequence of sets and direct writes to the flag variable. */
module FlagStates {
  import opened FlagValues
  import opened Basics

  /** The mutable part of a `CommandLineFlag`. Validators are pure functions of the value. */
  datatype FlagState = FlagState(modified: bool, def: Value, cur: Value, validator: Option<Value -> bool>)

  datatype Mode = SetValue | SetIfDefault | SetDefault

  predicate WellTyped(st: FlagState) {
    TypeOf(st.def) == TypeOf(st.cur) && InRange(st.def) && InRange(st.cur)
  }

  /** `UpdateModifiedBit`: somebody may have written through the FLAGS_ variable. */
  function Updated(st: FlagState): FlagState {
    if !st.modified && st.cur != st.def then st.(modified := true) else st
  }

  predicate Validates(st: FlagState, v: Value) {
    match st.validator
    case None => true
    case Some(f) => f(v)
  }

  /** `TryParseLocked`: the value a text stands for, if it parses and validates */
  function TryParse(st: FlagState, spec: string): (v: Option<Value>)
    ensures v.Some? ==> TypeOf(v.value) == TypeOf(st.def) && InRange(v.value) && Validates(st, v.value)
  {
    var v := ParseFrom(TypeOf(st.def), spec);
    if v.Some? && Validates(st, v.value) then v else None
  }

  datatype SetResult = SetResult(ok: bool, state: FlagState)

  /** `FlagRegistry::SetFlagLocked` */
  function SetFlag(before: FlagState, spec: string, mode: Mode): SetResult {
    var st := Updated(before);
    match mode
    case SetValue =>
      var v := TryParse(st, spec);
      if v.None? then SetResult(false, st) else SetResult(true, st.(cur := v.value, modified := true))
    case SetIfDefault =>
      if st.modified then SetResult(true, st)
      else
        var v := TryParse(st, spec);
        if v.None? then SetResult(false, st) else SetResult(true, st.(cur := v.value, modified := true))
    case SetDefault =>
      var v := TryParse(st, spec);
      if v.None? then SetResult(false, st)
      else
        var st' := st.(def := v.value);
        if st'.modified then SetResult(true, st')
        else
          var again := TryParse(st', spec);
          SetResult(true, if again.Some? then st'.(cur := again.value) else st')
  }

  // ------------------------------------------------------------ one set

  /** An unmodified flag has its default value. */
  predicate Settled(st: FlagState) {
    !st.modified ==> st.cur == st.def
  }

  /** What every set leaves behind, whatever the mode and the text */
  lemma SetKeeps(st: FlagState, spec: string, mode: Mode)
    requires WellTyped(st)
    ensures var r := SetFlag(st, spec, mode);
      WellTyped(r.state) && TypeOf(r.state.cur) == TypeOf(st.cur) && Settled(r.state) &&
      r.state.validator == st.validator && (st.modified ==> r.state.modified)
  {
  }

  /** A failed set changes neither value; it fails exactly when a value was needed and the
      text gives none. */
  lemma FailedSet(st: FlagState, spec: string, mode: Mode)
    ensures var r := SetFlag(st, spec, mode);
      (!r.ok ==> r.state.cur == st.cur && r.state.def == st.def) &&
      (r.ok <==> TryParse(st, spec).Some? || (mode.SetIfDefault? && (st.modified || st.cur != st.def)))
  {
  }

  /** A successful set: the text's value becomes the current one, and the default stays; setting
      the default moves the default, and the current value with it unless the flag was set. */
  lemma SucceededSet(st: FlagState, spec: string, mode: Mode)
    requires SetFlag(st, spec, mode).ok && TryParse(st, spec).Some?
    ensures var r, v := SetFlag(st, spec, mode).state, TryParse(st, spec).value;
      var wasSet := st.modified || st.cur != st.def;
      match mode
      case SetValue => r.cur == v && r.def == st.def && r.modified
      case SetIfDefault => r.cur == (if wasSet then st.cur else v) && r.def == st.def && r.modified
      case SetDefault => r.def == v && r.cur == (if wasSet then st.cur else v) && r.modified == wasSet
  {
  }

  /** Set-if-default never overwrites a value that was set, or that differs from the default. */
  lemma IfDefaultKeepsSetValues(st: FlagState, spec: string)
    requires st.modified || st.cur != st.def
    ensures SetFlag(st, spec, SetIfDefault) == SetResult(true, st.(modified := true))
  {
  }

  // ----------------------------------------------------------- whole runs

  datatype Event = Set(spec: string, mode: Mode) | Write(v: Value)

  function Step(st: FlagState, e: Event): FlagState {
    match e
    case Set(spec, mode) => SetFlag(st, spec, mode).state
    case Write(v) => st.(cur := v)
  }

  function Run(st: FlagState, es: seq<Event>): FlagState {
    if es == [] then st else Step(Run(st, es[..|es| - 1]), es[|es| - 1])
  }

  /** The C++ type of the variable limits what can be written. */
  ghost predicate TypedWrites(t: FlagType, es: seq<Event>) {
    forall k :: 0 <= k < |es| && es[k].Write? ==> TypeOf(es[k].v) == t && InRange(es[k].v)
  }

  /** In every run the flag stays well typed and keeps its validator, the modified bit is never
      cleared, and a run that ends with a set ends settled. */
  lemma {:induction false} RunKeeps(st: FlagState, es: seq<Event>)
    requires WellTyped(st) && TypedWrites(TypeOf(st.cur), es)
    ensures var r := Run(st, es);
      WellTyped(r) && TypeOf(r.cur) == TypeOf(st.cur) && r.validator == st.validator &&
      (st.modified ==> r.modified) && (es != [] && es[|es| - 1].Set? ==> Settled(r))
  {
    if es != [] {
      var front := es[..|es| - 1];
      RunKeeps(st, front);
      var last := es[|es| - 1];
      if last.Set? {
        SetKeeps(Run(st, front), last.spec, last.mode);
      }
    }
  }

  /** Without direct writes, a validated flag only ever holds validated values. */
  lemma {:induction false} RunStaysValid(st: FlagState, es: seq<Event>)
    requires WellTyped(st) && Validates(st, st.cur) && Validates(st, st.def)
    requires forall k :: 0 <= k < |es| ==> es[k].Set?
    ensures var r := Run(st, es); Validates(st, r.cur) && Validates(st, r.def) && r.validator == st.validator
  {
    if es != [] {
      RunStaysValid(st, es[..|es| - 1]);
    }
  }

  /** The value of the first text that is acceptable, or `None` */
  function FirstAccepted(st: FlagState, specs: seq<string>): Option<Value> {
    if specs == [] then None
    else if TryParse(st, specs[0]).Some? then TryParse(st, specs[0])
    else FirstAccepted(st, specs[1..])
  }

  function IfDefaultEvents(specs: seq<string>): seq<Event> {
    seq(|specs|, k requires 0 <= k < |specs| => Set(specs[k], SetIfDefault))
  }

  /** Competing set-if-defaults: the first acceptable one wins and the others are ignored. */
  lemma {:induction false} FirstIfDefaultWins(st: FlagState, specs: seq<string>)
    requires !st.modified && st.cur == st.def
    ensures Run(st, IfDefaultEvents(specs)) ==
      (match FirstAccepted(st, specs) case None => st case Some(v) => st.(cur := v, modified := true))
  {
    if specs != [] {
      var front, last := specs[..|specs| - 1], specs[|specs| - 1];
      FirstIfDefaultWins(st, front);
      FirstAcceptedSnoc(st, front, last);
      assert specs == front + [last];
      assert IfDefaultEvents(specs) == IfDefaultEvents(front) + [Set(last, SetIfDefault)];
      assert IfDefaultEvents(specs)[..|specs| - 1] == IfDefaultEvents(front);
    }
  }

  lemma {:induction false} FirstAcceptedSnoc(st: FlagState, specs: seq<string>, last: string)
    ensures FirstAccepted(st, specs + [last]) ==
      if FirstAccepted(st, specs).Some? then FirstAccepted(st, specs) else TryParse(st, last)
  {
    if specs == [] {
      assert [] + [last] == [last];
    } else {
      assert (specs + [last])[1..] == specs[1..] + [last];
      FirstAcceptedSnoc(st, specs[1..], last);
    }
  }
}
