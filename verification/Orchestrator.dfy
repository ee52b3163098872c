/**
 The orchestrator spine (mantlekeep-control/orchestrator/orchestrator.go): levels run in
 order, the steps of a level concurrently, and a failure compensates completed steps newest
 first.

 A run is a state machine over atomic steps. A schedule is any sequence of enabled actions,
 so a statement about every schedule is a statement about every interleaving of the
 goroutines and every outcome the runner may report.
 */
module Orchestrator {
  import opened Dag
  import opened Options

  datatype EventKind =
    | RunStarted | StepStarted | StepSucceeded | StepFailed | StepCompensated | RunFailed | RunSucceeded

  datatype Event = Event(number: nat, run: string, step: string, kind: EventKind, detail: string)

  datatype Phase = Waiting | Running | Finished

  datatype Stage = Executing | Undoing(left: nat) | Ended

  /** `completed`, `failed` and `failErr` are the fields the lock guards; `phases` are the
      goroutines of the current level, by position. */
  datatype RunState = RunState(
    level: nat, phases: seq<Phase>, stage: Stage,
    completed: seq<Step>, failed: string, failErr: string, trace: seq<Event>)

  datatype Action =
    | Start(i: nat)
    | Succeed(i: nat, detail: string)
    | Fail(i: nat, error: string)
    | Advance
    | Undo(detail: string)
    | Close

  type Levels = seq<seq<Step>>

  // ---------------------------------------------------------------------------------------
  // The machine
  // ---------------------------------------------------------------------------------------

  function Fresh(levels: Levels, level: nat): (phases: seq<Phase>) {
    if level < |levels| then seq(|levels[level]|, _ => Waiting) else []
  }

  function Initial(levels: Levels, run: string, detail: string): RunState {
    RunState(0, Fresh(levels, 0), Executing, [], "", "", [Event(0, run, "", RunStarted, detail)])
  }

  predicate InPhase(levels: Levels, s: RunState, i: nat, phase: Phase) {
    && s.stage.Executing? && s.level < |levels|
    && i < |s.phases| && i < |levels[s.level]| && s.phases[i] == phase
  }

  predicate Enabled(levels: Levels, s: RunState, a: Action) {
    match a
    case Start(i) => InPhase(levels, s, i, Waiting)
    case Succeed(i, _) => InPhase(levels, s, i, Running)
    case Fail(i, _) => InPhase(levels, s, i, Running)
    case Advance => s.stage.Executing? && forall i | 0 <= i < |s.phases| :: s.phases[i] == Finished
    case Undo(_) => s.stage.Undoing? && 0 < s.stage.left <= |s.completed|
    case Close => s.stage.Undoing? && s.stage.left == 0
  }

  function Emit(s: RunState, run: string, step: string, kind: EventKind, detail: string): RunState {
    s.(trace := s.trace + [Event(0, run, step, kind, detail)])
  }

  /** One atomic step. `Succeed` and `Fail` are the critical section of a step's outcome:
      its event and its place in the completion order are made together. */
  function Apply(levels: Levels, run: string, s: RunState, a: Action): RunState
    requires Enabled(levels, s, a)
  {
    match a
    case Start(i) =>
      var step := levels[s.level][i];
      Emit(s.(phases := s.phases[i := Running]), run, step.name, StepStarted, step.runtime)
    case Succeed(i, detail) =>
      var step := levels[s.level][i];
      Emit(s.(phases := s.phases[i := Finished], completed := s.completed + [step]),
           run, step.name, StepSucceeded, detail)
    case Fail(i, error) =>
      var step := levels[s.level][i];
      var failing := Emit(s.(phases := s.phases[i := Finished]), run, step.name, StepFailed, error);
      if s.failed == "" then failing.(failed := step.name, failErr := error) else failing
    case Advance =>
      if s.failed != "" then s.(stage := Undoing(|s.completed|))
      else if s.level < |levels| then s.(level := s.level + 1, phases := Fresh(levels, s.level + 1))
      else Emit(s.(stage := Ended), run, "", RunSucceeded, "")
    case Undo(detail) =>
      Emit(s.(stage := Undoing(s.stage.left - 1)), run, s.completed[s.stage.left - 1].name, StepCompensated, detail)
    case Close =>
      Emit(s.(stage := Ended), run, s.failed, RunFailed, s.failErr)
  }

  /** The state after a schedule, or None when some action was not enabled. */
  function Play(levels: Levels, run: string, detail: string, schedule: seq<Action>): Option<RunState> {
    if schedule == [] then Some(Initial(levels, run, detail))
    else
      var n := |schedule| - 1;
      match Play(levels, run, detail, schedule[..n])
      case None => None
      case Some(s) =>
        if Enabled(levels, s, schedule[n]) then Some(Apply(levels, run, s, schedule[n])) else None
  }

  // ---------------------------------------------------------------------------------------
  // Reading a trace
  // ---------------------------------------------------------------------------------------

  /** The steps a trace names with one kind of event, in order. */
  function Named(trace: seq<Event>, kind: EventKind): seq<string> {
    if trace == [] then []
    else
      var n := |trace| - 1;
      Named(trace[..n], kind) + if trace[n].kind == kind then [trace[n].step] else []
  }

  function StepNames(steps: seq<Step>): (names: seq<string>)
    ensures |names| == |steps|
    ensures forall i | 0 <= i < |steps| :: names[i] == steps[i].name
  {
    seq(|steps|, i requires 0 <= i < |steps| => steps[i].name)
  }

  /** The first name that is not the empty string: the empty string is also "no failure". */
  function FirstNonEmpty(names: seq<string>): string {
    if names == [] then ""
    else
      var n := |names| - 1;
      var before := FirstNonEmpty(names[..n]);
      if before != "" then before else names[n]
  }

  function Reverse(names: seq<string>): (r: seq<string>)
    ensures |r| == |names|
    ensures forall i | 0 <= i < |names| :: r[i] == names[|names| - 1 - i]
  {
    if names == [] then [] else Reverse(names[1..]) + [names[0]]
  }

  predicate NoRepeats(names: seq<string>) {
    forall i, j | 0 <= i < j < |names| :: names[i] != names[j]
  }

  predicate IsTerminal(e: Event) {
    e.kind == RunFailed || e.kind == RunSucceeded
  }

  lemma {:induction false} NamedAppend(trace: seq<Event>, e: Event, kind: EventKind)
    ensures Named(trace + [e], kind) ==
              if e.kind == kind then Named(trace, kind) + [e.step] else Named(trace, kind)
  {
    assert (trace + [e])[..|trace|] == trace;
  }

  lemma {:induction false} FirstNonEmptyAppend(names: seq<string>, name: string)
    ensures FirstNonEmpty(names + [name]) == if FirstNonEmpty(names) != "" then FirstNonEmpty(names) else name
  {
    assert (names + [name])[..|names|] == names;
  }

  lemma {:induction false} FirstNonEmptyIs(names: seq<string>)
    ensures FirstNonEmpty(names) == "" ==> forall name | name in names :: name == ""
    ensures FirstNonEmpty(names) != "" ==> FirstNonEmpty(names) in names
  {
    if names != [] {
      var n := |names| - 1;
      FirstNonEmptyIs(names[..n]);
      assert names == names[..n] + [names[n]];
    }
  }

  ghost predicate HasNonEmpty(names: seq<string>) {
    exists name :: name in names && name != ""
  }

  lemma {:induction false} SomeNonEmpty(names: seq<string>)
    ensures FirstNonEmpty(names) != "" <==> HasNonEmpty(names)
  {
    FirstNonEmptyIs(names);
  }

  lemma {:induction false} FirstNonEmptyIsFirst(names: seq<string>)
    requires names != [] && names[0] != ""
    ensures FirstNonEmpty(names) == names[0]
  {
    var n := |names| - 1;
    if n > 0 {
      FirstNonEmptyIsFirst(names[..n]);
    } else {
      assert names[..n] == [];
    }
  }

  // ---------------------------------------------------------------------------------------
  // Workflows that pass the gate
  // ---------------------------------------------------------------------------------------

  ghost predicate Accepted(steps: seq<Step>, levels: Levels) {
    UniqueNames(steps) && KnownDependencies(steps) && IsLayering(steps, levels)
  }

  ghost predicate NonEmptyNames(steps: seq<Step>) {
    forall i | 0 <= i < |steps| :: steps[i].name != ""
  }

  lemma {:induction false} SelectKeepsUnique(steps: seq<Step>, names: set<string>)
    requires UniqueNames(steps)
    ensures UniqueNames(Select(steps, names))
  {
    if steps != [] {
      var front := steps[..|steps| - 1];
      SelectKeepsUnique(front, names);
      SelectMembers(front, names);
      forall i | 0 <= i < |Select(front, names)|
        ensures Select(front, names)[i].name != steps[|steps| - 1].name
      {
        assert Select(front, names)[i] in front;
      }
    }
  }

  /** No two places in the levels hold the same name. */
  lemma OnePlacePerName(steps: seq<Step>, levels: Levels, j: nat, i: nat, k: nat, h: nat)
    requires Accepted(steps, levels)
    requires j < |levels| && i < |levels[j]| && k < |levels| && h < |levels[k]|
    requires levels[j][i].name == levels[k][h].name
    ensures j == k && i == h
  {
    assert LevelShape(steps, levels[j], j) && LevelShape(steps, levels[k], k);
    assert levels[j][i] in levels[j] && levels[k][h] in levels[k];
    LongestChainIsUnique(steps, levels[j][i].name, j, k);
    SelectKeepsUnique(steps, Names(levels[j]));
  }

  lemma PlaceOf(steps: seq<Step>, levels: Levels, s: Step) returns (j: nat, i: nat)
    requires Accepted(steps, levels) && s in steps
    ensures j < |levels| && i < |levels[j]| && levels[j][i] == s
  {
    assert s in multiset(steps);
    FlattenMembers(levels, s);
    j :| 0 <= j < |levels| && s in levels[j];
    i :| 0 <= i < |levels[j]| && levels[j][i] == s;
  }

  lemma PlacedIsAStep(steps: seq<Step>, levels: Levels, j: nat, i: nat)
    requires Accepted(steps, levels) && j < |levels| && i < |levels[j]|
    ensures levels[j][i] in steps
  {
    assert levels[j][i] in levels[j];
    FlattenMembers(levels, levels[j][i]);
    assert levels[j][i] in multiset(steps);
  }

  // ---------------------------------------------------------------------------------------
  // Invariants of every run
  // ---------------------------------------------------------------------------------------

  ghost function PhaseAt(s: RunState, j: nat, i: nat): Phase {
    if j < s.level then Finished
    else if j == s.level && i < |s.phases| then s.phases[i]
    else Waiting
  }

  /** What the trace says about one step, given the phase of its goroutine. */
  ghost predicate Accounted(trace: seq<Event>, name: string, phase: Phase) {
    && (name in Named(trace, StepStarted) <==> phase != Waiting)
    && (name in Named(trace, StepSucceeded) || name in Named(trace, StepFailed) <==> phase == Finished)
    && !(name in Named(trace, StepSucceeded) && name in Named(trace, StepFailed))
  }

  ghost predicate Accounts(levels: Levels, s: RunState) {
    && s.level <= |levels|
    && |s.phases| == (if s.level < |levels| then |levels[s.level]| else 0)
    && (forall j, i | 0 <= j < |levels| && 0 <= i < |levels[j]| ::
          AccountedAt(levels, s, j, i))
  }

  ghost predicate AccountedAt(levels: Levels, s: RunState, j: nat, i: nat)
    requires j < |levels| && i < |levels[j]|
  {
    Accounted(s.trace, levels[j][i].name, PhaseAt(s, j, i))
  }

  /** The lock-guarded fields say what the trace says. */
  ghost predicate FieldsMatchTrace(s: RunState) {
    && StepNames(s.completed) == Named(s.trace, StepSucceeded)
    && NoRepeats(Named(s.trace, StepSucceeded))
    && s.failed == FirstNonEmpty(Named(s.trace, StepFailed))
  }

  ghost predicate UndoneSoFar(s: RunState) {
    match s.stage
    case Executing => Named(s.trace, StepCompensated) == []
    case Undoing(left) =>
      && s.failed != "" && left <= |s.completed|
      && Named(s.trace, StepCompensated) == Reverse(StepNames(s.completed[left..]))
    case Ended =>
      Named(s.trace, StepCompensated) == if s.failed == "" then [] else Reverse(StepNames(s.completed))
  }

  /** Levels are passed only without a recorded failure; a recorded failure is in this level. */
  ghost predicate FailureIsHere(levels: Levels, s: RunState) {
    && (forall j, i | 0 <= j < s.level && j < |levels| && 0 <= i < |levels[j]| ::
          PassedAt(levels, s, j, i))
    && (s.failed != "" ==> s.level < |levels| && s.failed in Names(levels[s.level]))
    && (s.stage == Ended && s.failed == "" ==> s.level == |levels|)
  }

  ghost predicate PassedAt(levels: Levels, s: RunState, j: nat, i: nat)
    requires j < |levels| && i < |levels[j]|
  {
    levels[j][i].name in Named(s.trace, StepFailed) ==> levels[j][i].name == ""
  }

  /** Every completed step's dependencies were completed before it. */
  ghost predicate CompletedInOrder(completed: seq<Step>) {
    forall i | 0 <= i < |completed| :: InOrderAt(completed, i)
  }

  ghost predicate InOrderAt(completed: seq<Step>, i: nat)
    requires i < |completed|
  {
    forall d | d in completed[i].dependsOn :: d in StepNames(completed[..i])
  }

  ghost predicate NamesAStep(steps: seq<Step>, name: string) {
    exists s :: s in steps && s.name == name
  }

  /** Every dependency of the step has succeeded by now. */
  ghost predicate DependenciesMet(steps: seq<Step>, before: seq<Event>, name: string) {
    forall s, d | s in steps && s.name == name && d in s.dependsOn :: d in Named(before, StepSucceeded)
  }

  /** The step is of the level the recorded failure is of. */
  ghost predicate InFailedLevel(levels: Levels, before: seq<Event>, name: string) {
    exists k | 0 <= k < |levels| :: name in Names(levels[k]) && FirstNonEmpty(Named(before, StepFailed)) in Names(levels[k])
  }

  /** What may be emitted after `before`. */
  ghost predicate EventAllowed(steps: seq<Step>, levels: Levels, before: seq<Event>, e: Event) {
    && (forall i | 0 <= i < |before| :: !IsTerminal(before[i]))
    && (e.kind == RunStarted <==> before == [])
    && (e.kind == StepStarted ==>
          && e.step !in Named(before, StepStarted)
          && NamesAStep(steps, e.step)
          && (NonEmptyNames(steps) ==> DependenciesMet(steps, before, e.step))
          && (FirstNonEmpty(Named(before, StepFailed)) != "" ==> InFailedLevel(levels, before, e.step)))
    && (e.kind == StepSucceeded || e.kind == StepFailed ==>
          && e.step in Named(before, StepStarted)
          && e.step !in Named(before, StepSucceeded) && e.step !in Named(before, StepFailed))
    && (e.kind != StepCompensated && !IsTerminal(e) ==> Named(before, StepCompensated) == [])
    && (e.kind == StepCompensated || e.kind == RunFailed ==> FirstNonEmpty(Named(before, StepFailed)) != "")
    && (e.kind == RunFailed ==> e.step == FirstNonEmpty(Named(before, StepFailed)))
    && (e.kind == RunSucceeded ==> FirstNonEmpty(Named(before, StepFailed)) == "")
  }

  ghost predicate TraceAllowed(steps: seq<Step>, levels: Levels, trace: seq<Event>) {
    forall q | 0 <= q < |trace| :: AllowedAt(steps, levels, trace, q)
  }

  ghost predicate AllowedAt(steps: seq<Step>, levels: Levels, trace: seq<Event>, q: nat)
    requires q < |trace|
  {
    EventAllowed(steps, levels, trace[..q], trace[q])
  }

  ghost predicate TerminalIffEnded(s: RunState) {
    && s.trace != []
    && (s.stage == Ended <==> IsTerminal(s.trace[|s.trace| - 1]))
    && (forall q | 0 <= q < |s.trace| - 1 :: !IsTerminal(s.trace[q]))
    && (s.stage == Ended ==> (s.failed != "" <==> s.trace[|s.trace| - 1].kind == RunFailed))
  }

  ghost predicate Invariant(steps: seq<Step>, levels: Levels, s: RunState) {
    && Accounts(levels, s)
    && FieldsMatchTrace(s)
    && UndoneSoFar(s)
    && FailureIsHere(levels, s)
    && (NonEmptyNames(steps) ==> CompletedInOrder(s.completed))
    && TraceAllowed(steps, levels, s.trace)
    && TerminalIffEnded(s)
  }

  // ---------------------------------------------------------------------------------------
  // Each invariant is kept by each action
  // ---------------------------------------------------------------------------------------

  /** What an action appends to the trace, if anything. */
  lemma AtMostOneEvent(levels: Levels, run: string, s: RunState, a: Action)
    requires Enabled(levels, s, a)
    ensures var t := Apply(levels, run, s, a);
            || t.trace == s.trace
            || (t.trace == s.trace + [t.trace[|s.trace|]]
                && var e := t.trace[|s.trace|];
                   (e.kind == StepStarted || e.kind == StepSucceeded || e.kind == StepFailed ==>
                      (a.Start? || a.Succeed? || a.Fail?) && e.step == levels[s.level][a.i].name))
  {
  }

  lemma PhaseKeptElsewhere(levels: Levels, run: string, s: RunState, a: Action, j: nat, i: nat)
    requires Accounts(levels, s) && Enabled(levels, s, a)
    requires j < |levels| && i < |levels[j]|
    requires (a.Start? || a.Succeed? || a.Fail?) ==> levels[s.level][a.i].name != levels[j][i].name
    ensures PhaseAt(Apply(levels, run, s, a), j, i) == PhaseAt(s, j, i)
  {
  }

  /** An event about another step leaves a step's account alone. */
  lemma AccountAfterEvent(levels: Levels, s: RunState, t: RunState, e: Event, j: nat, i: nat)
    requires j < |levels| && i < |levels[j]| && AccountedAt(levels, s, j, i) && PhaseAt(t, j, i) == PhaseAt(s, j, i)
    requires t.trace == s.trace + [e]
    requires e.kind == StepStarted || e.kind == StepSucceeded || e.kind == StepFailed ==> e.step != levels[j][i].name
    ensures AccountedAt(levels, t, j, i)
  {
    NamedAppend(s.trace, e, StepStarted);
    NamedAppend(s.trace, e, StepSucceeded);
    NamedAppend(s.trace, e, StepFailed);
  }

  /** An action about another place leaves a step's account alone. */
  lemma AccountKeptElsewhere(levels: Levels, run: string, s: RunState, a: Action, t: RunState, j: nat, i: nat)
    requires Accounts(levels, s) && Enabled(levels, s, a) && t == Apply(levels, run, s, a)
    requires j < |levels| && i < |levels[j]|
    requires (a.Start? || a.Succeed? || a.Fail?) ==> levels[s.level][a.i].name != levels[j][i].name
    ensures AccountedAt(levels, t, j, i)
  {
    assert AccountedAt(levels, s, j, i);
    PhaseKeptElsewhere(levels, run, s, a, j, i);
    AtMostOneEvent(levels, run, s, a);
    if t.trace != s.trace {
      AccountAfterEvent(levels, s, t, t.trace[|s.trace|], j, i);
    }
  }

  /** An action moves the account of its own step one phase on. */
  lemma AccountMovesHere(levels: Levels, run: string, s: RunState, a: Action)
    requires Accounts(levels, s) && Enabled(levels, s, a)
    requires a.Start? || a.Succeed? || a.Fail?
    ensures AccountedAt(levels, Apply(levels, run, s, a), s.level, a.i)
  {
    var t := Apply(levels, run, s, a);
    assert AccountedAt(levels, s, s.level, a.i);
    AccountAfterOwnEvent(levels, s, t, t.trace[|s.trace|], s.level, a.i);
  }

  lemma AccountAfterOwnEvent(levels: Levels, s: RunState, t: RunState, e: Event, j: nat, i: nat)
    requires j < |levels| && i < |levels[j]| && AccountedAt(levels, s, j, i)
    requires t.trace == s.trace + [e] && e.step == levels[j][i].name
    requires || (e.kind == StepStarted && PhaseAt(s, j, i) == Waiting && PhaseAt(t, j, i) == Running)
             || ((e.kind == StepSucceeded || e.kind == StepFailed)
                 && PhaseAt(s, j, i) == Running && PhaseAt(t, j, i) == Finished)
    ensures AccountedAt(levels, t, j, i)
  {
    NamedAppend(s.trace, e, StepStarted);
    NamedAppend(s.trace, e, StepSucceeded);
    NamedAppend(s.trace, e, StepFailed);
  }

  lemma AccountsKept(steps: seq<Step>, levels: Levels, run: string, s: RunState, a: Action)
    requires Accepted(steps, levels) && Accounts(levels, s) && Enabled(levels, s, a)
    ensures Accounts(levels, Apply(levels, run, s, a))
  {
    ApplyKeepsShape(levels, run, s, a);
    forall j, i | 0 <= j < |levels| && 0 <= i < |levels[j]|
      ensures AccountedAt(levels, Apply(levels, run, s, a), j, i)
    {
      if (a.Start? || a.Succeed? || a.Fail?) && levels[s.level][a.i].name == levels[j][i].name {
        OnePlacePerName(steps, levels, s.level, a.i, j, i);
        AccountMovesHere(levels, run, s, a);
      } else {
        AccountKeptElsewhere(levels, run, s, a, Apply(levels, run, s, a), j, i);
      }
    }
  }

  lemma ApplyKeepsShape(levels: Levels, run: string, s: RunState, a: Action)
    requires Accounts(levels, s) && Enabled(levels, s, a)
    ensures var t := Apply(levels, run, s, a);
            && t.level <= |levels|
            && |t.phases| == if t.level < |levels| then |levels[t.level]| else 0
  {
  }

  lemma FieldsAfterSuccess(s: RunState, t: RunState, step: Step, e: Event)
    requires FieldsMatchTrace(s) && t.trace == s.trace + [e] && e.kind == StepSucceeded && e.step == step.name
    requires step.name !in Named(s.trace, StepSucceeded)
    requires t.completed == s.completed + [step] && t.failed == s.failed
    ensures FieldsMatchTrace(t)
  {
    NamedAppend(s.trace, e, StepSucceeded);
    NamedAppend(s.trace, e, StepFailed);
    assert StepNames(t.completed) == StepNames(s.completed) + [step.name];
  }

  lemma FieldsAfterFailure(s: RunState, t: RunState, e: Event)
    requires FieldsMatchTrace(s) && t.trace == s.trace + [e] && e.kind == StepFailed
    requires t.completed == s.completed && t.failed == if s.failed != "" then s.failed else e.step
    ensures FieldsMatchTrace(t)
  {
    NamedAppend(s.trace, e, StepSucceeded);
    NamedAppend(s.trace, e, StepFailed);
    FirstNonEmptyAppend(Named(s.trace, StepFailed), e.step);
  }

  lemma FieldsAfterOther(s: RunState, t: RunState)
    requires FieldsMatchTrace(s) && t.completed == s.completed && t.failed == s.failed
    requires t.trace == s.trace
             || exists e :: t.trace == s.trace + [e] && e.kind != StepSucceeded && e.kind != StepFailed
    ensures FieldsMatchTrace(t)
  {
    if t.trace != s.trace {
      var e :| t.trace == s.trace + [e] && e.kind != StepSucceeded && e.kind != StepFailed;
      NamedAppend(s.trace, e, StepSucceeded);
      NamedAppend(s.trace, e, StepFailed);
    }
  }

  lemma SucceedsOnce(levels: Levels, s: RunState, i: nat)
    requires Accounts(levels, s) && InPhase(levels, s, i, Running)
    ensures levels[s.level][i].name !in Named(s.trace, StepSucceeded)
  {
    assert AccountedAt(levels, s, s.level, i);
  }

  lemma FieldsKept(levels: Levels, run: string, s: RunState, a: Action, t: RunState)
    requires Accounts(levels, s) && FieldsMatchTrace(s) && Enabled(levels, s, a) && t == Apply(levels, run, s, a)
    ensures FieldsMatchTrace(t)
  {
    match a
    case Succeed(i, _) => {
      SucceedsOnce(levels, s, i);
      FieldsAfterSuccess(s, t, levels[s.level][i], t.trace[|s.trace|]);
    }
    case Fail(_, _) => FieldsAfterFailure(s, t, t.trace[|s.trace|]);
    case _ => FieldsAfterOther(s, t);
  }

  lemma UndoneAfterUndo(s: RunState, t: RunState, e: Event)
    requires UndoneSoFar(s) && s.stage.Undoing? && 0 < s.stage.left <= |s.completed|
    requires t.trace == s.trace + [e] && e.kind == StepCompensated && e.step == s.completed[s.stage.left - 1].name
    requires t.stage == Undoing(s.stage.left - 1) && t.completed == s.completed && t.failed == s.failed
    ensures UndoneSoFar(t)
  {
    NamedAppend(s.trace, e, StepCompensated);
    var left := s.stage.left;
    var names := StepNames(s.completed[left - 1..]);
    assert names[1..] == StepNames(s.completed[left..]);
  }

  lemma UndoneAtEnd(s: RunState, t: RunState, e: Event)
    requires UndoneSoFar(s) && t.trace == s.trace + [e] && e.kind != StepCompensated
    requires t.stage == Ended && t.completed == s.completed && t.failed == s.failed
    requires (s.stage.Executing? && s.failed == "") || (s.stage.Undoing? && s.stage.left == 0)
    ensures UndoneSoFar(t)
  {
    NamedAppend(s.trace, e, StepCompensated);
    assert s.completed[0..] == s.completed;
  }

  lemma UndoneNothingYet(s: RunState, t: RunState)
    requires UndoneSoFar(s) && s.stage.Executing?
    requires t.trace == s.trace || exists e :: t.trace == s.trace + [e] && e.kind != StepCompensated
    requires t.stage.Executing? || (t.stage == Undoing(|t.completed|) && t.failed != "")
    ensures UndoneSoFar(t)
  {
    if t.trace != s.trace {
      var e :| t.trace == s.trace + [e] && e.kind != StepCompensated;
      NamedAppend(s.trace, e, StepCompensated);
    }
    assert StepNames(t.completed[|t.completed|..]) == [];
  }

  lemma UndoneKept(levels: Levels, run: string, s: RunState, a: Action, t: RunState)
    requires FieldsMatchTrace(s) && UndoneSoFar(s) && Enabled(levels, s, a) && t == Apply(levels, run, s, a)
    ensures UndoneSoFar(t)
  {
    match a
    case Undo(_) => UndoneAfterUndo(s, t, t.trace[|s.trace|]);
    case Close => UndoneAtEnd(s, t, t.trace[|s.trace|]);
    case Advance =>
      if t.stage == Ended {
        UndoneAtEnd(s, t, t.trace[|s.trace|]);
      } else {
        UndoneNothingYet(s, t);
      }
    case _ => UndoneNothingYet(s, t);
  }

  lemma PassedKept(steps: seq<Step>, levels: Levels, run: string, s: RunState, a: Action, j: nat, i: nat)
    requires Accepted(steps, levels) && FieldsMatchTrace(s) && FailureIsHere(levels, s)
    requires Enabled(levels, s, a)
    requires j < Apply(levels, run, s, a).level && j < |levels| && i < |levels[j]|
    ensures PassedAt(levels, Apply(levels, run, s, a), j, i)
  {
    var t := Apply(levels, run, s, a);
    assert j < s.level ==> PassedAt(levels, s, j, i);
    if t.trace != s.trace {
      assert t.trace == s.trace + [t.trace[|s.trace|]];
      NamedAppend(s.trace, t.trace[|s.trace|], StepFailed);
    }
    FirstNonEmptyIs(Named(s.trace, StepFailed));
    if a.Fail? && levels[s.level][a.i].name == levels[j][i].name {
      OnePlacePerName(steps, levels, s.level, a.i, j, i);
    }
  }

  lemma FailureStaysHere(steps: seq<Step>, levels: Levels, run: string, s: RunState, a: Action)
    requires Accepted(steps, levels) && Accounts(levels, s) && FieldsMatchTrace(s)
    requires UndoneSoFar(s) && FailureIsHere(levels, s) && Enabled(levels, s, a)
    ensures FailureIsHere(levels, Apply(levels, run, s, a))
  {
    var t := Apply(levels, run, s, a);
    forall j, i | 0 <= j < t.level && j < |levels| && 0 <= i < |levels[j]|
      ensures PassedAt(levels, t, j, i)
    {
      PassedKept(steps, levels, run, s, a, j, i);
    }
    RecordedKept(levels, run, s, a);
  }

  lemma RecordedKept(levels: Levels, run: string, s: RunState, a: Action)
    requires Accounts(levels, s) && UndoneSoFar(s) && Enabled(levels, s, a)
    requires s.failed != "" ==> s.level < |levels| && s.failed in Names(levels[s.level])
    ensures var t := Apply(levels, run, s, a);
            && (t.failed != "" ==> t.level < |levels| && t.failed in Names(levels[t.level]))
            && (t.stage == Ended && t.failed == "" ==> t.level == |levels|)
  {
  }

  /** Every dependency of a step of the current level has succeeded. */
  lemma DependenciesSucceeded(steps: seq<Step>, levels: Levels, s: RunState, i: nat)
    requires Accepted(steps, levels) && NonEmptyNames(steps)
    requires Accounts(levels, s) && FailureIsHere(levels, s)
    requires s.level < |levels| && i < |levels[s.level]|
    ensures forall d | d in levels[s.level][i].dependsOn :: d in Named(s.trace, StepSucceeded)
  {
    var step := levels[s.level][i];
    forall d | d in step.dependsOn
      ensures d in Named(s.trace, StepSucceeded)
    {
      DependenciesLieEarlier(steps, levels, s.level, step, d);
      var j, earlier :| 0 <= j < s.level && earlier in levels[j] && earlier.name == d;
      var h :| 0 <= h < |levels[j]| && levels[j][h] == earlier;
      assert AccountedAt(levels, s, j, h) && PassedAt(levels, s, j, h);
      PlacedIsAStep(steps, levels, j, h);
    }
  }

  lemma OrderKept(steps: seq<Step>, levels: Levels, run: string, s: RunState, a: Action)
    requires Accepted(steps, levels) && NonEmptyNames(steps)
    requires Accounts(levels, s) && FieldsMatchTrace(s) && FailureIsHere(levels, s)
    requires CompletedInOrder(s.completed) && Enabled(levels, s, a)
    ensures CompletedInOrder(Apply(levels, run, s, a).completed)
  {
    if a.Succeed? {
      DependenciesSucceeded(steps, levels, s, a.i);
      var t := Apply(levels, run, s, a);
      forall i | 0 <= i < |t.completed|
        ensures InOrderAt(t.completed, i)
      {
        assert i < |s.completed| ==> InOrderAt(s.completed, i);
        assert t.completed[..i] == s.completed[..i];
        assert s.completed[..|s.completed|] == s.completed;
      }
    }
  }

  lemma TraceAllowedAppend(steps: seq<Step>, levels: Levels, trace: seq<Event>, e: Event)
    requires TraceAllowed(steps, levels, trace) && EventAllowed(steps, levels, trace, e)
    ensures TraceAllowed(steps, levels, trace + [e])
  {
    var longer := trace + [e];
    forall q | 0 <= q < |longer|
      ensures AllowedAt(steps, levels, longer, q)
    {
      if q < |trace| {
        assert AllowedAt(steps, levels, trace, q);
        assert longer[..q] == trace[..q];
      } else {
        assert longer[..q] == trace;
      }
    }
  }

  lemma StartHasItsDependencies(steps: seq<Step>, levels: Levels, s: RunState, i: nat)
    requires Accepted(steps, levels) && NonEmptyNames(steps)
    requires Accounts(levels, s) && FailureIsHere(levels, s)
    requires s.level < |levels| && i < |levels[s.level]|
    ensures DependenciesMet(steps, s.trace, levels[s.level][i].name)
  {
    var step := levels[s.level][i];
    DependenciesSucceeded(steps, levels, s, i);
    PlacedIsAStep(steps, levels, s.level, i);
    forall other | other in steps && other.name == step.name
      ensures other == step
    {
      OneStepPerName(steps, other, step);
    }
  }

  lemma OneStepPerName(steps: seq<Step>, one: Step, two: Step)
    requires UniqueNames(steps) && one in steps && two in steps && one.name == two.name
    ensures one == two
  {
    var p :| 0 <= p < |steps| && steps[p] == one;
    var q :| 0 <= q < |steps| && steps[q] == two;
  }

  /** While a run goes on, nothing terminal has been said and, executing, nothing undone. */
  lemma StillRunning(steps: seq<Step>, levels: Levels, s: RunState)
    requires UndoneSoFar(s) && TerminalIffEnded(s) && s.stage != Ended
    ensures s.trace != [] && forall i | 0 <= i < |s.trace| :: !IsTerminal(s.trace[i])
    ensures s.stage.Executing? ==> Named(s.trace, StepCompensated) == []
  {
  }

  lemma {:induction false} StartMayFollow(steps: seq<Step>, levels: Levels, before: seq<Event>, e: Event)
    requires e.kind == StepStarted && before != [] && forall i | 0 <= i < |before| :: !IsTerminal(before[i])
    requires Named(before, StepCompensated) == [] && e.step !in Named(before, StepStarted)
    requires NamesAStep(steps, e.step) && (NonEmptyNames(steps) ==> DependenciesMet(steps, before, e.step))
    requires FirstNonEmpty(Named(before, StepFailed)) != "" ==> InFailedLevel(levels, before, e.step)
    ensures EventAllowed(steps, levels, before, e)
  {
  }

  lemma NotYetStarted(levels: Levels, s: RunState, i: nat)
    requires Accounts(levels, s) && InPhase(levels, s, i, Waiting)
    ensures levels[s.level][i].name !in Named(s.trace, StepStarted)
  {
    assert AccountedAt(levels, s, s.level, i);
  }

  lemma PlaceNamesAStep(steps: seq<Step>, levels: Levels, j: nat, i: nat)
    requires Accepted(steps, levels) && j < |levels| && i < |levels[j]|
    ensures NamesAStep(steps, levels[j][i].name)
  {
    PlacedIsAStep(steps, levels, j, i);
  }

  lemma StartAllowed(steps: seq<Step>, levels: Levels, s: RunState, i: nat, e: Event)
    requires Accepted(steps, levels) && Invariant(steps, levels, s) && InPhase(levels, s, i, Waiting)
    requires e.kind == StepStarted && e.step == levels[s.level][i].name
    ensures EventAllowed(steps, levels, s.trace, e)
  {
    StillRunning(steps, levels, s);
    NotYetStarted(levels, s, i);
    PlaceNamesAStep(steps, levels, s.level, i);
    if NonEmptyNames(steps) {
      StartHasItsDependencies(steps, levels, s, i);
    }
    StartInFailedLevel(levels, s, i);
    StartMayFollow(steps, levels, s.trace, e);
  }

  lemma StartInFailedLevel(levels: Levels, s: RunState, i: nat)
    requires FieldsMatchTrace(s) && FailureIsHere(levels, s) && s.level < |levels| && i < |levels[s.level]|
    ensures FirstNonEmpty(Named(s.trace, StepFailed)) != "" ==> InFailedLevel(levels, s.trace, levels[s.level][i].name)
  {
    NameOfMember(levels[s.level], i);
  }

  lemma {:induction false} NameOfMember(level: seq<Step>, i: nat)
    requires i < |level|
    ensures level[i].name in Names(level)
  {
    if i < |level| - 1 {
      NameOfMember(level[..|level| - 1], i);
    }
  }

  lemma OutcomeAllowed(steps: seq<Step>, levels: Levels, s: RunState, i: nat, e: Event)
    requires Invariant(steps, levels, s) && InPhase(levels, s, i, Running)
    requires e.kind == StepSucceeded || e.kind == StepFailed
    requires e.step == levels[s.level][i].name
    ensures EventAllowed(steps, levels, s.trace, e)
  {
    assert AccountedAt(levels, s, s.level, i);
  }

  /** What a step emits, if anything. */
  function Emitted(levels: Levels, run: string, s: RunState, a: Action): Option<Event>
    requires Enabled(levels, s, a)
  {
    match a
    case Start(i) => Some(Event(0, run, levels[s.level][i].name, StepStarted, levels[s.level][i].runtime))
    case Succeed(i, detail) => Some(Event(0, run, levels[s.level][i].name, StepSucceeded, detail))
    case Fail(i, error) => Some(Event(0, run, levels[s.level][i].name, StepFailed, error))
    case Advance =>
      if s.failed == "" && s.level >= |levels| then Some(Event(0, run, "", RunSucceeded, "")) else None
    case Undo(detail) => Some(Event(0, run, s.completed[s.stage.left - 1].name, StepCompensated, detail))
    case Close => Some(Event(0, run, s.failed, RunFailed, s.failErr))
  }

  lemma TraceGrowsByEmitted(levels: Levels, run: string, s: RunState, a: Action)
    requires Enabled(levels, s, a)
    ensures Apply(levels, run, s, a).trace ==
            match Emitted(levels, run, s, a) case None => s.trace case Some(e) => s.trace + [e]
  {
  }

  lemma ClosingAllowed(steps: seq<Step>, levels: Levels, s: RunState, e: Event)
    requires Invariant(steps, levels, s) && s.stage != Ended
    requires e.kind == StepCompensated || IsTerminal(e)
    requires e.kind == RunSucceeded ==> s.failed == "" && s.stage.Executing?
    requires e.kind == StepCompensated || e.kind == RunFailed ==> s.stage.Undoing?
    requires e.kind == RunFailed ==> e.step == s.failed
    ensures EventAllowed(steps, levels, s.trace, e)
  {
  }

  lemma EventsStayAllowed(steps: seq<Step>, levels: Levels, run: string, s: RunState, a: Action)
    requires Accepted(steps, levels) && Invariant(steps, levels, s) && Enabled(levels, s, a)
    ensures TraceAllowed(steps, levels, Apply(levels, run, s, a).trace)
  {
    TraceGrowsByEmitted(levels, run, s, a);
    match Emitted(levels, run, s, a)
    case None =>
    case Some(e) =>
      match a {
        case Start(i) => StartAllowed(steps, levels, s, i, e);
        case Succeed(i, _) => OutcomeAllowed(steps, levels, s, i, e);
        case Fail(i, _) => OutcomeAllowed(steps, levels, s, i, e);
        case _ => ClosingAllowed(steps, levels, s, e);
      }
      TraceAllowedAppend(steps, levels, s.trace, e);
  }

  lemma TerminalKept(levels: Levels, run: string, s: RunState, a: Action)
    requires FieldsMatchTrace(s) && TerminalIffEnded(s) && UndoneSoFar(s) && Enabled(levels, s, a)
    ensures TerminalIffEnded(Apply(levels, run, s, a))
  {
    var t := Apply(levels, run, s, a);
    assert s.stage != Ended;
    if t.trace != s.trace {
      assert t.trace == s.trace + [t.trace[|s.trace|]];
    }
  }

  lemma InvariantKept(steps: seq<Step>, levels: Levels, run: string, s: RunState, a: Action)
    requires Accepted(steps, levels) && Invariant(steps, levels, s) && Enabled(levels, s, a)
    ensures Invariant(steps, levels, Apply(levels, run, s, a))
  {
    AccountsKept(steps, levels, run, s, a);
    FieldsKept(levels, run, s, a, Apply(levels, run, s, a));
    UndoneKept(levels, run, s, a, Apply(levels, run, s, a));
    FailureStaysHere(steps, levels, run, s, a);
    EventsStayAllowed(steps, levels, run, s, a);
    TerminalKept(levels, run, s, a);
    if NonEmptyNames(steps) {
      OrderKept(steps, levels, run, s, a);
    }
  }

  lemma InvariantAtStart(steps: seq<Step>, levels: Levels, run: string, detail: string)
    ensures Invariant(steps, levels, Initial(levels, run, detail))
  {
    var s := Initial(levels, run, detail);
    NothingNamedAtStart(s.trace[0]);
    AccountsAtStart(levels, s);
    assert s.trace == [] + [s.trace[0]];
    TraceAllowedAppend(steps, levels, [], s.trace[0]);
  }

  lemma {:induction false} NothingNamedAtStart(e: Event)
    requires e.kind == RunStarted
    ensures Named([e], StepStarted) == [] && Named([e], StepSucceeded) == [] && Named([e], StepFailed) == []
    ensures Named([e], StepCompensated) == []
  {
    assert [e][..0] == [];
  }

  lemma AccountsAtStart(levels: Levels, s: RunState)
    requires s.level == 0 && s.phases == Fresh(levels, 0)
    requires Named(s.trace, StepStarted) == [] && Named(s.trace, StepSucceeded) == [] && Named(s.trace, StepFailed) == []
    ensures Accounts(levels, s)
  {
    forall j, i | 0 <= j < |levels| && 0 <= i < |levels[j]|
      ensures AccountedAt(levels, s, j, i)
    {
    }
  }

  lemma {:induction false} EveryRunKeepsInvariant(
    steps: seq<Step>, levels: Levels, run: string, detail: string, schedule: seq<Action>)
    requires Accepted(steps, levels) && Play(levels, run, detail, schedule).Some?
    ensures Invariant(steps, levels, Play(levels, run, detail, schedule).value)
  {
    if schedule == [] {
      InvariantAtStart(steps, levels, run, detail);
    } else {
      var n := |schedule| - 1;
      EveryRunKeepsInvariant(steps, levels, run, detail, schedule[..n]);
      InvariantKept(steps, levels, run, Play(levels, run, detail, schedule[..n]).value, schedule[n]);
    }
  }

  // ---------------------------------------------------------------------------------------
  // Every run makes progress and ends
  // ---------------------------------------------------------------------------------------

  function PhaseWork(phases: seq<Phase>): nat {
    if phases == [] then 0
    else
      var n := |phases| - 1;
      PhaseWork(phases[..n]) + match phases[n] { case Waiting => 3 case Running => 2 case Finished => 0 }
  }

  /** Three units for each step of the levels from `level` on: start, outcome, undoing. */
  function LevelWork(levels: Levels, level: nat): nat
    decreases |levels| - level
  {
    if level >= |levels| then 0 else 3 * |levels[level]| + LevelWork(levels, level + 1)
  }

  /** An upper bound on the actions a run can still take. */
  function WorkLeft(levels: Levels, s: RunState): nat {
    match s.stage
    case Executing =>
      PhaseWork(s.phases) + LevelWork(levels, s.level + 1) + |s.completed| +
      (if s.level < |levels| then |levels| - s.level else 0) + 2
    case Undoing(left) => left + 1
    case Ended => 0
  }

  lemma {:induction false} PhaseWorkFresh(phases: seq<Phase>)
    requires forall i | 0 <= i < |phases| :: phases[i] == Waiting
    ensures PhaseWork(phases) == 3 * |phases|
  {
    if phases != [] {
      PhaseWorkFresh(phases[..|phases| - 1]);
    }
  }

  lemma {:induction false} PhaseWorkMoves(phases: seq<Phase>, i: nat, phase: Phase)
    requires i < |phases|
    requires phase == (if phases[i] == Waiting then Running else Finished) && phases[i] != Finished
    ensures PhaseWork(phases[i := phase]) + (if phase == Running then 1 else 2) == PhaseWork(phases)
  {
    var n := |phases| - 1;
    if i < n {
      PhaseWorkMoves(phases[..n], i, phase);
      assert phases[i := phase][..n] == phases[..n][i := phase];
    } else {
      assert phases[i := phase][..n] == phases[..n];
    }
  }

  lemma ActionsUseUpWork(levels: Levels, run: string, s: RunState, a: Action)
    requires Accounts(levels, s) && Enabled(levels, s, a)
    ensures WorkLeft(levels, Apply(levels, run, s, a)) < WorkLeft(levels, s)
  {
    match a
    case Start(i) => PhaseWorkMoves(s.phases, i, Running);
    case Succeed(i, _) => PhaseWorkMoves(s.phases, i, Finished);
    case Fail(i, _) => PhaseWorkMoves(s.phases, i, Finished);
    case Advance => PhaseWorkFresh(Fresh(levels, s.level + 1));
    case Undo(_) =>
    case Close =>
  }

  /** No run is stuck: until it has ended, some action is enabled. */
  lemma RunsAreNeverStuck(levels: Levels, s: RunState)
    requires Accounts(levels, s) && UndoneSoFar(s) && s.stage != Ended
    ensures exists a :: Enabled(levels, s, a)
  {
    if s.stage.Undoing? {
      assert Enabled(levels, s, if s.stage.left == 0 then Close else Undo(""));
    } else if i :| 0 <= i < |s.phases| && s.phases[i] != Finished {
      assert Enabled(levels, s, if s.phases[i] == Waiting then Start(i) else Succeed(i, ""));
    } else {
      assert Enabled(levels, s, Advance);
    }
  }

  /** No schedule is longer than the work the workflow starts with. */
  lemma {:induction false} RunsAreBounded(
    steps: seq<Step>, levels: Levels, run: string, detail: string, schedule: seq<Action>)
    requires Accepted(steps, levels) && Play(levels, run, detail, schedule).Some?
    ensures |schedule| + WorkLeft(levels, Play(levels, run, detail, schedule).value)
         <= WorkLeft(levels, Initial(levels, run, detail))
  {
    if schedule != [] {
      var n := |schedule| - 1;
      RunsAreBounded(steps, levels, run, detail, schedule[..n]);
      EveryRunKeepsInvariant(steps, levels, run, detail, schedule[..n]);
      ActionsUseUpWork(levels, run, Play(levels, run, detail, schedule[..n]).value, schedule[n]);
    }
  }

  // ---------------------------------------------------------------------------------------
  // What every finished run satisfies
  // ---------------------------------------------------------------------------------------

  ghost predicate Finishes(levels: Levels, run: string, detail: string, schedule: seq<Action>, s: RunState) {
    Play(levels, run, detail, schedule) == Some(s) && s.stage == Ended
  }

  predicate ReportsFailure(s: RunState) {
    s.trace != [] && s.trace[|s.trace| - 1].kind == RunFailed
  }

  lemma {:induction false} NamedHasEvent(trace: seq<Event>, kind: EventKind, name: string) returns (q: nat)
    requires name in Named(trace, kind)
    ensures q < |trace| && trace[q].kind == kind && trace[q].step == name
  {
    var n := |trace| - 1;
    if trace[n].kind == kind && trace[n].step == name {
      q := n;
    } else {
      q := NamedHasEvent(trace[..n], kind, name);
    }
  }

  lemma {:induction false} FailedNamesAreSteps(steps: seq<Step>, levels: Levels, trace: seq<Event>, name: string)
    requires TraceAllowed(steps, levels, trace) && name in Named(trace, StepFailed)
    ensures exists s :: s in steps && s.name == name
  {
    var q := NamedHasEvent(trace, StepFailed, name);
    assert AllowedAt(steps, levels, trace, q);
    var p := NamedHasEvent(trace[..q], StepStarted, name);
    assert AllowedAt(steps, levels, trace, p);
  }

  /** A finished run reports a failure exactly when some step with a non-empty name failed;
      reported, it is named after the first such step, and then everything that succeeded,
      and nothing else, is compensated once, newest first. */
  lemma FinishedRun(steps: seq<Step>, levels: Levels, run: string, detail: string, schedule: seq<Action>, s: RunState)
    requires Accepted(steps, levels) && Finishes(levels, run, detail, schedule, s)
    ensures ReportsFailure(s) <==> s.failed != ""
    ensures ReportsFailure(s) <==> HasNonEmpty(Named(s.trace, StepFailed))
    ensures ReportsFailure(s) ==>
              && s.trace[|s.trace| - 1].step == FirstNonEmpty(Named(s.trace, StepFailed))
              && Named(s.trace, StepCompensated) == Reverse(Named(s.trace, StepSucceeded))
    ensures !ReportsFailure(s) ==> Named(s.trace, StepCompensated) == []
    ensures NoRepeats(Named(s.trace, StepSucceeded))
  {
    EveryRunKeepsInvariant(steps, levels, run, detail, schedule);
    SomeNonEmpty(Named(s.trace, StepFailed));
    EndIsTerminal(steps, levels, s);
  }

  /** An ended run's last event says how it ended. */
  lemma EndIsTerminal(steps: seq<Step>, levels: Levels, s: RunState)
    requires Invariant(steps, levels, s) && s.stage == Ended
    ensures s.trace != [] && IsTerminal(s.trace[|s.trace| - 1])
    ensures ReportsFailure(s) <==> s.failed != ""
    ensures ReportsFailure(s) ==> s.trace[|s.trace| - 1].step == s.failed
  {
    var last := |s.trace| - 1;
    assert AllowedAt(steps, levels, s.trace, last);
    assert s.trace == s.trace[..last] + [s.trace[last]];
    NamedAppend(s.trace[..last], s.trace[last], StepFailed);
  }

  /** With non-empty step names, any failed step makes the run fail, after the first step to
      fail; the steps compensated are exactly those that succeeded, newest first, and no
      failed step is among them. */
  lemma FailingRunUndoesExactlyWhatSucceeded(
    steps: seq<Step>, levels: Levels, run: string, detail: string, schedule: seq<Action>, s: RunState)
    requires Accepted(steps, levels) && NonEmptyNames(steps)
    requires Finishes(levels, run, detail, schedule, s) && Named(s.trace, StepFailed) != []
    ensures s.failed == Named(s.trace, StepFailed)[0]
    ensures s.trace[|s.trace| - 1].kind == RunFailed && s.trace[|s.trace| - 1].step == s.failed
    ensures Named(s.trace, StepCompensated) == Reverse(Named(s.trace, StepSucceeded))
    ensures NoRepeats(Named(s.trace, StepCompensated))
    ensures forall name | name in Named(s.trace, StepFailed) :: name !in Named(s.trace, StepCompensated)
  {
    var failures := Named(s.trace, StepFailed);
    EveryRunKeepsInvariant(steps, levels, run, detail, schedule);
    FinishedRun(steps, levels, run, detail, schedule, s);
    assert failures[0] in failures;
    FailedNamesAreSteps(steps, levels, s.trace, failures[0]);
    FirstNonEmptyIsFirst(failures);
    forall name | name in failures
      ensures name !in Named(s.trace, StepCompensated)
    {
      NeverBoth(steps, levels, s, name);
      var undone := Named(s.trace, StepCompensated);
      forall i | 0 <= i < |undone|
        ensures undone[i] in Named(s.trace, StepSucceeded)
      {
      }
    }
  }

  lemma NeverBoth(steps: seq<Step>, levels: Levels, s: RunState, name: string)
    requires Accepted(steps, levels) && Invariant(steps, levels, s)
    requires name in Named(s.trace, StepFailed)
    ensures name !in Named(s.trace, StepSucceeded)
  {
    FailedNamesAreSteps(steps, levels, s.trace, name);
    var step :| step in steps && step.name == name;
    var j, i := PlaceOf(steps, levels, step);
    assert AccountedAt(levels, s, j, i);
  }

  lemma UndoneAreCompleted(
    steps: seq<Step>, levels: Levels, run: string, detail: string, schedule: seq<Action>, s: RunState)
    requires Accepted(steps, levels) && NonEmptyNames(steps) && Finishes(levels, run, detail, schedule, s)
    ensures Named(s.trace, StepCompensated) == [] || Named(s.trace, StepCompensated) == Reverse(StepNames(s.completed))
    ensures CompletedInOrder(s.completed) && NoRepeats(StepNames(s.completed))
  {
    EveryRunKeepsInvariant(steps, levels, run, detail, schedule);
  }

  /** No step is undone before a completed step that depends on it. */
  lemma UndoRespectsDependencies(
    steps: seq<Step>, levels: Levels, run: string, detail: string, schedule: seq<Action>, s: RunState,
    i: nat, j: nat)
    requires Accepted(steps, levels) && NonEmptyNames(steps)
    requires Finishes(levels, run, detail, schedule, s)
    requires i < |Named(s.trace, StepCompensated)| && j < |Named(s.trace, StepCompensated)|
    requires DependsOn(steps, Named(s.trace, StepCompensated)[j], Named(s.trace, StepCompensated)[i])
    ensures j < i
  {
    UndoneAreCompleted(steps, levels, run, detail, schedule, s);
    CompletedAreSteps(steps, levels, run, detail, schedule, s);
    ReversedRespects(steps, s.completed, Named(s.trace, StepCompensated), i, j);
  }

  lemma ReversedRespects(steps: seq<Step>, completed: seq<Step>, undone: seq<string>, i: nat, j: nat)
    requires UniqueNames(steps) && (forall c | c in completed :: c in steps)
    requires CompletedInOrder(completed) && NoRepeats(StepNames(completed))
    requires undone == Reverse(StepNames(completed)) && i < |undone| && j < |undone|
    requires DependsOn(steps, undone[j], undone[i])
    ensures j < i
  {
    var n := |completed|;
    CompletedAfterDependency(steps, completed, n - 1 - j, n - 1 - i);
  }

  lemma CompletedAfterDependency(steps: seq<Step>, completed: seq<Step>, p: nat, q: nat)
    requires UniqueNames(steps) && (forall c | c in completed :: c in steps)
    requires CompletedInOrder(completed) && NoRepeats(StepNames(completed))
    requires p < |completed| && q < |completed|
    requires DependsOn(steps, completed[p].name, completed[q].name)
    ensures q < p
  {
    assert completed[p] in completed;
    var k :| 0 <= k < |steps| && steps[k] == completed[p];
    StepDepends(steps, k, completed[q].name);
    assert InOrderAt(completed, p);
    var r :| 0 <= r < p && StepNames(completed[..p])[r] == completed[q].name;
    assert StepNames(completed)[r] == StepNames(completed)[q];
  }

  lemma {:induction false} CompletedAreSteps(
    steps: seq<Step>, levels: Levels, run: string, detail: string, schedule: seq<Action>, s: RunState)
    requires Accepted(steps, levels) && Play(levels, run, detail, schedule) == Some(s)
    ensures forall c | c in s.completed :: c in steps
  {
    if schedule != [] {
      var n := |schedule| - 1;
      var before := Play(levels, run, detail, schedule[..n]).value;
      CompletedAreSteps(steps, levels, run, detail, schedule[..n], before);
      if schedule[n].Succeed? {
        PlacedIsAStep(steps, levels, before.level, schedule[n].i);
      }
    }
  }

  /** A run without a failed step succeeds, having completed every step exactly once. */
  lemma FaultlessRunCompletesEveryStep(
    steps: seq<Step>, levels: Levels, run: string, detail: string, schedule: seq<Action>, s: RunState)
    requires Accepted(steps, levels)
    requires Finishes(levels, run, detail, schedule, s) && Named(s.trace, StepFailed) == []
    ensures s.trace != [] && s.trace[|s.trace| - 1].kind == RunSucceeded
    ensures forall step | step in steps :: step.name in Named(s.trace, StepSucceeded)
    ensures NoRepeats(Named(s.trace, StepSucceeded))
  {
    EveryRunKeepsInvariant(steps, levels, run, detail, schedule);
    FinishedRun(steps, levels, run, detail, schedule, s);
    forall step | step in steps
      ensures step.name in Named(s.trace, StepSucceeded)
    {
      var j, i := PlaceOf(steps, levels, step);
      assert AccountedAt(levels, s, j, i);
    }
  }

  /** In every run, finished or not: a step starts at most once, after each of its
      dependencies succeeded, and once a step has failed only steps of that step's level. */
  lemma {:induction false} StepsStartInOrder(
    steps: seq<Step>, levels: Levels, run: string, detail: string, schedule: seq<Action>, s: RunState, q: nat)
    requires Accepted(steps, levels) && NonEmptyNames(steps)
    requires Play(levels, run, detail, schedule) == Some(s)
    requires q < |s.trace| && s.trace[q].kind == StepStarted
    ensures s.trace[q].step !in Named(s.trace[..q], StepStarted)
    ensures forall step | step in steps && step.name == s.trace[q].step ::
              forall d | d in step.dependsOn :: d in Named(s.trace[..q], StepSucceeded)
    ensures Named(s.trace[..q], StepFailed) != [] ==>
              exists k | 0 <= k < |levels| ::
                s.trace[q].step in Names(levels[k]) && Named(s.trace[..q], StepFailed)[0] in Names(levels[k])
  {
    EveryRunKeepsInvariant(steps, levels, run, detail, schedule);
    assert AllowedAt(steps, levels, s.trace, q);
    if Named(s.trace[..q], StepFailed) != [] {
      FirstFailureHasAName(steps, levels, s.trace, q);
    }
  }

  lemma FirstFailureHasAName(steps: seq<Step>, levels: Levels, trace: seq<Event>, q: nat)
    requires NonEmptyNames(steps) && TraceAllowed(steps, levels, trace)
    requires q <= |trace| && Named(trace[..q], StepFailed) != []
    ensures FirstNonEmpty(Named(trace[..q], StepFailed)) == Named(trace[..q], StepFailed)[0] != ""
  {
    var failures := Named(trace[..q], StepFailed);
    assert failures[0] in failures;
    forall p | 0 <= p < q
      ensures AllowedAt(steps, levels, trace[..q], p)
    {
      assert AllowedAt(steps, levels, trace, p) && trace[..q][..p] == trace[..p];
    }
    FailedNamesAreSteps(steps, levels, trace[..q], failures[0]);
    FirstNonEmptyIsFirst(failures);
  }

  /** Every trace opens with RunStarted and holds a terminal event exactly when the run has
      ended: that one event, and it is last. */
  lemma {:induction false} OneTerminalEventAndItIsLast(
    steps: seq<Step>, levels: Levels, run: string, detail: string, schedule: seq<Action>, s: RunState, q: nat)
    requires Accepted(steps, levels) && Play(levels, run, detail, schedule) == Some(s)
    requires q < |s.trace|
    ensures IsTerminal(s.trace[q]) <==> s.stage == Ended && q == |s.trace| - 1
    ensures s.trace[q].kind == RunStarted <==> q == 0
  {
    EveryRunKeepsInvariant(steps, levels, run, detail, schedule);
    TerminalIsLast(s, q);
    OpensWithStart(steps, levels, s.trace, q);
  }

  lemma TerminalIsLast(s: RunState, q: nat)
    requires TerminalIffEnded(s) && q < |s.trace|
    ensures IsTerminal(s.trace[q]) <==> s.stage == Ended && q == |s.trace| - 1
  {
  }

  lemma OpensWithStart(steps: seq<Step>, levels: Levels, trace: seq<Event>, q: nat)
    requires TraceAllowed(steps, levels, trace) && q < |trace|
    ensures trace[q].kind == RunStarted <==> q == 0
  {
    assert AllowedAt(steps, levels, trace, q);
    assert |trace[..q]| == q;
  }

  // ---------------------------------------------------------------------------------------
  // The empty name hides a failure
  // ---------------------------------------------------------------------------------------

  lemma {:induction false} PlayAppend(levels: Levels, run: string, detail: string, schedule: seq<Action>, a: Action)
    requires Play(levels, run, detail, schedule).Some?
    requires Enabled(levels, Play(levels, run, detail, schedule).value, a)
    ensures Play(levels, run, detail, schedule + [a])
         == Some(Apply(levels, run, Play(levels, run, detail, schedule).value, a))
  {
    assert (schedule + [a])[..|schedule|] == schedule;
  }

  /** The next action of a run in which only the step named "" fails. */
  lemma NextWhenOnlyUnnamedFails(levels: Levels, s: RunState) returns (a: Action)
    requires Accounts(levels, s) && s.stage == Executing && s.failed == ""
    requires "" !in Named(s.trace, StepSucceeded)
    ensures Enabled(levels, s, a)
    ensures forall run :: Apply(levels, run, s, a).failed == "" && !Apply(levels, run, s, a).stage.Undoing?
    ensures forall run :: "" !in Named(Apply(levels, run, s, a).trace, StepSucceeded)
  {
    if i :| 0 <= i < |s.phases| && s.phases[i] != Finished {
      a := if s.phases[i] == Waiting then Start(i)
           else if levels[s.level][i].name == "" then Fail(i, "")
           else Succeed(i, "");
    } else {
      a := Advance;
    }
    forall run
      ensures "" !in Named(Apply(levels, run, s, a).trace, StepSucceeded)
    {
      var t := Apply(levels, run, s, a);
      if t.trace != s.trace {
        assert t.trace == s.trace + [t.trace[|s.trace|]];
        NamedAppend(s.trace, t.trace[|s.trace|], StepSucceeded);
      }
    }
  }

  lemma {:induction false} FinishWithUnnamedFailing(
    steps: seq<Step>, levels: Levels, run: string, detail: string, schedule: seq<Action>, s: RunState)
    returns (full: seq<Action>, t: RunState)
    requires Accepted(steps, levels) && Play(levels, run, detail, schedule) == Some(s)
    requires s.failed == "" && !s.stage.Undoing? && "" !in Named(s.trace, StepSucceeded)
    ensures Finishes(levels, run, detail, full, t)
    ensures t.failed == "" && "" !in Named(t.trace, StepSucceeded)
    decreases WorkLeft(levels, s)
  {
    EveryRunKeepsInvariant(steps, levels, run, detail, schedule);
    if s.stage == Ended {
      full, t := schedule, s;
    } else {
      var a := NextWhenOnlyUnnamedFails(levels, s);
      PlayAppend(levels, run, detail, schedule, a);
      ActionsUseUpWork(levels, run, s, a);
      full, t := FinishWithUnnamedFailing(
        steps, levels, run, detail, schedule + [a], Apply(levels, run, s, a));
    }
  }

  /** A run in which a step failed and that nevertheless reports success. */
  ghost predicate HidesAFailure(levels: Levels, run: string, detail: string, schedule: seq<Action>, s: RunState) {
    && Finishes(levels, run, detail, schedule, s)
    && Named(s.trace, StepFailed) != [] && !ReportsFailure(s)
  }

  /** "Any failed step makes the run fail" holds of a workflow exactly when no step has the
      empty name, because the empty string is also the run's "no failure" value. */
  lemma FailuresAreReportedIffNamesAreNonEmpty(steps: seq<Step>, levels: Levels, run: string, detail: string)
    requires Accepted(steps, levels)
    ensures (forall schedule, s :: !HidesAFailure(levels, run, detail, schedule, s)) <==> NonEmptyNames(steps)
  {
    if NonEmptyNames(steps) {
      forall schedule, s | Finishes(levels, run, detail, schedule, s) && Named(s.trace, StepFailed) != []
        ensures ReportsFailure(s)
      {
        FailingRunUndoesExactlyWhatSucceeded(steps, levels, run, detail, schedule, s);
      }
    } else {
      var k :| 0 <= k < |steps| && steps[k].name == "";
      var start := Initial(levels, run, detail);
      NamedAppend([], start.trace[0], StepSucceeded);
      assert start.trace == [] + start.trace;
      var schedule, s := FinishWithUnnamedFailing(steps, levels, run, detail, [], start);
      EveryRunKeepsInvariant(steps, levels, run, detail, schedule);
      var j, i := PlaceOf(steps, levels, steps[k]);
      assert AccountedAt(levels, s, j, i);
      assert HidesAFailure(levels, run, detail, schedule, s);
    }
  }
}
