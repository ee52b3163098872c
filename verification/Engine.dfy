/**
 The engine and its event store, imperatively (mantlekeep-control/orchestrator/orchestrator.go
 and events.go): shared fields updated step by step under a lock, loops over levels, a backwards
 compensation loop. The scheduler and the step runner are arbitrary choices.

 `Engine.Run` is proved to perform a schedule of the machine in Orchestrator, so everything
 proved there of finished schedules holds of the events it stores.
 */
module Engine {
  import opened Capability
  import opened Dag
  import opened Options
  import opened Orchestrator

  /** The events of one run in insertion order; every run's when `run` is empty. */
  function OfRun(all: seq<Event>, run: string): seq<Event> {
    if all == [] then []
    else
      var n := |all| - 1;
      OfRun(all[..n], run) + if run == "" || all[n].run == run then [all[n]] else []
  }

  /** `trace` as a store holding `base` events numbers it. */
  function Stamp(trace: seq<Event>, base: nat): (stamped: seq<Event>)
    ensures |stamped| == |trace|
    ensures forall i | 0 <= i < |trace| :: stamped[i] == trace[i].(number := base + i + 1)
  {
    seq(|trace|, i requires 0 <= i < |trace| => trace[i].(number := base + i + 1))
  }

  class MemStore {
    var number: nat
    var all: seq<Event>

    /** Numbers are the positions, from one: strictly increasing, none missing. */
    ghost predicate Valid()
      reads this
    {
      number == |all| && forall i | 0 <= i < |all| :: all[i].number == i + 1
    }

    constructor ()
      ensures Valid() && all == []
    {
      number, all := 0, [];
    }

    method Append(e: Event) returns (stored: Event)
      requires Valid()
      modifies this
      ensures Valid()
      ensures stored == e.(number := |old(all)| + 1)
      ensures all == old(all) + [stored]
    {
      number := number + 1;
      stored := e.(number := number);
      all := all + [stored];
    }

    method Events(run: string) returns (out: seq<Event>)
      ensures out == OfRun(all, run)
    {
      out := [];
      for k := 0 to |all|
        invariant out == OfRun(all[..k], run)
      {
        assert all[..k + 1][..k] == all[..k];
        if run == "" || all[k].run == run {
          out := out + [all[k]];
        }
      }
      assert all[..|all|] == all;
    }
  }

  /** Reading a run back gives its events and no other run's. */
  lemma {:induction false} OfRunMembers(all: seq<Event>, run: string, e: Event)
    ensures e in OfRun(all, run) <==> e in all && (run == "" || e.run == run)
  {
    if all != [] {
      OfRunMembers(all[..|all| - 1], run, e);
      assert all == all[..|all| - 1] + [all[|all| - 1]];
    }
  }

  /** The fields a level's concurrent steps fold their outcomes into. */
  class LevelRun {
    var completed: seq<Step>
    var failed: string
    var failErr: string

    constructor ()
      ensures completed == [] && failed == "" && failErr == ""
    {
      completed, failed, failErr := [], "", "";
    }
  }

  datatype RunResult =
    | InvalidToken
    | Rejected(reason: LayersResult)
    | Done(success: bool, failedStep: string)

  class Engine {
    const events: MemStore

    constructor (events: MemStore)
      ensures this.events == events
    {
      this.events := events;
    }

    method Emit(run: string, step: string, kind: EventKind, detail: string)
      requires events.Valid()
      modifies events
      ensures events.Valid()
      ensures events.all == old(events.all) + [Event(|old(events.all)| + 1, run, step, kind, detail)]
    {
      var _ := events.Append(Event(0, run, step, kind, detail));
    }

    /** The objects hold what the machine's state `s`, reached by `schedule`, says. */
    ghost predicate Tracks(run: LevelRun, levels: Levels, name: string, detail: string,
                           base: seq<Event>, schedule: seq<Action>, s: RunState)
      reads events, run
    {
      && events.Valid()
      && Play(levels, name, detail, schedule) == Some(s)
      && run.completed == s.completed && run.failed == s.failed && run.failErr == s.failErr
      && events.all == base + Stamp(s.trace, |base|)
    }

    /** Emits the event of an action that leaves the guarded fields alone. */
    method EmitAction(step: string, kind: EventKind, note: string, run: LevelRun, name: string, ghost a: Action,
                      ghost levels: Levels, ghost detail: string, ghost base: seq<Event>,
                      ghost schedule: seq<Action>, ghost s: RunState)
      requires Tracks(run, levels, name, detail, base, schedule, s) && Enabled(levels, s, a)
      requires a.Start? || a.Undo? || a.Close? || a.Advance?
      requires Apply(levels, name, s, a).trace == s.trace + [Event(0, name, step, kind, note)]
      modifies events
      ensures Tracks(run, levels, name, detail, base, schedule + [a], Apply(levels, name, s, a))
    {
      Emit(name, step, kind, note);
      StampGrows(s.trace, Event(0, name, step, kind, note), |base|);
      PlayAppend(levels, name, detail, schedule, a);
    }

    /** The critical section: the outcome's event and its effect on the run. */
    method FoldOutcome(step: Step, ok: bool, note: string, run: LevelRun, name: string, ghost i: nat,
                       ghost levels: Levels, ghost detail: string, ghost base: seq<Event>,
                       ghost schedule: seq<Action>, ghost s: RunState)
      requires Tracks(run, levels, name, detail, base, schedule, s)
      requires InPhase(levels, s, i, Running) && step == levels[s.level][i]
      modifies events, run
      ensures Tracks(run, levels, name, detail, base, schedule + [Outcome(i, ok, note)],
                     Apply(levels, name, s, Outcome(i, ok, note)))
    {
      if !ok {
        Emit(name, step.name, StepFailed, note);
        if run.failed == "" {
          run.failed, run.failErr := step.name, note;
        }
      } else {
        Emit(name, step.name, StepSucceeded, note);
        run.completed := run.completed + [step];
      }
      StampGrows(s.trace, Event(0, name, step.name, if ok then StepSucceeded else StepFailed, note), |base|);
      PlayAppend(levels, name, detail, schedule, Outcome(i, ok, note));
    }

    /** One level: its goroutines interleave in any order, each with any outcome. */
    method RunLevel(level: seq<Step>, run: LevelRun, name: string, ghost steps: seq<Step>, ghost levels: Levels,
                    ghost detail: string, ghost base: seq<Event>, ghost schedule: seq<Action>, ghost s: RunState)
      returns (ghost played: seq<Action>, ghost t: RunState)
      requires Accepted(steps, levels)
      requires Tracks(run, levels, name, detail, base, schedule, s)
      requires s.stage == Executing && s.level < |levels| && levels[s.level] == level
      requires s.phases == Fresh(levels, s.level)
      modifies events, run
      ensures Tracks(run, levels, name, detail, base, played, t)
      ensures t.stage == Executing && t.level == s.level && Enabled(levels, t, Advance)
    {
      var phases := seq(|level|, _ => Waiting);
      played, t := schedule, s;
      while exists i :: 0 <= i < |phases| && phases[i] != Finished
        invariant Tracks(run, levels, name, detail, base, played, t)
        invariant t.stage == Executing && t.level == s.level && t.phases == phases && |phases| == |level|
        decreases WorkLeft(levels, t)
      {
        EveryRunKeepsInvariant(steps, levels, name, detail, played);
        var i: nat :| i < |phases| && phases[i] != Finished;
        if phases[i] == Waiting {
          EmitAction(level[i].name, StepStarted, level[i].runtime, run, name, Start(i),
                     levels, detail, base, played, t);
          ActionsUseUpWork(levels, name, t, Start(i));
          played, t := played + [Start(i)], Apply(levels, name, t, Start(i));
          phases := phases[i := Running];
        } else {
          var ok: bool, note: string := *, *;
          FoldOutcome(level[i], ok, note, run, name, i, levels, detail, base, played, t);
          ActionsUseUpWork(levels, name, t, Outcome(i, ok, note));
          played, t := played + [Outcome(i, ok, note)], Apply(levels, name, t, Outcome(i, ok, note));
          phases := phases[i := Finished];
        }
      }
    }

    /** The levels in dependency order, stopping at the first that recorded a failure. */
    method RunLevels(levels: Levels, run: LevelRun, name: string, ghost steps: seq<Step>,
                     ghost detail: string, ghost base: seq<Event>)
      returns (ghost played: seq<Action>, ghost t: RunState)
      requires Accepted(steps, levels)
      requires Tracks(run, levels, name, detail, base, [], Initial(levels, name, detail))
      modifies events, run
      ensures Tracks(run, levels, name, detail, base, played, t)
      ensures if t.failed != "" then t.stage == Undoing(|t.completed|)
              else t.stage == Executing && t.level == |levels| && t.phases == []
    {
      played, t := [], Initial(levels, name, detail);
      for l := 0 to |levels|
        invariant Tracks(run, levels, name, detail, base, played, t)
        invariant t.stage == Executing && t.level == l && t.failed == "" && t.phases == Fresh(levels, l)
      {
        played, t := RunLevel(levels[l], run, name, steps, levels, detail, base, played, t);
        PlayAppend(levels, name, detail, played, Advance);
        played, t := played + [Advance], Apply(levels, name, t, Advance);
        if run.failed != "" {
          return;
        }
      }
    }

    /** Undoes completed work, newest first; a compensation that fails is recorded and the
        walk continues. */
    method Compensate(run: LevelRun, name: string, ghost levels: Levels, ghost detail: string,
                      ghost base: seq<Event>, ghost schedule: seq<Action>, ghost s: RunState)
      returns (ghost played: seq<Action>, ghost t: RunState)
      requires Tracks(run, levels, name, detail, base, schedule, s)
      requires s.stage == Undoing(|s.completed|)
      modifies events
      ensures Tracks(run, levels, name, detail, base, played, t)
      ensures t.stage == Undoing(0) && t.failed == s.failed && t.failErr == s.failErr
    {
      played, t := schedule, s;
      var i := |run.completed|;
      while i > 0
        invariant 0 <= i <= |run.completed|
        invariant Tracks(run, levels, name, detail, base, played, t)
        invariant t.stage == Undoing(i) && t.failed == s.failed && t.failErr == s.failErr
      {
        i := i - 1;
        var step := run.completed[i];
        var ok: bool, text: string := *, *;
        var note := if ok then text else "compensation error: " + text;
        EmitAction(step.name, StepCompensated, note, run, name, Undo(note), levels, detail, base, played, t);
        played, t := played + [Undo(note)], Apply(levels, name, t, Undo(note));
      }
    }

    /** Runs a governed workflow under a token. Without a valid token, or when the workflow
        cannot be ordered, nothing is emitted. Otherwise the events stored are exactly those of
        a finished schedule, and the result is that schedule's. */
    method Run(token: Token, now: int, name: string, steps: seq<Step>)
      returns (res: RunResult, ghost levels: Levels, ghost played: seq<Action>, ghost s: RunState)
      requires events.Valid()
      modifies events
      ensures events.Valid()
      ensures res.InvalidToken? <==> !token.Usable(now)
      ensures res.Rejected? <==> !res.InvalidToken? && !(UniqueNames(steps) && KnownDependencies(steps) && Acyclic(steps))
      ensures !res.Done? ==> events.all == old(events.all)
      ensures res.Done? ==>
                && Accepted(steps, levels)
                && Finishes(levels, name, "intent " + token.intentID, played, s)
                && events.all == old(events.all) + Stamp(s.trace, |old(events.all)|)
                && res.success == (s.failed == "") && res.failedStep == s.failed
    {
      levels, played, s := [], [], Initial([], "", "");
      if token.value == "" || !token.Valid(now) {
        return InvalidToken, levels, played, s;
      }
      var ordered := Layers(steps);
      if !ordered.Ordered? {
        return Rejected(ordered), levels, played, s;
      }
      var order := ordered.levels;
      levels := order;
      res, played, s := Execute(order, name, "intent " + token.intentID, steps);
    }

    method Execute(levels: Levels, name: string, detail: string, ghost steps: seq<Step>)
      returns (res: RunResult, ghost played: seq<Action>, ghost s: RunState)
      requires events.Valid() && Accepted(steps, levels)
      modifies events
      ensures events.Valid()
      ensures res.Done? && Finishes(levels, name, detail, played, s)
      ensures events.all == old(events.all) + Stamp(s.trace, |old(events.all)|)
      ensures res.success == (s.failed == "") && res.failedStep == s.failed
    {
      ghost var base := events.all;
      var run := new LevelRun();
      Emit(name, "", RunStarted, detail);
      assert Stamp(Initial(levels, name, detail).trace, |base|)
          == [Event(|base| + 1, name, "", RunStarted, detail)];
      played, s := RunLevels(levels, run, name, steps, detail, base);
      if run.failed != "" {
        played, s := Compensate(run, name, levels, detail, base, played, s);
        EmitAction(run.failed, RunFailed, run.failErr, run, name, Close, levels, detail, base, played, s);
        played, s := played + [Close], Apply(levels, name, s, Close);
        res := Done(false, run.failed);
      } else {
        EmitAction("", RunSucceeded, "", run, name, Advance, levels, detail, base, played, s);
        played, s := played + [Advance], Apply(levels, name, s, Advance);
        res := Done(true, "");
      }
    }
  }

  function Outcome(i: nat, ok: bool, note: string): Action {
    if ok then Succeed(i, note) else Fail(i, note)
  }

  lemma StampGrows(trace: seq<Event>, e: Event, base: nat)
    ensures Stamp(trace + [e], base) == Stamp(trace, base) + [e.(number := base + |trace| + 1)]
  {
  }
}
