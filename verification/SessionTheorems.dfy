/** What the runs of a session guarantee: one start, one finalize, an exit status that the run
    explains, the contract of the Process interface, and a sound leak verdict. */
module SessionTheorems {
  import opened Options
  import opened Counting
  import opened Session
  import Det = LeakDetector

  // ----- finalization

  predicate IsExit(e: Effect) { e.ExitSession? }

  predicate HasExited(effects: seq<Effect>) { exists j :: 0 <= j < |effects| && IsExit(effects[j]) }

  /** Everything that one finalize and its clean-up do, in order. */
  function FullEffects(status: int, err: Option<string>): seq<Effect> {
    (if err.Some? then [WriteText(err.value + "\n")] else []) + [FinishDetector, ExitSession(status), BeginCleanup]
  }

  lemma EffectsArePrefix(status: int, err: Option<string>, stage: Stage)
    ensures EffectsBefore(status, err, stage) <= FullEffects(status, err)
    ensures stage.Over? ==> EffectsBefore(status, err, stage) + [BeginCleanup] == FullEffects(status, err)
    ensures HasExited(EffectsBefore(status, err, stage)) <==> stage.Kill? || stage.Over?
  {
    var before := EffectsBefore(status, err, stage);
    if stage.Kill? || stage.Over? {
      assert IsExit(before[|before| - 1]);
    }
  }

  /** At most one Run is past `started` and one goroutine past `finished`; the effects are those of
      a single finalize, in order, cut off where it is now, so there is never a second Exit. */
  ghost predicate FinalizedAtMostOnce(s: State) {
    && Count(s.runs.callers, WonStart) <= 1
    && !(s.runs.main.Finalizing? && Winning(s.runs.main.fin.stage)
         && WatcherInFinalize(s.gos) && Winning(s.gos[CtxCancel].fin.stage))
    && (s.finals.winner.None? ==> s.finals.effects == [])
    && (s.finals.winner.Some? ==>
          s.finals.effects <= FullEffects(s.finals.winner.value.status, s.finals.winner.value.err))
    && forall a, b :: 0 <= a < b < |s.finals.effects| ==> !(IsExit(s.finals.effects[a]) && IsExit(s.finals.effects[b]))
  }

  lemma OnceNow(s: State)
    requires OneStarted(s.runs) && OneFinalizer(s.runs.main, s.gos, s.finals)
    requires EffectsInOrder(s.finals, Progress(s.runs.main, s.gos, s.finals))
    ensures FinalizedAtMostOnce(s)
  {
    if s.finals.winner.Some? {
      EffectsArePrefix(s.finals.winner.value.status, s.finals.winner.value.err, Progress(s.runs.main, s.gos, s.finals));
    }
  }

  lemma FinalizedOnce(states: seq<State>, steps: seq<Step>, pty: bool, i: nat)
    requires IsRun(states, steps, pty) && i <= |steps|
    ensures FinalizedAtMostOnce(states[i])
  {
    InvariantAlong(states, steps, pty, i);
    OnceNow(states[i]);
  }

  /** The session's stderr got exactly the text of this error, or none. */
  ghost predicate TextIs(effects: seq<Effect>, err: Option<string>) {
    forall t :: WriteText(t) in effects <==> err.Some? && t == err.value + "\n"
  }

  /** What an Exit with this status has behind it: start failed and it is 255 with the wrapped error;
      or the context was cancelled and it is 255 without text; or it is what Process.Wait returned. */
  ghost predicate ExitHasReason(s: State, status: int) {
    || (s.runs.startErr.Some? && status == 255 && TextIs(s.finals.effects, s.runs.startErr))
    || (s.runs.startErr.None? && s.ctxDone && status == 255 && TextIs(s.finals.effects, None))
    || (s.runs.startErr.None? && s.runs.waited.Some? && status == s.runs.waited.value.code
        && TextIs(s.finals.effects, s.runs.waited.value.err))
  }

  lemma TextWritten(status: int, err: Option<string>, tail: seq<Effect>)
    requires tail <= [BeginCleanup]
    ensures TextIs(EffectsBefore(status, err, Kill) + tail, err)
  {
    var effects := EffectsBefore(status, err, Kill) + tail;
    assert err.Some? ==> effects[0] == WriteText(err.value + "\n");
  }

  lemma ReasonNow(s: State, status: int)
    requires Arguments(s.runs, s.ctxDone, s.finals)
    requires EffectsInOrder(s.finals, Progress(s.runs.main, s.gos, s.finals))
    requires ExitSession(status) in s.finals.effects
    ensures ExitHasReason(s, status)
  {
    var w := s.finals.winner.value;
    var stage := Progress(s.runs.main, s.gos, s.finals);
    var tail := if CleanupBegun(s.finals) then [BeginCleanup] else [];
    assert stage.Kill? || stage.Over?;
    assert s.finals.effects == EffectsBefore(w.status, w.err, Kill) + tail;
    TextWritten(w.status, w.err, tail);
    assert status == w.status;
  }

  lemma ExitStatusExplained(states: seq<State>, steps: seq<Step>, pty: bool, i: nat, status: int)
    requires IsRun(states, steps, pty) && i <= |steps|
    requires ExitSession(status) in states[i].finals.effects
    ensures ExitHasReason(states[i], status)
  {
    InvariantAlong(states, steps, pty, i);
    ReasonNow(states[i], status);
  }

  const AlreadyStarted := "Session.Run(): Already started. "

  /** What a call of Run has returned, if it has. */
  function AnswerOf(s: State, t: nat): Option<Option<string>>
    requires t in s.runs.callers
  {
    match s.runs.callers[t]
    case AtCas => None
    case Lost => Some(Some(AlreadyStarted))
    case Won => if s.runs.main.Done? then Some(s.runs.main.err) else None
  }

  /** Over all runs, for all callers: the one that has got through `started`, and there is at most one,
      returns the wrapped error of the call of start that failed, or else what Process.Wait returned, whoever
      has finalized; all others are told that the session was started already. */
  lemma RunReturnsItsError(states: seq<State>, steps: seq<Step>, pty: bool, i: nat, t: nat)
    requires IsRun(states, steps, pty) && i <= |steps|
    requires t in states[i].runs.callers && AnswerOf(states[i], t).Some?
    ensures var r, answer := states[i].runs, AnswerOf(states[i], t).value;
            if r.callers[t].Won? then RunError(r, answer) && Count(r.callers, WonStart) == 1
            else answer == Some(AlreadyStarted) && r.started
  {
    InvariantAlong(states, steps, pty, i);
    LosersCameLater(states, steps, pty, i);
    var r := states[i].runs;
    if r.callers[t].Won? { assert t in Where(r.callers, WonStart); }
  }

  /** Nobody loses `started` before somebody has won it. */
  lemma {:induction false} LosersCameLater(states: seq<State>, steps: seq<Step>, pty: bool, i: nat)
    requires IsRun(states, steps, pty) && i <= |steps|
    ensures forall t :: t in states[i].runs.callers && states[i].runs.callers[t].Lost? ==> states[i].runs.started
  {
    if i > 0 {
      LosersCameLater(states, steps, pty, i - 1);
      StartedStays(states[i - 1], steps[i - 1]);
    }
  }

  lemma StartedStays(s: State, step: Step)
    requires Enabled(s, step)
    requires forall t :: t in s.runs.callers && s.runs.callers[t].Lost? ==> s.runs.started
    ensures var r := NextRuns(s, step);
            forall t :: t in r.callers && r.callers[t].Lost? ==> r.started
  {
  }

  /** The watcher has won `finished` and has not yet called Exit. */
  predicate WatcherBeforeExit(s: State) {
    WatcherInFinalize(s.gos) && s.gos[CtxCancel].fin.stage in {Text, Finish, Exit}
  }

  lemma ExitedOnceKilling(f: Finals, stage: Stage)
    requires EffectsInOrder(f, stage) && f.winner.Some?
    ensures HasExited(f.effects) <==> stage.Kill? || stage.Over?
  {
    var w := f.winner.value;
    EffectsArePrefix(w.status, w.err, stage);
    var before := EffectsBefore(w.status, w.err, stage);
    if CleanupBegun(f) {
      assert f.effects == before + [BeginCleanup];
      var j :| 0 <= j < |before| && IsExit(before[j]);
      assert IsExit(f.effects[j]);
    } else {
      assert f.effects == before;
    }
  }

  /** When the winning Run has returned, somebody has finalized; Exit has been called if and only if
      it is not the watcher that is still on its way to it. The comment on Run promises that the
      session has closed in every case. */
  lemma ReturnedRunHasExited(states: seq<State>, steps: seq<Step>, pty: bool, i: nat)
    requires IsRun(states, steps, pty) && i <= |steps| && states[i].runs.main.Done?
    ensures states[i].finals.finished
    ensures HasExited(states[i].finals.effects) <==> !WatcherBeforeExit(states[i])
  {
    InvariantAlong(states, steps, pty, i);
    var s := states[i];
    ExitedOnceKilling(s.finals, Progress(s.runs.main, s.gos, s.finals));
  }

  /** What a caller can tell: a Run that finalized itself has called Exit before it returned, and so
      has any Run that returns while the context is not cancelled. */
  lemma OwnFinalizeHasExited(states: seq<State>, steps: seq<Step>, pty: bool, i: nat)
    requires IsRun(states, steps, pty) && i <= |steps| && states[i].runs.main.Done?
    ensures !states[i].ctxDone ==> WonBy(states[i].finals, Runner)
    ensures WonBy(states[i].finals, Runner) ==> HasExited(states[i].finals.effects)
  {
    InvariantAlong(states, steps, pty, i);
    ReturnedRunHasExited(states, steps, pty, i);
  }

  // ----- when Run keeps its promise, at its own compare-and-swap

  /** The j-th step is the compare-and-swap of the finalize that Run itself calls. */
  predicate IsOwnCas(s: State, step: Step) {
    step.RunnerFinalizes? && s.runs.main.Finalizing? && s.runs.main.fin.stage == Cas
  }

  /** What that step finds: the lock is free, or Exit has been called already. */
  ghost predicate FindsItSettled(s: State) { !s.finals.finished || HasExited(s.finals.effects) }

  lemma HistoryGrows(s: State, step: Step)
    requires Enabled(s, step)
    ensures s.finals.effects <= NextFinals(s, step).effects
    ensures s.finals.finished ==> NextFinals(s, step).finished && NextFinals(s, step).winner == s.finals.winner
  {
  }

  lemma ExitedStays(effects: seq<Effect>, effects': seq<Effect>)
    requires effects <= effects' && HasExited(effects)
    ensures HasExited(effects')
  {
    var j :| 0 <= j < |effects| && IsExit(effects[j]);
    assert IsExit(effects'[j]);
  }

  lemma HistoryGrowsOnce(states: seq<State>, steps: seq<Step>, pty: bool, i: nat)
    requires IsRun(states, steps, pty) && i < |steps|
    ensures states[i].finals.effects <= states[i + 1].finals.effects
    ensures WonBy(states[i].finals, Runner) ==> WonBy(states[i + 1].finals, Runner)
  {
    InvariantAlong(states, steps, pty, i);
    HistoryGrows(states[i], steps[i]);
  }

  lemma PrefixOfPrefix<T>(a: seq<T>, b: seq<T>, c: seq<T>)
    requires a <= b && b <= c
    ensures a <= c
  {
  }

  /** Nobody takes a finalization over, and nothing that has happened is undone. */
  lemma {:induction false} HistoryGrowsAlong(states: seq<State>, steps: seq<Step>, pty: bool, j: nat, i: nat)
    requires IsRun(states, steps, pty) && j <= i <= |steps|
    ensures states[j].finals.effects <= states[i].finals.effects
    ensures WonBy(states[j].finals, Runner) ==> WonBy(states[i].finals, Runner)
  {
    if j < i {
      HistoryGrowsAlong(states, steps, pty, j, i - 1);
      HistoryGrowsOnce(states, steps, pty, i - 1);
      PrefixOfPrefix(states[j].finals.effects, states[i - 1].finals.effects, states[i].finals.effects);
    }
  }

  /** A state in which Run has returned and Exit has not been called. */
  ghost predicate ReturnedUnexited(s: State) { s.runs.main.Done? && !HasExited(s.finals.effects) }

  /** If that step finds it settled, Run never returns without an Exit, whatever else happens. */
  lemma SettledRunExits(states: seq<State>, steps: seq<Step>, pty: bool, j: nat, i: nat)
    requires IsRun(states, steps, pty) && j < i <= |steps|
    requires IsOwnCas(states[j], steps[j]) && FindsItSettled(states[j])
    ensures !ReturnedUnexited(states[i])
  {
    HistoryGrowsAlong(states, steps, pty, j, i);
    if HasExited(states[j].finals.effects) {
      ExitedStays(states[j].finals.effects, states[i].finals.effects);
    } else {
      assert WonBy(states[j + 1].finals, Runner);
      HistoryGrowsAlong(states, steps, pty, j + 1, i);
      if states[i].runs.main.Done? { OwnFinalizeHasExited(states, steps, pty, i); }
    }
  }

  /** If it does not, Run can return at once, and nobody has called Exit. */
  lemma UnsettledRunReturns(states: seq<State>, steps: seq<Step>, pty: bool)
      returns (states': seq<State>, steps': seq<Step>)
    requires IsRun(states, steps, pty) && steps != []
    requires IsOwnCas(states[|steps| - 1], steps[|steps| - 1]) && !FindsItSettled(states[|steps| - 1])
    ensures IsRun(states', steps', pty) && |steps'| == |steps| + 1
    ensures states'[..|states|] == states && steps'[..|steps|] == steps
    ensures ReturnedUnexited(states'[|steps'|])
  {
    var s := states[|steps| - 1];
    assert states[|steps|] == Apply(s, steps[|steps| - 1]);
    states', steps' := states + [Apply(states[|steps|], RunReturns)], steps + [RunReturns];
    assert forall i :: 0 <= i < |steps| ==> steps'[i] == steps[i];
  }

  /** The run up to its j-th state. */
  lemma PrefixIsRun(states: seq<State>, steps: seq<Step>, pty: bool, j: nat)
    requires IsRun(states, steps, pty) && j <= |steps|
    ensures IsRun(states[..j + 1], steps[..j], pty)
  {
  }

  /** Another run that agrees with this one up to its j-th step, and in whose i-th state, after that,
      Run has returned too early. */
  ghost predicate BreaksPromise(states': seq<State>, steps': seq<Step>, i: nat, states: seq<State>, steps: seq<Step>,
                                pty: bool, j: nat)
    requires IsRun(states, steps, pty) && j < |steps|
  {
    && IsRun(states', steps', pty) && j < i <= |steps'|
    && states'[..j + 2] == states[..j + 2] && steps'[..j + 1] == steps[..j + 1]
    && ReturnedUnexited(states'[i])
  }

  /** The comment on Run promises that the session has closed when it returns. At its own
      compare-and-swap it is decided: the promise is kept in every continuation if and only if the
      step finds `finished` free, or Exit called already. */
  lemma RunExitsExactly(states: seq<State>, steps: seq<Step>, pty: bool, j: nat)
    requires IsRun(states, steps, pty) && j < |steps| && IsOwnCas(states[j], steps[j])
    ensures FindsItSettled(states[j])
            <==> forall states', steps', i :: !BreaksPromise(states', steps', i, states, steps, pty, j)
  {
    if FindsItSettled(states[j]) {
      forall states', steps', i: nat | BreaksPromise(states', steps', i, states, steps, pty, j)
        ensures false
      {
        assert states'[j] == states'[..j + 2][j] == states[j] && steps'[j] == steps'[..j + 1][j] == steps[j];
        SettledRunExits(states', steps', pty, j, i);
      }
    } else {
      PrefixIsRun(states, steps, pty, j + 1);
      var states', steps' := UnsettledRunReturns(states[..j + 2], steps[..j + 1], pty);
      assert BreaksPromise(states', steps', j + 2, states, steps, pty, j);
    }
  }

  /** Somebody has won `finished` and has not yet called Exit. */
  predicate BeforeExit(s: State) {
    s.finals.winner.Some? && Progress(s.runs.main, s.gos, s.finals) in {Text, Finish, Exit}
  }

  /** Steps that the winner has still to take before it has called Exit. */
  function StepsToExit(stage: Stage): nat {
    match stage
    case Text => 3
    case Finish => 2
    case Exit => 1
    case _ => 0
  }

  function WinnerStep(s: State): Step
    requires s.finals.winner.Some?
  {
    if s.finals.winner.value.who == Runner then RunnerFinalizes else WatcherFinalizes
  }

  /** The winner can take its next step towards Exit if and only if it is not about to call Finish
      while the lock of the statistics is wanted or held; and that step brings it closer. */
  lemma PendingExitComes(s: State)
    requires OneFinalizer(s.runs.main, s.gos, s.finals) && BeforeExit(s)
    ensures var stage := Progress(s.runs.main, s.gos, s.finals);
            && (Enabled(s, WinnerStep(s)) <==> stage != Finish || !s.locked)
            && (Enabled(s, WinnerStep(s)) ==>
                  var s' := Apply(s, WinnerStep(s));
                  && StepsToExit(Progress(s'.runs.main, s'.gos, s'.finals)) == StepsToExit(stage) - 1
                  && s'.finals.winner == s.finals.winner
                  && (!BeforeExit(s') ==> HasExited(s'.finals.effects)))
  {
    if Enabled(s, WinnerStep(s)) {
      var f' := NextFinals(s, WinnerStep(s));
      if s.finals.winner.value.who == Runner { RunnerProgresses(s); } else { WatcherProgresses(s); }
      if Progress(s.runs.main, s.gos, s.finals) == Exit {
        assert IsExit(f'.effects[|s.finals.effects|]);
      }
    }
  }

  // ----- the run in which Run returns too early

  lemma Extend(states: seq<State>, steps: seq<Step>, pty: bool, step: Step)
      returns (states': seq<State>, steps': seq<Step>)
    requires IsRun(states, steps, pty) && Enabled(states[|steps|], step)
    ensures IsRun(states', steps', pty) && states'[|steps'|] == Apply(states[|steps|], step)
  {
    states', steps' := states + [Apply(states[|steps|], step)], steps + [step];
    assert forall i :: 0 <= i < |steps| ==> steps'[i] == steps[i];
  }

  /** Nothing has gone wrong and nobody has finalized. */
  predicate Quiet(s: State) {
    s.finals == Finals(false, None, NotSpawned, []) && CtxCancel !in s.gos
  }

  /** The winner is at this place in the program. */
  predicate QuietAt(s: State, pty: bool, k: nat) {
    Quiet(s) && s.program == Program(pty) && s.runs.main == At(k)
  }

  lemma RunPast(states: seq<State>, steps: seq<Step>, pty: bool, k: nat)
      returns (states': seq<State>, steps': seq<Step>)
    requires IsRun(states, steps, pty) && QuietAt(states[|steps|], pty, k) && k + 2 < |Program(pty)|
    ensures IsRun(states', steps', pty) && QuietAt(states'[|steps'|], pty, k + 1)
  {
    match Program(pty)[k]
    case Call(_) => states', steps' := RunPastCall(states, steps, pty, k);
    case Add(_) => states', steps' := RunPastAdd(states, steps, pty, k);
    case Spawn(n) =>
      NotTheWatcher(pty, k);
      states', steps' := Extend(states, steps, pty, SpawnGo);
  }

  lemma RunPastCall(states: seq<State>, steps: seq<Step>, pty: bool, k: nat)
      returns (states': seq<State>, steps': seq<Step>)
    requires IsRun(states, steps, pty) && QuietAt(states[|steps|], pty, k) && k + 2 < |Program(pty)|
    requires Program(pty)[k].Call?
    ensures IsRun(states', steps', pty) && QuietAt(states'[|steps'|], pty, k + 1)
  {
    ProgramIsGood(pty);
    assert GoodAt(Program(pty), k);
    states', steps' := Extend(states, steps, pty, BeginCall);
    states', steps' := Extend(states', steps', pty, CallReturns(Ok));
  }

  lemma RunPastAdd(states: seq<State>, steps: seq<Step>, pty: bool, k: nat)
      returns (states': seq<State>, steps': seq<Step>)
    requires IsRun(states, steps, pty) && QuietAt(states[|steps|], pty, k) && k + 2 < |Program(pty)|
    requires Program(pty)[k].Add?
    ensures IsRun(states', steps', pty) && QuietAt(states'[|steps'|], pty, k + 1)
  {
    states', steps' := Extend(states, steps, pty, AddName);
    states', steps' := Extend(states', steps', pty, StoreName);
  }

  lemma NotTheWatcher(pty: bool, k: nat)
    requires k + 2 < |Program(pty)|
    ensures Program(pty)[k] != Spawn(CtxCancel)
  {
    ProgramIsGood(pty);
    Take(Program(pty), k);
    assert GoodAt(Program(pty), k + 1);
  }

  /** There is a run that gets to any place in the program before the watcher is started. */
  lemma {:induction false} RunTo(pty: bool, k: nat) returns (states: seq<State>, steps: seq<Step>)
    requires k <= |Program(pty)| - 2
    ensures IsRun(states, steps, pty) && QuietAt(states[|steps|], pty, k)
  {
    if k == 0 {
      states, steps := [Initial(pty)], [];
      states, steps := Extend(states, steps, pty, CallRun(0));
      states, steps := Extend(states, steps, pty, TryStart(0));
    } else {
      states, steps := RunTo(pty, k - 1);
      states, steps := RunPast(states, steps, pty, k - 1);
    }
  }

  /** The winner is in Wait and the watcher is about to finalize. */
  predicate Racing(s: State) {
    && s.finals == Finals(false, None, NotSpawned, [])
    && InCallOf(s, {Wait})
    && GoAt(s, CtxCancel, WatcherFinalizing(Fin(Cas, 255, None)))
  }

  lemma RunToWait(pty: bool) returns (states: seq<State>, steps: seq<Step>)
    ensures IsRun(states, steps, pty)
    ensures var s := states[|steps|];
            s.finals == Finals(false, None, NotSpawned, []) && InCallOf(s, {Wait}) && GoAt(s, CtxCancel, Running)
  {
    states, steps := RunTo(pty, |Program(pty)| - 2);
    states, steps := Extend(states, steps, pty, SpawnGo);
    states, steps := Extend(states, steps, pty, BeginCall);
  }

  lemma RunToRace(pty: bool) returns (states: seq<State>, steps: seq<Step>)
    ensures IsRun(states, steps, pty) && Racing(states[|steps|])
  {
    states, steps := RunToWait(pty);
    states, steps := Extend(states, steps, pty, Cancel);
    states, steps := Extend(states, steps, pty, WatcherWakes);
  }

  /** A run in which the winning Run returns although Exit has not been called: the watcher wins
      `finished`, is held up, and the process exits meanwhile. */
  lemma RunCanReturnBeforeExit(pty: bool) returns (states: seq<State>, steps: seq<Step>)
    ensures IsRun(states, steps, pty)
    ensures states[|steps|].runs.main.Done? && states[|steps|].finals.effects == []
  {
    states, steps := RunToRace(pty);
    states, steps := Extend(states, steps, pty, WatcherFinalizes);
    states, steps := Extend(states, steps, pty, CallReturns(Exits(Exited(0, None))));
    states, steps := Extend(states, steps, pty, RunnerFinalizes);
    states, steps := Extend(states, steps, pty, RunReturns);
  }

  // ----- nobody gets stuck, and everybody gets on

  /** Finish has to wait for the lock of the statistics. */
  predicate WaitsForLock(stage: Stage, locked: bool) { stage == Finish && locked }

  /** The next step of the winner of `started`; what a call comes back with is up to the process. */
  function RunnerStep(s: State, cause: string, exited: Exited): Step
    requires AtInstr(s.program, Behind(s.runs.main))
  {
    match s.runs.main
    case At(k) => (match s.program[k] case Call(_) => BeginCall case Add(_) => AddName case Spawn(_) => SpawnGo)
    case InCall(k) => CallReturns(if s.program[k] == Call(Wait) then Exits(exited) else Fails(cause))
    case InProcessAdd(_, _) => ProcessAdded
    case InAdd(_) => StoreName
    case Finalizing(_, fin) => if fin.stage.Over? then RunReturns else RunnerFinalizes
    case _ => Cancel
  }

  /** It can go on until Run has returned, unless its Finish waits for the lock. */
  lemma RunnerCanMove(s: State, cause: string, exited: Exited)
    requires GoodProgram(s.program) && Placed(s.program, s.runs) && !s.runs.main.NotStarted? && !s.runs.main.Done?
    ensures Enabled(s, RunnerStep(s, cause, exited))
            <==> !(s.runs.main.Finalizing? && WaitsForLock(s.runs.main.fin.stage, s.locked))
  {
    if s.runs.main.InCall? {
      var k := s.runs.main.k;
      var c := s.program[k].call;
      assert GoodAt(s.program, k) && s.program[k] == Call(c) && c != Cleanup;
    }
  }

  function GoStep(s: State, n: Name): Step
    requires n in s.gos && n in s.det.phases
  {
    match s.gos[n]
    case Running => if n == CtxCancel then WatcherWakes else BodyReturns(n)
    case WatcherFinalizing(fin) => if fin.stage.Over? then WatcherReturns else WatcherFinalizes
    case Returned => GoCloses(n)
    case Closed => GoUncounts(n)
    case InDone => if s.det.phases[n] == Det.Uncounted then GoFinds(n) else GoDeletes(n)
    case Ended => Cancel
  }

  /** And so can every goroutine of a session, the watcher once the context is cancelled. */
  lemma GoroutineCanMove(s: State, n: Name)
    requires n in s.gos && !s.gos[n].Ended? && n in s.det.phases && Fits(s.gos[n], s.det.phases[n])
    requires s.gos[n].WatcherFinalizing? ==> n == CtxCancel
    ensures Enabled(s, GoStep(s, n))
            <==> !(n == CtxCancel && s.gos[n].Running? && !s.ctxDone)
                 && !(s.gos[n].WatcherFinalizing? && WaitsForLock(s.gos[n].fin.stage, s.locked))
  {
  }

  /** Both in every run: no goroutine of a session ever waits for anything but its own call or copy, the
      cancellation, or the lock of the statistics. */
  lemma NobodyIsStuck(states: seq<State>, steps: seq<Step>, pty: bool, i: nat, cause: string, exited: Exited)
    requires IsRun(states, steps, pty) && i <= |steps|
    ensures var s := states[i];
            && (!s.runs.main.NotStarted? && !s.runs.main.Done? ==>
                  && AtInstr(s.program, Behind(s.runs.main))
                  && (Enabled(s, RunnerStep(s, cause, exited))
                      <==> !(s.runs.main.Finalizing? && WaitsForLock(s.runs.main.fin.stage, s.locked))))
            && forall n :: n in s.gos && !s.gos[n].Ended? ==>
                 && n in s.det.phases
                 && (Enabled(s, GoStep(s, n))
                     <==> !(n == CtxCancel && s.gos[n].Running? && !s.ctxDone)
                          && !(s.gos[n].WatcherFinalizing? && WaitsForLock(s.gos[n].fin.stage, s.locked)))
  {
    InvariantAlong(states, steps, pty, i);
    var s := states[i];
    if !s.runs.main.NotStarted? && !s.runs.main.Done? { RunnerCanMove(s, cause, exited); }
    forall n | n in s.gos && !s.gos[n].Ended?
      ensures n in s.det.phases
      ensures Enabled(s, GoStep(s, n))
              <==> !(n == CtxCancel && s.gos[n].Running? && !s.ctxDone)
                   && !(s.gos[n].WatcherFinalizing? && WaitsForLock(s.gos[n].fin.stage, s.locked))
    {
      assert Fits(s.gos[n], s.det.phases[n]);
      GoroutineCanMove(s, n);
    }
  }

  /** The lock of the statistics and the context are nobody's to hold back. */
  lemma NothingIsHeldBack(s: State, t: nat)
    ensures Enabled(s, Cancel)
    ensures (Enabled(s, LockStatistics) <==> !s.locked) && (Enabled(s, UnlockStatistics) <==> s.locked)
    ensures t !in s.runs.callers ==> Enabled(s, CallRun(t))
    ensures t in s.runs.callers && s.runs.callers[t].AtCas? ==> Enabled(s, TryStart(t))
  {
  }

  function GoSteps(g: Go): nat {
    match g
    case Running => 6
    case WatcherFinalizing(_) => 5
    case Returned => 4
    case Closed => 3
    case InDone => 2
    case Ended => 0
  }

  function KillerSteps(k: Killer): nat {
    match k
    case NotSpawned => 3
    case Spawned => 2
    case InCleanup(_) => 1
    case Cleaned(_) => 0
  }

  /** Each step gets somebody further: a caller past `started`, a goroutine towards its end, the clean-up, and
      the detector by its own step. What a step sets, the lock and the cancellation, stays set. */
  lemma StepsLead(s: State, step: Step)
    requires Enabled(s, step)
    ensures step.TryStart? ==> !NextRuns(s, step).callers[step.t].AtCas?
    ensures step.BodyReturns? || step.GoCloses? || step.GoUncounts? || step.GoDeletes? ==>
              GoSteps(NextGos(s, step)[step.n]) < GoSteps(s.gos[step.n])
    ensures step.WatcherWakes? || step.WatcherReturns? ==>
              GoSteps(NextGos(s, step)[CtxCancel]) == GoSteps(s.gos[CtxCancel]) - 1
    ensures step.KillerStarts? || step.KillerReturns? ==>
              KillerSteps(NextFinals(s, step).killer) == KillerSteps(s.finals.killer) - 1
    ensures step.DetectorWorks? ==> Apply(s, step).det == Det.Apply(s.det, step.d)
    ensures Apply(s, step).ctxDone <==> s.ctxDone || step.Cancel?
    ensures Apply(s, step).locked <==> (s.locked && !step.UnlockStatistics?) || step.LockStatistics?
  {
  }

  // ----- the Process interface

  /** The calls that Run makes, all of them, in order. */
  function ProcessCalls(pty: bool): seq<CallName> {
    if pty then [Init, Start, Wait] else [Init, Stdout, Stderr, Stdin, Start, Wait]
  }

  lemma {:induction false} CallsOfSplit(a: seq<Instr>, b: seq<Instr>)
    ensures CallsOf(a + b) == CallsOf(a) + CallsOf(b)
    decreases |b|
  {
    if b == [] {
      assert a + b == a;
    } else {
      var front, last := b[..|b| - 1], b[|b| - 1];
      assert (a + b)[..|a + b| - 1] == a + front;
      CallsOfSplit(a, front);
    }
  }

  lemma {:induction false} CallsOfOne(c: CallName)
    ensures CallsOf([Call(c)]) == [c]
  {
    assert [Call(c)][..0] == [];
  }

  lemma CallsOfPair(n: Name)
    ensures CallsOf([Add(n), Spawn(n)]) == []
  {
    assert [Add(n), Spawn(n)][..1] == [Add(n)];
    assert [Add(n)][..0] == [];
    assert CallsOf([Add(n)]) == [];
  }

  lemma CallsOfTriple(c: CallName, n: Name)
    ensures CallsOf([Call(c), Add(n), Spawn(n)]) == [c]
  {
    CallsOfOne(c);
    CallsOfPair(n);
    CallsOfSplit([Call(c)], [Add(n), Spawn(n)]);
    assert [Call(c)] + [Add(n), Spawn(n)] == [Call(c), Add(n), Spawn(n)];
  }

  lemma {:induction false} CallsOfStartPty()
    ensures CallsOf(StartPty()) == [Start]
  {
    var a, b, c := [Add(WinCh), Spawn(WinCh)], [Call(Start), Add(CopyInput), Spawn(CopyInput)],
                   [Add(CopyOutput), Spawn(CopyOutput)];
    assert StartPty() == a + b + c;
    CallsOfPair(WinCh);
    CallsOfTriple(Start, CopyInput);
    CallsOfPair(CopyOutput);
    CallsOfSplit(a, b);
    CallsOfSplit(a + b, c);
  }

  lemma {:induction false} CallsOfStartRegular()
    ensures CallsOf(StartRegular()) == [Stdout, Stderr, Stdin, Start]
  {
    var a, b, c := [Call(Stdout), Add(CopyStdout), Spawn(CopyStdout)],
                   [Call(Stderr), Add(CopyStderr), Spawn(CopyStderr)],
                   [Call(Stdin), Add(CopyStdin), Spawn(CopyStdin)];
    assert StartRegular() == a + b + c + [Call(Start)];
    CallsOfTriple(Stdout, CopyStdout);
    CallsOfTriple(Stderr, CopyStderr);
    CallsOfTriple(Stdin, CopyStdin);
    CallsOfOne(Start);
    CallsOfSplit(a, b);
    CallsOfSplit(a + b, c);
    CallsOfSplit(a + b + c, [Call(Start)]);
  }

  lemma CallsOfProgram(pty: bool)
    ensures CallsOf(Program(pty)) == ProcessCalls(pty)
  {
    CallsOfStartPty();
    CallsOfStartRegular();
    CallsOfWhole(if pty then StartPty() else StartRegular());
  }

  lemma {:induction false} CallsOfWhole(start: seq<Instr>)
    ensures CallsOf([Call(Init)] + start + [Add(CtxCancel), Spawn(CtxCancel), Call(Wait)])
         == [Init] + CallsOf(start) + [Wait]
  {
    CallsOfOne(Init);
    CallsOfOne(Wait);
    CallsOfSplit([Call(Init)], start);
    CallsOfSplit([Call(Init)] + start, [Add(CtxCancel), Spawn(CtxCancel), Call(Wait)]);
    CallsOfPair(CtxCancel);
    assert [Add(CtxCancel), Spawn(CtxCancel), Call(Wait)] == [Add(CtxCancel), Spawn(CtxCancel)] + [Call(Wait)];
    CallsOfSplit([Add(CtxCancel), Spawn(CtxCancel)], [Call(Wait)]);
  }

  /** What has been begun is a prefix of the whole. */
  lemma {:induction false} BegunIsPrefix(program: seq<Instr>, k: nat)
    requires k <= |program|
    ensures CallsOf(program[..k]) <= CallsOf(program)
  {
    CallsOfSplit(program[..k], program[k..]);
    assert program[..k] + program[k..] == program;
  }

  /** Leaving Cleanup aside, the calls so far are the first ones of Init, the streams, Start, Wait;
      Cleanup comes at most once, and nothing but Wait can come after it. No method is called twice. */
  ghost predicate ContractKept(calls: seq<CallName>, killer: Killer, all: seq<CallName>) {
    && (killer.NotSpawned? || killer.Spawned? ==> calls <= all)
    && (killer.InCleanup? || killer.Cleaned? ==>
          && killer.at < |calls| && calls[killer.at] == Cleanup
          && calls[..killer.at] + calls[killer.at + 1..] <= all
          && forall j :: killer.at < j < |calls| ==> calls[j] == Wait)
    && forall a, b :: 0 <= a < b < |calls| ==> calls[a] != calls[b]
  }

  lemma ContractNow(calls: seq<CallName>, killer: Killer, byRun: seq<CallName>, all: seq<CallName>)
    requires CallLog(byRun, calls, killer) && byRun <= all && Cleanup !in all
    requires forall a, b :: 0 <= a < b < |all| ==> all[a] != all[b]
    ensures ContractKept(calls, killer, all)
  {
    if killer.InCleanup? || killer.Cleaned? {
      var at, rest := killer.at, calls[..killer.at] + calls[killer.at + 1..];
      forall a, b | 0 <= a < b < |calls|
        ensures calls[a] != calls[b]
      {
        var a', b' := if a < at then a else a - 1, if b < at then b else b - 1;
        assert a != at ==> calls[a] == rest[a'];
        assert b != at ==> calls[b] == rest[b'];
      }
    }
  }

  lemma CallsOfThe(program: seq<Instr>, pty: bool)
    requires program == Program(pty)
    ensures CallsOf(program) == ProcessCalls(pty) && Cleanup !in ProcessCalls(pty)
    ensures forall a, b :: 0 <= a < b < |ProcessCalls(pty)| ==> ProcessCalls(pty)[a] != ProcessCalls(pty)[b]
  {
    CallsOfProgram(pty);
  }

  lemma ContractHere(s: State, all: seq<CallName>)
    requires Placed(s.program, s.runs) && CallsOf(s.program) == all && Cleanup !in all
    requires forall a, b :: 0 <= a < b < |all| ==> all[a] != all[b]
    requires CallLog(CallsOf(s.program[..Begun(s.runs.main)]), s.calls, s.finals.killer)
    ensures ContractKept(s.calls, s.finals.killer, all)
  {
    BegunIsPrefix(s.program, Begun(s.runs.main));
    ContractNow(s.calls, s.finals.killer, CallsByRun(s), all);
  }

  /** The contract of the Process interface, over all runs. */
  lemma ProcessContract(states: seq<State>, steps: seq<Step>, pty: bool, i: nat)
    requires IsRun(states, steps, pty) && i <= |steps|
    ensures ContractKept(states[i].calls, states[i].finals.killer, ProcessCalls(pty))
  {
    InvariantAlong(states, steps, pty, i);
    CallsOfThe(states[i].program, pty);
    ContractHere(states[i], ProcessCalls(pty));
  }

  /** The winner is inside a call made by start, or has yet to make one. */
  predicate InStart(s: State) {
    || s.runs.main.NotStarted?
    || (!InFinal(s.runs.main) && AtInstr(s.program, s.runs.main.k) && s.program[s.runs.main.k] != Call(Wait))
  }

  /** Cleanup neither overlaps nor precedes a call made by start. It may overlap Wait. */
  lemma CleanupAfterStart(states: seq<State>, steps: seq<Step>, pty: bool, i: nat)
    requires IsRun(states, steps, pty) && i <= |steps|
    ensures CleanupBegun(states[i].finals) ==> !InStart(states[i])
  {
    InvariantAlong(states, steps, pty, i);
    if CleanupBegun(states[i].finals) { OnlyWaitIsLeft(states[i]); }
  }

  // ----- the leak detector of the session

  /** Accounting over all runs of a session, with no panic reachable. */
  lemma SessionDetectorAccounts(states: seq<State>, steps: seq<Step>, pty: bool, i: nat)
    requires IsRun(states, steps, pty) && i <= |steps|
    ensures var det := states[i].det;
            && det.counter == |det.names| + Count(det.phases, Det.InAdd) - Count(det.phases, Det.InDone) >= 0
            && !det.panicked
  {
    InvariantAlong(states, steps, pty, i);
    Det.Accounting(states[i].det);
  }

  /** A session, seen through its detector, is a run of the detector by callers that keep to the
      rules: every step leaves the detector alone or is one allowed step of it. */
  lemma SessionRefinesDetector(states: seq<State>, steps: seq<Step>, pty: bool, i: nat)
    requires IsRun(states, steps, pty) && i < |steps|
    ensures states[0].det == Det.Fresh()
    ensures states[i + 1].det == states[i].det
            || exists d :: Det.Allowed(states[i].det, d) && Det.Ready(states[i].det, d)
                           && states[i + 1].det == Det.Apply(states[i].det, d)
  {
    InvariantAlong(states, steps, pty, i);
    if DetectorStep(states[i], steps[i]).Some? { KeepsDetectorRules(states[i], steps[i]); }
  }

  /** What leak_ok says: everything registered before Finish had begun its Done; and if start
      succeeded, every copier has returned, has closed its pipe if it has one, and the context was
      cancelled. */
  ghost predicate NothingLeaked(det: Det.State<Name>, r: Runs, gos: map<Name, Go>, closed: set<Name>,
                                ctxDone: bool, pty: bool)
    requires det.check.Verdict?
  {
    && (forall n :: n in det.check.before ==> n in det.phases && Det.DoneBegun(det.phases[n]))
    && (r.startErr.None? ==>
          ctxDone && forall n :: n in Copiers(pty) ==> n in gos && PastBody(gos[n]) && (!pty ==> n in closed))
  }

  lemma LeakVerdictSound(states: seq<State>, steps: seq<Step>, pty: bool, i: nat)
    requires IsRun(states, steps, pty) && i <= |steps|
    requires states[i].det.check.Verdict? && states[i].det.check.ok
    ensures var s := states[i]; NothingLeaked(s.det, s.runs, s.gos, s.closed, s.ctxDone, pty)
  {
    InvariantAlong(states, steps, pty, i);
    var s := states[i];
    AllSpawned(pty);
    if s.runs.startErr.None? { WholeProgramRun(s); }
    SoundHere(s.program, s.runs, s.gos, s.closed, s.ctxDone, s.det, pty);
  }

  /** After Finish, unless start failed, the winner is at its last instruction. */
  lemma WholeProgramRun(s: State)
    requires Invariant(s) && !s.det.check.NotFinished? && s.runs.startErr.None?
    ensures !s.runs.main.NotStarted? && s.runs.main.k == |s.program| - 1
  {
    OnlyWaitIsLeft(s);
    assert GoodAt(s.program, s.runs.main.k);
  }

  lemma SoundHere(program: seq<Instr>, r: Runs, gos: map<Name, Go>, closed: set<Name>, ctxDone: bool,
                  det: Det.State<Name>, pty: bool)
    requires det.check.Verdict? && det.check.ok && Det.VerdictSound(det) && NamesComplete(det)
    requires Placed(program, r) && Registered(program, r.main, gos.Keys, det.phases.Keys)
    requires Tracked(program, r.main, gos, det.phases) && Bodies(gos, closed, ctxDone)
    requires r.startErr.None? ==> !r.main.NotStarted? && r.main.k == |program| - 1
    requires |program| > 0
    requires forall n :: n in Copiers(pty) || n == CtxCancel ==> Spawn(n) in program[..|program| - 1]
    ensures NothingLeaked(det, r, gos, closed, ctxDone, pty)
  {
    if r.startErr.None? {
      forall n | n in Copiers(pty) || n == CtxCancel
        ensures n in gos && PastBody(gos[n])
      {
        assert n in gos && n in det.check.before;
        assert Fits(gos[n], det.phases[n]);
      }
    }
  }

  lemma AllSpawned(pty: bool)
    ensures |Program(pty)| > 0
    ensures forall n :: n in Copiers(pty) || n == CtxCancel ==> Spawn(n) in Program(pty)[..|Program(pty)| - 1]
  {
    var p := Program(pty)[..|Program(pty)| - 1];
    if pty {
      assert p[5] == Spawn(CopyInput) && p[7] == Spawn(CopyOutput) && p[9] == Spawn(CtxCancel);
    } else {
      assert p[3] == Spawn(CopyStdout) && p[6] == Spawn(CopyStderr);
      assert p[9] == Spawn(CopyStdin) && p[12] == Spawn(CtxCancel);
    }
  }
}
