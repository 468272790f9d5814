/** A session beside the global statistics: its Finish has to take the read lock of their work group,
    which a Get or Reset of anybody may hold. What that does to the Exit of the session. */
module SessionStatistics {
  import opened Options
  import opened Counting
  import Det = LeakDetector
  import S = Session
  import T = SessionTheorems
  import L = LeakStatistics

  datatype State = State(session: S.State, stats: L.State)

  /** `t` is the goroutine as which a call of Finish goes on. */
  datatype Step = OfSession(step: S.Step, t: L.Goroutine) | OfStatistics(stat: L.Step)

  /** The session calls Finish of its detector. */
  predicate CallsFinish(s: S.State, step: S.Step)
    requires S.Enabled(s, step)
  {
    S.DetectorStep(s, step) == Some(Det.Finish)
  }

  predicate Enabled(s: State, step: Step) {
    match step
    case OfSession(step, t) =>
      S.Enabled(s.session, step) && !step.LockStatistics? && !step.UnlockStatistics?
      && (CallsFinish(s.session, step) ==> t !in s.stats.pcs)
    case OfStatistics(step) => L.Enabled(s.stats, step)
  }

  /** The session waits for the lock exactly while a writer has it or has announced itself. */
  predicate Linked(s: State) { s.session.locked <==> s.stats.group.writer.Some? }

  /** Add of the work group: the read lock is taken, the worker counted, and the lock given back. */
  function Registered(stats: L.State, t: L.Goroutine): L.State
    requires t !in stats.pcs && stats.group.writer.None?
  {
    var called := L.Apply(stats, L.Call(t, L.Finish));
    var inside := L.Apply(called, L.Advance(t, true));
    var counted := L.Apply(inside, L.Advance(t, true));
    L.Apply(counted, L.Advance(t, true))
  }

  lemma FinishNeedsTheLock(s: S.State, step: S.Step)
    requires S.Enabled(s, step) && CallsFinish(s, step)
    ensures !s.locked
  {
  }

  function NextStats(s: State, step: Step): L.State
    requires Linked(s) && Enabled(s, step)
  {
    match step
    case OfSession(step, t) =>
      if CallsFinish(s.session, step) then FinishNeedsTheLock(s.session, step); Registered(s.stats, t) else s.stats
    case OfStatistics(step) => L.Apply(s.stats, step)
  }

  function NextSession(s: State, step: Step): S.State
    requires Linked(s) && Enabled(s, step)
  {
    match step
    case OfSession(step, _) => S.Apply(s.session, step)
    case OfStatistics(step) =>
      var writer := L.Apply(s.stats, step).group.writer;
      if writer.Some? && !s.session.locked then S.Apply(s.session, S.LockStatistics)
      else if writer.None? && s.session.locked then S.Apply(s.session, S.UnlockStatistics)
      else s.session
  }

  function Apply(s: State, step: Step): State
    requires Linked(s) && Enabled(s, step)
  {
    State(NextSession(s, step), NextStats(s, step))
  }

  function Initial(pty: bool): State { State(S.Initial(pty), L.Initial) }

  ghost predicate Invariant(s: State) { S.Invariant(s.session) && L.Invariant(s.stats) && Linked(s) }

  lemma RegisteredKeeps(stats: L.State, t: L.Goroutine)
    requires L.Invariant(stats) && t !in stats.pcs && stats.group.writer.None?
    ensures L.Invariant(Registered(stats, t)) && Registered(stats, t).group.writer.None?
  {
    var called := L.Apply(stats, L.Call(t, L.Finish));
    var inside := L.Apply(called, L.Advance(t, true));
    var counted := L.Apply(inside, L.Advance(t, true));
    L.InvariantPreserved(stats, L.Call(t, L.Finish));
    L.InvariantPreserved(called, L.Advance(t, true));
    L.InvariantPreserved(inside, L.Advance(t, true));
    L.InvariantPreserved(counted, L.Advance(t, true));
  }

  lemma StatsPreserved(s: State, step: Step)
    requires L.Invariant(s.stats) && Linked(s) && Enabled(s, step)
    ensures L.Invariant(NextStats(s, step))
  {
    match step
    case OfSession(step, t) =>
      if CallsFinish(s.session, step) {
        FinishNeedsTheLock(s.session, step);
        RegisteredKeeps(s.stats, t);
      }
    case OfStatistics(step) => L.InvariantPreserved(s.stats, step);
  }

  lemma SessionPreserved(s: State, step: Step)
    requires S.Invariant(s.session) && Linked(s) && Enabled(s, step)
    ensures S.Invariant(NextSession(s, step))
  {
    match step
    case OfSession(step, _) => S.InvariantPreserved(s.session, step);
    case OfStatistics(step) =>
      if !s.session.locked {
        S.InvariantPreserved(s.session, S.LockStatistics);
      } else {
        S.InvariantPreserved(s.session, S.UnlockStatistics);
      }
  }

  lemma LockKept(s: S.State, step: S.Step)
    requires S.Enabled(s, step) && !step.LockStatistics? && !step.UnlockStatistics?
    ensures S.Apply(s, step).locked == s.locked
  {
  }

  lemma LinkedPreserved(s: State, step: Step)
    requires L.Invariant(s.stats) && Linked(s) && Enabled(s, step)
    ensures Linked(Apply(s, step))
  {
    if step.OfSession? {
      LockKept(s.session, step.step);
      if CallsFinish(s.session, step.step) {
        FinishNeedsTheLock(s.session, step.step);
        RegisteredKeeps(s.stats, step.t);
      }
    }
  }

  lemma InvariantPreserved(s: State, step: Step)
    requires Invariant(s) && Enabled(s, step)
    ensures Invariant(Apply(s, step))
  {
    SessionPreserved(s, step);
    StatsPreserved(s, step);
    LinkedPreserved(s, step);
  }

  // ----- how far the session is from its Exit

  function Stage(s: S.State): S.Stage { S.Progress(s.runs.main, s.gos, s.finals) }

  /** The steps of the winner of `finished` up to Exit, and what the holder of the lock and its workers
      have still to do. */
  ghost function Distance(s: State): nat {
    T.StepsToExit(Stage(s.session)) + (if s.session.locked then L.LockWork(s.stats) else 0)
  }

  predicate Helps(s: State, step: Step) {
    && T.BeforeExit(s.session)
    && match step
       case OfSession(step, _) => step == T.WinnerStep(s.session)
       case OfStatistics(step) => s.session.locked && L.Helps(s.stats, step)
  }

  /** A Get or Reset announces itself. */
  predicate Announces(s: State, step: Step) {
    Linked(s) && Enabled(s, step) && !s.session.locked && NextStats(s, step).group.writer.Some?
  }

  /** Of the steps of a session only those of the winner move its finalization on. */
  lemma StageAfter(s: S.State, step: S.Step)
    requires S.OneFinalizer(s.runs.main, s.gos, s.finals) && S.Placed(s.program, s.runs) && S.GoodProgram(s.program)
    requires S.Registered(s.program, s.runs.main, s.gos.Keys, s.det.phases.Keys)
    requires S.Enabled(s, step) && T.BeforeExit(s)
    ensures T.StepsToExit(Stage(S.Apply(s, step)))
         == T.StepsToExit(Stage(s)) - (if step == T.WinnerStep(s) then 1 else 0)
  {
    if step == T.WinnerStep(s) {
      T.PendingExitComes(s);
    } else if step.RunnerFinalizes? {
      S.RunnerProgresses(s);
    } else if step.WatcherFinalizes? {
      S.WatcherProgresses(s);
    } else {
      S.NewGoIsNew(s, step);
      S.ProgressKept(s, step);
    }
  }

  lemma WorkOfHolder(s: State, step: L.Step)
    requires L.Invariant(s.stats) && Linked(s) && L.Enabled(s.stats, step) && s.session.locked
    ensures var s' := Apply(s, OfStatistics(step));
            && Stage(s'.session) == Stage(s.session)
            && (if s'.session.locked then L.LockWork(s'.stats) else 0)
               == L.LockWork(s.stats) - (if L.Helps(s.stats, step) then 1 else 0)
  {
    L.LockWorkFalls(s.stats, step);
  }

  lemma WorkOfNewcomer(s: State, step: L.Step)
    requires Linked(s) && L.Enabled(s.stats, step) && !s.session.locked
    ensures var s' := Apply(s, OfStatistics(step));
            && Stage(s'.session) == Stage(s.session)
            && (s'.session.locked <==> Announces(s, OfStatistics(step)))
  {
  }

  /** Every step of the winner, of the holder of the lock or of a worker brings the Exit one step closer;
      no other step puts it off, but for the announcement of a further Get or Reset, which adds its own
      work. */
  lemma DistanceAfter(s: State, step: Step)
    requires Invariant(s) && Enabled(s, step) && T.BeforeExit(s.session)
    ensures Distance(Apply(s, step))
         == Distance(s) - (if Helps(s, step) then 1 else 0)
            + (if Announces(s, step) then L.LockWork(Apply(s, step).stats) else 0)
  {
    match step
    case OfSession(ss, t) =>
      StageAfter(s.session, ss);
      LockKept(s.session, ss);
      if CallsFinish(s.session, ss) {
        FinishNeedsTheLock(s.session, ss);
        RegisteredKeeps(s.stats, t);
      }
    case OfStatistics(ls) => if s.session.locked { WorkOfHolder(s, ls); } else { WorkOfNewcomer(s, ls); }
  }

  /** And as long as Exit has not been called, one of those steps can be taken: no deadlock keeps a
      session from its Exit. */
  lemma SomebodyHelps(s: State) returns (step: Step)
    requires Invariant(s) && T.BeforeExit(s.session)
    ensures Enabled(s, step) && Helps(s, step)
  {
    T.PendingExitComes(s.session);
    if s.session.locked {
      var u := L.SomebodyHelps(s.stats);
      step := OfStatistics(L.Advance(u, true));
    } else {
      var t := FreshNumber(s.stats.pcs.Keys);
      step := OfSession(T.WinnerStep(s.session), t);
    }
  }

  // ----- runs

  ghost predicate IsRun(states: seq<State>, steps: seq<Step>, pty: bool) {
    && |states| == |steps| + 1
    && states[0] == Initial(pty)
    && forall i :: 0 <= i < |steps| ==> Goes(states, steps, i)
  }

  ghost predicate Goes(states: seq<State>, steps: seq<Step>, i: nat)
    requires i < |steps| && |states| == |steps| + 1
  {
    Enabled(states[i], steps[i]) && (Linked(states[i]) ==> states[i + 1] == Apply(states[i], steps[i]))
  }

  lemma InitialInvariant(pty: bool)
    ensures Invariant(Initial(pty))
  {
    S.InitialInvariant(pty);
    L.InitialInvariant();
  }

  lemma {:induction false} InvariantNext(states: seq<State>, steps: seq<Step>, pty: bool, i: nat)
    requires IsRun(states, steps, pty) && 0 < i <= |steps|
    ensures Invariant(states[i])
    decreases i, 0
  {
    InvariantAlong(states, steps, pty, i - 1);
    assert Goes(states, steps, i - 1);
    assert states[i] == Apply(states[i - 1], steps[i - 1]);
    InvariantPreserved(states[i - 1], steps[i - 1]);
  }

  lemma {:induction false} InvariantAlong(states: seq<State>, steps: seq<Step>, pty: bool, i: nat)
    requires IsRun(states, steps, pty) && i <= |steps|
    ensures Invariant(states[i])
    decreases i, 1
  {
    if i == 0 {
      InitialInvariant(pty);
    } else {
      InvariantNext(states, steps, pty, i);
    }
  }

  /** The steps that help, and the work that announcements have added. */
  ghost function Helped(states: seq<State>, steps: seq<Step>, i: nat, j: nat): nat
    requires i <= j <= |steps| && |states| == |steps| + 1
  {
    if i == j then 0
    else Helped(states, steps, i, j - 1) + (if Helps(states[j - 1], steps[j - 1]) then 1 else 0)
  }

  ghost function Added(states: seq<State>, steps: seq<Step>, i: nat, j: nat): nat
    requires i <= j <= |steps| && |states| == |steps| + 1
  {
    if i == j then 0
    else
      Added(states, steps, i, j - 1)
      + (if Announces(states[j - 1], steps[j - 1]) then L.LockWork(states[j].stats) else 0)
  }

  /** Over every run, from the moment somebody has won `finished`: as long as Exit has not been called,
      the steps that help are as many as the distance has fallen by, plus what further announcements have
      added. Without those Exit is called after Distance(states[i]) of them. */
  lemma {:induction false} ExitIsReached(states: seq<State>, steps: seq<Step>, pty: bool, i: nat, j: nat)
    requires IsRun(states, steps, pty) && i <= j <= |steps|
    requires forall k :: i <= k < j ==> T.BeforeExit(states[k].session)
    ensures Helped(states, steps, i, j) + Distance(states[j]) == Distance(states[i]) + Added(states, steps, i, j)
  {
    if i == j {
      assert Helped(states, steps, i, j) == 0 && Added(states, steps, i, j) == 0;
    } else {
      ExitIsReached(states, steps, pty, i, j - 1);
      DistanceAlong(states, steps, pty, i, j - 1);
      Balanced(Helped(states, steps, i, j - 1), Distance(states[j - 1]), Added(states, steps, i, j - 1),
               Distance(states[i]), Helped(states, steps, i, j), Distance(states[j]), Added(states, steps, i, j));
    }
  }

  lemma Balanced(h: nat, d: nat, a: nat, d0: nat, h': nat, d': nat, a': nat)
    requires h + d == d0 + a && h' + d' - a' == h + d - a
    ensures h' + d' == d0 + a'
  {
  }

  lemma {:induction false} DistanceAlong(states: seq<State>, steps: seq<Step>, pty: bool, i: nat, k: nat)
    requires IsRun(states, steps, pty) && i <= k < |steps| && T.BeforeExit(states[k].session)
    ensures Helped(states, steps, i, k + 1) + Distance(states[k + 1]) - Added(states, steps, i, k + 1)
         == Helped(states, steps, i, k) + Distance(states[k]) - Added(states, steps, i, k)
  {
    InvariantAlong(states, steps, pty, k);
    assert Goes(states, steps, k);
    DistanceAfter(states[k], steps[k]);
  }
}
