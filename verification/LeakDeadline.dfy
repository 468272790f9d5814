/** The goroutines that a session registers and the detector of logging/detector.go on one clock. The
    copiers run a Copy of internal/asyncio/copy.go each: they are registered before it begins, and its last
    step begins their Done. All others, the watcher of the context, the one that passes window sizes on and
    those of the process, call Done when they like. */
module LeakDeadline {
  import A = AsyncCopy
  import P = AsyncCopyProofs
  import Det = LeakDetector
  import opened Counting

  const Timeout := P.MemoryLeakTimeout

  /** `others` never changes: the names that belong to no Copy. `finishAt` is the time at which Finish was
      called, once it has been; `doneAt` is the history of the others' calls of Done. */
  datatype State = State(
    io: A.State,
    det: Det.State<A.Id>,
    finishAt: A.Time,
    others: set<A.Id>,
    doneAt: map<A.Id, A.Time>)

  /** The first step of a copier's Done belongs to its Copy; all other steps of the detector are taken here. */
  datatype Step = Io(step: A.Step) | Detect(d: Det.Step<A.Id>)

  /** The goroutines of the detector have nothing to do. */
  predicate Idle(det: Det.State<A.Id>) {
    det.check.Selecting? ==> det.check.waiter.Blocked? && det.counter != 0
  }

  /** Names are stored, and their copiers have begun: none of that takes time. */
  predicate AllBegun(s: State) {
    forall c :: c in s.det.phases ==> s.det.phases[c] != Det.Counted && (c in s.io.copies || c in s.others)
  }

  /** Time does not run past the detector's timer either. */
  predicate CanPass(s: State, d: A.Time) {
    Idle(s.det) && AllBegun(s) && (s.det.check.Selecting? ==> s.io.now + d <= s.finishAt + Timeout)
  }

  predicate Enabled(s: State, step: Step) {
    match step
    case Io(io) =>
      A.Enabled(s.io, io) &&
      (match io
       case Begin(c, _, timeout) => Det.In(s.det, c, Det.Stored) && c !in s.others && timeout == P.CopyTimeout
       case Pass(d) => CanPass(s, d)
       case _ => true)
    case Detect(d) =>
      Det.Allowed(s.det, d) && Det.Ready(s.det, d) && (d.DoneCount? ==> d.name in s.others) &&
      (d.SelectTimeout? ==> s.io.now >= s.finishAt + Timeout)
  }

  function NextDet(s: State, step: Step): Det.State<A.Id>
    requires Enabled(s, step)
  {
    match step
    case Io(io) => if io.CallsDone? then Det.Apply(s.det, Det.DoneCount(io.c)) else s.det
    case Detect(d) => Det.Apply(s.det, d)
  }

  function Apply(s: State, step: Step): State
    requires Enabled(s, step) && A.HeapFits(s.io)
  {
    State(if step.Io? then A.Apply(s.io, step.step) else s.io, NextDet(s, step),
          if step.Detect? && step.d.Finish? then s.io.now else s.finishAt, s.others, NextDoneAt(s, step))
  }

  function NextDoneAt(s: State, step: Step): map<A.Id, A.Time> {
    if step.Detect? && step.d.DoneCount? then s.doneAt[step.d.name := s.io.now] else s.doneAt
  }

  function Initial(policy: A.Policy, now: A.Time, others: set<A.Id>): State {
    State(A.Initial(policy, now), Det.Fresh(), now, others, map[])
  }

  // ----- what holds in every reachable state

  /** A Copy and its name go together. */
  ghost predicate Linked(copies: map<A.Id, A.Copy>, phases: map<A.Id, Det.Phase>, others: set<A.Id>,
                         doneAt: map<A.Id, A.Time>)
  {
    && (forall c :: c in copies ==>
          c in phases && phases[c] != Det.Counted && c !in others && copies[c].wait.timeout == P.CopyTimeout)
    && (forall c :: c in phases ==> (Det.DoneBegun(phases[c]) <==> (c in copies && copies[c].done) || c in doneAt))
    && doneAt.Keys <= others && doneAt.Keys <= phases.Keys
  }

  ghost predicate LinkedIn(s: State) { Linked(s.io.copies, s.det.phases, s.others, s.doneAt) }

  /** A copier that was registered at Finish and whose context was cancelled within the first half of the
      timeout; or one of the others whose Done came before the timeout was over. */
  predicate InGoodTime(s: State, c: A.Id)
    requires !s.det.check.NotFinished?
  {
    if c in s.others then c in s.doneAt && s.doneAt[c] < s.finishAt + Timeout
    else
      && c in s.det.check.before && c in s.io.copies
      && s.io.copies[c].context in s.io.cancelAt
      && s.io.cancelAt[s.io.copies[c].context] < s.finishAt + P.CopyTimeout
  }

  /** Some registered name was not. */
  ghost predicate SomeLate(s: State)
    requires !s.det.check.NotFinished?
  {
    exists c :: c in s.det.phases && !InGoodTime(s, c)
  }

  /** The copiers that were registered at Finish have begun by then. */
  ghost predicate BegunAtFinish(s: State)
    requires !s.det.check.NotFinished?
  {
    && s.finishAt <= s.io.now
    && (forall c :: c in s.det.check.before && c in s.io.copies ==> s.io.copies[c].start <= s.finishAt)
    && (s.io.now > s.finishAt ==> forall c :: c in s.det.check.before ==> c in s.io.copies || c in s.others)
  }

  ghost predicate OnTime(s: State) {
    match s.det.check
    case NotFinished => true
    case Selecting(_, _) =>
      BegunAtFinish(s) && s.io.now <= s.finishAt + Timeout && (s.io.now == s.finishAt + Timeout ==> SomeLate(s))
    case Verdict(_, ok) =>
      BegunAtFinish(s) && (!ok ==> s.io.now >= s.finishAt + Timeout && SomeLate(s))
  }

  ghost predicate Invariant(s: State) {
    P.Invariant(s.io) && Det.Invariant(s.det) && LinkedIn(s) && OnTime(s)
  }

  lemma DetInvariantPreserved(s: State, step: Step)
    requires Det.Invariant(s.det) && LinkedIn(s) && Enabled(s, step)
    ensures Det.Invariant(NextDet(s, step))
  {
    match step
    case Io(io) =>
      if io.CallsDone? {
        assert !Det.DoneBegun(s.det.phases[io.c]);
        Det.InvariantPreserved(s.det, Det.DoneCount(io.c));
      }
    case Detect(d) => Det.InvariantPreserved(s.det, d);
  }

  /** What the detector can tell about a Copy. */
  predicate SameCopy(cp: A.Copy, cp': A.Copy) {
    cp'.wait.timeout == cp.wait.timeout && cp'.context == cp.context && cp'.start == cp.start
  }

  lemma MoveKeepsCopy(s: A.State, step: A.Step)
    requires A.HeapFits(s) && A.Enabled(s, step) && A.Moves(step)
    ensures SameCopy(s.copies[step.c], A.NextCopy(s, step))
    ensures A.NextCopy(s, step).done <==> s.copies[step.c].done || step.CallsDone?
  {
  }

  /** A step of the Copy calls, as far as the detector is concerned. */
  lemma CopyAfter(s: A.State, step: A.Step, c: A.Id)
    requires A.HeapFits(s) && A.Enabled(s, step) && c in A.NextCopies(s, step)
    ensures var copies := A.NextCopies(s, step);
            && (c !in s.copies ==> step.Begin? && step.c == c)
            && (c in s.copies ==> SameCopy(s.copies[c], copies[c])
                                  && (copies[c].done <==> s.copies[c].done || (step.CallsDone? && step.c == c)))
            && (step.Begin? && step.c == c ==> copies[c] == A.NewCopy(step.context, s.now, step.timeout))
  {
    if A.Moves(step) { MoveKeepsCopy(s, step); }
  }

  lemma CopiesGrow(s: A.State, step: A.Step)
    requires A.HeapFits(s) && A.Enabled(s, step)
    ensures s.copies.Keys <= A.NextCopies(s, step).Keys
  {
  }

  lemma LinkedPreserved(s: State, step: Step)
    requires A.HeapFits(s.io) && LinkedIn(s) && Enabled(s, step)
    ensures LinkedIn(Apply(s, step))
  {
    match step
    case Io(io) => LinkedAfterIo(s, io);
    case Detect(d) => LinkedAfterDetect(s, d);
  }

  lemma LinkedAfterIo(s: State, io: A.Step)
    requires A.HeapFits(s.io) && LinkedIn(s) && Enabled(s, Io(io))
    ensures Linked(A.NextCopies(s.io, io), NextDet(s, Io(io)).phases, s.others, s.doneAt)
  {
    var copies, phases := A.NextCopies(s.io, io), NextDet(s, Io(io)).phases;
    CopiesGrow(s.io, io);
    forall c | c in copies
      ensures c in phases && phases[c] != Det.Counted && c !in s.others && copies[c].wait.timeout == P.CopyTimeout
    {
      CopyAfter(s.io, io, c);
    }
    forall c | c in phases
      ensures Det.DoneBegun(phases[c]) <==> (c in copies && copies[c].done) || c in s.doneAt
    {
      if c in copies { CopyAfter(s.io, io, c); }
    }
  }

  lemma LinkedAfterDetect(s: State, d: Det.Step<A.Id>)
    requires LinkedIn(s) && Enabled(s, Detect(d))
    ensures Linked(s.io.copies, Det.Apply(s.det, d).phases, s.others, NextDoneAt(s, Detect(d)))
  {
  }

  /** Whoever is late stays late, once the time is over. */
  lemma LateStays(s: State, step: Step)
    requires A.HeapFits(s.io) && Enabled(s, step) && !s.det.check.NotFinished?
    requires BegunAtFinish(s) && s.io.now >= s.finishAt + Timeout && SomeLate(s)
    ensures !Apply(s, step).det.check.NotFinished? && SomeLate(Apply(s, step))
  {
    var s' := Apply(s, step);
    var c :| c in s.det.phases && !InGoodTime(s, c);
    if c in s'.io.copies && step.Io? { CopyAfter(s.io, step.step, c); }
    assert s'.det.check.before == s.det.check.before && s'.finishAt == s.finishAt;
    assert c in s'.det.phases && !InGoodTime(s', c);
  }

  /** If the clock gets as far as the deadline, then because of a copier that is late: one that is
      in good time would have been done before. */
  lemma PassToDeadline(s: State, d: A.Time)
    requires Invariant(s) && s.det.check.Selecting? && Enabled(s, Io(A.Pass(d)))
    requires s.io.now + d == s.finishAt + Timeout
    ensures SomeLate(Apply(s, Io(A.Pass(d))))
  {
    var s' := Apply(s, Io(A.Pass(d)));
    var c := WitnessOfCount(s.det.phases, Det.IsCounted);
    assert c in s.io.copies ==> !s.io.copies[c].done;
    P.TimelyPreserved(s.io, A.Pass(d));
    assert c in s'.det.phases && !InGoodTime(s', c);
  }

  lemma BegunAtFinishPreserved(s: State, step: Step)
    requires A.HeapFits(s.io) && Enabled(s, step) && !s.det.check.NotFinished? && BegunAtFinish(s)
    requires s.det.check.before <= s.det.phases.Keys
    ensures !Apply(s, step).det.check.NotFinished? && BegunAtFinish(Apply(s, step))
  {
    var s' := Apply(s, step);
    if step.Io? {
      CopiesGrow(s.io, step.step);
      forall c | c in s'.det.check.before && c in s'.io.copies
        ensures s'.io.copies[c].start <= s'.finishAt
      {
        CopyAfter(s.io, step.step, c);
      }
    }
  }

  lemma FinishBegins(s: State)
    requires Invariant(s) && Enabled(s, Detect(Det.Finish))
    ensures OnTime(Apply(s, Detect(Det.Finish)))
  {
  }

  /** The clock reaches the deadline, while nobody has given a verdict. */
  predicate ReachesDeadline(s: State, step: Step) {
    && step.Io? && step.step.Pass? && s.det.check.Selecting?
    && s.io.now + step.step.d == s.finishAt + Timeout
  }

  ghost predicate Overdue(s: State) {
    !s.det.check.NotFinished? && s.io.now >= s.finishAt + Timeout && SomeLate(s)
  }

  lemma OnTimePreserved(s: State, step: Step)
    requires Invariant(s) && Enabled(s, step)
    ensures OnTime(Apply(s, step))
  {
    if s.det.check.NotFinished? {
      if step == Detect(Det.Finish) { FinishBegins(s); }
    } else {
      BegunAtFinishPreserved(s, step);
      if Overdue(s) {
        LateStays(s, step);
      } else if ReachesDeadline(s, step) {
        PassToDeadline(s, step.step.d);
      }
      OnTimeAfter(s, step);
    }
  }

  lemma OnTimeAfter(s: State, step: Step)
    requires A.HeapFits(s.io) && OnTime(s) && Enabled(s, step)
    requires !s.det.check.NotFinished? && !Apply(s, step).det.check.NotFinished? && BegunAtFinish(Apply(s, step))
    requires Overdue(s) || ReachesDeadline(s, step) ==> SomeLate(Apply(s, step))
    ensures OnTime(Apply(s, step))
  {
  }

  lemma InvariantPreserved(s: State, step: Step)
    requires Invariant(s) && Enabled(s, step)
    ensures Invariant(Apply(s, step))
  {
    if step.Io? { P.InvariantPreserved(s.io, step.step); }
    DetInvariantPreserved(s, step);
    LinkedPreserved(s, step);
    OnTimePreserved(s, step);
  }

  // ----- runs

  ghost predicate IsRun(states: seq<State>, steps: seq<Step>, policy: A.Policy) {
    && |states| == |steps| + 1
    && states[0] == Initial(policy, states[0].io.now, states[0].others)
    && forall i {:trigger steps[i]} :: 0 <= i < |steps| ==>
         Enabled(states[i], steps[i]) && (A.HeapFits(states[i].io) ==> states[i + 1] == Apply(states[i], steps[i]))
  }

  lemma InvariantNext(states: seq<State>, steps: seq<Step>, policy: A.Policy, i: nat)
    requires IsRun(states, steps, policy) && i < |steps| && Invariant(states[i])
    ensures Invariant(states[i + 1])
  {
    InvariantPreserved(states[i], steps[i]);
  }

  lemma {:induction false} InvariantAlong(states: seq<State>, steps: seq<Step>, policy: A.Policy, i: nat)
    requires IsRun(states, steps, policy) && i <= |steps|
    ensures Invariant(states[i])
  {
    if i == 0 {
      Det.FreshInvariant<A.Id>();
    } else {
      InvariantAlong(states, steps, policy, i - 1);
      InvariantNext(states, steps, policy, i - 1);
    }
  }

  /** In every run: if the detector reports leak_fail, or only could do so, some registered name was not
      in good time. */
  lemma LeakFailExplained(states: seq<State>, steps: seq<Step>, policy: A.Policy, i: nat)
    requires IsRun(states, steps, policy) && i <= |steps|
    requires Enabled(states[i], Detect(Det.SelectTimeout)) || (states[i].det.check.Verdict? && !states[i].det.check.ok)
    ensures SomeLate(states[i])
  {
    InvariantAlong(states, steps, policy, i);
  }

  /** So a session is bound to get leak_ok if all its copiers were registered at Finish and its context was
      cancelled in the first half of the timeout, and everybody else called Done before it was over. */
  lemma BoundToBeOk(states: seq<State>, steps: seq<Step>, policy: A.Policy, i: nat)
    requires IsRun(states, steps, policy) && i <= |steps| && !states[i].det.check.NotFinished?
    requires forall c :: c in states[i].det.phases ==> InGoodTime(states[i], c)
    ensures states[i].det.check.Verdict? ==> states[i].det.check.ok
    ensures !Enabled(states[i], Detect(Det.SelectTimeout))
  {
    if (states[i].det.check.Verdict? && !states[i].det.check.ok) || Enabled(states[i], Detect(Det.SelectTimeout)) {
      LeakFailExplained(states, steps, policy, i);
    }
  }

  /** And if it gets leak_ok, every copier registered at Finish is through with its Copy, and everybody else
      has called Done. */
  lemma LeakOkMeansDone(states: seq<State>, steps: seq<Step>, policy: A.Policy, i: nat)
    requires IsRun(states, steps, policy) && i <= |steps|
    requires states[i].det.check.Verdict? && states[i].det.check.ok
    ensures forall c :: c in states[i].det.check.before ==>
              if c in states[i].others then c in states[i].doneAt
              else c in states[i].io.copies && states[i].io.copies[c].pc.Over? && states[i].io.copies[c].done
  {
    InvariantAlong(states, steps, policy, i);
  }

  /** Neither read nor write has to make progress for this step. */
  predicate OwnStep(step: Step) {
    match step
    case Io(io) => P.OwnStep(io) || io.Begin?
    case Detect(d) => !d.AddCount? && !d.Finish? && !d.DoneCount?
  }

  /** The clock can go on, or somebody can move by himself. */
  lemma ClockNotStuck(states: seq<State>, steps: seq<Step>, policy: A.Policy, i: nat) returns (step: Step)
    requires IsRun(states, steps, policy) && i <= |steps|
    ensures Enabled(states[i], step) && (OwnStep(step) || step == Io(A.Pass(1)))
  {
    InvariantAlong(states, steps, policy, i);
    step := SomebodyMoves(states[i]);
  }

  lemma SomebodyMoves(s: State) returns (step: Step)
    requires LinkedIn(s)
    ensures Enabled(s, step) && (OwnStep(step) || step == Io(A.Pass(1)))
  {
    if c :| c in s.det.phases && s.det.phases[c] == Det.Counted {
      step := Detect(Det.AddStore(c));
    } else if c :| c in s.det.phases && c !in s.io.copies && c !in s.others {
      step := Io(A.Begin(c, 0, P.CopyTimeout));
    } else if !Idle(s.det) {
      step := Detect(if s.det.check.waiter.Closed? then Det.SelectWaiter
                     else if s.det.check.waiter.Passed? then Det.WaiterCloses
                     else Det.WaiterPasses);
    } else if s.det.check.Selecting? && s.io.now >= s.finishAt + Timeout {
      step := Detect(Det.SelectTimeout);
    } else {
      var io := P.ClockNotStuck(s.io);
      step := Io(io);
    }
  }
}
