/** internal/term/pair.go: any number of goroutines call RestoreMode and Close on one pair at the
    same time, after its RawMode has returned. Each end is handled under its own lock; one step
    is one operation of one goroutine. */
module TerminalInterleaving {
  import opened Options
  import opened TerminalPair

  datatype Operation = Restoring | Closing

  datatype Pc =
    | LockTty(op: Operation)
    | CheckTty(op: Operation)
    | WipeTty(op: Operation)
    | UnlockTty(op: Operation)
    | LockPty(op: Operation)
    | CheckPty(op: Operation)
    | WipePty(op: Operation)
    | UnlockPty(op: Operation)
    | CloseTty
    | ClosePty
    | Returned

  datatype Which = Pty | Tty

  /** `ops` is the history of calls, `restores` that of modes put back by the operating system; `onClosed`
      remembers whether that was ever asked of a closed descriptor. */
  datatype State = State(
    ends: Ends,
    ttyLock: Option<Goroutine>,
    ptyLock: Option<Goroutine>,
    ttyClosed: bool,
    ptyClosed: bool,
    pcs: map<Goroutine, Pc>,
    ops: map<Goroutine, Operation>,
    restores: seq<Which>,
    onClosed: bool)

  /** The pair after RawMode, nobody else using it yet. */
  function Initial(original: Ends, raw: Mode -> Mode): State
    requires Valid(original)
  {
    State(Raised(original, raw), None, None, false, false, map[], map[], [], false)
  }

  datatype Step = Begin(t: Goroutine, op: Operation) | Advance(t: Goroutine)

  predicate Enabled(s: State, step: Step) {
    match step
    case Begin(t, _) => t !in s.pcs
    case Advance(t) =>
      t in s.pcs &&
      match s.pcs[t]
      case LockTty(_) => s.ttyLock.None?
      case LockPty(_) => s.ptyLock.None?
      case Returned => false
      case _ => true
  }

  /** RestoreTerminal puts the saved mode back; the saved state is wiped by a later step. */
  function PutBack(e: Ends, t: End): Ends
    requires t.saved.Some?
  {
    e.(modes := e.modes[t.device := t.saved.value])
  }

  /** Where a goroutine goes from here. */
  function NextPc(e: Ends, pc: Pc): Pc {
    match pc
    case LockTty(op) => CheckTty(op)
    case CheckTty(op) => if e.tty.saved.None? then UnlockTty(op) else WipeTty(op)
    case WipeTty(op) => UnlockTty(op)
    case UnlockTty(op) => LockPty(op)
    case LockPty(op) => CheckPty(op)
    case CheckPty(op) => if e.pty.saved.None? then UnlockPty(op) else WipePty(op)
    case WipePty(op) => UnlockPty(op)
    case UnlockPty(op) => if op.Closing? then CloseTty else Returned
    case CloseTty => ClosePty
    case ClosePty => Returned
    case Returned => Returned
  }

  /** It asks the operating system to put a mode back. */
  predicate AsksTty(e: Ends, pc: Pc) { pc.CheckTty? && e.tty.saved.Some? }
  predicate AsksPty(e: Ends, pc: Pc) { pc.CheckPty? && e.pty.saved.Some? }

  function NextEnds(e: Ends, pc: Pc): Ends {
    if AsksTty(e, pc) then PutBack(e, e.tty)
    else if AsksPty(e, pc) then PutBack(e, e.pty)
    else if pc.WipeTty? then e.(tty := e.tty.(saved := None))
    else if pc.WipePty? then e.(pty := e.pty.(saved := None))
    else e
  }

  function Next(s: State, t: Goroutine): State
    requires Enabled(s, Advance(t))
  {
    var pc := s.pcs[t];
    State(
      NextEnds(s.ends, pc),
      if pc.LockTty? then Some(t) else if pc.UnlockTty? then None else s.ttyLock,
      if pc.LockPty? then Some(t) else if pc.UnlockPty? then None else s.ptyLock,
      s.ttyClosed || pc.CloseTty?,
      s.ptyClosed || pc.ClosePty?,
      s.pcs[t := NextPc(s.ends, pc)],
      s.ops,
      if AsksTty(s.ends, pc) then s.restores + [Tty]
      else if AsksPty(s.ends, pc) then s.restores + [Pty]
      else s.restores,
      s.onClosed || (AsksTty(s.ends, pc) && s.ttyClosed) || (AsksPty(s.ends, pc) && s.ptyClosed))
  }

  function Apply(s: State, step: Step): State
    requires Enabled(s, step)
  {
    match step
    case Begin(t, op) => s.(pcs := s.pcs[t := LockTty(op)], ops := s.ops[t := op])
    case Advance(t) => Next(s, t)
  }

  // ----- what holds in every reachable state

  predicate HoldsTty(pc: Pc) { pc.CheckTty? || pc.WipeTty? || pc.UnlockTty? }
  predicate HoldsPty(pc: Pc) { pc.CheckPty? || pc.WipePty? || pc.UnlockPty? }

  /** The goroutine has dealt with the tty, and with both ends. */
  predicate PastTty(pc: Pc) { pc.UnlockTty? || pc.LockPty? || HoldsPty(pc) || PastBoth(pc) }
  predicate PastBoth(pc: Pc) { pc.UnlockPty? || pc.CloseTty? || pc.ClosePty? || pc.Returned? }

  ghost predicate TtyLocked(s: State) {
    forall t :: t in s.pcs && HoldsTty(s.pcs[t]) ==> s.ttyLock == Some(t)
  }

  ghost predicate PtyLocked(s: State) {
    forall t :: t in s.pcs && HoldsPty(s.pcs[t]) ==> s.ptyLock == Some(t)
  }

  /** Whether the tty's, or the pty's, mode has been put back already. */
  ghost predicate TtyBack(s: State) { s.ends.tty.saved.None? || exists t :: t in s.pcs && s.pcs[t].WipeTty? }
  ghost predicate PtyBack(s: State) { s.ends.pty.saved.None? || exists t :: t in s.pcs && s.pcs[t].WipePty? }

  ghost predicate TtyProgressed(s: State) {
    && (forall t :: t in s.pcs && PastTty(s.pcs[t]) ==> s.ends.tty.saved.None?)
    && (forall t :: t in s.pcs && s.pcs[t].WipeTty? ==> PutBackAlready(s.ends, s.ends.tty))
    && (s.ttyClosed ==> s.ends.tty.saved.None? && s.ends.pty.saved.None?)
  }

  ghost predicate PtyProgressed(s: State) {
    && (forall t :: t in s.pcs && PastBoth(s.pcs[t]) ==> s.ends.pty.saved.None?)
    && (forall t :: t in s.pcs && s.pcs[t].WipePty? ==> PutBackAlready(s.ends, s.ends.pty))
    && (s.ptyClosed ==> s.ends.tty.saved.None? && s.ends.pty.saved.None?)
  }

  /** The device has its saved mode again, only the wipe is missing. */
  predicate PutBackAlready(e: Ends, t: End) {
    t.saved.Some? && t.device in e.modes && e.modes[t.device] == t.saved.value
  }

  ghost predicate Shape(s: State) {
    Valid(s.ends) && TtyLocked(s) && PtyLocked(s) && TtyProgressed(s) && PtyProgressed(s)
  }

  /** What the operating system was asked, given which ends were saved at the start. */
  ghost predicate InOrder(s: State, ttySaved: bool, ptySaved: bool) {
    && s.restores == (if ttySaved && TtyBack(s) then [Tty] else []) + (if ptySaved && PtyBack(s) then [Pty] else [])
    && (s.ends.tty.saved.Some? ==> ttySaved)
    && (s.ends.pty.saved.Some? ==> ptySaved)
    && (ptySaved && PtyBack(s) ==> s.ends.tty.saved.None?)
  }

  ghost predicate Invariant(s: State, original: map<Device, Mode>, ttySaved: bool, ptySaved: bool) {
    && Shape(s)
    && Undone(s.ends) == original
    && InOrder(s, ttySaved, ptySaved)
    && !s.onClosed
  }

  lemma TtyLockedPreserved(s: State, step: Step)
    requires TtyLocked(s) && Enabled(s, step)
    ensures TtyLocked(Apply(s, step))
  {
  }

  lemma PtyLockedPreserved(s: State, step: Step)
    requires PtyLocked(s) && Enabled(s, step)
    ensures PtyLocked(Apply(s, step))
  {
  }

  lemma TtyProgressedPreserved(s: State, step: Step)
    requires Shape(s) && Enabled(s, step)
    ensures TtyProgressed(Apply(s, step))
  {
  }

  lemma PtyProgressedPreserved(s: State, step: Step)
    requires Shape(s) && Enabled(s, step)
    ensures PtyProgressed(Apply(s, step))
  {
  }

  lemma UndonePreserved(s: State, step: Step)
    requires Shape(s) && Enabled(s, step)
    ensures Valid(Apply(s, step).ends) && Undone(Apply(s, step).ends) == Undone(s.ends)
  {
    var e, e' := s.ends, Apply(s, step).ends;
    assert RestoreTty(e').modes == RestoreTty(e).modes || (step.Advance? && s.pcs[step.t].CheckPty?);
  }

  lemma InOrderPreserved(s: State, step: Step, ttySaved: bool, ptySaved: bool)
    requires Shape(s) && InOrder(s, ttySaved, ptySaved) && Enabled(s, step)
    ensures InOrder(Apply(s, step), ttySaved, ptySaved)
  {
    var s' := Apply(s, step);
    forall t | t in s.pcs && t != step.t && (s.pcs[t].WipeTty? || s.pcs[t].WipePty?)
      ensures t in s'.pcs && s'.pcs[t] == s.pcs[t]
    {
    }
    if step.Advance? && s.pcs[step.t].CheckTty? && s.ends.tty.saved.Some? {
      assert s'.pcs[step.t].WipeTty?;
    }
    if step.Advance? && s.pcs[step.t].CheckPty? && s.ends.pty.saved.Some? {
      assert s'.pcs[step.t].WipePty?;
    }
  }

  lemma OnClosedPreserved(s: State, step: Step)
    requires Shape(s) && !s.onClosed && Enabled(s, step)
    ensures !Apply(s, step).onClosed
  {
  }

  lemma InvariantPreserved(s: State, step: Step, original: map<Device, Mode>, ttySaved: bool, ptySaved: bool)
    requires Invariant(s, original, ttySaved, ptySaved) && Enabled(s, step)
    ensures Invariant(Apply(s, step), original, ttySaved, ptySaved)
  {
    TtyLockedPreserved(s, step);
    PtyLockedPreserved(s, step);
    TtyProgressedPreserved(s, step);
    PtyProgressedPreserved(s, step);
    UndonePreserved(s, step);
    InOrderPreserved(s, step, ttySaved, ptySaved);
    OnClosedPreserved(s, step);
  }

  /** A run that starts after RawMode on a pair whose ends were never saved. */
  ghost predicate IsRun(states: seq<State>, steps: seq<Step>, original: Ends, raw: Mode -> Mode) {
    && Valid(original) && original.pty.saved.None? && original.tty.saved.None?
    && |states| == |steps| + 1
    && states[0] == Initial(original, raw)
    && forall i {:trigger steps[i]} :: 0 <= i < |steps| ==>
         Enabled(states[i], steps[i]) && states[i + 1] == Apply(states[i], steps[i])
  }

  lemma {:induction false} InvariantAlong(states: seq<State>, steps: seq<Step>, original: Ends, raw: Mode -> Mode,
                                          i: nat)
    requires IsRun(states, steps, original, raw) && i <= |steps|
    ensures Invariant(states[i], original.modes, CanSave(original.tty), CanSave(original.pty))
  {
    if i == 0 {
      RawModeConserves(original, raw);
    } else {
      InvariantAlong(states, steps, original, raw, i - 1);
      InvariantPreserved(states[i - 1], steps[i - 1], original.modes, CanSave(original.tty), CanSave(original.pty));
    }
  }

  /** Once any one of the concurrent RestoreMode or Close calls is past both ends, all devices have
      their original modes again, and keep them whatever the other calls still do. */
  lemma OriginalModesAreBack(states: seq<State>, steps: seq<Step>, original: Ends, raw: Mode -> Mode, i: nat,
                             t: Goroutine)
    requires IsRun(states, steps, original, raw) && i <= |steps|
    requires t in states[i].pcs && PastBoth(states[i].pcs[t])
    ensures states[i].ends.modes == original.modes
    ensures states[i].ends.pty.saved.None? && states[i].ends.tty.saved.None?
  {
    InvariantAlong(states, steps, original, raw, i);
  }

  /** Over all runs: no mode is ever put back on a closed descriptor; each end is put back at most
      once, and the tty before the pty, the reverse of RawMode. */
  lemma RestoredInReverse(states: seq<State>, steps: seq<Step>, original: Ends, raw: Mode -> Mode, i: nat)
    requires IsRun(states, steps, original, raw) && i <= |steps|
    ensures !states[i].onClosed
    ensures states[i].restores
         <= (if CanSave(original.tty) then [Tty] else []) + (if CanSave(original.pty) then [Pty] else [])
  {
    InvariantAlong(states, steps, original, raw, i);
  }

  // ----- what Close adds

  /** What a goroutine was called for, as far as its place tells. */
  predicate FitsOperation(pc: Pc, op: Operation) {
    match pc
    case CloseTty => op.Closing?
    case ClosePty => op.Closing?
    case Returned => true
    case _ => pc.op == op
  }

  ghost predicate OpsFit(s: State) {
    s.pcs.Keys == s.ops.Keys && forall t :: t in s.pcs ==> FitsOperation(s.pcs[t], s.ops[t])
  }

  ghost predicate ReturnedClosed(s: State) {
    && (forall t :: t in s.pcs && t in s.ops && s.ops[t].Closing? ==>
          && (s.pcs[t].ClosePty? || s.pcs[t].Returned? ==> s.ttyClosed)
          && (s.pcs[t].Returned? ==> s.ptyClosed))
    && (s.ptyClosed ==> s.ttyClosed)
  }

  ghost predicate SomebodyCloses(s: State) { exists t :: t in s.ops && s.ops[t].Closing? }

  /** A Close that has returned has closed both descriptors, the tty first; nobody else closes any. */
  ghost predicate ClosedByClose(s: State) { OpsFit(s) && ReturnedClosed(s) && (s.ttyClosed ==> SomebodyCloses(s)) }

  /** A goroutine goes on with what it was called for. */
  lemma GoesOn(s: State, t: Goroutine, op: Operation)
    requires Enabled(s, Advance(t)) && FitsOperation(s.pcs[t], op)
    ensures t in Next(s, t).pcs && FitsOperation(Next(s, t).pcs[t], op)
    ensures Next(s, t).ops == s.ops && Next(s, t).pcs == s.pcs[t := Next(s, t).pcs[t]]
  {
  }

  lemma OpsFitPreserved(s: State, step: Step)
    requires OpsFit(s) && Enabled(s, step)
    ensures OpsFit(Apply(s, step))
  {
    if step.Advance? { GoesOn(s, step.t, s.ops[step.t]); }
  }

  lemma ReturnedClosedPreserved(s: State, step: Step)
    requires OpsFit(s) && ReturnedClosed(s) && Enabled(s, step)
    requires s.ptyClosed || (step.Advance? && s.pcs[step.t].ClosePty? ==> s.ttyClosed)
    ensures ReturnedClosed(Apply(s, step))
  {
  }

  lemma OpsGrow(s: State, step: Step)
    requires Enabled(s, step)
    ensures forall t :: t in s.ops && !(step.Begin? && step.t == t) ==>
              t in Apply(s, step).ops && Apply(s, step).ops[t] == s.ops[t]
    ensures Apply(s, step).ttyClosed ==> s.ttyClosed || (step.Advance? && s.pcs[step.t].CloseTty?)
  {
  }

  lemma SomebodyClosesPreserved(s: State, step: Step)
    requires OpsFit(s) && (s.ttyClosed ==> SomebodyCloses(s)) && Enabled(s, step)
    ensures Apply(s, step).ttyClosed ==> SomebodyCloses(Apply(s, step))
  {
    OpsGrow(s, step);
    var ops := Apply(s, step).ops;
    if s.ttyClosed {
      var t :| t in s.ops && s.ops[t].Closing?;
      assert t in ops && ops[t].Closing?;
    } else if Apply(s, step).ttyClosed {
      assert step.t in ops && ops[step.t].Closing?;
    }
  }

  lemma ClosedByClosePreserved(s: State, step: Step)
    requires ClosedByClose(s) && Enabled(s, step)
    ensures ClosedByClose(Apply(s, step))
  {
    OpsFitPreserved(s, step);
    ReturnedClosedPreserved(s, step);
    SomebodyClosesPreserved(s, step);
  }

  /** In every run: a Close that has returned has closed both descriptors; and as long as only RestoreMode is
      called, none is closed. */
  lemma {:induction false} OnlyCloseCloses(states: seq<State>, steps: seq<Step>, original: Ends, raw: Mode -> Mode,
                                           i: nat)
    requires IsRun(states, steps, original, raw) && i <= |steps|
    ensures ClosedByClose(states[i])
  {
    if i > 0 {
      OnlyCloseCloses(states, steps, original, raw, i - 1);
      ClosedByClosePreserved(states[i - 1], steps[i - 1]);
    }
  }

  // ----- progress

  function StepsLeft(pc: Pc): nat {
    match pc
    case LockTty(_) => 10
    case CheckTty(_) => 9
    case WipeTty(_) => 8
    case UnlockTty(_) => 7
    case LockPty(_) => 6
    case CheckPty(_) => 5
    case WipePty(_) => 4
    case UnlockPty(_) => 3
    case CloseTty => 2
    case ClosePty => 1
    case Returned => 0
  }

  /** Every step of a call brings it closer to its return and leaves the others where they are. */
  lemma StepsLead(s: State, step: Step)
    requires Enabled(s, step)
    ensures var s' := Apply(s, step);
            && step.t in s'.pcs && s'.pcs == s.pcs[step.t := s'.pcs[step.t]]
            && (if step.Begin? then s'.pcs[step.t] == LockTty(step.op)
                else StepsLeft(s'.pcs[step.t]) < StepsLeft(s.pcs[step.t]))
  {
  }

  /** A lock that is taken has a holder. */
  predicate TtyOwned(s: State) {
    s.ttyLock.Some? ==> s.ttyLock.value in s.pcs && HoldsTty(s.pcs[s.ttyLock.value])
  }

  predicate PtyOwned(s: State) {
    s.ptyLock.Some? ==> s.ptyLock.value in s.pcs && HoldsPty(s.pcs[s.ptyLock.value])
  }

  lemma TtyOwnedPreserved(s: State, step: Step)
    requires TtyOwned(s) && TtyLocked(s) && Enabled(s, step)
    ensures TtyOwned(Apply(s, step))
  {
  }

  lemma PtyOwnedPreserved(s: State, step: Step)
    requires PtyOwned(s) && PtyLocked(s) && Enabled(s, step)
    ensures PtyOwned(Apply(s, step))
  {
  }

  lemma {:induction false} OwnedAlong(states: seq<State>, steps: seq<Step>, original: Ends, raw: Mode -> Mode, i: nat)
    requires IsRun(states, steps, original, raw) && i <= |steps|
    ensures TtyOwned(states[i]) && PtyOwned(states[i])
  {
    if i > 0 {
      OwnedAlong(states, steps, original, raw, i - 1);
      InvariantAlong(states, steps, original, raw, i - 1);
      TtyOwnedPreserved(states[i - 1], steps[i - 1]);
      PtyOwnedPreserved(states[i - 1], steps[i - 1]);
    }
  }

  /** No deadlock: as long as some call has not returned, some goroutine can go on. */
  lemma NoDeadlock(states: seq<State>, steps: seq<Step>, original: Ends, raw: Mode -> Mode, i: nat, t: Goroutine)
      returns (u: Goroutine)
    requires IsRun(states, steps, original, raw) && i <= |steps|
    requires t in states[i].pcs && !states[i].pcs[t].Returned?
    ensures Enabled(states[i], Advance(u))
  {
    OwnedAlong(states, steps, original, raw, i);
    var s := states[i];
    u := t;
    if s.pcs[t].LockTty? && s.ttyLock.Some? { u := s.ttyLock.value; }
    if s.pcs[t].LockPty? && s.ptyLock.Some? { u := s.ptyLock.value; }
  }
}
