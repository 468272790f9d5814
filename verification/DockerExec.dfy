/** config/dockerexec/exec.go: the goroutine that copies the output and reports its error, the one
    that copies the input and closes a channel, and the caller of Wait that selects among both and
    the context. One step is one operation of one of the three. */
module DockerExec {
  import opened Options

  type Error = string

  /** What a copy, an inspection or the context may come up with. */
  const ContextError: Error := "context ended"

  datatype Output = Copying | Restoring(err: Option<Error>) | Sending(err: Option<Error>) | OutputDone
  datatype Input = InputCopying | ClosingWrite | ClosingDone | InputDone

  /** `Returned` holds the pair that Wait returned. */
  datatype Waiter =
    | NotCalled
    | FirstSelect
    | SecondSelect
    | Inspecting
    | Returned(code: int, err: Option<Error>)

  /** `outputErrs` is a channel of capacity one. The rest, from `copied` on, is history: what the copy of the
      output returned, whether the terminal's mode was restored and the connection closed for writing, and
      what was sent, received and inspected. */
  datatype State = State(
    pty: bool,
    ctxDone: bool,
    outputErrs: seq<Option<Error>>,
    inputDone: bool,
    output: Output,
    input: Input,
    waiter: Waiter,
    exited: bool,
    copied: Option<Option<Error>>,
    restored: bool,
    writeClosed: bool,
    sent: Option<Option<Error>>,
    received: Option<Option<Error>>,
    inspected: Option<(int, Option<Error>)>)

  const Capacity := 1

  /** After execAndStream has succeeded. */
  function Started(pty: bool): State {
    State(pty, false, [], false, Copying, InputCopying, NotCalled, false, None, false, false, None, None, None)
  }

  datatype Step =
    | Cancel
    | OutputCopied(err: Option<Error>)
    | RestoreMode
    | SendOutput
    | InputCopied
    | CloseWrite
    | CloseInputDone
    | CallWait
    | ReceiveOutput
    | ReceiveInputDone
    | ReceiveContext
    | Inspect(code: int, err: Option<Error>)

  /** A send needs room in the buffer, a receive needs a value or a closed channel; a select takes
      any branch that is ready. */
  predicate Enabled(s: State, step: Step) {
    match step
    case Cancel => true
    case OutputCopied(_) => s.output.Copying?
    case RestoreMode => s.output.Restoring?
    case SendOutput => s.output.Sending? && |s.outputErrs| < Capacity
    case InputCopied => s.input.InputCopying?
    case CloseWrite => s.input.ClosingWrite?
    case CloseInputDone => s.input.ClosingDone? && !s.inputDone
    case CallWait => s.waiter.NotCalled?
    case ReceiveOutput => (s.waiter.FirstSelect? || s.waiter.SecondSelect?) && |s.outputErrs| > 0
    case ReceiveInputDone => s.waiter.FirstSelect? && s.inputDone
    case ReceiveContext => (s.waiter.FirstSelect? || s.waiter.SecondSelect?) && s.ctxDone
    case Inspect(_, _) => s.waiter.Inspecting?
  }

  function NextOutput(s: State, step: Step): Output
    requires Enabled(s, step)
  {
    match step
    case OutputCopied(err) => if s.pty then Restoring(err) else Sending(err)
    case RestoreMode => Sending(s.output.err)
    case SendOutput => OutputDone
    case _ => s.output
  }

  function NextInput(s: State, step: Step): Input {
    match step
    case InputCopied => ClosingWrite
    case CloseWrite => ClosingDone
    case CloseInputDone => InputDone
    case _ => s.input
  }

  function NextWaiter(s: State, step: Step): Waiter
    requires Enabled(s, step)
  {
    match step
    case CallWait => FirstSelect
    case ReceiveOutput => if s.outputErrs[0].Some? then Returned(0, s.outputErrs[0]) else Inspecting
    case ReceiveInputDone => SecondSelect
    case ReceiveContext => Returned(0, Some(ContextError))
    case Inspect(code, err) => Returned(code, err)
    case _ => s.waiter
  }

  function Apply(s: State, step: Step): State
    requires Enabled(s, step)
  {
    State(
      s.pty,
      s.ctxDone || step.Cancel?,
      if step.SendOutput? then s.outputErrs + [s.output.err]
      else if step.ReceiveOutput? then s.outputErrs[1..]
      else s.outputErrs,
      s.inputDone || step.CloseInputDone?,
      NextOutput(s, step),
      NextInput(s, step),
      NextWaiter(s, step),
      s.exited || (step.Inspect? && step.err.None?),
      if step.OutputCopied? then Some(step.err) else s.copied,
      s.restored || step.RestoreMode?,
      s.writeClosed || step.CloseWrite?,
      if step.SendOutput? then Some(s.output.err) else s.sent,
      if step.ReceiveOutput? then Some(s.outputErrs[0]) else s.received,
      if step.Inspect? then Some((step.code, step.err)) else s.inspected)
  }

  // ----- what holds in every reachable state

  /** What the copy returned is what is sent, for a terminal after its mode was restored; and the end of the
      input is told after the connection was closed for writing. */
  predicate HelpersOk(s: State) {
    && (s.output.Copying? <==> s.copied.None?)
    && (s.output.Restoring? || s.output.Sending? ==> s.copied == Some(s.output.err))
    && (s.output.Sending? || s.output.OutputDone? ==> (s.restored <==> s.pty))
    && (s.output.Copying? || s.output.Restoring? ==> !s.restored) && (s.output.Restoring? ==> s.pty)
    && (s.sent.Some? ==> s.sent == s.copied)
    && (s.sent.Some? <==> s.output.OutputDone?)
    && (s.writeClosed <==> s.input.ClosingDone? || s.input.InputDone?)
    && (s.inputDone <==> s.input.InputDone?)
  }

  /** Each value that was sent is in the buffer or was received, and what Wait does follows from it. */
  predicate WaiterOk(s: State) {
    && s.outputErrs == (if s.sent.Some? && s.received.None? then [s.sent.value] else [])
    && (s.received.Some? ==> s.received == s.sent)
    && (s.waiter.SecondSelect? ==> s.inputDone)
    && (s.received.Some? ==> s.waiter.Inspecting? || s.waiter.Returned?)
    && (s.waiter.Inspecting? || s.inspected.Some? ==> s.received == Some(None))
    && (s.inspected.Some? ==> s.waiter.Returned?)
    && (s.exited <==> s.inspected.Some? && s.inspected.value.1.None?)
    && (s.waiter.Returned? ==> Explained(s, s.waiter.code, s.waiter.err))
  }

  ghost predicate Invariant(s: State) { HelpersOk(s) && WaiterOk(s) }

  /** Why Wait returned this pair: the inspection said so after the output had been copied without
      an error; or the copy of the output failed with that error; or the context was cancelled. The
      code is 0 in the two last cases although there is an error. */
  predicate Explained(s: State, code: int, err: Option<Error>) {
    || (s.copied == Some(None) && s.received == Some(None) && s.inspected == Some((code, err)))
    || (s.copied == Some(err) && s.received == Some(err) && err.Some? && code == 0 && s.inspected.None?)
    || (s.received.None? && s.inspected.None? && s.ctxDone && code == 0 && err == Some(ContextError))
  }

  predicate OfWaiter(step: Step) { Receives(step) || step.CallWait? || step.Inspect? }

  /** A branch of the two selects. */
  predicate Receives(step: Step) { step.ReceiveOutput? || step.ReceiveInputDone? || step.ReceiveContext? }

  lemma HelpersOkPreserved(s: State, step: Step)
    requires HelpersOk(s) && Enabled(s, step)
    ensures HelpersOk(Apply(s, step))
  {
  }

  lemma WaiterOkPreserved(s: State, step: Step)
    requires HelpersOk(s) && WaiterOk(s) && Enabled(s, step)
    ensures WaiterOk(Apply(s, step))
  {
    if OfWaiter(step) { WaiterMoves(s, step); } else { OthersMove(s, step); }
  }

  lemma WaiterMoves(s: State, step: Step)
    requires HelpersOk(s) && WaiterOk(s) && Enabled(s, step) && OfWaiter(step)
    ensures WaiterOk(Apply(s, step))
  {
  }

  lemma OthersMove(s: State, step: Step)
    requires HelpersOk(s) && WaiterOk(s) && Enabled(s, step) && !OfWaiter(step)
    ensures WaiterOk(Apply(s, step))
  {
  }

  lemma InvariantPreserved(s: State, step: Step)
    requires Invariant(s) && Enabled(s, step)
    ensures Invariant(Apply(s, step))
  {
    HelpersOkPreserved(s, step);
    WaiterOkPreserved(s, step);
  }

  ghost predicate IsRun(states: seq<State>, steps: seq<Step>, pty: bool) {
    && |states| == |steps| + 1
    && states[0] == Started(pty)
    && forall i {:trigger steps[i]} :: 0 <= i < |steps| ==>
         Enabled(states[i], steps[i]) && states[i + 1] == Apply(states[i], steps[i])
  }

  lemma InvariantNext(states: seq<State>, steps: seq<Step>, pty: bool, i: nat)
    requires IsRun(states, steps, pty) && 0 < i <= |steps| && Invariant(states[i - 1]) && states[i - 1].pty == pty
    ensures Invariant(states[i]) && states[i].pty == pty
  {
    assert states[i] == Apply(states[i - 1], steps[i - 1]);
    InvariantPreserved(states[i - 1], steps[i - 1]);
  }

  lemma {:induction false} InvariantAlong(states: seq<State>, steps: seq<Step>, pty: bool, i: nat)
    requires IsRun(states, steps, pty) && i <= |steps|
    ensures Invariant(states[i]) && states[i].pty == pty
  {
    if i > 0 {
      InvariantAlong(states, steps, pty, i - 1);
      InvariantNext(states, steps, pty, i);
    }
  }

  /** In every interleaving: the exit code is inspected only if the copy of the output has ended without an
      error, and after that was sent; the pair that Wait returns is explained; and a context error needs a
      cancellation. */
  lemma WaitExplained(states: seq<State>, steps: seq<Step>, pty: bool, i: nat)
    requires IsRun(states, steps, pty) && i <= |steps|
    ensures states[i].waiter.Inspecting? || states[i].inspected.Some? ==>
              states[i].copied == states[i].sent == Some(None)
    ensures states[i].waiter.Returned? ==> Explained(states[i], states[i].waiter.code, states[i].waiter.err)
    ensures states[i].waiter.Returned? && !states[i].ctxDone ==> states[i].output.OutputDone?
  {
    InvariantAlong(states, steps, pty, i);
  }

  /** The helpers tell what they have done: what is sent is what the copy returned, for a terminal after its
      mode was restored; and the end of the input is told after the connection was closed for writing. */
  lemma HelpersTellTheTruth(states: seq<State>, steps: seq<Step>, pty: bool, i: nat)
    requires IsRun(states, steps, pty) && i <= |steps|
    ensures states[i].sent.Some? ==> states[i].sent == states[i].copied && (states[i].restored <==> pty)
    ensures states[i].inputDone ==> states[i].writeClosed
  {
    InvariantAlong(states, steps, pty, i);
  }

  /** Neither helper can block at its end, whatever the waiter has done: the buffer has room when
      the output is to be sent, and the input channel is still open when it is to be closed. */
  lemma HelpersNeverBlock(states: seq<State>, steps: seq<Step>, pty: bool, i: nat)
    requires IsRun(states, steps, pty) && i <= |steps|
    ensures states[i].output.Sending? ==> Enabled(states[i], SendOutput)
    ensures states[i].input.ClosingDone? ==> Enabled(states[i], CloseInputDone)
  {
    InvariantAlong(states, steps, pty, i);
  }

  /** Input alone never ends the wait: while the output is still being copied and the context is
      alive, a waiter can at most move from its first select to its second, and is stuck there. */
  lemma InputAloneNeverEndsTheWait(states: seq<State>, steps: seq<Step>, pty: bool, i: nat, step: Step)
    requires IsRun(states, steps, pty) && i <= |steps| && Enabled(states[i], step)
    requires !states[i].output.OutputDone? && !states[i].ctxDone
    requires states[i].waiter.FirstSelect? || states[i].waiter.SecondSelect?
    ensures var w := Apply(states[i], step).waiter;
            w == states[i].waiter || (states[i].waiter.FirstSelect? && states[i].inputDone && w.SecondSelect?)
  {
    InvariantAlong(states, steps, pty, i);
  }

  /** And it does end: as soon as the output is done or the context is cancelled, a waiter that has
      not returned has a step of its own, and only three of them are left at most. */
  lemma WaitEnds(states: seq<State>, steps: seq<Step>, pty: bool, i: nat) returns (step: Step)
    requires IsRun(states, steps, pty) && i <= |steps|
    requires states[i].output.OutputDone? || states[i].ctxDone
    requires !states[i].waiter.NotCalled? && !states[i].waiter.Returned?
    ensures Enabled(states[i], step)
    ensures Remaining(Apply(states[i], step).waiter) < Remaining(states[i].waiter) <= 3
  {
    InvariantAlong(states, steps, pty, i);
    var s := states[i];
    if s.waiter.Inspecting? {
      step := Inspect(0, None);
    } else if s.ctxDone {
      step := ReceiveContext;
    } else {
      step := ReceiveOutput;
    }
  }

  function Remaining(w: Waiter): nat {
    match w
    case NotCalled => 4
    case FirstSelect => 3
    case SecondSelect => 2
    case Inspecting => 1
    case Returned(_, _) => 0
  }

  function OutputSteps(o: Output): nat {
    match o
    case Copying => 3
    case Restoring(_) => 2
    case Sending(_) => 1
    case OutputDone => 0
  }

  function InputSteps(i: Input): nat {
    match i
    case InputCopying => 3
    case ClosingWrite => 2
    case ClosingDone => 1
    case InputDone => 0
  }

  /** Every step of a helper or of the waiter brings it closer to its end and leaves the places of the others
      alone; a cancellation stays. */
  lemma StepsLead(s: State, step: Step)
    requires Enabled(s, step)
    ensures var s' := Apply(s, step);
            && (s.ctxDone || step.Cancel? <==> s'.ctxDone)
            && (if step.OutputCopied? || step.RestoreMode? || step.SendOutput?
                then OutputSteps(s'.output) < OutputSteps(s.output)
                else s'.output == s.output)
            && (if step.InputCopied? || step.CloseWrite? || step.CloseInputDone?
                then InputSteps(s'.input) == InputSteps(s.input) - 1
                else s'.input == s.input)
            && (if OfWaiter(step) then Remaining(s'.waiter) < Remaining(s.waiter) else s'.waiter == s.waiter)
  {
  }

  /** Whatever is asked of Docker, the context or the copies may come at any time and with any answer. */
  lemma NothingIsHeldBack(s: State, code: int, err: Option<Error>)
    ensures Enabled(s, Cancel)
    ensures s.output.Copying? ==> Enabled(s, OutputCopied(err))
    ensures s.input.InputCopying? ==> Enabled(s, InputCopied)
    ensures s.waiter.Inspecting? ==> Enabled(s, Inspect(code, err))
  {
  }

  // ----- the object

  /** A reply of the docker engine. */
  datatype Reply = Reply(id: string, err: Option<Error>)

  /** What the others do while Wait is between its two selects, or blocked in the second. */
  predicate CanGoOn(s: State, steps: seq<Step>)
    decreases |steps|
  {
    steps == [] || (!OfWaiter(steps[0]) && Enabled(s, steps[0]) && CanGoOn(Apply(s, steps[0]), steps[1..]))
  }

  function GoOn(s: State, steps: seq<Step>): State
    requires CanGoOn(s, steps)
    decreases |steps|
  {
    if steps == [] then s else GoOn(Apply(s, steps[0]), steps[1..])
  }

  lemma {:induction false} OthersGoOn(s: State, steps: seq<Step>)
    requires Invariant(s) && CanGoOn(s, steps)
    ensures Invariant(GoOn(s, steps)) && GoOn(s, steps).waiter == s.waiter
    decreases |steps|
  {
    if steps != [] {
      InvariantPreserved(s, steps[0]);
      OthersGoOn(Apply(s, steps[0]), steps[1..]);
    }
  }

  /** The first select takes its branch in s. If that is the end of the input, the others go on, and the
      second select takes its own. */
  predicate Selects(s: State, first: Step, between: seq<Step>, second: Step) {
    && s.waiter.FirstSelect? && Receives(first) && Enabled(s, first)
    && (first.ReceiveInputDone? ==>
          && CanGoOn(Apply(s, first), between)
          && Receives(second) && Enabled(GoOn(Apply(s, first), between), second))
  }

  /** Where the streams are then. */
  function Selected(s: State, first: Step, between: seq<Step>, second: Step): State
    requires Selects(s, first, between, second)
  {
    if first.ReceiveInputDone? then Apply(GoOn(Apply(s, first), between), second) else Apply(s, first)
  }

  /** And where Wait is at its end, if an inspection says this. */
  function Finished(s: State, code: int, err: Option<Error>): State {
    if s.waiter.Inspecting? then Apply(s, Inspect(code, err)) else s
  }

  class ContainerExecProcess {
    var execID: string
    var connected: bool
    var exited: bool
    var started: Option<State>

    constructor ()
      ensures execID == "" && !connected && !exited && started.None?
    {
      execID, connected, exited, started := "", false, false, None;
    }

    /** Only a failure to create the exec is reported; what attaching to it says is not looked at. */
    method ExecAndStream(created: Reply, attachErr: Option<Error>, pty: bool) returns (err: Option<Error>)
      modifies this
      ensures err == created.err
      ensures err.Some? ==> connected == old(connected) && execID == old(execID) && started == old(started)
      ensures err.None? ==> connected && execID == created.id && started == Some(Started(pty))
      ensures exited == old(exited)
    {
      if created.err.Some? {
        return created.err;
      }
      execID := created.id;
      connected := true;
      started := Some(Started(pty));
      return None;
    }

    /** The two selects, whichever of the ready branches they take, and whatever the others do between. */
    method WaitStreams(s: State, first: Step, between: seq<Step>, second: Step) returns (err: Option<Error>)
      requires Invariant(s) && Selects(s, first, between, second)
      ensures Selected(s, first, between, second).waiter == if err.Some? then Returned(0, err) else Inspecting
    {
      if first.ReceiveOutput? {
        return s.outputErrs[0];
      } else if first.ReceiveContext? {
        return Some(ContextError);
      }
      InvariantPreserved(s, first);
      OthersGoOn(Apply(s, first), between);
      if second.ReceiveOutput? {
        return GoOn(Apply(s, first), between).outputErrs[0];
      } else {
        return Some(ContextError);
      }
    }

    /** Wait follows the state machine, so that what it returns is explained. */
    method Wait(s: State, first: Step, between: seq<Step>, second: Step, inspectCode: int, inspectErr: Option<Error>)
        returns (code: int, err: Option<Error>)
      requires Invariant(s) && Selects(s, first, between, second) && !exited
      modifies this`exited
      ensures var end := Finished(Selected(s, first, between, second), inspectCode, inspectErr);
              end.waiter == Returned(code, err) && Explained(end, code, err) && exited == end.exited
    {
      err := WaitStreams(s, first, between, second);
      ReturnsExplained(s, first, between, second, inspectCode, inspectErr);
      if err.Some? {
        return 0, err;
      }
      if inspectErr.None? {
        exited := true;
      }
      return inspectCode, inspectErr;
    }

    method Cleanup() returns (killed: bool)
      modifies this`connected
      ensures !connected && killed == exited
    {
      connected := false;
      return exited;
    }
  }

  lemma ReturnsExplained(s: State, first: Step, between: seq<Step>, second: Step, code: int, err: Option<Error>)
    requires Invariant(s) && Selects(s, first, between, second)
    ensures var selected := Selected(s, first, between, second);
            var end := Finished(selected, code, err);
            && Invariant(end) && !selected.exited
            && end.waiter.Returned? && Explained(end, end.waiter.code, end.waiter.err)
  {
    var selected := Selected(s, first, between, second);
    InvariantPreserved(s, first);
    if first.ReceiveInputDone? {
      OthersGoOn(Apply(s, first), between);
      InvariantPreserved(GoOn(Apply(s, first), between), second);
    }
    if selected.waiter.Inspecting? { InvariantPreserved(selected, Inspect(code, err)); }
  }
}
