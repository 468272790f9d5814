/** Why the hypothesis on Read is needed: runs in which a destination receives bytes that its
    source never produced. */
module AsyncCopyHazards {
  import opened Options
  import opened AsyncCopy
  import opened AsyncCopyProofs
  import W = AsyncWait

  lemma Extend(states: seq<State>, steps: seq<Step>, policy: Policy, step: Step)
      returns (states': seq<State>, steps': seq<Step>)
    requires IsRun(states, steps, policy) && HeapFits(states[|steps|]) && Enabled(states[|steps|], step)
    ensures IsRun(states', steps', policy) && states'[|steps'|] == Apply(states[|steps|], step)
    ensures HeapFits(states'[|steps'|])
  {
    var s' := Apply(states[|steps|], step);
    states', steps' := states + [s'], steps + [step];
    HeapFitsPreserved(states[|steps|], step);
    assert forall i :: 0 <= i < |steps| ==> steps'[i] == steps[i];
  }

  /** A Copy whose Read gave up after its timeout; the action behind it still runs, and its buffer
      has gone back to the pool. */
  ghost predicate Abandoned(s: State) {
    && HeapFits(s) && s.copies.Keys == {0} && s.pool == {0} && s.heap.Keys == {0} && s.cancelAt.Keys == {0}
    && s.copies[0].buffer == 0 && s.copies[0].context == 0
    && Outlived(s.copies[0]) && s.copies[0].op.Reading?
  }

  /** Only Copy number 0 exists; its Read is inside Wait, with the action running. */
  ghost predicate InWait(s: State, pc: W.Pc) {
    && HeapFits(s) && s.policy == AtReturn && s.copies.Keys == {0} && s.heap.Keys == {0} && s.pool == {}
    && s.copies[0].pc.Calling? && s.copies[0].op.Reading? && s.copies[0].buffer == 0 && s.copies[0].context == 0
    && s.copies[0].wait == W.Call(pc, W.Running, CopyTimeout, false, 0)
  }

  lemma InFirstSelect() returns (states: seq<State>, steps: seq<Step>)
    ensures IsRun(states, steps, AtReturn) && InWait(states[|steps|], W.Select1) && states[|steps|].cancelAt == map[]
  {
    states, steps := [Initial(AtReturn, 0)], [];
    states, steps := Extend(states, steps, AtReturn, Begin(0, 0, CopyTimeout));
    states, steps := Extend(states, steps, AtReturn, Get(0, 0));
    states, steps := Extend(states, steps, AtReturn, Waits(0, W.Enter));
  }

  lemma InCancel() returns (states: seq<State>, steps: seq<Step>)
    ensures IsRun(states, steps, AtReturn) && InWait(states[|steps|], W.CallCancel)
    ensures states[|steps|].cancelAt.Keys == {0}
  {
    states, steps := InFirstSelect();
    states, steps := Extend(states, steps, AtReturn, Cancel(0));
    states, steps := Extend(states, steps, AtReturn, Waits(0, W.TakeContext));
  }

  lemma InCheck() returns (states: seq<State>, steps: seq<Step>)
    ensures IsRun(states, steps, AtReturn) && InWait(states[|steps|], W.CheckTimeout)
    ensures states[|steps|].cancelAt.Keys == {0}
  {
    states, steps := InCancel();
    states, steps := Extend(states, steps, AtReturn, Waits(0, W.Cancels));
  }

  lemma InSecondSelect() returns (states: seq<State>, steps: seq<Step>, deadline: Time)
    ensures IsRun(states, steps, AtReturn) && states[|steps|].cancelAt.Keys == {0}
    ensures InWait(states[|steps|], W.Select2(deadline)) && deadline == states[|steps|].now + CopyTimeout
  {
    states, steps := InCheck();
    deadline := states[|steps|].now + CopyTimeout;
    states, steps := Extend(states, steps, AtReturn, Waits(0, W.Checks));
  }

  /** The clock goes on to the deadline, and changes nothing else. */
  lemma CanPassTo(s: State, deadline: Time, d: Time)
    requires InWait(s, W.Select2(deadline)) && d > 0 && deadline == s.now + d && s.cancelAt.Keys == {0}
    ensures Enabled(s, Pass(d))
  {
    assert Blocked(s, s.copies[0], d);
  }

  lemma AfterPass(s: State, d: Time)
    requires HeapFits(s) && Enabled(s, Pass(d))
    ensures var s' := Apply(s, Pass(d));
            s'.now == s.now + d && s'.policy == s.policy && s'.cancelAt == s.cancelAt
            && s'.copies == s.copies && s'.pool == s.pool && s'.heap == s.heap
  {
  }

  lemma InWaitLater(s: State, s': State, pc: W.Pc)
    requires InWait(s, pc)
    requires s'.policy == s.policy && s'.copies == s.copies && s'.pool == s.pool && s'.heap == s.heap
    ensures InWait(s', pc)
  {
  }

  lemma AtDeadline() returns (states: seq<State>, steps: seq<Step>, deadline: Time)
    ensures IsRun(states, steps, AtReturn) && states[|steps|].cancelAt.Keys == {0}
    ensures InWait(states[|steps|], W.Select2(deadline)) && deadline == states[|steps|].now
  {
    states, steps, deadline := InSecondSelect();
    var s := states[|steps|];
    CanPassTo(s, deadline, CopyTimeout);
    AfterPass(s, CopyTimeout);
    InWaitLater(s, Apply(s, Pass(CopyTimeout)), W.Select2(deadline));
    states, steps := Extend(states, steps, AtReturn, Pass(CopyTimeout));
  }

  lemma TimedOut() returns (states: seq<State>, steps: seq<Step>)
    ensures IsRun(states, steps, AtReturn) && states[|steps|].cancelAt.Keys == {0}
    ensures InWait(states[|steps|], W.Ret(false))
  {
    var deadline;
    states, steps, deadline := AtDeadline();
    states, steps := Extend(states, steps, AtReturn, Waits(0, W.TakeTimeout));
  }

  lemma ReadGivesUp() returns (states: seq<State>, steps: seq<Step>)
    ensures IsRun(states, steps, AtReturn) && Abandoned(states[|steps|]) && states[|steps|].policy == AtReturn
  {
    states, steps := TimedOut();
    states, steps := Extend(states, steps, AtReturn, ReadReturns(0));
  }

  /** Copy number 1 is at work beside the abandoned action, which can still reach buffer 0. */
  ghost predicate Beside(s: State) {
    && HeapFits(s) && s.policy == AtReturn && s.pool == {0} && 0 in s.heap
    && s.copies.Keys == {0, 1} && s.copies[1].context == 1 && 1 !in s.cancelAt
    && Outlived(s.copies[0]) && s.copies[0].op.Reading? && s.copies[0].buffer == 0
  }

  /** Its Read is inside Wait with the action running. */
  ghost predicate OtherInWait(s: State, action: W.Action, pc: W.Pc) {
    && Beside(s) && s.copies[1].pc.Calling? && s.copies[1].op.Reading? && s.copies[1].buffer == 1 && 1 in s.heap
    && s.copies[1].wait == W.Call(pc, action, CopyTimeout, false, 0)
  }

  lemma OtherBegins() returns (states: seq<State>, steps: seq<Step>)
    ensures IsRun(states, steps, AtReturn) && OtherInWait(states[|steps|], W.NotStarted, W.Entry)
    ensures states[|steps|].copies[1].flow == Flow([], [], [], 0, 0)
  {
    states, steps := ReadGivesUp();
    states, steps := Extend(states, steps, AtReturn, Begin(1, 1, CopyTimeout));
    states, steps := Extend(states, steps, AtReturn, Get(1, 1));
  }

  lemma OtherReads(chunk: seq<byte>) returns (states: seq<State>, steps: seq<Step>)
    requires 0 < |chunk| <= Size
    ensures IsRun(states, steps, AtReturn)
    ensures var s := states[|steps|];
            && OtherInWait(s, W.Finished, W.Select1)
            && s.copies[1].flow == Flow(chunk, [], [], 0, 0)
            && s.copies[1].n == |chunk| && s.copies[1].err == None && s.heap[1][..|chunk|] == chunk
  {
    states, steps := OtherBegins();
    states, steps := Extend(states, steps, AtReturn, Waits(1, W.Enter));
    states, steps := Extend(states, steps, AtReturn, ReadEnds(1, chunk, None));
  }

  /** Copy number 1 has these bytes in its chunk and is about to write them. */
  ghost predicate AboutToWrite(s: State, chunk: seq<byte>) {
    && HeapFits(s) && s.policy == AtReturn && 0 in s.pool && 0 in s.heap
    && s.copies.Keys == {0, 1} && s.copies[1].context == 1 && 1 !in s.cancelAt
    && Outlived(s.copies[0]) && s.copies[0].op.Reading? && s.copies[0].buffer == 0
    && s.copies[1].pc.Checkout? && s.copies[1].op.Writing? && s.copies[1].flow == Flow(chunk, [], chunk, 0, 0)
  }

  lemma OtherHasChunk(chunk: seq<byte>) returns (states: seq<State>, steps: seq<Step>)
    requires 0 < |chunk| <= Size
    ensures IsRun(states, steps, AtReturn) && AboutToWrite(states[|steps|], chunk)
  {
    states, steps := OtherReads(chunk);
    states, steps := Extend(states, steps, AtReturn, Waits(1, W.TakeDone));
    states, steps := Extend(states, steps, AtReturn, ReadReturns(1));
  }

  /** The buffer given back too early goes to another Copy's Write, and the late read overwrites it
      there: the destination receives 7 although the source produced 9. */
  lemma EarlyReturnCorrupts() returns (states: seq<State>, steps: seq<Step>)
    ensures IsRun(states, steps, AtReturn)
    ensures 1 in states[|steps|].copies && states[|steps|].early
    ensures var f := states[|steps|].copies[1].flow; f.produced == [9] && f.delivered == [7]
  {
    states, steps := OtherHasChunk([9]);
    states, steps := Extend(states, steps, AtReturn, Get(1, 0));
    states, steps := Extend(states, steps, AtReturn, Waits(1, W.Enter));
    states, steps := Extend(states, steps, AtReturn, ReadEnds(0, [7], None));
    states, steps := Extend(states, steps, AtReturn, Deliver(1, 1));
    if !states[|steps|].early {
      CopyDeliversPrefix(states, steps, AtReturn, |steps|, 1);
    }
  }

  // ----- the other policy: giving the buffer back inside the action

  /** Copy number 0 is inside Wait; its read has ended with the byte 7, and its buffer is in the pool. */
  ghost predicate ReadEnded(s: State) {
    && HeapFits(s) && s.policy == InAction && 0 in s.copies && s.cancelAt == map[] && s.heap.Keys == {0}
    && s.copies[0].pc.Calling? && s.copies[0].op.Reading? && s.copies[0].buffer == 0
    && s.copies[0].wait == W.Call(W.Select1, W.Finished, CopyTimeout, false, 0)
    && s.copies[0].n == 1 && s.copies[0].err == None && s.copies[0].flow == Flow([7], [], [], 0, 0)
  }

  lemma FirstReads() returns (states: seq<State>, steps: seq<Step>)
    ensures IsRun(states, steps, InAction) && states[|steps|].policy == InAction
    ensures var s := states[|steps|];
            && HeapFits(s) && s.copies.Keys == {0} && s.cancelAt == map[] && s.heap.Keys == {0}
            && s.copies[0].pc.Calling? && s.copies[0].op.Reading? && s.copies[0].buffer == 0
            && s.copies[0].wait == W.Call(W.Select1, W.Running, CopyTimeout, false, 0)
            && s.copies[0].flow == Flow([], [], [], 0, 0)
  {
    states, steps := [Initial(InAction, 0)], [];
    states, steps := Extend(states, steps, InAction, Begin(0, 0, CopyTimeout));
    states, steps := Extend(states, steps, InAction, Get(0, 0));
    states, steps := Extend(states, steps, InAction, Waits(0, W.Enter));
  }

  lemma FirstReadEnds() returns (states: seq<State>, steps: seq<Step>)
    ensures IsRun(states, steps, InAction) && ReadEnded(states[|steps|])
    ensures states[|steps|].copies.Keys == {0} && 0 in states[|steps|].pool
  {
    states, steps := FirstReads();
    states, steps := Extend(states, steps, InAction, ReadEnds(0, [7], None));
  }

  lemma SecondTakesTheBuffer() returns (states: seq<State>, steps: seq<Step>)
    ensures IsRun(states, steps, InAction) && ReadEnded(states[|steps|])
    ensures states[|steps|].heap[0][..1] == [9]
  {
    states, steps := FirstReadEnds();
    states, steps := Extend(states, steps, InAction, Begin(1, 1, CopyTimeout));
    states, steps := Extend(states, steps, InAction, Get(1, 0));
    states, steps := Extend(states, steps, InAction, Waits(1, W.Enter));
    states, steps := Extend(states, steps, InAction, ReadEnds(1, [9], None));
  }

  lemma FirstCopiesOut() returns (states: seq<State>, steps: seq<Step>)
    ensures IsRun(states, steps, InAction)
    ensures var s := states[|steps|];
            && HeapFits(s) && s.policy == InAction && 0 in s.copies && s.cancelAt == map[] && 7 !in s.heap
            && s.copies[0].pc.Checkout? && s.copies[0].op.Writing? && s.copies[0].flow == Flow([7], [], [9], 0, 0)
  {
    states, steps := SecondTakesTheBuffer();
    states, steps := Extend(states, steps, InAction, Waits(0, W.TakeDone));
    states, steps := Extend(states, steps, InAction, ReadReturns(0));
  }

  /** Putting the buffer back inside the action, as Write does, would not do for Read, which copies
      out of the buffer after its action: here no Read returns early and no context is cancelled, and
      still the destination receives 9 although the source produced 7. */
  lemma ReturningInActionCorrupts() returns (states: seq<State>, steps: seq<Step>)
    ensures IsRun(states, steps, InAction)
    ensures !states[|steps|].early && states[|steps|].cancelAt == map[] && 0 in states[|steps|].copies
    ensures var f := states[|steps|].copies[0].flow; f.produced == [7] && f.delivered == [9]
  {
    states, steps := FirstCopiesOut();
    states, steps := Extend(states, steps, InAction, Get(0, 7));
    states, steps := Extend(states, steps, InAction, Waits(0, W.Enter));
    states, steps := Extend(states, steps, InAction, Deliver(0, 1));
    NoCancelNoEarly(states, steps, InAction, |steps|);
  }

  /** Without a cancelled context no Read returns before its action. */
  lemma {:induction false} NoCancelNoEarly(states: seq<State>, steps: seq<Step>, policy: Policy, i: nat)
    requires IsRun(states, steps, policy) && i <= |steps| && states[i].cancelAt == map[]
    ensures !states[i].early
  {
    if i > 0 {
      InvariantAlong(states, steps, policy, i - 1);
      var s, step := states[i - 1], steps[i - 1];
      assert s.cancelAt == map[] by {
        assert s.cancelAt.Keys <= states[i].cancelAt.Keys;
      }
      NoCancelNoEarly(states, steps, policy, i - 1);
    }
  }
}
