/** What holds in every run of the Copy calls: who owns a buffer, what reaches a destination, and
    how long a Copy can go on after its context was cancelled. */
module AsyncCopyProofs {
  import opened Options
  import opened AsyncCopy
  import opened Counting
  import W = AsyncWait

  // ----- ownership of buffers

  predicate Outlived(cp: Copy) { cp.pc.Over? && cp.wait.action.Running? }

  /** The call, or the action that was handed the buffer, still has it to itself and owes it to the
      pool, or may drop it. */
  predicate Holds(policy: Policy, cp: Copy) {
    if cp.op.Reading? then
      match policy
      case AtReturn => cp.pc.Calling?
      case InAction => (cp.pc.Calling? && !cp.wait.action.Finished?) || Outlived(cp)
      case Handover => cp.pc.Calling? || Outlived(cp)
    else (cp.pc.Calling? && !cp.wait.action.Finished?) || Outlived(cp)
  }

  /** Each checkout is given back at most once: a held buffer is neither in the pool nor held by
      anybody else. This needs no hypothesis. */
  ghost predicate Owned(policy: Policy, copies: map<Id, Copy>, pool: set<Buffer>) {
    && (forall c :: c in copies && Holds(policy, copies[c]) ==> copies[c].buffer !in pool)
    && (forall c, d :: c in copies && d in copies && c != d && Holds(policy, copies[c]) && Holds(policy, copies[d])
          ==> copies[c].buffer != copies[d].buffer)
  }

  ghost predicate WaitsCoherent(s: State) {
    forall c :: c in s.copies && s.copies[c].pc.Calling? ==> W.Coherent(s.copies[c].wait, Cancelled(s, s.copies[c]))
  }

  /** What a step of one Copy means for its buffer: it stays the same, it may be put back, by its holder only,
      and then, or later, it is not held any more. */
  ghost predicate HandsOver(policy: Policy, cp: Copy, cp': Copy, puts: set<Buffer>) {
    && cp'.buffer == cp.buffer
    && (Holds(policy, cp') ==> Holds(policy, cp) && puts == {})
    && puts <= {cp.buffer}
    && (puts != {} ==> Holds(policy, cp))
  }

  lemma HoldsAfter(s: State, step: Step)
    requires HeapFits(s) && WaitsCoherent(s) && Enabled(s, step)
    requires Moves(step) && !step.Get?
    ensures HandsOver(s.policy, s.copies[step.c], NextCopy(s, step), Puts(s, step))
  {
    if s.copies[step.c].op.Reading? { HoldsAfterRead(s, step); } else { HoldsAfterWrite(s, step); }
  }

  lemma HoldsAfterRead(s: State, step: Step)
    requires HeapFits(s) && WaitsCoherent(s) && Enabled(s, step)
    requires Moves(step) && !step.Get? && s.copies[step.c].op.Reading?
    ensures HandsOver(s.policy, s.copies[step.c], NextCopy(s, step), Puts(s, step))
  {
  }

  lemma HoldsAfterWrite(s: State, step: Step)
    requires HeapFits(s) && WaitsCoherent(s) && Enabled(s, step)
    requires Moves(step) && !step.Get? && s.copies[step.c].op.Writing?
    ensures HandsOver(s.policy, s.copies[step.c], NextCopy(s, step), Puts(s, step))
  {
  }

  lemma OwnedPreserved(s: State, step: Step)
    requires HeapFits(s) && WaitsCoherent(s) && Enabled(s, step) && Owned(s.policy, s.copies, s.pool)
    ensures Owned(s.policy, NextCopies(s, step), NextPool(s, step))
  {
    if step.Get? {
      OwnedAfterGet(s, step.c, step.b);
    } else if Moves(step) {
      HoldsAfter(s, step);
      OwnedAfterMove(s.policy, s.copies, s.pool, step.c, NextCopy(s, step), Puts(s, step));
    } else {
      OwnedAfterOther(s, step);
    }
  }

  /** A new Copy holds nothing yet. */
  lemma OwnedAfterOther(s: State, step: Step)
    requires HeapFits(s) && Enabled(s, step) && !Moves(step) && Owned(s.policy, s.copies, s.pool)
    ensures Owned(s.policy, NextCopies(s, step), NextPool(s, step))
  {
    if step.Begin? {
      assert !Holds(s.policy, NextCopies(s, step)[step.c]);
    }
  }

  lemma OwnedAfterMove(policy: Policy, copies: map<Id, Copy>, pool: set<Buffer>, c: Id, cp': Copy, puts: set<Buffer>)
    requires Owned(policy, copies, pool) && c in copies && cp'.buffer == copies[c].buffer
    requires Holds(policy, cp') ==> Holds(policy, copies[c]) && puts == {}
    requires puts <= {copies[c].buffer} && (puts != {} ==> Holds(policy, copies[c]))
    ensures Owned(policy, copies[c := cp'], pool + puts)
  {
  }

  lemma OwnedAfterGet(s: State, c: Id, b: Buffer)
    requires HeapFits(s) && Enabled(s, Get(c, b)) && Owned(s.policy, s.copies, s.pool)
    ensures Owned(s.policy, NextCopies(s, Get(c, b)), NextPool(s, Get(c, b)))
  {
    forall d | d in s.copies && d != c && Holds(s.policy, s.copies[d])
      ensures s.copies[d].buffer != b
    {
      assert !s.copies[d].pc.Checkout?;
      assert s.copies[d].buffer in s.heap;
    }
  }

  lemma WaitsCoherentPreserved(s: State, step: Step)
    requires HeapFits(s) && WaitsCoherent(s) && Enabled(s, step)
    ensures WaitsCoherent(Apply(s, step))
  {
    var s' := Apply(s, step);
    if Moves(step) { CoherentMove(s, step); }
    forall c | c in s'.copies && s'.copies[c].pc.Calling?
      ensures W.Coherent(s'.copies[c].wait, Cancelled(s', s'.copies[c]))
    {
      if !(Moves(step) && c == step.c) {
        assert s'.copies[c] == s.copies[c];
      }
    }
  }

  lemma CoherentMove(s: State, step: Step)
    requires HeapFits(s) && WaitsCoherent(s) && Enabled(s, step) && Moves(step)
    ensures var cp' := NextCopy(s, step);
            cp'.context == s.copies[step.c].context && (cp'.pc.Calling? ==> W.Coherent(cp'.wait, Cancelled(s, cp')))
  {
  }

  /** A new operation is prepared only when the action before it has finished. */
  lemma NextAfterFinished(s: State, step: Step, c: Id)
    requires HeapFits(s) && WaitsCoherent(s) && Enabled(s, step) && c in s.copies
    requires NextCopies(s, step)[c].pc.Checkout? && !s.copies[c].pc.Checkout?
    ensures s.copies[c].wait.action.Finished?
  {
  }

  /** Who may touch a buffer: its holder, and a read action that has outlived its call. */
  predicate Uses(policy: Policy, cp: Copy) { Holds(policy, cp) || Outlived(cp) }

  ghost predicate Exclusive(s: State) {
    && (forall c :: c in s.copies && Uses(s.policy, s.copies[c]) ==> s.copies[c].buffer !in s.pool)
    && (forall c, d :: c in s.copies && d in s.copies && c != d
                       && Uses(s.policy, s.copies[c]) && Uses(s.policy, s.copies[d])
          ==> s.copies[c].buffer != s.copies[d].buffer)
  }

  /** Under AtReturn, no read action has outlived its call as long as none has ever done so. */
  ghost predicate NoStrays(s: State) {
    s.policy.AtReturn? && !s.early ==> forall c :: c in s.copies && Outlived(s.copies[c]) ==> s.copies[c].op.Writing?
  }

  lemma NoStraysPreserved(s: State, step: Step)
    requires HeapFits(s) && NoStrays(s) && Enabled(s, step)
    ensures NoStrays(Apply(s, step))
  {
  }

  /** No Read has returned while its action was running; or the buffer is left to that action. */
  predicate Safe(s: State) { s.policy.Handover? || (s.policy.AtReturn? && !s.early) }

  lemma SafeMeansExclusive(s: State)
    requires Owned(s.policy, s.copies, s.pool) && NoStrays(s) && Safe(s)
    ensures Exclusive(s)
  {
    assert forall c :: c in s.copies ==> (Uses(s.policy, s.copies[c]) <==> Holds(s.policy, s.copies[c]));
  }

  // ----- the bytes

  /** The buffer's content matters to this Copy. */
  predicate Relies(cp: Copy) {
    if cp.op.Reading? then cp.pc.Calling? && cp.wait.action.Finished?
    else (cp.pc.Calling? && !cp.wait.action.Finished?) || Outlived(cp)
  }

  /** The books of one Copy. */
  ghost predicate FlowOk(cp: Copy, heap: map<Buffer, seq<byte>>)
    requires !cp.pc.Checkout? ==> cp.buffer in heap && |heap[cp.buffer]| == Size
    requires CopyFits(cp)
  {
    var f := cp.flow;
    (cp.pc == Over(None) ==> !cp.wait.action.Running? && f.delivered == f.produced && f.written == |f.delivered|) &&
    if cp.op.Reading? then
      && f.written == |f.delivered|
      && (cp.pc.Over? ==> f.delivered <= f.produced)
      && (!cp.pc.Over? && !cp.wait.action.Finished? ==> f.produced == f.delivered)
      && (cp.pc.Calling? && cp.wait.action.Finished? ==> f.produced == f.delivered + heap[cp.buffer][..cp.n])
    else
      && (f.written == |f.delivered| || f.written + f.taken == |f.delivered|)
      && f.delivered <= f.produced
      && (!cp.pc.Over? || cp.wait.action.Running? ==>
            f.produced == f.delivered + f.chunk[f.taken..] && f.written + f.taken == |f.delivered|)
      && (cp.pc.Checkout? ==> f.taken == 0)
      && (Relies(cp) ==> heap[cp.buffer][..|f.chunk|] == f.chunk)
      && (cp.pc.Calling? && cp.wait.action.NotStarted? ==> f.taken == 0)
      && (cp.pc.Calling? && cp.wait.action.Finished? ==> cp.n == f.taken)
  }

  ghost predicate Flows(s: State)
    requires HeapFits(s)
  {
    forall c :: c in s.copies ==> FlowOk(s.copies[c], s.heap)
  }

  lemma FlowKept(cp: Copy, heap: map<Buffer, seq<byte>>, heap': map<Buffer, seq<byte>>)
    requires CopyFits(cp)
    requires !cp.pc.Checkout? ==> cp.buffer in heap && |heap[cp.buffer]| == Size
    requires !cp.pc.Checkout? ==> cp.buffer in heap' && |heap'[cp.buffer]| == Size
    requires FlowOk(cp, heap) && (Relies(cp) ==> heap'[cp.buffer] == heap[cp.buffer])
    ensures FlowOk(cp, heap')
  {
  }

  /** Nobody else's step changes a buffer that a Copy relies on. */
  lemma BufferKept(s: State, step: Step, d: Id)
    requires HeapFits(s) && Exclusive(s) && Safe(s) && Enabled(s, step)
    requires d in s.copies && Relies(s.copies[d]) && (Moves(step) ==> step.c != d)
    ensures s.copies[d].buffer in s.heap && s.copies[d].buffer in NextHeap(s, step)
    ensures NextHeap(s, step)[s.copies[d].buffer] == s.heap[s.copies[d].buffer]
  {
    assert Uses(s.policy, s.copies[d]);
    if step.ReadEnds? || step.Scribble? {
      assert Uses(s.policy, s.copies[step.c]);
    }
  }

  ghost predicate Fits(cp: Copy, heap: map<Buffer, seq<byte>>) {
    CopyFits(cp) && (!cp.pc.Checkout? ==> cp.buffer in heap && |heap[cp.buffer]| == Size)
  }

  lemma FlowAfterGet(s: State, step: Step)
    requires step.Get?
    requires HeapFits(s) && WaitsCoherent(s) && Enabled(s, step) && FlowOk(s.copies[step.c], s.heap)
    requires Fits(NextCopy(s, step), NextHeap(s, step))
    ensures FlowOk(NextCopy(s, step), NextHeap(s, step))
  {
  }

  lemma FlowAfterWait(s: State, step: Step)
    requires step.Waits? || step.CallsDone? || step.Scribble?
    requires HeapFits(s) && WaitsCoherent(s) && Enabled(s, step) && FlowOk(s.copies[step.c], s.heap)
    requires Fits(NextCopy(s, step), NextHeap(s, step))
    ensures FlowOk(NextCopy(s, step), NextHeap(s, step))
  {
  }

  lemma FlowAfterReadEnds(s: State, step: Step)
    requires step.ReadEnds?
    requires HeapFits(s) && WaitsCoherent(s) && Enabled(s, step) && FlowOk(s.copies[step.c], s.heap)
    requires Fits(NextCopy(s, step), NextHeap(s, step))
    ensures FlowOk(NextCopy(s, step), NextHeap(s, step))
  {
    var cp := s.copies[step.c];
    assert Overwrite(s.heap[cp.buffer], step.data)[..|step.data|] == step.data;
  }

  lemma FlowAfterDeliver(s: State, step: Step)
    requires step.Deliver?
    requires HeapFits(s) && WaitsCoherent(s) && Enabled(s, step) && FlowOk(s.copies[step.c], s.heap)
    requires Fits(NextCopy(s, step), NextHeap(s, step))
    ensures FlowOk(NextCopy(s, step), NextHeap(s, step))
  {
    var cp := s.copies[step.c];
    TakePart(s.heap[cp.buffer], cp.flow, step.k);
  }

  lemma TakePart(content: seq<byte>, f: Flow, k: nat)
    requires f.taken + k <= |f.chunk| <= |content| && content[..|f.chunk|] == f.chunk
    requires f.produced == f.delivered + f.chunk[f.taken..]
    ensures var part := content[f.taken..f.taken + k];
            f.produced == f.delivered + part + f.chunk[f.taken + k..] && |part| == k && f.delivered + part <= f.produced
  {
    var part := content[f.taken..f.taken + k];
    forall i | 0 <= i < k
      ensures part[i] == f.chunk[f.taken + i]
    {
      assert content[..|f.chunk|][f.taken + i] == content[f.taken + i];
    }
    assert f.chunk[f.taken..] == part + f.chunk[f.taken + k..];
    assert f.delivered + (part + f.chunk[f.taken + k..]) == f.delivered + part + f.chunk[f.taken + k..];
  }

  lemma FlowAfterWriteEnds(s: State, step: Step)
    requires step.WriteEnds?
    requires HeapFits(s) && WaitsCoherent(s) && Enabled(s, step) && FlowOk(s.copies[step.c], s.heap)
    requires Fits(NextCopy(s, step), NextHeap(s, step))
    ensures FlowOk(NextCopy(s, step), NextHeap(s, step))
  {
  }

  lemma FlowAfterReadReturns(s: State, step: Step)
    requires step.ReadReturns?
    requires HeapFits(s) && WaitsCoherent(s) && Enabled(s, step) && FlowOk(s.copies[step.c], s.heap)
    requires Fits(NextCopy(s, step), NextHeap(s, step))
    ensures FlowOk(NextCopy(s, step), NextHeap(s, step))
  {
    var cp := s.copies[step.c];
    if cp.wait.pc.ok {
      var chunk := s.heap[cp.buffer][..cp.n];
      assert chunk[0..] == chunk;
      assert chunk == [] ==> cp.flow.delivered + chunk == cp.flow.delivered;
    }
  }

  lemma FlowAfterWriteReturns(s: State, step: Step)
    requires step.WriteReturns?
    requires HeapFits(s) && WaitsCoherent(s) && Enabled(s, step) && FlowOk(s.copies[step.c], s.heap)
    requires Fits(NextCopy(s, step), NextHeap(s, step))
    ensures FlowOk(NextCopy(s, step), NextHeap(s, step))
  {
    var f := s.copies[step.c].flow;
    if f.taken == |f.chunk| {
      assert f.chunk[f.taken..] == [];
      assert f.delivered + [] == f.delivered;
    }
  }

  /** A Copy's own step keeps its books. */
  lemma OwnFlow(s: State, step: Step)
    requires Moves(step)
    requires HeapFits(s) && WaitsCoherent(s) && Enabled(s, step) && FlowOk(s.copies[step.c], s.heap)
    requires Fits(NextCopy(s, step), NextHeap(s, step))
    ensures FlowOk(NextCopy(s, step), NextHeap(s, step))
  {
    match step
    case Get(_, _) => FlowAfterGet(s, step);
    case Waits(_, _) => FlowAfterWait(s, step);
    case ReadEnds(_, _, _) => FlowAfterReadEnds(s, step);
    case Scribble(_, _) => FlowAfterWait(s, step);
    case Deliver(_, _) => FlowAfterDeliver(s, step);
    case WriteEnds(_, _) => FlowAfterWriteEnds(s, step);
    case ReadReturns(_) => FlowAfterReadReturns(s, step);
    case WriteReturns(_) => FlowAfterWriteReturns(s, step);
    case CallsDone(_) => FlowAfterWait(s, step);
  }

  lemma FlowsPreserved(s: State, step: Step)
    requires HeapFits(s) && WaitsCoherent(s) && Exclusive(s) && Safe(s) && Flows(s) && Enabled(s, step)
    requires HeapFits(Apply(s, step))
    ensures Flows(Apply(s, step))
  {
    var s' := Apply(s, step);
    forall c | c in s'.copies
      ensures FlowOk(s'.copies[c], s'.heap)
    {
      if Moves(step) && c == step.c {
        OwnFlow(s, step);
      } else if c in s.copies {
        if Relies(s.copies[c]) { BufferKept(s, step, c); }
        FlowKept(s.copies[c], s.heap, s'.heap);
      }
    }
  }

  // ----- the end of a Copy

  function Last(log: seq<Event>): Event
    requires log != []
  {
    log[|log| - 1]
  }

  /** The last read, if only a write may have come after it. */
  function LastRead(log: seq<Event>): (e: Option<Event>)
    ensures e.Some? ==> e.value.ReadEnded?
  {
    if log != [] && Last(log).ReadEnded? then Some(Last(log))
    else if |log| > 1 && Last(log).WriteEnded? && log[|log| - 2].ReadEnded? then Some(log[|log| - 2])
    else None
  }

  /** Everything that was read has been taken, and without an error. */
  predicate AllTaken(log: seq<Event>)
    requires LastRead(log).Some?
  {
    (Last(log).ReadEnded? && Last(log).n == 0)
    || (Last(log).WriteEnded? && Last(log).n == LastRead(log).value.n && Last(log).err.None?)
  }

  /** What has been seen ends a Copy with this error. */
  predicate EndsWith(log: seq<Event>, err: Option<Error>) {
    && log != []
    && match Last(log)
       case GaveUp => err == Some(Canceled)
       case _ =>
         && LastRead(log).Some?
         && if Last(log).WriteEnded? && Last(log).err.Some? then err == Last(log).err
            else if Last(log).WriteEnded? && Last(log).n != LastRead(log).value.n then err == Some(ShortWrite)
            else
              AllTaken(log) && LastRead(log).value.err.Some?
              && err == if LastRead(log).value.err == Some(Eof) then None else LastRead(log).value.err
  }

  /** The log of a Copy as its place tells it. */
  ghost predicate LogFits(cp: Copy) {
    match cp.pc
    case Over(err) => EndsWith(cp.log, err)
    case Checkout => Pending(cp) && !Ended(cp.log)
    case Calling =>
      if cp.wait.pc == W.Ret(false) then cp.log != [] && Last(cp.log) == GaveUp
      else if cp.wait.action.Finished? then Answered(cp)
      else Pending(cp) && !Ended(cp.log)
  }

  ghost predicate Ended(log: seq<Event>) { exists err :: EndsWith(log, err) }

  /** The operation is still to be seen: before a write, its read was the last. */
  predicate Pending(cp: Copy) {
    cp.op.Writing? ==> cp.log != [] && Last(cp.log) == ReadEnded(|cp.flow.chunk|, cp.readErr) && cp.flow.chunk != []
  }

  /** The operation has been seen. */
  predicate Answered(cp: Copy) {
    && cp.log != []
    && if cp.op.Reading? then Last(cp.log) == ReadEnded(cp.n, cp.err)
       else |cp.log| > 1 && Last(cp.log) == WriteEnded(cp.n, cp.err)
            && cp.log[|cp.log| - 2] == ReadEnded(|cp.flow.chunk|, cp.readErr)
            && cp.flow.chunk != []
  }

  /** There is no error if and only if the last read came to the end of the source, and everything that it
      brought was taken. */
  lemma CleanEndExactly(log: seq<Event>)
    ensures EndsWith(log, None)
            <==> LastRead(log).Some? && LastRead(log).value.err == Some(Eof) && AllTaken(log)
  {
  }

  ghost predicate Logged(s: State) { forall c :: c in s.copies ==> LogFits(s.copies[c]) }

  lemma LogAfterRead(cp: Copy, chunk: seq<byte>)
    requires cp.op.Reading? && Answered(cp) && |chunk| == cp.n
    ensures LogFits(AfterRead(cp, chunk, cp.err))
  {
    var cp' := AfterRead(cp, chunk, cp.err);
    if cp'.pc.Over? { assert EndsWith(cp.log, cp'.pc.err); }
  }

  lemma LogAfterWrite(cp: Copy)
    requires cp.op.Writing? && Answered(cp)
    ensures LogFits(AfterWrite(cp, cp.n, cp.err))
  {
    var cp' := AfterWrite(cp, cp.n, cp.err);
    if cp'.pc.Over? { assert EndsWith(cp.log, cp'.pc.err); }
  }

  lemma LogMove(s: State, step: Step)
    requires HeapFits(s) && WaitsCoherent(s) && Enabled(s, step) && Moves(step) && LogFits(s.copies[step.c])
    ensures LogFits(NextCopy(s, step))
  {
    var cp := s.copies[step.c];
    match step
    case ReadReturns(_) =>
      if cp.wait.pc.ok { LogAfterRead(cp, s.heap[cp.buffer][..cp.n]); } else { GaveUpEnds(cp.log); }
    case WriteReturns(_) => if cp.wait.pc.ok { LogAfterWrite(cp); } else { GaveUpEnds(cp.log); }
    case _ =>
  }

  lemma GaveUpEnds(log: seq<Event>)
    requires log != [] && Last(log) == GaveUp
    ensures EndsWith(log, Some(Canceled))
  {
  }

  lemma LoggedPreserved(s: State, step: Step)
    requires HeapFits(s) && WaitsCoherent(s) && Enabled(s, step) && Logged(s)
    ensures Logged(Apply(s, step))
  {
    if Moves(step) { LogMove(s, step); }
  }

  // ----- time

  /** What a Copy that has not called Done is bound to, if its context was cancelled at `at`. */
  predicate InTime(cp: Copy, at: Time, now: Time) {
    && at <= now
    && (!cp.done ==> now <= W.Max(cp.start, at) + W.Max(cp.wait.timeout, 0))
    && (cp.pc.Calling? ==> W.InTime(cp.wait, cp.start, at, now))
    && (cp.pc.Calling? && cp.wait.pc.Select2? ==> cp.wait.timeout > 0)
  }

  ghost predicate Timely(s: State) {
    && Clocked(s)
    && forall c :: c in s.copies && Cancelled(s, s.copies[c]) ==>
         InTime(s.copies[c], s.cancelAt[s.copies[c].context], s.now)
  }

  ghost predicate Clocked(s: State) {
    && (forall c :: c in s.copies ==> s.copies[c].start <= s.now && (s.copies[c].done ==> s.copies[c].pc.Over?))
    && (forall x :: x in s.cancelAt ==> s.cancelAt[x] <= s.now)
  }

  lemma MoveInTime(s: State, step: Step)
    requires HeapFits(s) && WaitsCoherent(s) && Timely(s) && Enabled(s, step) && Moves(step)
    ensures var cp, cp' := s.copies[step.c], NextCopy(s, step);
            && cp'.context == cp.context && cp'.start == cp.start && cp'.wait.timeout == cp.wait.timeout
            && (cp'.done ==> cp'.pc.Over?)
            && (Cancelled(s, cp') ==> InTime(cp', s.cancelAt[cp.context], s.now))
  {
    assert s.copies[step.c].start <= s.now;
    if step.Waits? { WaitInTime(s, step); } else { OtherInTime(s, step); }
  }

  lemma WaitInTime(s: State, step: Step)
    requires HeapFits(s) && WaitsCoherent(s) && Timely(s) && Enabled(s, step) && step.Waits?
    ensures var cp, cp' := s.copies[step.c], NextCopy(s, step);
            && cp'.context == cp.context && cp'.start == cp.start && cp'.wait.timeout == cp.wait.timeout
            && cp'.done == cp.done && cp'.pc == cp.pc
            && (Cancelled(s, cp') ==> InTime(cp', s.cancelAt[cp.context], s.now))
  {
  }

  lemma OtherInTime(s: State, step: Step)
    requires HeapFits(s) && WaitsCoherent(s) && Timely(s) && Enabled(s, step) && Moves(step) && !step.Waits?
    ensures var cp, cp' := s.copies[step.c], NextCopy(s, step);
            && cp'.context == cp.context && cp'.start == cp.start && cp'.wait.timeout == cp.wait.timeout
            && (cp'.done ==> cp'.pc.Over?)
            && (Cancelled(s, cp') ==> InTime(cp', s.cancelAt[cp.context], s.now))
  {
  }

  lemma ClockedPreserved(s: State, step: Step)
    requires HeapFits(s) && WaitsCoherent(s) && Timely(s) && Enabled(s, step)
    ensures Clocked(Apply(s, step))
  {
    if Moves(step) { MoveInTime(s, step); }
  }

  lemma TimelyPreserved(s: State, step: Step)
    requires HeapFits(s) && WaitsCoherent(s) && Timely(s) && Enabled(s, step)
    ensures Timely(Apply(s, step))
  {
    ClockedPreserved(s, step);
    if Moves(step) {
      MoveInTime(s, step);
    } else if step.Pass? {
      PassInTime(s, step.d);
    } else if step.Cancel? {
      CancelInTime(s, step.context);
    }
  }

  lemma CancelInTime(s: State, x: Context)
    requires Timely(s) && WaitsCoherent(s) && Enabled(s, Cancel(x))
    ensures forall c :: c in s.copies && s.copies[c].context == x ==> InTime(s.copies[c], s.now, s.now)
  {
  }

  lemma PassInTime(s: State, d: Time)
    requires Timely(s) && Enabled(s, Pass(d))
    ensures forall c :: c in s.copies && Cancelled(s, s.copies[c]) ==>
              InTime(s.copies[c], s.cancelAt[s.copies[c].context], s.now + d)
  {
    forall c | c in s.copies && Cancelled(s, s.copies[c])
      ensures InTime(s.copies[c], s.cancelAt[s.copies[c].context], s.now + d)
    {
      assert Blocked(s, s.copies[c], d);
    }
  }

  // ----- runs

  ghost predicate Invariant(s: State) {
    && HeapFits(s) && WaitsCoherent(s)
    && Owned(s.policy, s.copies, s.pool) && NoStrays(s)
    && Timely(s) && Logged(s)
    && (Safe(s) ==> Flows(s))
  }

  lemma InvariantPreserved(s: State, step: Step)
    requires Invariant(s) && Enabled(s, step)
    ensures Invariant(Apply(s, step))
  {
    HeapFitsPreserved(s, step);
    WaitsCoherentPreserved(s, step);
    OwnedPreserved(s, step);
    NoStraysPreserved(s, step);
    TimelyPreserved(s, step);
    LoggedPreserved(s, step);
    if Safe(Apply(s, step)) {
      SafeMeansExclusive(s);
      FlowsPreserved(s, step);
    }
  }

  /** HeapFits, which the steps are defined for, holds in every state of a run by what follows. */
  ghost predicate IsRun(states: seq<State>, steps: seq<Step>, policy: Policy) {
    && |states| == |steps| + 1
    && states[0] == Initial(policy, states[0].now)
    && forall i {:trigger steps[i]} :: 0 <= i < |steps| ==>
         Enabled(states[i], steps[i]) && (HeapFits(states[i]) ==> states[i + 1] == Apply(states[i], steps[i]))
  }

  lemma {:induction false} InvariantAlong(states: seq<State>, steps: seq<Step>, policy: Policy, i: nat)
    requires IsRun(states, steps, policy) && i <= |steps|
    ensures Invariant(states[i]) && states[i].policy == policy
  {
    if i > 0 {
      InvariantAlong(states, steps, policy, i - 1);
      InvariantPreserved(states[i - 1], steps[i - 1]);
    }
  }

  /** Every checkout is given back at most once, in all runs. And as long as no Read has returned
      while its action was running, nobody can touch a buffer that is in the pool or belongs to
      somebody else. When the action keeps the buffer, no such condition is needed. */
  lemma BufferOwnership(states: seq<State>, steps: seq<Step>, policy: Policy, i: nat)
    requires IsRun(states, steps, policy) && i <= |steps|
    ensures Owned(policy, states[i].copies, states[i].pool)
    ensures Safe(states[i]) ==> Exclusive(states[i])
  {
    InvariantAlong(states, steps, policy, i);
    if Safe(states[i]) { SafeMeansExclusive(states[i]); }
  }

  lemma EarlyReturnShares(states: seq<State>, steps: seq<Step>, i: nat)
    requires IsRun(states, steps, AtReturn) && i < |steps|
    ensures states[i].early ==> states[i + 1].early
    ensures !states[i].early && states[i + 1].early ==> !Exclusive(states[i + 1])
  {
    InvariantAlong(states, steps, AtReturn, i);
    var s, step := states[i], steps[i];
    var s' := Apply(s, step);
    if !s.early && s'.early {
      assert Uses(s'.policy, s'.copies[step.c]) && s'.copies[step.c].buffer in s'.pool;
    }
  }

  /** The condition is exact for read.go: buffers have been used exclusively all along if and only if
      no Read has returned while its action was running. */
  lemma {:induction false} ExclusiveThroughout(states: seq<State>, steps: seq<Step>, i: nat)
    requires IsRun(states, steps, AtReturn) && i <= |steps|
    ensures (forall k :: 0 <= k <= i ==> Exclusive(states[k])) <==> !states[i].early
  {
    BufferOwnership(states, steps, AtReturn, i);
    InvariantAlong(states, steps, AtReturn, i);
    if i > 0 {
      ExclusiveThroughout(states, steps, i - 1);
      EarlyReturnShares(states, steps, i - 1);
    }
  }

  /** Never more than one read or write is outstanding per Copy: whenever a Copy goes on to its next
      operation, the action of the one before has finished. */
  lemma OneOutstanding(states: seq<State>, steps: seq<Step>, policy: Policy, i: nat, c: Id)
    requires IsRun(states, steps, policy) && i < |steps|
    requires c in states[i].copies && !states[i].copies[c].pc.Checkout?
    requires c in states[i + 1].copies && states[i + 1].copies[c].pc.Checkout?
    ensures states[i].copies[c].wait.action.Finished?
  {
    InvariantAlong(states, steps, policy, i);
    NextAfterFinished(states[i], steps[i], c);
  }

  /** What a Copy has put across: a prefix of what its source has produced, and at least what it
      reports as written, with at most the chunk in flight beyond that. */
  predicate DeliversPrefix(f: Flow) {
    f.delivered <= f.produced && f.written <= |f.delivered| <= f.written + |f.chunk| && |f.chunk| <= Size
  }

  /** Data integrity, for all chunkings, short writes, failures and cancellation points, in runs in
      which no Read has returned while its action was running. */
  lemma CopyDeliversPrefix(states: seq<State>, steps: seq<Step>, policy: Policy, i: nat, c: Id)
    requires IsRun(states, steps, policy) && i <= |steps| && c in states[i].copies && Safe(states[i])
    ensures var cp := states[i].copies[c];
            && DeliversPrefix(cp.flow)
            && (cp.pc == Over(None) ==>
                  cp.flow.delivered == cp.flow.produced && cp.flow.written == |cp.flow.delivered|)
  {
    InvariantAlong(states, steps, policy, i);
    assert FlowOk(states[i].copies[c], states[i].heap);
    var f := states[i].copies[c].flow;
    if !states[i].copies[c].op.Reading? && !states[i].copies[c].pc.Over? {
      assert f.delivered <= f.produced;
    }
  }

  /** When and how a Copy ends, in all runs: when Wait has given up, with ErrCanceled; when a write has
      returned an error, with that; when less was taken than given, with a short write; when all was taken
      and the read had an error, with that, but with none at the end of the source; and not before. */
  lemma CopyEndsBecause(states: seq<State>, steps: seq<Step>, policy: Policy, i: nat, c: Id)
    requires IsRun(states, steps, policy) && i <= |steps| && c in states[i].copies
    ensures var cp := states[i].copies[c];
            && (cp.pc.Over? ==> EndsWith(cp.log, cp.pc.err))
            && (cp.pc.Checkout? ==> !Ended(cp.log))
  {
    InvariantAlong(states, steps, policy, i);
    assert LogFits(states[i].copies[c]);
  }

  // ----- the clock does not get stuck

  /** A step that a Copy takes by itself: neither a read nor a write has to make progress for it. */
  predicate OwnStep(step: Step) {
    step.Get? || step.Waits? || step.ReadReturns? || step.WriteReturns? || step.CallsDone?
  }

  /** A Copy that does not let the clock go on by one has a step of its own. */
  lemma UnblockedCopyMoves(s: State, c: Id) returns (step: Step)
    requires c in s.copies && !Blocked(s, s.copies[c], 1)
    ensures OwnStep(step) && Enabled(s, step)
  {
    var cp := s.copies[c];
    match cp.pc
    case Checkout =>
      var b := FreshNumber(s.heap.Keys);
      step := Get(c, b);
    case Calling =>
      if cp.wait.pc.Ret? {
        step := if cp.op.Reading? then ReadReturns(c) else WriteReturns(c);
      } else {
        W.UrgentMeansEnabled(cp.wait, Cancelled(s, cp), s.now);
        var ws :| W.Enabled(cp.wait, ws, Cancelled(s, cp), s.now);
        step := Waits(c, ws);
      }
    case Over(_) => step := CallsDone(c);
  }

  /** In every state, the clock can go on or some Copy can move by itself. */
  lemma ClockNotStuck(s: State) returns (step: Step)
    ensures Enabled(s, step) && (OwnStep(step) || step == Pass(1))
  {
    if c :| c in s.copies && !Blocked(s, s.copies[c], 1) {
      step := UnblockedCopyMoves(s, c);
    } else {
      step := Pass(1);
    }
  }

  // ----- the deadline of the leak detector

  const MemoryLeakTimeout: Time := 1_000_000_000
  const CopyTimeout: Time := MemoryLeakTimeout / 2

  /** A cancelled Copy is through, its Done included, once its timeout has passed since the
      cancellation: only the operation in flight can block, the next one sees the context. */
  lemma CancelledCopyEnds(states: seq<State>, steps: seq<Step>, policy: Policy, i: nat, c: Id)
    requires IsRun(states, steps, policy) && i <= |steps|
    requires c in states[i].copies && Cancelled(states[i], states[i].copies[c])
    requires var s, cp := states[i], states[i].copies[c];
             s.now > W.Max(cp.start, s.cancelAt[cp.context]) + W.Max(cp.wait.timeout, 0)
    ensures states[i].copies[c].pc.Over? && states[i].copies[c].done
  {
    InvariantAlong(states, steps, policy, i);
  }

  /** A detector whose Finish ran at `finishAt` can take its timeout branch MemoryLeakTimeout later
      and not before. A CopyLeak that had begun by then, and whose context was cancelled less than
      half that time after Finish, is done before. */
  lemma CopiersBeatTheDetector(states: seq<State>, steps: seq<Step>, policy: Policy, i: nat, c: Id, finishAt: Time)
    requires IsRun(states, steps, policy) && i <= |steps|
    requires states[i].now >= finishAt + MemoryLeakTimeout
    requires c in states[i].copies && states[i].copies[c].start <= finishAt
    requires states[i].copies[c].wait.timeout == CopyTimeout
    requires Cancelled(states[i], states[i].copies[c])
    requires states[i].cancelAt[states[i].copies[c].context] < finishAt + MemoryLeakTimeout / 2
    ensures states[i].copies[c].done
  {
    CancelledCopyEnds(states, steps, policy, i, c);
  }
}
