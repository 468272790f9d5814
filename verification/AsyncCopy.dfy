/** internal/asyncio/copy.go, read.go, write.go and buffer.go together: any number of Copy calls,
    each an io.Copy loop that alternates Read and Write, share one pool of buffers. Every Read and
    Write hands a private buffer to an action that may outlive it. One step is one operation of a
    Copy, of an action, of a context, of the garbage collector, or of the clock. */
module AsyncCopy {
  import opened Options
  import W = AsyncWait

  type byte = bv8
  type Id = nat
  type Buffer = nat
  type Context = nat
  type Time = W.Time

  /** copyBufferSize; the buffer of io.Copy has the same size. */
  const Size: nat := 32 * 1024

  datatype Error = Eof | Canceled | ShortWrite | Other(code: int)

  datatype Operation = Reading | Writing

  /** Checkout: about to call bufferFromPool. Calling: inside Wait, or back from it. */
  datatype Pc = Checkout | Calling | Over(err: Option<Error>)

  /** What a Copy has moved. `produced` and `delivered` are history: the bytes that the source has
      produced for this Copy, and those that have reached its destination. `chunk` is what the last
      Read returned, `taken` how much of it the destination has taken so far. */
  datatype Flow = Flow(produced: seq<byte>, delivered: seq<byte>, chunk: seq<byte>, taken: nat, written: nat)

  /** What a Copy gets to see: how many bytes the read or the write behind an operation has moved and with
      which error, or that Wait has given up. */
  datatype Event = ReadEnded(n: nat, err: Option<Error>) | WriteEnded(n: nat, err: Option<Error>) | GaveUp

  /** One Copy. `wait` is the current call of Wait, with its action; `buffer` the private buffer of
      the current Read or Write; `n` and `err` what its action has returned; `readErr` the error
      that came with the chunk. `log` is the history of what it has seen. */
  datatype Copy = Copy(
    context: Context,
    start: Time,
    op: Operation,
    pc: Pc,
    wait: W.Call,
    buffer: Buffer,
    n: nat,
    err: Option<Error>,
    readErr: Option<Error>,
    flow: Flow,
    log: seq<Event>,
    done: bool)

  /** When Read gives its buffer back. AtReturn is what read.go does, by a deferred call. InAction is
      what write.go does for its own buffer. Handover leaves the buffer to an action that outlives
      the call. */
  datatype Policy = AtReturn | InAction | Handover

  /** `early` remembers whether some Read has returned while its action was still running. */
  datatype State = State(
    policy: Policy,
    now: Time,
    cancelAt: map<Context, Time>,
    copies: map<Id, Copy>,
    pool: set<Buffer>,
    heap: map<Buffer, seq<byte>>,
    early: bool)

  function Initial(policy: Policy, now: Time): State {
    State(policy, now, map[], map[], {}, map[], false)
  }

  function NewCopy(context: Context, now: Time, timeout: Time): Copy {
    Copy(context, now, Reading, Checkout, W.NewCall(timeout, false), 0, 0, None, None, Flow([], [], [], 0, 0), [],
         false)
  }

  datatype Step =
    | Begin(c: Id, context: Context, timeout: Time)
    | Get(c: Id, b: Buffer)
    | Waits(c: Id, step: W.Step)
    | ReadEnds(c: Id, data: seq<byte>, err: Option<Error>)
    | Scribble(c: Id, content: seq<byte>)
    | Deliver(c: Id, k: nat)
    | WriteEnds(c: Id, err: Option<Error>)
    | ReadReturns(c: Id)
    | WriteReturns(c: Id)
    | CallsDone(c: Id)
    | Cancel(context: Context)
    | Pass(d: Time)
    | Collect(b: Buffer)

  predicate Cancelled(s: State, cp: Copy) { cp.context in s.cancelAt }

  predicate Acting(cp: Copy, op: Operation) { cp.op == op && cp.wait.action.Running? }

  predicate Back(cp: Copy, op: Operation) { cp.op == op && cp.pc.Calling? && cp.wait.pc.Ret? }

  /** A Copy lets time pass when it is blocked: in a select with nothing ready, or at its end. */
  predicate Blocked(s: State, cp: Copy, d: Time) {
    match cp.pc
    case Checkout => false
    case Calling => !cp.wait.pc.Ret? && W.CanPass(cp.wait, Cancelled(s, cp), s.now, d)
    case Over(_) => cp.done
  }

  predicate Enabled(s: State, step: Step) {
    match step
    case Begin(c, _, _) => c !in s.copies
    case Get(c, b) => c in s.copies && s.copies[c].pc.Checkout? && (b in s.pool || b !in s.heap)
    case Waits(c, step) =>
      c in s.copies && s.copies[c].pc.Calling? && W.Enabled(s.copies[c].wait, step, Cancelled(s, s.copies[c]), s.now)
    case ReadEnds(c, data, _) => c in s.copies && Acting(s.copies[c], Reading) && |data| <= Size
    case Scribble(c, content) => c in s.copies && Acting(s.copies[c], Reading) && |content| == Size
    case Deliver(c, k) =>
      c in s.copies && Acting(s.copies[c], Writing) && s.copies[c].flow.taken + k <= |s.copies[c].flow.chunk|
    case WriteEnds(c, _) => c in s.copies && Acting(s.copies[c], Writing)
    case ReadReturns(c) => c in s.copies && Back(s.copies[c], Reading)
    case WriteReturns(c) => c in s.copies && Back(s.copies[c], Writing)
    case CallsDone(c) => c in s.copies && s.copies[c].pc.Over? && !s.copies[c].done
    case Cancel(context) => context !in s.cancelAt
    case Pass(d) => d > 0 && forall c :: c in s.copies ==> Blocked(s, s.copies[c], d)
    case Collect(b) => b in s.pool
  }

  // ----- the effect of a step on its Copy

  function Begun(cp: Copy, op: Operation): Copy {
    cp.(op := op, pc := Checkout, wait := W.NewCall(cp.wait.timeout, false), n := 0, err := None)
  }

  /** io.Copy after a Read that has returned (|chunk|, err). */
  function AfterRead(cp: Copy, chunk: seq<byte>, err: Option<Error>): Copy {
    var cp' := cp.(flow := cp.flow.(chunk := chunk, taken := 0), readErr := err);
    if |chunk| > 0 then Begun(cp', Writing)
    else if err.Some? then cp'.(pc := Over(if err.value.Eof? then None else err))
    else Begun(cp', Reading)
  }

  /** io.Copy after a Write that has returned (nw, err). A destination keeps to the contract of
      io.Writer, so nw is neither negative nor more than was to be written. */
  function AfterWrite(cp: Copy, nw: nat, err: Option<Error>): Copy {
    var cp' := cp.(flow := cp.flow.(written := cp.flow.written + nw));
    if err.Some? then cp'.(pc := Over(err))
    else if |cp.flow.chunk| != nw then cp'.(pc := Over(Some(ShortWrite)))
    else if cp.readErr.Some? then cp'.(pc := Over(if cp.readErr.value.Eof? then None else cp.readErr))
    else Begun(cp', Reading)
  }

  /** The pair that Read and Write return when Wait has returned false. */
  function GivesUp(cp: Copy): Copy { cp.(pc := Over(Some(Canceled))) }

  /** An action that ends after its Wait has given up is not seen any more. */
  function Seen(cp: Copy, e: Event): seq<Event> {
    if cp.pc.Calling? && cp.wait.pc != W.Ret(false) then cp.log + [e] else cp.log
  }

  /** A buffer holds the first bytes of `data`, as far as they go. */
  function Overwrite(content: seq<byte>, data: seq<byte>): seq<byte>
    requires |data| <= |content|
  {
    data + content[|data|..]
  }

  function NextCopy(s: State, step: Step): Copy
    requires Enabled(s, step) && HeapFits(s)
    requires !step.Begin? && !step.Cancel? && !step.Pass? && !step.Collect?
  {
    var cp := s.copies[step.c];
    match step
    case Get(_, b) => cp.(pc := Calling, buffer := b)
    case Waits(_, ws) =>
      var wait := W.Apply(cp.wait, ws, Cancelled(s, cp), s.now);
      cp.(wait := wait, log := if wait.pc == W.Ret(false) then cp.log + [GaveUp] else cp.log)
    case ReadEnds(_, data, err) =>
      cp.(wait := cp.wait.(action := W.Finished), n := |data|, err := err, log := Seen(cp, ReadEnded(|data|, err)),
          flow := cp.flow.(produced := cp.flow.produced + data))
    case Scribble(_, _) => cp
    case Deliver(_, k) =>
      var from := cp.flow.taken;
      cp.(flow := cp.flow.(taken := from + k, delivered := cp.flow.delivered + s.heap[cp.buffer][from..from + k]))
    case WriteEnds(_, err) =>
      cp.(wait := cp.wait.(action := W.Finished), n := cp.flow.taken, err := err,
          log := Seen(cp, WriteEnded(cp.flow.taken, err)))
    case ReadReturns(_) =>
      if cp.wait.pc.ok then AfterRead(cp, s.heap[cp.buffer][..cp.n], cp.err) else GivesUp(cp)
    case WriteReturns(_) =>
      if cp.wait.pc.ok then AfterWrite(cp, cp.n, cp.err) else GivesUp(cp)
    case CallsDone(_) => cp.(done := true)
  }

  /** What the definitions need: buffers have their size, and a Copy refers to one that exists. */
  ghost predicate HeapFits(s: State) {
    && (forall b :: b in s.heap ==> |s.heap[b]| == Size)
    && s.pool <= s.heap.Keys
    && (forall c :: c in s.copies && !s.copies[c].pc.Checkout? ==> s.copies[c].buffer in s.heap)
    && (forall c :: c in s.copies ==> CopyFits(s.copies[c]))
  }

  predicate CopyFits(cp: Copy) {
    && cp.n <= Size && |cp.flow.chunk| <= Size && cp.flow.taken <= |cp.flow.chunk|
    && (cp.pc.Checkout? ==> cp.wait == W.NewCall(cp.wait.timeout, false))
  }

  // ----- the effect on the pool and on the buffers

  /** The buffers that a step puts into the pool. */
  function Puts(s: State, step: Step): set<Buffer>
    requires Enabled(s, step)
  {
    match step
    case ReadEnds(c, _, _) =>
      if s.policy.InAction? || (s.policy.Handover? && s.copies[c].pc.Over?) then {s.copies[c].buffer} else {}
    case WriteEnds(c, _) => {s.copies[c].buffer}
    case ReadReturns(c) =>
      if s.policy.AtReturn? || (s.policy.Handover? && !s.copies[c].wait.action.Running?) then {s.copies[c].buffer}
      else {}
    case _ => {}
  }

  function NextPool(s: State, step: Step): set<Buffer>
    requires Enabled(s, step)
  {
    match step
    case Get(_, b) => s.pool - {b}
    case Collect(b) => s.pool - {b}
    case _ => s.pool + Puts(s, step)
  }

  function Zeros(): (z: seq<byte>)
    ensures |z| == Size
  {
    seq(Size, i => 0)
  }

  function NextHeap(s: State, step: Step): map<Buffer, seq<byte>>
    requires Enabled(s, step) && HeapFits(s)
  {
    match step
    case Get(c, b) =>
      var content := if b in s.heap then s.heap[b] else Zeros();
      s.heap[b := if s.copies[c].op.Writing? then Overwrite(content, s.copies[c].flow.chunk) else content]
    case ReadEnds(c, data, _) => s.heap[s.copies[c].buffer := Overwrite(s.heap[s.copies[c].buffer], data)]
    case Scribble(c, content) => s.heap[s.copies[c].buffer := content]
    case _ => s.heap
  }

  function NextCopies(s: State, step: Step): map<Id, Copy>
    requires Enabled(s, step) && HeapFits(s)
  {
    match step
    case Begin(c, context, timeout) => s.copies[c := NewCopy(context, s.now, timeout)]
    case Cancel(_) => s.copies
    case Pass(_) => s.copies
    case Collect(_) => s.copies
    case _ => s.copies[step.c := NextCopy(s, step)]
  }

  function Apply(s: State, step: Step): State
    requires Enabled(s, step) && HeapFits(s)
  {
    State(
      s.policy,
      if step.Pass? then s.now + step.d else s.now,
      if step.Cancel? then s.cancelAt[step.context := s.now] else s.cancelAt,
      NextCopies(s, step),
      NextPool(s, step),
      NextHeap(s, step),
      s.early || (step.ReadReturns? && s.copies[step.c].wait.action.Running?))
  }

  predicate Moves(step: Step) { !step.Begin? && !step.Cancel? && !step.Pass? && !step.Collect? }

  lemma CopyFitsPreserved(s: State, step: Step)
    requires HeapFits(s) && Enabled(s, step) && Moves(step)
    ensures CopyFits(NextCopy(s, step))
    ensures !NextCopy(s, step).pc.Checkout? ==> NextCopy(s, step).buffer in NextHeap(s, step)
  {
  }

  lemma HeapGrows(s: State, step: Step)
    requires HeapFits(s) && Enabled(s, step)
    ensures s.heap.Keys <= NextHeap(s, step).Keys
    ensures forall b :: b in NextHeap(s, step) ==> |NextHeap(s, step)[b]| == Size
    ensures NextPool(s, step) <= NextHeap(s, step).Keys
  {
  }

  lemma HeapFitsPreserved(s: State, step: Step)
    requires HeapFits(s) && Enabled(s, step)
    ensures HeapFits(Apply(s, step))
  {
    HeapGrows(s, step);
    if Moves(step) { CopyFitsPreserved(s, step); }
    var copies := NextCopies(s, step);
    forall c | c in copies
      ensures CopyFits(copies[c]) && (!copies[c].pc.Checkout? ==> copies[c].buffer in NextHeap(s, step))
    {
      assert c in s.copies || step.Begin?;
    }
  }
}
