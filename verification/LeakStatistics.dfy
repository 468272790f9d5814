/** logging/detector.go, the global statistics: any number of goroutines that call Finish,
    GetGlobalLeakDetectorStats and ResetGlobalLeakDetectorStats share two counters and one
    work group. One step is one atomic operation of one goroutine. */
module LeakStatistics {
  import opened Options
  import opened Counting
  import opened WorkGroup

  type Goroutine = nat

  datatype Kind = Finish | Get | Reset

  /** Where a goroutine is. A Finish call goes on as the goroutine that it spawns: its caller
      plays no further part. */
  datatype Pc =
    | FinishReadLock
    | FinishCount
    | FinishReadUnlock
    | WorkerStart
    | WorkerSelect
    | WorkerReport(ok: bool)
    | WorkerDone
    | WorkerEnd
    | AnnounceLock(kind: Kind)
    | Draining(kind: Kind)
    | Waiting(kind: Kind)
    | LoadSuccess
    | LoadFailure(success: nat)
    | StoreSuccess
    | StoreFailure
    | Unlocking(kind: Kind, s: nat, f: nat)
    | Returned(kind: Kind, s: nat, f: nat)

  /** What the select of a worker came to, and whether the worker has counted it. */
  datatype Verdict = Verdict(ok: bool, counted: bool)

  /** `registered` counts the Finish calls ever registered with the work group and `base` is its
      value when the counters were last reset; `verdicts` has those of the workers since then; `kinds` tells
      what each goroutine has called. All four are history. */
  datatype State = State(
    group: Group<Goroutine>,
    success: nat,
    failure: nat,
    pcs: map<Goroutine, Pc>,
    registered: nat,
    base: nat,
    verdicts: map<Goroutine, Verdict>,
    kinds: map<Goroutine, Kind>)

  const Initial := State(Fresh(), 0, 0, map[], 0, 0, map[], map[])

  /** Either a goroutine makes a new call, or it takes its next step; `choice` picks the branch
      of the select of Finish. */
  datatype Step = Call(t: Goroutine, kind: Kind) | Advance(t: Goroutine, choice: bool)

  predicate Finished(pc: Pc) { pc.WorkerEnd? || pc.Returned? }

  predicate Enabled(s: State, step: Step) {
    match step
    case Call(t, _) => t !in s.pcs
    case Advance(t, _) =>
      t in s.pcs &&
      match s.pcs[t]
      case FinishReadLock => CanRead(s.group)
      case FinishReadUnlock => s.group.readers > 0
      case AnnounceLock(_) => CanAnnounce(s.group)
      case Draining(_) => Drained(s.group)
      case Waiting(_) => CanWait(s.group)
      case WorkerEnd => false
      case Returned(_, _, _) => false
      case _ => true
  }

  /** Where a goroutine goes from here. */
  function NextPc(s: State, pc: Pc, choice: bool): Pc {
    match pc
    case FinishReadLock => FinishCount
    case FinishCount => FinishReadUnlock
    case FinishReadUnlock => WorkerStart
    case WorkerStart => WorkerSelect
    case WorkerSelect => WorkerReport(choice)
    case WorkerReport(_) => WorkerDone
    case WorkerDone => WorkerEnd
    case WorkerEnd => WorkerEnd
    case AnnounceLock(kind) => Draining(kind)
    case Draining(kind) => Waiting(kind)
    case Waiting(kind) => if kind == Get then LoadSuccess else StoreSuccess
    case LoadSuccess => LoadFailure(s.success)
    case LoadFailure(loaded) => Unlocking(Get, loaded, s.failure)
    case StoreSuccess => StoreFailure
    case StoreFailure => Unlocking(Reset, 0, 0)
    case Unlocking(kind, a, b) => Returned(kind, a, b)
    case Returned(kind, a, b) => pc
  }

  function NextGroup(g: Group<Goroutine>, t: Goroutine, pc: Pc): Group<Goroutine>
    requires pc.FinishReadUnlock? ==> g.readers > 0
  {
    match pc
    case FinishReadLock => ReadLock(g)
    case FinishCount => CountBy(g, 1)
    case FinishReadUnlock => ReadUnlock(g)
    case WorkerDone => CountBy(g, -1)
    case AnnounceLock(_) => Announce(g, t)
    case Unlocking(_, _, _) => WriteUnlock(g)
    case _ => g
  }

  function NextVerdicts(verdicts: map<Goroutine, Verdict>, t: Goroutine, pc: Pc, choice: bool)
      : map<Goroutine, Verdict>
  {
    match pc
    case WorkerSelect => verdicts[t := Verdict(choice, false)]
    case WorkerReport(_) => if t in verdicts then verdicts[t := verdicts[t].(counted := true)] else verdicts
    case StoreFailure => map[]
    case _ => verdicts
  }

  function Apply(s: State, step: Step): State
    requires Enabled(s, step)
  {
    match step
    case Call(t, kind) =>
      s.(pcs := s.pcs[t := if kind == Finish then FinishReadLock else AnnounceLock(kind)], kinds := s.kinds[t := kind])
    case Advance(t, choice) =>
      var pc := s.pcs[t];
      State(
        NextGroup(s.group, t, pc),
        if pc == WorkerReport(true) then s.success + 1 else if pc.StoreSuccess? then 0 else s.success,
        if pc == WorkerReport(false) then s.failure + 1 else if pc.StoreFailure? then 0 else s.failure,
        s.pcs[t := NextPc(s, pc, choice)],
        if pc.FinishCount? then s.registered + 1 else s.registered,
        if pc.StoreFailure? then s.registered else s.base,
        NextVerdicts(s.verdicts, t, pc, choice),
        s.kinds)
  }

  // ----- what holds in every reachable state

  predicate HoldsRead(pc: Pc) { pc.FinishCount? || pc.FinishReadUnlock? }

  /** Registered with the work group, Done not called yet. */
  predicate Counted(pc: Pc) {
    pc.FinishReadUnlock? || pc.WorkerStart? || pc.WorkerSelect? || pc.WorkerReport? || pc.WorkerDone?
  }

  /** Registered, but neither counter has been raised yet. */
  predicate Unreported(pc: Pc) { Counted(pc) && !pc.WorkerDone? }

  predicate HoldsWrite(pc: Pc) { pc.Draining? || Owner(pc) }

  predicate Owner(pc: Pc) { pc.Waiting? || Quiet(pc) }

  /** Past Wait and before Unlock. */
  predicate Quiet(pc: Pc) {
    pc.LoadSuccess? || pc.LoadFailure? || pc.StoreSuccess? || pc.StoreFailure? || pc.Unlocking?
  }

  ghost predicate Counters(s: State) {
    s.group.readers == Count(s.pcs, HoldsRead) && s.group.count == Count(s.pcs, Counted)
  }

  ghost predicate Locks(s: State) {
    && Counters(s)
    && OneWriter(s)
    && (forall t :: t in s.pcs && Owner(s.pcs[t]) ==> s.group.readers == 0)
    && (forall t :: t in s.pcs && Quiet(s.pcs[t]) ==> s.group.count == 0)
  }

  ghost predicate OneWriter(s: State) {
    && (forall t :: t in s.pcs ==> (HoldsWrite(s.pcs[t]) <==> s.group.writer == Some(t)))
    && (s.group.writer.Some? ==> s.group.writer.value in s.pcs)
  }

  /** A reset is half done exactly while its goroutine is between its two stores. */
  predicate HalfReset(s: State) {
    exists t :: t in s.pcs && s.pcs[t].StoreFailure?
  }

  /** Every registered Finish call is a success, a failure, or still to report. */
  ghost predicate Accounted(s: State) {
    s.success + s.failure + Count(s.pcs, Unreported) == s.registered - s.base
  }

  predicate CountedOk(v: Verdict) { v.ok && v.counted }
  predicate CountedFail(v: Verdict) { !v.ok && v.counted }

  /** Each counter has the verdicts of its kind. */
  ghost predicate Tallied(s: State) {
    s.success == Count(s.verdicts, CountedOk) && s.failure == Count(s.verdicts, CountedFail)
  }

  /** A worker past its select and before its report has its verdict; before its select it has none. */
  ghost predicate VerdictsFit(s: State) {
    && s.verdicts.Keys <= s.pcs.Keys
    && forall t :: t in s.pcs ==>
         && (s.pcs[t].WorkerReport? ==> t in s.verdicts && s.verdicts[t] == Verdict(s.pcs[t].ok, false))
         && (!s.pcs[t].WorkerReport? && !s.pcs[t].WorkerDone? && !s.pcs[t].WorkerEnd? ==> t !in s.verdicts)
         && (s.pcs[t].WorkerDone? ==> t in s.verdicts)
  }

  ghost predicate Books(s: State) {
    && (!HalfReset(s) ==> Accounted(s) && Tallied(s))
    && VerdictsFit(s)
    && (HalfReset(s) ==> s.success == 0)
    && (forall t :: t in s.pcs && s.pcs[t].LoadFailure? ==> s.pcs[t].success == s.success)
    && (forall t :: t in s.pcs && s.pcs[t].Unlocking? && s.pcs[t].kind == Get ==> Snapshot(s, s.pcs[t].s, s.pcs[t].f))
  }

  /** The pair (a, b) is what the counters hold now: a workers since the last reset found that nothing had
      leaked, b timed out, and together these are all Finish calls registered since then. */
  ghost predicate Snapshot(s: State, a: nat, b: nat) {
    && s.success == a && s.failure == b && a + b == s.registered - s.base
    && a == Count(s.verdicts, CountedOk) && b == Count(s.verdicts, CountedFail)
  }

  /** Where a goroutine can be, given its call. */
  predicate FitsKind(pc: Pc, kind: Kind) {
    match pc
    case AnnounceLock(k) => k == kind && kind != Finish
    case Draining(k) => k == kind && kind != Finish
    case Waiting(k) => k == kind && kind != Finish
    case LoadSuccess => kind == Get
    case LoadFailure(_) => kind == Get
    case StoreSuccess => kind == Reset
    case StoreFailure => kind == Reset
    case Unlocking(k, a, b) => k == kind && kind != Finish && (kind == Reset ==> a == b == 0)
    case Returned(k, a, b) => k == kind && kind != Finish && (kind == Reset ==> a == b == 0)
    case _ => kind == Finish
  }

  ghost predicate KindsFit(s: State) {
    s.pcs.Keys == s.kinds.Keys && forall t :: t in s.pcs ==> FitsKind(s.pcs[t], s.kinds[t])
  }

  lemma KindsFitPreserved(s: State, step: Step)
    requires KindsFit(s) && Enabled(s, step)
    ensures KindsFit(Apply(s, step))
  {
  }

  /** Only a worker of a Finish raises a counter, only a Reset clears one, and a Get changes none. */
  lemma WhoChangesWhat(s: State, step: Step)
    requires KindsFit(s) && Enabled(s, step)
    ensures var s' := Apply(s, step);
            && (step.Call? || s.kinds[step.t] == Get ==>
                  s'.success == s.success && s'.failure == s.failure
                  && s'.base == s.base && s'.registered == s.registered)
            && (step.Advance? && s.kinds[step.t] == Finish ==>
                  s.success <= s'.success && s.failure <= s'.failure && s'.base == s.base)
            && (step.Advance? && s.kinds[step.t] == Reset ==>
                  && (s'.success == s.success || s'.success == 0) && (s'.failure == s.failure || s'.failure == 0)
                  && s'.registered == s.registered)
  {
  }

  ghost predicate Invariant(s: State) { Locks(s) && Books(s) && KindsFit(s) }

  lemma LocksPreserved(s: State, step: Step)
    requires Locks(s) && Enabled(s, step)
    ensures Locks(Apply(s, step))
  {
    CountersPreserved(s, step);
    OneWriterPreserved(s, step);
    OwnerAlone(s, step);
    QuietStays(s, step);
  }

  lemma OneWriterPreserved(s: State, step: Step)
    requires OneWriter(s) && Enabled(s, step)
    ensures OneWriter(Apply(s, step))
  {
  }

  lemma OwnerAlone(s: State, step: Step)
    requires Locks(s) && Enabled(s, step)
    ensures var s' := Apply(s, step);
            forall t :: t in s'.pcs && Owner(s'.pcs[t]) ==> s'.group.readers == 0
  {
  }

  lemma QuietStays(s: State, step: Step)
    requires Locks(s) && Enabled(s, step)
    ensures var s' := Apply(s, step);
            forall t :: t in s'.pcs && Quiet(s'.pcs[t]) ==> s'.group.count == 0
  {
    var t := step.t;
    if t in s.pcs && HoldsRead(s.pcs[t]) { assert t in Where(s.pcs, HoldsRead); }
    if t in s.pcs && Counted(s.pcs[t]) { assert t in Where(s.pcs, Counted); }
  }

  lemma CountersPreserved(s: State, step: Step)
    requires Counters(s) && Enabled(s, step)
    ensures Counters(Apply(s, step))
  {
    var s' := Apply(s, step);
    var t := step.t;
    CountAfterUpdate(s.pcs, t, s'.pcs[t], HoldsRead);
    CountAfterUpdate(s.pcs, t, s'.pcs[t], Counted);
    assert s'.pcs == s.pcs[t := s'.pcs[t]];
  }

  lemma QuietMeansNothingPending(s: State)
    requires Locks(s) && s.group.count == 0
    ensures Count(s.pcs, Unreported) == 0
  {
    assert Where(s.pcs, Unreported) <= Where(s.pcs, Counted);
  }

  /** Between Wait and Unlock no other goroutine can move at all; new calls can only arrive. */
  lemma OthersStandStill(s: State, step: Step, q: Goroutine)
    requires Locks(s) && Enabled(s, step) && q in s.pcs && Quiet(s.pcs[q]) && q != step.t
    ensures step.Call?
  {
    assert Where(s.pcs, HoldsRead) == {} && Where(s.pcs, Counted) == {};
    assert forall u :: u in s.pcs && HoldsRead(s.pcs[u]) ==> u in Where(s.pcs, HoldsRead);
    assert forall u :: u in s.pcs && Counted(s.pcs[u]) ==> u in Where(s.pcs, Counted);
  }

  lemma BooksPreserved(s: State, step: Step)
    requires Invariant(s) && Enabled(s, step)
    ensures Books(Apply(s, step))
  {
    HalfResetAfter(s, step);
    AccountedAfter(s, step);
    TalliedAfter(s, step);
    VerdictsFitAfter(s, step);
    LoadedAfter(s, step);
  }

  lemma VerdictsFitAfter(s: State, step: Step)
    requires Invariant(s) && Enabled(s, step)
    ensures VerdictsFit(Apply(s, step))
  {
    if step.Advance? && s.pcs[step.t].StoreFailure? {
      NobodyIsCounted(s);
    }
  }

  lemma NobodyIsCounted(s: State)
    requires Locks(s) && s.group.count == 0
    ensures forall t :: t in s.pcs ==> !Counted(s.pcs[t])
  {
    assert forall t :: t in s.pcs && Counted(s.pcs[t]) ==> t in Where(s.pcs, Counted);
  }

  /** A select adds a verdict that does not count yet, a report makes it count, and nothing else but a reset
      changes the tallies. */
  lemma TalliedAfter(s: State, step: Step)
    requires Locks(s) && VerdictsFit(s) && Enabled(s, step)
    ensures var s' := Apply(s, step);
            if step.Advance? && s.pcs[step.t].StoreSuccess? then s'.verdicts == s.verdicts
            else if step.Advance? && s.pcs[step.t].StoreFailure? then s'.success == 0 ==> Tallied(s')
            else Tallied(s) ==> Tallied(s')
  {
    var s', t := Apply(s, step), step.t;
    if step.Advance? && (s.pcs[t].WorkerSelect? || s.pcs[t].WorkerReport?) {
      CountAfterUpdate(s.verdicts, t, s'.verdicts[t], CountedOk);
      CountAfterUpdate(s.verdicts, t, s'.verdicts[t], CountedFail);
    }
    var none: map<Goroutine, Verdict> := map[];
    assert Where(none, CountedOk) == {} && Where(none, CountedFail) == {};
  }

  /** A reset is half done after its first store, until its second. */
  lemma HalfResetAfter(s: State, step: Step)
    requires Locks(s) && Enabled(s, step)
    ensures HalfReset(Apply(s, step)) <==>
              if step.Advance? && s.pcs[step.t].StoreSuccess? then true
              else HalfReset(s) && !(step.Advance? && s.pcs[step.t].StoreFailure?)
  {
    var s' := Apply(s, step);
    if step.Advance? && s.pcs[step.t].StoreSuccess? {
      assert s'.pcs[step.t].StoreFailure?;
    } else if HalfReset(s) && !(step.Advance? && s.pcs[step.t].StoreFailure?) {
      var r :| r in s.pcs && s.pcs[r].StoreFailure?;
      assert s'.pcs[r].StoreFailure?;
    }
  }

  lemma AccountedAfter(s: State, step: Step)
    requires Invariant(s) && Enabled(s, step)
    ensures var s' := Apply(s, step);
            if step.Advance? && s.pcs[step.t].StoreSuccess? then s'.success == 0
            else if step.Advance? && s.pcs[step.t].StoreFailure? then Accounted(s')
            else (Accounted(s) ==> Accounted(s')) && (HalfReset(s) ==> s'.success == s.success)
  {
    var s', t := Apply(s, step), step.t;
    CountAfterUpdate(s.pcs, t, s'.pcs[t], Unreported);
    assert s'.pcs == s.pcs[t := s'.pcs[t]];
    if step.Advance? && s.pcs[t].StoreFailure? { QuietMeansNothingPending(s); }
    if HalfReset(s) {
      var r :| r in s.pcs && s.pcs[r].StoreFailure?;
      if r != t { OthersStandStill(s, step, r); }
    }
  }

  lemma LoadedAfter(s: State, step: Step)
    requires Invariant(s) && Enabled(s, step)
    ensures var s' := Apply(s, step);
            && (forall t :: t in s'.pcs && s'.pcs[t].LoadFailure? ==> s'.pcs[t].success == s'.success)
            && (forall t :: t in s'.pcs && s'.pcs[t].Unlocking? && s'.pcs[t].kind == Get ==>
                  Snapshot(s', s'.pcs[t].s, s'.pcs[t].f))
  {
    forall q | q in s.pcs && Quiet(s.pcs[q]) && q != step.t
      ensures step.Call?
    {
      OthersStandStill(s, step, q);
    }
    if step.Advance? && s.pcs[step.t].LoadFailure? {
      QuietMeansNothingPending(s);
      assert !HalfReset(s);
    }
  }

  lemma InvariantPreserved(s: State, step: Step)
    requires Invariant(s) && Enabled(s, step)
    ensures Invariant(Apply(s, step))
  {
    LocksPreserved(s, step);
    BooksPreserved(s, step);
    KindsFitPreserved(s, step);
  }

  // ----- runs

  /** States visited by a run, first to last, and the steps between them. */
  ghost predicate IsRun(states: seq<State>, steps: seq<Step>) {
    && |states| == |steps| + 1
    && forall i {:trigger steps[i]} :: 0 <= i < |steps| ==>
         Enabled(states[i], steps[i]) && states[i + 1] == Apply(states[i], steps[i])
  }

  lemma InvariantNext(states: seq<State>, steps: seq<Step>, i: nat)
    requires IsRun(states, steps) && 0 < i <= |steps| && Invariant(states[i - 1])
    ensures Invariant(states[i])
  {
    assert states[i] == Apply(states[i - 1], steps[i - 1]);
    InvariantPreserved(states[i - 1], steps[i - 1]);
  }

  lemma {:induction false} InvariantAlong(states: seq<State>, steps: seq<Step>, i: nat)
    requires IsRun(states, steps) && Invariant(states[0]) && i <= |steps|
    ensures Invariant(states[i])
  {
    if i > 0 {
      InvariantAlong(states, steps, i - 1);
      InvariantNext(states, steps, i);
    }
  }

  lemma InitialInvariant()
    ensures Invariant(Initial)
  {
    assert Where(Initial.pcs, HoldsRead) == {} && Where(Initial.pcs, Counted) == {};
    assert Where(Initial.pcs, Unreported) == {};
    assert Where(Initial.verdicts, CountedOk) == {} && Where(Initial.verdicts, CountedFail) == {};
  }

  /** Conservation, over all runs: outside the two stores of a reset, successes, failures and
      pending workers add up to the Finish calls registered since the last reset; and each counter has the
      verdicts of its kind that were reported since then. */
  lemma StatisticsConserved(states: seq<State>, steps: seq<Step>, i: nat)
    requires IsRun(states, steps) && states[0] == Initial && i <= |steps|
    ensures !HalfReset(states[i]) ==> Accounted(states[i]) && Tallied(states[i])
    ensures states[i].group.count >= 0
    ensures forall t :: t in states[i].pcs && states[i].pcs[t].WorkerDone? ==> states[i].group.count > 0
  {
    InitialInvariant();
    InvariantAlong(states, steps, i);
    var s := states[i];
    forall t | t in s.pcs && s.pcs[t].WorkerDone?
      ensures s.group.count > 0
    {
      assert t in Where(s.pcs, Counted);
    }
  }

  /** A Get call returns what it held when it was about to unlock. */
  lemma GetUnlocks(s: State, step: Step, t: Goroutine)
    requires Invariant(s) && Enabled(s, step)
    requires var s' := Apply(s, step); t in s'.pcs && s'.pcs[t].Returned? && t in s'.kinds && s'.kinds[t] == Get
    ensures t in s.pcs && t in s.kinds && s.kinds[t] == Get
    ensures var pc := Apply(s, step).pcs[t];
            if step.Advance? && step.t == t
            then Owner(s.pcs[t]) && Snapshot(s, pc.s, pc.f) && s.group.count == 0
            else s.pcs[t] == pc
  {
    KindsFitPreserved(s, step);
  }

  lemma GetUnlocksAlong(states: seq<State>, steps: seq<Step>, i: nat, t: Goroutine)
    requires IsRun(states, steps) && states[0] == Initial && i <= |steps|
    requires t in states[i].pcs && states[i].pcs[t].Returned? && t in states[i].kinds && states[i].kinds[t] == Get
    ensures i > 0 && t in states[i - 1].pcs && t in states[i - 1].kinds && states[i - 1].kinds[t] == Get
    ensures var s, pc := states[i - 1], states[i].pcs[t];
            if steps[i - 1].Advance? && steps[i - 1].t == t
            then Owner(s.pcs[t]) && Snapshot(s, pc.s, pc.f) && s.group.count == 0 && Count(s.pcs, Unreported) == 0
            else s.pcs[t] == pc
  {
    InitialInvariant();
    InvariantAlong(states, steps, i - 1);
    GetUnlocks(states[i - 1], steps[i - 1], t);
    if states[i - 1].group.count == 0 { QuietMeansNothingPending(states[i - 1]); }
  }

  /** The pair that a Get call returns was the value of both counters at one instant inside the
      call, and summed up to the calls registered since the last reset at that instant. */
  lemma {:induction false} GetReturnsSnapshot(states: seq<State>, steps: seq<Step>, i: nat, t: Goroutine)
      returns (j: nat)
    requires IsRun(states, steps) && states[0] == Initial && i <= |steps|
    requires t in states[i].pcs && states[i].pcs[t].Returned? && t in states[i].kinds && states[i].kinds[t] == Get
    ensures j < i && t in states[j].pcs && Owner(states[j].pcs[t])
    ensures Snapshot(states[j], states[i].pcs[t].s, states[i].pcs[t].f)
    ensures states[j].group.count == 0 && Count(states[j].pcs, Unreported) == 0
  {
    GetUnlocksAlong(states, steps, i, t);
    if steps[i - 1].Advance? && steps[i - 1].t == t {
      j := i - 1;
    } else {
      j := GetReturnsSnapshot(states, steps, i - 1, t);
    }
  }

  predicate PastStores(pc: Pc) { pc.Unlocking? || pc.Returned? }

  /** When a Reset has made its second store, both counters are zero, nothing is pending, and nothing is
      registered since. */
  ghost predicate Cleared(s: State) {
    s.success == 0 && s.failure == 0 && s.registered == s.base && s.group.count == 0
  }

  lemma ResetStores(s: State, step: Step, t: Goroutine)
    requires Invariant(s) && Enabled(s, step)
    requires var s' := Apply(s, step); t in s'.pcs && PastStores(s'.pcs[t]) && t in s'.kinds && s'.kinds[t] == Reset
    ensures t in s.pcs && t in s.kinds && s.kinds[t] == Reset
    ensures PastStores(s.pcs[t]) || (Cleared(Apply(s, step)) && Owner(Apply(s, step).pcs[t]))
  {
    KindsFitPreserved(s, step);
  }

  lemma ResetStoresAlong(states: seq<State>, steps: seq<Step>, i: nat, t: Goroutine)
    requires IsRun(states, steps) && states[0] == Initial && i <= |steps|
    requires t in states[i].pcs && PastStores(states[i].pcs[t]) && t in states[i].kinds && states[i].kinds[t] == Reset
    ensures i > 0 && t in states[i - 1].pcs && t in states[i - 1].kinds && states[i - 1].kinds[t] == Reset
    ensures PastStores(states[i - 1].pcs[t]) || (Cleared(states[i]) && Owner(states[i].pcs[t]))
  {
    InitialInvariant();
    InvariantAlong(states, steps, i - 1);
    ResetStores(states[i - 1], steps[i - 1], t);
  }

  /** A Reset that has returned had both counters at zero at one instant inside the call, with nothing
      pending and nothing registered since. */
  lemma {:induction false} ResetClears(states: seq<State>, steps: seq<Step>, i: nat, t: Goroutine) returns (j: nat)
    requires IsRun(states, steps) && states[0] == Initial && i <= |steps|
    requires t in states[i].pcs && PastStores(states[i].pcs[t]) && t in states[i].kinds && states[i].kinds[t] == Reset
    ensures j <= i && t in states[j].pcs && Owner(states[j].pcs[t]) && Cleared(states[j])
  {
    ResetStoresAlong(states, steps, i, t);
    if PastStores(states[i - 1].pcs[t]) {
      j := ResetClears(states, steps, i - 1, t);
    } else {
      j := i;
    }
  }

  // ----- progress

  /** A step that touches neither side of the mutex. */
  predicate NeedsNoMutex(pc: Pc) {
    pc.WorkerStart? || pc.WorkerSelect? || pc.WorkerReport? || pc.WorkerDone?
  }

  /** While a caller holds the lock and waits, it can go on itself or some worker can, and that
      worker needs no mutex for it. */
  lemma WaitingIsNotStuck(s: State, t: Goroutine) returns (u: Goroutine)
    requires Invariant(s) && t in s.pcs && s.pcs[t].Waiting?
    ensures u in s.pcs && Enabled(s, Advance(u, false)) && Enabled(s, Advance(u, true))
    ensures u == t || NeedsNoMutex(s.pcs[u])
  {
    if s.group.count == 0 {
      u := t;
    } else {
      u := WitnessOfCount(s.pcs, Counted);
      assert Where(s.pcs, HoldsRead) == {};
      assert u !in Where(s.pcs, HoldsRead);
    }
  }

  /** No deadlock: as long as some call has not finished, some goroutine can take a step. */
  lemma NoDeadlock(s: State, t: Goroutine) returns (u: Goroutine)
    requires Invariant(s) && t in s.pcs && !Finished(s.pcs[t])
    ensures u in s.pcs && Enabled(s, Advance(u, false))
  {
    u := t;
    if s.group.writer.Some? {
      u := s.group.writer.value;
      if s.pcs[u].Waiting? {
        u := WaitingIsNotStuck(s, u);
      } else if s.pcs[u].Draining? && s.group.readers > 0 {
        u := WitnessOfCount(s.pcs, HoldsRead);
      }
    }
    if u in s.pcs && HoldsRead(s.pcs[u]) { assert u in Where(s.pcs, HoldsRead); }
  }

  /** Steps that a registered or registering worker has still to take. */
  function Rank(pc: Pc): nat {
    match pc
    case FinishCount => 6
    case FinishReadUnlock => 5
    case WorkerStart => 4
    case WorkerSelect => 3
    case WorkerReport(_) => 2
    case WorkerDone => 1
    case _ => 0
  }

  function AtLeast(k: nat): Pc -> bool { pc => Rank(pc) >= k }

  /** The sum of the ranks of all goroutines, each up to k, counted level by level. */
  ghost function Levels(pcs: map<Goroutine, Pc>, k: nat): nat {
    if k == 0 then 0 else Levels(pcs, k - 1) + Count(pcs, AtLeast(k))
  }

  ghost function Work(s: State): nat { Levels(s.pcs, 6) }

  function UpTo(k: nat, rank: nat): nat { if rank < k then rank else k }

  lemma {:induction false} LevelsAfterUpdate(pcs: map<Goroutine, Pc>, t: Goroutine, pc: Pc, k: nat)
    ensures Levels(pcs[t := pc], k)
         == Levels(pcs, k) - (if t in pcs then UpTo(k, Rank(pcs[t])) else 0) + UpTo(k, Rank(pc))
  {
    if k > 0 {
      LevelsAfterUpdate(pcs, t, pc, k - 1);
      CountAfterUpdate(pcs, t, pc, AtLeast(k));
    }
  }

  lemma {:induction false} LevelsZero(pcs: map<Goroutine, Pc>, k: nat)
    requires k > 0
    ensures Levels(pcs, k) == 0 <==> Count(pcs, AtLeast(1)) == 0
  {
    if k == 1 {
      assert Levels(pcs, 0) == 0;
    } else {
      LevelsZero(pcs, k - 1);
      assert Where(pcs, AtLeast(k)) <= Where(pcs, AtLeast(1));
    }
  }

  predicate IsWork(s: State, step: Step) {
    step.Advance? && step.t in s.pcs && Rank(s.pcs[step.t]) > 0
  }

  /** While a writer has announced itself, a step of a worker lowers the work by one, and no other
      step changes it: in particular no Add can raise it. */
  lemma {:induction false} WorkUnderLock(s: State, step: Step)
    requires s.group.writer.Some? && Enabled(s, step)
    ensures Work(Apply(s, step)) == Work(s) - (if IsWork(s, step) then 1 else 0)
  {
    var s' := Apply(s, step);
    var t, pc := step.t, s'.pcs[step.t];
    assert s'.pcs == s.pcs[t := pc];
    LevelsAfterUpdate(s.pcs, t, pc, 6);
    RankAfter(s, step);
  }

  lemma RankAfter(s: State, step: Step)
    requires s.group.writer.Some? && Enabled(s, step)
    ensures Rank(Apply(s, step).pcs[step.t])
         == (if step.t in s.pcs then Rank(s.pcs[step.t]) else 0) - (if IsWork(s, step) then 1 else 0)
  {
  }

  /** At work zero the caller that holds or awaits the lock can go on; before that, some worker can. */
  lemma WorkZeroOpensWait(s: State)
    requires Invariant(s)
    ensures Work(s) == 0 <==> s.group.readers == 0 && s.group.count == 0
    ensures Work(s) > 0 ==> exists u :: u in s.pcs && Rank(s.pcs[u]) > 0 && Enabled(s, Advance(u, false))
  {
    LevelsZero(s.pcs, 6);
    assert Where(s.pcs, HoldsRead) <= Where(s.pcs, AtLeast(1));
    assert Where(s.pcs, Counted) <= Where(s.pcs, AtLeast(1));
    if Work(s) > 0 {
      var u: Goroutine;
      if s.group.readers > 0 {
        u := WitnessOfCount(s.pcs, HoldsRead);
      } else {
        u := WitnessOfCount(s.pcs, AtLeast(1));
      }
      assert u in Where(s.pcs, HoldsRead) || u in Where(s.pcs, Counted);
      assert s.group.readers == 0 ==> u !in Where(s.pcs, HoldsRead);
      assert Enabled(s, Advance(u, false));
    }
  }

  ghost function WorkSteps(states: seq<State>, steps: seq<Step>, i: nat, j: nat): nat
    requires i <= j <= |steps| && |states| == |steps| + 1
  {
    if i == j then 0
    else WorkSteps(states, steps, i, j - 1) + (if IsWork(states[j - 1], steps[j - 1]) then 1 else 0)
  }

  /** The bound over a run: from the moment a Get or Reset announces itself until it is let
      through, the workers take exactly as many steps as the work falls by. So at most
      Work(states[i]) of them, and the call is let through when that many have been taken. */
  lemma {:induction false} WaitIsBounded(states: seq<State>, steps: seq<Step>, i: nat, j: nat)
    requires IsRun(states, steps) && i <= j <= |steps|
    requires forall k :: i <= k < j ==> states[k].group.writer.Some?
    ensures WorkSteps(states, steps, i, j) + Work(states[j]) == Work(states[i])
  {
    if i < j {
      WaitIsBounded(states, steps, i, j - 1);
      var a, b, step := states[j - 1], states[j], steps[j - 1];
      assert Work(b) == Work(a) - (if IsWork(a, step) then 1 else 0) by {
        WorkUnderLock(a, step);
      }
    }
  }

  // ----- how long a Get or Reset keeps the lock

  /** Steps that a goroutine has still to take from its announcement to its unlock. */
  function LockRank(pc: Pc): nat {
    match pc
    case Draining(_) => 5
    case Waiting(_) => 4
    case LoadSuccess => 3
    case LoadFailure(_) => 2
    case StoreSuccess => 3
    case StoreFailure => 2
    case Unlocking(_, _, _) => 1
    case _ => 0
  }

  /** What is to be done until the lock is free: the work, and the steps of its holder. */
  ghost function LockWork(s: State): nat {
    Work(s) + match s.group.writer
              case Some(t) => if t in s.pcs then LockRank(s.pcs[t]) else 0
              case None => 0
  }

  /** A step of the holder, or of a worker that it waits for. */
  predicate Helps(s: State, step: Step) {
    step.Advance? && (s.group.writer == Some(step.t) || IsWork(s, step))
  }

  /** Each step of the holder or of a worker brings the end of the lock one step closer, and no other
      step puts it off; the lock is free when nothing is left to be done. */
  lemma LockWorkFalls(s: State, step: Step)
    requires Invariant(s) && s.group.writer.Some? && Enabled(s, step)
    ensures LockWork(Apply(s, step)) == LockWork(s) - (if Helps(s, step) then 1 else 0)
    ensures Apply(s, step).group.writer == s.group.writer || Apply(s, step).group.writer.None?
    ensures Apply(s, step).group.writer.None? <==> LockWork(Apply(s, step)) == 0
  {
    WorkUnderLock(s, step);
    HolderAfter(s, step);
    if Apply(s, step).group.writer.None? { WorkZeroOpensWait(s); }
  }

  lemma HolderAfter(s: State, step: Step)
    requires Locks(s) && s.group.writer.Some? && Enabled(s, step)
    ensures var t, s' := s.group.writer.value, Apply(s, step);
            && t in s.pcs && t in s'.pcs && LockRank(s.pcs[t]) > 0
            && LockRank(s'.pcs[t]) == LockRank(s.pcs[t]) - (if step.Advance? && step.t == t then 1 else 0)
            && (IsWork(s, step) ==> step.t != t)
            && s'.group.writer == (if LockRank(s'.pcs[t]) == 0 then None else s.group.writer)
            && (LockRank(s'.pcs[t]) == 0 ==> s.group.count == 0 && s.group.readers == 0)
  {
  }

  /** While the lock is wanted or held, one of those steps can be taken, on either branch of a select. */
  lemma SomebodyHelps(s: State) returns (u: Goroutine)
    requires Invariant(s) && s.group.writer.Some?
    ensures forall choice :: Enabled(s, Advance(u, choice)) && Helps(s, Advance(u, choice))
  {
    u := s.group.writer.value;
    if s.pcs[u].Waiting? {
      u := WaitingIsNotStuck(s, u);
    } else if s.pcs[u].Draining? && s.group.readers > 0 {
      u := WitnessOfCount(s.pcs, HoldsRead);
    }
  }

  ghost function HelpSteps(states: seq<State>, steps: seq<Step>, i: nat, j: nat): nat
    requires i <= j <= |steps| && |states| == |steps| + 1
  {
    if i == j then 0
    else HelpSteps(states, steps, i, j - 1) + (if Helps(states[j - 1], steps[j - 1]) then 1 else 0)
  }

  /** Over a run: from the announcement of a Get or Reset to its unlock, its own steps and those of the
      workers are as many as LockWork says at the announcement, whatever else goes on. */
  lemma {:induction false} LockIsFreed(states: seq<State>, steps: seq<Step>, i: nat, j: nat)
    requires IsRun(states, steps) && states[0] == Initial && i <= j <= |steps|
    requires forall k :: i <= k < j ==> states[k].group.writer.Some?
    ensures HelpSteps(states, steps, i, j) + LockWork(states[j]) == LockWork(states[i])
  {
    var sum := (k: nat) =>
      if i <= k <= |steps| then HelpSteps(states, steps, i, k) + LockWork(states[k]) else 0;
    forall k: nat | i <= k < j
      ensures sum(k) == sum(k + 1)
    {
      LockWorkAlong(states, steps, i, k);
    }
    Constant(sum, i, j);
  }

  lemma {:induction false} LockWorkAlong(states: seq<State>, steps: seq<Step>, i: nat, k: nat)
    requires IsRun(states, steps) && states[0] == Initial && i <= k < |steps| && states[k].group.writer.Some?
    ensures HelpSteps(states, steps, i, k + 1) + LockWork(states[k + 1])
         == HelpSteps(states, steps, i, k) + LockWork(states[k])
  {
    InitialInvariant();
    InvariantAlong(states, steps, k);
    LockWorkFalls(states[k], steps[k]);
  }

  // ----- the object

  /** One goroutine at a time. A worker that Finish has started reports and is done whenever somebody
      waits for it, with any verdict, and at the latest then. */
  class Statistics {
    var success: nat
    var failure: nat
    const workers: WorkGroupObject<Goroutine>

    constructor ()
      ensures success == 0 && failure == 0 && fresh(workers) && workers.View() == Fresh()
    {
      success, failure := 0, 0;
      workers := new WorkGroupObject();
    }

    /** Nobody holds the lock; any number of workers may be pending. */
    predicate Open()
      reads workers
    {
      workers.writer.None? && workers.readers == 0 && workers.count >= 0
    }

    /** The Finish calls registered since the last reset. */
    ghost function Registered(): int
      reads this, workers
    {
      success + failure + workers.count
    }

    method Finish()
      requires Open()
      modifies workers
      ensures Open() && Registered() == old(Registered()) + 1
      ensures workers.count == old(workers.count) + 1
    {
      var panics := workers.Add(1);
    }

    /** The goroutine of a Finish, from the verdict on. */
    method Work(ok: bool)
      requires workers.count > 0
      modifies this, workers
      ensures workers.View() == CountBy(old(workers.View()), -1)
      ensures (success, failure) == if ok then (old(success) + 1, old(failure)) else (old(success), old(failure) + 1)
      ensures Registered() == old(Registered())
    {
      if ok {
        success := success + 1;
      } else {
        failure := failure + 1;
      }
      var panics := workers.Done();
    }

    /** workers.Wait, and what goes on while it blocks: it returns when no worker is left. */
    method AwaitWorkers()
      requires workers.count >= 0
      modifies this, workers
      ensures workers.View() == old(workers.View()).(count := 0)
      ensures success + failure == old(Registered())
      ensures success >= old(success) && failure >= old(failure)
    {
      while workers.count > 0
        invariant workers.count >= 0
        invariant workers.View() == old(workers.View()).(count := workers.count)
        invariant Registered() == old(Registered())
        invariant success >= old(success) && failure >= old(failure)
        decreases workers.count
      {
        var ok: bool := *;
        Work(ok);
      }
      workers.Wait();
    }

    /** The pair adds up to every Finish call registered since the last reset, whoever was still
        pending when Get was called. */
    method GetGlobalLeakDetectorStats(me: Goroutine) returns (s: nat, f: nat)
      requires Open()
      modifies this, workers
      ensures Open() && (s, f) == (success, failure)
      ensures s + f == old(Registered()) == Registered()
    {
      workers.Lock(me);
      AwaitWorkers();
      s := success;
      f := failure;
      workers.Unlock();
    }

    method ResetGlobalLeakDetectorStats(me: Goroutine)
      requires Open()
      modifies this, workers
      ensures Open() && success == 0 && failure == 0 && Registered() == 0
    {
      workers.Lock(me);
      AwaitWorkers();
      success := 0;
      failure := 0;
      workers.Unlock();
    }
  }
}
