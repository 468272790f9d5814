/** session.go: one session, any number of goroutines that call Run, the goroutines that the
    winner starts, the watcher of the context, and the detector of logging/detector.go.
    One step is one atomic operation of one goroutine. */
module Session {
  import opened Options
  import opened Counting
  import Det = LeakDetector

  /** The methods of the Process interface. */
  datatype CallName = Init | Stdout | Stderr | Stdin | Start | Wait | Cleanup

  /** Names given to the detector; a process may register goroutines of its own. */
  datatype Name =
    | CopyStdout | CopyStderr | CopyStdin
    | WinCh | CopyInput | CopyOutput
    | CtxCancel
    | OfProcess(id: nat)

  /** What the winning Run does up to its finalize: call the process, register a name, or start
      the goroutine of that name. */
  datatype Instr = Call(call: CallName) | Add(name: Name) | Spawn(name: Name)

  function StartRegular(): seq<Instr> {
    [Call(Stdout), Add(CopyStdout), Spawn(CopyStdout),
     Call(Stderr), Add(CopyStderr), Spawn(CopyStderr),
     Call(Stdin), Add(CopyStdin), Spawn(CopyStdin),
     Call(Start)]
  }

  function StartPty(): seq<Instr> {
    [Add(WinCh), Spawn(WinCh), Call(Start),
     Add(CopyInput), Spawn(CopyInput), Add(CopyOutput), Spawn(CopyOutput)]
  }

  /** Run after its compare-and-swap: start, register the watcher, wait. */
  function Program(pty: bool): seq<Instr> {
    [Call(Init)] + (if pty then StartPty() else StartRegular())
    + [Add(CtxCancel), Spawn(CtxCancel), Call(Wait)]
  }

  /** The goroutines that copy a stream. */
  function Copiers(pty: bool): set<Name> {
    if pty then {CopyInput, CopyOutput} else {CopyStdout, CopyStderr, CopyStdin}
  }

  /** Those that close a pipe, or the resize channel, before their Done. */
  predicate Closes(n: Name) { n in {CopyStdout, CopyStderr, CopyStdin, WinCh} }

  /** The text of an error that start returns for a call that failed. */
  function CallError(c: CallName, cause: string): string {
    match c
    case Init => "Failed to initialize process: " + cause
    case Stdout => "Failed to connect to STDOUT: " + cause
    case Stderr => "Failed to connect to STDERR: " + cause
    case Stdin => "Failed to connect to STDIN: " + cause
    case _ => cause
  }

  /** The same, as Run wraps it. */
  function StartError(c: CallName, cause: string): string { "Failed to start process: " + CallError(c, cause) }

  // ----- finalize

  datatype Stage = Cas | Text | Finish | Exit | Kill | Over(won: bool)

  datatype Fin = Fin(stage: Stage, status: int, err: Option<string>)

  datatype Who = Runner | Watcher

  datatype Winner = Winner(who: Who, status: int, err: Option<string>)

  datatype Effect = WriteText(text: string) | FinishDetector | ExitSession(status: int) | BeginCleanup

  // ----- the state

  datatype Caller = AtCas | Won | Lost

  /** The winner of `started`; k is its place in the program. */
  datatype Main =
    | NotStarted
    | At(k: nat)
    | InCall(k: nat)
    | InProcessAdd(k: nat, name: Name)
    | InAdd(k: nat)
    | Finalizing(k: nat, fin: Fin)
    | Done(k: nat, err: Option<string>)

  datatype Go = Running | WatcherFinalizing(fin: Fin) | Returned | Closed | InDone | Ended

  datatype Killer = NotSpawned | Spawned | InCleanup(at: nat) | Cleaned(at: nat)

  datatype Exited = Exited(code: int, err: Option<string>)

  datatype Failure = Failure(call: CallName, cause: string)

  /** The callers of Run and the one that got through. The rest is history: which call of start failed and
      why, the error that start returned for it, and what Wait of the process returned. */
  datatype Runs = Runs(
    started: bool,
    callers: map<nat, Caller>,
    main: Main,
    failed: Option<Failure>,
    startErr: Option<string>,
    waited: Option<Exited>)

  /** What finalize works on; `winner` and `effects` are history. */
  datatype Finals = Finals(
    finished: bool,
    winner: Option<Winner>,
    killer: Killer,
    effects: seq<Effect>)

  /** `program` never changes; `locked` says that somebody has announced or holds the lock of the global
      statistics, which keeps Finish waiting; `calls` is the history of calls to the process. */
  datatype State = State(
    program: seq<Instr>,
    runs: Runs,
    gos: map<Name, Go>,
    closed: set<Name>,
    ctxDone: bool,
    locked: bool,
    finals: Finals,
    det: Det.State<Name>,
    calls: seq<CallName>)

  function Initial(pty: bool): State {
    State(Program(pty), Runs(false, map[], NotStarted, None, None, None), map[], {}, false, false,
          Finals(false, None, NotSpawned, []), Det.Fresh(), [])
  }

  datatype Reply = Ok | Fails(cause: string) | Exits(exited: Exited)

  datatype Step =
    | CallRun(t: nat)
    | TryStart(t: nat)
    | BeginCall
    | ProcessAdds(id: nat)
    | ProcessAdded
    | CallReturns(reply: Reply)
    | AddName
    | StoreName
    | SpawnGo
    | RunnerFinalizes
    | RunReturns
    | BodyReturns(n: Name)
    | WatcherWakes
    | WatcherFinalizes
    | WatcherReturns
    | GoCloses(n: Name)
    | GoUncounts(n: Name)
    | GoFinds(n: Name)
    | GoDeletes(n: Name)
    | Cancel
    | KillerStarts
    | KillerReturns
    | DetectorWorks(d: Det.Step<Name>)
    | LockStatistics
    | UnlockStatistics

  predicate AtInstr(program: seq<Instr>, k: nat) { k < |program| }

  predicate InCallOf(s: State, calls: set<CallName>) {
    && s.runs.main.InCall? && AtInstr(s.program, s.runs.main.k)
    && s.program[s.runs.main.k].Call? && s.program[s.runs.main.k].call in calls
  }

  predicate GoAt(s: State, n: Name, g: Go) { n in s.gos && s.gos[n] == g }

  predicate WatcherInFinalize(gos: map<Name, Go>) { CtxCancel in gos && gos[CtxCancel].WatcherFinalizing? }

  /** Finish of the detector counts its worker with the work group, whose Add needs the read lock. */
  predicate MayFinalize(stage: Stage, locked: bool) { !stage.Over? && (stage == Finish ==> !locked) }

  predicate Enabled(s: State, step: Step) {
    var main := s.runs.main;
    match step
    case CallRun(t) => t !in s.runs.callers
    case TryStart(t) => t in s.runs.callers && s.runs.callers[t].AtCas?
    case BeginCall => main.At? && AtInstr(s.program, main.k) && s.program[main.k].Call?
    case ProcessAdds(id) => InCallOf(s, {Init, Start, Wait}) && OfProcess(id) !in s.det.phases
    case ProcessAdded => main.InProcessAdd?
    case CallReturns(reply) =>
      if reply.Exits? then InCallOf(s, {Wait}) else InCallOf(s, {Init, Stdout, Stderr, Stdin, Start})
    case AddName => main.At? && AtInstr(s.program, main.k) && s.program[main.k].Add?
    case StoreName => main.InAdd? && AtInstr(s.program, main.k) && s.program[main.k].Add?
    case SpawnGo => main.At? && AtInstr(s.program, main.k) && s.program[main.k].Spawn?
    case RunnerFinalizes => main.Finalizing? && MayFinalize(main.fin.stage, s.locked)
    case RunReturns => main.Finalizing? && main.fin.stage.Over?
    case BodyReturns(n) => n != CtxCancel && GoAt(s, n, Running)
    case WatcherWakes => GoAt(s, CtxCancel, Running) && s.ctxDone
    case WatcherFinalizes => WatcherInFinalize(s.gos) && MayFinalize(s.gos[CtxCancel].fin.stage, s.locked)
    case WatcherReturns => WatcherInFinalize(s.gos) && s.gos[CtxCancel].fin.stage.Over?
    case GoCloses(n) => GoAt(s, n, Returned)
    case GoUncounts(n) => GoAt(s, n, Closed)
    case GoFinds(n) => GoAt(s, n, InDone) && Det.In(s.det, n, Det.Uncounted)
    case GoDeletes(n) => GoAt(s, n, InDone) && Det.In(s.det, n, Det.Found)
    case Cancel => true
    case KillerStarts => s.finals.killer.Spawned?
    case KillerReturns => s.finals.killer.InCleanup?
    case DetectorWorks(d) =>
      (d.WaiterPasses? || d.WaiterCloses? || d.SelectWaiter? || d.SelectTimeout?) && Det.Ready(s.det, d)
    case LockStatistics => !s.locked
    case UnlockStatistics => s.locked
  }

  // ----- finalize, one step; `who` calls it with the arguments in `fin`

  function FinalizeFinals(f: Finals, who: Who, fin: Fin): Finals {
    match fin.stage
    case Cas => if f.finished then f else f.(finished := true, winner := Some(Winner(who, fin.status, fin.err)))
    case Text => if fin.err.Some? then f.(effects := f.effects + [WriteText(fin.err.value + "\n")]) else f
    case Finish => f.(effects := f.effects + [FinishDetector])
    case Exit => f.(effects := f.effects + [ExitSession(fin.status)])
    case Kill => f.(killer := Spawned)
    case Over(_) => f
  }

  function FinalizeStage(f: Finals, stage: Stage): Stage {
    match stage
    case Cas => if f.finished then Over(false) else Text
    case Text => Finish
    case Finish => Exit
    case Exit => Kill
    case Kill => Over(true)
    case Over(_) => stage
  }

  // ----- the effect of a step, part by part

  function NextRuns(s: State, step: Step): Runs
    requires Enabled(s, step)
  {
    var r := s.runs;
    match step
    case CallRun(t) => r.(callers := r.callers[t := AtCas])
    case TryStart(t) =>
      if r.started then r.(callers := r.callers[t := Lost])
      else r.(started := true, callers := r.callers[t := Won], main := At(0))
    case BeginCall => r.(main := InCall(r.main.k))
    case ProcessAdds(id) => r.(main := InProcessAdd(r.main.k, OfProcess(id)))
    case ProcessAdded => r.(main := InCall(r.main.k))
    case CallReturns(Ok) => r.(main := At(r.main.k + 1))
    case CallReturns(Fails(cause)) =>
      var err := Some(StartError(s.program[r.main.k].call, cause));
      r.(failed := Some(Failure(s.program[r.main.k].call, cause)), startErr := err,
         main := Finalizing(r.main.k, Fin(Cas, 255, err)))
    case CallReturns(Exits(e)) => r.(waited := Some(e), main := Finalizing(r.main.k, Fin(Cas, e.code, e.err)))
    case AddName => r.(main := InAdd(r.main.k))
    case StoreName => r.(main := At(r.main.k + 1))
    case SpawnGo => r.(main := At(r.main.k + 1))
    case RunnerFinalizes =>
      r.(main := Finalizing(r.main.k, r.main.fin.(stage := FinalizeStage(s.finals, r.main.fin.stage))))
    case RunReturns => r.(main := Done(r.main.k, r.main.fin.err))
    case _ => r
  }

  function NextGos(s: State, step: Step): map<Name, Go>
    requires Enabled(s, step)
  {
    match step
    case ProcessAdded => s.gos[s.runs.main.name := Running]
    case SpawnGo => s.gos[s.program[s.runs.main.k].name := Running]
    case BodyReturns(n) => s.gos[n := Returned]
    case WatcherWakes => s.gos[CtxCancel := WatcherFinalizing(Fin(Cas, 255, None))]
    case WatcherFinalizes =>
      var fin := s.gos[CtxCancel].fin;
      s.gos[CtxCancel := WatcherFinalizing(fin.(stage := FinalizeStage(s.finals, fin.stage)))]
    case WatcherReturns => s.gos[CtxCancel := Returned]
    case GoCloses(n) => s.gos[n := Closed]
    case GoUncounts(n) => s.gos[n := InDone]
    case GoDeletes(n) => s.gos[n := Ended]
    case _ => s.gos
  }

  /** The detector's step inside a step of the session, if there is one. */
  function DetectorStep(s: State, step: Step): Option<Det.Step<Name>>
    requires Enabled(s, step)
  {
    match step
    case ProcessAdds(id) => Some(Det.AddCount(OfProcess(id)))
    case ProcessAdded => Some(Det.AddStore(s.runs.main.name))
    case AddName => Some(Det.AddCount(s.program[s.runs.main.k].name))
    case StoreName => Some(Det.AddStore(s.program[s.runs.main.k].name))
    case RunnerFinalizes => if s.runs.main.fin.stage == Finish then Some(Det.Finish) else None
    case WatcherFinalizes => if s.gos[CtxCancel].fin.stage == Finish then Some(Det.Finish) else None
    case GoUncounts(n) => Some(Det.DoneCount(n))
    case GoFinds(n) => Some(Det.DoneLoad(n))
    case GoDeletes(n) => Some(Det.DoneDelete(n))
    case DetectorWorks(d) => Some(d)
    case _ => None
  }

  function NextFinals(s: State, step: Step): Finals
    requires Enabled(s, step)
  {
    match step
    case RunnerFinalizes => FinalizeFinals(s.finals, Runner, s.runs.main.fin)
    case WatcherFinalizes => FinalizeFinals(s.finals, Watcher, s.gos[CtxCancel].fin)
    case KillerStarts =>
      s.finals.(killer := InCleanup(|s.calls|), effects := s.finals.effects + [BeginCleanup])
    case KillerReturns => s.finals.(killer := Cleaned(s.finals.killer.at))
    case _ => s.finals
  }

  function NextCalls(s: State, step: Step): seq<CallName>
    requires Enabled(s, step)
  {
    match step
    case BeginCall => s.calls + [s.program[s.runs.main.k].call]
    case KillerStarts => s.calls + [Cleanup]
    case _ => s.calls
  }

  function Apply(s: State, step: Step): State
    requires Enabled(s, step)
  {
    State(
      s.program,
      NextRuns(s, step),
      NextGos(s, step),
      if step.GoCloses? && Closes(step.n) then s.closed + {step.n} else s.closed,
      s.ctxDone || step.Cancel?,
      step.LockStatistics? || (s.locked && !step.UnlockStatistics?),
      NextFinals(s, step),
      if DetectorStep(s, step).Some? then Det.Apply(s.det, DetectorStep(s, step).value) else s.det,
      NextCalls(s, step))
  }

  // ----- invariants

  /** How many instructions are behind the winner. */
  function Behind(main: Main): nat { if main.NotStarted? then 0 else main.k }

  /** How many instructions it has begun, counting a call that it is in or that was its last. */
  function Begun(main: Main): nat {
    if main.InCall? || main.InProcessAdd? || main.Finalizing? || main.Done? then main.k + 1 else Behind(main)
  }

  predicate InFinal(main: Main) { main.Finalizing? || main.Done? }

  /** The place in the program fits what the winner is doing there. */
  predicate Placed(program: seq<Instr>, r: Runs) {
    && (r.started <==> !r.main.NotStarted?)
    && (!r.main.NotStarted? ==> AtInstr(program, r.main.k))
    && (r.main.InAdd? ==> program[r.main.k].Add?)
    && (r.main.InCall? || r.main.InProcessAdd? || InFinal(r.main) ==> program[r.main.k].Call?)
    && (r.main.InProcessAdd? ==> r.main.name.OfProcess?)
    && (r.startErr.Some? ==> InFinal(r.main) && program[r.main.k].call != Wait)
    && (InFinal(r.main) && r.startErr.None? ==> program[r.main.k].call == Wait)
  }

  predicate WonStart(c: Caller) { c.Won? }

  ghost predicate OneStarted(r: Runs) {
    Count(r.callers, WonStart) == if r.started then 1 else 0
  }

  /** The Add of n has counted it but not yet stored it. */
  predicate Adding(program: seq<Instr>, main: Main, n: Name) {
    || (main.InAdd? && AtInstr(program, main.k) && program[main.k] == Add(n))
    || (main.InProcessAdd? && main.name == n)
  }

  /** Names and goroutines are exactly what the program has registered and started so far. */
  ghost predicate Registered(program: seq<Instr>, main: Main, gos: set<Name>, phases: set<Name>)
    requires Behind(main) <= |program|
  {
    && (forall n: Name :: !n.OfProcess? ==>
          (n in phases <==> Add(n) in program[..Behind(main)] || Adding(program, main, n)))
    && (forall n: Name :: !n.OfProcess? ==> (n in gos <==> Spawn(n) in program[..Behind(main)]))
    && (forall n: Name :: Adding(program, main, n) ==> n in phases && n !in gos)
    && (forall n: Name :: n in phases && n.OfProcess? ==> n in gos || Adding(program, main, n))
  }

  predicate Fits(g: Go, p: Det.Phase) {
    match g
    case InDone => p == Det.Uncounted || p == Det.Found
    case Ended => p == Det.Deleted
    case _ => p == Det.Stored
  }

  /** Where a goroutine is and what the detector knows of its name go together. */
  ghost predicate Tracked(program: seq<Instr>, main: Main, gos: map<Name, Go>, phases: map<Name, Det.Phase>) {
    && (forall n :: n in gos ==> n in phases && Fits(gos[n], phases[n]))
    && (forall n :: n in phases && n !in gos ==>
          phases[n] == if Adding(program, main, n) then Det.Counted else Det.Stored)
  }

  predicate PastBody(g: Go) { g.Closed? || g.InDone? || g.Ended? }

  ghost predicate Bodies(gos: map<Name, Go>, closed: set<Name>, ctxDone: bool) {
    && (forall n :: n in gos && Closes(n) && PastBody(gos[n]) ==> n in closed)
    && (CtxCancel in gos && !gos[CtxCancel].Running? ==> ctxDone)
  }

  /** Past the compare-and-swap, as its winner. */
  predicate Winning(st: Stage) { st != Cas && st != Over(false) }

  predicate WonBy(f: Finals, who: Who) { f.winner.Some? && f.winner.value.who == who }

  /** Where the runner is in its finalize, and where the watcher is in its own. */
  function RunnerStage(main: Main): Stage { if main.Finalizing? then main.fin.stage else Over(true) }

  function WatcherStage(gos: map<Name, Go>): Stage {
    if WatcherInFinalize(gos) then gos[CtxCancel].fin.stage else Over(true)
  }

  /** How far the winner of `finished` has come. */
  function Progress(main: Main, gos: map<Name, Go>, f: Finals): Stage {
    if f.winner.None? then Cas
    else if f.winner.value.who == Runner then RunnerStage(main)
    else WatcherStage(gos)
  }

  ghost predicate RunnerConsistent(main: Main, f: Finals) {
    && (WonBy(f, Runner) ==> InFinal(main))
    && (main.Finalizing? ==> (Winning(main.fin.stage) <==> WonBy(f, Runner)))
    && (main.Finalizing? && WonBy(f, Runner) ==> f.winner == Some(Winner(Runner, main.fin.status, main.fin.err)))
    && (main.Finalizing? && main.fin.stage.Over? ==> f.finished)
    && (main.Done? ==> f.finished)
  }

  ghost predicate WatcherConsistent(gos: map<Name, Go>, f: Finals) {
    && (WonBy(f, Watcher) ==>
          CtxCancel in gos && !gos[CtxCancel].Running? && f.winner == Some(Winner(Watcher, 255, None)))
    && (WatcherInFinalize(gos) ==>
          var fin := gos[CtxCancel].fin;
          && (Winning(fin.stage) <==> WonBy(f, Watcher))
          && fin.status == 255 && fin.err == None
          && (fin.stage.Over? ==> f.finished))
    && (CtxCancel in gos && !gos[CtxCancel].Running? && !gos[CtxCancel].WatcherFinalizing? ==> f.finished)
    && (forall n :: n in gos && gos[n].WatcherFinalizing? ==> n == CtxCancel)
  }

  ghost predicate OneFinalizer(main: Main, gos: map<Name, Go>, f: Finals) {
    && (f.finished <==> f.winner.Some?)
    && RunnerConsistent(main, f)
    && WatcherConsistent(gos, f)
  }

  /** What finalize has done before it reaches a stage. */
  function EffectsBefore(status: int, err: Option<string>, stage: Stage): seq<Effect> {
    var text := if err.Some? then [WriteText(err.value + "\n")] else [];
    match stage
    case Cas => []
    case Text => []
    case Finish => text
    case Exit => text + [FinishDetector]
    case Kill => text + [FinishDetector] + [ExitSession(status)]
    case Over(_) => text + [FinishDetector] + [ExitSession(status)]
  }

  predicate CleanupBegun(f: Finals) { f.killer.InCleanup? || f.killer.Cleaned? }

  /** The effects are those of one finalize up to its stage, and then Cleanup. */
  ghost predicate EffectsInOrder(f: Finals, stage: Stage) {
    && f.effects == (if f.winner.Some? then EffectsBefore(f.winner.value.status, f.winner.value.err, stage) else [])
                    + (if CleanupBegun(f) then [BeginCleanup] else [])
    && (!f.killer.NotSpawned? <==> f.winner.Some? && stage == Over(true))
  }

  predicate FinishCalled(stage: Stage) { stage == Exit || stage == Kill || stage == Over(true) }

  /** Where the arguments of a finalize come from. */
  predicate Explained(r: Runs, ctxDone: bool, w: Winner) {
    || (w.who == Runner && r.startErr.Some? && w.status == 255 && w.err == r.startErr)
    || (w.who == Runner && r.startErr.None? && r.waited == Some(Exited(w.status, w.err)))
    || (w.who == Watcher && r.startErr.None? && w.status == 255 && w.err.None? && ctxDone)
  }

  predicate Arguments(r: Runs, ctxDone: bool, f: Finals) {
    && (r.main.Finalizing? ==> Explained(r, ctxDone, Winner(Runner, r.main.fin.status, r.main.fin.err)))
    && (f.winner.Some? ==> Explained(r, ctxDone, f.winner.value))
  }

  /** What Run returns is the wrapped error of the call that failed, or what Wait of the process returned. */
  predicate Answered(r: Runs) {
    && (r.startErr == match r.failed case None => None case Some(f) => Some(StartError(f.call, f.cause)))
    && (r.main.Finalizing? ==> RunError(r, r.main.fin.err))
    && (r.main.Done? ==> RunError(r, r.main.err))
  }

  predicate RunError(r: Runs, err: Option<string>) {
    match r.failed
    case Some(f) => err == Some(StartError(f.call, f.cause))
    case None => r.waited.Some? && err == r.waited.value.err
  }

  function CallsOf(instrs: seq<Instr>): seq<CallName> {
    if instrs == [] then []
    else
      var last := instrs[|instrs| - 1];
      CallsOf(instrs[..|instrs| - 1]) + (if last.Call? then [last.call] else [])
  }

  /** The calls made by Run, with Cleanup somewhere after those of start. */
  ghost predicate CallLog(byRun: seq<CallName>, calls: seq<CallName>, killer: Killer) {
    && (killer.NotSpawned? || killer.Spawned? ==> calls == byRun)
    && (killer.InCleanup? || killer.Cleaned? ==>
          && killer.at < |calls| && calls[killer.at] == Cleanup
          && calls[..killer.at] + calls[killer.at + 1..] == byRun
          && forall j :: killer.at < j < |calls| ==> calls[j] == Wait)
  }

  /** After Finish only a process can register further names. */
  ghost predicate NamesComplete(det: Det.State<Name>) {
    det.check.NotFinished? || forall n: Name :: !n.OfProcess? && n in det.phases ==> n in det.check.before
  }

  ghost predicate Invariant(s: State) {
    && GoodProgram(s.program)
    && Placed(s.program, s.runs)
    && OneStarted(s.runs)
    && Registered(s.program, s.runs.main, s.gos.Keys, s.det.phases.Keys)
    && Tracked(s.program, s.runs.main, s.gos, s.det.phases)
    && Bodies(s.gos, s.closed, s.ctxDone)
    && OneFinalizer(s.runs.main, s.gos, s.finals)
    && EffectsInOrder(s.finals, Progress(s.runs.main, s.gos, s.finals))
    && (!s.det.check.NotFinished? <==> FinishCalled(Progress(s.runs.main, s.gos, s.finals)))
    && Arguments(s.runs, s.ctxDone, s.finals)
    && Answered(s.runs)
    && CallLog(CallsOf(s.program[..Begun(s.runs.main)]), s.calls, s.finals.killer)
    && Det.Invariant(s.det)
    && NamesComplete(s.det)
  }

  // ----- facts about the program

  /** A name is registered at one place, before its goroutine is started; Wait comes last, and only
      it comes after the start of the watcher. */
  ghost predicate GoodAt(program: seq<Instr>, k: nat)
    requires k < |program|
  {
    && (program[k].Add? ==> !program[k].name.OfProcess? && program[k] !in program[..k]
                            && Spawn(program[k].name) !in program[..k])
    && (program[k].Spawn? ==> !program[k].name.OfProcess? && program[k] !in program[..k]
                              && Add(program[k].name) in program[..k])
    && (program[k] == Call(Wait) <==> k == |program| - 1)
    && (Spawn(CtxCancel) in program[..k] <==> k == |program| - 1)
    && program[k] != Call(Cleanup)
  }

  ghost predicate GoodProgram(program: seq<Instr>) {
    |program| > 0 &&
    forall k {:trigger GoodAt(program, k)} :: 0 <= k < |program| ==> GoodAt(program, k)
  }

  lemma ProgramIsGood(pty: bool)
    ensures GoodProgram(Program(pty))
  {
    if pty {
      forall k: nat | k < |Program(true)|
        ensures GoodAt(Program(true), k)
      {
        GoodPty(k);
      }
    } else {
      forall k: nat | k < |Program(false)|
        ensures GoodAt(Program(false), k)
      {
        GoodRegular(k);
      }
    }
  }

  lemma GoodPty(k: nat)
    requires k < |Program(true)|
    ensures GoodAt(Program(true), k)
  {
    var p := Program(true);
    assert p[k].Spawn? ==> p[k - 1] == Add(p[k].name) && p[..k][k - 1] == p[k - 1];
    assert k == |p| - 1 ==> p[..k][k - 1] == Spawn(CtxCancel);
  }

  lemma GoodRegular(k: nat)
    requires k < |Program(false)|
    ensures GoodAt(Program(false), k)
  {
    var p := Program(false);
    assert p[k].Spawn? ==> p[k - 1] == Add(p[k].name) && p[..k][k - 1] == p[k - 1];
    assert k == |p| - 1 ==> p[..k][k - 1] == Spawn(CtxCancel);
  }

  /** The goroutine of this name is registered and started at this place. */
  predicate StartedAt(program: seq<Instr>, k: nat, n: Name) {
    k + 1 < |program| && program[k] == Add(n) && program[k + 1] == Spawn(n)
  }

  /** Its stream is asked for right before. */
  predicate CopiedAt(program: seq<Instr>, k: nat, c: CallName, n: Name) {
    k + 2 < |program| && program[k] == Call(c) && StartedAt(program, k + 1, n)
  }

  /** Without a pty each stream is asked for, and copied at once by the goroutine of its name, before the
      process is started. */
  lemma StreamsOfRegular()
    ensures var p := Program(false);
            && p[0] == Call(Init)
            && CopiedAt(p, 1, Stdout, CopyStdout) && CopiedAt(p, 4, Stderr, CopyStderr)
            && CopiedAt(p, 7, Stdin, CopyStdin)
            && p[10] == Call(Start) && StartedAt(p, 11, CtxCancel) && p[13..] == [Call(Wait)]
  {
    var p := Program(false);
    assert p == [Call(Init)] + StartRegular() + [Add(CtxCancel), Spawn(CtxCancel), Call(Wait)];
  }

  /** With a pty window sizes are passed on before the process is started, and its terminal is copied both
      ways after that. */
  lemma StreamsOfPty()
    ensures var p := Program(true);
            && p[0] == Call(Init) && StartedAt(p, 1, WinCh) && p[3] == Call(Start)
            && StartedAt(p, 4, CopyInput) && StartedAt(p, 6, CopyOutput)
            && StartedAt(p, 8, CtxCancel) && p[10..] == [Call(Wait)]
  {
    var p := Program(true);
    assert p == [Call(Init)] + StartPty() + [Add(CtxCancel), Spawn(CtxCancel), Call(Wait)];
  }

  lemma Take<T>(q: seq<T>, k: nat)
    requires k < |q|
    ensures q[..k + 1] == q[..k] + [q[k]]
  {
  }

  // ----- preservation

  lemma PlacedPreserved(s: State, step: Step)
    requires GoodProgram(s.program) && Placed(s.program, s.runs) && Enabled(s, step)
    ensures Placed(s.program, NextRuns(s, step))
  {
    if !s.runs.main.NotStarted? { assert GoodAt(s.program, s.runs.main.k); }
  }

  lemma OneStartedPreserved(s: State, step: Step)
    requires OneStarted(s.runs) && Enabled(s, step)
    ensures OneStarted(NextRuns(s, step))
  {
    if step.CallRun? || step.TryStart? {
      CountAfterUpdate(s.runs.callers, step.t, NextRuns(s, step).callers[step.t], WonStart);
    }
  }

  lemma BodiesPreserved(s: State, step: Step)
    requires Bodies(s.gos, s.closed, s.ctxDone) && Enabled(s, step)
    ensures var s' := Apply(s, step); Bodies(s'.gos, s'.closed, s'.ctxDone)
  {
  }

  /** Once its watcher is started, a run is at its last call: start has succeeded. */
  lemma WatcherMeansStarted(s: State)
    requires GoodProgram(s.program) && Placed(s.program, s.runs)
    requires Registered(s.program, s.runs.main, s.gos.Keys, s.det.phases.Keys) && CtxCancel in s.gos
    ensures s.runs.startErr.None? && !s.runs.main.NotStarted? && s.program[s.runs.main.k] == Call(Wait)
  {
    assert Spawn(CtxCancel) in s.program[..Behind(s.runs.main)];
    assert GoodAt(s.program, s.runs.main.k);
  }

  lemma NewGoIsNew(s: State, step: Step)
    requires Placed(s.program, s.runs) && GoodProgram(s.program)
    requires Registered(s.program, s.runs.main, s.gos.Keys, s.det.phases.Keys) && Enabled(s, step)
    ensures step.SpawnGo? ==> s.program[s.runs.main.k].name !in s.gos
  {
    if step.SpawnGo? { assert GoodAt(s.program, s.runs.main.k); }
  }

  lemma OneFinalizerPreserved(s: State, step: Step)
    requires OneFinalizer(s.runs.main, s.gos, s.finals) && Placed(s.program, s.runs) && Enabled(s, step)
    requires step.SpawnGo? ==> s.program[s.runs.main.k].name !in s.gos
    ensures OneFinalizer(NextRuns(s, step).main, NextGos(s, step), NextFinals(s, step))
  {
    RunnerPreserved(s, step);
    WatcherPreserved(s, step);
  }

  lemma RunnerPreserved(s: State, step: Step)
    requires OneFinalizer(s.runs.main, s.gos, s.finals) && Placed(s.program, s.runs) && Enabled(s, step)
    ensures RunnerConsistent(NextRuns(s, step).main, NextFinals(s, step))
    ensures NextFinals(s, step).finished <==> NextFinals(s, step).winner.Some?
  {
  }

  lemma WatcherPreserved(s: State, step: Step)
    requires OneFinalizer(s.runs.main, s.gos, s.finals) && Placed(s.program, s.runs) && Enabled(s, step)
    requires step.SpawnGo? ==> s.program[s.runs.main.k].name !in s.gos
    ensures WatcherConsistent(NextGos(s, step), NextFinals(s, step))
  {
  }

  lemma ArgumentsPreserved(s: State, step: Step)
    requires Arguments(s.runs, s.ctxDone, s.finals) && Enabled(s, step)
    requires OneFinalizer(s.runs.main, s.gos, s.finals) && Placed(s.program, s.runs) && GoodProgram(s.program)
    requires Registered(s.program, s.runs.main, s.gos.Keys, s.det.phases.Keys) && Bodies(s.gos, s.closed, s.ctxDone)
    ensures Arguments(NextRuns(s, step), s.ctxDone || step.Cancel?, NextFinals(s, step))
  {
    if CtxCancel in s.gos { WatcherMeansStarted(s); }
    RunnerArguments(s, step);
    WinnerArguments(s, step);
  }

  lemma AnsweredPreserved(s: State, step: Step)
    requires Answered(s.runs) && Placed(s.program, s.runs) && Enabled(s, step)
    ensures Answered(NextRuns(s, step))
  {
  }

  lemma RunnerArguments(s: State, step: Step)
    requires Arguments(s.runs, s.ctxDone, s.finals) && Enabled(s, step) && Placed(s.program, s.runs)
    ensures var r := NextRuns(s, step);
            r.main.Finalizing? ==>
              Explained(r, s.ctxDone || step.Cancel?, Winner(Runner, r.main.fin.status, r.main.fin.err))
  {
  }

  lemma WinnerArguments(s: State, step: Step)
    requires Arguments(s.runs, s.ctxDone, s.finals) && Enabled(s, step) && Placed(s.program, s.runs)
    requires OneFinalizer(s.runs.main, s.gos, s.finals) && Bodies(s.gos, s.closed, s.ctxDone)
    requires CtxCancel in s.gos ==>
               s.runs.startErr.None? && !s.runs.main.NotStarted? && s.program[s.runs.main.k] == Call(Wait)
    ensures var f := NextFinals(s, step);
            f.winner.Some? ==> Explained(NextRuns(s, step), s.ctxDone || step.Cancel?, f.winner.value)
  {
  }

  /** Steps that move the finalizer on; the others leave its progress alone. */
  predicate Finalizes(step: Step) { step.RunnerFinalizes? || step.WatcherFinalizes? }

  lemma ProgressKept(s: State, step: Step)
    requires OneFinalizer(s.runs.main, s.gos, s.finals) && Placed(s.program, s.runs) && Enabled(s, step)
    requires step.SpawnGo? ==> s.program[s.runs.main.k].name !in s.gos
    requires !Finalizes(step)
    ensures Progress(NextRuns(s, step).main, NextGos(s, step), NextFinals(s, step))
         == Progress(s.runs.main, s.gos, s.finals)
    ensures NextFinals(s, step).winner == s.finals.winner && NextFinals(s, step).finished == s.finals.finished
  {
    RunnerStageKept(s, step);
    WatcherStageKept(s, step);
  }

  lemma RunnerStageKept(s: State, step: Step)
    requires OneFinalizer(s.runs.main, s.gos, s.finals) && Placed(s.program, s.runs)
    requires Enabled(s, step) && !Finalizes(step)
    ensures WonBy(s.finals, Runner) ==> RunnerStage(NextRuns(s, step).main) == RunnerStage(s.runs.main)
  {
  }

  lemma WatcherStageKept(s: State, step: Step)
    requires OneFinalizer(s.runs.main, s.gos, s.finals) && Placed(s.program, s.runs)
    requires Enabled(s, step) && !Finalizes(step)
    requires step.SpawnGo? ==> s.program[s.runs.main.k].name !in s.gos
    ensures WonBy(s.finals, Watcher) ==> WatcherStage(NextGos(s, step)) == WatcherStage(s.gos)
  {
  }

  /** A finalize that is not the winner's moves on without any effect; the winner's does what its
      stage says. */
  lemma RunnerProgresses(s: State)
    requires OneFinalizer(s.runs.main, s.gos, s.finals) && Enabled(s, RunnerFinalizes)
    ensures var fin, f' := s.runs.main.fin, NextFinals(s, RunnerFinalizes);
            var now, after := Progress(s.runs.main, s.gos, s.finals),
                              Progress(NextRuns(s, RunnerFinalizes).main, s.gos, f');
            if fin.stage == Cas && s.finals.finished then f' == s.finals && after == now
            else now == fin.stage && after == FinalizeStage(s.finals, fin.stage)
                 && f'.winner == Some(Winner(Runner, fin.status, fin.err))
  {
  }

  lemma WatcherProgresses(s: State)
    requires OneFinalizer(s.runs.main, s.gos, s.finals) && Enabled(s, WatcherFinalizes)
    ensures var fin, f' := s.gos[CtxCancel].fin, NextFinals(s, WatcherFinalizes);
            var now, after := Progress(s.runs.main, s.gos, s.finals),
                              Progress(s.runs.main, NextGos(s, WatcherFinalizes), f');
            if fin.stage == Cas && s.finals.finished then f' == s.finals && after == now
            else now == fin.stage && after == FinalizeStage(s.finals, fin.stage)
                 && f'.winner == Some(Winner(Watcher, fin.status, fin.err))
  {
  }

  lemma EffectsOfStage(f: Finals, who: Who, fin: Fin)
    requires EffectsInOrder(f, fin.stage) && !fin.stage.Over? && (fin.stage == Cas <==> !f.finished)
    requires f.finished ==> f.winner == Some(Winner(who, fin.status, fin.err))
    requires !f.finished ==> f.winner.None?
    ensures EffectsInOrder(FinalizeFinals(f, who, fin), FinalizeStage(f, fin.stage))
  {
  }

  lemma EffectsPreserved(s: State, step: Step)
    requires OneFinalizer(s.runs.main, s.gos, s.finals) && Placed(s.program, s.runs) && Enabled(s, step)
    requires EffectsInOrder(s.finals, Progress(s.runs.main, s.gos, s.finals))
    requires step.SpawnGo? ==> s.program[s.runs.main.k].name !in s.gos
    ensures EffectsInOrder(NextFinals(s, step), Progress(NextRuns(s, step).main, NextGos(s, step), NextFinals(s, step)))
  {
    if step.RunnerFinalizes? {
      var fin := s.runs.main.fin;
      RunnerProgresses(s);
      if !(fin.stage == Cas && s.finals.finished) { EffectsOfStage(s.finals, Runner, fin); }
    } else if step.WatcherFinalizes? {
      var fin := s.gos[CtxCancel].fin;
      WatcherProgresses(s);
      if !(fin.stage == Cas && s.finals.finished) { EffectsOfStage(s.finals, Watcher, fin); }
    } else {
      ProgressKept(s, step);
      EffectsKept(s, step, Progress(s.runs.main, s.gos, s.finals));
    }
  }

  lemma EffectsKept(s: State, step: Step, stage: Stage)
    requires Enabled(s, step) && !Finalizes(step) && EffectsInOrder(s.finals, stage)
    ensures EffectsInOrder(NextFinals(s, step), stage)
  {
  }

  lemma FinishPreserved(s: State, step: Step)
    requires OneFinalizer(s.runs.main, s.gos, s.finals) && Placed(s.program, s.runs) && Enabled(s, step)
    requires !s.det.check.NotFinished? <==> FinishCalled(Progress(s.runs.main, s.gos, s.finals))
    requires step.SpawnGo? ==> s.program[s.runs.main.k].name !in s.gos
    ensures !Apply(s, step).det.check.NotFinished?
            <==> FinishCalled(Progress(NextRuns(s, step).main, NextGos(s, step), NextFinals(s, step)))
  {
    FinishOnce(s, step);
    if step.RunnerFinalizes? {
      RunnerProgresses(s);
    } else if step.WatcherFinalizes? {
      WatcherProgresses(s);
    } else {
      ProgressKept(s, step);
    }
  }

  lemma FinishOnce(s: State, step: Step)
    requires Enabled(s, step)
    ensures !Apply(s, step).det.check.NotFinished?
            <==> !s.det.check.NotFinished?
                 || (step.RunnerFinalizes? && s.runs.main.fin.stage == Finish)
                 || (step.WatcherFinalizes? && s.gos[CtxCancel].fin.stage == Finish)
  {
  }

  /** Steps after which more is registered or started, or the winner is further on. */
  predicate Grows(step: Step) {
    step.TryStart? || step.ProcessAdds? || step.ProcessAdded? || step.CallReturns?
    || step.AddName? || step.StoreName? || step.SpawnGo?
  }

  lemma NamesKept(s: State, step: Step)
    requires Placed(s.program, s.runs) && Enabled(s, step)
    requires forall n :: n in s.gos ==> n in s.det.phases
    requires !Grows(step)
    ensures NextGos(s, step).Keys == s.gos.Keys
    ensures Apply(s, step).det.phases.Keys == s.det.phases.Keys
    ensures Behind(NextRuns(s, step).main) == Behind(s.runs.main)
    ensures NextRuns(s, step).main == s.runs.main || !(InSomeAdd(s.runs.main) || InSomeAdd(NextRuns(s, step).main))
  {
    GosKept(s, step);
    PhasesKept(s, step);
    PlaceKept(s, step);
  }

  predicate InSomeAdd(main: Main) { main.InAdd? || main.InProcessAdd? }

  lemma GosKept(s: State, step: Step)
    requires Enabled(s, step) && !Grows(step)
    ensures NextGos(s, step).Keys == s.gos.Keys
  {
  }

  lemma PhasesKept(s: State, step: Step)
    requires Enabled(s, step) && !Grows(step)
    requires forall n :: n in s.gos ==> n in s.det.phases
    ensures Apply(s, step).det.phases.Keys == s.det.phases.Keys
  {
  }

  lemma PlaceKept(s: State, step: Step)
    requires Enabled(s, step) && !Grows(step)
    ensures Behind(NextRuns(s, step).main) == Behind(s.runs.main)
    ensures NextRuns(s, step).main == s.runs.main || !(InSomeAdd(s.runs.main) || InSomeAdd(NextRuns(s, step).main))
  {
  }

  lemma CallPassed(program: seq<Instr>, k: nat, gos: set<Name>, names: set<Name>)
    requires k < |program| && program[k].Call? && Registered(program, InCall(k), gos, names)
    ensures Registered(program, At(k + 1), gos, names)
  {
    Take(program, k);
  }

  lemma AddBegun(program: seq<Instr>, k: nat, gos: set<Name>, names: set<Name>)
    requires k < |program| && program[k].Add? && GoodAt(program, k) && Registered(program, At(k), gos, names)
    ensures Registered(program, InAdd(k), gos, names + {program[k].name})
  {
  }

  lemma AddPassed(program: seq<Instr>, k: nat, gos: set<Name>, names: set<Name>)
    requires k < |program| && program[k].Add? && GoodAt(program, k) && Registered(program, InAdd(k), gos, names)
    ensures Registered(program, At(k + 1), gos, names)
  {
    Take(program, k);
    assert forall n :: Adding(program, InAdd(k), n) <==> program[k] == Add(n);
  }

  lemma SpawnPassed(program: seq<Instr>, k: nat, gos: set<Name>, names: set<Name>)
    requires k < |program| && program[k].Spawn? && GoodAt(program, k) && Registered(program, At(k), gos, names)
    ensures Registered(program, At(k + 1), gos + {program[k].name}, names)
  {
    Take(program, k);
  }

  lemma ProcessAddBegun(program: seq<Instr>, k: nat, gos: set<Name>, names: set<Name>, id: nat)
    requires k < |program| && Registered(program, InCall(k), gos, names) && OfProcess(id) !in names && gos <= names
    ensures Registered(program, InProcessAdd(k, OfProcess(id)), gos, names + {OfProcess(id)})
  {
  }

  lemma ProcessAddPassed(program: seq<Instr>, k: nat, gos: set<Name>, names: set<Name>, n: Name)
    requires k < |program| && Registered(program, InProcessAdd(k, n), gos, names) && n.OfProcess?
    ensures Registered(program, InCall(k), gos + {n}, names)
  {
  }

  /** The names and goroutines after a step that adds to them. */
  lemma NamesGrow(s: State, step: Step)
    requires Placed(s.program, s.runs) && Enabled(s, step) && Grows(step)
    ensures NextGos(s, step).Keys ==
            match step
            case ProcessAdded => s.gos.Keys + {s.runs.main.name}
            case SpawnGo => s.gos.Keys + {s.program[s.runs.main.k].name}
            case _ => s.gos.Keys
    ensures Apply(s, step).det.phases.Keys ==
            match step
            case ProcessAdds(id) => s.det.phases.Keys + {OfProcess(id)}
            case ProcessAdded => s.det.phases.Keys + {s.runs.main.name}
            case AddName => s.det.phases.Keys + {s.program[s.runs.main.k].name}
            case StoreName => s.det.phases.Keys + {s.program[s.runs.main.k].name}
            case _ => s.det.phases.Keys
  {
  }

  lemma RegisteredPreserved(s: State, step: Step)
    requires GoodProgram(s.program) && Placed(s.program, s.runs) && Enabled(s, step)
    requires Registered(s.program, s.runs.main, s.gos.Keys, s.det.phases.Keys)
    requires forall n :: n in s.gos ==> n in s.det.phases
    ensures Behind(NextRuns(s, step).main) <= |s.program|
    ensures Registered(s.program, NextRuns(s, step).main, NextGos(s, step).Keys, Apply(s, step).det.phases.Keys)
  {
    if !Grows(step) {
      NamesKept(s, step);
    } else {
      NamesGrow(s, step);
      if step.AddName? || step.StoreName? || step.SpawnGo? {
        RunnerRegisters(s, step);
      } else if step.CallReturns? {
        CallRegisters(s, step);
      } else if !step.TryStart? {
        ProcessRegisters(s, step);
      }
    }
  }

  lemma ProcessRegisters(s: State, step: Step)
    requires Placed(s.program, s.runs) && Enabled(s, step)
    requires Registered(s.program, s.runs.main, s.gos.Keys, s.det.phases.Keys) && s.gos.Keys <= s.det.phases.Keys
    requires step.ProcessAdds? || step.ProcessAdded?
    ensures Registered(s.program, NextRuns(s, step).main, NextGos(s, step).Keys, Apply(s, step).det.phases.Keys)
  {
    var k, gos, names := s.runs.main.k, s.gos.Keys, s.det.phases.Keys;
    NamesGrow(s, step);
    if step.ProcessAdds? {
      ProcessAddBegun(s.program, k, gos, names, step.id);
    } else {
      ProcessAddPassed(s.program, k, gos, names, s.runs.main.name);
      assert Adding(s.program, s.runs.main, s.runs.main.name) && names + {s.runs.main.name} == names;
    }
  }

  lemma CallRegisters(s: State, step: Step)
    requires Placed(s.program, s.runs) && GoodProgram(s.program) && Enabled(s, step) && step.CallReturns?
    requires Registered(s.program, s.runs.main, s.gos.Keys, s.det.phases.Keys)
    ensures Behind(NextRuns(s, step).main) <= |s.program|
    ensures Registered(s.program, NextRuns(s, step).main, NextGos(s, step).Keys, Apply(s, step).det.phases.Keys)
  {
    NamesGrow(s, step);
    CallPassed(s.program, s.runs.main.k, s.gos.Keys, s.det.phases.Keys);
  }

  ghost predicate RegisteredIn(s: State) {
    Behind(s.runs.main) <= |s.program| && Registered(s.program, s.runs.main, s.gos.Keys, s.det.phases.Keys)
  }

  lemma RunnerRegisters(s: State, step: Step)
    requires GoodProgram(s.program) && Placed(s.program, s.runs) && Enabled(s, step)
    requires Registered(s.program, s.runs.main, s.gos.Keys, s.det.phases.Keys)
    requires step.AddName? || step.StoreName? || step.SpawnGo?
    ensures RegisteredIn(Apply(s, step))
  {
    assert GoodAt(s.program, s.runs.main.k);
    match step
    case AddName => AddRegisters(s);
    case StoreName => StoreRegisters(s);
    case SpawnGo => SpawnRegisters(s);
  }

  lemma AddRegisters(s: State)
    requires Placed(s.program, s.runs) && Enabled(s, AddName) && GoodAt(s.program, s.runs.main.k)
    requires Registered(s.program, s.runs.main, s.gos.Keys, s.det.phases.Keys)
    ensures RegisteredIn(Apply(s, AddName))
  {
    var k := s.runs.main.k;
    AddBegun(s.program, k, s.gos.Keys, s.det.phases.Keys);
    assert Apply(s, AddName).det.phases.Keys == s.det.phases.Keys + {s.program[k].name};
  }

  lemma StoreRegisters(s: State)
    requires Placed(s.program, s.runs) && Enabled(s, StoreName) && GoodAt(s.program, s.runs.main.k)
    requires Registered(s.program, s.runs.main, s.gos.Keys, s.det.phases.Keys)
    ensures RegisteredIn(Apply(s, StoreName))
  {
    var k := s.runs.main.k;
    AddPassed(s.program, k, s.gos.Keys, s.det.phases.Keys);
    assert Adding(s.program, s.runs.main, s.program[k].name);
    assert Apply(s, StoreName).det.phases.Keys == s.det.phases.Keys;
  }

  lemma SpawnRegisters(s: State)
    requires Placed(s.program, s.runs) && Enabled(s, SpawnGo) && GoodAt(s.program, s.runs.main.k)
    requires Registered(s.program, s.runs.main, s.gos.Keys, s.det.phases.Keys)
    ensures RegisteredIn(Apply(s, SpawnGo))
  {
    var k := s.runs.main.k;
    SpawnPassed(s.program, k, s.gos.Keys, s.det.phases.Keys);
    assert NextGos(s, SpawnGo).Keys == s.gos.Keys + {s.program[k].name};
  }

  lemma TrackedPreserved(s: State, step: Step)
    requires GoodProgram(s.program) && Placed(s.program, s.runs) && Enabled(s, step)
    requires Registered(s.program, s.runs.main, s.gos.Keys, s.det.phases.Keys)
    requires Tracked(s.program, s.runs.main, s.gos, s.det.phases)
    ensures Tracked(s.program, NextRuns(s, step).main, NextGos(s, step), Apply(s, step).det.phases)
  {
    if Grows(step) {
      TrackedGrows(s, step);
    } else {
      NamesKept(s, step);
      TrackedMoves(s, step);
    }
  }

  lemma TrackedGrows(s: State, step: Step)
    requires GoodProgram(s.program) && Placed(s.program, s.runs) && Enabled(s, step) && Grows(step)
    requires Registered(s.program, s.runs.main, s.gos.Keys, s.det.phases.Keys)
    requires Tracked(s.program, s.runs.main, s.gos, s.det.phases)
    ensures Tracked(s.program, NextRuns(s, step).main, NextGos(s, step), Apply(s, step).det.phases)
  {
    if !step.TryStart? { assert GoodAt(s.program, s.runs.main.k); }
    if step.AddName? || step.StoreName? || step.SpawnGo? {
      TrackedProgram(s, step);
    } else {
      TrackedProcess(s, step);
    }
  }

  lemma TrackedProgram(s: State, step: Step)
    requires Placed(s.program, s.runs) && Enabled(s, step)
    requires step.AddName? || step.StoreName? || step.SpawnGo?
    requires GoodAt(s.program, s.runs.main.k)
    requires Registered(s.program, s.runs.main, s.gos.Keys, s.det.phases.Keys)
    requires Tracked(s.program, s.runs.main, s.gos, s.det.phases)
    ensures Tracked(s.program, NextRuns(s, step).main, NextGos(s, step), Apply(s, step).det.phases)
  {
  }

  lemma TrackedProcess(s: State, step: Step)
    requires Placed(s.program, s.runs) && Enabled(s, step)
    requires step.TryStart? || step.ProcessAdds? || step.ProcessAdded? || step.CallReturns?
    requires Tracked(s.program, s.runs.main, s.gos, s.det.phases)
    ensures Tracked(s.program, NextRuns(s, step).main, NextGos(s, step), Apply(s, step).det.phases)
  {
  }

  lemma TrackedMoves(s: State, step: Step)
    requires Enabled(s, step) && !Grows(step)
    requires forall n :: Adding(s.program, s.runs.main, n) <==> Adding(s.program, NextRuns(s, step).main, n)
    requires Tracked(s.program, s.runs.main, s.gos, s.det.phases)
    ensures Tracked(s.program, NextRuns(s, step).main, NextGos(s, step), Apply(s, step).det.phases)
  {
    if step.GoUncounts? || step.GoFinds? || step.GoDeletes? {
      TrackedInDone(s, step);
    } else {
      TrackedBefore(s, step);
    }
  }

  lemma TrackedInDone(s: State, step: Step)
    requires Enabled(s, step) && (step.GoUncounts? || step.GoFinds? || step.GoDeletes?)
    requires Tracked(s.program, s.runs.main, s.gos, s.det.phases)
    ensures Tracked(s.program, s.runs.main, NextGos(s, step), Apply(s, step).det.phases)
  {
  }

  lemma TrackedBefore(s: State, step: Step)
    requires Enabled(s, step) && !Grows(step) && !step.GoUncounts? && !step.GoFinds? && !step.GoDeletes?
    requires forall n :: Adding(s.program, s.runs.main, n) <==> Adding(s.program, NextRuns(s, step).main, n)
    requires Tracked(s.program, s.runs.main, s.gos, s.det.phases)
    ensures Tracked(s.program, NextRuns(s, step).main, NextGos(s, step), Apply(s, step).det.phases)
  {
    assert Apply(s, step).det.phases == s.det.phases;
  }

  function CallsByRun(s: State): seq<CallName>
    requires Begun(s.runs.main) <= |s.program|
  {
    CallsOf(s.program[..Begun(s.runs.main)])
  }

  lemma CallsOfTake(program: seq<Instr>, k: nat)
    requires k < |program|
    ensures CallsOf(program[..k + 1]) == CallsOf(program[..k]) + (if program[k].Call? then [program[k].call] else [])
  {
    assert program[..k + 1][..k] == program[..k];
  }

  lemma CallsByRunAfter(s: State, step: Step)
    requires Placed(s.program, s.runs) && Enabled(s, step)
    ensures Begun(NextRuns(s, step).main) <= |s.program|
    ensures CallsOf(s.program[..Begun(NextRuns(s, step).main)])
         == CallsByRun(s) + (if step.BeginCall? then [s.program[s.runs.main.k].call] else [])
  {
    var begun, begun' := Begun(s.runs.main), Begun(NextRuns(s, step).main);
    if step.BeginCall? || step.StoreName? || step.SpawnGo? {
      CallsOfTake(s.program, s.runs.main.k);
    } else {
      assert begun' == begun;
    }
  }

  /** No call of start is left to be made once somebody has finalized. */
  lemma OnlyWaitIsLeft(s: State)
    requires GoodProgram(s.program) && Placed(s.program, s.runs)
    requires Registered(s.program, s.runs.main, s.gos.Keys, s.det.phases.Keys)
    requires OneFinalizer(s.runs.main, s.gos, s.finals) && s.finals.finished
    ensures InFinal(s.runs.main) || (!s.runs.main.NotStarted? && s.program[s.runs.main.k] == Call(Wait))
  {
    if WonBy(s.finals, Watcher) { WatcherMeansStarted(s); }
  }

  lemma CallLogPreserved(s: State, step: Step)
    requires Invariant(s) && Enabled(s, step)
    ensures Begun(NextRuns(s, step).main) <= |s.program|
    ensures CallLog(CallsOf(s.program[..Begun(NextRuns(s, step).main)]), NextCalls(s, step), NextFinals(s, step).killer)
  {
    CallsByRunAfter(s, step);
    if s.finals.finished { OnlyWaitIsLeft(s); }
    KillerSpawnedOnce(s, step);
    CallLogExtended(CallsByRun(s), s.calls, s.finals.killer, step, s);
  }

  lemma KillerSpawnedOnce(s: State, step: Step)
    requires OneFinalizer(s.runs.main, s.gos, s.finals) && Enabled(s, step)
    requires EffectsInOrder(s.finals, Progress(s.runs.main, s.gos, s.finals))
    ensures Finalizes(step) ==> s.finals.killer.NotSpawned? || NextFinals(s, step).killer == s.finals.killer
  {
  }

  lemma CallLogExtended(byRun: seq<CallName>, calls: seq<CallName>, killer: Killer, step: Step, s: State)
    requires Enabled(s, step) && calls == s.calls && killer == s.finals.killer && CallLog(byRun, calls, killer)
    requires step.BeginCall? && (killer.InCleanup? || killer.Cleaned?) ==> s.program[s.runs.main.k].call == Wait
    requires Finalizes(step) ==> killer.NotSpawned? || NextFinals(s, step).killer == killer
    ensures CallLog(byRun + (if step.BeginCall? then [s.program[s.runs.main.k].call] else []),
                    NextCalls(s, step), NextFinals(s, step).killer)
  {
    if step.BeginCall? && (killer.InCleanup? || killer.Cleaned?) {
      var calls' := calls + [Wait];
      assert calls'[..killer.at] == calls[..killer.at];
      assert calls'[killer.at + 1..] == calls[killer.at + 1..] + [Wait];
    }
    if step.KillerStarts? {
      assert (calls + [Cleanup])[..|calls|] + (calls + [Cleanup])[|calls| + 1..] == calls;
    }
  }

  /** The session keeps to the rules of the detector: each of its steps is an allowed step of the
      detector, or none. */
  lemma KeepsDetectorRules(s: State, step: Step)
    requires Invariant(s) && Enabled(s, step) && DetectorStep(s, step).Some?
    ensures Det.Allowed(s.det, DetectorStep(s, step).value) && Det.Ready(s.det, DetectorStep(s, step).value)
    ensures Apply(s, step).det == Det.Apply(s.det, DetectorStep(s, step).value)
  {
    if Finalizes(step) {
      FinishKeepsRules(s, step);
    } else {
      NamesKeepRules(s, step);
    }
  }

  lemma FinishKeepsRules(s: State, step: Step)
    requires OneFinalizer(s.runs.main, s.gos, s.finals) && Enabled(s, step) && Finalizes(step)
    requires !s.det.check.NotFinished? <==> FinishCalled(Progress(s.runs.main, s.gos, s.finals))
    requires DetectorStep(s, step).Some?
    ensures Det.Allowed(s.det, DetectorStep(s, step).value) && Det.Ready(s.det, DetectorStep(s, step).value)
  {
    if step.RunnerFinalizes? { RunnerProgresses(s); } else { WatcherProgresses(s); }
  }

  lemma NamesKeepRules(s: State, step: Step)
    requires GoodProgram(s.program) && Placed(s.program, s.runs) && Enabled(s, step) && !Finalizes(step)
    requires Registered(s.program, s.runs.main, s.gos.Keys, s.det.phases.Keys)
    requires Tracked(s.program, s.runs.main, s.gos, s.det.phases)
    requires DetectorStep(s, step).Some?
    ensures Det.Allowed(s.det, DetectorStep(s, step).value) && Det.Ready(s.det, DetectorStep(s, step).value)
  {
    if !s.runs.main.NotStarted? { assert GoodAt(s.program, s.runs.main.k); }
  }

  lemma NamesCompletePreserved(s: State, step: Step)
    requires Invariant(s) && Enabled(s, step)
    ensures NamesComplete(Apply(s, step).det)
  {
    if s.finals.finished { OnlyWaitIsLeft(s); }
    if DetectorStep(s, step).Some? {
      KeepsDetectorRules(s, step);
      if !s.det.check.NotFinished? { NewNameIsOfProcess(s, step); }
      NamesCompleteAfter(s.det, DetectorStep(s, step).value);
    }
  }

  lemma NewNameIsOfProcess(s: State, step: Step)
    requires Invariant(s) && Enabled(s, step) && DetectorStep(s, step).Some? && !s.det.check.NotFinished?
    requires InFinal(s.runs.main) || (!s.runs.main.NotStarted? && s.program[s.runs.main.k] == Call(Wait))
    ensures DetectorStep(s, step).value.AddCount? ==> DetectorStep(s, step).value.name.OfProcess?
  {
  }

  lemma NamesCompleteAfter(det: Det.State<Name>, d: Det.Step<Name>)
    requires NamesComplete(det) && Det.Allowed(det, d) && Det.Ready(det, d)
    requires !det.check.NotFinished? && d.AddCount? ==> d.name.OfProcess?
    ensures NamesComplete(Det.Apply(det, d))
  {
  }

  lemma DetectorPreserved(s: State, step: Step)
    requires Invariant(s) && Enabled(s, step)
    ensures Det.Invariant(Apply(s, step).det)
  {
    if DetectorStep(s, step).Some? {
      KeepsDetectorRules(s, step);
      Det.InvariantPreserved(s.det, DetectorStep(s, step).value);
    }
  }

  lemma InvariantPreserved(s: State, step: Step)
    requires Invariant(s) && Enabled(s, step)
    ensures Invariant(Apply(s, step))
  {
    NewGoIsNew(s, step);
    PlacedPreserved(s, step);
    OneStartedPreserved(s, step);
    RegisteredPreserved(s, step);
    TrackedPreserved(s, step);
    BodiesPreserved(s, step);
    OneFinalizerPreserved(s, step);
    EffectsPreserved(s, step);
    FinishPreserved(s, step);
    ArgumentsPreserved(s, step);
    AnsweredPreserved(s, step);
    CallLogPreserved(s, step);
    DetectorPreserved(s, step);
    NamesCompletePreserved(s, step);
  }

  // ----- runs

  ghost predicate IsRun(states: seq<State>, steps: seq<Step>, pty: bool) {
    && |states| == |steps| + 1
    && states[0] == Initial(pty)
    && forall i {:trigger steps[i]} :: 0 <= i < |steps| ==>
         Enabled(states[i], steps[i]) && states[i + 1] == Apply(states[i], steps[i])
  }

  lemma InitialInvariant(pty: bool)
    ensures Invariant(Initial(pty))
  {
    ProgramIsGood(pty);
    var s := Initial(pty);
    assert Where(s.runs.callers, WonStart) == {};
    Det.FreshInvariant<Name>();
    assert s.program[..0] == [];
  }

  lemma InvariantNext(states: seq<State>, steps: seq<Step>, pty: bool, i: nat)
    requires IsRun(states, steps, pty) && i < |steps| && Invariant(states[i])
    ensures Invariant(states[i + 1]) && states[i + 1].program == states[i].program
  {
    InvariantPreserved(states[i], steps[i]);
  }

  lemma {:induction false} InvariantAlong(states: seq<State>, steps: seq<Step>, pty: bool, i: nat)
    requires IsRun(states, steps, pty) && i <= |steps|
    ensures Invariant(states[i]) && states[i].program == Program(pty)
  {
    if i == 0 {
      InitialInvariant(pty);
    } else {
      InvariantAlong(states, steps, pty, i - 1);
      InvariantNext(states, steps, pty, i - 1);
    }
  }
}
