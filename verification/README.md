# proxyssh, modelled and verified in Dafny

proxyssh wraps SSH and Docker libraries. What it adds itself is a handful of small concurrent
protocols, a parser with its printer, and a forwarding filter. This project models these and proves,
for every run or every input, what they keep.

| file | models |
|---|---|
| `WorkGroup.dfy`, `LeakStatistics.dfy` | the work group and the global leak statistics that any number of goroutines share |
| `LeakDetector.dfy` | one leak detector: a wait group and a map that are not changed together |
| `Session.dfy`, `SessionTheorems.dfy` | the life of a session: racing Run calls, copiers, the context watcher, finalize, clean-up |
| `SessionStatistics.dfy` | a session beside the global statistics, whose lock its Finish needs |
| `OneTime.dfy`, `SessionObject.dfy` | the compare-and-swap lock, and the session's methods as one goroutine runs them |
| `AsyncWait.dfy` | Wait: two selects, a cancel function and a deadline |
| `AsyncCopy.dfy`, `AsyncCopyProofs.dfy`, `AsyncCopyHazards.dfy` | any number of Copy calls over one pool of buffers, with actions that may outlive their call |
| `LeakDeadline.dfy` | the goroutines that a session registers, copiers and others, and the detector on one clock |
| `AsyncIO.dfy` | the pool, Read, Write and the copy loop on arrays, as the calling goroutine runs them |
| `TerminalPair.dfy`, `TerminalInterleaving.dfy` | saving and restoring terminal modes on two ends, alone and from several goroutines |
| `Repl.dfy` | the line loops of the REPL process, and the caller that waits for them |
| `DockerExec.dfy` | the stream wait of the docker process |
| `Decimal.dfy`, `NetworkAddress.dfy`, `PortForwarding.dfy` | numerals, addresses, the flag that collects them, and the filter |
| `Counting.dfy`, `Sequences.dfy`, `Options.dfy` | how many keys of a map hold a value of some kind, and facts about numbers; facts about sequences; a value that may be missing |

`dafny verify dfyconfig.toml` checks everything.

## How concurrency is modelled

A Dafny method body is one indivisible step, so what depends on interleaving is stated on state
machines: a datatype for the state, a condition `Enabled` and a function `Apply` for each atomic
operation (a compare-and-swap, a lock, a counter change, a map operation, a channel event), and runs
as sequences of states and steps. The number of goroutines is not bounded. The same code is written a
second time as classes and methods, with fields, arrays and loops where the source has them, for one
goroutine at a time. Where a state machine has a function for what a method does, the method is proved
against that function (the work group, the detector, the copy loop, finalize, the terminal pair, the
docker wait); the others state outright what they return and leave.

Assumptions about the runtime, which the proofs build on:

- Every step takes effect at once and is seen by everybody from then on.
- A `sync.WaitGroup` is one counter, and its Wait can return when the counter is zero.
- A writer that waits for an `RWMutex` keeps new readers out.
- `select` takes any branch that is ready.
- For claims about time: operations that do not block take no time, and time does not run past a timer
  that somebody waits for. An underlying read or write may take any time, or never end.
- A process gives each of its own names to the detector once, different from those of the session, and
  calls Done for it once, after its Add has returned.
- What the operating system, Docker, SSH, the REPL callback or a process reports is arbitrary.

## Where code and comments differ

The model follows the code. For each of these a lemma gives a concrete run or input; where the comment is
right in some cases, another lemma says in exactly which.

- `session.go:58-59` says that after Run the session has closed. If the watcher of the context wins
  `finished` and is held up, Run may return before Exit is called: `SessionTheorems.RunCanReturnBeforeExit`.
  It is decided at Run's own compare-and-swap in finalize: the promise is kept in every continuation if and
  only if that step finds the lock free or Exit called already: `SessionTheorems.RunExitsExactly`.
- `logging/detector.go:32` says that Add and Done panic when a name is used again. They need not:
  `LeakDetector.ReuseCanGoUnnoticed`. Whatever others do between the two steps of the second call, Add panics
  if and only if the name is still or again in the map when it gets there, and Done if and only if the counter
  is at zero at its first step or the name is not in the map at its second: `LeakDetector.ReusePanicsExactly`,
  `LeakDetector.ReusedDonePanicsExactly`.
- `feature/forward_address.go:58` says that what String returns can be parsed. It fails for most
  hostnames with brackets: `NetworkAddress.BracketsAreNotPrinted`, `NetworkAddress.PrintedParses`,
  `NetworkAddress.RoundTrip`.
- `internal/asyncio/read.go:17` gives the buffer back when Read returns, even if the read behind it still
  runs, so that another Copy can be handed a buffer that is about to be overwritten:
  `AsyncCopyHazards.EarlyReturnCorrupts`. Buffers are used exclusively exactly as long as no Read has
  returned this way: `AsyncCopyProofs.ExclusiveThroughout`; the statements about data say so. Giving the buffer back inside the action, as Write does, is not a remedy for Read, which copies out
  of it afterwards: `AsyncCopyHazards.ReturningInActionCorrupts`. Leaving it to an action that outlives the
  call is, without any condition (the policy `Handover`).
- `internal/asyncio/asyncio.go:11` says that cancel is called when the action has not finished. Both
  branches of the first select may be ready: `AsyncWait.CancelMayComeAfterTheAction`. It happens for an
  action that ends at one time and a context that is cancelled at another if and only if these are the same
  instant: `AsyncWait.CancelOnFinishedExactly`.
- RawMode and RestoreMode of a pair may overlap, since only the ends have locks. If the ends share a device,
  the original mode can be lost: `TerminalPair.OverlappingRawModeLosesTheMode`. The modes to be restored are
  kept throughout an overlap if and only if each step on an end is harmless where it is taken:
  `TerminalPair.OverlapConservesExactly`. With separate devices every step is:
  `TerminalPair.OriginalModesComeBack`.

## Model

| member | source | states |
|---|---|---|
| LeakStatistics.StatisticsConserved | logging/detector.go:60-159 | In every run of concurrent Finish, Get and Reset calls, outside the two stores of a reset: successes + failures + workers that have not counted yet = Finish calls registered since the last reset; and each counter is the number of workers since then whose select took its branch and which have reported. The wait group never becomes negative. |
| LeakStatistics.GetReturnsSnapshot | logging/detector.go:79-86 | The pair that a Get returns, read by two separate loads, was the value of both counters at one instant inside the call, when no worker was pending: the number of workers since the last reset that found the waiter closed, and of those that timed out, together all calls registered since then. |
| LeakStatistics.ResetClears | logging/detector.go:67-75 | A Reset past its stores had both counters at zero at one instant inside the call, with nothing pending and nothing registered since. |
| LeakStatistics.WhoChangesWhat | logging/detector.go:66-159 | A Get changes no counter, a Finish only raises them, a Reset only clears them, and only a Reset starts a new count. |
| LeakStatistics.OthersStandStill | internal/lock/workgroup.go:16-50 | Between Wait and Unlock no other goroutine can take any step; only new calls can arrive. |
| LeakStatistics.WaitingIsNotStuck | logging/detector.go:66-86 | Whoever holds the lock and waits can go on, or some worker has an enabled step that needs no mutex, on either branch of its select. |
| LeakStatistics.NoDeadlock | logging/detector.go:66-145 | As long as some call has not finished, some goroutine can take a step. |
| LeakStatistics.WorkUnderLock | internal/lock/workgroup.go:27-33 | While a writer has announced itself, each worker's step lowers the remaining work by exactly one, and no other step, in particular no Add, changes it. |
| LeakStatistics.WorkZeroOpensWait | internal/lock/workgroup.go:48-50 | Remaining work is zero if and only if no reader is inside and the wait group is at zero; above zero some worker can move. |
| LeakStatistics.WaitIsBounded | logging/detector.go:66-86 | From the announcement of a Get or Reset until it is let through, the workers take exactly as many steps as the work falls by, so it waits for a number of worker steps fixed at the start. |
| LeakStatistics.LockWorkFalls | logging/detector.go:66-86 | While a Get or Reset wants or has the lock, each step of it or of a worker brings its unlock one step closer, no other step puts it off, and the lock is free exactly when nothing is left. |
| LeakStatistics.SomebodyHelps | logging/detector.go:66-145 | And one of those steps can always be taken, on either branch of a select. |
| LeakStatistics.LockIsFreed | logging/detector.go:66-86 | Over a run: from the announcement to the unlock there are exactly as many such steps as the announcement found to be done. |
| LeakStatistics.Statistics.GetGlobalLeakDetectorStats | logging/detector.go:79-86 | Waits for all pending workers, whatever they report; the pair adds up to every Finish call registered since the last reset, and the lock is free again. |
| LeakStatistics.Statistics.ResetGlobalLeakDetectorStats | logging/detector.go:67-75 | Waits for all pending workers; then both counters are zero, nothing is registered, and the lock is free again. |
| LeakStatistics.Statistics.Finish | logging/detector.go:125-130 | One more call is registered, and its worker is pending when Finish returns. |
| LeakStatistics.Statistics.Work | logging/detector.go:129-159 | A worker raises the counter that its verdict says, by one, and is then done; the number of registered calls stays. |
| LeakStatistics.Statistics.AwaitWorkers | internal/lock/workgroup.go:40-50 | However long it blocks: on return no worker is left, each has been counted once, and neither counter has fallen. |
| WorkGroup.WorkGroupObject.Lock | internal/lock/workgroup.go:16-20 | Nobody can Add any more until Unlock. |
| WorkGroup.WorkGroupObject.Unlock | internal/lock/workgroup.go:22-25 | Add is possible again; the counter is untouched. |
| WorkGroup.WorkGroupObject.Add | internal/lock/workgroup.go:27-33 | The reader lock is given back, the counter changes by n, and it panics exactly when it becomes negative. |
| WorkGroup.WorkGroupObject.Done | internal/lock/workgroup.go:35-38 | Needs no lock; panics exactly when the counter was not positive. |
| WorkGroup.WorkGroupObject.Wait | internal/lock/workgroup.go:40-50 | From any number of pending workers and in any state of the mutex, which it leaves alone, it ends with the counter at zero. |
| LeakDetector.DetectorCorrect | logging/detector.go:98-159 | In every run whose callers add a name once and call Done after its Add: counter = map size + adds in flight - dones in flight, never negative, neither panic is reached, and a verdict of leak_ok means that everything registered before Finish had begun its Done. |
| LeakDetector.VerdictTellsTheBranch | logging/detector.go:138-143 | In every run the verdict is leak_ok exactly if the select of Finish took the closed waiter, and leak_fail exactly if it took the timeout. |
| LeakDetector.StepsLead | logging/detector.go:98-145 | Each step of a caller takes its name exactly one step further and leaves Finish alone; each step of Finish brings the verdict closer. |
| LeakDetector.InvariantPreserved | logging/detector.go:98-145 | Each atomic step of Add, Done, Finish, the waiter and the select keeps the accounting and the soundness of the verdict. |
| LeakDetector.Accounting | logging/detector.go:98-122 | Wait group and map never drift apart by more than the calls in flight. |
| LeakDetector.ReusePanicsExactly | logging/detector.go:99-113 | The store of a further Add of a name panics, whatever others have done since its count, if and only if the name was stored at the count, or has been since, and no Done has deleted it up to the store. |
| LeakDetector.ReusedDonePanicsExactly | logging/detector.go:116-122 | A further Done of a name panics at its count if and only if nothing is counted any more, and at its look-up, whatever others have done between, if and only if the name is not in the map by then; so it always does after the first Done has returned, unless the name is added once more. |
| LeakDetector.ReuseCanGoUnnoticed | logging/detector.go:32-34 | Add, Done and Add again of one name does not panic, contrary to the comment. |
| LeakDetector.MemoryLeakDetectorOn.Add | logging/detector.go:98-113 | Follows the two steps of the state machine; on a panic the map is unchanged and the counter is already raised. |
| LeakDetector.MemoryLeakDetectorOn.Done | logging/detector.go:115-122 | Panics exactly if the counter was not positive or the name is unknown; otherwise follows the three steps of the state machine. |
| OneTimeLock.OneTime.Lock | internal/lock/onetime.go:32-41 | True exactly if the lock was free; it is taken afterwards. |
| OneTimeLock.LockRepeatedly | internal/lock/onetime.go:32-41 | Of any number of calls the first is the only one to return true. |
| Session.InvariantPreserved | session.go:63-246 | The inductive invariant over program place, registered names, goroutines, detector, finalizer, effects and call history is kept by every step of every goroutine. |
| Session.ProgramIsGood | session.go:79-196 | In both forms of a session every name is registered once, before its goroutine is started, and nothing but Wait follows the start of the watcher. |
| Session.StreamsOfRegular | session.go:113-154 | Without a pty each stream is asked for and copied at once by the goroutine of its name, all three before Start; the watcher follows, then Wait. |
| Session.StreamsOfPty | session.go:158-196 | With a pty window sizes are passed on before Start, the terminal is copied both ways after it; the watcher follows, then Wait. |
| Session.KeepsDetectorRules | session.go:80-191 | Each step of a session is an allowed step of the detector or none. |
| SessionTheorems.SessionRefinesDetector | session.go:80-224 | Seen through its detector, every run of a session is a run of the detector by callers that keep to its rules. |
| SessionTheorems.FinalizedOnce | session.go:213-236 | For any number of Run calls racing with the watcher: at most one passes `started`, at most one goroutine passes `finished`, the effects are a prefix of error text, detector Finish, Exit, Cleanup, and there is never a second Exit (the exit-status of section 6.10 of RFC 4254). |
| SessionTheorems.ExitStatusExplained | session.go:73-92 | The status is 255 with the wrapped error if start failed; else 255 without text after a cancellation, or the code and text that Process.Wait returned. |
| SessionTheorems.RunReturnsItsError | session.go:63-93 | Over all runs and callers: the only one that got through `started` returns the wrapped error of the call of start that failed, else what Process.Wait returned, whoever has finalized; all others are told that the session was started already. |
| SessionTheorems.RunExitsExactly | session.go:58-93 | Run never returns without an Exit, in any continuation from its own compare-and-swap in finalize on, if and only if that step finds `finished` free or Exit called already. |
| SessionTheorems.OwnFinalizeHasExited | session.go:58-93 | Run has called Exit before it returns if it won `finished` itself, and it did if the context is not cancelled. |
| SessionTheorems.PendingExitComes | session.go:213-232 | Whoever has won `finished` can take the next step if and only if it is not Finish with the lock of the statistics wanted or held by somebody, and that step brings Exit one step closer. |
| SessionStatistics.SomebodyHelps | internal/lock/workgroup.go:27-33 | Session and statistics together: as long as a won finalize has not called Exit, its own step, or one of the holder of the lock or of a worker, can be taken. |
| SessionStatistics.DistanceAfter | logging/detector.go:125-130 | Each such step brings Exit one step closer; no other step of anybody puts it off, but for the announcement of a further Get or Reset, which adds exactly its own work. |
| SessionStatistics.ExitIsReached | session.go:213-232 | Over every run from the win of `finished` on: the helping steps are as many as the distance has fallen by plus what further announcements have added. |
| SessionStatistics.InvariantPreserved | session.go:213-236 | Every step of session and statistics keeps both invariants, and the session waits for the lock exactly while it is wanted or held. |
| SessionTheorems.RunCanReturnBeforeExit | session.go:58-93 | A run, for either form of session, in which Run has returned and nothing has been written, finished or exited. |
| SessionTheorems.ProcessContract | session.go:32-51 | In every run no method of a process is called twice; Init, the streams, Start, Wait come in this order; Cleanup is called at most once and only Wait can come after it. |
| SessionTheorems.CallsOfProgram | session.go:63-196 | The calls that a complete Run makes are exactly Init, Stdout, Stderr, Stdin, Start, Wait, or Init, Start, Wait with a pty. |
| SessionTheorems.CleanupAfterStart | session.go:234-246 | Cleanup neither precedes nor overlaps a call made by start. |
| SessionTheorems.NobodyIsStuck | session.go:63-246 | In every run the winner of `started` and every goroutine of the session can take their next step, whatever a call comes back with, if and only if they are not the watcher before a cancellation, or at Finish with the lock of the statistics wanted or held. |
| SessionTheorems.StepsLead | session.go:63-246 | Each step of a caller, a goroutine, the clean-up or the detector gets it further towards its end; a cancellation stays. |
| SessionTheorems.SessionDetectorAccounts | logging/detector.go:98-122 | In every run of a session the detector's accounting holds and neither of its panics is reachable. |
| SessionTheorems.LeakVerdictSound | logging/detector.go:138-143 | leak_ok in any run of a session: everything registered before Finish had begun its Done; if start succeeded, all stream copiers have returned, without a pty they have closed their pipes, and the context was cancelled. |
| SessionObject.SessionRun.RunRegular | session.go:112-155 | The calls and registrations made are a run through the program up to the first failing call, whose message is returned. |
| SessionObject.SessionRun.RunPty | session.go:157-196 | The same for a session with a pty. |
| SessionObject.SessionRun.StartAll | session.go:95-110 | The same from Init on, in the form that the session has. |
| SessionObject.SessionRun.Finalize | session.go:209-236 | The first call has the effects text, Finish, Exit in order and starts the clean-up; every further call changes nothing. |
| SessionObject.SessionRun.Run | session.go:58-93 | A second Run changes nothing; the first follows the whole program or stops at a failing call, and finalizes with 255 and the wrapped error or with what Wait returned. |
| AsyncWait.WaitContract | internal/asyncio/asyncio.go:9-50 | True exactly when the action finishes, and at that instant; false at once for a context cancelled before, with the action never started and cancel not called; else false exactly one timeout after the cancellation, and then the action has not finished before that; cancel at most once and only after the cancellation. |
| AsyncWait.InvariantPreserved | internal/asyncio/asyncio.go:14-50 | The invariant over place, action, context and clock that gives the contract. |
| AsyncWait.UrgentMeansEnabled | internal/asyncio/asyncio.go:26-49 | Time stands still exactly while the call has a step to take. |
| AsyncWait.StepsLead | internal/asyncio/asyncio.go:14-50 | Every step of a call brings it closer to its return. |
| AsyncWait.CancelMayComeAfterTheAction | internal/asyncio/asyncio.go:26-36 | For every timeout, start and instant not before it, a run of Wait in which, at that instant, cancel is called after the action has finished. |
| AsyncWait.CancelsFinishedAtOnce | internal/asyncio/asyncio.go:26-36 | In every run in which that happens, action and context ended at the very instant of the call of cancel. |
| AsyncWait.CancelOnFinishedExactly | internal/asyncio/asyncio.go:11-36 | Cancel can be called for an action that has ended at one time, with a context cancelled at another, if and only if these are the same instant, not before the call of Wait. |
| AsyncCopyProofs.BufferOwnership | internal/asyncio/buffer.go:14-23 | In all runs each checkout is given back at most once, and a held buffer is neither pooled nor held twice; if no Read has returned over a running read, nobody else can touch it either. |
| AsyncCopyProofs.ExclusiveThroughout | internal/asyncio/read.go:16-26 | Over a whole run, every buffer had a single user at all times if and only if no Read has returned while its read was still running. |
| AsyncCopyProofs.CopyDeliversPrefix | internal/asyncio/copy.go:19-25 | Under that condition, for all chunkings, short writes, failures and cancellations: what reaches the destination is a prefix of what the source produced; written <= delivered <= written + one chunk; a Copy that ends without an error has delivered everything that was produced and reports exactly its length. |
| AsyncCopyProofs.CopyEndsBecause | internal/asyncio/copy.go:19-35 | In all runs a Copy ends when and as what it has seen says: with ErrCanceled once Wait has given up, with the error of a write, with a short write if less was taken than given, with the error of the read if all was taken, with none at the end of the source; and not before. |
| AsyncCopyProofs.CleanEndExactly | internal/asyncio/copy.go:19-25 | There is no error if and only if the last read came to the end of the source and everything that it brought was taken. |
| AsyncCopyProofs.OneOutstanding | internal/asyncio/copy.go:20-25 | A Copy goes on to its next read or write only when the one before has finished. |
| AsyncCopyProofs.CancelledCopyEnds | internal/asyncio/copy.go:19-35 | Once its timeout has passed since the cancellation, a Copy is over and its Done has been called. |
| AsyncCopyProofs.CopiersBeatTheDetector | internal/asyncio/copy.go:27-35 | A CopyLeak that had begun at Finish, and whose context was cancelled less than half of MemoryLeakTimeout after it, is done when the detector can time out. |
| AsyncCopyProofs.ClockNotStuck | internal/asyncio/asyncio.go:26-49 | In every state the clock can go on, or some Copy can move without any progress of a read or write, so that the bounds on time are not empty. |
| LeakDeadline.LeakFailExplained | logging/detector.go:125-145 | Everything that a session registers and the detector on one clock, in every run: leak_fail is reported, or can be, only if some copier was not registered at Finish or its context not cancelled in the first half of the timeout, or somebody else did not call Done before it was over. |
| LeakDeadline.BoundToBeOk | logging/detector.go:125-145 | So if nobody is late, the timeout branch is never open and the only possible verdict is leak_ok. |
| LeakDeadline.LeakOkMeansDone | logging/detector.go:132-140 | On leak_ok every copier registered at Finish is through with its Copy, and everybody else has called Done. |
| LeakDeadline.InvariantPreserved | logging/detector.go:98-145 | Every step of copiers, others, detector and clock keeps them together and the deadline with its cause. |
| LeakDeadline.ClockNotStuck | logging/detector.go:138-143 | In every run the clock can go on, or somebody can move without any progress of a read or write. |
| AsyncCopyProofs.InvariantPreserved | internal/asyncio/read.go:14-35 | Every step of every Copy, action, context and of the clock keeps ownership, books and time bounds. |
| AsyncCopyProofs.SafeMeansExclusive | internal/asyncio/read.go:16-17 | Without a Read that returned early, or if the action keeps the buffer, users of buffers exclude each other. |
| AsyncCopyHazards.EarlyReturnCorrupts | internal/asyncio/read.go:16-30 | A run in which a destination receives a byte that its source never produced. |
| AsyncCopyHazards.ReturningInActionCorrupts | internal/asyncio/write.go:24-27 | Were Read to give its buffer back as Write does, data could be lost without any cancellation. |
| AsyncCopyHazards.NoCancelNoEarly | internal/asyncio/asyncio.go:26-31 | As long as no context is cancelled, no Read returns before its action. |
| AsyncIO.BufferPool.Get | internal/asyncio/buffer.go:8-12 | Hands out a pooled buffer, which leaves the pool, or a new one; its capacity is at least copyBufferSize. |
| AsyncIO.BufferPool.BufferFromPool | internal/asyncio/buffer.go:14-23 | The slice has exactly the requested length, is not in the pool, and may be given back without breaking the capacity of pooled buffers. |
| AsyncIO.Read | internal/asyncio/read.go:14-35 | The first n bytes of p are the next n of the source and the rest of p is untouched, n being the least of what the read moves, the room in p and what is there; when Wait gives up nothing is lost and (0, ErrCanceled) is returned. |
| AsyncIO.Write | internal/asyncio/write.go:14-36 | The destination gets exactly the first n bytes of p through the private buffer, and p is untouched. |
| AsyncIO.CopyRound | internal/asyncio/copy.go:20-25 | One round on arrays does what the transitions AfterRead and AfterWrite of the Copy state machine say: bytes moved, bytes taken, whether and with which error it ends. |
| AsyncIO.RoundsMove | internal/asyncio/copy.go:20-25 | Over all rounds a prefix of the source is moved, and without an error all that was taken from it. |
| AsyncIO.RoundsEndBecause | internal/asyncio/copy.go:20-25 | The loop ends at the first round whose outcomes give a reason to, and with that: given up, failed write, short write, failed read, or the end of the source. |
| AsyncIO.CopyLoop | internal/asyncio/copy.go:20-25 | The loop on arrays computes the rounds: the destination receives a prefix of the source as long as `written` says, and everything read is delivered unless there is an error. |
| TerminalPair.RawModeConserves | internal/term/pair.go:103-107 | RawMode leaves the modes that a RestoreMode would bring back as they are if and only if raising the pty is harmless; a second RawMode always does. |
| TerminalPair.RestoreModeConserves | internal/term/pair.go:109-117 | RestoreMode brings those modes back and wipes both states, so that a second one changes nothing. |
| TerminalPair.ModesNest | internal/term/pair.go:103-117 | After any sequence of whole RawMode and RestoreMode calls on a pair never saved, one RestoreMode brings the original modes back. |
| TerminalPair.RawPtyConservesExactly | internal/term/pair.go:104-105 | Raising the pty keeps the modes to be restored if and only if the tty is not saved, has another device, or saved the mode that the device has. |
| TerminalPair.RestorePtyConservesExactly | internal/term/pair.go:115-116 | Putting the pty back keeps them if and only if the tty is not saved, has another device, or saved the same mode. |
| TerminalPair.StepConservesExactly | internal/term/pair.go:172-203 | The same for all four operations on an end; those on the tty always keep them. |
| TerminalPair.OverlapConservesExactly | internal/term/pair.go:103-117 | Over any overlap of RawMode and RestoreMode, a RestoreMode would bring the same modes back at every moment if and only if each operation was harmless. |
| TerminalPair.OriginalModesComeBack | internal/term/pair.go:103-117 | However such calls have overlapped on a pair never saved, a RestoreMode brings the original modes back, if the ends have different devices or each operation was harmless. |
| TerminalPair.OverlappingRawModeLosesTheMode | internal/term/pair.go:103-117 | One overlap of RawMode and RestoreMode on a shared device after which a full RestoreMode leaves raw mode; the operation that does it is the last, putting the pty back while the tty has saved the raw mode. |
| TerminalPair.Terminal.RawMode | internal/term/pair.go:172-186 | Saves the mode and raises it, once; nothing changes for a non-terminal, a saved end, or an error of the operating system, which alone is reported. |
| TerminalPair.Terminal.RestoreMode | internal/term/pair.go:188-203 | The saved mode is back and the state wiped; on an error of the operating system the state is wiped all the same and the mode stays. |
| TerminalPair.Pair.RawMode | internal/term/pair.go:103-107 | Both ends are raised, the pty first, whether they share a device or the tty is missing. |
| TerminalPair.Pair.RestoreMode | internal/term/pair.go:109-117 | Both ends are restored, the tty first. |
| TerminalPair.Pair.Close | internal/term/pair.go:119-130 | Both ends are restored and then closed. |
| TerminalInterleaving.OriginalModesAreBack | internal/term/pair.go:109-130 | In every interleaving of RestoreMode and Close calls after RawMode: once any of them is past both ends, all devices have their original modes, and keep them. |
| TerminalInterleaving.RestoredInReverse | internal/term/pair.go:115-129 | Each end is put back at most once, the tty before the pty, and never on a closed descriptor. |
| TerminalInterleaving.OnlyCloseCloses | internal/term/pair.go:109-130 | In every run a Close that has returned has closed both descriptors, the tty first; as long as only RestoreMode is called, none is closed. |
| TerminalInterleaving.StepsLead | internal/term/pair.go:109-130 | Every step of a call brings it closer to its return and leaves the others where they are. |
| TerminalInterleaving.NoDeadlock | internal/term/pair.go:188-203 | As long as some call has not returned, some goroutine can go on. |
| Repl.LinesAreTheInput | config/terminal/process.go:120-121 | The lines, their newlines and the unterminated tail make up the input; neither lines nor tail contain a newline. |
| Repl.LinesAreUnique | config/terminal/process.go:120-121 | There is no other way to cut an input up like that. |
| Repl.FoldCharacterised | config/terminal/process.go:117-144 | The callback sees lines up to the first that asks for an exit; the code is that line's, 0 at the end of input or after a cancellation, 255 for another read error; it reads at most once more than there are newlines. |
| Repl.CancellationCuts | config/terminal/process.go:117 | With a cancellation the callback sees a prefix of what it would have seen. |
| Repl.BufReader.ReadString | config/terminal/process.go:120 | For any chunking of the pipe: the next line with its newline, or all that is left with the error. |
| Repl.REPLProcess.RunLoopPipes | config/terminal/process.go:101-147 | The loop refines the fold over the lines of its input: same lines to the callback, same code, same number of reads; the waiter is released. |
| Repl.REPLProcess.PtyRounds | config/terminal/process.go:194-223 | The terminal loop refines the fold with both of its looks at the context. |
| Repl.REPLProcess.RunLoopPty | config/terminal/process.go:174-228 | In addition the terminal's modes are restored and both ends closed before the waiter is released. |
| Repl.REPLProcess.Wait | config/terminal/process.go:51-58 | Once released, the final code and no error. |
| Repl.WaitGetsTheFinalCode | config/terminal/process.go:51-58 | Loop and waiter as two goroutines, in every run: the waiter returns only after the channel is closed, with the code of the fold; nothing is written and no line is passed after that. |
| Repl.MovesLead | config/terminal/process.go:117-146 | Each move of loop or waiter brings both closer to their ends; the loop waits for nobody, and the waiter only for the channel. |
| Repl.RunAndWait | config/terminal/process.go:101-147 | For any chunking of the same bytes, any callback and any cancellation, Wait returns the code of the fold and the callback saw its lines. |
| DockerExec.WaitExplained | config/dockerexec/exec.go:200-234 | In every interleaving the exit code is inspected only if the copy of the output itself ended without an error and that was sent; each returned pair is the inspection's, or the copy's own error, or the context's after a cancellation. |
| DockerExec.HelpersTellTheTruth | config/dockerexec/exec.go:169-195 | What is sent is what the copy returned, for a terminal after its mode was restored; the end of the input is told after the connection was closed for writing. |
| DockerExec.StepsLead | config/dockerexec/exec.go:163-234 | Every step of a helper or of the waiter brings it closer to its end and leaves the others where they are; a cancellation stays. |
| DockerExec.HelpersNeverBlock | config/dockerexec/exec.go:163-195 | Neither helper can block on its last send or close, even if the waiter has left. |
| DockerExec.InputAloneNeverEndsTheWait | config/dockerexec/exec.go:220-234 | While the output is still copied and the context alive, a waiter can at most get from its first select to its second. |
| DockerExec.WaitEnds | config/dockerexec/exec.go:200-234 | Once the output is done or the context cancelled, a waiter has a step of its own, and at most three are left. |
| DockerExec.ContainerExecProcess.ExecAndStream | config/dockerexec/exec.go:147-198 | Only a failure to create the exec is reported and then nothing has changed; what attaching says is ignored and both helpers are started. |
| DockerExec.ContainerExecProcess.WaitStreams | config/dockerexec/exec.go:219-234 | The nested selects, whichever ready branches they take and whatever the helpers do between them, return what the state machine says: an error with which Wait is to return, or none, to go on to the inspection. |
| DockerExec.ContainerExecProcess.Wait | config/dockerexec/exec.go:200-217 | Follows the state machine to its end: the pair returned is the one it arrives at, has its cause there, and `exited` is set only by an inspection that worked. |
| DockerExec.ContainerExecProcess.Cleanup | config/dockerexec/exec.go:236-248 | The connection is given up, and `killed` tells whether the process is known to have exited. |
| Decimal.ValueOfNumeral | feature/forward_address.go:60 | A printed number stands for itself. |
| Decimal.ParseUint | feature/forward_address.go:36 | For every string: a number exactly for a non-empty string of digits below 2^32; a range error as soon as leading digits are too large, before any later bad character; else a syntax error. 64-bit wrap-around is written out. |
| Decimal.FormatInt | feature/forward_address.go:60 | Two digits at a time from the right into a buffer: the shortest numeral, for every non-negative int64. |
| NetworkAddress.SplitsExactly | feature/forward_address.go:30 | net.SplitHostPort yields a host and a port if and only if the string is host:port with a colon-free host, or the bracketed form of section 3.2.2 of RFC 3986, without further brackets and with a colon-free port. |
| NetworkAddress.SplitFailsBecause | feature/forward_address.go:30 | Which error a string without a leading bracket, or without a closing one, gets, by where its colons and brackets are. |
| NetworkAddress.BracketedFailsBecause | feature/forward_address.go:30 | The same for a host in brackets: missing port, too many colons, stray brackets, in this order. |
| NetworkAddress.NoColonFails | feature/forward_address.go:30 | Without any colon a port is missing. |
| NetworkAddress.PortIsWhatRemains | feature/forward_address.go:41 | The port is the only 16-bit number that differs from the one written by a multiple of 65536. |
| NetworkAddress.ParsesExactly | feature/forward_address.go:21-44 | The accepted language and its meaning: one of these forms with a decimal port below 2^32, of which the low 16 bits count. |
| NetworkAddress.RoundTrip | feature/forward_address.go:57-61 | Parsing what was printed gives the address back if and only if its hostname has no brackets. |
| NetworkAddress.PrintedParses | feature/forward_address.go:57-61 | What was printed parses at all if and only if the hostname has no brackets or is a colon-free name in one pair of brackets. |
| NetworkAddress.BracketsAreNotPrinted | feature/forward_address.go:57-61 | For every port: the hostname of one open bracket is printed as something that does not parse, and a name in brackets comes back without them. |
| NetworkAddress.ParsedSurvivesPrinting | feature/forward_address.go:26-61 | Every accepted string yields an address that is the same after being printed and parsed, also for ports above 65535. |
| NetworkAddress.PrintingIsInjective | feature/forward_address.go:26-61 | Two parsed addresses are printed alike only if they are equal. |
| PortForwarding.Parse | feature/forward_address.go:26-44 | The code with the scan of the port computes the specified result, errors included. |
| PortForwarding.Print | feature/forward_address.go:59-61 | The code with its digit buffer prints the specified string. |
| PortForwarding.JoinLaws | feature/forward_address.go:80 | All parts in order with one comma between any two: nothing for none, the part itself for one, and two lists joined by one more. |
| PortForwarding.NetworkAddressListVar.String | feature/forward_address.go:69-81 | All addresses printed in order and joined by commas; empty without a list. |
| PortForwarding.NetworkAddressListVar.Set | feature/forward_address.go:83-92 | A failed Set changes nothing; an accepted address is appended. |
| PortForwarding.NetworkAddressListVar.SetAll | feature/forward_address.go:63-92 | After any sequence of Set calls the list is extended by exactly the accepted addresses, in order. |
| PortForwarding.FilterInternal | feature/forward.go:34-44 | Granted if and only if the address is in the list. |
| PortForwarding.Allow | feature/forward.go:13-32 | A request with a uint32 port, per sections 7.1 and 7.2 of RFC 4254, is granted if and only if its host with the low 16 bits of the port is listed. |
| PortForwarding.FlagsDecide | feature/forward.go:13-44 | From the flag strings to the decision: granted if and only if some accepted flag says this host and a port with the same low 16 bits. |
| PortForwarding.GrantedExactly | feature/forward.go:17-44 | The list contains the requested address if and only if one of the flag strings is a written form of it. |

## Left out

- The interleavings of Session, LeakStatistics, LeakDetector, AsyncWait, AsyncCopy, TerminalInterleaving and DockerExec are stated on values; what the Go memory model allows beyond atomic steps is not modelled.
- LeakStatistics.StatisticsConserved: the counters are unbounded; their wrap-around after 2^64 verdicts is not modelled.
- LeakStatistics.NoDeadlock: says that some step is always possible, not that the scheduler gives every goroutine its turn. The same holds for TerminalInterleaving.NoDeadlock.
- LeakStatistics.Statistics.GetGlobalLeakDetectorStats: one caller at a time, so that the lock is free is required; the concurrent case is GetReturnsSnapshot.
- LeakDetector.DetectorCorrect: the timeout branch may be taken at any time there; LeakDeadline has the clock. The names that `fire` lists and the file positions stored by Add are left out.
- SessionTheorems.LeakVerdictSound: goroutines that a process registers itself are covered up to their Done; what they do is not modelled.
- SessionTheorems.RunCanReturnBeforeExit: a single schedule; how likely it is depends on the runtime.
- SessionObject.SessionRun.Run: one goroutine without a cancelled context; the race with the watcher is in Session.
- AsyncCopyProofs.CopyDeliversPrefix: a destination keeps to the contract of io.Writer; the branch of io.Copy for a destination that reports more bytes than it was given is left out.
- SessionStatistics.ExitIsReached: that an RWMutex lets readers that wait in before the next writer is not modelled, so further announcements count.
- WorkGroup.WorkGroupObject.Wait: calls of Add that arrive during a Wait without the lock are left out; the statistics never wait without it.
- AsyncIO.Read: an operation that gives up has moved nothing there; actions that go on afterwards are in AsyncCopy.
- AsyncIO.Write: the same.
- TerminalPair.Pair.RawMode: no error of the operating system; those are treated for one end only. Reading a mode and setting it are one operation.
- Repl.BufReader.ReadString: the size of bufio's buffer and its limit on empty reads are left out, as are prompt and welcome message.
- Repl.REPLProcess.RunLoopPty: line editing in the terminal package is left out; what ReadLine returns is given line by line.
- Repl.REPLProcess.Wait: after the loop, in one goroutine; the two goroutines are in WaitGetsTheFinalCode.
- DockerExec.ContainerExecProcess.ExecAndStream: the two helpers are started as a state of the state machine, which has their steps.
- DockerExec.ContainerExecProcess.Cleanup: closing of pipes and the attempt to unhang the terminal are left out.
- PortForwarding.NetworkAddressListVar.Set: an accepted address without a list to append to is a nil dereference in the source and is excluded.
- Decimal.FormatInt: negative numbers do not occur, since a port is 16 bits.
- NetworkAddress.ParsesExactly: error texts are left out; only which step failed and why is kept.
- StdCopy and its frames (internal/asyncio/copy.go:37-53): the format belongs to the docker library.
- The disabled detector (logging/detector.go:165-175): it does nothing.
- config/osexec, host keys, key parsing, window sizes, logging and the assembly of a server: foreign calls or plain wiring.
- EnablePortForwarding (feature/forward.go:59-87): it fills the handler maps of a server.
