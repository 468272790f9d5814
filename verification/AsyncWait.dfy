/** internal/asyncio/asyncio.go: Wait, a select between the end of an action and the context, and
    a second one between the end of the action and a deadline. */
module AsyncWait {
  import opened Options

  type Time = int

  datatype Pc = Entry | Select1 | CallCancel | CheckTimeout | Select2(deadline: Time) | Ret(ok: bool)

  datatype Action = NotStarted | Running | Finished

  /** One call of Wait. `cancels` counts the calls of its cancel function. */
  datatype Call = Call(pc: Pc, action: Action, timeout: Time, hasCancel: bool, cancels: nat)

  function NewCall(timeout: Time, hasCancel: bool): Call { Call(Entry, NotStarted, timeout, hasCancel, 0) }

  datatype Step = Enter | TakeDone | TakeContext | Cancels | Checks | TakeTimeout

  /** A select takes any branch that is ready. */
  predicate Enabled(w: Call, step: Step, cancelled: bool, now: Time) {
    match step
    case Enter => w.pc.Entry?
    case TakeDone => (w.pc.Select1? || w.pc.Select2?) && w.action.Finished?
    case TakeContext => w.pc.Select1? && cancelled
    case Cancels => w.pc.CallCancel?
    case Checks => w.pc.CheckTimeout?
    case TakeTimeout => w.pc.Select2? && now >= w.pc.deadline
  }

  function Apply(w: Call, step: Step, cancelled: bool, now: Time): Call
    requires Enabled(w, step, cancelled, now)
  {
    match step
    case Enter => if cancelled then w.(pc := Ret(false)) else w.(pc := Select1, action := Running)
    case TakeDone => w.(pc := Ret(true))
    case TakeContext => w.(pc := CallCancel)
    case Cancels => w.(pc := CheckTimeout, cancels := w.cancels + (if w.hasCancel then 1 else 0))
    case Checks => w.(pc := if w.timeout <= 0 then Ret(false) else Select2(now + w.timeout))
    case TakeTimeout => w.(pc := Ret(false))
  }

  /** Some step can be taken now, so that no time passes before one is. */
  predicate Urgent(w: Call, cancelled: bool, now: Time) {
    match w.pc
    case Entry => true
    case Select1 => w.action.Finished? || cancelled
    case CallCancel => true
    case CheckTimeout => true
    case Select2(deadline) => w.action.Finished? || now >= deadline
    case Ret(_) => false
  }

  lemma UrgentMeansEnabled(w: Call, cancelled: bool, now: Time)
    ensures Urgent(w, cancelled, now) <==> exists step :: Enabled(w, step, cancelled, now)
  {
    if Urgent(w, cancelled, now) {
      var step :=
        match w.pc
        case Entry => Enter
        case Select1 => if w.action.Finished? then TakeDone else TakeContext
        case CallCancel => Cancels
        case CheckTimeout => Checks
        case Select2(_) => if w.action.Finished? then TakeDone else TakeTimeout
        case Ret(_) => Enter;
      assert Enabled(w, step, cancelled, now);
    }
  }

  function StepsLeft(pc: Pc): nat {
    match pc
    case Entry => 5
    case Select1 => 4
    case CallCancel => 3
    case CheckTimeout => 2
    case Select2(_) => 1
    case Ret(_) => 0
  }

  /** Every step brings the call closer to its return. */
  lemma StepsLead(w: Call, step: Step, cancelled: bool, now: Time)
    requires Enabled(w, step, cancelled, now)
    ensures StepsLeft(Apply(w, step, cancelled, now).pc) < StepsLeft(w.pc)
  {
  }

  /** Time may pass by d: nothing is urgent and no timer is skipped. */
  predicate CanPass(w: Call, cancelled: bool, now: Time, d: Time) {
    d > 0 && !Urgent(w, cancelled, now) && (w.pc.Select2? ==> now + d <= w.pc.deadline)
  }

  /** How place and action go together. */
  predicate Coherent(w: Call, cancelled: bool) {
    && (w.pc.Entry? ==> w.action.NotStarted?)
    && (w.pc.Select1? || w.pc.CallCancel? || w.pc.CheckTimeout? || w.pc.Select2? ==> !w.action.NotStarted?)
    && (w.pc == Ret(true) ==> w.action.Finished?)
    && (w.pc.CallCancel? || w.pc.CheckTimeout? || w.pc.Select2? || w.pc == Ret(false) ==> cancelled)
  }

  function Max(a: Time, b: Time): Time { if a < b then b else a }

  /** Where the call can be at this time, if it began at `start` and the context was cancelled at
      `at`: before its second select it is no later than both, and there it has its timeout. */
  predicate InTime(w: Call, start: Time, at: Time, now: Time) {
    var both := Max(start, at);
    && (w.pc.Select1? || w.pc.CallCancel? || w.pc.CheckTimeout? ==> now <= both)
    && (w.pc.Select2? ==> now <= w.pc.deadline <= both + w.timeout)
  }

  // ----- one call, its action, its context and the clock

  /** All but `w` and `now` is history; `actionAt` is when the action ended. */
  datatype State = State(
    w: Call,
    now: Time,
    start: Time,
    wasCancelled: bool,
    cancelAt: Option<Time>,
    actionAt: Option<Time>,
    returnAt: Option<Time>)

  datatype Event = Own(step: Step) | ActionEnds | ContextEnds | Pass(d: Time)

  predicate Possible(s: State, e: Event) {
    match e
    case Own(step) => Enabled(s.w, step, s.cancelAt.Some?, s.now)
    case ActionEnds => s.w.action.Running?
    case ContextEnds => s.cancelAt.None?
    case Pass(d) => CanPass(s.w, s.cancelAt.Some?, s.now, d)
  }

  function After(s: State, e: Event): State
    requires Possible(s, e)
  {
    match e
    case Own(step) =>
      var w := Apply(s.w, step, s.cancelAt.Some?, s.now);
      s.(w := w, returnAt := if w.pc.Ret? then Some(s.now) else None)
    case ActionEnds => s.(w := s.w.(action := Finished), actionAt := Some(s.now))
    case ContextEnds => s.(cancelAt := Some(s.now))
    case Pass(d) => s.(now := s.now + d)
  }

  /** Wait is called at `start` with a context that may have been cancelled before. */
  predicate Called(s: State) {
    && s.w == NewCall(s.w.timeout, s.w.hasCancel)
    && s.now == s.start && s.returnAt.None? && s.actionAt.None?
    && (s.wasCancelled <==> s.cancelAt.Some?)
    && (s.cancelAt.Some? ==> s.cancelAt.value <= s.now)
  }

  /** The promises of Wait. */
  ghost predicate Contract(s: State) {
    // true means that the action has finished, and it is returned at that instant
    && (s.w.pc == Ret(true) ==> s.w.action.Finished? && s.returnAt == s.actionAt)
    // false means that the context was cancelled by the first look at it; or that the action has been
    // given its timeout after the cancellation, and has not finished before that was over
    && (s.w.pc == Ret(false) ==> s.cancelAt.Some? && s.returnAt.Some?)
    && (s.w.pc == Ret(false) && s.w.action.NotStarted? ==> s.cancelAt.value <= s.start == s.returnAt.value)
    && (s.w.pc == Ret(false) && !s.w.action.NotStarted? ==>
          && s.returnAt.value == Max(s.start, s.cancelAt.value) + Max(s.w.timeout, 0)
          && (s.actionAt.Some? ==> s.actionAt.value >= s.returnAt.value))
    // with a context that was cancelled before, the action is never started and nothing is cancelled
    && (s.wasCancelled ==> s.w.action.NotStarted? && s.w.cancels == 0 && s.w.pc != Ret(true))
    // cancel is called at most once, and only after the context was cancelled
    && s.w.cancels <= 1
    && (s.w.cancels == 1 ==> s.w.hasCancel && s.cancelAt.Some?)
    // it returns within the timeout after the cancellation, if not earlier
    && (s.cancelAt.Some? ==>
          var latest := Max(s.start, s.cancelAt.value) + Max(s.w.timeout, 0);
          if s.returnAt.Some? then s.returnAt.value <= latest else s.now <= latest)
  }

  ghost predicate Invariant(s: State) {
    && Coherent(s.w, s.cancelAt.Some?)
    && s.start <= s.now
    && (s.returnAt.Some? <==> s.w.pc.Ret?)
    && (s.wasCancelled ==> s.cancelAt.Some? && s.w.action.NotStarted? && s.w.cancels == 0)
    && (s.cancelAt.Some? ==> s.cancelAt.value <= s.now && InTime(s.w, s.start, s.cancelAt.value, s.now))
    && (s.w.pc.Entry? ==> s.now == s.start)
    && s.w.cancels <= (if s.w.pc.CheckTimeout? || s.w.pc.Select2? || s.w.pc.Ret? then 1 else 0)
    && (s.w.cancels == 1 ==> s.w.hasCancel && s.cancelAt.Some?)
    && (s.w.pc.Select2? ==> s.w.timeout > 0)
    && (s.returnAt.Some? && s.cancelAt.Some? ==>
          s.returnAt.value <= Max(s.start, s.cancelAt.value) + Max(s.w.timeout, 0))
    && (s.returnAt.Some? ==> s.returnAt.value <= s.now)
    && (s.w.action.Finished? <==> s.actionAt.Some?)
    && (s.actionAt.Some? ==> s.start <= s.actionAt.value <= s.now)
    && (BeforeTimeout(s.w.pc) ==> AtOnce(s.actionAt, s.now) && AtOnce(s.cancelAt, s.now))
    && (s.w.pc.Select2? ==>
          && s.cancelAt.Some? && s.start <= s.cancelAt.value && AtOnce(s.actionAt, s.now)
          && s.w.pc.deadline == s.cancelAt.value + s.w.timeout)
    && Answered(s)
  }

  /** Why and when the call has returned. */
  ghost predicate Answered(s: State) {
    && (s.w.pc == Ret(true) ==> s.returnAt == s.actionAt)
    && (s.w.pc == Ret(false) && s.w.action.NotStarted? ==>
          s.returnAt == Some(s.start) && s.cancelAt.Some? && s.cancelAt.value <= s.start)
    && (s.w.pc == Ret(false) && !s.w.action.NotStarted? ==>
          && s.cancelAt.Some? && s.start <= s.cancelAt.value
          && s.returnAt == Some(s.cancelAt.value + Max(s.w.timeout, 0))
          && (s.actionAt.Some? ==> s.actionAt.value >= s.returnAt.value))
  }

  /** The time of the second select has not begun yet. */
  predicate BeforeTimeout(pc: Pc) { pc.Select1? || pc.CallCancel? || pc.CheckTimeout? }

  /** If it has happened, it was at this instant. */
  predicate AtOnce(at: Option<Time>, now: Time) { at.Some? ==> at.value == now }

  lemma InvariantPreserved(s: State, e: Event)
    requires Invariant(s) && Possible(s, e)
    ensures Invariant(After(s, e))
  {
  }

  ghost predicate IsRun(states: seq<State>, events: seq<Event>) {
    && |states| == |events| + 1
    && Called(states[0])
    && forall i {:trigger events[i]} :: 0 <= i < |events| ==>
         Possible(states[i], events[i]) && states[i + 1] == After(states[i], events[i])
  }

  lemma {:induction false} InvariantAlong(states: seq<State>, events: seq<Event>, i: nat)
    requires IsRun(states, events) && i <= |events|
    ensures Invariant(states[i])
  {
    if i > 0 {
      InvariantAlong(states, events, i - 1);
      InvariantPreserved(states[i - 1], events[i - 1]);
    }
  }

  lemma WaitContract(states: seq<State>, events: seq<Event>, i: nat)
    requires IsRun(states, events) && i <= |events|
    ensures Contract(states[i])
  {
    InvariantAlong(states, events, i);
  }

  // ----- when cancel is called for an action that has finished

  /** The i-th event of the run calls cancel, and the action has finished before. */
  ghost predicate CancelsFinished(states: seq<State>, events: seq<Event>, i: nat) {
    && IsRun(states, events) && i < |events| && events[i] == Own(Cancels)
    && states[i].w.hasCancel && states[i].w.action.Finished?
  }

  /** It happens only if the action ended at the very instant at which the context was cancelled. */
  lemma CancelsFinishedAtOnce(states: seq<State>, events: seq<Event>, i: nat)
    requires CancelsFinished(states, events, i)
    ensures states[i].actionAt == states[i].cancelAt == Some(states[i].now) && states[i].start <= states[i].now
  {
    InvariantAlong(states, events, i);
    assert Possible(states[i], events[i]);
  }

  lemma Extend(states: seq<State>, events: seq<Event>, e: Event) returns (states': seq<State>, events': seq<Event>)
    requires IsRun(states, events) && Possible(states[|events|], e)
    ensures IsRun(states', events') && states'[|events'|] == After(states[|events|], e)
    ensures states' == states + [After(states[|events|], e)] && events' == events + [e]
  {
    states', events' := states + [After(states[|events|], e)], events + [e];
    assert forall i :: 0 <= i < |events| ==> events'[i] == events[i];
  }

  /** Wait has been called at `start` and is in its first select at `at`; nothing has happened yet. */
  lemma RunToSelect(timeout: Time, start: Time, at: Time) returns (states: seq<State>, events: seq<Event>)
    requires start <= at
    ensures IsRun(states, events)
    ensures states[|events|] == State(Call(Select1, Running, timeout, true, 0), at, start, false, None, None, None)
  {
    states, events := [State(NewCall(timeout, true), start, start, false, None, None, None)], [];
    states, events := Extend(states, events, Own(Enter));
    if start < at {
      states, events := Extend(states, events, Pass(at - start));
    }
  }

  /** And then it may happen: both branches of the first select are ready, and it takes the context. */
  lemma CancelMayComeAfterTheAction(timeout: Time, start: Time, at: Time)
      returns (states: seq<State>, events: seq<Event>, i: nat)
    requires start <= at
    ensures CancelsFinished(states, events, i)
    ensures states[i].w.timeout == timeout && states[i].start == start
    ensures states[i].actionAt == states[i].cancelAt == Some(at)
    ensures |events| == i + 1 && states[i + 1].w.cancels == 1
  {
    states, events := RunToSelect(timeout, start, at);
    states, events := Extend(states, events, ActionEnds);
    states, events := Extend(states, events, ContextEnds);
    states, events := Extend(states, events, Own(TakeContext));
    i := |events|;
    states, events := Extend(states, events, Own(Cancels));
  }

  /** The comment on Wait says that cancel is called if the action has not finished. It can be called
      for an action that ended at one time, with a context cancelled at another, if and only if these
      are the same instant, not before the call. */
  lemma CancelOnFinishedExactly(timeout: Time, start: Time, actionAt: Time, cancelAt: Time)
    ensures (exists states, events, i :: CancelsFinishedWith(states, events, i, timeout, start, actionAt, cancelAt))
            <==> start <= actionAt == cancelAt
  {
    forall states, events, i | CancelsFinishedWith(states, events, i, timeout, start, actionAt, cancelAt)
      ensures start <= actionAt == cancelAt
    {
      CancelsFinishedAtOnce(states, events, i);
    }
    if start <= actionAt == cancelAt {
      var states, events, i := CancelMayComeAfterTheAction(timeout, start, actionAt);
      assert CancelsFinishedWith(states, events, i, timeout, start, actionAt, cancelAt);
    }
  }

  ghost predicate CancelsFinishedWith(states: seq<State>, events: seq<Event>, i: nat,
                                      timeout: Time, start: Time, actionAt: Time, cancelAt: Time)
  {
    && CancelsFinished(states, events, i)
    && states[i].w.timeout == timeout && states[i].start == start
    && states[i].actionAt == Some(actionAt) && states[i].cancelAt == Some(cancelAt)
  }
}
