/** logging/detector.go, one detector: a wait group and a map that Add and Done change one after
    the other, and the goroutines that Finish starts. One step is one atomic operation; a name
    stands for the goroutine that is adding it or calling Done for it. */
module LeakDetector {
  import opened Counting

  /** The life of a name: Add counts it and then stores it; Done uncounts it, looks it up and
      deletes it. */
  datatype Phase = Counted | Stored | Uncounted | Found | Deleted

  /** The goroutine that only waits for the wait group, and then closes its channel. */
  datatype Waiter = Blocked | Passed | Closed

  /** The goroutine started by Finish; `before` is the history of names registered at that time. */
  datatype Check<N> =
    | NotFinished
    | Selecting(before: set<N>, waiter: Waiter)
    | Verdict(before: set<N>, ok: bool)

  datatype State<N> = State(
    counter: int,
    names: set<N>,
    phases: map<N, Phase>,
    check: Check<N>,
    panicked: bool)

  datatype Step<N> =
    | AddCount(name: N)
    | AddStore(name: N)
    | DoneCount(name: N)
    | DoneLoad(name: N)
    | DoneDelete(name: N)
    | Finish
    | WaiterPasses
    | WaiterCloses
    | SelectWaiter
    | SelectTimeout

  function Fresh<N>(): State<N> { State(0, {}, map[], NotFinished, false) }

  predicate In<N(==)>(s: State<N>, n: N, p: Phase) { n in s.phases && s.phases[n] == p }

  /** What the callers must keep to: a name is added once, and Done is called once for it, after
      its Add has returned. */
  predicate Allowed<N(==)>(s: State<N>, step: Step<N>) {
    match step
    case AddCount(n) => n !in s.phases
    case AddStore(n) => In(s, n, Counted)
    case DoneCount(n) => In(s, n, Stored)
    case DoneLoad(n) => In(s, n, Uncounted)
    case DoneDelete(n) => In(s, n, Found)
    case Finish => s.check.NotFinished?
    case _ => true
  }

  /** What the detector's own goroutines wait for. */
  predicate Ready<N>(s: State<N>, step: Step<N>) {
    match step
    case WaiterPasses => s.check.Selecting? && s.check.waiter.Blocked? && s.counter == 0
    case WaiterCloses => s.check.Selecting? && s.check.waiter.Passed?
    case SelectWaiter => s.check.Selecting? && s.check.waiter.Closed?
    case SelectTimeout => s.check.Selecting?
    case _ => true
  }

  /** The effect of a step, whoever takes it: nothing here relies on `Allowed`. */
  function Apply<N>(s: State<N>, step: Step<N>): State<N>
    requires Ready(s, step)
  {
    match step
    case AddCount(n) => s.(counter := s.counter + 1, phases := s.phases[n := Counted])
    case AddStore(n) =>
      s.(names := s.names + {n}, phases := s.phases[n := Stored], panicked := s.panicked || n in s.names)
    case DoneCount(n) =>
      s.(counter := s.counter - 1, phases := s.phases[n := Uncounted], panicked := s.panicked || s.counter <= 0)
    case DoneLoad(n) => s.(phases := s.phases[n := Found], panicked := s.panicked || n !in s.names)
    case DoneDelete(n) => s.(names := s.names - {n}, phases := s.phases[n := Deleted])
    case Finish => s.(check := Selecting(s.phases.Keys, Blocked))
    case WaiterPasses => s.(check := s.check.(waiter := Passed))
    case WaiterCloses => s.(check := s.check.(waiter := Closed))
    case SelectWaiter => s.(check := Verdict(s.check.before, true))
    case SelectTimeout => s.(check := Verdict(s.check.before, false))
  }

  predicate IsCounted(p: Phase) { p == Counted || p == Stored }
  predicate IsStored(p: Phase) { p == Stored || p == Uncounted || p == Found }
  predicate InAdd(p: Phase) { p == Counted }
  predicate InDone(p: Phase) { p == Uncounted || p == Found }
  predicate DoneBegun(p: Phase) { p == Uncounted || p == Found || p == Deleted }

  ghost predicate Invariant<N(!new)>(s: State<N>) {
    && s.counter == Count(s.phases, IsCounted)
    && s.names == Where(s.phases, IsStored)
    && !s.panicked
    && VerdictSound(s)
  }

  /** Once the wait group has let the waiter pass, every name registered before Finish has begun
      its Done; a verdict of leak_ok needs that. */
  ghost predicate VerdictSound<N(!new)>(s: State<N>) {
    match s.check
    case NotFinished => true
    case Selecting(before, waiter) =>
      before <= s.phases.Keys && (waiter != Blocked ==> forall n :: n in before ==> DoneBegun(s.phases[n]))
    case Verdict(before, ok) =>
      before <= s.phases.Keys && (ok ==> forall n :: n in before ==> DoneBegun(s.phases[n]))
  }

  lemma FreshInvariant<N(!new)>()
    ensures Invariant(Fresh<N>())
  {
    var s := Fresh<N>();
    assert Where(s.phases, IsCounted) == {} && Where(s.phases, IsStored) == {};
  }

  lemma InvariantPreserved<N(!new)>(s: State<N>, step: Step<N>)
    requires Invariant(s) && Allowed(s, step) && Ready(s, step)
    ensures Invariant(Apply(s, step))
  {
    var s' := Apply(s, step);
    match step
    case AddCount(n) => Moved(s, s', n);
    case AddStore(n) => Moved(s, s', n);
    case DoneCount(n) =>
      Moved(s, s', n);
      assert n in Where(s.phases, IsCounted);
    case DoneLoad(n) => Moved(s, s', n);
    case DoneDelete(n) => Moved(s, s', n);
    case WaiterPasses =>
      assert Where(s.phases, IsCounted) == {};
      forall n | n in s.check.before
        ensures DoneBegun(s.phases[n])
      {
        assert n !in Where(s.phases, IsCounted);
      }
    case _ =>
  }

  lemma Moved<N>(s: State<N>, s': State<N>, n: N)
    requires n in s'.phases && s'.phases == s.phases[n := s'.phases[n]]
    ensures Count(s'.phases, IsCounted)
         == Count(s.phases, IsCounted) - (if n in s.phases && IsCounted(s.phases[n]) then 1 else 0)
          + (if IsCounted(s'.phases[n]) then 1 else 0)
    ensures Where(s'.phases, IsStored)
         == if IsStored(s'.phases[n]) then Where(s.phases, IsStored) + {n} else Where(s.phases, IsStored) - {n}
  {
    CountAfterUpdate(s.phases, n, s'.phases[n], IsCounted);
  }

  ghost predicate IsRun<N(!new)>(states: seq<State<N>>, steps: seq<Step<N>>) {
    && |states| == |steps| + 1
    && states[0] == Fresh()
    && forall i {:trigger steps[i]} :: 0 <= i < |steps| ==>
         Allowed(states[i], steps[i]) && Ready(states[i], steps[i]) && states[i + 1] == Apply(states[i], steps[i])
  }

  lemma {:induction false} InvariantAlong<N(!new)>(states: seq<State<N>>, steps: seq<Step<N>>, i: nat)
    requires IsRun(states, steps) && i <= |steps|
    ensures Invariant(states[i])
  {
    if i == 0 {
      FreshInvariant<N>();
    } else {
      InvariantAlong(states, steps, i - 1);
      InvariantPreserved(states[i - 1], steps[i - 1]);
    }
  }

  predicate AtRest(p: Phase) { p == Stored }

  lemma Partition<N>(phases: map<N, Phase>)
    ensures Count(phases, IsCounted) == Count(phases, AtRest) + Count(phases, InAdd)
    ensures Count(phases, IsStored) == Count(phases, AtRest) + Count(phases, InDone)
  {
    var rest, adding, doing := Where(phases, AtRest), Where(phases, InAdd), Where(phases, InDone);
    assert Where(phases, IsCounted) == rest + adding && rest !! adding;
    assert Where(phases, IsStored) == rest + doing && rest !! doing;
  }

  /** The two halves of the detector never drift apart by more than the calls in flight. */
  lemma Accounting<N(!new)>(s: State<N>)
    requires Invariant(s)
    ensures s.counter == |s.names| + Count(s.phases, InAdd) - Count(s.phases, InDone)
    ensures s.counter >= 0
  {
    Partition(s.phases);
  }

  /** Over all runs of callers that keep to the rules: the accounting holds at every step, neither
      panic is reached, and a verdict of leak_ok means that everything registered before Finish
      had begun its Done. */
  lemma DetectorCorrect<N(!new)>(states: seq<State<N>>, steps: seq<Step<N>>, i: nat)
    requires IsRun(states, steps) && i <= |steps|
    ensures var s := states[i];
            && s.counter == |s.names| + Count(s.phases, InAdd) - Count(s.phases, InDone) >= 0
            && !s.panicked
            && (s.check.Verdict? && s.check.ok ==>
                  forall n :: n in s.check.before ==> n in s.phases && DoneBegun(s.phases[n]))
  {
    InvariantAlong(states, steps, i);
    Accounting(states[i]);
  }

  // ----- which way and how far

  /** The verdict tells which branch the select of Finish has taken. */
  lemma {:induction false} VerdictTellsTheBranch<N(!new)>(states: seq<State<N>>, steps: seq<Step<N>>, i: nat)
      returns (j: nat)
    requires IsRun(states, steps) && i <= |steps| && states[i].check.Verdict?
    ensures j < i && steps[j] == if states[i].check.ok then SelectWaiter else SelectTimeout
    ensures states[j].check.Selecting? && states[j].check.before == states[i].check.before
    ensures states[i].check.ok ==> states[j].check.waiter.Closed?
  {
    var s, step := states[i - 1], steps[i - 1];
    if s.check.Verdict? {
      j := VerdictTellsTheBranch(states, steps, i - 1);
    } else {
      j := i - 1;
    }
  }

  /** Steps that a name, and the goroutines of Finish, have still to take. */
  function NameSteps(p: Phase): nat {
    match p
    case Counted => 4
    case Stored => 3
    case Uncounted => 2
    case Found => 1
    case Deleted => 0
  }

  function CheckSteps<N>(c: Check<N>): nat {
    match c
    case NotFinished => 4
    case Selecting(_, waiter) => if waiter.Blocked? then 3 else if waiter.Passed? then 2 else 1
    case Verdict(_, _) => 0
  }

  predicate OfName<N>(step: Step<N>) {
    step.AddCount? || step.AddStore? || step.DoneCount? || step.DoneLoad? || step.DoneDelete?
  }

  /** Every step of a caller takes its name one step further and leaves the rest of Finish alone; and every
      step of Finish brings the verdict closer. */
  lemma StepsLead<N>(s: State<N>, step: Step<N>)
    requires Allowed(s, step) && Ready(s, step)
    ensures var s' := Apply(s, step);
            if OfName(step) then
              var n := step.name;
              && s'.check == s.check
              && s'.phases.Keys == s.phases.Keys + {n}
              && NameSteps(s'.phases[n]) == (if n in s.phases then NameSteps(s.phases[n]) else 5) - 1
            else
              && s'.phases == s.phases && s'.counter == s.counter && s'.names == s.names
              && CheckSteps(s'.check) < CheckSteps(s.check)
              && (step.Finish? ==> s'.check == Selecting(s.phases.Keys, Blocked))
              && (step.WaiterPasses? || step.WaiterCloses? ==> CheckSteps(s'.check) == CheckSteps(s.check) - 1)
  {
  }

  // ----- names that are used again

  /** The step itself raises a panic. */
  predicate Panics<N>(s: State<N>, step: Step<N>)
    requires Ready(s, step)
  {
    Apply(s.(panicked := false), step).panicked
  }

  /** Steps one after the other, whether or not their callers keep to the rules. */
  function ApplyAll<N>(s: State<N>, steps: seq<Step<N>>): State<N>
    decreases |steps|
  {
    if steps == [] || !Ready(s, steps[0]) then s else ApplyAll(Apply(s, steps[0]), steps[1..])
  }

  predicate AllReady<N>(s: State<N>, steps: seq<Step<N>>)
    decreases |steps|
  {
    steps == [] || (Ready(s, steps[0]) && AllReady(Apply(s, steps[0]), steps[1..]))
  }

  /** A name is in the map after some steps: one of them stored it, or it was there, and none deleted it
      since. */
  predicate StoredThen<N(==)>(stored: bool, steps: seq<Step<N>>, n: N) {
    || (stored && DoneDelete(n) !in steps)
    || exists k :: 0 <= k < |steps| && StoredLast(steps, n, k)
  }

  predicate StoredLast<N(==)>(steps: seq<Step<N>>, n: N, k: nat)
    requires k < |steps|
  {
    steps[k] == AddStore(n) && DoneDelete(n) !in steps[k + 1..]
  }

  lemma {:induction false} NamesAfter<N(!new)>(s: State<N>, steps: seq<Step<N>>, n: N)
    requires AllReady(s, steps)
    ensures n in ApplyAll(s, steps).names <==> StoredThen(n in s.names, steps, n)
    decreases |steps|
  {
    if steps != [] {
      var s1, rest := Apply(s, steps[0]), steps[1..];
      NamesAfter(s1, rest, n);
      FirstThenRest(n in s.names, n in s1.names, steps, n);
    }
  }

  lemma {:induction false} FirstThenRest<N>(stored: bool, stored1: bool, steps: seq<Step<N>>, n: N)
    requires steps != []
    requires stored1 <==> steps[0] == AddStore(n) || (stored && steps[0] != DoneDelete(n))
    ensures StoredThen(stored, steps, n) <==> StoredThen(stored1, steps[1..], n)
  {
    var rest := steps[1..];
    assert steps == [steps[0]] + rest;
    forall k | 0 <= k < |rest|
      ensures StoredLast(rest, n, k) <==> StoredLast(steps, n, k + 1)
    {
      assert rest[k + 1..] == steps[k + 2..];
    }
    if k :| 0 <= k < |rest| && StoredLast(rest, n, k) {
      assert StoredLast(steps, n, k + 1);
    }
    if k :| 0 < k < |steps| && StoredLast(steps, n, k) {
      assert StoredLast(rest, n, k - 1);
    }
    assert StoredLast(steps, n, 0) <==> steps[0] == AddStore(n) && DoneDelete(n) !in rest;
  }

  /** When a further Add of a name panics, whatever others do between its two steps: the name was stored
      when it was counted, or has been since, and no Done has deleted it up to the store. The interface
      comment promises a panic upon any reuse. */
  lemma ReusePanicsExactly<N(!new)>(s: State<N>, n: N, between: seq<Step<N>>)
    requires Invariant(s) && AllReady(Apply(s, AddCount(n)), between)
    ensures Panics(ApplyAll(Apply(s, AddCount(n)), between), AddStore(n))
            <==> StoredThen(n in s.phases && IsStored(s.phases[n]), between, n)
  {
    NamesAfter(Apply(s, AddCount(n)), between, n);
  }

  /** When a further Done of a name panics, whatever others do between its count and its look-up: at the
      count if nothing is counted any more; at the look-up if the name is not in the map by then. So it
      always does after the first Done has returned, unless the name is added once more. */
  lemma ReusedDonePanicsExactly<N(!new)>(s: State<N>, n: N, between: seq<Step<N>>)
    requires Invariant(s) && AllReady(Apply(s, DoneCount(n)), between)
    ensures Panics(s, DoneCount(n)) <==> forall m :: m in s.phases ==> !IsCounted(s.phases[m])
    ensures Panics(ApplyAll(Apply(s, DoneCount(n)), between), DoneLoad(n))
            <==> !StoredThen(n in s.phases && IsStored(s.phases[n]), between, n)
    ensures In(s, n, Deleted) && AddStore(n) !in between ==>
              Panics(ApplyAll(Apply(s, DoneCount(n)), between), DoneLoad(n))
  {
    NamesAfter(Apply(s, DoneCount(n)), between, n);
    if s.counter <= 0 {
      assert Where(s.phases, IsCounted) == {};
      assert forall m :: m in s.phases ==> m !in Where(s.phases, IsCounted);
    } else {
      var m := WitnessOfCount(s.phases, IsCounted);
    }
  }

  /** A name that has been added and done can be added again without any panic. */
  lemma ReuseCanGoUnnoticed()
    ensures var add, done := [AddCount(7), AddStore(7)], [DoneCount(7), DoneLoad(7), DoneDelete(7)];
            !ApplyAll(Fresh<int>(), add + done + add).panicked
  {
    var s0 := Fresh<int>();
    var s1 := Apply(s0, AddCount(7));
    var s2 := Apply(s1, AddStore(7));
    var s3 := Apply(s2, DoneCount(7));
    var s4 := Apply(s3, DoneLoad(7));
    var s5 := Apply(s4, DoneDelete(7));
    var s6 := Apply(s5, AddCount(7));
    var s7 := Apply(s6, AddStore(7));
    var steps := [AddCount(7), AddStore(7)] + [DoneCount(7), DoneLoad(7), DoneDelete(7)] + [AddCount(7), AddStore(7)];
    assert ApplyAll(s7, steps[7..]) == s7;
    assert ApplyAll(s6, steps[6..]) == s7;
    assert ApplyAll(s5, steps[5..]) == s7;
    assert ApplyAll(s4, steps[4..]) == s7;
    assert ApplyAll(s3, steps[3..]) == s7;
    assert ApplyAll(s2, steps[2..]) == s7;
    assert ApplyAll(s1, steps[1..]) == s7;
    assert steps[0..] == steps;
  }

  /** The object. Its two fields change one after the other; `panics` stands for a panic of the
      wait group or of the method itself, after which nothing further runs. */
  class MemoryLeakDetectorOn {
    var wg: int
    var m: map<string, string>

    ghost predicate Models(s: State<string>)
      reads this
    {
      wg == s.counter && m.Keys == s.names
    }

    constructor ()
      ensures Models(Fresh())
    {
      wg, m := 0, map[];
    }

    method Add(name: string, caller: string, ghost s: State<string>) returns (panics: bool)
      requires Models(s)
      modifies this
      ensures var s1 := Apply(Apply(s, AddCount(name)), AddStore(name));
              Models(s1) && (!s.panicked ==> (panics <==> s1.panicked))
      ensures m == if panics then old(m) else old(m)[name := caller]
    {
      wg := wg + 1;
      if name in m {
        return true;
      }
      m := m[name := caller];
      return false;
    }

    method Done(name: string, ghost s: State<string>) returns (panics: bool)
      requires Models(s)
      modifies this
      ensures panics <==> old(wg) <= 0 || name !in old(m)
      ensures var s2 := Apply(Apply(s, DoneCount(name)), DoneLoad(name));
              (!s.panicked ==> (panics <==> s2.panicked)) && (!panics ==> Models(Apply(s2, DoneDelete(name))))
      ensures m == if panics then old(m) else old(m) - {name}
    {
      wg := wg - 1;
      if wg < 0 || name !in m {
        return true;
      }
      m := m - {name};
      return false;
    }
  }
}
