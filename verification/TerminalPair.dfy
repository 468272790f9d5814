/** internal/term/pair.go: the two ends of a pseudo terminal, each with a descriptor, a lock and
    the mode it saved when it was put into raw mode. The two descriptors may stand for one
    device, so that they share one underlying mode. */
module TerminalPair {
  import opened Options

  type Mode = int
  type Device = nat
  type Goroutine = nat

  /** One end. An end that is missing (a pair made by Use has no tty) is never saved. */
  datatype End = End(present: bool, device: Device, isTerminal: bool, saved: Option<Mode>)

  /** The modes of all devices, and the two ends. */
  datatype Ends = Ends(modes: map<Device, Mode>, pty: End, tty: End)

  predicate Valid(e: Ends) {
    && e.pty.device in e.modes && e.tty.device in e.modes
    && (e.pty.saved.Some? ==> e.pty.present && e.pty.isTerminal)
    && (e.tty.saved.Some? ==> e.tty.present && e.tty.isTerminal)
  }

  // ----- one end

  predicate CanSave(t: End) { t.present && t.isTerminal && t.saved.None? }

  function RawEnd(modes: map<Device, Mode>, t: End, raw: Mode -> Mode): (map<Device, Mode>, End)
    requires t.device in modes
  {
    if CanSave(t) then (modes[t.device := raw(modes[t.device])], t.(saved := Some(modes[t.device])))
    else (modes, t)
  }

  function RestoreEnd(modes: map<Device, Mode>, t: End): (map<Device, Mode>, End) {
    if t.saved.Some? then (modes[t.device := t.saved.value], t.(saved := None)) else (modes, t)
  }

  // ----- the pair

  function RawPty(e: Ends, raw: Mode -> Mode): Ends
    requires Valid(e)
  {
    var (modes, t) := RawEnd(e.modes, e.pty, raw);
    e.(modes := modes, pty := t)
  }

  function RawTty(e: Ends, raw: Mode -> Mode): Ends
    requires Valid(e)
  {
    var (modes, t) := RawEnd(e.modes, e.tty, raw);
    e.(modes := modes, tty := t)
  }

  function RestorePty(e: Ends): Ends {
    var (modes, t) := RestoreEnd(e.modes, e.pty);
    e.(modes := modes, pty := t)
  }

  function RestoreTty(e: Ends): Ends {
    var (modes, t) := RestoreEnd(e.modes, e.tty);
    e.(modes := modes, tty := t)
  }

  function Raised(e: Ends, raw: Mode -> Mode): (e': Ends)
    requires Valid(e)
    ensures Valid(e')
  {
    RawTty(RawPty(e, raw), raw)
  }

  function Restored(e: Ends): Ends { RestorePty(RestoreTty(e)) }

  /** The modes that a RestoreMode would leave now. */
  function Undone(e: Ends): map<Device, Mode> { Restored(e).modes }

  // ----- the operations on one end, in any order

  /** What RawMode and RestoreMode do under the lock of one end. Any overlap of such calls is some
      sequence of these. */
  datatype EndStep = RaisePty | RaiseTty | PutBackTty | PutBackPty

  function ApplyEnd(e: Ends, step: EndStep, raw: Mode -> Mode): (e': Ends)
    requires Valid(e)
    ensures Valid(e')
  {
    match step
    case RaisePty => RawPty(e, raw)
    case RaiseTty => RawTty(e, raw)
    case PutBackTty => RestoreTty(e)
    case PutBackPty => RestorePty(e)
  }

  /** What to look at before a step. Only the pty can do harm, and only while the tty is saved: raising
      it saves, and putting it back leaves, a mode that has to be the one that the tty saved, if the
      two share a device. */
  predicate Harmless(e: Ends, step: EndStep)
    requires Valid(e)
  {
    match step
    case RaisePty =>
      CanSave(e.pty) && e.tty.saved.Some? && e.pty.device == e.tty.device ==>
        e.tty.saved.value == e.modes[e.pty.device]
    case PutBackPty =>
      e.pty.saved.Some? && e.tty.saved.Some? && e.pty.device == e.tty.device ==> e.tty.saved == e.pty.saved
    case _ => true
  }

  lemma RawPtyConservesExactly(e: Ends, raw: Mode -> Mode)
    requires Valid(e)
    ensures Undone(RawPty(e, raw)) == Undone(e) <==> Harmless(e, RaisePty)
  {
    var e1 := RawPty(e, raw);
    if CanSave(e.pty) {
      assert Undone(e1)[e.pty.device] == e.modes[e.pty.device];
      if e.tty.saved.Some? && e.pty.device == e.tty.device {
        assert Undone(e)[e.pty.device] == e.tty.saved.value;
      }
    }
    if Harmless(e, RaisePty) {
      assert Undone(e1) == Undone(e);
    }
  }

  lemma RestorePtyConservesExactly(e: Ends)
    requires Valid(e)
    ensures Undone(RestorePty(e)) == Undone(e) <==> Harmless(e, PutBackPty)
  {
    var e1 := RestorePty(e);
    if e.pty.saved.Some? {
      assert Undone(e)[e.pty.device] == e.pty.saved.value;
      if e.tty.saved.Some? && e.pty.device == e.tty.device {
        assert Undone(e1)[e.pty.device] == e.tty.saved.value;
      }
    }
    if Harmless(e, PutBackPty) {
      assert Undone(e1) == Undone(e);
    }
  }

  lemma TtyConserves(e: Ends, raw: Mode -> Mode)
    requires Valid(e)
    ensures Undone(RawTty(e, raw)) == Undone(e) && Undone(RestoreTty(e)) == Undone(e)
  {
    assert RestoreTty(RawTty(e, raw)).modes == RestoreTty(e).modes;
  }

  /** A step keeps the modes that are to be restored if and only if it is harmless. */
  lemma StepConservesExactly(e: Ends, step: EndStep, raw: Mode -> Mode)
    requires Valid(e)
    ensures Undone(ApplyEnd(e, step, raw)) == Undone(e) <==> Harmless(e, step)
  {
    RawPtyConservesExactly(e, raw);
    RestorePtyConservesExactly(e);
    TtyConserves(e, raw);
  }

  function ApplyEnds(e: Ends, steps: seq<EndStep>, raw: Mode -> Mode): (e': Ends)
    requires Valid(e)
    ensures Valid(e')
    decreases |steps|
  {
    if steps == [] then e else ApplyEnds(ApplyEnd(e, steps[0], raw), steps[1..], raw)
  }

  /** Each step is harmless where it is taken. */
  predicate AllHarmless(e: Ends, steps: seq<EndStep>, raw: Mode -> Mode)
    requires Valid(e)
    decreases |steps|
  {
    steps == [] || (Harmless(e, steps[0]) && AllHarmless(ApplyEnd(e, steps[0], raw), steps[1..], raw))
  }

  /** At every moment, a RestoreMode would bring back the same modes. */
  predicate AlwaysUndoes(e: Ends, steps: seq<EndStep>, raw: Mode -> Mode)
    requires Valid(e)
  {
    forall k :: 0 <= k <= |steps| ==> Undone(ApplyEnds(e, steps[..k], raw)) == Undone(e)
  }

  /** Over any overlap of RawMode and RestoreMode: the modes to be restored are kept throughout if and
      only if each step is harmless. */
  lemma {:induction false} OverlapConservesExactly(e: Ends, steps: seq<EndStep>, raw: Mode -> Mode)
    requires Valid(e)
    ensures AlwaysUndoes(e, steps, raw) <==> AllHarmless(e, steps, raw)
    decreases |steps|
  {
    if steps == [] {
      assert steps[..0] == [];
    } else {
      var e1 := ApplyEnd(e, steps[0], raw);
      StepConservesExactly(e, steps[0], raw);
      OverlapConservesExactly(e1, steps[1..], raw);
      Shifted(e, steps, raw);
    }
  }

  /** The moments of a sequence: its start, and those of the rest after the first step. */
  lemma {:induction false} Shifted(e: Ends, steps: seq<EndStep>, raw: Mode -> Mode)
    requires Valid(e) && steps != []
    ensures var e1 := ApplyEnd(e, steps[0], raw);
            AlwaysUndoes(e, steps, raw) <==> Undone(e1) == Undone(e) && AlwaysUndoes(e1, steps[1..], raw)
  {
    var e1, rest := ApplyEnd(e, steps[0], raw), steps[1..];
    forall k | 0 <= k <= |rest|
      ensures ApplyEnds(e, steps[..k + 1], raw) == ApplyEnds(e1, rest[..k], raw)
    {
      assert steps[..k + 1][1..] == rest[..k];
    }
    assert rest[..0] == [] && steps[..0] == [];
    assert ApplyEnds(e, steps[..1], raw) == e1;
    if Undone(e1) == Undone(e) && AlwaysUndoes(e1, rest, raw) {
      forall k | 0 <= k <= |steps|
        ensures Undone(ApplyEnds(e, steps[..k], raw)) == Undone(e)
      {
        if k > 0 { assert ApplyEnds(e, steps[..(k - 1) + 1], raw) == ApplyEnds(e1, rest[..k - 1], raw); }
      }
    }
    if AlwaysUndoes(e, steps, raw) {
      assert Undone(ApplyEnds(e, steps[..1], raw)) == Undone(e);
      forall k | 0 <= k <= |rest|
        ensures Undone(ApplyEnds(e1, rest[..k], raw)) == Undone(e1)
      {
        assert Undone(ApplyEnds(e, steps[..k + 1], raw)) == Undone(e);
      }
    }
  }

  lemma {:induction false} SeparateDevices(e: Ends, steps: seq<EndStep>, raw: Mode -> Mode)
    requires Valid(e) && e.pty.device != e.tty.device
    ensures AllHarmless(e, steps, raw)
    decreases |steps|
  {
    if steps != [] {
      SeparateDevices(ApplyEnd(e, steps[0], raw), steps[1..], raw);
    }
  }

  /** What a caller can rely on: however RawMode and RestoreMode of a pair that was never saved have
      overlapped, one RestoreMode brings the original modes back, if the ends have different devices
      or each step was harmless. */
  lemma OriginalModesComeBack(e: Ends, steps: seq<EndStep>, raw: Mode -> Mode)
    requires Valid(e) && e.pty.saved.None? && e.tty.saved.None?
    requires e.pty.device != e.tty.device || AllHarmless(e, steps, raw)
    ensures Restored(ApplyEnds(e, steps, raw)).modes == e.modes
  {
    if e.pty.device != e.tty.device { SeparateDevices(e, steps, raw); }
    OverlapConservesExactly(e, steps, raw);
    assert steps[..|steps|] == steps;
  }

  /** One interleaving of RawMode with RestoreMode on a shared device, and a whole RestoreMode
      after both: the device is left in raw mode. It is the last step that does the harm. */
  lemma OverlappingRawModeLosesTheMode(m: Mode, raw: Mode -> Mode)
    requires raw(m) != m
    ensures var e := Ends(map[0 := m], End(true, 0, true, None), End(true, 0, true, None));
            var e1 := ApplyEnds(e, [RaisePty, PutBackTty, RaiseTty], raw);
            && AllHarmless(e, [RaisePty, PutBackTty, RaiseTty], raw) && !Harmless(e1, PutBackPty)
            && Restored(ApplyEnd(e1, PutBackPty, raw)).modes[0] == raw(m)
  {
  }

  // ----- whole calls, one after the other

  /** RawMode keeps the modes to be restored if and only if raising the pty does. */
  lemma RawModeConserves(e: Ends, raw: Mode -> Mode)
    requires Valid(e)
    ensures Undone(Raised(e, raw)) == Undone(e) <==> Harmless(e, RaisePty)
    ensures Harmless(Raised(e, raw), RaisePty)
  {
    RawPtyConservesExactly(e, raw);
    TtyConserves(RawPty(e, raw), raw);
  }

  lemma RestoreModeConserves(e: Ends)
    requires Valid(e)
    ensures Undone(Restored(e)) == Undone(e) == Restored(e).modes
    ensures Valid(Restored(e)) && Restored(e).pty.saved.None? && Restored(e).tty.saved.None?
  {
  }

  datatype Call = Raw | Restore

  function Run(e: Ends, calls: seq<Call>, raw: Mode -> Mode): (e': Ends)
    requires Valid(e)
    ensures Valid(e')
    decreases |calls|
  {
    if calls == [] then e
    else if calls[0].Raw? then Run(Raised(e, raw), calls[1..], raw)
    else
      RestoreModeConserves(e);
      Run(Restored(e), calls[1..], raw)
  }

  /** Nesting: after any sequence of calls on a pair that was never saved, one RestoreMode brings
      back the original modes, whether the ends share a device or not. */
  lemma {:induction false} ModesNest(e: Ends, calls: seq<Call>, raw: Mode -> Mode)
    requires Valid(e) && Harmless(e, RaisePty)
    ensures Restored(Run(e, calls, raw)).modes == Undone(e)
    ensures e.pty.saved.None? && e.tty.saved.None? ==> Restored(Run(e, calls, raw)).modes == e.modes
    decreases |calls|
  {
    if calls != [] {
      if calls[0].Raw? {
        RawModeConserves(e, raw);
        ModesNest(Raised(e, raw), calls[1..], raw);
      } else {
        RestoreModeConserves(e);
        ModesNest(Restored(e), calls[1..], raw);
      }
    }
  }

  // ----- the objects

  class TerminalDevice {
    var mode: Mode
    constructor (mode: Mode)
      ensures this.mode == mode
    {
      this.mode := mode;
    }
  }

  class Terminal {
    const device: TerminalDevice
    const isTerminal: bool
    var state: Option<Mode>
    var closed: bool

    constructor (device: TerminalDevice, isTerminal: bool)
      ensures this.device == device && this.isTerminal == isTerminal && state.None? && !closed
    {
      this.device, this.isTerminal := device, isTerminal;
      state, closed := None, false;
    }

    ghost function View(id: Device): End
      reads this
    {
      End(true, id, isTerminal, state)
    }

    /** `works` tells whether the operating system does what it is asked for. If it does not, nothing is
        saved. */
    method RawMode(raw: Mode -> Mode, works: bool) returns (ok: bool)
      modifies this`state, device
      ensures CanSave(old(View(0))) && works ==> state == Some(old(device.mode)) && device.mode == raw(old(device.mode))
      ensures !CanSave(old(View(0))) || !works ==> state == old(state) && device.mode == old(device.mode)
      ensures ok <==> works || !CanSave(old(View(0)))
    {
      if !isTerminal || state.Some? {
        return true;
      }
      if !works {
        return false;
      }
      state := Some(device.mode);
      device.mode := raw(device.mode);
      return true;
    }

    /** The saved mode is forgotten even if the operating system fails to put it back. */
    method RestoreMode(works: bool) returns (ok: bool)
      modifies this`state, device
      ensures state.None?
      ensures device.mode == if old(state).Some? && works then old(state).value else old(device.mode)
      ensures ok <==> works || old(state).None?
    {
      if state.None? {
        return true;
      }
      if works {
        device.mode := state.value;
      }
      state := None;
      return works;
    }

    method Close()
      modifies this`closed
      ensures closed
    {
      closed := true;
    }
  }

  class Pair {
    const pty: Terminal
    const tty: Terminal?

    constructor (pty: Terminal, tty: Terminal?)
      requires pty != tty
      ensures this.pty == pty && this.tty == tty
    {
      this.pty, this.tty := pty, tty;
    }

    ghost function Objects(): set<object> {
      {pty, pty.device} + (if tty == null then {} else {tty, tty.device})
    }

    ghost predicate Proper()
      reads Objects()
    {
      && pty != tty
      && (pty.state.Some? ==> pty.isTerminal)
      && (tty != null && tty.state.Some? ==> tty.isTerminal)
    }

    ghost predicate Shared() { tty != null && tty.device == pty.device }

    /** The pty's device counts as 0, and so does that of the tty if it is the same object. */
    ghost function View(): Ends
      reads Objects()
    {
      if tty == null then
        Ends(map[0 := pty.device.mode], pty.View(0), End(false, 0, false, None))
      else if Shared() then
        Ends(map[0 := pty.device.mode], pty.View(0), tty.View(0))
      else
        Ends(map[0 := pty.device.mode, 1 := tty.device.mode], pty.View(0), tty.View(1))
    }

    method RawMode(raw: Mode -> Mode)
      requires Proper()
      modifies Objects()
      ensures Proper() && View() == Raised(old(View()), raw)
      ensures pty.closed == old(pty.closed) && (tty != null ==> tty.closed == old(tty.closed))
    {
      var ok := pty.RawMode(raw, true);
      assert View() == RawPty(old(View()), raw);
      if tty != null { ok := tty.RawMode(raw, true); }
    }

    method RestoreMode()
      requires Proper()
      modifies Objects()
      ensures Proper() && View() == Restored(old(View()))
      ensures pty.closed == old(pty.closed) && (tty != null ==> tty.closed == old(tty.closed))
    {
      var ok: bool;
      if tty != null { ok := tty.RestoreMode(true); }
      assert View() == RestoreTty(old(View()));
      ok := pty.RestoreMode(true);
    }

    method Close()
      requires Proper()
      modifies Objects()
      ensures Proper() && View() == Restored(old(View()))
      ensures pty.closed && (tty != null ==> tty.closed)
    {
      RestoreMode();
      if tty != null { tty.Close(); }
      pty.Close();
    }
  }
}
