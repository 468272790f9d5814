/** session.go as one goroutine runs it: the methods of a session, statement by statement, when
    nobody else finalizes meanwhile. They follow the program and the finalization whose
    interleavings SessionTheorems is about. */
module SessionObject {
  import opened Options
  import opened OneTimeLock
  import opened Session
  import opened SessionTheorems

  /** The cause with which a call fails, if it does. */
  type Replies = CallName -> Option<string>

  predicate Succeeds(replies: Replies, i: Instr) { i.Call? && i.call != Wait ==> replies(i.call).None? }

  /** A run through `program`, up to its end or to the first call that fails, whose error is returned. */
  ghost predicate Follows(trace: seq<Instr>, err: Option<string>, program: seq<Instr>, replies: Replies) {
    && trace <= program
    && (err.None? ==> trace == program && forall i :: 0 <= i < |trace| ==> Succeeds(replies, trace[i]))
    && (err.Some? ==>
          && trace != [] && (forall i :: 0 <= i < |trace| - 1 ==> Succeeds(replies, trace[i]))
          && var last := trace[|trace| - 1];
             last.Call? && replies(last.call).Some? && err.value == CallError(last.call, replies(last.call).value))
  }

  class SessionRun {
    const pty: bool
    const started: OneTime
    const finished: OneTime
    var trace: seq<Instr>
    var effects: seq<Effect>
    var killer: bool

    constructor (pty: bool)
      ensures this.pty == pty && fresh(started) && fresh(finished) && started != finished
      ensures started.locked == 0 && finished.locked == 0 && trace == [] && effects == [] && !killer
    {
      this.pty := pty;
      started := new OneTime();
      finished := new OneTime();
      trace, effects, killer := [], [], false;
    }

    /** A call to the process, and its error with the message that start adds. */
    method Process(c: CallName, replies: Replies) returns (err: Option<string>)
      modifies this`trace
      ensures trace == old(trace) + [Call(c)]
      ensures err == if replies(c).Some? then Some(CallError(c, replies(c).value)) else None
    {
      trace := trace + [Call(c)];
      match replies(c)
      case None => return None;
      case Some(cause) => return Some(CallError(c, cause));
    }

    /** detector.Add, and the go statement after it. */
    method Register(n: Name)
      modifies this`trace
      ensures trace == old(trace) + [Add(n), Spawn(n)]
    {
      trace := trace + [Add(n)];
      trace := trace + [Spawn(n)];
    }

    /** One stream: the pipe, and the goroutine that copies it. */
    method Stream(c: CallName, n: Name, replies: Replies) returns (err: Option<string>)
      modifies this`trace
      ensures trace == old(trace) + (if err.Some? then [Call(c)] else [Call(c), Add(n), Spawn(n)])
      ensures err == if replies(c).Some? then Some(CallError(c, replies(c).value)) else None
    {
      err := Process(c, replies);
      if err.Some? { return; }
      Register(n);
    }

    method RunRegular(replies: Replies) returns (err: Option<string>)
      requires trace == [Call(Init)] && replies(Init).None?
      modifies this`trace
      ensures Follows(trace, err, [Call(Init)] + StartRegular(), replies)
    {
      err := Stream(Stdout, CopyStdout, replies);
      if err.Some? { return; }
      err := Stream(Stderr, CopyStderr, replies);
      if err.Some? { return; }
      err := Stream(Stdin, CopyStdin, replies);
      if err.Some? { return; }
      err := Process(Start, replies);
    }

    method RunPty(replies: Replies) returns (err: Option<string>)
      requires trace == [Call(Init)] && replies(Init).None?
      modifies this`trace
      ensures Follows(trace, err, [Call(Init)] + StartPty(), replies)
    {
      Register(WinCh);
      err := Process(Start, replies);
      if err.Some? { return; }
      Register(CopyInput);
      Register(CopyOutput);
    }

    method StartAll(replies: Replies) returns (err: Option<string>)
      requires trace == []
      modifies this`trace
      ensures Follows(trace, err, [Call(Init)] + (if pty then StartPty() else StartRegular()), replies)
    {
      err := Process(Init, replies);
      if err.Some? { return; }
      if pty {
        err := RunPty(replies);
      } else {
        err := RunRegular(replies);
      }
    }

    /** finalize: the second and every further call does nothing. */
    method Finalize(status: int, err: Option<string>)
      requires finished != started
      modifies this`effects, this`killer, finished
      ensures finished.locked == if old(finished.locked) == 0 then 1 else old(finished.locked)
      ensures if old(finished.locked) == 0
              then effects == old(effects) + EffectsBefore(status, err, Over(true)) && killer
              else effects == old(effects) && killer == old(killer)
    {
      var ok := finished.Lock();
      if !ok {
        return;
      }
      if err.Some? {
        effects := effects + [WriteText(err.value + "\n")];
      }
      effects := effects + [FinishDetector];
      effects := effects + [ExitSession(status)];
      killer := true;
    }

    /** Run: its trace is a run through the whole program, and what it finalizes with is what
        SessionTheorems.ExitHasReason says. A Run that comes second changes nothing. */
    method Run(replies: Replies, exited: Exited) returns (err: Option<string>)
      requires started != finished
      requires started.locked == 0 ==> trace == [] && effects == [] && finished.locked == 0
      modifies this`trace, this`effects, this`killer, started, finished
      ensures old(started.locked) != 0 ==> err == Some(AlreadyStarted) && trace == old(trace) && effects == old(effects)
      ensures old(started.locked) == 0 ==>
                exists startErr: Option<string> ::
                  && Follows(trace, startErr, if startErr.Some? then trace else Program(pty), replies)
                  && trace <= Program(pty)
                  && err == (if startErr.Some? then Some("Failed to start process: " + startErr.value) else exited.err)
                  && effects == EffectsBefore(if startErr.Some? then 255 else exited.code, err, Over(true))
    {
      var ok := started.Lock();
      if !ok {
        return Some(AlreadyStarted);
      }
      var startErr := StartAll(replies);
      if startErr.Some? {
        err := Some("Failed to start process: " + startErr.value);
        Finalize(255, err);
        assert trace <= Program(pty);
        return;
      }
      Register(CtxCancel);
      trace := trace + [Call(Wait)];
      assert trace == Program(pty);
      err := exited.err;
      Finalize(exited.code, err);
      assert Follows(trace, startErr, Program(pty), replies);
    }
  }
}
