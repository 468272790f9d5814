/** config/terminal/process.go: the read loop of a REPL, over pipes and over a terminal. */
module Repl {
  import opened Options
  import opened Sequences
  import opened TerminalPair

  // ----- lines of an input

  const Newline := '\n'

  /** The part up to the first newline, and what comes after it. */
  function FirstLine(input: string): (k: nat)
    ensures k <= |input| && (k < |input| ==> input[k] == Newline)
    ensures forall j :: 0 <= j < k ==> input[j] != Newline
  {
    if input == "" || input[0] == Newline then 0 else 1 + FirstLine(input[1..])
  }

  /** The lines that a newline ends, without it. */
  function Lines(input: string): seq<string>
    decreases |input|
  {
    var k := FirstLine(input);
    if k == |input| then [] else [input[..k]] + Lines(input[k + 1..])
  }

  /** The unterminated rest. */
  function Tail(input: string): string
    decreases |input|
  {
    var k := FirstLine(input);
    if k == |input| then input else Tail(input[k + 1..])
  }

  function Unlines(lines: seq<string>): string {
    if lines == [] then "" else lines[0] + [Newline] + Unlines(lines[1..])
  }

  predicate NoNewlines(lines: seq<string>) { forall l :: l in lines ==> Newline !in l }

  lemma {:induction false} LinesStep(input: string)
    ensures var k := FirstLine(input);
            if k == |input| then Lines(input) == [] && Tail(input) == input
            else Lines(input) == [input[..k]] + Lines(input[k + 1..]) && Tail(input) == Tail(input[k + 1..])
  {
  }

  lemma {:induction false} UnlinesStep(line: string, lines: seq<string>)
    ensures Unlines([line] + lines) == line + [Newline] + Unlines(lines)
  {
    assert ([line] + lines)[1..] == lines;
  }

  /** The cut at the first newline. */
  lemma {:induction false} CutAtNewline(input: string)
    ensures var k := FirstLine(input);
            && Newline !in input[..k]
            && (k < |input| ==> input == input[..k] + [Newline] + input[k + 1..])
  {
  }

  /** Lines and Tail cut the input up, and there is one way only to do so. */
  lemma {:induction false} LinesAreTheInput(input: string)
    ensures Unlines(Lines(input)) + Tail(input) == input
    ensures NoNewlines(Lines(input)) && Newline !in Tail(input)
    decreases |input|
  {
    var k := FirstLine(input);
    LinesStep(input);
    CutAtNewline(input);
    if k == |input| {
      assert input[..k] == input;
      assert Unlines([]) + input == input;
    } else {
      var line, rest := input[..k], input[k + 1..];
      LinesAreTheInput(rest);
      UnlinesStep(line, Lines(rest));
      Regroup(line + [Newline], Unlines(Lines(rest)), Tail(rest));
    }
  }

  lemma {:induction false} FirstLineIs(line: string, rest: string)
    requires Newline !in line
    ensures var input := line + [Newline] + rest;
            FirstLine(input) == |line| && input[..|line|] == line && input[|line| + 1..] == rest
  {
    var input := line + [Newline] + rest;
    assert input[|line|] == Newline;
    assert forall j :: 0 <= j < |line| ==> input[j] == line[j];
  }

  lemma {:induction false} LinesOfStep(line: string, rest: string)
    requires Newline !in line
    ensures Lines(line + [Newline] + rest) == [line] + Lines(rest) && Tail(line + [Newline] + rest) == Tail(rest)
  {
    FirstLineIs(line, rest);
    LinesStep(line + [Newline] + rest);
  }

  lemma {:induction false} LinesOfTail(tail: string)
    requires Newline !in tail
    ensures Lines(tail) == [] && Tail(tail) == tail
  {
    LinesStep(tail);
  }

  lemma {:induction false} LinesAreUnique(lines: seq<string>, tail: string)
    requires NoNewlines(lines) && Newline !in tail
    ensures Lines(Unlines(lines) + tail) == lines && Tail(Unlines(lines) + tail) == tail
  {
    if lines == [] {
      LinesOfTail(tail);
      assert Unlines(lines) + tail == tail;
    } else {
      var line := lines[0];
      assert line in lines;
      LinesAreUnique(lines[1..], tail);
      LinesOfStep(line, Unlines(lines[1..]) + tail);
      Regroup(line + [Newline], Unlines(lines[1..]), tail);
      assert lines == [line] + lines[1..];
    }
  }

  // ----- what the loop computes

  /** How a reader ends. */
  datatype End = Eof | Broken

  /** The callback may depend on everything it has been given so far. */
  type Callback = seq<string> -> (bool, int)

  /** How many lines were passed to the callback, the exit code, and how often a line was asked for. */
  datatype Outcome = Outcome(calls: nat, code: int, rounds: nat)

  /** The loop as a fold over the lines from the k-th on. `before` and `after` tell whether the
      cancelled context is noticed before and after the k-th read. */
  function Fold(lines: seq<string>, end: End, loop: Callback, before: nat -> bool, after: nat -> bool, k: nat): Outcome
    requires k <= |lines|
    decreases |lines| - k
  {
    if before(k) then Outcome(k, 0, k)
    else if after(k) then Outcome(k, 0, k + 1)
    else if k == |lines| then Outcome(k, if end.Eof? then 0 else 255, k + 1)
    else
      var (exit, code) := loop(lines[..k + 1]);
      if exit then Outcome(k + 1, code, k + 1) else Fold(lines, end, loop, before, after, k + 1)
  }

  /** The callback asks for an exit at its k-th line. */
  predicate ExitsAt(lines: seq<string>, loop: Callback, k: nat)
    requires k < |lines|
  {
    loop(lines[..k + 1]).0
  }

  predicate Noticed(before: nat -> bool, after: nat -> bool, k: nat) { before(k) || after(k) }

  /** The fold, characterised without recursion. Let c be the number of lines passed. None of those
      before the last one asked for an exit and no cancellation was noticed up to there; and the
      loop ended there for one of three reasons, which give the code. It reads at most once more
      than there are newlines. */
  lemma {:induction false} FoldCharacterised(lines: seq<string>, end: End, loop: Callback, before: nat -> bool,
                                             after: nat -> bool, k: nat)
    requires k <= |lines|
    ensures var r := Fold(lines, end, loop, before, after, k);
            && k <= r.calls <= |lines| && r.calls <= r.rounds <= |lines| + 1
            && (forall j :: k <= j < r.calls - 1 ==> !ExitsAt(lines, loop, j))
            && (forall j :: k <= j < r.calls ==> !Noticed(before, after, j))
            && (|| (r.calls > k && ExitsAt(lines, loop, r.calls - 1) && r.code == loop(lines[..r.calls]).1)
                || ((r.calls > k ==> !ExitsAt(lines, loop, r.calls - 1)) && Noticed(before, after, r.calls)
                    && r.code == 0)
                || ((r.calls > k ==> !ExitsAt(lines, loop, r.calls - 1)) && !Noticed(before, after, r.calls)
                    && r.calls == |lines| && r.code == if end.Eof? then 0 else 255))
    decreases |lines| - k
  {
    if !before(k) && !after(k) && k < |lines| && !ExitsAt(lines, loop, k) {
      FoldCharacterised(lines, end, loop, before, after, k + 1);
    }
  }

  /** Cancellation can only cut the calls short: what is passed then is a prefix of what would have
      been passed. */
  lemma {:induction false} CancellationCuts(lines: seq<string>, end: End, loop: Callback, before: nat -> bool,
                                            after: nat -> bool, k: nat)
    requires k <= |lines|
    ensures var never := (j: nat) => false;
            Fold(lines, end, loop, before, after, k).calls <= Fold(lines, end, loop, never, never, k).calls
    decreases |lines| - k
  {
    var never := (j: nat) => false;
    FoldCharacterised(lines, end, loop, never, never, k);
    if !before(k) && !after(k) && k < |lines| && !ExitsAt(lines, loop, k) {
      CancellationCuts(lines, end, loop, before, after, k + 1);
    }
  }

  // ----- bufio.Reader over a pipe

  function Concat(chunks: seq<string>): string {
    if chunks == [] then "" else chunks[0] + Concat(chunks[1..])
  }

  /** strings.TrimRight with one newline as its cutset: it takes away all of them. */
  function TrimRight(s: string): string {
    if s != "" && s[|s| - 1] == Newline then TrimRight(s[..|s| - 1]) else s
  }

  /** What a read gives and leaves: the next line with its newline, or all that is left. */
  predicate Reads(rest: string, line: string, ended: bool, rest': string) {
    var k := FirstLine(rest);
    if k < |rest| then !ended && line == rest[..k] + [Newline] && rest' == rest[k + 1..]
    else ended && line == rest && rest' == ""
  }

  /** Trimmed, it is the next line of the input. */
  lemma {:induction false} ReadsNextLine(rest: string, line: string, ended: bool, rest': string)
    requires Reads(rest, line, ended, rest')
    ensures ended <==> Lines(rest) == []
    ensures ended ==> Lines(rest') == []
    ensures !ended ==> TrimRight(line) == Lines(rest)[0] && Lines(rest') == Lines(rest)[1..]
  {
    LinesStep(rest);
    LinesStep("");
    CutAtNewline(rest);
    TrimOneNewline(rest[..FirstLine(rest)]);
  }

  lemma {:induction false} TrimOneNewline(line: string)
    requires Newline !in line
    ensures TrimRight(line + [Newline]) == line && TrimRight(line) == line
  {
    assert (line + [Newline])[..|line|] == line;
    assert line != "" ==> line[|line| - 1] in line;
  }

  /** The pipe delivers its bytes in chunks of any size, and then ends or breaks. */
  class BufReader {
    var buffered: string
    var chunks: seq<string>
    const end: End

    constructor (chunks: seq<string>, end: End)
      ensures Rest() == Concat(chunks) && this.end == end
    {
      this.buffered, this.chunks, this.end := "", chunks, end;
    }

    /** The bytes not yet handed out. */
    ghost function Rest(): string
      reads this
    {
      buffered + Concat(chunks)
    }

    method ReadString() returns (line: string, err: Option<End>)
      modifies this
      ensures Reads(old(Rest()), line, err.Some?, Rest())
      ensures err.Some? ==> err == Some(end)
    {
      var k := FirstLine(buffered);
      while k == |buffered| && chunks != []
        invariant Rest() == old(Rest())
        invariant k == FirstLine(buffered)
        decreases |chunks|
      {
        assert buffered + Concat(chunks) == (buffered + chunks[0]) + Concat(chunks[1..]);
        buffered, chunks := buffered + chunks[0], chunks[1..];
        k := FirstLine(buffered);
      }
      if k < |buffered| {
        FirstLineOfPrefix(buffered, Concat(chunks));
        line, err := buffered[..k + 1], None;
        assert (buffered + Concat(chunks))[k + 1..] == buffered[k + 1..] + Concat(chunks);
        assert line == old(Rest())[..k] + [Newline];
        buffered := buffered[k + 1..];
      } else {
        assert buffered == old(Rest());
        line, err := buffered, Some(end);
        buffered := "";
      }
    }
  }

  lemma {:induction false} FirstLineOfPrefix(a: string, b: string)
    requires FirstLine(a) < |a|
    ensures FirstLine(a + b) == FirstLine(a)
  {
    if a[0] != Newline {
      assert (a + b)[1..] == a[1..] + b;
      FirstLineOfPrefix(a[1..], b);
    }
  }

  /** What the terminal package gives out line by line. */
  class LineReader {
    var lines: seq<string>
    const end: End

    constructor (lines: seq<string>, end: End)
      ensures this.lines == lines && this.end == end
    {
      this.lines, this.end := lines, end;
    }

    method ReadLine() returns (line: string, err: Option<End>)
      modifies this
      ensures old(lines) != [] ==> err.None? && line == old(lines)[0] && lines == old(lines)[1..]
      ensures old(lines) == [] ==> err == Some(end) && lines == []
    {
      if lines == [] {
        return "", Some(end);
      }
      line, err := lines[0], None;
      lines := lines[1..];
    }
  }

  // ----- the process

  /** `calls` is the history of lines given to Loop, `prompts` that of the reads. */
  class REPLProcess {
    const loop: Callback
    const terminal: Pair?
    var exitCode: int
    var loopClosed: bool
    var calls: seq<string>
    var prompts: nat

    constructor (loop: Callback, terminal: Pair?)
      ensures this.loop == loop && this.terminal == terminal && Fresh()
    {
      this.loop, this.terminal := loop, terminal;
      exitCode, loopClosed, calls, prompts := 0, false, [], 0;
    }

    ghost predicate Fresh()
      reads this
    {
      exitCode == 0 && !loopClosed && calls == [] && prompts == 0
    }

    /** The loop has run to this outcome over these lines. */
    ghost predicate Ran(lines: seq<string>, r: Outcome)
      reads this
    {
      r.calls <= |lines| && calls == lines[..r.calls] && exitCode == r.code && prompts == r.rounds
    }

    /** One read of the pipe loop, with the newline trimmed off. */
    method NextLine(stdin: BufReader) returns (line: string, err: Option<End>)
      modifies stdin
      ensures err.None? || err == Some(stdin.end)
      ensures err.Some? <==> Lines(old(stdin.Rest())) == []
      ensures err.Some? ==> Lines(stdin.Rest()) == []
      ensures err.None? ==> line == Lines(old(stdin.Rest()))[0]
      ensures err.None? ==> Lines(stdin.Rest()) == Lines(old(stdin.Rest()))[1..]
    {
      ghost var rest := stdin.Rest();
      line, err := stdin.ReadString();
      ReadsNextLine(rest, line, err.Some?, stdin.Rest());
      line := TrimRight(line);
    }

    /** `cancelled(k)` is what the k-th look at the context says. */
    method RunLoopPipes(stdin: BufReader, cancelled: nat -> bool)
      requires Fresh()
      modifies this, stdin
      ensures loopClosed
      ensures Ran(Lines(old(stdin.Rest())), Fold(Lines(old(stdin.Rest())), stdin.end, loop, cancelled, k => false, 0))
    {
      ghost var lines := Lines(stdin.Rest());
      ghost var never: nat -> bool := k => false;
      ghost var whole := Fold(lines, stdin.end, loop, cancelled, never, 0);
      var k: nat := 0;
      while !cancelled(k)
        invariant k <= |lines| && calls == lines[..k] && prompts == k && exitCode == 0
        invariant Lines(stdin.Rest()) == lines[k..]
        invariant Fold(lines, stdin.end, loop, cancelled, never, k) == whole
        decreases |lines| - k
      {
        prompts := prompts + 1;
        var line, err := NextLine(stdin);
        if err == Some(Eof) {
          break;
        }
        if err != None {
          exitCode := 255;
          break;
        }
        assert line == lines[k] && lines[..k] + [line] == lines[..k + 1];
        calls := calls + [line];
        var (exit, code) := loop(calls);
        if exit {
          exitCode := code;
          break;
        }
        assert lines[k..][1..] == lines[k + 1..];
        k := k + 1;
      }
      loopClosed := true;
    }

    /** The rounds of the terminal loop. The context is looked at twice in each, the second time
        before the result of the read is used. */
    method PtyRounds(input: LineReader, before: nat -> bool, after: nat -> bool)
      requires Fresh()
      modifies this, input
      ensures !loopClosed
      ensures Ran(old(input.lines), Fold(old(input.lines), input.end, loop, before, after, 0))
    {
      ghost var lines := input.lines;
      ghost var whole := Fold(lines, input.end, loop, before, after, 0);
      var k: nat := 0;
      while !before(k)
        invariant k <= |lines| && calls == lines[..k] && prompts == k && exitCode == 0 && !loopClosed
        invariant input.lines == lines[k..]
        invariant Fold(lines, input.end, loop, before, after, k) == whole
        decreases |lines| - k
      {
        prompts := prompts + 1;
        var line, err := input.ReadLine();
        if after(k) {
          break;
        }
        if err == Some(Eof) {
          exitCode := 0;
          break;
        }
        if err != None {
          exitCode := 255;
          break;
        }
        assert lines[..k] + [line] == lines[..k + 1];
        calls := calls + [line];
        var (exit, code) := loop(calls);
        if exit {
          exitCode := code;
          break;
        }
        assert lines[k..][1..] == lines[k + 1..];
        k := k + 1;
      }
    }

    /** After its rounds the terminal loop closes the terminal, which restores its modes. */
    method RunLoopPty(input: LineReader, before: nat -> bool, after: nat -> bool)
      requires Fresh() && terminal != null && terminal.Proper()
      modifies this, input, terminal.Objects()
      ensures loopClosed
      ensures Ran(old(input.lines), Fold(old(input.lines), input.end, loop, before, after, 0))
      ensures terminal.Proper() && terminal.View() == Restored(old(terminal.View()))
      ensures terminal.pty.closed && (terminal.tty != null ==> terminal.tty.closed)
    {
      PtyRounds(input, before, after);
      terminal.Close();
      loopClosed := true;
    }

    /** Wait gets past the channel only once the loop has closed it. */
    method Wait() returns (code: int, err: Option<string>)
      requires loopClosed
      ensures code == exitCode && err.None?
    {
      return exitCode, None;
    }
  }

  // ----- the loop and its caller together

  /** Any chunking of the same bytes, any callback and any cancellation: Wait returns the code of the
      fold over the lines of the input, and the callback saw the lines that the fold passed. */
  method RunAndWait(chunks: seq<string>, end: End, loop: Callback, cancelled: nat -> bool)
      returns (code: int, seen: seq<string>)
    ensures var r := Fold(Lines(Concat(chunks)), end, loop, cancelled, k => false, 0);
            code == r.code && r.calls <= |Lines(Concat(chunks))| && seen == Lines(Concat(chunks))[..r.calls]
  {
    var stdin := new BufReader(chunks, end);
    var repl := new REPLProcess(loop, null);
    repl.RunLoopPipes(stdin, cancelled);
    var err;
    code, err := repl.Wait();
    seen := repl.calls;
  }

  // ----- the goroutine of the loop and the one that waits for it

  /** The loop: before its k-th read, in it, past its last write to the exit code, and past the closing of
      the channel. */
  datatype LoopPc = Top(k: nat) | Reading(k: nat) | Leaving | Closed

  datatype Waiter = Blocked | Returned(code: int)

  datatype Shared = Shared(loop: LoopPc, exitCode: int, calls: nat, waiter: Waiter)

  datatype Move = LoopMoves | WaiterMoves

  /** The receive from the channel can go on only once it is closed. */
  predicate CanMove(s: Shared, move: Move) {
    match move
    case LoopMoves => !s.loop.Closed?
    case WaiterMoves => s.waiter.Blocked? && s.loop.Closed?
  }

  function AfterMove(s: Shared, move: Move, lines: seq<string>, end: End, loop: Callback, before: nat -> bool,
                     after: nat -> bool): Shared
    requires CanMove(s, move)
  {
    match move
    case WaiterMoves => s.(waiter := Returned(s.exitCode))
    case LoopMoves =>
      match s.loop
      case Top(k) => s.(loop := if before(k) then Leaving else Reading(k))
      case Reading(k) =>
        if after(k) then s.(loop := Leaving)
        else if k >= |lines| then s.(loop := Leaving, exitCode := if end.Eof? then 0 else 255)
        else
          var (exit, code) := loop(lines[..k + 1]);
          if exit then s.(loop := Leaving, exitCode := code, calls := k + 1) else s.(loop := Top(k + 1), calls := k + 1)
      case Leaving => s.(loop := Closed)
      case Closed => s
  }

  /** The states of a run in which both goroutines move as they like. */
  ghost predicate IsRun(states: seq<Shared>, moves: seq<Move>, lines: seq<string>, end: End, loop: Callback,
                        before: nat -> bool, after: nat -> bool) {
    && |states| == |moves| + 1
    && states[0] == Shared(Top(0), 0, 0, Blocked)
    && forall i {:trigger moves[i]} :: 0 <= i < |moves| ==>
         && CanMove(states[i], moves[i])
         && states[i + 1] == AfterMove(states[i], moves[i], lines, end, loop, before, after)
  }

  /** The loop is on its way to the outcome of the fold, or has arrived there; and so has the waiter. */
  ghost predicate OnTheWay(s: Shared, lines: seq<string>, end: End, loop: Callback, before: nat -> bool,
                           after: nat -> bool) {
    var whole := Fold(lines, end, loop, before, after, 0);
    && (match s.loop
        case Top(k) =>
          k <= |lines| && s.exitCode == 0 && s.calls == k && Fold(lines, end, loop, before, after, k) == whole
        case Reading(k) =>
          k <= |lines| && s.exitCode == 0 && s.calls == k && !before(k)
          && Fold(lines, end, loop, before, after, k) == whole
        case _ => s.exitCode == whole.code && s.calls == whole.calls)
    && (s.waiter.Returned? ==> s.loop.Closed? && s.waiter.code == whole.code)
  }

  lemma {:induction false} OnTheWayPreserved(s: Shared, move: Move, lines: seq<string>, end: End, loop: Callback,
                                             before: nat -> bool, after: nat -> bool)
    requires OnTheWay(s, lines, end, loop, before, after) && CanMove(s, move)
    ensures OnTheWay(AfterMove(s, move, lines, end, loop, before, after), lines, end, loop, before, after)
  {
  }

  lemma {:induction false} OnTheWayAlong(states: seq<Shared>, moves: seq<Move>, lines: seq<string>, end: End,
                                         loop: Callback, before: nat -> bool, after: nat -> bool, i: nat)
    requires IsRun(states, moves, lines, end, loop, before, after) && i <= |moves|
    ensures OnTheWay(states[i], lines, end, loop, before, after)
  {
    if i > 0 {
      OnTheWayAlong(states, moves, lines, end, loop, before, after, i - 1);
      OnTheWayPreserved(states[i - 1], moves[i - 1], lines, end, loop, before, after);
    }
  }

  /** Moves that are still to come. */
  function MovesLeft(s: Shared, lines: nat): int {
    (match s.loop
     case Top(k) => 2 * (lines - k) + 3
     case Reading(k) => 2 * (lines - k) + 2
     case Leaving => 1
     case Closed => 0)
    + (if s.waiter.Blocked? then 1 else 0)
  }

  /** Each move brings both closer to their ends, and until then there is one: the loop waits for nobody, and
      the waiter only for the channel. */
  lemma {:induction false} MovesLead(s: Shared, move: Move, lines: seq<string>, end: End, loop: Callback,
                                     before: nat -> bool, after: nat -> bool)
    requires OnTheWay(s, lines, end, loop, before, after)
    ensures CanMove(s, move) ==>
              0 <= MovesLeft(AfterMove(s, move, lines, end, loop, before, after), |lines|) < MovesLeft(s, |lines|)
    ensures CanMove(s, LoopMoves) <==> !s.loop.Closed?
    ensures CanMove(s, WaiterMoves) <==> s.loop.Closed? && s.waiter.Blocked?
  {
    if CanMove(s, move) { OnTheWayPreserved(s, move, lines, end, loop, before, after); }
  }

  /** In every run, whenever Wait was called: it returns only after the channel was closed, and then with
      the code of the fold; from then on the code does not change any more, and the callback has seen
      exactly the lines that the fold passes. */
  lemma {:induction false} WaitGetsTheFinalCode(states: seq<Shared>, moves: seq<Move>, lines: seq<string>, end: End,
                                                loop: Callback, before: nat -> bool, after: nat -> bool, i: nat, j: nat)
    requires IsRun(states, moves, lines, end, loop, before, after) && i <= j <= |moves|
    requires states[i].loop.Closed? || states[i].waiter.Returned?
    ensures var whole := Fold(lines, end, loop, before, after, 0);
            && (states[i].waiter.Returned? ==> states[i].loop.Closed? && states[i].waiter.code == whole.code)
            && states[j].loop.Closed? && states[j].exitCode == whole.code && states[j].calls == whole.calls
  {
    OnTheWayAlong(states, moves, lines, end, loop, before, after, i);
    OnTheWayAlong(states, moves, lines, end, loop, before, after, j);
    if i < j {
      WaitGetsTheFinalCode(states, moves, lines, end, loop, before, after, i, j - 1);
      assert CanMove(states[j - 1], moves[j - 1]);
    }
  }
}
