/** internal/asyncio/buffer.go, read.go, write.go and copy.go as the calling goroutine runs them,
    with arrays for buffers. How Wait comes out of each operation is given; what an action does
    after its call has given up is the subject of AsyncCopy. */
module AsyncIO {
  import opened Options
  import opened AsyncCopy
  import opened Sequences

  // ----- the pool

  /** A slice of bytes: its array, whose length is its capacity, and its length. */
  datatype Slice = Slice(data: array<byte>, len: nat)

  /** sync.Pool with a New function. Get may hand out any item, or a new one. */
  class BufferPool {
    var free: set<array<byte>>

    constructor ()
      ensures Valid() && free == {}
    {
      free := {};
    }

    /** Every pooled buffer has at least the capacity of a new one. */
    ghost predicate Valid()
      reads this
    {
      forall b :: b in free ==> b.Length >= Size
    }

    method Get() returns (s: array<byte>)
      requires Valid()
      modifies this
      ensures Valid() && s.Length >= Size
      ensures fresh(s) || s in old(free)
      ensures free == old(free) - {s}
    {
      var reuse: bool := *;
      if reuse && free != {} {
        s :| s in free;
        free := free - {s};
      } else {
        s := new byte[Size];
      }
    }

    method Put(s: array<byte>)
      requires Valid() && s.Length >= Size
      modifies this
      ensures Valid() && free == old(free) + {s}
    {
      free := free + {s};
    }

    /** A buffer of length l that nobody else has; it may be put back whatever l was. */
    method BufferFromPool(l: nat) returns (s: Slice)
      requires Valid()
      modifies this
      ensures Valid() && s.len == l <= s.data.Length && s.data.Length >= Size && s.data !in free
      ensures s.data in old(free) || fresh(s.data)
      ensures forall b :: b in free ==> b in old(free) || fresh(b)
    {
      var buffer := Get();
      if buffer.Length < l {
        Put(buffer);
        var larger := new byte[l];
        return Slice(larger, l);
      }
      return Slice(buffer, l);
    }
  }

  /** The built-in copy: the first n bytes. */
  method CopyBytes(dst: array<byte>, src: array<byte>, n: nat)
    requires n <= dst.Length && n <= src.Length && dst != src
    modifies dst
    ensures dst[..n] == src[..n] && dst[n..] == old(dst[n..])
  {
    for i := 0 to n
      invariant dst[..i] == src[..i] && dst[i..] == old(dst[i..])
    {
      dst[i] := src[i];
      assert dst[..i + 1] == dst[..i] + [src[i]] && src[..i + 1] == src[..i] + [src[i]];
    }
  }

  // ----- the two ends of a Copy

  function Least(a: nat, b: nat, c: nat): (m: nat)
    ensures m <= a && m <= b && m <= c && (m == a || m == b || m == c)
  {
    if a <= b && a <= c then a else if b <= c then b else c
  }

  class Source {
    var rest: seq<byte>
    constructor (rest: seq<byte>)
      ensures this.rest == rest
    {
      this.rest := rest;
    }

    /** Puts up to k of its next bytes into p, and may use the rest of p as scratch space. */
    method Read(p: Slice, k: nat) returns (n: nat)
      requires p.len <= p.data.Length
      modifies this, p.data
      ensures n == Least(k, p.len, |old(rest)|)
      ensures p.data[..n] == old(rest)[..n] && rest == old(rest)[n..]
    {
      n := if k <= p.len then k else p.len;
      if n > |rest| { n := |rest|; }
      for i := 0 to n
        invariant n <= |rest| && rest == old(rest)
        invariant p.data[..i] == rest[..i]
      {
        p.data[i] := rest[i];
        assert p.data[..i + 1] == p.data[..i] + [rest[i]] && rest[..i + 1] == rest[..i] + [rest[i]];
      }
      rest := rest[n..];
    }
  }

  class Destination {
    var delivered: seq<byte>
    constructor ()
      ensures delivered == []
    {
      delivered := [];
    }

    /** Takes up to k of the bytes and says how many. */
    method Write(p: Slice, k: nat) returns (n: nat)
      requires p.len <= p.data.Length
      modifies this
      ensures n == Least(k, p.len, p.len)
      ensures delivered == old(delivered) + p.data[..n]
    {
      n := if k <= p.len then k else p.len;
      delivered := delivered + p.data[..n];
    }
  }

  /** What comes of one operation: its action finishes, having moved up to k bytes and with this
      error; or Wait returns false before it has moved any. */
  datatype Outcome = Finishes(k: nat, err: Option<Error>) | GaveUp

  /** What such an operation returns, if it has room for so many bytes and so many are there. */
  function Returned(o: Outcome, room: nat, available: nat): (nat, Option<Error>) {
    match o
    case GaveUp => (0, Some(Canceled))
    case Finishes(k, err) => (Least(k, room, available), err)
  }

  method Read(pool: BufferPool, src: Source, p: array<byte>, o: Outcome) returns (n: nat, err: Option<Error>)
    requires pool.Valid() && p !in pool.free
    modifies pool, pool.free, src, p
    ensures pool.Valid() && p !in pool.free
    ensures forall b :: b in pool.free ==> b in old(pool.free) || fresh(b)
    ensures (n, err) == Returned(o, p.Length, |old(src.rest)|)
    ensures p[..n] == old(src.rest)[..n] && p[n..] == old(p[n..]) && src.rest == old(src.rest)[n..]
  {
    var innerP := pool.BufferFromPool(p.Length);
    if o.GaveUp? {
      pool.Put(innerP.data);
      return 0, Some(Canceled);
    }
    n := src.Read(innerP, o.k);
    err := o.err;
    CopyBytes(p, innerP.data, n);
    pool.Put(innerP.data);
  }

  method Write(pool: BufferPool, dst: Destination, p: array<byte>, len: nat, o: Outcome)
      returns (n: nat, err: Option<Error>)
    requires pool.Valid() && p !in pool.free && len <= p.Length
    modifies pool, pool.free, dst
    ensures pool.Valid() && p !in pool.free && p[..] == old(p[..])
    ensures forall b :: b in pool.free ==> b in old(pool.free) || fresh(b)
    ensures (n, err) == Returned(o, len, len) && dst.delivered == old(dst.delivered) + p[..n]
  {
    var innerP := pool.BufferFromPool(len);
    CopyBytes(innerP.data, p, len);
    if o.GaveUp? {
      assert p[..0] == [];
      return 0, Some(Canceled);
    }
    n := dst.Write(innerP, o.k);
    err := o.err;
    assert innerP.data[..n] == innerP.data[..len][..n] == p[..len][..n] == p[..n];
    pool.Put(innerP.data);
  }

  // ----- the loop of io.Copy

  /** The bytes moved, how many were taken from the source, and whether and how it has ended. */
  datatype Moved = Moved(bytes: seq<byte>, taken: nat, ended: bool, err: Option<Error>)

  function Ended(bytes: seq<byte>, taken: nat, cp: Copy): Moved {
    if cp.pc.Over? then Moved(bytes, taken, true, cp.pc.err) else Moved(bytes, taken, false, None)
  }

  /** One round, by the functions that AsyncCopy uses. */
  function Round(rest: seq<byte>, input: Outcome, output: Outcome): (m: Moved)
    ensures m.taken <= |rest|
  {
    var (nr, er) := Returned(input, Size, |rest|);
    var cp := AfterRead(NewCopy(0, 0, 0), rest[..nr], er);
    if nr == 0 then Ended([], 0, cp)
    else
      var (nw, ew) := Returned(output, nr, nr);
      Ended(rest[..nw], nr, AfterWrite(cp, nw, ew))
  }

  function Then(m: Moved, more: Moved): Moved {
    Moved(m.bytes + more.bytes, m.taken + more.taken, more.ended, more.err)
  }

  /** The rounds up to one that ends the Copy. */
  function Rounds(rest: seq<byte>, ins: seq<Outcome>, outs: seq<Outcome>): (m: Moved)
    requires |ins| == |outs|
    ensures m.taken <= |rest|
    decreases |ins|
  {
    if ins == [] then Moved([], 0, false, None)
    else
      var m := Round(rest, ins[0], outs[0]);
      if m.ended then m else Then(m, Rounds(rest[m.taken..], ins[1..], outs[1..]))
  }

  /** What is moved is a prefix of the source. Without an error it is all that was taken from the
      source, so that nothing is lost. */
  predicate MovesPrefix(m: Moved, rest: seq<byte>) {
    m.bytes <= rest && |m.bytes| <= m.taken <= |rest| && (m.err.None? ==> m.bytes == rest[..m.taken])
  }

  lemma RoundMoves(rest: seq<byte>, input: Outcome, output: Outcome)
    ensures MovesPrefix(Round(rest, input, output), rest)
  {
  }

  lemma ThenMoves(m: Moved, more: Moved, rest: seq<byte>)
    requires MovesPrefix(m, rest) && m.err.None? && MovesPrefix(more, rest[m.taken..])
    ensures MovesPrefix(Then(m, more), rest)
  {
    assert rest == rest[..m.taken] + rest[m.taken..];
  }

  lemma {:induction false} RoundsMove(rest: seq<byte>, ins: seq<Outcome>, outs: seq<Outcome>)
    requires |ins| == |outs|
    ensures MovesPrefix(Rounds(rest, ins, outs), rest)
    decreases |ins|
  {
    if ins != [] {
      var m := Round(rest, ins[0], outs[0]);
      RoundMoves(rest, ins[0], outs[0]);
      if !m.ended {
        RoundsMove(rest[m.taken..], ins[1..], outs[1..]);
        ThenMoves(m, Rounds(rest[m.taken..], ins[1..], outs[1..]), rest);
      }
    }
  }

  /** Why a round ends the Copy, if it does, with so many bytes left to be read. */
  function Reason(left: nat, input: Outcome, output: Outcome): Option<Option<Error>> {
    match input
    case GaveUp => Some(Some(Canceled))
    case Finishes(k, readErr) =>
      if Least(k, Size, left) > 0 && output.GaveUp? then Some(Some(Canceled))
      else if Least(k, Size, left) > 0 && output.err.Some? then Some(output.err)
      else if output.Finishes? && output.k < Least(k, Size, left) then Some(Some(ShortWrite))
      else if readErr == Some(Eof) then Some(None)
      else if readErr.Some? then Some(readErr)
      else None
  }

  /** What is left to be read before the i-th round. */
  function Left(available: nat, ins: seq<Outcome>, i: nat): nat
    requires i <= |ins|
    decreases i
  {
    if i == 0 then available
    else
      var left := Left(available, ins, i - 1);
      if ins[i - 1].Finishes? then left - Least(ins[i - 1].k, Size, left) else left
  }

  /** The i-th round is the first that has a reason to end the Copy. */
  predicate EndsAt(available: nat, ins: seq<Outcome>, outs: seq<Outcome>, i: nat)
    requires i < |ins| == |outs|
  {
    && Reason(Left(available, ins, i), ins[i], outs[i]).Some?
    && forall j :: 0 <= j < i ==> Reason(Left(available, ins, j), ins[j], outs[j]).None?
  }

  lemma RoundEndsBecause(rest: seq<byte>, input: Outcome, output: Outcome)
    ensures Round(rest, input, output).ended <==> Reason(|rest|, input, output).Some?
    ensures Round(rest, input, output).ended ==> Round(rest, input, output).err == Reason(|rest|, input, output).value
    ensures input.Finishes? ==> Round(rest, input, output).taken == Least(input.k, Size, |rest|)
  {
  }

  ghost predicate EndsSomewhere(available: nat, ins: seq<Outcome>, outs: seq<Outcome>)
    requires |ins| == |outs|
  {
    exists i :: 0 <= i < |ins| && EndsAt(available, ins, outs, i)
  }

  /** When and how the loop ends: at the first round that has a reason to, and with that. */
  lemma RoundsEndBecause(rest: seq<byte>, ins: seq<Outcome>, outs: seq<Outcome>)
    requires |ins| == |outs|
    ensures Rounds(rest, ins, outs).ended <==> EndsSomewhere(|rest|, ins, outs)
    ensures forall i :: 0 <= i < |ins| && EndsAt(|rest|, ins, outs, i) ==>
              Rounds(rest, ins, outs).err == Reason(Left(|rest|, ins, i), ins[i], outs[i]).value
  {
    RoundsEndSomewhere(rest, ins, outs);
    forall i | 0 <= i < |ins| && EndsAt(|rest|, ins, outs, i)
      ensures Rounds(rest, ins, outs).err == Reason(Left(|rest|, ins, i), ins[i], outs[i]).value
    {
      RoundsEndWith(rest, ins, outs, i);
    }
  }

  /** The first round is the end, or the rest of the loop tells. */
  lemma {:induction false} FirstOrRest(rest: seq<byte>, ins: seq<Outcome>, outs: seq<Outcome>)
    requires |ins| == |outs| && ins != []
    ensures var m, all, why := Round(rest, ins[0], outs[0]), Rounds(rest, ins, outs), Reason(|rest|, ins[0], outs[0]);
            if why.Some? then all.ended && all.err == why.value
            else
              var more := Rounds(rest[m.taken..], ins[1..], outs[1..]);
              && ins[0].Finishes? && m.taken == Least(ins[0].k, Size, |rest|) <= |rest|
              && all.ended == more.ended && all.err == more.err
  {
    RoundEndsBecause(rest, ins[0], outs[0]);
  }

  lemma {:induction false} RoundsEndSomewhere(rest: seq<byte>, ins: seq<Outcome>, outs: seq<Outcome>)
    requires |ins| == |outs|
    ensures Rounds(rest, ins, outs).ended <==> EndsSomewhere(|rest|, ins, outs)
    decreases |ins|
  {
    if ins != [] {
      FirstOrRest(rest, ins, outs);
      if Reason(|rest|, ins[0], outs[0]).Some? {
        EndsAtOnce(|rest|, ins, outs);
      } else {
        RoundsEndSomewhere(rest[Least(ins[0].k, Size, |rest|)..], ins[1..], outs[1..]);
        EndsLater(|rest|, ins, outs);
      }
    }
  }

  lemma {:induction false} RoundsEndWith(rest: seq<byte>, ins: seq<Outcome>, outs: seq<Outcome>, i: nat)
    requires |ins| == |outs| && i < |ins| && EndsAt(|rest|, ins, outs, i)
    ensures Rounds(rest, ins, outs).err == Reason(Left(|rest|, ins, i), ins[i], outs[i]).value
    decreases |ins|
  {
    FirstOrRest(rest, ins, outs);
    assert Left(|rest|, ins, 0) == |rest|;
    if i > 0 {
      EndsLater(|rest|, ins, outs);
      assert EndsAt(|rest|, ins, outs, (i - 1) + 1);
      RoundsEndWith(rest[Least(ins[0].k, Size, |rest|)..], ins[1..], outs[1..], i - 1);
    }
  }

  lemma {:induction false} EndsAtOnce(available: nat, ins: seq<Outcome>, outs: seq<Outcome>)
    requires |ins| == |outs| && ins != [] && Reason(available, ins[0], outs[0]).Some?
    ensures EndsSomewhere(available, ins, outs)
    ensures forall i :: 0 <= i < |ins| && EndsAt(available, ins, outs, i) ==>
              i == 0 && Left(available, ins, i) == available
  {
    assert Left(available, ins, 0) == available;
    assert EndsAt(available, ins, outs, 0);
  }

  lemma {:induction false} LeftLater(available: nat, ins: seq<Outcome>, i: nat)
    requires ins != [] && ins[0].Finishes? && i < |ins|
    ensures Left(available, ins, i + 1) == Left(available - Least(ins[0].k, Size, available), ins[1..], i)
    decreases i
  {
    if i == 0 {
      assert Left(available, ins, 0) == available;
    } else {
      LeftLater(available, ins, i - 1);
      assert ins[1..][i - 1] == ins[i];
    }
  }

  /** If the first round does not end it, the others are what the rest of the loop sees. */
  lemma {:induction false} EndsLater(available: nat, ins: seq<Outcome>, outs: seq<Outcome>)
    requires |ins| == |outs| && ins != [] && Reason(available, ins[0], outs[0]).None?
    ensures var left := available - Least(ins[0].k, Size, available);
            && !EndsAt(available, ins, outs, 0)
            && forall i :: 0 <= i < |ins| - 1 ==>
                 && Left(available, ins, i + 1) == Left(left, ins[1..], i)
                 && (EndsAt(available, ins, outs, i + 1) <==> EndsAt(left, ins[1..], outs[1..], i))
    ensures var left := available - Least(ins[0].k, Size, available);
            EndsSomewhere(available, ins, outs) <==> EndsSomewhere(left, ins[1..], outs[1..])
  {
    var left := available - Least(ins[0].k, Size, available);
    assert Left(available, ins, 0) == available;
    forall i | 0 <= i < |ins| - 1
      ensures Left(available, ins, i + 1) == Left(left, ins[1..], i)
      ensures Reason(Left(available, ins, i + 1), ins[i + 1], outs[i + 1])
           == Reason(Left(left, ins[1..], i), ins[1..][i], outs[1..][i])
    {
      LeftLater(available, ins, i);
    }
    forall i | 0 <= i < |ins| - 1
      ensures EndsAt(available, ins, outs, i + 1) <==> EndsAt(left, ins[1..], outs[1..], i)
    {
      ShiftedEnd(available, left, ins, outs, i);
    }
    if EndsSomewhere(available, ins, outs) {
      var i :| 0 <= i < |ins| && EndsAt(available, ins, outs, i);
      assert EndsAt(available, ins, outs, (i - 1) + 1);
      assert EndsAt(left, ins[1..], outs[1..], i - 1);
    }
    if EndsSomewhere(left, ins[1..], outs[1..]) {
      var i :| 0 <= i < |ins| - 1 && EndsAt(left, ins[1..], outs[1..], i);
      assert EndsAt(available, ins, outs, i + 1);
    }
  }

  lemma {:induction false} ShiftedEnd(available: nat, left: nat, ins: seq<Outcome>, outs: seq<Outcome>, i: nat)
    requires |ins| == |outs| && i + 1 < |ins| && Reason(Left(available, ins, 0), ins[0], outs[0]).None?
    requires forall j :: 0 <= j <= i ==>
               Reason(Left(available, ins, j + 1), ins[j + 1], outs[j + 1])
               == Reason(Left(left, ins[1..], j), ins[1..][j], outs[1..][j])
    ensures EndsAt(available, ins, outs, i + 1) <==> EndsAt(left, ins[1..], outs[1..], i)
  {
    if EndsAt(left, ins[1..], outs[1..], i) {
      forall j | 0 <= j < i + 1
        ensures Reason(Left(available, ins, j), ins[j], outs[j]).None?
      {
        if j > 0 { assert Reason(Left(available, ins, (j - 1) + 1), ins[(j - 1) + 1], outs[(j - 1) + 1]).None?; }
      }
    }
    if EndsAt(available, ins, outs, i + 1) {
      forall j | 0 <= j < i
        ensures Reason(Left(left, ins[1..], j), ins[1..][j], outs[1..][j]).None?
      {
        assert Reason(Left(available, ins, j + 1), ins[j + 1], outs[j + 1]).None?;
      }
    }
  }

  /** The body of the loop of io.Copy. A destination that takes less than it was given without an
      error is a short write. */
  method CopyRound(pool: BufferPool, dst: Destination, src: Source, buf: array<byte>, input: Outcome, output: Outcome)
      returns (nw: nat, err: Option<Error>, ended: bool)
    requires pool.Valid() && buf !in pool.free && buf.Length == Size
    modifies pool, pool.free, dst, src, buf
    ensures pool.Valid() && buf !in pool.free
    ensures forall b :: b in pool.free ==> b in old(pool.free) || fresh(b)
    ensures var m := Round(old(src.rest), input, output);
            && dst.delivered == old(dst.delivered) + m.bytes && nw == |m.bytes|
            && src.rest == old(src.rest)[m.taken..] && (ended, err) == (m.ended, m.err)
  {
    nw := 0;
    var nr, er := Read(pool, src, buf, input);
    ghost var chunk := buf[..nr];
    var ew: Option<Error> := None;
    if nr > 0 {
      nw, ew := Write(pool, dst, buf, nr, output);
      assert buf[..nw] == chunk[..nw] == old(src.rest)[..nw];
    }
    if ew.Some? {
      return nw, ew, true;
    }
    if nr != nw {
      return nw, Some(ShortWrite), true;
    }
    if er.Some? {
      return nw, if er.value.Eof? then None else er, true;
    }
    return nw, None, false;
  }

  /** The loop, for as many rounds as outcomes are given. */
  method CopyLoop(pool: BufferPool, dst: Destination, src: Source, ins: seq<Outcome>, outs: seq<Outcome>)
      returns (written: nat, err: Option<Error>)
    requires pool.Valid() && |ins| == |outs|
    modifies pool, pool.free, dst, src
    ensures pool.Valid()
    ensures var m := Rounds(old(src.rest), ins, outs);
            && dst.delivered == old(dst.delivered) + m.bytes && written == |m.bytes|
            && src.rest == old(src.rest)[m.taken..] && err == m.err
    ensures MovesPrefix(Rounds(old(src.rest), ins, outs), old(src.rest))
  {
    ghost var rest, delivered, whole := src.rest, dst.delivered, Rounds(src.rest, ins, outs);
    RoundsMove(rest, ins, outs);
    var buf := new byte[Size];
    written, err := 0, None;
    ghost var m := Moved([], 0, false, None);
    for i := 0 to |ins|
      invariant pool.Valid() && buf !in pool.free
      invariant forall b :: b in pool.free ==> b in old(pool.free) || fresh(b)
      invariant dst.delivered == delivered + m.bytes && written == |m.bytes| && err.None?
      invariant m.taken <= |rest| && src.rest == rest[m.taken..]
      invariant whole == Then(m, Rounds(rest[m.taken..], ins[i..], outs[i..]))
    {
      ghost var before := m;
      m := NextRound(before, rest, delivered, ins, outs, i);
      var nw, ended;
      nw, err, ended := CopyRound(pool, dst, src, buf, ins[i], outs[i]);
      written := written + nw;
      if ended {
        return;
      }
    }
    NoMoreRounds(m, src.rest);
  }

  lemma {:induction false} NoMoreRounds(m: Moved, rest: seq<byte>)
    ensures var all := Then(m, Rounds(rest, [], []));
            all.bytes == m.bytes && all.taken == m.taken && all.err.None?
  {
  }

  lemma {:induction false} NextRound(m: Moved, rest: seq<byte>, delivered: seq<byte>,
                                     ins: seq<Outcome>, outs: seq<Outcome>, i: nat) returns (m': Moved)
    requires i < |ins| == |outs| && m.taken <= |rest|
    ensures var here := rest[m.taken..];
            var r := Round(here, ins[i], outs[i]);
            && m' == Then(m, r) && m'.taken <= |rest| && here[r.taken..] == rest[m'.taken..]
            && delivered + m.bytes + r.bytes == delivered + m'.bytes
            && |m'.bytes| == |m.bytes| + |r.bytes|
            && Then(m, Rounds(here, ins[i..], outs[i..]))
               == if r.ended then m' else Then(m', Rounds(rest[m'.taken..], ins[i + 1..], outs[i + 1..]))
  {
    var here := rest[m.taken..];
    var r := Round(here, ins[i], outs[i]);
    m' := Then(m, r);
    DropTwice(rest, m.taken, r.taken);
    Regroup(delivered, m.bytes, r.bytes);
    assert ins[i..][1..] == ins[i + 1..] && outs[i..][1..] == outs[i + 1..];
    if !r.ended {
      Regroup(m.bytes, r.bytes, Rounds(here[r.taken..], ins[i + 1..], outs[i + 1..]).bytes);
    }
  }
}
