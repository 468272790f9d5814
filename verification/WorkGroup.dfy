/** internal/lock/workgroup.go: a read-write mutex and a wait group behind one interface.
    The mutex grants the read side to Add and the write side to Lock. A writer announces
    itself first, which keeps new readers out, and owns the mutex once the readers inside
    have left. The wait group is one atomic counter. */
module WorkGroup {
  import opened Options

  /** `writer` is the goroutine that has announced itself and not yet unlocked. */
  datatype Group<T> = Group(writer: Option<T>, readers: nat, count: int)

  function Fresh<T>(): Group<T> { Group(None, 0, 0) }

  // One function for each atomic operation, with the condition that lets it proceed.

  predicate CanRead<T>(g: Group<T>) { g.writer.None? }

  function ReadLock<T>(g: Group<T>): Group<T> { g.(readers := g.readers + 1) }

  function ReadUnlock<T>(g: Group<T>): Group<T>
    requires g.readers > 0
  {
    g.(readers := g.readers - 1)
  }

  function CountBy<T>(g: Group<T>, n: int): Group<T> { g.(count := g.count + n) }

  predicate CanAnnounce<T>(g: Group<T>) { g.writer.None? }

  function Announce<T>(g: Group<T>, t: T): Group<T> { g.(writer := Some(t)) }

  predicate Drained<T>(g: Group<T>) { g.readers == 0 }

  function WriteUnlock<T>(g: Group<T>): Group<T> { g.(writer := None) }

  predicate CanWait<T>(g: Group<T>) { g.count == 0 }

  /** The object itself. A call of Lock or Add that would block is not a call that has happened yet,
      so what lets it through is required; a negative counter is the panic of the wait group. */
  class WorkGroupObject<T> {
    var writer: Option<T>
    var readers: nat
    var count: int

    ghost function View(): Group<T>
      reads this
    {
      Group(writer, readers, count)
    }

    predicate CanRead()
      reads this
    {
      writer.None?
    }

    constructor ()
      ensures View() == Fresh()
    {
      writer, readers, count := None, 0, 0;
    }

    method Lock(me: T)
      requires CanAnnounce(View()) && Drained(View())
      modifies this
      ensures View() == Announce(old(View()), me)
      ensures !CanRead()
    {
      writer := Some(me);
    }

    method Unlock()
      requires writer.Some? && Drained(View())
      modifies this
      ensures View() == WriteUnlock(old(View()))
      ensures CanRead()
    {
      writer := None;
    }

    method Add(n: int) returns (panics: bool)
      requires CanRead()
      modifies this
      ensures View() == ReadUnlock(CountBy(ReadLock(old(View())), n))
      ensures View() == CountBy(old(View()), n)
      ensures panics <==> count < 0
    {
      readers := readers + 1;
      count := count + n;
      panics := count < 0;
      readers := readers - 1;
    }

    method Done() returns (panics: bool)
      modifies this`count
      ensures View() == CountBy(old(View()), -1)
      ensures panics <==> old(count) <= 0
    {
      count := count - 1;
      panics := count < 0;
    }

    /** While it blocks, whoever is pending calls Done, which no lock keeps anybody from. */
    method Wait()
      requires count >= 0
      modifies this`count
      ensures View() == old(View()).(count := 0) && CanWait(View())
    {
      while count > 0
        invariant count >= 0 && View() == old(View()).(count := count)
        decreases count
      {
        var panics := Done();
      }
    }
  }
}
