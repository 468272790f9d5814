/** internal/lock/onetime.go: a lock that can be taken once, by a compare-and-swap. */
module OneTimeLock {

  class OneTime {
    var locked: bv32

    constructor ()
      ensures locked == 0
    {
      locked := 0;
    }

    /** atomic.CompareAndSwapUint32(&locked, 0, 1) */
    method Lock() returns (ok: bool)
      modifies this
      ensures ok <==> old(locked) == 0
      ensures locked == if ok then 1 else old(locked)
    {
      ok := locked == 0;
      if ok { locked := 1; }
    }
  }

  /** However many calls are made, in whatever order their compare-and-swaps take place: the first is
      the only one to succeed. */
  method LockRepeatedly(ol: OneTime, n: nat) returns (oks: seq<bool>)
    requires ol.locked == 0
    modifies ol
    ensures |oks| == n && forall i :: 0 <= i < n ==> (oks[i] <==> i == 0)
    ensures ol.locked == if n > 0 then 1 else 0
  {
    oks := [];
    for i := 0 to n
      invariant |oks| == i && forall j :: 0 <= j < i ==> (oks[j] <==> j == 0)
      invariant ol.locked == if i > 0 then 1 else 0
    {
      var ok := ol.Lock();
      oks := oks + [ok];
    }
  }
}
