/** How many keys of a map hold a value of some kind, how one update changes that number, and two facts
    about numbers. */
module Counting {

  ghost function Where<K, V>(m: map<K, V>, p: V -> bool): set<K> {
    set k | k in m && p(m[k])
  }

  ghost function Count<K, V>(m: map<K, V>, p: V -> bool): nat {
    |Where(m, p)|
  }

  lemma CountAfterUpdate<K, V>(m: map<K, V>, k: K, v: V, p: V -> bool)
    ensures Count(m[k := v], p)
         == Count(m, p) - (if k in m && p(m[k]) then 1 else 0) + (if p(v) then 1 else 0)
  {
    var before, after := Where(m, p), Where(m[k := v], p);
    if p(v) {
      assert after == before + {k};
    } else {
      assert after == before - {k};
    }
  }

  lemma WitnessOfCount<K, V>(m: map<K, V>, p: V -> bool) returns (k: K)
    requires Count(m, p) > 0
    ensures k in m && p(m[k])
  {
    k :| k in Where(m, p);
  }

  /** There is always a number that is not in use. */
  lemma {:induction false} FreshNumber(used: set<nat>) returns (n: nat)
    ensures n !in used && forall x :: x in used ==> x < n
    decreases |used|
  {
    n := 0;
    if used != {} {
      var x :| x in used;
      n := FreshNumber(used - {x});
      if n <= x { n := x + 1; }
      assert used == used - {x} + {x};
    }
  }

  /** What no step changes stays the same. */
  lemma {:induction false} Constant(f: nat -> int, i: nat, j: nat)
    requires i <= j && forall k: nat :: i <= k < j ==> f(k) == f(k + 1)
    ensures f(i) == f(j)
  {
    if i < j { Constant(f, i, j - 1); }
  }
}
