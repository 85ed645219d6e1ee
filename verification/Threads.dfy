/** Counting over the program counters of an arbitrary number of threads. */
module Threads {

  ghost function SumBy<T>(f: T -> nat, ts: seq<T>): nat
  {
    if ts == [] then 0 else f(ts[0]) + SumBy(f, ts[1..])
  }

  /** One thread moves. */
  lemma {:induction false} SumUpdate<T>(f: T -> nat, ts: seq<T>, i: nat, t: T)
    requires i < |ts|
    ensures SumBy(f, ts[i := t]) + f(ts[i]) == SumBy(f, ts) + f(t)
    decreases |ts|
  {
    var us := ts[i := t];
    if i == 0 {
      assert us[1..] == ts[1..];
    } else {
      SumUpdate(f, ts[1..], i - 1, t);
      assert us[1..] == ts[1..][i - 1 := t];
    }
  }

  lemma {:induction false} SumAtLeast<T>(f: T -> nat, ts: seq<T>, i: nat)
    requires i < |ts|
    ensures f(ts[i]) <= SumBy(f, ts)
    decreases |ts|
  {
    if i > 0 { SumAtLeast(f, ts[1..], i - 1); }
  }

  lemma {:induction false} SumZero<T>(f: T -> nat, ts: seq<T>)
    requires forall i :: 0 <= i < |ts| ==> f(ts[i]) == 0
    ensures SumBy(f, ts) == 0
    decreases |ts|
  {
    if ts != [] { SumZero(f, ts[1..]); }
  }

  lemma {:induction false} SumWitness<T>(f: T -> nat, ts: seq<T>) returns (i: nat)
    requires SumBy(f, ts) > 0
    ensures i < |ts| && f(ts[i]) > 0
    decreases |ts|
  {
    if f(ts[0]) > 0 { i := 0; } else {
      var k := SumWitness(f, ts[1..]);
      i := k + 1;
    }
  }
}
