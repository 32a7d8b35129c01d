/** counter_delta: a 32-bit hardware counter read now and then. */
module Counters {
  const WRAP := 0x1_0000_0000

  /** What counter_delta adds for a stored reading and a new one. */
  function Delta(counter: nat, val: nat): nat
    requires counter < WRAP && val < WRAP
  {
    if counter == 0 then 0
    else if val >= counter then val - counter
    else (WRAP - 1 - counter) + val
  }

  class Counter {
    var counter: nat

    constructor (start: nat)
      ensures counter == start
    {
      counter := start;
    }

    /** counter_delta; `val` is what the register `reg` reads. */
    method CounterDelta(reg: nat, val: nat) returns (ret: nat)
      requires counter < WRAP && val < WRAP
      modifies this
      ensures reg == 0 ==> ret == 0 && counter == old(counter)
      ensures reg != 0 ==> ret == Delta(old(counter), val) && counter == val
      ensures counter < WRAP && ret < WRAP
    {
      ret := 0;
      if reg == 0 {
        return;
      }
      if counter != 0 {
        if val >= counter {
          ret := val - counter;
        } else {
          ret := (WRAP - 1 - counter) + val;
        }
      }
      counter := val;
    }
  }

  // ------------------------------------------------------------- runs

  /** True tick counts at successive reads, less than 2^32 apart. */
  predicate Ticks(ts: seq<nat>) {
    forall k | 0 <= k < |ts| - 1 :: ts[k] <= ts[k + 1] < ts[k] + WRAP
  }

  /** The sum of the deltas over a run of reads. */
  function Measured(ts: seq<nat>): nat {
    if |ts| < 2 then 0
    else Measured(ts[..|ts| - 1]) + Delta(ts[|ts| - 2] % WRAP, ts[|ts| - 1] % WRAP)
  }

  /** The intervals in which the register wraps while the stored reading is not 0. */
  function Wraps(ts: seq<nat>): nat {
    if |ts| < 2 then 0
    else
      Wraps(ts[..|ts| - 1])
        + if ts[|ts| - 2] % WRAP != 0 && ts[|ts| - 2] / WRAP < ts[|ts| - 1] / WRAP then 1 else 0
  }

  /** The ticks of the intervals that start with a stored reading of 0. */
  function Lost(ts: seq<nat>): nat
    requires Ticks(ts)
  {
    if |ts| < 2 then 0
    else
      Lost(ts[..|ts| - 1]) + if ts[|ts| - 2] % WRAP == 0 then ts[|ts| - 1] - ts[|ts| - 2] else 0
  }

  lemma OneInterval(a: nat, b: nat)
    requires a <= b < a + WRAP
    ensures Delta(a % WRAP, b % WRAP)
          + (if a % WRAP != 0 && a / WRAP < b / WRAP then 1 else 0)
          + (if a % WRAP == 0 then b - a else 0)
         == b - a
  {
    assert a / WRAP <= b / WRAP <= a / WRAP + 1;
  }

  /** The deltas fall short of the true ticks by one for every wrap and by the intervals that start at a reading of 0. */
  lemma {:induction false} Shortfall(ts: seq<nat>)
    requires Ticks(ts) && ts != []
    ensures ts[0] + Measured(ts) + Wraps(ts) + Lost(ts) == ts[|ts| - 1]
  {
    if |ts| >= 2 {
      Shortfall(ts[..|ts| - 1]);
      OneInterval(ts[|ts| - 2], ts[|ts| - 1]);
    }
  }

  /** So a run never over-counts, and is exact if and only if nothing wrapped and nothing was lost. */
  lemma NeverOverCounts(ts: seq<nat>)
    requires Ticks(ts) && ts != []
    ensures ts[0] + Measured(ts) <= ts[|ts| - 1]
    ensures ts[0] + Measured(ts) == ts[|ts| - 1] <==> Wraps(ts) == 0 && Lost(ts) == 0
  {
    Shortfall(ts);
  }
}
