/** The retry loops of the RPC clients: exponential backoff with base 1.5, capped, in exact arithmetic. */
module Backoff {
  import opened MachineInts

  const Second: nat := 1_000_000_000

  function Pow(base: nat, k: nat): nat { if k == 0 then 1 else base * Pow(base, k - 1) }

  lemma PowPositive(base: nat, k: nat)
    requires base > 0
    ensures Pow(base, k) > 0
  {
  }

  /** floor(1.5^k seconds), in nanoseconds. */
  function Uncapped(k: nat): nat {
    PowPositive(2, k);
    Pow(3, k) * Second / Pow(2, k)
  }

  /** GetBackoffDurationForAttempts: the duration, and whether the cap was reached. */
  function BackoffFor(k: nat, cap: nat): (nat, bool) {
    if Uncapped(k) > cap then (cap, true) else (Uncapped(k), false)
  }

  function Min(a: nat, b: nat): nat { if a <= b then a else b }

  lemma ScaleUp(a: nat, b: nat)
    requires b > 0
    ensures a / b <= (3 * a) / (2 * b)
  {
    var q := a / b;
    assert a >= q * b;
    assert 3 * a >= q * (2 * b) by { assert q * (2 * b) == 2 * (q * b); }
    DivAtLeast(3 * a, 2 * b, q);
  }

  lemma DivAtLeast(x: nat, d: nat, q: nat)
    requires d > 0 && x >= q * d
    ensures x / d >= q
  {
    if x / d < q {
      assert (x / d + 1) * d <= q * d by { Multiply(x / d + 1, q, d); }
    }
  }

  lemma Multiply(a: nat, b: nat, c: nat)
    requires a <= b
    ensures a * c <= b * c
  {
  }

  lemma UncappedStep(k: nat)
    ensures Uncapped(k) <= Uncapped(k + 1)
  {
    PowPositive(2, k);
    var a, b := Pow(3, k) * Second, Pow(2, k);
    ScaleUp(a, b);
    assert Pow(3, k + 1) * Second == 3 * a && Pow(2, k + 1) == 2 * b;
  }

  /** The waiting times never decrease. */
  lemma {:induction false} UncappedGrows(j: nat, k: nat)
    requires j <= k
    ensures Uncapped(j) <= Uncapped(k)
    decreases k
  {
    hide Uncapped;
    if j < k {
      UncappedGrows(j, k - 1);
      UncappedStep(k - 1);
    }
  }

  /** The longest waiting time; a product that wraps to a negative number counts as 30 seconds. */
  function RetryCap(maxWaitSeconds: nat): nat {
    var seconds := if maxWaitSeconds < 2 then 2 else maxWaitSeconds;
    var cap := Int64(seconds * Second);
    if cap < 0 then 30 * Second else cap
  }

  /** At least 2 seconds; the given seconds while their nanoseconds fit 63 bits, 30 seconds if they fit only 64. */
  lemma CapExactly(maxWaitSeconds: nat)
    ensures maxWaitSeconds < 2 ==> RetryCap(maxWaitSeconds) == 2_000_000_000
    ensures 2 <= maxWaitSeconds && maxWaitSeconds * 1_000_000_000 < 0x8000_0000_0000_0000 ==>
              RetryCap(maxWaitSeconds) == maxWaitSeconds * 1_000_000_000
    ensures 0x8000_0000_0000_0000 <= maxWaitSeconds * 1_000_000_000 < 0x1_0000_0000_0000_0000 ==>
              RetryCap(maxWaitSeconds) == 30_000_000_000
  {
  }

  lemma DivExactly(a: nat, b: nat)
    requires b > 0
    ensures a / b * b <= a < (a / b + 1) * b
  {
    assert a == b * (a / b) + a % b;
    assert (a / b + 1) * b == a / b * b + b;
  }

  /** Uncapped(k) is the whole number of nanoseconds in 1.5^k seconds. */
  lemma UncappedExactly(k: nat)
    ensures Uncapped(k) * Pow(2, k) <= Pow(3, k) * 1_000_000_000 < (Uncapped(k) + 1) * Pow(2, k)
  {
    hide Pow;
    PowPositive(2, k);
    DivExactly(Pow(3, k) * Second, Pow(2, k));
  }

  /** The first waits are 1, 1.5 and 2.25 seconds. */
  lemma FirstWaits()
    ensures Uncapped(0) == 1_000_000_000 && Uncapped(1) == 1_500_000_000 && Uncapped(2) == 2_250_000_000
  {
    assert Pow(3, 1) == 3 && Pow(2, 1) == 2 && Pow(3, 2) == 9 && Pow(2, 2) == 4;
  }

  datatype Outcome = Succeeded | GaveUp | Unfinished

  /** The calls fail up to and including call `k - 1`. */
  ghost predicate FailedUpTo(fails: nat -> bool, k: nat) { forall i: nat :: i < k ==> fails(i) }

  /**
   GetBlockResultWithRetry and GetLatestBlockHeightWithRetry; `fails(i)` says whether call `i` returns an error.
   A negative limit retries forever, so the run is followed for at most `budget` calls.

   The k-th wait is the smaller of floor(1.5^k seconds) and the cap, although the duration is no longer computed once
   the cap is reached.  With a limit m >= 0 the loop gives up after exactly m + 1 failures, and else returns the first
   success; it waits after every call but the last.
   */
  method CallWithRetry(fails: nat -> bool, maxAttempts: int, maxWaitSeconds: nat, budget: nat)
    returns (calls: nat, waits: seq<nat>, outcome: Outcome)
    ensures forall k :: 0 <= k < |waits| ==> waits[k] == Min(Uncapped(k), RetryCap(maxWaitSeconds))
    ensures outcome.Succeeded? ==>
              calls >= 1 && FailedUpTo(fails, calls - 1) && !fails(calls - 1) && |waits| == calls - 1
    ensures outcome.GaveUp? ==>
              maxAttempts >= 0 && calls == maxAttempts + 1 && FailedUpTo(fails, calls) && |waits| == calls - 1
    ensures outcome.Unfinished? ==> calls == budget && FailedUpTo(fails, calls) && |waits| == calls
    ensures maxAttempts >= 0 ==> calls <= maxAttempts + 1 && (budget > maxAttempts ==> !outcome.Unfinished?)
  {
    hide Uncapped;
    calls, waits := 0, [];
    if budget == 0 { return calls, waits, Unfinished; }
    if maxAttempts == 0 {
      calls := 1;
      outcome := if fails(0) then GaveUp else Succeeded;
      return;
    }
    var cap := RetryCap(maxWaitSeconds);
    var (current, maxReached) := BackoffFor(calls, cap);
    while true
      invariant calls <= budget && FailedUpTo(fails, calls) && |waits| == calls
      invariant maxAttempts >= 0 ==> calls <= maxAttempts
      invariant forall k :: 0 <= k < |waits| ==> waits[k] == Min(Uncapped(k), cap)
      invariant current == Min(Uncapped(calls), cap)
      invariant maxReached ==> Uncapped(calls) > cap
      decreases budget - calls
    {
      if calls == budget { return calls, waits, Unfinished; }
      var failed := fails(calls);
      calls := calls + 1;
      if failed && (maxAttempts < 0 || calls <= maxAttempts) {
        waits := waits + [current];
        UncappedStep(calls - 1);
        if !maxReached {
          var next := BackoffFor(calls, cap);
          current, maxReached := next.0, next.1;
        }
      } else {
        outcome := if failed then GaveUp else Succeeded;
        return;
      }
    }
  }

  /** The waits of one run never decrease and stay within the cap. */
  lemma WaitsGrow(j: nat, k: nat, cap: nat)
    requires j <= k
    ensures Min(Uncapped(j), cap) <= Min(Uncapped(k), cap) <= cap
  {
    hide Uncapped;
    UncappedGrows(j, k);
  }
}
