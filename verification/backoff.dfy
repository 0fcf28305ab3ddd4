/** connection_try () (src/cerver/connection.c:674-696): connect with exponential backoff. */
module Backoff {
  import opened Header

  function Pow2(k: nat): (p: nat)
    ensures p > 0
  {
    if k == 0 then 1 else 2 * Pow2(k - 1)
  }

  function Sum(s: seq<nat>): nat {
    if s == [] then 0 else Sum(s[..|s| - 1]) + s[|s| - 1]
  }

  /** numsec <<= 1 on a u32. */
  function ShiftLeft(numsec: u32): u32 {
    (2 * numsec) % 0x1_0000_0000
  }

  /** The largest k with 2^k <= n. */
  function Log2(n: nat): (k: nat)
    requires n >= 1
    ensures Pow2(k) <= n < Pow2(k + 1)
  {
    if n == 1 then 0 else Log2(n / 2) + 1
  }

  lemma {:induction false} Log2Unique(n: nat, k: nat)
    requires n >= 1 && Pow2(k) <= n < Pow2(k + 1)
    ensures k == Log2(n)
  {
    if k == 0 {
    } else {
      Log2Unique(n / 2, k - 1);
    }
  }

  lemma Pow2Step(k: nat)
    ensures Pow2(k + 1) == 2 * Pow2(k)
    ensures k == 0 ==> Pow2(k) == 1
  {
  }

  lemma SumSnoc(s: seq<nat>, n: nat)
    ensures Sum([]) == 0 && Sum(s + [n]) == Sum(s) + n
  {
    assert (s + [n])[..|s|] == s;
  }

  lemma {:induction false} Pow2Monotone(a: nat, b: nat)
    requires a <= b
    ensures Pow2(a) <= Pow2(b)
    decreases b
  {
    if a >= b {
    } else {
      Pow2Monotone(a, b - 1);
    }
  }

  /** Where the loop is after so many failed attempts. */
  ghost predicate Waited(maxSleep: u32, numsec: u32, attempts: nat, sleeps: seq<nat>) {
    && numsec == Pow2(attempts + 1)
    && (attempts > 0 ==> Pow2(attempts) <= maxSleep)
    && |sleeps| == (if numsec <= maxSleep || attempts == 0 then attempts else attempts - 1)
    && (forall i :: 0 <= i < |sleeps| ==> sleeps[i] == Pow2(i + 1))
    && Sum(sleeps) == Pow2(|sleeps| + 1) - 2
  }

  lemma WaitedNext(maxSleep: u32, numsec: u32, attempts: nat, sleeps: seq<nat>)
    requires maxSleep < ENDLESS && numsec <= maxSleep && Waited(maxSleep, numsec, attempts, sleeps)
    ensures Waited(maxSleep, ShiftLeft(numsec), attempts + 1,
                   if numsec <= maxSleep / 2 then sleeps + [numsec] else sleeps)
  {
    hide Pow2, Sum;
    SumSnoc(sleeps, numsec);
    Pow2Step(attempts + 1);
    assert numsec <= maxSleep / 2 <==> 2 * numsec <= maxSleep;
  }

  /** From this limit on the loop only ends with a connection. */
  const ENDLESS: nat := 0x8000_0000

  /** `succeeds` is what connect () does on each attempt.  Below the limit, a connection that is never
      accepted costs floor(log2 (max_sleep)) attempts, with the waits 2, 4, 8, ... between them and none
      after the last; they add up to 2^attempts - 2 seconds, less than max_sleep.  From the limit on the
      loop goes on until a connection is accepted. */
  method ConnectionTry(maxSleep: u32, succeeds: nat -> bool) returns (retval: int, attempts: nat, sleeps: seq<nat>)
    requires maxSleep < ENDLESS || exists k: nat :: succeeds(k)
    ensures retval == 0 <==> attempts > 0 && succeeds(attempts - 1)
    ensures retval == 0 || retval == 1
    ensures forall i :: 0 <= i < attempts - 1 ==> !succeeds(i)
    ensures maxSleep >= ENDLESS ==> retval == 0
    ensures maxSleep < ENDLESS ==>
              && attempts <= (if maxSleep < 2 then 0 else Log2(maxSleep))
              && (retval == 1 ==> attempts == if maxSleep < 2 then 0 else Log2(maxSleep))
              && |sleeps| == (if attempts == 0 then 0 else attempts - 1)
              && (forall i :: 0 <= i < |sleeps| ==> sleeps[i] == Pow2(i + 1))
              && (attempts > 0 ==> Sum(sleeps) == Pow2(attempts) - 2 < maxSleep)
  {
    hide Pow2, Sum, Log2;
    retval, attempts, sleeps := 1, 0, [];
    ghost var accepted: nat := 0;
    if maxSleep >= ENDLESS {
      accepted :| succeeds(accepted);
    }
    SumSnoc([], 0);
    Pow2Step(0);
    var numsec: u32 := 2;
    while numsec <= maxSleep
      invariant retval == 1 && forall i :: 0 <= i < attempts ==> !succeeds(i)
      invariant maxSleep >= ENDLESS ==> succeeds(accepted) && numsec == Numsec(attempts) <= ENDLESS
      invariant maxSleep < ENDLESS ==> Waited(maxSleep, numsec, attempts, sleeps)
      decreases if maxSleep < ENDLESS then maxSleep as int - numsec as int else accepted - attempts
    {
      attempts := attempts + 1;
      if succeeds(attempts - 1) {
        retval := 0;
        break;
      }
      ghost var before := sleeps;
      if numsec <= maxSleep / 2 {
        sleeps := sleeps + [numsec];
      }
      if maxSleep < ENDLESS {
        WaitedNext(maxSleep, numsec, attempts - 1, before);
      } else {
        NumsecValues(attempts);
      }
      numsec := ShiftLeft(numsec);
    }
    if maxSleep < ENDLESS && maxSleep >= 2 {
      if retval == 1 {
        Log2Unique(maxSleep, attempts);
      } else if attempts > Log2(maxSleep) {
        Pow2Monotone(Log2(maxSleep) + 1, attempts);
      }
    }
  }

  /** The values numsec goes through. */
  function Numsec(k: nat): u32 {
    if k == 0 then 2 else ShiftLeft(Numsec(k - 1))
  }

  lemma {:induction false} Pow2Add(a: nat, b: nat)
    ensures Pow2(a + b) == Pow2(a) * Pow2(b)
  {
    if a == 0 {
    } else {
      Pow2Add(a - 1, b);
    }
  }

  lemma Pow2Of5()
    ensures Pow2(0) == 1 && Pow2(1) == 2 && Pow2(5) == 32
  {
    assert Pow2(1) == 2 * Pow2(0);
    assert Pow2(2) == 2 * Pow2(1);
    assert Pow2(3) == 2 * Pow2(2);
    assert Pow2(4) == 2 * Pow2(3);
    assert Pow2(5) == 2 * Pow2(4);
  }

  lemma Pow2Of31()
    ensures Pow2(31) == 0x8000_0000
  {
    Pow2Of5();
    hide Pow2;
    Pow2Add(5, 5);
    Pow2Add(10, 5);
    Pow2Add(15, 15);
    Pow2Add(30, 1);
  }

  lemma {:induction false} NumsecValues(k: nat)
    ensures Numsec(k) == if k <= 30 then Pow2(k + 1) else 0
    ensures k <= 30 ==> Pow2(k + 1) <= ENDLESS
    ensures Numsec(k) <= ENDLESS
  {
    hide Pow2;
    Pow2Step(0);
    Pow2Of31();
    if k == 0 {
    } else {
      NumsecValues(k - 1);
      Pow2Step(k);
      if k <= 30 {
        Pow2Monotone(k + 1, 31);
      }
    }
  }

  /** The bound on max_sleep is exact: from 2^31 on the shift runs out of bits before the limit is
      passed, numsec becomes 0 and the loop condition never fails again. */
  lemma LoopEndsIff(maxSleep: u32)
    ensures (exists k: nat :: Numsec(k) > maxSleep) <==> maxSleep < ENDLESS
  {
    hide Numsec, Pow2, ShiftLeft;
    NumsecValues(30);
    Pow2Of31();
    if maxSleep < ENDLESS {
      assert Numsec(30) > maxSleep;
    } else {
      forall k: nat
        ensures Numsec(k) <= maxSleep
      {
        NumsecValues(k);
      }
    }
  }
}
