// internal/webhook/dispatcher.go: delivery with retries and the default backoff.
module Dispatcher {
  import opened Wrappers
  import opened Text
  import opened Durations

  function Pow2(n: nat): (p: nat)
    ensures p >= 1
  {
    if n == 0 then 1 else 2 * Pow2(n - 1)
  }

  // 1 << k in 64 bits: past the width nothing is left.
  function ShiftedOne(k: nat): int { if k >= 64 then 0 else WrapInt64(Pow2(k)) }

  // The default delay before the retry that follows the given (1-based) attempt.
  function Backoff(attempt: nat): (d: int)
    requires attempt >= 1
    ensures d <= 30 * SECOND
  {
    var d := WrapInt64(ShiftedOne(attempt - 1) * SECOND);
    if d > 30 * SECOND then 30 * SECOND else d
  }

  // How long time.After(d) takes: a delay that is not positive is no delay.
  function Waits(d: int): int { if d > 0 then d else 0 }

  // New: a non-positive number of attempts becomes five.
  function MaxAttempts(configured: int): (n: nat)
    ensures n >= 1
    ensures n == if configured >= 1 then configured else 5
  {
    if configured <= 0 then 5 else configured
  }

  // The waiting before the first n attempts, none before the first.
  function Waited(n: nat): int {
    if n <= 1 then 0 else Waited(n - 1) + Waits(Backoff(n - 1))
  }

  lemma {:induction false} Pow2Add(m: nat, n: nat)
    ensures Pow2(m + n) == Pow2(m) * Pow2(n)
  {
    if m > 0 {
      Pow2Add(m - 1, n);
    }
  }

  lemma Pow2Values()
    ensures Pow2(5) == 32 && Pow2(33) == 8589934592 && Pow2(34) == 17179869184
  {
    assert Pow2(4) == 16;
    Pow2Add(4, 4);
    Pow2Add(8, 8);
    Pow2Add(16, 16);
  }

  // The delay is the doubling one, capped, up to the last attempt before 64 bits overflow.
  lemma BackoffDoubles(attempt: nat)
    requires 1 <= attempt <= 34
    ensures Backoff(attempt) == if attempt <= 5 then Pow2(attempt - 1) * SECOND else 30 * SECOND
  {
    hide Pow2;
    Pow2Values();
    Pow2Monotone(attempt - 1, 33);
    if attempt >= 6 {
      Pow2Monotone(5, attempt - 1);
    } else {
      Pow2Monotone(attempt - 1, 4);
      assert Pow2(4) == 16 by {
        Pow2Add(4, 1);
        Pow2One();
      }
    }
  }

  lemma Pow2One()
    ensures Pow2(1) == 2
  {
  }

  lemma {:induction false} Pow2Monotone(m: nat, n: nat)
    requires m <= n
    ensures Pow2(m) <= Pow2(n)
  {
    if m < n {
      Pow2Monotone(m, n - 1);
    }
  }

  // Whatever the attempt, the delay is the doubled second in 64-bit arithmetic, capped.
  lemma BackoffWraps(attempt: nat)
    requires attempt >= 1
    ensures var d := WrapInt64(Pow2(attempt - 1) * SECOND);
            Backoff(attempt) == if d > 30 * SECOND then 30 * SECOND else d
  {
    hide Pow2, WrapInt64;
    var k := attempt - 1;
    ShiftIsModular(k);
    ScaledAlike(ShiftedOne(k), Pow2(k), SECOND);
    SameWrap(ShiftedOne(k) * SECOND, Pow2(k) * SECOND);
  }

  const TWO64: int := 0x1_0000_0000_0000_0000

  lemma ShiftIsModular(k: nat)
    ensures (Pow2(k) - ShiftedOne(k)) % TWO64 == 0
  {
    hide Pow2;
    if k >= 64 {
      Pow2Add(64, k - 64);
      Pow2Of64();
      assert Pow2(k) == TWO64 * Pow2(k - 64);
      MultipleOf(Pow2(k - 64));
    }
  }

  lemma Pow2Of64()
    ensures Pow2(64) == TWO64
  {
    hide Pow2;
    Pow2Values();
    Pow2Add(5, 5);
    Pow2Add(10, 10);
    Pow2Add(20, 10);
    Pow2Add(30, 34);
  }

  lemma MultipleOf(q: int)
    ensures (TWO64 * q) % TWO64 == 0
  {
  }

  lemma ScaledAlike(a: int, b: int, s: int)
    requires (b - a) % TWO64 == 0
    ensures (b * s - a * s) % TWO64 == 0
  {
    var q := (b - a) / TWO64;
    assert b - a == TWO64 * q;
    assert b * s - a * s == (b - a) * s == (TWO64 * q) * s == TWO64 * (q * s);
    MultipleOf(q * s);
  }

  lemma SameWrap(a: int, b: int)
    requires (b - a) % TWO64 == 0
    ensures WrapInt64(a) == WrapInt64(b)
  {
  }

  // There the product overflows and the delay is negative: the retry is immediate.
  lemma BackoffOverflows()
    ensures Backoff(35) < 0
  {
    hide Pow2;
    Pow2Values();
    assert ShiftedOne(34) == 17179869184;
    assert 17179869184 * SECOND - 0x1_0000_0000_0000_0000 < 0;
    assert WrapInt64(17179869184 * SECOND) == 17179869184 * SECOND - 0x1_0000_0000_0000_0000;
  }

  // 1 + 2 + 4 + 8 + 16 seconds, and 30 for each further wait.
  function Bound(n: nat): int {
    if n == 0 then 0
    else if n <= 6 then (Pow2(n - 1) - 1) * SECOND
    else (31 + 30 * (n - 6)) * SECOND
  }

  // Whatever the number of attempts, the waiting never exceeds the bound; it is the bound
  // exactly as long as no delay has overflowed, which is up to 35 attempts.
  lemma {:induction false} WaitedIsBounded(n: nat)
    ensures 0 <= Waited(n) <= Bound(n)
    ensures Waited(n) == Bound(n) <==> n <= 35
  {
    hide Backoff, Bound, Pow2, Waits;
    assert Bound(0) == 0 && Bound(1) == 0 by {
      BoundStart();
    }
    if n > 1 {
      WaitedIsBounded(n - 1);
      BoundStep(n - 1);
      WaitStep(n - 1);
    }
  }

  // One more wait is never longer than the bound allows, and as long only before overflow.
  lemma WaitStep(attempt: nat)
    requires attempt >= 1
    ensures 0 <= Waits(Backoff(attempt)) <= 30 * SECOND
    ensures attempt <= 34 ==>
      Waits(Backoff(attempt)) == if attempt <= 5 then Pow2(attempt - 1) * SECOND else 30 * SECOND
    ensures attempt == 35 ==> Waits(Backoff(attempt)) == 0
  {
    hide Backoff, Pow2;
    if attempt <= 34 {
      BackoffDoubles(attempt);
      PositiveSeconds(Pow2(attempt - 1));
    } else if attempt == 35 {
      BackoffOverflows();
    }
  }

  lemma BoundStart()
    ensures Bound(0) == 0 && Bound(1) == 0
  {
  }

  lemma BoundStep(n: nat)
    requires n >= 1
    ensures Bound(n + 1) == Bound(n) + if n <= 5 then Pow2(n - 1) * SECOND else 30 * SECOND
  {
  }

  lemma PositiveSeconds(k: nat)
    requires k >= 1
    ensures k * SECOND > 0
  {
  }

  lemma {:induction false} WaitedGrows(m: nat, n: nat)
    requires m <= n
    ensures Waited(m) <= Waited(n)
  {
    if m < n {
      WaitedGrows(m, n - 1);
    }
  }

  // The world during a delivery: whether attempt k succeeds, and how long into the wait
  // before attempt k the context is done, if that is what ends the wait.
  type Answers = nat -> bool

  type Cancellations = nat -> Option<nat>

  // The part of the wait after an attempt that has passed by then.
  function Interrupted(attempt: nat, after: nat): (passed: int)
    requires attempt >= 1
    ensures passed <= after && passed <= Waits(Backoff(attempt))
    ensures passed == after || passed == Waits(Backoff(attempt))
  {
    var d := Waits(Backoff(attempt));
    if after < d then after else d
  }

  // deliverWithRetry, with the attempts made and the time waited. Emit passes a context
  // that is never done.
  method DeliverWithRetry(configured: int, succeeds: Answers, cancelled: Cancellations)
    returns (delivered: bool, attempts: nat, waited: int)
    ensures 1 <= attempts <= MaxAttempts(configured)
    ensures delivered <==> succeeds(attempts)
    ensures forall k :: 1 <= k < attempts ==> !succeeds(k)
    ensures forall k :: 2 <= k <= attempts ==> cancelled(k).None?
    ensures delivered || attempts == MaxAttempts(configured) || cancelled(attempts + 1).Some?
    ensures waited == Waited(attempts) + if delivered || attempts == MaxAttempts(configured) then 0
                                         else Interrupted(attempts, cancelled(attempts + 1).value)
    ensures 0 <= waited <= Bound(MaxAttempts(configured))
  {
    hide Backoff, Bound;
    var maxAttempts := MaxAttempts(configured);
    delivered, attempts, waited := false, 0, 0;
    var attempt := 1;
    while attempt <= maxAttempts
      invariant 1 <= attempt <= maxAttempts + 1 && attempts == attempt - 1
      invariant !delivered && waited == Waited(attempts)
      invariant forall k :: 1 <= k <= attempts ==> !succeeds(k)
      invariant forall k :: 2 <= k <= attempts ==> cancelled(k).None?
    {
      if attempt > 1 {
        if cancelled(attempt).Some? {
          waited := waited + Interrupted(attempts, cancelled(attempt).value);
          WaitedGrows(attempt, maxAttempts);
          WaitedIsBounded(attempts);
          WaitedIsBounded(maxAttempts);
          return;
        }
        waited := waited + Waits(Backoff(attempt - 1));
      }
      attempts := attempt;
      if !succeeds(attempt) {
        attempt := attempt + 1;
        continue;
      }
      delivered := true;
      WaitedGrows(attempts, maxAttempts);
      WaitedIsBounded(attempts);
      WaitedIsBounded(maxAttempts);
      return;
    }
    WaitedIsBounded(attempts);
  }
}
