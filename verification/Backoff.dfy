/** Retry delays: exponential, capped and jittered, computed in 64-bit integers. */
module Backoff {
  import opened Clock

  const BASE := 5 * SECOND
  const MAX_DELAY := 10 * MINUTE

  const TWO_63 := 0x8000_0000_0000_0000

  /** Two's-complement wrap-around of a 64-bit signed integer. */
  function Int64(x: int): int {
    (x + TWO_63) % (2 * TWO_63) - TWO_63
  }

  lemma Int64WrapsAround(x: int)
    ensures -0x8000_0000_0000_0000 <= Int64(x) < 0x8000_0000_0000_0000
    ensures (x - Int64(x)) % 0x1_0000_0000_0000_0000 == 0
    ensures -0x8000_0000_0000_0000 <= x < 0x8000_0000_0000_0000 ==> Int64(x) == x
  {
  }

  function Pow2(n: nat): (p: nat)
    ensures 1 <= p
  {
    if n == 0 then 1 else 2 * Pow2(n - 1)
  }

  /** The delay before jitter, in unbounded arithmetic: 5s, 10s, 20s, ... up to 10min. */
  function Nominal(attempt: int): int {
    var n := if attempt < 1 then 1 else attempt;
    if BASE * Pow2(n - 1) < MAX_DELAY then BASE * Pow2(n - 1) else MAX_DELAY
  }

  /** Within the last quarter below the nominal delay, the nominal delay included. */
  predicate Jittered(delay: int, attempt: int) {
    3 * Nominal(attempt) < 4 * delay <= 4 * Nominal(attempt)
  }

  /** A random draw that may only be asked for a positive bound. */
  ghost predicate IsDraw(draw: int --> int) {
    forall bound | 0 < bound :: draw.requires(bound) && 0 <= draw(bound) < bound
  }

  lemma {:induction false} Pow2Monotone(a: nat, b: nat)
    requires a <= b
    ensures Pow2(a) <= Pow2(b)
    decreases b
  {
    if a < b {
      Pow2Monotone(a, b - 1);
    }
  }

  lemma Pow2Values()
    ensures Pow2(0) == 1 && Pow2(1) == 2 && Pow2(2) == 4 && Pow2(3) == 8 && Pow2(4) == 16
    ensures Pow2(5) == 32 && Pow2(6) == 64 && Pow2(7) == 128 && Pow2(16) == 65536
  {
    assert Pow2(8) == 2 * Pow2(7);
    assert Pow2(10) == 4 * Pow2(8);
    assert Pow2(12) == 4 * Pow2(10);
    assert Pow2(14) == 4 * Pow2(12);
  }

  /** The loop-free computation of the source: clamp, bounded shift, cap, jitter.
      No shift overflows, and the draw is only asked for a positive bound. */
  method ExponentialBackoff(attempt: int, draw: int --> int) returns (delay: int)
    requires IsDraw(draw)
    ensures Jittered(delay, attempt)
    ensures 0 < Nominal(attempt) / 4 && delay == Nominal(attempt) - draw(Nominal(attempt) / 4)
  {
    var n := attempt;
    if n < 1 {
      n := 1;
    }
    var shift := if n - 1 < 16 then n - 1 else 16;
    delay := Int64(BASE * Pow2(shift));
    ShiftIsExact(n, shift);
    if delay > MAX_DELAY || delay <= 0 {
      delay := MAX_DELAY;
    }
    assert delay == Nominal(attempt);
    NominalIsWhole(attempt);
    var jitter := draw(delay / 4);
    delay := delay - jitter;
  }

  /** Bounding the shift loses nothing: no product wraps, and the cap has long been
      reached where the bound applies. */
  lemma ShiftIsExact(n: int, shift: nat)
    requires 1 <= n && shift == if n - 1 < 16 then n - 1 else 16
    ensures Int64(BASE * Pow2(shift)) == BASE * Pow2(shift)
    ensures n - 1 > 16 ==> BASE * Pow2(16) > MAX_DELAY && BASE * Pow2(n - 1) > MAX_DELAY
  {
    Pow2Values();
    Pow2Monotone(shift, 16);
    if n - 1 > 16 {
      Pow2Monotone(16, n - 1);
    }
  }

  lemma NominalIsWhole(attempt: int)
    ensures BASE <= Nominal(attempt) <= MAX_DELAY && Nominal(attempt) % 4 == 0
  {
    var n := if attempt < 1 then 1 else attempt;
    Pow2Monotone(0, n - 1);
    assert BASE * Pow2(n - 1) == 4 * (BASE / 4 * Pow2(n - 1));
  }

  /** The nominal delay is five seconds, doubles with every attempt, and stops at ten
      minutes. */
  lemma NominalDelaysDouble(attempt: int)
    ensures attempt <= 1 ==> Nominal(attempt) == 5_000_000_000
    ensures 1 <= attempt ==>
              var twice := 2 * Nominal(attempt);
              Nominal(attempt + 1) == if twice < 600_000_000_000 then twice else 600_000_000_000
  {
    if 1 <= attempt {
      assert Pow2(attempt) == 2 * Pow2(attempt - 1);
    }
  }

  /** From the first attempt to the eighth every delay exceeds every earlier one,
      whatever the jitter; from the eighth on, delays stay above 450 seconds. */
  lemma DelaysGrow(a: int, b: int, da: int, db: int)
    requires Jittered(da, a) && Jittered(db, b)
    ensures 1 <= a < b <= 8 ==> da < db
    ensures 8 <= b ==> 450 * SECOND < db <= MAX_DELAY
  {
    Pow2Values();
    if 1 <= a < b <= 8 {
      Pow2Monotone(a, b - 1);
      assert Pow2(a) == 2 * Pow2(a - 1);
      if b <= 7 {
        Pow2Monotone(b - 1, 6);
      } else {
        Pow2Monotone(a - 1, 6);
      }
    }
    if 8 <= b {
      Pow2Monotone(7, b - 1);
    }
  }

  function Sum(delays: seq<int>): int {
    if delays == [] then 0 else Sum(delays[..|delays| - 1]) + delays[|delays| - 1]
  }

  /** What the first n nominal delays add up to. */
  function TotalNominal(n: nat): int {
    if n <= 7 then BASE * (Pow2(n) - 1) else BASE * 127 + (n - 7) * MAX_DELAY
  }

  lemma TotalNominalStep(n: int)
    requires 1 <= n
    ensures TotalNominal(n) == TotalNominal(n - 1) + Nominal(n)
  {
    Pow2Values();
    if n <= 7 {
      Pow2Monotone(n - 1, 6);
      assert Nominal(n) == BASE * Pow2(n - 1);
      assert Pow2(n) == 2 * Pow2(n - 1);
    } else {
      Pow2Monotone(7, n - 1);
      assert Nominal(n) == MAX_DELAY;
    }
  }

  /** The total wait over any number of retries has a closed-form bound, which
      jitter shortens by less than a quarter. */
  lemma {:induction false} TotalWait(delays: seq<int>)
    requires forall i | 0 <= i < |delays| :: Jittered(delays[i], i + 1)
    ensures 3 * TotalNominal(|delays|) <= 4 * Sum(delays) <= 4 * TotalNominal(|delays|)
  {
    if delays != [] {
      var n := |delays|;
      TotalWait(delays[..n - 1]);
      TotalNominalStep(n);
      assert Jittered(delays[n - 1], n);
    }
  }
}
