/** The retry delay of internal/relay/deliver.go in the 64-bit arithmetic of time.Duration. */
module Backoff {

  const TWO_63: int := 0x8000_0000_0000_0000
  const TWO_64: int := 0x1_0000_0000_0000_0000

  function Pow2(n: nat): (p: nat)
    ensures 1 <= p
  {
    if n == 0 then 1 else 2 * Pow2(n - 1)
  }

  /** The signed 64-bit value of an integer. */
  function Wrap(x: int): (r: int)
    ensures -TWO_63 <= r < TWO_63
  {
    var m := x % TWO_64;
    if m < TWO_63 then m else m - TWO_64
  }

  /** base << uint(shift): a negative shift becomes a huge count, and counts of 64 and more give 0. */
  function ShiftLeft(base: int, shift: int): int {
    if shift < 0 || shift >= 64 then 0 else Wrap(base * Pow2(shift))
  }

  predicate Duration(x: int) {
    0 < x < TWO_63
  }

  function Delay(base: int, max: int, attempt: int): int {
    var shift := if attempt - 1 > 62 then 62 else attempt - 1;
    var delay := ShiftLeft(base, shift);
    if delay <= 0 || delay > max then max else delay
  }

  /** The delay the comment promises: base * 2^(n-1), capped. */
  function Promised(base: int, max: int, attempt: nat): int
    requires 1 <= attempt
  {
    var d := base * Pow2(attempt - 1);
    if d > max then max else d
  }

  /** The delay is positive and capped for every attempt number whatsoever. */
  lemma DelayInRange(base: int, max: int, attempt: int)
    requires Duration(base) && Duration(max)
    ensures 1 <= Delay(base, max, attempt) <= max
  {
  }

  /** The product whose 64-bit value the code compares with the cap: the shift stops at 62. */
  function Shifted(base: int, attempt: nat): int
    requires 1 <= attempt
  {
    base * Pow2(if attempt > 63 then 62 else attempt - 1)
  }

  /** Up to attempt 63 the only obstacle is an overflow whose remainder passes the guard. */
  lemma PromiseKeptEarly(base: int, max: int, attempt: nat)
    requires Duration(base) && Duration(max) && 1 <= attempt <= 63
    ensures var d := Shifted(base, attempt);
      Delay(base, max, attempt) == Promised(base, max, attempt) <==> d < TWO_64 || !(0 < d % TWO_64 < max)
  {
    var d := base * Pow2(attempt - 1);
    assert ShiftLeft(base, attempt - 1) == Wrap(d);
  }

  lemma Pow2Octave(n: nat, p: nat)
    requires Pow2(n) == p
    ensures Pow2(n + 8) == 256 * p
  {
    assert Pow2(n + 2) == 2 * Pow2(n + 1) && Pow2(n + 4) == 2 * Pow2(n + 3) && Pow2(n + 6) == 2 * Pow2(n + 5);
  }

  lemma Pow2At62(n: nat)
    requires n == 62
    ensures Pow2(n) == 0x4000_0000_0000_0000 && Pow2(n + 1) == TWO_63
  {
    var six := 6;
    assert Pow2(six) == 64;
    Pow2Octave(six, 64);
    Pow2Octave(six + 8, 0x4000);
    Pow2Octave(six + 16, 0x40_0000);
    Pow2Octave(six + 24, 0x4000_0000);
    Pow2Octave(six + 32, 0x40_0000_0000);
    Pow2Octave(six + 40, 0x4000_0000_0000);
    Pow2Octave(six + 48, 0x40_0000_0000_0000);
  }

  lemma {:induction false} Pow2Grows(n: nat)
    requires 63 <= n
    ensures TWO_63 <= Pow2(n)
  {
    if n == 63 {
      Pow2At62(n - 1);
    } else {
      Pow2Grows(n - 1);
    }
  }

  /** From attempt 64 on the cap is promised, and kept unless the capped shift gives a positive value below it. */
  lemma PromiseKeptLate(base: int, max: int, attempt: nat)
    requires Duration(base) && Duration(max) && 63 < attempt
    ensures Promised(base, max, attempt) == max
    ensures Delay(base, max, attempt) == Promised(base, max, attempt) <==> !(0 < Wrap(Shifted(base, attempt)) < max)
  {
    Pow2Grows(attempt - 1);
  }

  /**
   The delay is the promised one exactly when the shifted base, taken to 64 bits, is not a positive value below the cap,
   or is the promise itself: no overflow, and no attempt beyond 63.
   */
  lemma PromiseKeptIff(base: int, max: int, attempt: nat)
    requires Duration(base) && Duration(max) && 1 <= attempt
    ensures var d := Shifted(base, attempt);
      Delay(base, max, attempt) == Promised(base, max, attempt) <==>
        (attempt <= 63 && d < TWO_64) || !(0 < Wrap(d) < max)
  {
    if attempt <= 63 {
      PromiseKeptEarly(base, max, attempt);
    } else {
      PromiseKeptLate(base, max, attempt);
    }
  }

  /** A promise broken by the cap on the shift alone: 2^63 is below 2^64, yet the wait is 2^62 and not the cap. */
  lemma ShiftCapShortens(max: int)
    requires 0x4000_0000_0000_0000 < max < TWO_63
    ensures Delay(1, max, 64) == 0x4000_0000_0000_0000 && Promised(1, max, 64) == max
  {
    PromiseKeptLate(1, max, 64);
    Pow2At62(62);
  }

  /** From attempt 63 on the delay no longer changes. */
  lemma SettlesAt63(base: int, max: int, attempt: nat)
    requires 63 <= attempt
    ensures Delay(base, max, attempt) == Delay(base, max, 63)
  {
  }

  /** Doubling in 64 bits: a result that is positive again after an overflow can only come from a negative value. */
  lemma WrapDouble(x: int)
    ensures Wrap(2 * x) == if Wrap(x) >= TWO_63 / 2 then 2 * Wrap(x) - TWO_64
                           else if Wrap(x) < -(TWO_63 / 2) then 2 * Wrap(x) + TWO_64 else 2 * Wrap(x)
  {
    var q := x / TWO_64;
    assert x == TWO_64 * q + x % TWO_64;
    assert 2 * x == TWO_64 * (2 * q) + 2 * (x % TWO_64);
    WrapSmall(2 * (x % TWO_64));
  }

  lemma WrapSmall(x: int)
    requires 0 <= x < 2 * TWO_64
    ensures x % TWO_64 == if x < TWO_64 then x else x - TWO_64
  {
  }

  /**
   A later attempt never waits less, unless the shifted base is negative in 64 bits at the earlier one, which then waits
   for the cap, and positive below the cap at the later one. From attempt 63 on nothing changes.
   */
  lemma NeverShorterIff(base: int, max: int, attempt: nat)
    requires Duration(base) && Duration(max) && 1 <= attempt
    ensures Delay(base, max, attempt) <= Delay(base, max, attempt + 1) <==>
      63 <= attempt || !(Wrap(base * Pow2(attempt - 1)) < 0 < Wrap(base * Pow2(attempt)) < max)
  {
    if 63 <= attempt {
      SettlesAt63(base, max, attempt);
      SettlesAt63(base, max, attempt + 1);
    } else {
      var d := base * Pow2(attempt - 1);
      assert base * Pow2(attempt) == 2 * d;
      assert ShiftLeft(base, attempt - 1) == Wrap(d) && ShiftLeft(base, attempt) == Wrap(2 * d);
      WrapDouble(d);
    }
  }

  /** In particular while nothing overflows 64 bits. */
  lemma NeverShorter(base: int, max: int, attempt: nat)
    requires Duration(base) && Duration(max) && 1 <= attempt < 63 && base * Pow2(attempt) < TWO_64
    ensures Delay(base, max, attempt) <= Delay(base, max, attempt + 1)
  {
    var d := base * Pow2(attempt - 1);
    assert base * Pow2(attempt) == 2 * d;
    NeverShorterIff(base, max, attempt);
  }

  /** Such a case: a base just above 2^62 ns overflows at the third attempt and waits 4 ns instead of the cap. */
  lemma OverflowShortens(base: int, max: int)
    requires base == 0x4000_0000_0000_0001 && 4 < max < TWO_63
    ensures Delay(base, max, 2) == max && Delay(base, max, 3) == 4 && Promised(base, max, 3) == max
  {
    assert Pow2(0) == 1 && Pow2(1) == 2 && Pow2(2) == 4;
  }
}
