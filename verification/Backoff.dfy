/** Retry backoff: the int64 shift of engine.backoff, and when it is a saturating exponential. */
module Backoff {

  // Durations are 64-bit two's complement integers.
  const TWO_63: int := 0x8000_0000_0000_0000
  const TWO_64: int := 0x1_0000_0000_0000_0000

  function Pow2(n: nat): (p: nat)
    ensures p > 0
  {
    if n == 0 then 1 else 2 * Pow2(n - 1)
  }

  function Wrap64(x: int): int {
    (x + TWO_63) % TWO_64 - TWO_63
  }

  // base << k on int64; shifting by the width or more leaves nothing.
  function ShiftLeft(base: int, k: nat): int {
    if k >= 64 then 0 else Wrap64(base * Pow2(k))
  }

  // The largest delay backoff may draw for an attempt.
  function Ceiling(base: int, max: int, attempt: int): int {
    var a := if attempt < 1 then 1 else attempt;
    var exp := ShiftLeft(base, a - 1);
    if exp <= 0 || exp > max then max else exp
  }

  // What the arithmetic is meant to compute, over unbounded integers.
  ghost function Saturating(base: int, max: int, attempt: int): int
    requires attempt >= 1
  {
    var exact := base * Pow2(attempt - 1);
    if exact < max then exact else max
  }

  ghost predicate Duration(d: int) {
    0 < d < TWO_63
  }

  // The shift has overflowed and still left a value the guard lets through.
  ghost predicate Dips(base: int, max: int, k: nat) {
    base * Pow2(k) >= TWO_63 && 0 < ShiftLeft(base, k) < max
  }

  lemma Pow2Add(a: nat, b: nat)
    ensures Pow2(a + b) == Pow2(a) * Pow2(b)
  {
    if a > 0 {
      Pow2Add(a - 1, b);
    }
  }

  lemma Pow2Width()
    ensures Pow2(63) == TWO_63 && Pow2(64) == TWO_64
  {
    assert Pow2(8) == 0x100;
    Pow2Add(8, 8);
    Pow2Add(16, 16);
    Pow2Add(32, 32);
  }

  lemma WrapIsCongruent(x: int) returns (q: int)
    ensures Wrap64(x) == x - q * TWO_64
    ensures -TWO_63 <= Wrap64(x) < TWO_63
  {
    q := (x + TWO_63) / TWO_64;
  }

  lemma WrapSmall(x: int)
    requires 0 <= x < TWO_63
    ensures Wrap64(x) == x
  {
    assert (x + TWO_63) % TWO_64 == x + TWO_63;
  }

  /** Every delay is within the configured cap, and the cap is never replaced by zero. */
  lemma CeilingInRange(base: int, max: int, attempt: int)
    requires Duration(max)
    ensures 0 < Ceiling(base, max, attempt) <= max
  {
  }

  // A multiple of a power of two wraps to a multiple of it.
  lemma WrapKeepsFactor(m: int, p: int, c: int)
    requires p > 0 && p * c == TWO_64
    ensures Wrap64(m * p) > 0 ==> Wrap64(m * p) >= p
  {
    var q := WrapIsCongruent(m * p);
    assert Wrap64(m * p) == (m - q * c) * p by {
      assert q * (p * c) == (q * c) * p;
    }
    Multiple(m - q * c, p);
  }

  lemma Multiple(f: int, p: int)
    requires p > 0
    ensures f * p > 0 ==> f * p >= p
  {
    if f >= 1 {
      assert f * p == (f - 1) * p + p;
    }
  }

  lemma WideShift(base: int, k: nat)
    requires base > 0 && k >= 64
    ensures base * Pow2(k) >= TWO_64
  {
    Pow2Width();
    Pow2Add(64, k - 64);
    Multiple(Pow2(k - 64), TWO_64);
    Multiple(base, Pow2(k));
  }

  /** One call: the ceiling is the saturating exponential exactly when the shift does not dip. */
  lemma CeilingExactCall(base: int, max: int, attempt: int)
    requires Duration(base) && Duration(max) && attempt >= 1
    ensures Ceiling(base, max, attempt) == Saturating(base, max, attempt) <==> !Dips(base, max, attempt - 1)
  {
    var k := attempt - 1;
    Multiple(base, Pow2(k));
    if k >= 64 {
      WideShift(base, k);
    } else if base * Pow2(k) < TWO_63 {
      WrapSmall(base * Pow2(k));
    }
  }

  // At the last bit of the word and beyond, a shift leaves nothing positive.
  lemma NoDipBeyondWord(base: int, max: int, k: nat)
    requires k >= 63
    ensures !Dips(base, max, k)
  {
    if k == 63 {
      Pow2Width();
      WrapKeepsFactor(base, Pow2(63), 2);
      var _ := WrapIsCongruent(base * TWO_63);
    }
  }

  /**
   The ceiling is the saturating exponential at every attempt exactly when none of the 63 shifts
   that stay inside the word dips: a finite check on the two configured durations.
   */
  lemma CeilingExact(base: int, max: int)
    requires Duration(base) && Duration(max)
    ensures (forall attempt: int | attempt >= 1 :: Ceiling(base, max, attempt) == Saturating(base, max, attempt))
       <==> (forall k: nat | k < 63 :: !Dips(base, max, k))
  {
    if forall k: nat | k < 63 :: !Dips(base, max, k) {
      forall attempt: int | attempt >= 1
        ensures Ceiling(base, max, attempt) == Saturating(base, max, attempt)
      {
        CeilingExactCall(base, max, attempt);
        if attempt - 1 >= 63 {
          NoDipBeyondWord(base, max, attempt - 1);
        }
      }
    } else {
      var k: nat :| k < 63 && Dips(base, max, k);
      CeilingExactCall(base, max, k + 1);
    }
  }

  function OddPart(n: nat): (m: nat)
    requires n > 0
    ensures 0 < m <= n && m % 2 == 1
  {
    if n % 2 == 1 then n else OddPart(n / 2)
  }

  function Twos(n: nat): nat
    requires n > 0
  {
    if n % 2 == 1 then 0 else 1 + Twos(n / 2)
  }

  lemma {:induction false} OddPartTimesTwos(n: nat)
    requires n > 0
    ensures n == OddPart(n) * Pow2(Twos(n))
  {
    if n % 2 == 0 {
      OddPartTimesTwos(n / 2);
      assert n == 2 * (OddPart(n / 2) * Pow2(Twos(n / 2)));
    }
  }

  // With an odd part m, an overflowing shift either loses m altogether or keeps a factor above the cap.
  lemma NoDip(m: int, n: nat, max: int)
    requires m > 0 && m * max < TWO_63 && 0 < max
    requires m * Pow2(n) >= TWO_63
    ensures Wrap64(m * Pow2(n)) <= 0 || Wrap64(m * Pow2(n)) > max
  {
    LargeFactor(m, max, Pow2(n));
    Pow2Width();
    if n < 64 {
      Pow2Add(n, 64 - n);
      WrapKeepsFactor(m, Pow2(n), Pow2(64 - n));
    } else {
      Pow2Add(64, n - 64);
      ShiftedOut(m, Pow2(n - 64));
      assert m * Pow2(n) == m * (Pow2(n - 64) * TWO_64);
    }
  }

  lemma LargeFactor(m: int, max: int, p: int)
    requires m > 0 && m * max < TWO_63 <= m * p
    ensures p > max
  {
    assert m * (p - max) > 0;
  }

  lemma ShiftedOut(m: int, c: int)
    ensures Wrap64(m * (c * TWO_64)) == 0
  {
    var q := WrapIsCongruent(m * (c * TWO_64));
    assert m * (c * TWO_64) == (m * c) * TWO_64;
  }

  lemma Regroup(base: int, m: int, z: nat, k: nat)
    requires base == m * Pow2(z)
    ensures base * Pow2(k) == m * Pow2(z + k)
  {
    Pow2Add(z, k);
    assert (m * Pow2(z)) * Pow2(k) == m * (Pow2(z) * Pow2(k));
  }

  /** Whenever the odd part of the base times the cap fits in the word, no shift dips. */
  lemma SmallOddPartIsExact(base: int, max: int, attempt: int)
    requires Duration(base) && Duration(max) && attempt >= 1
    requires OddPart(base) * max < TWO_63
    ensures Ceiling(base, max, attempt) == Saturating(base, max, attempt)
  {
    var k, m, z := attempt - 1, OddPart(base), Twos(base);
    OddPartTimesTwos(base);
    Regroup(base, m, z, k);
    CeilingExactCall(base, max, attempt);
    if base * Pow2(k) >= TWO_63 {
      NoDip(m, z + k, max);
    }
  }

  // The engine's defaults: 500 ms and 5 minutes.
  const DEFAULT_BASE := 500_000_000
  const DEFAULT_MAX := 300_000_000_000

  lemma DefaultsAreExact(attempt: int)
    requires attempt >= 1
    ensures Ceiling(DEFAULT_BASE, DEFAULT_MAX, attempt) == Saturating(DEFAULT_BASE, DEFAULT_MAX, attempt)
  {
    assert OddPart(1_953_125) == 1_953_125;
    assert OddPart(62_500_000) == OddPart(31_250_000) == OddPart(15_625_000) == OddPart(7_812_500);
    assert OddPart(DEFAULT_BASE) == 1_953_125;
    SmallOddPartIsExact(DEFAULT_BASE, DEFAULT_MAX, attempt);
  }

  /** Not for every configuration: here the 39th attempt waits less than the cap the 38th had reached. */
  lemma CeilingCanDip()
    ensures var base, max := 15 * 0x400_0000 + 1, DEFAULT_MAX;
            Duration(base) && Duration(max)
            && Ceiling(base, max, 39) == 0x40_0000_0000 < Ceiling(base, max, 38) == max == Saturating(base, max, 39)
  {
    assert Pow2(8) == 0x100;
    Pow2Add(8, 8);
    Pow2Add(16, 16);
    Pow2Add(32, 5);
    Pow2Add(32, 6);
    assert Pow2(37) == 0x20_0000_0000 && Pow2(38) == 0x40_0000_0000;
  }
}
