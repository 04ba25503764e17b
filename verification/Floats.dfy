/**
  Rounding to float64, as far as a product below 1000 needs it: which reals are
  float64 values, rounding to the nearest, and when it arrives at the next whole number.
 */
module Floats {

  function Pow2(k: nat): nat {
    if k == 0 then 1 else 2 * Pow2(k - 1)
  }

  const MANTISSA: nat := 0x20_0000_0000_0000    // 2^53

  /** x is m / 2^k. */
  predicate IsScaled(x: real, m: nat, k: nat)
    decreases k
  {
    if k == 0 then x == m as real else IsScaled(2.0 * x, m, k - 1)
  }

  /** x is m * 2^k. */
  predicate IsMultiple(x: real, m: nat, k: nat)
    decreases k
  {
    if k == 0 then x == m as real else IsMultiple(x / 2.0, m, k - 1)
  }

  /** The values of float64 that are not negative. */
  ghost predicate IsFloat(x: real) {
    || (exists m: nat, k: nat :: m <= MANTISSA && k <= 1074 && IsScaled(x, m, k))
    || (exists m: nat, k: nat :: m < MANTISSA && k <= 971 && IsMultiple(x, m, k))
  }

  function Distance(x: real, y: real): real {
    if x < y then y - x else x - y
  }

  /** A float64 whose last significant bit is zero: one bit less would do. */
  ghost predicate IsEven(x: real) {
    || (exists m: nat, k: nat :: m <= MANTISSA / 2 && k <= 1073 && IsScaled(x, m, k))
    || (exists m: nat, k: nat :: m < MANTISSA / 2 && k <= 972 && IsMultiple(x, m, k))
  }

  /** y is the float64 nearest to x, the even one of two that are equally near. */
  ghost predicate RoundsTo(x: real, y: real) {
    && IsFloat(y) && (forall z :: IsFloat(z) ==> Distance(x, y) <= Distance(x, z))
    && (forall z :: IsFloat(z) && z != y && Distance(x, y) == Distance(x, z) ==> IsEven(y))
  }

  lemma Pow2Adds(a: nat, b: nat)
    ensures Pow2(a + b) == Pow2(a) * Pow2(b) && Pow2(a) >= 1
  {
    if a > 0 {
      Pow2Adds(a - 1, b);
      assert Pow2(a + b) == 2 * Pow2(a - 1 + b);
    }
  }

  lemma {:induction false} Scaled(x: real, m: nat, k: nat)
    ensures IsScaled(x, m, k) <==> x * Pow2(k) as real == m as real
    decreases k
  {
    if k > 0 {
      Scaled(2.0 * x, m, k - 1);
      assert 2.0 * x * Pow2(k - 1) as real == x * Pow2(k) as real;
    }
  }

  lemma {:induction false} MultipleIsWhole(x: real, m: nat, k: nat)
    requires IsMultiple(x, m, k)
    ensures x == x.Floor as real
    decreases k
  {
    if k > 0 {
      MultipleIsWhole(x / 2.0, m, k - 1);
      assert x == (2 * (x / 2.0).Floor) as real;
    }
  }

  lemma Powers()
    ensures Pow2(53) == MANTISSA
  {
    assert Pow2(11) == 2048;
    Pow2Adds(11, 11);
    Pow2Adds(22, 11);
    Pow2Adds(33, 10);
    Pow2Adds(43, 10);
  }

  /** Rounding does not cross a float. */
  lemma RoundingStaysBetween(x: real, y: real, low: real, high: real)
    requires RoundsTo(x, y) && IsFloat(low) && IsFloat(high) && low <= x <= high
    ensures low <= y <= high
  {
  }

  lemma RoundingIsMonotone(x: real, y: real, x': real, y': real)
    requires RoundsTo(x, y) && RoundsTo(x', y') && x < x'
    ensures y <= y'
  {
  }

  lemma {:induction false} Pow2Grows(a: nat, b: nat)
    requires a <= b
    ensures Pow2(a) <= Pow2(b)
  {
    if a < b {
      Pow2Grows(a, b - 1);
    }
  }

  /** The distance from n to the float64 below it. */
  function GapBelow(n: nat): (gap: real)
    ensures gap > 0.0
  {
    if n <= 1 then 1.0 / MANTISSA as real else 2.0 * GapBelow((n + 1) / 2)
  }

  lemma {:induction false} Refined(x: real, m: nat, k: nat)
    requires IsScaled(x, m, k)
    ensures IsScaled(x, 2 * m, k + 1)
    decreases k
  {
    if k > 0 {
      Refined(2.0 * x, m, k - 1);
    }
  }

  /** The same value with d more binary digits; one more makes the last digit zero. */
  lemma {:induction false} Finer(x: real, m: nat, k: nat, d: nat) returns (m': nat)
    requires IsScaled(x, m, k)
    ensures IsScaled(x, m', k + d) && m' >= m
    ensures d > 0 ==> m' >= 2 * m && m' % 2 == 0
    decreases d
  {
    if d == 0 {
      m' := m;
    } else {
      m' := Finer(x, m, k, d - 1);
      Refined(x, m', k + d - 1);
      m' := 2 * m';
    }
  }

  lemma {:induction false} ScaledOrder(x: real, y: real, m: nat, n: nat, k: nat)
    requires IsScaled(x, m, k) && IsScaled(y, n, k)
    ensures x < y <==> m < n
    decreases k
  {
    if k > 0 {
      ScaledOrder(2.0 * x, 2.0 * y, m, n, k - 1);
    }
  }

  lemma {:induction false} ScaledDifference(x: real, y: real, m: nat, n: nat, k: nat)
    requires IsScaled(x, m, k) && IsScaled(y, n, k) && n <= m
    ensures IsScaled(x - y, m - n, k)
    decreases k
  {
    if k > 0 {
      ScaledDifference(2.0 * x, 2.0 * y, m, n, k - 1);
      assert 2.0 * (x - y) == 2.0 * x - 2.0 * y;
    }
  }

  lemma {:induction false} ScaledTwice(x: real, m: nat, k: nat)
    requires IsScaled(x, m, k)
    ensures IsScaled(2.0 * x, 2 * m, k)
    decreases k
  {
    if k > 0 {
      ScaledTwice(2.0 * x, m, k - 1);
    }
  }

  lemma {:induction false} WholeScaled(n: nat, k: nat) returns (m: nat)
    ensures IsScaled(n as real, m, k)
  {
    m := Finer(n as real, n, 0, k);
  }

  /** One, and the float64 step below it, with 53 digits behind the point. */
  lemma OneScaled()
    ensures IsScaled(1.0, MANTISSA, 53) && IsScaled(1.0 / MANTISSA as real, 1, 53)
  {
    Powers();
    Scaled(1.0, MANTISSA, 53);
    Scaled(1.0 / MANTISSA as real, 1, 53);
  }

  /** A fraction of a float64 second is at most 1 - 2^-53. */
  lemma FractionOfFloat(time: real)
    requires time >= 0.0 && IsFloat(time)
    ensures time - time.Floor as real <= 1.0 - 1.0 / MANTISSA as real
  {
    if m: nat, k: nat :| m < MANTISSA && k <= 971 && IsMultiple(time, m, k) {
      MultipleIsWhole(time, m, k);
    } else {
      var m: nat, k: nat :| m <= MANTISSA && k <= 1074 && IsScaled(time, m, k);
      var whole := WholeScaled(time.Floor, k);
      ScaledOrder(time, time.Floor as real, m, whole, k);
      ScaledDifference(time, time.Floor as real, m, whole, k);
      FractionBelowOne(time - time.Floor as real, m - whole, k);
    }
  }

  lemma FractionBelowOne(f: real, r: nat, k: nat)
    requires f < 1.0 && r <= MANTISSA && IsScaled(f, r, k)
    ensures f <= 1.0 - 1.0 / MANTISSA as real
  {
    OneScaled();
    if k <= 53 {
      var r' := Finer(f, r, k, 53 - k);
      ScaledOrder(f, 1.0, r', MANTISSA, 53);
      ScaledDifference(1.0, 1.0 / MANTISSA as real, MANTISSA, 1, 53);
      ScaledOrder(1.0 - 1.0 / MANTISSA as real, f, MANTISSA - 1, r', 53);
    } else {
      var one := Finer(1.0, MANTISSA, 53, k - 1 - 53);
      ScaledOrder(1.0, 2.0 * f, one, r, k - 1);
    }
  }

  /** With 53 digits, s of them behind the point, n is an even multiple of the gap below it. */
  ghost predicate HasPrecision(n: nat, gap: real, s: nat, top: nat) {
    && 1 <= s <= 53 && gap > 0.0 && IsScaled(gap, 1, s) && IsScaled(n as real, top, s)
    && top % 2 == 0 && MANTISSA < 2 * top && top <= MANTISSA
  }

  /** The power of two that n is at most, but more than half of: 2^53 times the gap below n. */
  lemma {:induction false} PowerOf(n: nat) returns (s: nat, power: nat)
    requires 1 <= n <= 1000
    ensures 1 <= s <= 53 && n <= power < 2 * n && power == Pow2(53 - s)
    ensures IsScaled(power as real, MANTISSA, s) && IsScaled(GapBelow(n), 1, s)
    ensures GapBelow(n) == power as real / MANTISSA as real
  {
    if n == 1 {
      OneScaled();
      s, power := 53, 1;
    } else {
      s, power := PowerOf((n + 1) / 2);
      assert IsScaled(power as real, MANTISSA, 1) == IsScaled(2.0 * power as real, MANTISSA, 0);
      s, power := s - 1, 2 * power;
    }
  }

  lemma GapAbove512(n: nat)
    requires 512 < n <= 1000
    ensures GapBelow(n) == 1024.0 / MANTISSA as real
  {
    var s, power := PowerOf(n);
    assert Pow2(9) == 512 && Pow2(10) == 1024 && Pow2(11) == 2048;
    if s > 43 {
      Pow2Grows(53 - s, 9);
    } else if s < 43 {
      Pow2Grows(11, 53 - s);
    }
  }

  lemma PrecisionOf(n: nat) returns (s: nat, top: nat)
    requires 1 <= n <= 1000
    ensures HasPrecision(n, GapBelow(n), s, top)
  {
    var power;
    s, power := PowerOf(n);
    top := Finer(n as real, n, 0, s);
    ScaledTwice(n as real, top, s);
    ScaledOrder(power as real, n as real, MANTISSA, top, s);
    ScaledOrder(power as real, 2.0 * n as real, MANTISSA, 2 * top, s);
  }

  /** Above a value that needs 53 digits, s of them behind the point, every float64 is a multiple of 2^-s. */
  lemma OnGrid(z: real, low: real, m0: nat, s: nat) returns (n: nat)
    requires IsFloat(z) && low < z && IsScaled(low, m0, s) && 2 * m0 >= MANTISSA
    ensures IsScaled(z, n, s)
  {
    if m: nat, k: nat :| m < MANTISSA && k <= 971 && IsMultiple(z, m, k) {
      MultipleIsWhole(z, m, k);
      ScaledSign(low, m0, s);
      n := WholeScaled(z.Floor, s);
    } else {
      var m: nat, k: nat :| m <= MANTISSA && k <= 1074 && IsScaled(z, m, k);
      if k <= s {
        n := Finer(z, m, k, s - k);
      } else {
        TooFine(z, m, k, low, m0, s);
        assert false;
      }
    }
  }

  lemma {:induction false} ScaledSign(x: real, m: nat, k: nat)
    requires IsScaled(x, m, k)
    ensures x >= 0.0
    decreases k
  {
    if k > 0 {
      ScaledSign(2.0 * x, m, k - 1);
    }
  }

  lemma TooFine(z: real, m: nat, k: nat, low: real, m0: nat, s: nat)
    requires k > s && low < z && IsScaled(z, m, k) && IsScaled(low, m0, s)
    ensures m > 2 * m0
  {
    var m1 := Finer(low, m0, s, k - s);
    ScaledOrder(low, z, m1, m, k);
  }

  /** No float64 lies between n and the gap below it. */
  lemma NothingBetween(z: real, n: nat, gap: real, s: nat, top: nat)
    requires HasPrecision(n, gap, s, top) && IsFloat(z) && z < n as real
    ensures z <= n as real - gap
  {
    var low := n as real - gap;
    ScaledDifference(n as real, gap, top, 1, s);
    if low < z {
      var k := OnGrid(z, low, top - 1, s);
      ScaledOrder(low, z, top - 1, k, s);
      ScaledOrder(z, n as real, k, top, s);
      assert false;
    }
  }

  /** The value below n is a float64, but odd, so a tie between the two goes to n. */
  lemma BelowIsOdd(n: nat, gap: real, s: nat, top: nat)
    requires HasPrecision(n, gap, s, top)
    ensures IsFloat(n as real - gap) && !IsEven(n as real - gap)
  {
    var low := n as real - gap;
    ScaledDifference(n as real, gap, top, 1, s);
    forall m: nat, k: nat | IsScaled(low, m, k)
      ensures m > MANTISSA / 2
    {
      NotHalved(low, top - 1, m, k, s);
    }
    forall m: nat, k: nat | m < MANTISSA / 2
      ensures !IsMultiple(low, m, k)
    {
      if IsMultiple(low, m, k) {
        MultipleIsWhole(low, m, k);
        ScaledSign(low, top - 1, s);
        var m1 := Finer(low, low.Floor, 0, s);
        ScaledOrder(low, low, top - 1, m1, s);
        ScaledOrder(low, low, m1, top - 1, s);
        assert false;
      }
    }
  }

  /** A value that needs 53 digits, the last of them odd, has no shorter form. */
  lemma NotHalved(low: real, odd: nat, m: nat, k: nat, s: nat)
    requires IsScaled(low, odd, s) && IsScaled(low, m, k)
    requires odd % 2 == 1 && 2 * odd > MANTISSA
    ensures m > MANTISSA / 2
  {
    if k < s {
      var m1 := Finer(low, m, k, s - k);
      ScaledOrder(low, low, m1, odd, s);
      ScaledOrder(low, low, odd, m1, s);
      assert false;
    } else {
      var odd1 := Finer(low, odd, s, k - s);
      ScaledOrder(low, low, m, odd1, k);
    }
  }

  lemma WholeIsEven(n: nat)
    requires n <= 1000
    ensures IsFloat(n as real) && IsEven(n as real)
  {
    assert IsScaled(n as real, n, 0);
  }

  /**
    A real just below the whole number n is rounded to n if and only if it is at most
    half the distance to the float64 below n away from it.
   */
  lemma RoundsToWhole(x: real, y: real, n: nat)
    requires 1 <= n <= 1000 && (n - 1) as real <= x < n as real
    ensures RoundsTo(x, n as real) <==> n as real - x <= GapBelow(n) / 2.0
    ensures RoundsTo(x, y) ==> (n - 1) as real <= y <= n as real
    ensures RoundsTo(x, y) ==> (y == n as real <==> n as real - x <= GapBelow(n) / 2.0)
  {
    var s, top := PrecisionOf(n);
    WholeIsEven(n - 1);
    WholeIsEven(n);
    BelowIsOdd(n, GapBelow(n), s, top);
    if n as real - x <= GapBelow(n) / 2.0 {
      RoundsUpTo(x, n, GapBelow(n), s, top);
      if RoundsTo(x, y) {
        RoundingStaysBetween(x, y, (n - 1) as real, n as real);
        OnlyUpTo(x, y, n, GapBelow(n), s, top);
      }
    } else if RoundsTo(x, y) {
      RoundingStaysBetween(x, y, (n - 1) as real, n as real);
      assert Distance(x, y) <= Distance(x, n as real - GapBelow(n)) < Distance(x, n as real);
    }
  }

  lemma RoundsUpTo(x: real, n: nat, gap: real, s: nat, top: nat)
    requires HasPrecision(n, gap, s, top) && n <= 1000 && 0.0 < n as real - x <= gap / 2.0
    ensures RoundsTo(x, n as real)
  {
    WholeIsEven(n);
    forall z | IsFloat(z)
      ensures Distance(x, n as real) <= Distance(x, z)
    {
      if z < n as real {
        NothingBetween(z, n, gap, s, top);
      }
    }
  }

  lemma OnlyUpTo(x: real, y: real, n: nat, gap: real, s: nat, top: nat)
    requires HasPrecision(n, gap, s, top) && n <= 1000 && 0.0 < n as real - x <= gap / 2.0
    requires RoundsTo(x, y) && y <= n as real
    ensures y == n as real
  {
    WholeIsEven(n);
    if y < n as real {
      NothingBetween(y, n, gap, s, top);
      BelowIsOdd(n, gap, s, top);
    }
  }
}
