/**
 * The numbers the dashboard prints. `x.toFixed(d)` is modelled on the exact
 * quotient: the nearest multiple of 10^-d, halves rounded away from zero
 * (JavaScript rounds the magnitude half up and puts the sign back).
 */
module Rounding {

  /** `a / b` rounded down, by repeated subtraction. */
  function Quot(a: nat, b: nat): nat
    requires b > 0
    decreases a
  {
    if a < b then 0 else 1 + Quot(a - b, b)
  }

  /** The quotient rounded down: `b * q <= a < b * (q + 1)`. */
  lemma {:induction false} QuotBounds(a: nat, b: nat)
    requires b > 0
    ensures b * Quot(a, b) <= a < b * Quot(a, b) + b
    decreases a
  {
    if a >= b {
      QuotBounds(a - b, b);
      assert b * Quot(a, b) == b + b * Quot(a - b, b);
    }
  }

  /** The integer nearest to `a / b`, halves rounded away from zero. */
  function RoundDiv(a: int, b: int): int
    requires b > 0
  {
    if a >= 0 then Quot(2 * a + b, 2 * b) else -(Quot(b - 2 * a, 2 * b) as int)
  }

  /** The rounded quotient is within half a unit of the exact one, on the
      side of zero a tie goes away from. */
  lemma RoundDivBounds(a: int, b: int)
    requires b > 0
    ensures var r := RoundDiv(a, b);
            && (a >= 0 ==> r >= 0 && b * (2 * r - 1) <= 2 * a < b * (2 * r + 1))
            && (a < 0 ==> r <= 0 && b * (2 * r - 1) < 2 * a <= b * (2 * r + 1))
  {
    if a >= 0 {
      RoundHalfUp(a, b);
    } else {
      RoundHalfUp(-a, b);
      var q := Quot(2 * -a + b, 2 * b);
      HalfUnits(b, q);
      HalfUnits(b, -(q as int));
    }
  }

  /** For a non-negative `a`, `(2a + b) div 2b` is within half a unit of
      `a / b`, a tie going up. */
  lemma RoundHalfUp(a: nat, b: nat)
    requires b > 0
    ensures var q := Quot(2 * a + b, 2 * b);
            b * (2 * q - 1) <= 2 * a < b * (2 * q + 1)
  {
    var q := Quot(2 * a + b, 2 * b);
    QuotBounds(2 * a + b, 2 * b);
    Twice(b, q);
    HalfUnits(b, q);
  }

  lemma Twice(b: int, q: int)
    ensures (2 * b) * q == 2 * (b * q)
  {
  }

  lemma HalfUnits(n: int, x: int)
    ensures n * (2 * x - 1) == 2 * (n * x) - n
    ensures n * (2 * x + 1) == 2 * (n * x) + n
  {
  }

  /** `((k / n) * 100).toFixed(0)`, read back as a number. */
  function RoundPct(k: nat, n: nat): (r: nat)
    requires n > 0
    ensures k <= n ==> r <= 100
  {
    RoundShareBound(k, n, 100);
    RoundDiv(100 * k, n)
  }

  /** `((k / n) * 100).toFixed(1)`, in tenths of a percent. */
  function RoundPctTenths(k: nat, n: nat): (r: nat)
    requires n > 0
    ensures k <= n ==> r <= 1000
  {
    RoundShareBound(k, n, 1000);
    RoundDiv(1000 * k, n)
  }

  /** A share of at most one whole, scaled by `scale`, rounds to at most
      `scale`. */
  lemma RoundShareBound(k: nat, n: nat, scale: nat)
    requires n > 0
    ensures RoundDiv(scale * k, n) >= 0
    ensures k <= n ==> RoundDiv(scale * k, n) <= scale
  {
    var r := RoundDiv(scale * k, n);
    RoundDivBounds(scale * k, n);
    if k <= n {
      MulMonotone(scale, k, n);
      MulStrict(n, 2 * r - 1, 2 * scale);
    }
  }

  /** A percentage in tenths is within half a tenth of the exact share. */
  lemma TenthsBounds(k: nat, n: nat)
    requires n > 0
    ensures n * (2 * RoundPctTenths(k, n) - 1) <= 2000 * k < n * (2 * RoundPctTenths(k, n) + 1)
  {
    RoundDivBounds(1000 * k, n);
  }

  lemma {:induction false} MulStrict(n: nat, x: int, y: int)
    requires n > 0
    ensures x > y ==> n * x > n * y
    decreases n
  {
    if n > 1 {
      MulStrict(n - 1, x, y);
    }
  }

  /** A rounded percentage is above the whole number `t` exactly when the
      exact percentage is at least `t + 1/2`: a threshold on the printed
      rate is a threshold on the counts. */
  lemma {:induction false} RoundPctAbove(k: nat, n: nat, t: nat)
    requires n > 0
    ensures RoundPct(k, n) > t <==> 200 * k >= n * (2 * t + 1)
  {
    var r := RoundPct(k, n);
    RoundDivBounds(100 * k, n);
    assert n * (2 * r - 1) <= 200 * k < n * (2 * r + 1);
    if r > t {
      MulMonotone(n, 2 * t + 1, 2 * r - 1);
      assert 200 * k >= n * (2 * t + 1);
    } else {
      MulMonotone(n, 2 * r + 1, 2 * t + 1);
      assert 200 * k < n * (2 * t + 1);
    }
  }

  lemma MulMonotone(n: nat, x: int, y: int)
    ensures x <= y ==> n * x <= n * y
  {
  }

  /** `(total / n).toFixed(2)` in hundredths, or 0 when there are no games
      (the source prints "0" instead of dividing by zero). */
  function AvgHundredths(total: int, n: nat): int
  {
    if n > 0 then RoundDiv(100 * total, n) else 0
  }

  /** `k / n * 100` rounded to a whole percent, or 0 when there are no games. */
  function RateOrZero(k: nat, n: nat): (r: nat)
    ensures k <= n ==> r <= 100
    ensures n == 0 ==> r == 0
  {
    if n > 0 then RoundPct(k, n) else 0
  }
}
