/** Percentages as the report computes them on Python 2 integers. */
module Percent {
  import opened Wrappers

  /** `p` is `n` out of `d` as a whole percentage rounded down, and absent
      exactly when `d` is zero. */
  predicate FlooredShare(p: Option<nat>, n: nat, d: nat) {
    && (p.None? <==> d == 0)
    && (p.Some? ==> p.value * d <= n * 100 < (p.value + 1) * d)
  }

  /** `p` is `n` out of `d` as the nearest whole percentage, halves rounded
      up, and absent exactly when `d` is zero. */
  predicate RoundedShare(p: Option<nat>, n: nat, d: nat) {
    && (p.None? <==> d == 0)
    && (p.Some? ==> 2 * p.value * d <= 200 * n + d < 2 * (p.value + 1) * d)
  }

  /** `n * 100 / d` on Python 2 integers: floor division. A zero
      denominator raises `ZeroDivisionError`; here it gives `None`. */
  function FloorPercent(n: nat, d: nat): (r: Option<nat>)
    ensures r.None? <==> d == 0
    ensures r.Some? ==> r.value * d <= n * 100 < (r.value + 1) * d
    ensures r.Some? && n <= d ==> r.value <= 100
  {
    if d == 0 then None else Some(n * 100 / d)
  }

  /** `math.floor(n * 100 / d + 0.5)` as written: the quotient is an integer
      before `0.5` is added, so the float sum floors back to that quotient. */
  function HalfAdjustedAsWritten(n: nat, d: nat): (r: Option<nat>)
    ensures r == FloorPercent(n, d)
  {
    if d == 0 then None else Some(((n * 100 / d) as real + 0.5).Floor)
  }

  /** The rounding the `+ 0.5` evidently aims at: `100 * n / d` rounded to
      the nearest integer, halves rounded up. */
  function RoundHalfUp(n: nat, d: nat): (r: Option<nat>)
    ensures r.None? <==> d == 0
    ensures r.Some? ==> 2 * r.value * d <= 200 * n + d < 2 * (r.value + 1) * d
    ensures r.Some? && n <= d ==> r.value <= 100
  {
    if d == 0 then None
    else
      var q := (200 * n + d) / (2 * d);
      RoundingBounds(n, d, q);
      Some(q)
  }

  /** The quotient of `RoundHalfUp` brackets the doubled percentage plus
      one half, and stays within 100 for a part of the whole. */
  lemma RoundingBounds(n: nat, d: nat, q: int)
    requires d > 0 && q == (200 * n + d) / (2 * d)
    ensures q >= 0
    ensures 2 * q * d <= 200 * n + d < 2 * (q + 1) * d
    ensures n <= d ==> q <= 100
  {
    var x, e := 200 * n + d, 2 * d;
    var m := x % e;
    assert x == e * q + m && 0 <= m < e;
    assert 2 * q * d == e * q && 2 * (q + 1) * d == e * q + e;
    if n <= d {
      assert x < 101 * e;
      assert q * e < 101 * e;
      CancelFactor(q, 101, e);
    }
  }

  /** Two thirds shows the discrepancy: the report prints 66 where rounding
      gives 67. */
  lemma HalfAdjustmentLost()
    ensures HalfAdjustedAsWritten(2, 3) == Some(66)
    ensures RoundHalfUp(2, 3) == Some(67)
  {
  }

  /** Rounding moves the floor by at most one point. */
  lemma RoundHalfUpNearFloor(n: nat, d: nat)
    requires d > 0
    ensures FloorPercent(n, d).value <= RoundHalfUp(n, d).value <= FloorPercent(n, d).value + 1
  {
    var f, r := FloorPercent(n, d).value, RoundHalfUp(n, d).value;
    RoundingNotBelow(f, r, d, 100 * n);
    RoundingAtMostOneAbove(f, r, d, 100 * n);
  }

  /** Adding half a point never rounds below the floor. */
  lemma RoundingNotBelow(f: int, r: int, d: int, u: int)
    requires d > 0 && f * d <= u && 2 * u + d < 2 * (r + 1) * d
    ensures f <= r
  {
    assert f * (2 * d) == 2 * (f * d);
    assert 2 * (r + 1) * d == (r + 1) * (2 * d);
    CancelFactor(f, r + 1, 2 * d);
  }

  /** Adding half a point rounds at most one point above the floor. */
  lemma RoundingAtMostOneAbove(f: int, r: int, d: int, u: int)
    requires d > 0 && u < (f + 1) * d && 2 * r * d <= 2 * u + d
    ensures r <= f + 1
  {
    assert (f + 2) * (2 * d) == 2 * ((f + 1) * d) + 2 * d;
    assert 2 * r * d == r * (2 * d);
    CancelFactor(r, f + 2, 2 * d);
  }

  lemma CancelFactor(a: int, b: int, d: int)
    requires d > 0 && a * d < b * d
    ensures a < b
  {
    assert (b - a) * d == b * d - a * d;
  }
}
