/**
 * Exact decimal arithmetic of the C# `decimal` type, modelled with `real`.
 *
 * `Math.Round(x, d)` rounds to the nearest multiple of 10^-d and sends ties to
 * the even neighbour (banker's rounding); it is written once here as `Round`.
 * `(decimal)Math.Pow(10, -d)` is taken to be exactly `Unit(d)`.
 */
module Decimals {

  function Pow10(d: nat): (r: nat)
    ensures 1 <= r
  {
    if d == 0 then 1 else 10 * Pow10(d - 1)
  }

  /** 10^d as a real number. */
  function Scale(d: nat): (r: real)
    ensures 1.0 <= r
  {
    Pow10(d) as real
  }

  /** 10^-d, the smallest step of a price with d decimals. */
  function Unit(d: nat): (r: real)
    ensures 0.0 < r <= 1.0
    ensures r * Scale(d) == 1.0
  {
    1.0 / Scale(d)
  }

  /** x is a multiple of 10^-d, i.e. it has at most d decimals. */
  ghost predicate OnGrid(x: real, d: nat)
  {
    (x * Scale(d)).Floor as real == x * Scale(d)
  }

  /** Round-half-to-even of a real number to an integer. */
  function RoundToEven(x: real): (n: int)
    ensures n == x.Floor || n == x.Floor + 1
    ensures x - 0.5 <= n as real <= x + 0.5
    ensures x.Floor as real == x ==> n == x.Floor
    ensures (n as real - x == 0.5 || x - n as real == 0.5) ==> n % 2 == 0
  {
    var f := x.Floor;
    var fraction := x - f as real;
    if fraction < 0.5 then f
    else if fraction > 0.5 then f + 1
    else if f % 2 == 0 then f
    else f + 1
  }

  /** Math.Round(x, d) with the default midpoint rule (to even). */
  function Round(x: real, d: nat): real
  {
    Descale(RoundToEven(x * Scale(d)), d)
  }

  /** n * 10^-d. */
  function Descale(n: int, d: nat): (r: real)
    ensures r * Scale(d) == n as real
  {
    n as real / Scale(d)
  }

  lemma MultiplyPositive(a: real, s: real)
    requires 0.0 < a && 0.0 < s
    ensures 0.0 < a * s
  {
  }

  lemma MultiplyMonotone(a: real, b: real, s: real)
    requires a < b && 0.0 < s
    ensures a * s < b * s
  {
    MultiplyPositive(b - a, s);
  }

  /** Two reals with the same positive multiple are equal. */
  lemma MultiplyCancel(a: real, b: real, s: real)
    requires a * s == b * s && 0.0 < s
    ensures a == b
  {
    if a < b {
      MultiplyMonotone(a, b, s);
    } else if b < a {
      MultiplyMonotone(b, a, s);
    }
  }

  /** The rounded value has at most d decimals. */
  lemma RoundIsOnGrid(x: real, d: nat)
    ensures OnGrid(Round(x, d), d)
  {
    var n := RoundToEven(x * Scale(d));
    assert Round(x, d) == Descale(n, d);
    assert Round(x, d) * Scale(d) == n as real;
    assert (n as real).Floor == n;
  }

  /** The rounded value is within half a unit of the input. */
  lemma RoundIsNearest(x: real, d: nat)
    ensures x - Unit(d) / 2.0 <= Round(x, d) <= x + Unit(d) / 2.0
  {
    var n := RoundToEven(x * Scale(d));
    assert Round(x, d) == Descale(n, d);
    WithinHalf(x, Round(x, d), n as real, Unit(d) / 2.0, Scale(d));
  }

  lemma WithinHalf(x: real, r: real, n: real, h: real, s: real)
    requires 0.0 < s && r * s == n && h * s == 0.5
    requires x * s - 0.5 <= n <= x * s + 0.5
    ensures x - h <= r <= x + h
  {
    if x + h < r {
      MultiplyMonotone(x + h, r, s);
    }
    if r < x - h {
      MultiplyMonotone(r, x - h, s);
    }
  }

  /** A value that already has at most d decimals is returned unchanged. */
  lemma RoundKeepsGridValue(x: real, d: nat)
    requires OnGrid(x, d)
    ensures Round(x, d) == x
  {
    var n := RoundToEven(x * Scale(d));
    assert Round(x, d) == Descale(n, d);
    assert n == (x * Scale(d)).Floor;
    assert Round(x, d) * Scale(d) == n as real;
    assert n as real == x * Scale(d);
    MultiplyCancel(Round(x, d), x, Scale(d));
  }

  lemma RoundIdempotent(x: real, d: nat)
    ensures Round(Round(x, d), d) == Round(x, d)
  {
    RoundIsOnGrid(x, d);
    RoundKeepsGridValue(Round(x, d), d);
  }

  /** Between two values with at most d decimals, rounding stays between them. */
  lemma RoundBetween(lo: real, x: real, hi: real, d: nat)
    requires OnGrid(lo, d) && OnGrid(hi, d)
    requires lo <= x <= hi
    ensures lo <= Round(x, d) <= hi
  {
    var n := RoundToEven(x * Scale(d));
    assert Round(x, d) == Descale(n, d);
    GridBetween(lo, x, hi, Round(x, d), n, Scale(d), lo * Scale(d), x * Scale(d), hi * Scale(d));
  }

  lemma GridBetween(lo: real, x: real, hi: real, r: real, n: int, s: real, loS: real, xS: real, hiS: real)
    requires 0.0 < s && lo <= x <= hi
    requires loS == lo * s && xS == x * s && hiS == hi * s
    requires loS.Floor as real == loS && hiS.Floor as real == hiS
    requires n == xS.Floor || (n == xS.Floor + 1 && xS.Floor as real != xS)
    requires r * s == n as real
    ensures lo <= r <= hi
  {
    if xS < loS {
      MultiplyMonotone(x, lo, s);
    }
    if hiS < xS {
      MultiplyMonotone(hi, x, s);
    }
    assert loS.Floor <= xS.Floor <= hiS.Floor;
    if n == xS.Floor + 1 {
      assert xS.Floor < hiS.Floor;
    }
    if r < lo {
      MultiplyMonotone(r, lo, s);
    }
    if hi < r {
      MultiplyMonotone(hi, r, s);
    }
  }

  /** Rounding a non-negative value never gives a negative one. */
  lemma RoundNonNegative(x: real, d: nat)
    requires 0.0 <= x
    ensures 0.0 <= Round(x, d)
  {
    var r := Round(x, d);
    assert r == Descale(RoundToEven(x * Scale(d)), d);
    assert 0.0 <= x * Scale(d);
    assert r * Scale(d) >= 0.0;
    if r < 0.0 {
      MultiplyMonotone(r, 0.0, Scale(d));
    }
  }
}
