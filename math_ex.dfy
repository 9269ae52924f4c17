/** MathEx: rounding down to a number of decimals, and counting decimals in a number's text. */
module MathEx {
  import Decimals

  /** Convert.ToDecimal(Math.Pow(10, decimalPlaces)), taken as the exact power of ten. */
  function Power(decimalPlaces: int): (p: real)
    ensures 0.0 < p
  {
    if decimalPlaces >= 0 then Decimals.Scale(decimalPlaces) else Decimals.Unit(-decimalPlaces)
  }

  /** Math.Floor(number * power) / power. */
  function RoundDown(number: real, decimalPlaces: int): real
  {
    FloorToMultiple(number, Power(decimalPlaces))
  }

  /** Math.Floor(x * p) / p for a positive p: the largest multiple of 1/p not above x. */
  function FloorToMultiple(x: real, p: real): (r: real)
    requires 0.0 < p
    ensures r * p == (x * p).Floor as real
  {
    (x * p).Floor as real / p
  }

  lemma FloorToMultipleBounds(x: real, p: real)
    requires 0.0 < p
    ensures FloorToMultiple(x, p) <= x && x - FloorToMultiple(x, p) < 1.0 / p
  {
    var r := FloorToMultiple(x, p);
    var k := (x * p).Floor as real;
    assert k <= x * p < k + 1.0;
    if x < r {
      Decimals.MultiplyMonotone(x, r, p);
    }
    var u := 1.0 / p;
    assert u * p == 1.0;
    assert (r + u) * p == r * p + u * p;
    if r + u < x {
      Decimals.MultiplyMonotone(r + u, x, p);
    }
  }

  lemma FloorToMultipleExact(x: real, p: real)
    requires 0.0 < p && (x * p).Floor as real == x * p
    ensures FloorToMultiple(x, p) == x
  {
    Decimals.MultiplyCancel(FloorToMultiple(x, p), x, p);
  }

  lemma FloorToMultipleIdempotent(x: real, p: real)
    requires 0.0 < p
    ensures FloorToMultiple(FloorToMultiple(x, p), p) == FloorToMultiple(x, p)
  {
    var r := FloorToMultiple(x, p);
    assert r * p == (x * p).Floor as real;
    assert (r * p).Floor as real == r * p;
    FloorToMultipleExact(r, p);
  }

  /** The result never exceeds the input, also for negative inputs, and is less than 10^-d below it. */
  lemma RoundDownBounds(number: real, decimalPlaces: int)
    ensures RoundDown(number, decimalPlaces) <= number
    ensures number - RoundDown(number, decimalPlaces) < 1.0 / Power(decimalPlaces)
  {
    FloorToMultipleBounds(number, Power(decimalPlaces));
  }

  /** A value with at most d decimals is returned unchanged. */
  lemma RoundDownKeepsExactValue(number: real, decimalPlaces: int)
    requires (number * Power(decimalPlaces)).Floor as real == number * Power(decimalPlaces)
    ensures RoundDown(number, decimalPlaces) == number
  {
    FloorToMultipleExact(number, Power(decimalPlaces));
  }

  /** Rounding down twice with the same number of decimals is rounding down once. */
  lemma RoundDownIdempotent(number: real, decimalPlaces: int)
    ensures RoundDown(RoundDown(number, decimalPlaces), decimalPlaces) == RoundDown(number, decimalPlaces)
  {
    FloorToMultipleIdempotent(number, Power(decimalPlaces));
  }

  /** String.TrimEnd(c). */
  function TrimEnd(s: string, c: char): (r: string)
    ensures |r| <= |s| && r == s[..|r|]
    ensures r != [] ==> r[|r| - 1] != c
    decreases |s|
  {
    if s != [] && s[|s| - 1] == c then TrimEnd(s[..|s| - 1], c) else s
  }

  /** String.IndexOf(c): the first position of c, or -1. */
  function IndexOf(s: string, c: char): (r: int)
    ensures -1 <= r < |s|
    ensures r == -1 <==> c !in s
    ensures 0 <= r ==> s[r] == c && c !in s[..r]
    decreases |s|
  {
    if s == [] then -1
    else if s[0] == c then 0
    else var rest := IndexOf(s[1..], c);
      assert s[1..][..rest + 1] == s[1..rest + 2] by { if rest >= 0 {} }
      if rest == -1 then -1 else rest + 1
  }

  /** The number of decimals shown in a number's text, trailing zeros ignored. */
  function GetDecimalCount(text: string): (count: nat)
  {
    var trimmed := TrimEnd(text, '0');
    var position := IndexOf(trimmed, '.');
    if position == -1 then 0 else |trimmed| - position - 1
  }

  /** Without a '.' left after trimming the zeros, the count is 0. */
  lemma DecimalCountWithoutPoint(text: string)
    requires '.' !in TrimEnd(text, '0')
    ensures GetDecimalCount(text) == 0
  {
  }

  lemma {:induction false} TrimEndAppend(a: string, b: string, c: char)
    ensures TrimEnd(b, c) != [] ==> TrimEnd(a + b, c) == a + TrimEnd(b, c)
    ensures TrimEnd(b, c) == [] ==> TrimEnd(a + b, c) == TrimEnd(a, c)
    decreases |b|
  {
    if b == [] {
      assert a + b == a;
    } else if b[|b| - 1] == c {
      assert (a + b)[..|a + b| - 1] == a + b[..|b| - 1];
      TrimEndAppend(a, b[..|b| - 1], c);
    }
  }

  /** For "integer part . fraction", the count is the fraction's length without trailing zeros. */
  lemma DecimalCountOfParts(integerPart: string, fraction: string)
    requires '.' !in integerPart
    ensures GetDecimalCount(integerPart + "." + fraction) == |TrimEnd(fraction, '0')|
  {
    var head := integerPart + ".";
    assert integerPart + "." + fraction == head + fraction;
    TrimEndAppend(head, fraction, '0');
    var trimmed := TrimEnd(head + fraction, '0');
    assert trimmed[..|head|] == head;
    assert head[..|integerPart|] == integerPart;
    assert trimmed[..|integerPart|] == integerPart;
    assert trimmed[|integerPart|] == '.';
    assert IndexOf(trimmed, '.') == |integerPart|;
  }

  lemma DecimalCountExamples()
    ensures GetDecimalCount("1.50") == 1
    ensures GetDecimalCount("1.00") == 0
  {
    assert "1.50" == "1" + "." + "50";
    DecimalCountOfParts("1", "50");
    assert TrimEnd("50", '0') == "5";
    assert "1.00" == "1" + "." + "00";
    DecimalCountOfParts("1", "00");
    assert TrimEnd("00", '0') == TrimEnd("0", '0') == TrimEnd("", '0') == "";
  }
}
