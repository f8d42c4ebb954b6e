/** Real arithmetic shared by the price code, and Python's `round` read as
    round-half-to-even over the reals. */
module Rounding {

  function Abs(x: real): real {
    if x < 0.0 then -x else x
  }

  function Max(x: real, y: real): real {
    if y > x then y else x
  }

  function Min(x: real, y: real): real {
    if y < x then y else x
  }

  predicate IsHalfEven(x: real, n: int) {
    && n as real - 0.5 <= x <= n as real + 0.5
    && (x == n as real - 0.5 || x == n as real + 0.5 ==> n % 2 == 0)
  }

  /** The nearest integer; a tie goes to the even neighbour. */
  function HalfEven(x: real): (n: int)
    ensures IsHalfEven(x, n)
  {
    var f := x.Floor;
    var d := x - f as real;
    if d < 0.5 || (d == 0.5 && f % 2 == 0) then f else f + 1
  }

  lemma HalfEvenUnique(x: real, m: int, n: int)
    requires IsHalfEven(x, m) && IsHalfEven(x, n)
    ensures m == n
  {
    assert m as real - n as real <= 1.0 && n as real - m as real <= 1.0;
    assert m == n || m == n + 1 || n == m + 1;
  }

  lemma HalfEvenOdd(x: real)
    ensures HalfEven(-x) == -HalfEven(x)
  {
    HalfEvenUnique(-x, HalfEven(-x), -HalfEven(x));
  }

  lemma HalfEvenMonotone(x: real, y: real)
    requires x <= y
    ensures HalfEven(x) <= HalfEven(y)
  {
    if HalfEven(y) < HalfEven(x) {
      HalfEvenUnique(x, HalfEven(x), HalfEven(y));
    }
  }

  /** `round(x, d)` where `scale` is ten to the power d. */
  function Round(x: real, scale: real): real
    requires scale > 0.0
  {
    HalfEven(x * scale) as real / scale
  }

  /** The result is a multiple of the unit, at most half a unit away. */
  lemma RoundNear(x: real, scale: real)
    requires scale > 0.0
    ensures Round(x, scale) * scale == HalfEven(x * scale) as real
    ensures Abs(Round(x, scale) - x) * scale <= 0.5
  {
    var n := HalfEven(x * scale) as real;
    var r := n / scale;
    assert r * scale == n;
    assert (r - x) * scale == n - x * scale;
    assert (x - r) * scale == x * scale - n;
  }

  /** Rounding commutes with negation. */
  lemma RoundOdd(x: real, scale: real)
    requires scale > 0.0
    ensures Round(-x, scale) == -Round(x, scale)
  {
    HalfEvenOdd(x * scale);
    assert (-x) * scale == -(x * scale);
    var n := HalfEven(x * scale) as real;
    assert (-n) / scale == -(n / scale);
  }

  lemma MulMonotone(a: real, b: real, c: real)
    requires a <= b && c >= 0.0
    ensures a * c <= b * c
  {
  }

  lemma DivMonotone(a: real, b: real, c: real)
    requires a <= b && c > 0.0
    ensures a / c <= b / c
  {
  }

  /** Rounding never reverses an order. */
  lemma RoundMonotone(x: real, y: real, scale: real)
    requires scale > 0.0 && x <= y
    ensures Round(x, scale) <= Round(y, scale)
  {
    MulMonotone(x, y, scale);
    HalfEvenMonotone(x * scale, y * scale);
    DivMonotone(HalfEven(x * scale) as real, HalfEven(y * scale) as real, scale);
  }

  lemma DivMul(a: real, b: real)
    requires b != 0.0
    ensures a / b * b == a
  {
  }

  lemma QuotientAt(q: real, x: real, size: real, c: real)
    requires size > 0.0 && q * size == x
    ensures (q < c <==> x < c * size) && (q <= c <==> x <= c * size)
  {
    if q < c {
      assert (c - q) * size > 0.0;
    } else if q > c {
      assert (q - c) * size > 0.0;
    }
  }

  /** Bounds of a quotient, without the division. */
  lemma QuotientBounds(x: real, size: real, c: real)
    requires size > 0.0
    ensures (x / size < c <==> x < c * size) && (x / size <= c <==> x <= c * size)
  {
    QuotientAt(x / size, x, size, c);
  }
}
