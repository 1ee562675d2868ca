/** Real-number stand-ins for the floating-point operations the predictor uses:
    division that may hit a zero divisor (numpy yields an infinity or NaN rather
    than raising), percent changes, and rounding to a number of decimal places. */
module Numeric {

  /** A float result: a finite value, one of the two infinities, or NaN. */
  datatype Float = Finite(value: real) | PosInf | NegInf | NaN

  predicate IsNumber(f: Float) {
    !f.NaN?
  }

  /** `a / b` with IEEE semantics for a zero divisor (the divisor is taken as +0.0). */
  function Quotient(a: real, b: real): (q: Float)
    ensures q.Finite? <==> b != 0.0
    ensures q.Finite? ==> q.value * b == a
    ensures q.NaN? <==> a == 0.0 && b == 0.0
    ensures q.PosInf? <==> b == 0.0 && a > 0.0
  {
    if b != 0.0 then Finite(a / b)
    else if a > 0.0 then PosInf
    else if a < 0.0 then NegInf
    else NaN
  }

  /** Adds a finite constant; infinities and NaN absorb it. */
  function Add(f: Float, c: real): Float {
    if f.Finite? then Finite(f.value + c) else f
  }

  /** Multiplies by a positive constant; infinities keep their sign. */
  function Scale(f: Float, c: real): Float
    requires c > 0.0
  {
    if f.Finite? then Finite(f.value * c) else f
  }

  /** The forecast's change: `((price - last) / last) * 100`. */
  function PercentChange(last: real, price: real): (c: Float)
    ensures c.Finite? <==> last != 0.0
    ensures c.Finite? ==> c.value == (price - last) / last * 100.0
    ensures c.NaN? <==> last == 0.0 && price == 0.0
    ensures c.PosInf? <==> last == 0.0 && price > 0.0
  {
    Scale(Quotient(price - last, last), 100.0)
  }

  /** pandas `pct_change` scaled by 100: `(cur / prev - 1) * 100`. */
  /** It agrees with the forecast's formula on every input, including a
      zero previous price. */
  function PctChange(prev: real, cur: real): (c: Float)
    ensures c == PercentChange(prev, cur)
  {
    if prev != 0.0 then
      var q := cur / prev;
      assert (q - 1.0) * prev == cur - prev;
      DivisionUnique(cur - prev, prev, q - 1.0);
      Scale(Add(Quotient(cur, prev), -1.0), 100.0)
    else Scale(Add(Quotient(cur, prev), -1.0), 100.0)
  }

  lemma DivisionUnique(a: real, b: real, z: real)
    requires b != 0.0 && z * b == a
    ensures a / b == z
  {
  }

  /** The order on non-NaN floats: -inf < every finite value < +inf. */
  predicate Le(a: Float, b: Float) {
    match (a, b)
    case (NegInf, _) => !b.NaN?
    case (Finite(x), Finite(y)) => x <= y
    case (Finite(_), PosInf) => true
    case (PosInf, PosInf) => true
    case _ => false
  }

  lemma LeTotal(a: Float, b: Float)
    requires IsNumber(a) && IsNumber(b)
    ensures Le(a, b) || Le(b, a)
  {
  }

  lemma LeTransitive(a: Float, b: Float, c: Float)
    requires Le(a, b) && Le(b, c)
    ensures Le(a, c)
  {
  }

  function Pow10(d: nat): (p: real)
    ensures p >= 1.0
  {
    if d == 0 then 1.0 else 10.0 * Pow10(d - 1)
  }

  /** The nearest integer, ties to the even neighbour. */
  function RoundHalfEven(x: real): (n: int)
    ensures x - 0.5 <= n as real <= x + 0.5
    ensures (n as real == x - 0.5 || n as real == x + 0.5) ==> n % 2 == 0
  {
    var f := x.Floor;
    var frac := x - f as real;
    if frac < 0.5 then f
    else if frac > 0.5 then f + 1
    else if f % 2 == 0 then f
    else f + 1
  }

  lemma RoundHalfEvenMonotone(x: real, y: real)
    requires x <= y
    ensures RoundHalfEven(x) <= RoundHalfEven(y)
  {
    var f, g := x.Floor, y.Floor;
    assert f <= g;
  }

  /** `round(x, d)`: the multiple of 10^-d nearest to x, ties to even. */
  function RoundTo(x: real, d: nat): real {
    RoundHalfEven(TimesPow10(x, d)) as real / Pow10(d)
  }

  /** x * 10^d. */
  function TimesPow10(x: real, d: nat): real {
    x * Pow10(d)
  }

  /** `RoundTo(x, d)` has at most d decimals and lies within half a unit of
      the d-th decimal of x. */
  lemma RoundToNearest(x: real, d: nat)
    ensures -0.5 <= TimesPow10(RoundTo(x, d), d) - TimesPow10(x, d) <= 0.5
    ensures TimesPow10(RoundTo(x, d), d).Floor as real == TimesPow10(RoundTo(x, d), d)
  {
    var p := Pow10(d);
    var n := RoundHalfEven(TimesPow10(x, d));
    assert RoundTo(x, d) == n as real / p;
    DivMulCancel(n as real, p);
    assert TimesPow10(RoundTo(x, d), d) == n as real;
  }

  lemma DivMulCancel(a: real, p: real)
    requires p != 0.0
    ensures a / p * p == a
  {
  }

  /** A whole number is unchanged by rounding to 2 places. */
  lemma RoundWhole(x: real)
    requires x.Floor as real == x
    ensures RoundTo(x, 2) == x
  {
    assert Pow10(2) == 100.0;
    var y := TimesPow10(x, 2);
    assert y == (x.Floor * 100) as real;
  }

  lemma RoundToMonotone(x: real, y: real, d: nat)
    requires x <= y
    ensures RoundTo(x, d) <= RoundTo(y, d)
  {
    MulMonotone(x, y, Pow10(d));
    RoundHalfEvenMonotone(TimesPow10(x, d), TimesPow10(y, d));
    DivMonotone(RoundHalfEven(TimesPow10(x, d)) as real, RoundHalfEven(TimesPow10(y, d)) as real, Pow10(d));
  }

  lemma MulMonotone(a: real, b: real, p: real)
    requires a <= b && p > 0.0
    ensures a * p <= b * p
  {
  }

  lemma DivMonotone(a: real, b: real, p: real)
    requires a <= b && p > 0.0
    ensures a / p <= b / p
  {
    assert b / p - a / p == (b - a) / p;
  }

  /** Python's `round(f, d)` on a float: infinities and NaN are returned unchanged. */
  function RoundFloat(f: Float, d: nat): (r: Float)
    ensures r.Finite? <==> f.Finite?
    ensures f.Finite? ==> r == Finite(RoundTo(f.value, d))
    ensures !f.Finite? ==> r == f
  {
    if f.Finite? then Finite(RoundTo(f.value, d)) else f
  }

  lemma RoundFloatMonotone(a: Float, b: Float, d: nat)
    requires Le(a, b)
    ensures Le(RoundFloat(a, d), RoundFloat(b, d))
  {
    if a.Finite? && b.Finite? {
      RoundToMonotone(a.value, b.value, d);
    }
  }
}
