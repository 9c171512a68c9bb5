/** Rounding to two decimals as `Series.round(2)` and Python's `round(x, 2)`
    do it: the value times 100 goes to the nearest integer, and a tie goes
    to the even neighbour. The arithmetic is exact here, so the binary
    representation error of the float operands is not modelled. */
module Rounding {
  import opened Numeric

  /** Nearest integer to `y`, ties to even. */
  function HalfEven(y: real): (n: int)
    ensures y - 0.5 <= n as real <= y + 0.5
    ensures (n as real - y == 0.5 || y - n as real == 0.5) ==> n % 2 == 0
  {
    var f := y.Floor;
    var frac := y - f as real;
    if frac < 0.5 then f
    else if frac > 0.5 then f + 1
    else if f % 2 == 0 then f
    else f + 1
  }

  function Round2(x: real): real {
    HalfEven(x * 100.0) as real / 100.0
  }

  /** A float cell rounded to two decimals; NaN and the infinities pass
      through unchanged. */
  function RoundedNum(c: Num): (r: Num)
    ensures r.Fin? <==> c.Fin?
    ensures !c.Fin? ==> r == c
  {
    if c.Fin? then Fin(Round2(c.val)) else c
  }

  /** Rounding moves a value by at most half a cent. */
  lemma Round2Error(x: real)
    ensures x - 0.005 <= Round2(x) <= x + 0.005
  {
    var n := HalfEven(x * 100.0);
    assert Round2(x) == n as real / 100.0;
  }

  lemma {:induction false} HalfEvenOfInteger(k: int)
    ensures HalfEven(k as real) == k
  {
    assert (k as real).Floor == k;
  }

  /** Rounding an already rounded value changes nothing. */
  lemma Round2Idempotent(x: real)
    ensures Round2(Round2(x)) == Round2(x)
  {
    var n := HalfEven(x * 100.0);
    assert Round2(x) * 100.0 == n as real;
    HalfEvenOfInteger(n);
  }

  lemma {:induction false} HalfEvenMonotone(a: real, b: real)
    requires a <= b
    ensures HalfEven(a) <= HalfEven(b)
  {
    var fa, fb := a.Floor, b.Floor;
    if fa == fb {
      assert a - fa as real <= b - fb as real;
      if (a - fa as real == 0.5) && (b - fb as real == 0.5) {
        assert a == b;
      }
    } else {
      assert fa + 1 <= fb;
    }
  }

  /** Rounding never swaps the order of two values. */
  lemma Round2Monotone(x: real, y: real)
    requires x <= y
    ensures Round2(x) <= Round2(y)
  {
    HalfEvenMonotone(x * 100.0, y * 100.0);
  }

  /** Rounding keeps a percentage inside [0, 100]. */
  lemma Round2Percent(x: real)
    requires 0.0 <= x <= 100.0
    ensures 0.0 <= Round2(x) <= 100.0
  {
    Round2Monotone(0.0, x);
    Round2Monotone(x, 100.0);
    HalfEvenOfInteger(0);
    HalfEvenOfInteger(10000);
    assert Round2(0.0) == 0.0;
    assert Round2(100.0) == 100.0;
  }
}
