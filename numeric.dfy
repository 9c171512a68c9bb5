/** Numbers as the analytics pipeline handles them: exact reals in place of
    floats, the non-finite markers (NaN and the two infinities) that pandas
    puts in a cell it cannot compute, and the sample statistics (sum, mean,
    variance with one degree of freedom, minimum and maximum) of a series. */
module Numeric {

  type Asset = string

  datatype Option<+T> = None | Some(value: T)

  /** One float cell. Every ordered comparison with NaN is false and the
      infinities compare beyond every finite bound, which is what `Above`
      and `Below` encode. */
  datatype Num = Fin(val: real) | PosInf | NegInf | NaN {

    /** The comparison `cell > limit`. */
    predicate Above(limit: real) {
      (Fin? && val > limit) || PosInf?
    }

    /** The comparison `cell < limit`. */
    predicate Below(limit: real) {
      (Fin? && val < limit) || NegInf?
    }

    /** Float multiplication by a positive constant factor. */
    function Scaled(k: real): (r: Num)
      requires k > 0.0
      ensures r.Fin? <==> Fin?
      ensures Fin? ==> r.val == val * k
      ensures Fin? ==> (r.val > 0.0 <==> val > 0.0) && (r.val < 0.0 <==> val < 0.0) && (r.val == 0.0 <==> val == 0.0)
      ensures !Fin? ==> r == this
    {
      if Fin? then
        ScaleOrder(val, 0.0, k);
        ScaleOrder(0.0, val, k);
        Fin(val * k)
      else this
    }
  }

  /** IEEE division of two finite numbers: a zero divisor gives an infinity
      carrying the dividend's sign, or NaN for 0/0. */
  function Quotient(a: real, b: real): (r: Num)
    ensures r.Fin? <==> b != 0.0
    ensures r.Fin? ==> r.val * b == a
    ensures b == 0.0 ==> (r == PosInf <==> a > 0.0) && (r == NegInf <==> a < 0.0) && (r == NaN <==> a == 0.0)
  {
    if b != 0.0 then
      QuotientTimes(a, b);
      Fin(a / b)
    else if a > 0.0 then PosInf
    else if a < 0.0 then NegInf
    else NaN
  }

  lemma QuotientTimes(a: real, b: real)
    requires b != 0.0
    ensures (a / b) * b == a
  {
  }

  /** With a positive divisor the quotient has the dividend's sign. */
  lemma QuotientSign(a: real, b: real)
    requires b > 0.0
    ensures Quotient(a, b).Fin?
    ensures Quotient(a, b).val > 0.0 <==> a > 0.0
    ensures Quotient(a, b).val < 0.0 <==> a < 0.0
    ensures Quotient(a, b).val == 0.0 <==> a == 0.0
  {
    var q := a / b;
    QuotientTimes(a, b);
    ScaleOrder(q, 0.0, b);
    ScaleOrder(0.0, q, b);
  }

  lemma ProductSign(x: real, k: real)
    requires k > 0.0
    ensures x >= 0.0 ==> x * k >= 0.0
    ensures x > 0.0 ==> x * k > 0.0
  {
  }

  lemma ProductNonNegative(x: real, y: real)
    requires x >= 0.0 && y >= 0.0
    ensures x * y >= 0.0
  {
  }

  /** Multiplying by a positive factor keeps the order of two reals. */
  lemma ScaleOrder(x: real, y: real, n: real)
    requires n > 0.0
    ensures x < y <==> x * n < y * n
    ensures x <= y <==> x * n <= y * n
  {
    if x < y {
      assert y * n - x * n == (y - x) * n;
      ProductSign(y - x, n);
    } else {
      assert x * n - y * n == (x - y) * n;
      ProductSign(x - y, n);
    }
  }

  predicate Distinct<T(==)>(s: seq<T>) {
    forall i, j :: 0 <= i < j < |s| ==> s[i] != s[j]
  }

  /** The facts about the square root function `np.sqrt` the model relies on:
      the root of zero is zero and the root of a positive number is positive. */
  ghost predicate SquareRoot(sqrt: real -> real) {
    sqrt(0.0) == 0.0 && forall x {:trigger sqrt(x)} :: x > 0.0 ==> sqrt(x) > 0.0
  }

  /** A square root under `SquareRoot` is non-negative on non-negative numbers. */
  lemma RootNonNegative(sqrt: real -> real)
    ensures SquareRoot(sqrt) ==> forall x :: x >= 0.0 ==> sqrt(x) >= 0.0
  {
    if SquareRoot(sqrt) {
      forall x | x >= 0.0
        ensures sqrt(x) >= 0.0
      {
        if x == 0.0 {
        } else {
          assert x > 0.0;
        }
      }
    }
  }

  function Sum(xs: seq<real>): real {
    if xs == [] then 0.0 else xs[0] + Sum(xs[1..])
  }

  /** pandas' default (skipna) sum of a column: NaN cells are left out. The
      columns summed in this model never hold an infinity, so the other
      non-finite cells are left out the same way. */
  function FinSum(ns: seq<Num>): real {
    if ns == [] then 0.0 else (if ns[0].Fin? then ns[0].val else 0.0) + FinSum(ns[1..])
  }

  function Mean(xs: seq<real>): real
    requires |xs| > 0
  {
    Sum(xs) / |xs| as real
  }

  /** Sum of squared deviations of `xs` from `m`. */
  function Scatter(xs: seq<real>, m: real): (r: real)
    ensures r >= 0.0
  {
    if xs == [] then 0.0
    else
      SquareNonNegative(xs[0] - m);
      (xs[0] - m) * (xs[0] - m) + Scatter(xs[1..], m)
  }

  lemma SquareNonNegative(d: real)
    ensures d * d >= 0.0
  {
    if d < 0.0 {
      assert d * d == (-d) * (-d);
    }
  }

  /** pandas' `std()` squared: the sample variance with ddof = 1, defined
      from two observations on. */
  function SampleVariance(xs: seq<real>): (v: real)
    requires |xs| >= 2
    ensures v >= 0.0
  {
    Scatter(xs, Mean(xs)) / (|xs| - 1) as real
  }

  /** pandas' `std()`: NaN below two observations. */
  function SampleStd(xs: seq<real>, sqrt: real -> real): (r: Num)
    ensures r.Fin? <==> |xs| >= 2
    ensures r.Fin? && SquareRoot(sqrt) ==> r.val >= 0.0
  {
    if |xs| < 2 then NaN
    else
      var v := SampleVariance(xs);
      Fin(sqrt(v))
  }

  function MinOf(xs: seq<real>): (m: real)
    requires |xs| > 0
    ensures forall i :: 0 <= i < |xs| ==> m <= xs[i]
    ensures exists i :: 0 <= i < |xs| && xs[i] == m
  {
    if |xs| == 1 then xs[0]
    else
      var rest := MinOf(xs[1..]);
      assert forall i :: 1 <= i < |xs| ==> xs[i] == xs[1..][i - 1];
      if xs[0] <= rest then xs[0] else rest
  }

  function MaxOf(xs: seq<real>): (m: real)
    requires |xs| > 0
    ensures forall i :: 0 <= i < |xs| ==> xs[i] <= m
    ensures exists i :: 0 <= i < |xs| && xs[i] == m
  {
    if |xs| == 1 then xs[0]
    else
      var rest := MaxOf(xs[1..]);
      assert forall i :: 1 <= i < |xs| ==> xs[i] == xs[1..][i - 1];
      if rest <= xs[0] then xs[0] else rest
  }

  predicate Constant(xs: seq<real>, c: real) {
    forall i :: 0 <= i < |xs| ==> xs[i] == c
  }

  lemma {:induction false} SumConstant(xs: seq<real>, c: real)
    requires Constant(xs, c)
    ensures Sum(xs) == |xs| as real * c
  {
    if xs != [] {
      SumConstant(xs[1..], c);
    }
  }

  lemma {:induction false} SumAppend(a: seq<real>, b: seq<real>)
    ensures Sum(a + b) == Sum(a) + Sum(b)
  {
    if a == [] {
      assert a + b == b;
    } else {
      assert (a + b)[1..] == a[1..] + b;
      SumAppend(a[1..], b);
    }
  }

  lemma {:induction false} SumBounds(xs: seq<real>, lo: real, hi: real)
    requires forall i :: 0 <= i < |xs| ==> lo <= xs[i] <= hi
    ensures lo * |xs| as real <= Sum(xs) <= hi * |xs| as real
  {
    if xs != [] {
      SumBounds(xs[1..], lo, hi);
    }
  }

  lemma {:induction false} SumNonNegative(xs: seq<real>)
    requires forall i :: 0 <= i < |xs| ==> xs[i] >= 0.0
    ensures Sum(xs) >= 0.0
  {
    if xs != [] {
      SumNonNegative(xs[1..]);
    }
  }

  lemma {:induction false} FinSumAppend(a: seq<Num>, b: seq<Num>)
    ensures FinSum(a + b) == FinSum(a) + FinSum(b)
  {
    if a == [] {
      assert a + b == b;
    } else {
      assert (a + b)[1..] == a[1..] + b;
      FinSumAppend(a[1..], b);
    }
  }

  lemma {:induction false} FinSumNonNegative(ns: seq<Num>)
    requires forall k :: 0 <= k < |ns| && ns[k].Fin? ==> ns[k].val >= 0.0
    ensures FinSum(ns) >= 0.0
  {
    if ns != [] {
      FinSumNonNegative(ns[1..]);
    }
  }

  /** Every finite cell weighs at most the skipna sum when no cell is negative. */
  lemma {:induction false} FinSumBoundsCell(ns: seq<Num>, i: nat)
    requires forall k :: 0 <= k < |ns| && ns[k].Fin? ==> ns[k].val >= 0.0
    requires i < |ns| && ns[i].Fin?
    ensures 0.0 <= ns[i].val <= FinSum(ns)
  {
    FinSumNonNegative(ns[1..]);
    if i > 0 {
      FinSumBoundsCell(ns[1..], i - 1);
    }
  }

  lemma {:induction false} ScatterOfConstant(xs: seq<real>, c: real)
    requires Constant(xs, c)
    ensures Scatter(xs, c) == 0.0
  {
    if xs != [] {
      assert xs[0] - c == 0.0;
      ScatterOfConstant(xs[1..], c);
    }
  }

  /** A constant series has that constant as its mean, minimum and maximum,
      and zero sample variance. */
  lemma ConstantStatistics(xs: seq<real>, c: real)
    requires |xs| > 0 && Constant(xs, c)
    ensures Mean(xs) == c
    ensures MinOf(xs) == c && MaxOf(xs) == c
    ensures |xs| >= 2 ==> SampleVariance(xs) == 0.0
  {
    var n := |xs| as real;
    SumConstant(xs, c);
    assert Sum(xs) == n * c;
    DivideCancel(n, c);
    assert Mean(xs) == (n * c) / n;
    ScatterOfConstant(xs, c);
  }

  /** The mean lies between the minimum and the maximum of the series. */
  lemma MeanBounds(xs: seq<real>)
    requires |xs| > 0
    ensures MinOf(xs) <= Mean(xs) <= MaxOf(xs)
  {
    MeanWithin(xs, MinOf(xs), MaxOf(xs));
  }

  lemma MeanWithin(xs: seq<real>, lo: real, hi: real)
    requires |xs| > 0
    requires forall i :: 0 <= i < |xs| ==> lo <= xs[i] <= hi
    ensures lo <= Mean(xs) <= hi
  {
    SumBounds(xs, lo, hi);
    DivideBounds(Sum(xs), |xs| as real, lo, hi);
  }

  lemma DivideBounds(s: real, n: real, lo: real, hi: real)
    requires n > 0.0 && lo * n <= s <= hi * n
    ensures lo <= s / n <= hi
  {
    QuotientTimes(s, n);
    ScaleOrder(lo, s / n, n);
    ScaleOrder(s / n, hi, n);
  }

  /** Dividing `n` copies of `c` by `n` gives back `c`. */
  lemma DivideCancel(n: real, c: real)
    requires n > 0.0
    ensures (n * c) / n == c
  {
    QuotientTimes(n * c, n);
    ScaleOrder((n * c) / n, c, n);
    ScaleOrder(c, (n * c) / n, n);
  }
}
