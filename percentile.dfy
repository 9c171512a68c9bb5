/** `np.percentile(sample, 5)` with numpy's default "linear" method: sort
    the sample ascending, place the virtual index 5·(n−1)/100 between two
    order statistics and interpolate linearly between them. */
module Percentile {
  import opened Numeric

  predicate Sorted(s: seq<real>) {
    forall i, j :: 0 <= i < j < |s| ==> s[i] <= s[j]
  }

  /** `x` placed into the ascending sequence `s`. */
  function Insert(x: real, s: seq<real>): (r: seq<real>)
    requires Sorted(s)
    ensures Sorted(r)
    ensures multiset(r) == multiset(s) + multiset{x}
    ensures |r| == |s| + 1
  {
    if s == [] then [x]
    else if x <= s[0] then
      assert s == [s[0]] + s[1..];
      SortedCons(x, s);
      [x] + s
    else
      var rest := Insert(x, s[1..]);
      assert s == [s[0]] + s[1..];
      LowerBound(s[0], x, s[1..], rest);
      SortedCons(s[0], rest);
      [s[0]] + rest
  }

  /** A head no larger than any element of a sorted tail gives a sorted sequence. */
  lemma SortedCons(h: real, t: seq<real>)
    requires Sorted(t)
    requires forall k :: 0 <= k < |t| ==> h <= t[k]
    ensures Sorted([h] + t)
  {
    var r := [h] + t;
    forall i, j | 0 <= i < j < |r|
      ensures r[i] <= r[j]
    {
      assert r[j] == t[j - 1];
      if i > 0 {
        assert r[i] == t[i - 1];
      }
    }
  }

  /** Every element of `r`, a rearrangement of `t` plus `x`, is at least `h`
      when `x` and all of `t` are. */
  lemma LowerBound(h: real, x: real, t: seq<real>, r: seq<real>)
    requires h <= x && forall k :: 0 <= k < |t| ==> h <= t[k]
    requires multiset(r) == multiset(t) + multiset{x}
    ensures forall k :: 0 <= k < |r| ==> h <= r[k]
  {
    forall k | 0 <= k < |r|
      ensures h <= r[k]
    {
      assert r[k] in multiset(r);
      if r[k] != x {
        assert r[k] in multiset(t);
        assert r[k] in t;
      }
    }
  }

  /** The sample in ascending order (insertion sort). */
  function SortAscending(xs: seq<real>): (s: seq<real>)
    ensures Sorted(s)
    ensures multiset(s) == multiset(xs)
    ensures |s| == |xs|
  {
    if xs == [] then []
    else
      assert xs == [xs[0]] + xs[1..];
      Insert(xs[0], SortAscending(xs[1..]))
  }

  /** Index of the lower order statistic: the integer part of the virtual
      index 5·(n−1)/100. */
  function LowerIndex(n: nat): (lo: nat)
    requires n > 0
    ensures lo < n
  {
    (5 * (n - 1)) / 100
  }

  /** Index of the upper order statistic: one past the lower, clipped to the
      last element. */
  function UpperIndex(n: nat): (hi: nat)
    requires n > 0
    ensures LowerIndex(n) <= hi < n
  {
    var lo := LowerIndex(n);
    if lo + 1 < n then lo + 1 else n - 1
  }

  /** Fractional part of the virtual index. */
  function Fraction(n: nat): (g: real)
    requires n > 0
    ensures 0.0 <= g < 1.0
  {
    ((5 * (n - 1)) % 100) as real / 100.0
  }

  /** The point a fraction `g` of the way from `a` to `b`. */
  function Lerp(a: real, b: real, g: real): real {
    a + g * (b - a)
  }

  /** The 5th percentile of a non-empty sample. */
  function FifthPercentile(xs: seq<real>): real
    requires |xs| > 0
  {
    var s := SortAscending(xs);
    var n := |s|;
    Lerp(s[LowerIndex(n)], s[UpperIndex(n)], Fraction(n))
  }

  /** Linear interpolation stays between its two end points. */
  lemma Interpolate(a: real, b: real, g: real)
    requires a <= b && 0.0 <= g <= 1.0
    ensures a <= Lerp(a, b, g) <= b
  {
    var d := b - a;
    assert d - g * d == d * (1.0 - g);
    ProductNonNegative(g, d);
    ProductNonNegative(d, 1.0 - g);
  }

  lemma LerpOfEqual(c: real, g: real)
    ensures Lerp(c, c, g) == c
  {
  }

  lemma SortedMember(xs: seq<real>, k: nat)
    requires k < |SortAscending(xs)|
    ensures SortAscending(xs)[k] in xs
  {
    var s := SortAscending(xs);
    assert s[k] in multiset(s);
  }

  /** The percentile lies between the two order statistics it interpolates. */
  lemma PercentileBetweenOrderStatistics(xs: seq<real>)
    requires |xs| > 0
    ensures var s := SortAscending(xs);
            s[LowerIndex(|xs|)] <= FifthPercentile(xs) <= s[UpperIndex(|xs|)]
  {
    var s := SortAscending(xs);
    var lo, hi := LowerIndex(|xs|), UpperIndex(|xs|);
    assert s[lo] <= s[hi];
    Interpolate(s[lo], s[hi], Fraction(|xs|));
  }

  /** A percentile is a value inside the sample's range. */
  lemma PercentileWithinRange(xs: seq<real>)
    requires |xs| > 0
    ensures MinOf(xs) <= FifthPercentile(xs) <= MaxOf(xs)
  {
    var s := SortAscending(xs);
    var lo, hi := LowerIndex(|xs|), UpperIndex(|xs|);
    PercentileBetweenOrderStatistics(xs);
    SortedMember(xs, lo);
    SortedMember(xs, hi);
    MemberBounds(xs, s[lo]);
    MemberBounds(xs, s[hi]);
  }

  lemma MemberBounds(xs: seq<real>, x: real)
    requires x in xs
    ensures MinOf(xs) <= x <= MaxOf(xs)
  {
  }

  /** The percentile of a constant sample is that constant. */
  lemma PercentileOfConstant(xs: seq<real>, c: real)
    requires |xs| > 0 && Constant(xs, c)
    ensures FifthPercentile(xs) == c
  {
    var s := SortAscending(xs);
    var lo, hi := LowerIndex(|xs|), UpperIndex(|xs|);
    SortedMember(xs, lo);
    SortedMember(xs, hi);
    LerpOfEqual(c, Fraction(|xs|));
  }

  /** With at most 20 observations the virtual index is below 1, so the
      result interpolates between the two smallest values, a fraction
      5·(n−1)/100 of the way. */
  lemma FifthPercentileOfSmallSample(xs: seq<real>)
    requires 2 <= |xs| <= 20
    ensures FifthPercentile(xs) == Lerp(SortAscending(xs)[0], SortAscending(xs)[1], Fraction(|xs|))
    ensures Fraction(|xs|) == (5 * (|xs| - 1)) as real / 100.0
  {
    SmallSampleIndices(|xs|);
  }

  lemma SmallSampleIndices(n: nat)
    requires 2 <= n <= 20
    ensures LowerIndex(n) == 0 && UpperIndex(n) == 1
    ensures Fraction(n) == (5 * (n - 1)) as real / 100.0
  {
    var k := 5 * (n - 1);
    assert 0 <= k < 100;
    assert k / 100 == 0 && k % 100 == k;
  }
}
