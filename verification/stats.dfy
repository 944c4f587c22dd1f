/**
 Aggregates over a list of speed samples, as the feature extractor takes
 them from numpy: the arithmetic mean, the population variance (the square
 of `np.std` with its default ddof of 0) and the maximum.  All arithmetic is
 over exact reals; floating-point rounding is not modelled.
 */
module Squares {

  /** The identity on reals.  `Square` multiplies by `Same(d)` rather than by
      `d` itself: the solver's arithmetic fails to use plain `d * d` terms in
      linear reasoning, while a product of two terms it does not identify
      syntactically is handled well.  `SquareIsProduct` confirms the value. */
  function Same(d: real): (r: real)
    ensures r == d
  {
    d
  }

  function Square(d: real): real {
    d * Same(d)
  }

  lemma SquareIsProduct(d: real)
    ensures Square(d) == d * d
  {
  }

  lemma ProductOfPositives(a: real, b: real)
    requires 0.0 < a && 0.0 < b
    ensures 0.0 < a * b
  {
  }

  lemma ProductOfNegatives(a: real, b: real)
    requires a < 0.0 && b < 0.0
    ensures 0.0 < a * b
  {
  }

  lemma SquareNonNegative(d: real)
    ensures 0.0 <= Square(d)
  {
    if d < 0.0 {
      ProductOfNegatives(d, Same(d));
    } else if 0.0 < d {
      ProductOfPositives(d, Same(d));
    }
  }

  lemma SquarePositive(d: real)
    requires d != 0.0
    ensures 0.0 < Square(d)
  {
    if d < 0.0 {
      ProductOfNegatives(d, Same(d));
    } else {
      ProductOfPositives(d, Same(d));
    }
  }
}

module Stats {
  import opened Squares

  /** A square root supplied by the caller.  Nothing is assumed about it
      beyond a zero root for zero and a non-negative root for every
      non-negative argument; in particular `f(x) * f(x) == x` is not used. */
  ghost predicate IsSqrt(f: real -> real) {
    && f(0.0) == 0.0
    && forall x :: 0.0 <= x ==> 0.0 <= f(x)
  }

  type SqrtFn = f: real -> real | IsSqrt(f) witness (x: real) => 0.0

  /** Every pair of elements is equal. */
  ghost predicate AllEqual(s: seq<real>) {
    forall i, j :: 0 <= i < |s| && 0 <= j < |s| ==> s[i] == s[j]
  }

  function Sum(s: seq<real>): real {
    if |s| == 0 then 0.0 else Sum(s[..|s| - 1]) + s[|s| - 1]
  }

  /** `np.mean`: defined only on a non-empty list; the mean times the
      number of samples is their sum. */
  function Mean(s: seq<real>): (r: real)
    requires |s| > 0
    ensures r * |s| as real == Sum(s)
  {
    Sum(s) / |s| as real
  }

  /** `np.max`: the largest sample, which is one of the samples. */
  function Max(s: seq<real>): (r: real)
    requires |s| > 0
    ensures r in s
    ensures forall k :: 0 <= k < |s| ==> s[k] <= r
  {
    if |s| == 1 then s[0]
    else
      var m := Max(s[..|s| - 1]);
      if m < s[|s| - 1] then s[|s| - 1] else m
  }

  /** The smallest sample; not a feature itself, but the lower bound of the mean. */
  function Min(s: seq<real>): (r: real)
    requires |s| > 0
    ensures r in s
    ensures forall k :: 0 <= k < |s| ==> r <= s[k]
  {
    if |s| == 1 then s[0]
    else
      var m := Min(s[..|s| - 1]);
      if s[|s| - 1] < m then s[|s| - 1] else m
  }

  /** Sum of squared deviations from `m`. */
  function SumSqDev(s: seq<real>, m: real): (r: real)
    ensures 0.0 <= r
  {
    if |s| == 0 then 0.0
    else
      var d := s[|s| - 1] - m;
      SquareNonNegative(d);
      SumSqDev(s[..|s| - 1], m) + Square(d)
  }

  /** Population variance: the mean squared deviation from the mean. */
  function Variance(s: seq<real>): (r: real)
    requires |s| > 0
    ensures 0.0 <= r
  {
    SumSqDev(s, Mean(s)) / |s| as real
  }

  /** `np.std`: the square root of the population variance. */
  function StdDev(sqrt: SqrtFn, s: seq<real>): (r: real)
    requires |s| > 0
    ensures 0.0 <= r
    ensures AllEqual(s) ==> r == 0.0
  {
    VarianceZeroIff(s);
    sqrt(Variance(s))
  }

  lemma {:induction false} SumUpperBound(s: seq<real>, hi: real)
    requires forall k :: 0 <= k < |s| ==> s[k] <= hi
    ensures Sum(s) <= |s| as real * hi
  {
    if |s| > 0 {
      SumUpperBound(s[..|s| - 1], hi);
    }
  }

  lemma {:induction false} SumLowerBound(s: seq<real>, lo: real)
    requires forall k :: 0 <= k < |s| ==> lo <= s[k]
    ensures |s| as real * lo <= Sum(s)
  {
    if |s| > 0 {
      SumLowerBound(s[..|s| - 1], lo);
    }
  }

  /** A mean lies within any bounds that hold of every sample. */
  lemma MeanWithin(s: seq<real>, lo: real, hi: real)
    requires |s| > 0
    requires forall k :: 0 <= k < |s| ==> lo <= s[k] <= hi
    ensures lo <= Mean(s) <= hi
  {
    var n := |s| as real;
    SumLowerBound(s, lo);
    SumUpperBound(s, hi);
    assert Mean(s) * n == Sum(s);
  }

  /** The mean lies between the smallest and the largest sample. */
  lemma MeanBetweenMinAndMax(s: seq<real>)
    requires |s| > 0
    ensures Min(s) <= Mean(s) <= Max(s)
  {
    MeanWithin(s, Min(s), Max(s));
  }

  /** One sample away from `m` makes the squared deviations strictly positive. */
  lemma {:induction false} SumSqDevPositive(s: seq<real>, m: real, k: int)
    requires 0 <= k < |s| && s[k] != m
    ensures 0.0 < SumSqDev(s, m)
  {
    var init := s[..|s| - 1];
    var d := s[|s| - 1] - m;
    if k < |s| - 1 {
      assert init[k] == s[k];
      SumSqDevPositive(init, m, k);
      SquareNonNegative(d);
    } else {
      SquarePositive(d);
    }
  }

  lemma {:induction false} SumSqDevOfConstant(s: seq<real>, m: real)
    requires forall k :: 0 <= k < |s| ==> s[k] == m
    ensures SumSqDev(s, m) == 0.0
  {
    if |s| > 0 {
      var init := s[..|s| - 1];
      assert forall k :: 0 <= k < |init| ==> init[k] == s[k];
      SumSqDevOfConstant(init, m);
    }
  }

  /** The squared deviations sum to zero exactly when every sample equals `m`. */
  lemma SumSqDevZeroIff(s: seq<real>, m: real)
    ensures SumSqDev(s, m) == 0.0 <==> forall k :: 0 <= k < |s| ==> s[k] == m
  {
    if forall k :: 0 <= k < |s| ==> s[k] == m {
      SumSqDevOfConstant(s, m);
    } else {
      var k :| 0 <= k < |s| && s[k] != m;
      SumSqDevPositive(s, m, k);
    }
  }

  /** The variance is zero if and only if all samples are equal. */
  lemma VarianceZeroIff(s: seq<real>)
    requires |s| > 0
    ensures Variance(s) == 0.0 <==> AllEqual(s)
  {
    var n := |s| as real;
    if Variance(s) == 0.0 {
      assert SumSqDev(s, Mean(s)) == Variance(s) * n;
      SumSqDevZeroIff(s, Mean(s));
    }
    if AllEqual(s) {
      MeanWithin(s, s[0], s[0]);
      SumSqDevZeroIff(s, s[0]);
    }
  }

  /** A list of `n` copies of one value has that value as mean and maximum,
      and variance zero. */
  lemma ConstantAggregates(s: seq<real>, c: real)
    requires |s| > 0
    requires forall k :: 0 <= k < |s| ==> s[k] == c
    ensures Mean(s) == c && Max(s) == c && Variance(s) == 0.0
  {
    MeanWithin(s, c, c);
    VarianceZeroIff(s);
  }
}
