/** The numpy reductions the video report applies to the frame scores. */
module ScoreStatistics {
  import opened Numeric

  function Sum(s: seq<real>): real
  {
    if s == [] then 0.0 else Sum(s[..|s| - 1]) + s[|s| - 1]
  }

  /** `np.mean`, with 0 for the empty sequence as the report's guard gives. */
  function Mean(s: seq<real>): real
  {
    if |s| == 0 then 0.0 else Sum(s) / |s| as real
  }

  /** `np.max` of a non-empty sequence. */
  function MaxOf(s: seq<real>): real
    requires |s| > 0
  {
    if |s| == 1 then s[0] else Max(MaxOf(s[..|s| - 1]), s[|s| - 1])
  }

  /** `np.min` of a non-empty sequence. */
  function MinOf(s: seq<real>): real
    requires |s| > 0
  {
    if |s| == 1 then s[0] else Min(MinOf(s[..|s| - 1]), s[|s| - 1])
  }

  function SquaredDeviations(s: seq<real>, mean: real): (d: seq<real>)
    ensures |d| == |s|
  {
    seq(|s|, k requires 0 <= k < |s| => (s[k] - mean) * (s[k] - mean))
  }

  /** `np.var`: the mean squared deviation from the mean. */
  function Variance(s: seq<real>): real
  {
    Mean(SquaredDeviations(s, Mean(s)))
  }

  predicate AllIn(s: seq<real>, lo: real, hi: real)
  {
    forall k :: 0 <= k < |s| ==> lo <= s[k] <= hi
  }

  lemma {:induction false} SumBounds(s: seq<real>, lo: real, hi: real)
    requires AllIn(s, lo, hi)
    ensures lo * |s| as real <= Sum(s) <= hi * |s| as real
  {
    if s != [] {
      var prefix := s[..|s| - 1];
      SumBounds(prefix, lo, hi);
      assert Sum(s) == Sum(prefix) + s[|s| - 1];
      assert lo * |s| as real == lo * |prefix| as real + lo;
      assert hi * |s| as real == hi * |prefix| as real + hi;
    }
  }

  /** The mean of values in [lo, hi] lies in [lo, hi]. */
  lemma MeanBounds(s: seq<real>, lo: real, hi: real)
    requires |s| > 0 && AllIn(s, lo, hi)
    ensures lo <= Mean(s) <= hi
  {
    SumBounds(s, lo, hi);
    DivBetween(Sum(s), |s| as real, lo, hi);
  }

  /** Every value lies between the minimum and the maximum, and both are values. */
  lemma {:induction false} MinMaxBounds(s: seq<real>)
    requires |s| > 0
    ensures AllIn(s, MinOf(s), MaxOf(s))
    ensures MinOf(s) in s && MaxOf(s) in s
  {
    if |s| > 1 {
      MinMaxBounds(s[..|s| - 1]);
    }
  }

  /** The mean lies between the minimum and the maximum. */
  lemma MeanBetweenExtremes(s: seq<real>)
    requires |s| > 0
    ensures MinOf(s) <= Mean(s) <= MaxOf(s)
  {
    MinMaxBounds(s);
    MeanBounds(s, MinOf(s), MaxOf(s));
  }

  lemma {:induction false} SumNonNegative(s: seq<real>)
    requires forall k :: 0 <= k < |s| ==> s[k] >= 0.0
    ensures Sum(s) >= 0.0
  {
    if s != [] {
      SumNonNegative(s[..|s| - 1]);
    }
  }

  /** The variance is never negative. */
  lemma VarianceNonNegative(s: seq<real>)
    ensures Variance(s) >= 0.0
  {
    var mean := Mean(s);
    var d := SquaredDeviations(s, mean);
    forall k | 0 <= k < |d|
      ensures d[k] >= 0.0
    {
      var x := s[k] - mean;
      assert d[k] == x * x;
      if x < 0.0 {
        assert x * x == (-x) * (-x);
      }
    }
    SumNonNegative(d);
  }
}
