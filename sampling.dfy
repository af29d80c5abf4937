/** The frame sampler: `np.linspace(0, total - 1, min(sample_rate, total), dtype=int)`. */
module Sampling {
  /** How many frames are sampled; a negative count makes `np.linspace` raise. */
  function SampleCount(sampleRate: int, totalFrames: int): (c: int)
    ensures c <= sampleRate && c <= totalFrames && (c == sampleRate || c == totalFrames)
  {
    if sampleRate <= totalFrames then sampleRate else totalFrames
  }

  /** The n evenly spaced indices from 0 to total - 1, truncated to integers;
      for n = 1 the single index is the start, 0. */
  function SampleIndices(totalFrames: nat, n: nat): (r: seq<int>)
    requires n <= totalFrames
    ensures |r| == n
  {
    seq(n, k requires 0 <= k < n => if n == 1 then 0 else k * (totalFrames - 1) / (n - 1))
  }

  lemma MulMonotone(d: int, a: int, b: int)
    requires 0 <= d && a <= b
    ensures d * a <= d * b
  {
    assert d * b - d * a == d * (b - a);
  }

  /** The quotient is determined by any decomposition x == d * q + r with 0 <= r < d. */
  lemma DivUnique(x: int, d: int, q: int, r: int)
    requires 0 < d && 0 <= r < d && x == d * q + r
    ensures x / d == q
  {
    var q', r' := x / d, x % d;
    assert x == d * q' + r';
    if q' < q {
      MulMonotone(d, q' + 1, q);
    } else if q' > q {
      MulMonotone(d, q + 1, q');
    }
  }

  lemma DivMonotone(a: int, b: int, d: int)
    requires 0 <= a <= b && 0 < d
    ensures a / d <= b / d
  {
    var qa, qb := a / d, b / d;
    assert a == d * qa + a % d;
    assert b == d * qb + b % d;
    if qa > qb {
      MulMonotone(d, qb + 1, qa);
    }
  }

  /** Adding at least one divisor to the numerator raises the quotient. */
  lemma DivStep(a: int, b: int, d: int)
    requires 0 <= a && 0 < d <= b
    ensures (a + b) / d >= a / d + 1
  {
    DivMonotone(a + d, a + b, d);
    assert a == d * (a / d) + a % d;
    DivUnique(a + d, d, a / d + 1, a % d);
  }

  /** For 1 <= n <= total the sampler yields n strictly increasing indices in
      [0, total), the first 0 and, for n >= 2, the last total - 1. */
  lemma IndicesIncreasing(totalFrames: nat, n: nat)
    requires 1 <= n <= totalFrames
    ensures var r := SampleIndices(totalFrames, n);
      r[0] == 0
      && (n >= 2 ==> r[n - 1] == totalFrames - 1)
      && (forall k :: 0 <= k < n ==> 0 <= r[k] < totalFrames)
      && (forall i, j :: 0 <= i < j < n ==> r[i] < r[j])
  {
    var r := SampleIndices(totalFrames, n);
    if n >= 2 {
      var t, d := totalFrames - 1, n - 1;
      assert r[n - 1] == d * t / d;
      DivUnique(d * t, d, t, 0);
      forall k | 0 <= k < n
        ensures 0 <= r[k] < totalFrames
      {
        assert r[k] == k * t / d;
        MulMonotone(t, k, d);
        assert k * t <= d * t;
        DivMonotone(k * t, d * t, d);
        DivUnique(d * t, d, t, 0);
      }
      forall i, j | 0 <= i < j < n
        ensures r[i] < r[j]
      {
        assert j * t == i * t + (j - i) * t;
        MulMonotone(t, 1, j - i);
        assert (j - i) * t >= t;
        MulMonotone(t, 0, i);
        DivStep(i * t, (j - i) * t, d);
      }
    }
  }
}
