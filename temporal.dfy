/** Temporal coherence: how much the frame score moves between consecutive
    sampled frames, as the mean absolute step scaled by 1 / 0.3 and capped at 1. */
module Temporal {
  import opened Numeric

  /** Sum of |s[i+1] - s[i]| over consecutive pairs. */
  function StepSum(s: seq<real>): real
  {
    if |s| < 2 then 0.0 else StepSum(s[..|s| - 1]) + Abs(s[|s| - 1] - s[|s| - 2])
  }

  lemma {:induction false} StepSumNonNegative(s: seq<real>)
    ensures StepSum(s) >= 0.0
  {
    if |s| >= 2 {
      StepSumNonNegative(s[..|s| - 1]);
    }
  }

  /** `_temporal_coherence_analysis` on the ordered frame scores. */
  function Coherence(scores: seq<real>): (t: real)
    ensures 0.0 <= t <= 1.0
    ensures |scores| < 2 ==> t == 0.0
  {
    if |scores| < 2 then 0.0
    else
      StepSumNonNegative(scores);
      var meanStep := StepSum(scores) / (|scores| - 1) as real;
      Min(meanStep / 0.3, 1.0)
  }

  /** A sequence of equal scores has no steps. */
  lemma {:induction false} ConstantHasNoSteps(s: seq<real>, c: real)
    requires forall k :: 0 <= k < |s| ==> s[k] == c
    ensures StepSum(s) == 0.0
  {
    if |s| >= 2 {
      ConstantHasNoSteps(s[..|s| - 1], c);
    }
  }

  /** Constant scores are perfectly coherent. */
  lemma ConstantIsCoherent(s: seq<real>, c: real)
    requires forall k :: 0 <= k < |s| ==> s[k] == c
    ensures Coherence(s) == 0.0
  {
    ConstantHasNoSteps(s, c);
  }

  /** 0, 1, 0, 1, ... */
  predicate Alternating(s: seq<real>)
  {
    forall k :: 0 <= k < |s| ==> s[k] == (if k % 2 == 0 then 0.0 else 1.0)
  }

  /** Every step of 0, 1, 0, 1, ... is 1. */
  lemma {:induction false} AlternatingSteps(s: seq<real>)
    requires |s| >= 1 && Alternating(s)
    ensures StepSum(s) == (|s| - 1) as real
  {
    if |s| >= 2 {
      AlternatingSteps(s[..|s| - 1]);
      assert Abs(s[|s| - 1] - s[|s| - 2]) == 1.0;
    }
  }

  /** Scores 0, 1, 0, 1, ... of length two or more hit the cap of 1. */
  lemma AlternatingIsIncoherent(s: seq<real>)
    requires |s| >= 2 && Alternating(s)
    ensures Coherence(s) == 1.0
  {
    AlternatingSteps(s);
    assert StepSum(s) / (|s| - 1) as real == 1.0;
  }
}
