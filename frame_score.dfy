/** The frame scorer: a weighted sum over the methods present in a frame's
    result map, capped at one. A missing method adds nothing and the other
    weights are not renormalised. */
module FrameScoring {
  import opened DetectionMethods
  import opened Numeric

  /** What one method adds to the sum: its weighted score when present. */
  function Term(a: FrameAnalysis, m: Method): real
  {
    if m in a then a[m].score * Weight(m) else 0.0
  }

  /** The running total after visiting the methods of `ms` in order. */
  function WeightedSum(a: FrameAnalysis, ms: seq<Method>): real
  {
    if ms == [] then 0.0 else WeightedSum(a, ms[..|ms| - 1]) + Term(a, ms[|ms| - 1])
  }

  /** The score of one frame. */
  function FrameScore(a: FrameAnalysis): real
  {
    Min(WeightedSum(a, AllMethods), 1.0)
  }

  /** The scorer's loop over the weight table. */
  method CalculateFrameScore(a: FrameAnalysis) returns (score: real)
    ensures score == FrameScore(a)
    ensures score <= 1.0
  {
    var total := 0.0;
    for i := 0 to |AllMethods|
      invariant total == WeightedSum(a, AllMethods[..i])
    {
      var m := AllMethods[i];
      if m in a {
        total := total + a[m].score * Weight(m);
      }
      assert AllMethods[..i + 1][..i] == AllMethods[..i];
    }
    assert AllMethods[..|AllMethods|] == AllMethods;
    score := Min(total, 1.0);
  }

  /** The sum over the whole table is the sum of the five terms. */
  lemma SumOverTable(a: FrameAnalysis)
    ensures WeightedSum(a, AllMethods) ==
      Term(a, MlModel) + Term(a, FrequencyAnalysis) + Term(a, FacialConsistency)
      + Term(a, CompressionArtifacts) + Term(a, ColorAnalysis)
  {
    var s1, s2, s3, s4 := [MlModel], [MlModel, FrequencyAnalysis],
      [MlModel, FrequencyAnalysis, FacialConsistency],
      [MlModel, FrequencyAnalysis, FacialConsistency, CompressionArtifacts];
    assert s1[..0] == [] && s2[..1] == s1 && s3[..2] == s2 && s4[..3] == s3 && AllMethods[..4] == s4;
    assert WeightedSum(a, s1) == Term(a, MlModel);
    assert WeightedSum(a, s2) == WeightedSum(a, s1) + Term(a, FrequencyAnalysis);
    assert WeightedSum(a, s3) == WeightedSum(a, s2) + Term(a, FacialConsistency);
    assert WeightedSum(a, s4) == WeightedSum(a, s3) + Term(a, CompressionArtifacts);
  }

  /** With every present score in [0, 1] the frame score lies in [0, 1], and
      then the cap at one never changes the sum. */
  lemma FrameScoreInUnit(a: FrameAnalysis)
    requires ScoresInUnit(a)
    ensures 0.0 <= FrameScore(a) <= 1.0
    ensures FrameScore(a) == WeightedSum(a, AllMethods)
  {
    SumOverTable(a);
  }

  /** Without the classifier's entry the frame score cannot exceed 0.55, the
      sum of the four heuristic weights. */
  lemma NoClassifierCeiling(a: FrameAnalysis)
    requires ScoresInUnit(a)
    requires MlModel !in a
    ensures FrameScore(a) <= 0.55
  {
    SumOverTable(a);
  }

  /** No renormalisation: four heuristic scores of 0.5 and no classifier give 0.275. */
  lemma HeuristicsAtHalf(a: FrameAnalysis)
    requires a.Keys == {FrequencyAnalysis, FacialConsistency, CompressionArtifacts, ColorAnalysis}
    requires forall m :: m in a ==> a[m].score == 0.5
    ensures FrameScore(a) == 0.275
  {
    SumOverTable(a);
  }

  /** A missing method is excluded rather than scored: removing a method's
      entry takes exactly its weighted score out of the sum. */
  lemma AbsentMethodAddsNothing(a: FrameAnalysis, m: Method)
    ensures WeightedSum(a - {m}, AllMethods) == WeightedSum(a, AllMethods) - Term(a, m)
    ensures FrameScore(a - {m}) == Min(WeightedSum(a, AllMethods) - Term(a, m), 1.0)
  {
    SumOverTable(a);
    SumOverTable(a - {m});
  }

  /** Raising any present score never lowers the frame score. */
  lemma FrameScoreMonotone(a: FrameAnalysis, b: FrameAnalysis)
    requires a.Keys == b.Keys
    requires forall m :: m in a ==> a[m].score <= b[m].score
    ensures FrameScore(a) <= FrameScore(b)
  {
    SumOverTable(a);
    SumOverTable(b);
  }
}
