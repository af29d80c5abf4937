/** The learned classifier's post-processing: from the softmax output row to
    score, confidence and verdict, and the two paths that report nothing. */
module Classifier {
  import opened DetectionMethods
  import opened Numeric
  import ScoreStatistics
  import opened Wrappers

  /** What the classifier produced for one image: no model loaded, an exception
      somewhere in preprocessing or inference, or the softmax row of the image. */
  datatype Outcome = ModelMissing | Raised | Softmax(probs: seq<real>)

  /** A softmax row: every entry in [0, 1] and the entries sum to one. */
  predicate IsDistribution(probs: seq<real>)
  {
    (forall k :: 0 <= k < |probs| ==> 0.0 <= probs[k] <= 1.0) && ScoreStatistics.Sum(probs) == 1.0
  }

  /** The fake and real probability: the two entries of a two-class row, or the
      first entry and its complement for any other width. */
  function FakeAndReal(probs: seq<real>): (real, real)
    requires |probs| > 0
  {
    if |probs| == 2 then (probs[0], probs[1]) else (probs[0], 1.0 - probs[0])
  }

  /** The classifier's method result. Indexing an empty row raises, which the
      detector catches like any other exception. */
  function Detect(available: bool, out: Outcome): (r: MethodResult)
    ensures r.detail.ClassifierDetail?
    ensures r.detail.prediction in {Unknown, Error} <==>
      (!available || !out.Softmax? || |out.probs| == 0)
    ensures r.detail.prediction == Unknown <==> (!available || out.ModelMissing?)
    ensures r.detail.prediction in {Unknown, Error} ==>
      r.score == 0.0 && !r.suspicious && r.detail.confidence == 0.0 && r.detail.probabilities == None
    ensures r.suspicious <==> r.detail.prediction == Fake
  {
    if !available || out.ModelMissing? then
      MethodResult(0.0, false, ClassifierDetail(0.0, Unknown, None))
    else if out.Raised? || |out.probs| == 0 then
      MethodResult(0.0, false, ClassifierDetail(0.0, Error, None))
    else
      var (fake, realProb) := FakeAndReal(out.probs);
      var isFake := fake > realProb;
      MethodResult(fake, isFake,
        ClassifierDetail(Max(fake, realProb), if isFake then Fake else Real,
                         Some(Probabilities(fake * 100.0, realProb * 100.0))))
  }

  /** On a softmax row the score is the fake probability in [0, 1], the
      verdict is fake exactly when that probability exceeds one half, and the
      confidence is the larger of the two probabilities, at least one half. */
  lemma SoftmaxVerdict(probs: seq<real>)
    requires |probs| > 0 && IsDistribution(probs)
    ensures var r := Detect(true, Softmax(probs));
      r.score == probs[0] && 0.0 <= r.score <= 1.0
      && (r.suspicious <==> r.score > 0.5)
      && r.detail.confidence == Max(r.score, 1.0 - r.score) && r.detail.confidence >= 0.5
  {
    if |probs| == 2 {
      assert probs[..1][..0] == [];
      assert ScoreStatistics.Sum(probs[..1]) == probs[0];
      assert ScoreStatistics.Sum(probs) == probs[0] + probs[1];
    }
  }
}
