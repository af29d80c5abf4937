/** The five detection methods of the analyzer, their fixed weights, and the
    shape of the result each method reports for one frame. */
module DetectionMethods {
  import opened Wrappers

  /** The keys of the analyzer's weight table. */
  datatype Method = MlModel | FrequencyAnalysis | FacialConsistency | CompressionArtifacts | ColorAnalysis

  /** The weight table's keys in the order the table lists them; every loop
      over the table visits the methods in this order. */
  const AllMethods: seq<Method> := [MlModel, FrequencyAnalysis, FacialConsistency, CompressionArtifacts, ColorAnalysis]

  /** Position of a method in the weight table. */
  function Rank(m: Method): (k: nat)
    ensures k < |AllMethods| && AllMethods[k] == m
  {
    match m
    case MlModel => 0
    case FrequencyAnalysis => 1
    case FacialConsistency => 2
    case CompressionArtifacts => 3
    case ColorAnalysis => 4
  }

  /** The table lists each method once. */
  lemma RankOfPosition(k: nat)
    requires k < |AllMethods|
    ensures Rank(AllMethods[k]) == k
  {
  }

  /** The fixed weight of each method. */
  function Weight(m: Method): real
  {
    match m
    case MlModel => 0.45
    case FrequencyAnalysis => 0.20
    case FacialConsistency => 0.15
    case CompressionArtifacts => 0.12
    case ColorAnalysis => 0.08
  }

  /** Sum of the weights of the listed methods. */
  function WeightTotal(ms: seq<Method>): real
  {
    if ms == [] then 0.0 else Weight(ms[0]) + WeightTotal(ms[1..])
  }

  /** The weights sum to one; without the classifier the four heuristic
      weights sum to 0.55. */
  lemma WeightsSumToOne()
    ensures WeightTotal(AllMethods) == 1.0
    ensures WeightTotal(AllMethods[1..]) == 0.55
    ensures forall m :: 0.0 < Weight(m) <= Weight(MlModel)
  {
    assert WeightTotal([ColorAnalysis]) == 0.08;
    assert WeightTotal([CompressionArtifacts, ColorAnalysis]) == 0.20;
    assert WeightTotal([FacialConsistency, CompressionArtifacts, ColorAnalysis]) == 0.35;
    assert WeightTotal(AllMethods[1..]) == 0.55;
  }

  /** The classifier's verdict label. */
  datatype Prediction = Fake | Real | Unknown | Error

  /** The diagnostic notes the facial detector collects, one per anomaly. */
  datatype FaceNote = UnusualEdgeDensity | SharpBoundaryTransition

  /** Fake and real probability as percentages. */
  datatype Probabilities = Probabilities(fakePercent: real, realPercent: real)

  /** The method-specific fields of a result. */
  datatype Detail =
    | ClassifierDetail(confidence: real, prediction: Prediction, probabilities: Option<Probabilities>)
    | FrequencyDetail(highFreqRatio: real)
    | FacialDetail(facesDetected: nat, notes: seq<FaceNote>)
    | CompressionDetail(artifactDensity: real)
    | ColorDetail(colorBalance: real)

  /** What one method reports for one frame. */
  datatype MethodResult = MethodResult(score: real, suspicious: bool, detail: Detail)

  /** The per-frame result map: a key is present only when its method ran. */
  type FrameAnalysis = map<Method, MethodResult>

  /** Every score present in the map lies in [0, 1]. */
  predicate ScoresInUnit(a: FrameAnalysis)
  {
    forall m :: m in a ==> 0.0 <= a[m].score <= 1.0
  }
}
