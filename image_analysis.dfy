/** Image analysis: the result map filled detector by detector in the
    weight table's order, inside one try block, and the score of one image. */
module ImageAnalysis {
  import opened Wrappers
  import opened DetectionMethods
  import opened Grids
  import Frequency
  import Facial
  import Compression
  import Color
  import Classifier
  import FrameScoring
  import Verdict

  /** What the foreign calls yield for one image of height x width pixels: the
      classifier's outcome, the shifted magnitude spectrum, the luma channel,
      the detected faces with their measurements and the colour balance; and,
      when one of them raises, the heuristic whose call raises. */
  datatype Frame = Frame(
    height: nat,
    width: nat,
    classifier: Classifier.Outcome,
    spectrum: seq<seq<real>>,
    luma: seq<seq<int>>,
    faces: seq<Facial.Face>,
    colorBalance: real,
    raisesAt: Option<Method>)

  /** The spectrum and the luma channel have the image's shape. The classifier
      catches its own exceptions, so only a heuristic can raise. */
  predicate WellFormed(f: Frame)
  {
    |f.spectrum| == f.height && IsGrid(f.spectrum, f.width)
    && |f.luma| == f.height && IsGrid(f.luma, f.width)
    && f.raisesAt != Some(MlModel)
  }

  /** True when the try block reaches heuristic m: no detector raises, or the
      one that raises comes later in the table. */
  predicate Reached(f: Frame, m: Method)
  {
    f.raisesAt.None? || Rank(m) < Rank(f.raisesAt.value)
  }

  /** The result of method m on the frame. */
  function DetectorResult(f: Frame, m: Method): MethodResult
    requires WellFormed(f)
  {
    match m
    case MlModel => Classifier.Detect(true, f.classifier)
    case FrequencyAnalysis => Frequency.ResultOf(f.spectrum, f.width)
    case FacialConsistency => Facial.ResultOf(f.faces, f.height, f.width)
    case CompressionArtifacts => Compression.ResultOf(f.luma, f.width)
    case ColorAnalysis => Color.ResultOf(f.colorBalance)
  }

  /** The result map of one image: the classifier's entry exactly when the
      model is available, each heuristic's entry exactly when the try block
      reaches it, and every entry its detector's result. */
  function Analysis(mlAvailable: bool, f: Frame): (a: FrameAnalysis)
    requires WellFormed(f)
    ensures MlModel in a <==> mlAvailable
    ensures forall m :: m != MlModel ==> (m in a <==> Reached(f, m))
    ensures forall m :: m in a ==> a[m] == DetectorResult(f, m)
  {
    map m | m in AllMethods && (if m == MlModel then mlAvailable else Reached(f, m)) :: DetectorResult(f, m)
  }

  /** The map after the first k rows of the table have been tried: the
      classifier's entry when the model is available, and the heuristics of
      rank below k. */
  function Partial(mlAvailable: bool, f: Frame, k: nat): (a: FrameAnalysis)
    requires WellFormed(f)
    ensures forall m :: m in a <==> if m == MlModel then mlAvailable else Rank(m) < k
    ensures forall m :: m in a ==> a[m] == DetectorResult(f, m)
  {
    map m | m in AllMethods && (if m == MlModel then mlAvailable else Rank(m) < k) :: DetectorResult(f, m)
  }

  lemma PartialStart(mlAvailable: bool, f: Frame)
    requires WellFormed(f)
    ensures Partial(mlAvailable, f, 1)
      == if mlAvailable then map[MlModel := Classifier.Detect(true, f.classifier)] else map[]
  {
    var p := Partial(mlAvailable, f, 1);
    var q: FrameAnalysis := if mlAvailable then map[MlModel := Classifier.Detect(true, f.classifier)] else map[];
    forall m
      ensures m in p <==> m in q
    {
      if m != MlModel {
        assert Rank(m) != 0 by { RankOfPosition(0); }
      }
    }
    SameAnalysis(p, q);
  }

  /** Storing the result of row k extends the map of the first k rows to the
      map of the first k + 1. */
  lemma PartialStep(mlAvailable: bool, f: Frame, k: nat)
    requires WellFormed(f) && 1 <= k < |AllMethods|
    ensures Partial(mlAvailable, f, k)[AllMethods[k] := DetectorResult(f, AllMethods[k])]
      == Partial(mlAvailable, f, k + 1)
  {
    RankOfPosition(k);
    RankOfPosition(0);
    var p := Partial(mlAvailable, f, k)[AllMethods[k] := DetectorResult(f, AllMethods[k])];
    SameAnalysis(p, Partial(mlAvailable, f, k + 1));
  }

  /** The try block stops at the rank of the raising heuristic, or runs the
      whole table. */
  lemma PartialIsAnalysis(mlAvailable: bool, f: Frame, k: nat)
    requires WellFormed(f)
    requires k == if f.raisesAt.None? then |AllMethods| else Rank(f.raisesAt.value)
    ensures Partial(mlAvailable, f, k) == Analysis(mlAvailable, f)
  {
    SameAnalysis(Partial(mlAvailable, f, k), Analysis(mlAvailable, f));
  }

  /** `analyze_image`: fills the map key by key; an exception in a heuristic
      leaves the keys written so far and skips the rest. */
  method AnalyzeImage(mlAvailable: bool, f: Frame) returns (results: FrameAnalysis)
    requires WellFormed(f)
    ensures results == Analysis(mlAvailable, f)
  {
    results := map[];
    if mlAvailable {
      results := results[MlModel := Classifier.Detect(true, f.classifier)];
    }
    PartialStart(mlAvailable, f);
    if f.raisesAt == Some(FrequencyAnalysis) {
      PartialIsAnalysis(mlAvailable, f, 1);
      return;
    }
    var frequency := Frequency.Analyze(f.spectrum, f.width);
    PartialStep(mlAvailable, f, 1);
    results := results[FrequencyAnalysis := frequency];
    if f.raisesAt == Some(FacialConsistency) {
      PartialIsAnalysis(mlAvailable, f, 2);
      return;
    }
    var facial := Facial.Analyze(f.faces, f.height, f.width);
    PartialStep(mlAvailable, f, 2);
    results := results[FacialConsistency := facial];
    if f.raisesAt == Some(CompressionArtifacts) {
      PartialIsAnalysis(mlAvailable, f, 3);
      return;
    }
    var compression := Compression.Analyze(f.luma, f.width);
    PartialStep(mlAvailable, f, 3);
    results := results[CompressionArtifacts := compression];
    if f.raisesAt == Some(ColorAnalysis) {
      PartialIsAnalysis(mlAvailable, f, 4);
      return;
    }
    PartialStep(mlAvailable, f, 4);
    results := results[ColorAnalysis := Color.ResultOf(f.colorBalance)];
    PartialIsAnalysis(mlAvailable, f, 5);
  }

  /** Two result maps that agree on every key and value are the same map. */
  lemma SameAnalysis(a: FrameAnalysis, b: FrameAnalysis)
    requires forall m :: m in a <==> m in b
    requires forall m :: m in a ==> a[m] == b[m]
    ensures a == b
  {
  }

  /** The measurements are what their foreign calls can produce: non-negative
      magnitudes, a non-negative colour balance and a softmax row. */
  predicate Plausible(f: Frame)
  {
    Frequency.NonNegative(f.spectrum) && f.colorBalance >= 0.0
    && (f.classifier.Softmax? && |f.classifier.probs| > 0 ==> Classifier.IsDistribution(f.classifier.probs))
  }

  /** Every detector's score lies in [0, 1]. */
  lemma DetectorScoresInUnit(f: Frame, m: Method)
    requires WellFormed(f) && Plausible(f)
    ensures 0.0 <= DetectorResult(f, m).score <= 1.0
  {
    match m
    case MlModel =>
      if f.classifier.Softmax? && |f.classifier.probs| > 0 {
        Classifier.SoftmaxVerdict(f.classifier.probs);
      }
    case FrequencyAnalysis =>
    case FacialConsistency => Facial.ScoreBounds(f.faces, f.height, f.width);
    case CompressionArtifacts => Compression.ScoreInUnit(f.luma, f.width);
    case ColorAnalysis =>
  }

  /** The score of an image lies in [0, 1], and without the classifier it
      stays at or below 0.55. */
  lemma ImageScoreBounds(mlAvailable: bool, f: Frame)
    requires WellFormed(f) && Plausible(f)
    ensures ScoresInUnit(Analysis(mlAvailable, f))
    ensures 0.0 <= FrameScoring.FrameScore(Analysis(mlAvailable, f)) <= 1.0
    ensures !mlAvailable ==> FrameScoring.FrameScore(Analysis(mlAvailable, f)) <= 0.55
  {
    var a := Analysis(mlAvailable, f);
    forall m | m in a
      ensures 0.0 <= a[m].score <= 1.0
    {
      DetectorScoresInUnit(f, m);
    }
    FrameScoring.FrameScoreInUnit(a);
    if !mlAvailable {
      FrameScoring.NoClassifierCeiling(a);
    }
  }

  /** A frame with no band energy, constant luma, no face, balanced channels,
      no classifier and no exception. A uniform grey frame has all of its energy
      in the constant term, which `fftshift` puts at (h / 2, w / 2); that cell
      is outside the band when neither dimension is 1, 2 or 4, and then the
      frame meets these conditions. The frequency detector sees a ratio of 0
      and reports its maximal score, so without the classifier the frame
      scores 0.2 rather than 0, which still reads as likely authentic. */
  lemma UniformFrameScore(f: Frame, level: int)
    requires WellFormed(f) && f.raisesAt.None?
    requires Frequency.BandEnergy(f.spectrum, f.width, |f.spectrum|) == 0.0
    requires Compression.Uniform(f.luma, level)
    requires f.faces == [] && f.colorBalance == 0.0
    ensures DetectorResult(f, FrequencyAnalysis).score == 1.0
    ensures FrameScoring.FrameScore(Analysis(false, f)) == 0.2
    ensures Verdict.VerdictOf(FrameScoring.FrameScore(Analysis(false, f))) == "LIKELY AUTHENTIC"
  {
    var a := Analysis(false, f);
    Frequency.NoBandEnergyIsSuspicious(f.spectrum, f.width);
    Compression.UniformScoresZero(f.luma, f.width, level);
    assert a.Keys == {FrequencyAnalysis, FacialConsistency, CompressionArtifacts, ColorAnalysis};
    FrameScoring.SumOverTable(a);
  }
}
