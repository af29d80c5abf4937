/** Video analysis: sample frames evenly, analyse and score each frame that
    decodes, and aggregate the frame scores with the temporal-coherence score
    into one verdict, statistics, a per-method breakdown and the suspicious segments. */
module Video {
  import opened Wrappers
  import opened DetectionMethods
  import opened ImageAnalysis
  import FrameScoring
  import Sampling
  import Temporal
  import ScoreStatistics
  import Verdict

  /** What the decoder offers: whether the file opened, the frame count and
      frame rate it reports, and for every index whose seek-and-read succeeds
      the decoded frame. */
  datatype Source = Source(isOpened: bool, totalFrames: int, fps: real, frames: map<int, Frame>)

  predicate ValidSource(v: Source)
  {
    forall i :: i in v.frames ==> WellFormed(v.frames[i])
  }

  /** One entry of `frame_by_frame`. */
  datatype FrameRecord = FrameRecord(frameNumber: int, timestamp: real, score: real, details: FrameAnalysis)

  /** One entry of the suspicious-frame list. */
  datatype Segment = Segment(frame: int, timestamp: real, confidence: real)

  datatype VideoInfo = VideoInfo(totalFrames: int, fps: real, durationSeconds: real, framesAnalyzed: nat)

  datatype OverallAnalysis = OverallAnalysis(deepfakeProbability: real, confidenceScore: real, verdict: string, riskLevel: string)

  datatype Statistics = Statistics(meanScore: real, maxScore: real, minScore: real, scoreVariance: real, suspiciousFrameCount: nat)

  datatype MethodSummary = MethodSummary(averageScore: real, weight: real, contribution: real)

  datatype Report = Report(
    videoInfo: VideoInfo,
    overallAnalysis: OverallAnalysis,
    statistics: Statistics,
    methodBreakdown: map<Method, MethodSummary>,
    suspiciousSegments: seq<Segment>,
    frameByFrame: seq<FrameRecord>)

  /** Why a video analysis raises instead of returning a report. */
  datatype VideoError = CouldNotOpen | NegativeSampleCount | NoFramesDecoded

  const SuspiciousThreshold: real := 0.6
  const MaxSegments: nat := 10

  function Timestamp(index: int, fps: real): real
  {
    if fps > 0.0 then index as real / fps else 0.0
  }

  /** The record of a frame that decodes. */
  function RecordOf(mlAvailable: bool, v: Source, index: int): FrameRecord
    requires ValidSource(v) && index in v.frames
  {
    var a := Analysis(mlAvailable, v.frames[index]);
    FrameRecord(index, Timestamp(index, v.fps), FrameScoring.FrameScore(a), a)
  }

  /** The records of the sampled indices whose read succeeds, in sampling order. */
  function Records(mlAvailable: bool, v: Source, indices: seq<int>): seq<FrameRecord>
    requires ValidSource(v)
  {
    if indices == [] then []
    else
      var last := indices[|indices| - 1];
      Records(mlAvailable, v, indices[..|indices| - 1])
        + (if last in v.frames then [RecordOf(mlAvailable, v, last)] else [])
  }

  function Scores(rs: seq<FrameRecord>): (s: seq<real>)
    ensures |s| == |rs|
  {
    seq(|rs|, k requires 0 <= k < |rs| => rs[k].score)
  }

  function SegmentOf(r: FrameRecord): Segment
  {
    Segment(r.frameNumber, r.timestamp, r.score)
  }

  /** The suspicious-frame list: every record scoring above 0.6, in order. */
  function Suspicious(rs: seq<FrameRecord>): seq<Segment>
  {
    if rs == [] then []
    else
      Suspicious(rs[..|rs| - 1])
        + (if rs[|rs| - 1].score > SuspiciousThreshold then [SegmentOf(rs[|rs| - 1])] else [])
  }

  /** `s[:n]`. */
  function Take<T>(s: seq<T>, n: nat): (t: seq<T>)
    ensures |t| == if |s| <= n then |s| else n
    ensures t <= s
  {
    if |s| <= n then s else s[..n]
  }

  /** The scores method m reported, over the records where it is present, in order. */
  function ScoresFor(rs: seq<FrameRecord>, m: Method): seq<real>
  {
    if rs == [] then []
    else
      var r := rs[|rs| - 1];
      ScoresFor(rs[..|rs| - 1], m) + (if m in r.details then [r.details[m].score] else [])
  }

  /** A method's breakdown entry: its mean score, its weight and mean * weight * 100. */
  function Summary(m: Method, scores: seq<real>): MethodSummary
  {
    var average := ScoreStatistics.Mean(scores);
    MethodSummary(average, Weight(m), average * Weight(m) * 100.0)
  }

  /** `_get_method_breakdown`: an entry for each method present in some record. */
  method MethodBreakdown(rs: seq<FrameRecord>) returns (b: map<Method, MethodSummary>)
    ensures forall m :: m in b <==> ScoresFor(rs, m) != []
    ensures forall m :: m in b ==> b[m] == Summary(m, ScoresFor(rs, m))
  {
    b := map[];
    for i := 0 to |AllMethods|
      invariant forall m :: m in b <==> Rank(m) < i && ScoresFor(rs, m) != []
      invariant forall m :: m in b ==> b[m] == Summary(m, ScoresFor(rs, m))
    {
      var m := AllMethods[i];
      RankOfPosition(i);
      var scores: seq<real> := [];
      for j := 0 to |rs|
        invariant scores == ScoresFor(rs[..j], m)
      {
        if m in rs[j].details {
          scores := scores + [rs[j].details[m].score];
        }
        assert rs[..j + 1][..j] == rs[..j];
      }
      assert rs[..|rs|] == rs;
      if |scores| > 0 {
        var average := ScoreStatistics.Mean(scores);
        b := b[m := MethodSummary(average, Weight(m), average * Weight(m) * 100.0)];
      }
    }
  }

  /** The final probability: 0.85 of the mean frame score plus 0.15 of the temporal score. */
  function FinalScore(scores: seq<real>): real
  {
    ScoreStatistics.Mean(scores) * 0.85 + Temporal.Coherence(scores) * 0.15
  }

  /** The report the analyzer returns for n sampled frames. */
  predicate Describes(mlAvailable: bool, v: Source, sampleRate: int, rep: Report)
    requires ValidSource(v)
  {
    var n := Sampling.SampleCount(sampleRate, v.totalFrames);
    0 <= n <= v.totalFrames &&
    var frames := Records(mlAvailable, v, Sampling.SampleIndices(v.totalFrames, n));
    var scores := Scores(frames);
    var final := FinalScore(scores);
    |frames| > 0
    && rep.videoInfo == VideoInfo(v.totalFrames, v.fps, Timestamp(v.totalFrames, v.fps), |frames|)
    && rep.overallAnalysis == OverallAnalysis(final * 100.0, final, Verdict.VerdictOf(final), Verdict.RiskLevelOf(final))
    && rep.statistics == Statistics(ScoreStatistics.Mean(scores), ScoreStatistics.MaxOf(scores),
                                    ScoreStatistics.MinOf(scores), ScoreStatistics.Variance(scores),
                                    |Suspicious(frames)|)
    && (forall m :: m in rep.methodBreakdown <==> ScoresFor(frames, m) != [])
    && (forall m :: m in rep.methodBreakdown ==> rep.methodBreakdown[m] == Summary(m, ScoresFor(frames, m)))
    && rep.suspiciousSegments == Take(Suspicious(frames), MaxSegments)
    && rep.frameByFrame == frames
  }

  /** The frame loop of `analyze_video` over the sampled indices. */
  method AnalyzeFrames(mlAvailable: bool, v: Source, indices: seq<int>)
    returns (frames: seq<FrameRecord>, suspicious: seq<Segment>)
    requires ValidSource(v)
    ensures frames == Records(mlAvailable, v, indices)
    ensures suspicious == Suspicious(frames)
  {
    frames := [];
    suspicious := [];
    for k := 0 to |indices|
      invariant frames == Records(mlAvailable, v, indices[..k])
      invariant suspicious == Suspicious(frames)
    {
      var index := indices[k];
      assert indices[..k + 1][..k] == indices[..k];
      // a failed read skips the frame
      if index in v.frames {
        var analysis := AnalyzeImage(mlAvailable, v.frames[index]);
        var score := FrameScoring.CalculateFrameScore(analysis);
        var timestamp := Timestamp(index, v.fps);
        var record := FrameRecord(index, timestamp, score, analysis);
        assert (frames + [record])[..|frames|] == frames;
        frames := frames + [record];
        if score > SuspiciousThreshold {
          suspicious := suspicious + [Segment(index, timestamp, score)];
        }
      }
    }
    assert indices[..|indices|] == indices;
  }

  /** `analyze_video`. */
  method AnalyzeVideo(mlAvailable: bool, v: Source, sampleRate: int) returns (r: Result<Report, VideoError>)
    requires ValidSource(v)
    ensures r == Err(CouldNotOpen) <==> !v.isOpened
    ensures r == Err(NegativeSampleCount) <==> v.isOpened && Sampling.SampleCount(sampleRate, v.totalFrames) < 0
    ensures r == Err(NoFramesDecoded) <==>
      var n := Sampling.SampleCount(sampleRate, v.totalFrames);
      v.isOpened && 0 <= n && Records(mlAvailable, v, Sampling.SampleIndices(v.totalFrames, n)) == []
    ensures r.Ok? ==> v.isOpened && Describes(mlAvailable, v, sampleRate, r.value)
  {
    if !v.isOpened {
      return Err(CouldNotOpen);
    }
    var duration := Timestamp(v.totalFrames, v.fps);
    var n := Sampling.SampleCount(sampleRate, v.totalFrames);
    if n < 0 {
      return Err(NegativeSampleCount);
    }
    var indices := Sampling.SampleIndices(v.totalFrames, n);
    var frames, suspicious := AnalyzeFrames(mlAvailable, v, indices);
    var scores := Scores(frames);
    var overall := ScoreStatistics.Mean(scores);
    var variance := ScoreStatistics.Variance(scores);
    var temporal := Temporal.Coherence(scores);
    var final := overall * 0.85 + temporal * 0.15;
    if |scores| == 0 {
      // `np.max` of the empty score list raises
      return Err(NoFramesDecoded);
    }
    var breakdown := MethodBreakdown(frames);
    r := Ok(Report(
      VideoInfo(v.totalFrames, v.fps, duration, |frames|),
      OverallAnalysis(final * 100.0, final, Verdict.VerdictOf(final), Verdict.RiskLevelOf(final)),
      Statistics(overall, ScoreStatistics.MaxOf(scores), ScoreStatistics.MinOf(scores), variance, |suspicious|),
      breakdown,
      Take(suspicious, MaxSegments),
      frames));
  }

  /** Every record comes from a sampled index whose read succeeded, and
      records keep the order of strictly increasing indices. */
  lemma {:induction false} RecordsInOrder(mlAvailable: bool, v: Source, indices: seq<int>)
    requires ValidSource(v)
    requires forall i, j :: 0 <= i < j < |indices| ==> indices[i] < indices[j]
    ensures var rs := Records(mlAvailable, v, indices);
      |rs| <= |indices|
      && (forall k :: 0 <= k < |rs| ==> rs[k].frameNumber in indices && rs[k].frameNumber in v.frames)
      && (forall i, j :: 0 <= i < j < |rs| ==> rs[i].frameNumber < rs[j].frameNumber)
  {
    if indices != [] {
      var prefix := indices[..|indices| - 1];
      RecordsInOrder(mlAvailable, v, prefix);
      var rs := Records(mlAvailable, v, prefix);
      forall k | 0 <= k < |rs|
        ensures rs[k].frameNumber < indices[|indices| - 1]
      {
        var i :| 0 <= i < |prefix| && prefix[i] == rs[k].frameNumber;
      }
    }
  }

  /** Every decodable frame yields numbers its foreign calls can produce. */
  predicate PlausibleSource(v: Source)
  {
    forall i :: i in v.frames ==> WellFormed(v.frames[i]) && Plausible(v.frames[i])
  }

  /** Every frame score lies in [0, 1]; without the classifier at most 0.55. */
  lemma {:induction false} RecordScoresInUnit(mlAvailable: bool, v: Source, indices: seq<int>)
    requires ValidSource(v) && PlausibleSource(v)
    ensures ScoreStatistics.AllIn(Scores(Records(mlAvailable, v, indices)), 0.0, if mlAvailable then 1.0 else 0.55)
  {
    if indices != [] {
      var prefix := indices[..|indices| - 1];
      RecordScoresInUnit(mlAvailable, v, prefix);
      var last := indices[|indices| - 1];
      var rs := Records(mlAvailable, v, prefix);
      if last in v.frames {
        ImageScoreBounds(mlAvailable, v.frames[last]);
        ScoresAppend(rs, [RecordOf(mlAvailable, v, last)]);
      } else {
        assert Records(mlAvailable, v, indices) == rs;
      }
    }
  }

  lemma ScoresAppend(a: seq<FrameRecord>, b: seq<FrameRecord>)
    ensures Scores(a + b) == Scores(a) + Scores(b)
  {
  }

  /** The suspicious list holds exactly the records scoring above 0.6 (as
      segments), in record order. */
  lemma {:induction false} SuspiciousIsFilter(rs: seq<FrameRecord>)
    ensures var ss := Suspicious(rs);
      |ss| <= |rs|
      && (forall s :: s in ss ==> s.confidence > SuspiciousThreshold && exists k :: 0 <= k < |rs| && SegmentOf(rs[k]) == s)
      && (forall k :: 0 <= k < |rs| && rs[k].score > SuspiciousThreshold ==> SegmentOf(rs[k]) in ss)
  {
    if rs != [] {
      var prefix := rs[..|rs| - 1];
      SuspiciousIsFilter(prefix);
      forall s | s in Suspicious(rs)
        ensures exists k :: 0 <= k < |rs| && SegmentOf(rs[k]) == s
      {
        if s in Suspicious(prefix) {
          var k :| 0 <= k < |prefix| && SegmentOf(prefix[k]) == s;
          assert SegmentOf(rs[k]) == s;
        } else {
          assert SegmentOf(rs[|rs| - 1]) == s;
        }
      }
      forall k | 0 <= k < |rs| && rs[k].score > SuspiciousThreshold
        ensures SegmentOf(rs[k]) in Suspicious(rs)
      {
        if k < |prefix| {
          assert rs[k] == prefix[k];
        }
      }
    }
  }

  /** Suspicious segments keep the increasing frame order of the records. */
  lemma {:induction false} SuspiciousInOrder(rs: seq<FrameRecord>)
    requires forall i, j :: 0 <= i < j < |rs| ==> rs[i].frameNumber < rs[j].frameNumber
    ensures var ss := Suspicious(rs);
      (forall s :: s in ss ==> exists k :: 0 <= k < |rs| && rs[k].frameNumber == s.frame)
      && (forall i, j :: 0 <= i < j < |ss| ==> ss[i].frame < ss[j].frame)
  {
    if rs != [] {
      var prefix := rs[..|rs| - 1];
      SuspiciousInOrder(prefix);
      var ps := Suspicious(prefix);
      forall s | s in ps
        ensures s.frame < rs[|rs| - 1].frameNumber
      {
        var k :| 0 <= k < |prefix| && prefix[k].frameNumber == s.frame;
      }
      forall s | s in Suspicious(rs)
        ensures exists k :: 0 <= k < |rs| && rs[k].frameNumber == s.frame
      {
        if s in ps {
          var k :| 0 <= k < |prefix| && prefix[k].frameNumber == s.frame;
          assert rs[k].frameNumber == s.frame;
        } else {
          assert rs[|rs| - 1].frameNumber == s.frame;
        }
      }
    }
  }

  /** A method has a breakdown entry exactly when some record carries it, and
      with scores in [0, 1] its contribution lies in [0, 100 * weight]. */
  lemma {:induction false} BreakdownEntries(rs: seq<FrameRecord>, m: Method)
    ensures ScoresFor(rs, m) != [] <==> exists k :: 0 <= k < |rs| && m in rs[k].details
    ensures (forall k :: 0 <= k < |rs| ==> ScoresInUnit(rs[k].details)) ==>
      ScoreStatistics.AllIn(ScoresFor(rs, m), 0.0, 1.0)
  {
    if rs != [] {
      var prefix := rs[..|rs| - 1];
      BreakdownEntries(prefix, m);
      if exists k :: 0 <= k < |prefix| && m in prefix[k].details {
        var k :| 0 <= k < |prefix| && m in prefix[k].details;
        assert m in rs[k].details;
      }
      if exists k :: 0 <= k < |rs| && m in rs[k].details {
        var k :| 0 <= k < |rs| && m in rs[k].details;
        if k < |prefix| {
          assert m in prefix[k].details;
        }
      }
    }
  }

  lemma ContributionBounds(m: Method, scores: seq<real>)
    requires |scores| > 0 && ScoreStatistics.AllIn(scores, 0.0, 1.0)
    ensures 0.0 <= Summary(m, scores).averageScore <= 1.0
    ensures 0.0 <= Summary(m, scores).contribution <= 100.0 * Weight(m)
  {
    ScoreStatistics.MeanBounds(scores, 0.0, 1.0);
  }

  /** With frame scores in [0, 1] the final probability lies in [0, 1]. */
  lemma FinalScoreInUnit(scores: seq<real>)
    requires ScoreStatistics.AllIn(scores, 0.0, 1.0)
    ensures 0.0 <= FinalScore(scores) <= 1.0
  {
    if |scores| > 0 {
      ScoreStatistics.MeanBounds(scores, 0.0, 1.0);
    }
  }

  /** Frames all scoring 0.8 give a final probability of 0.68: likely fake, high risk. */
  lemma SteadyHighScores(scores: seq<real>)
    requires |scores| > 0 && forall k :: 0 <= k < |scores| ==> scores[k] == 0.8
    ensures FinalScore(scores) == 0.68
    ensures Verdict.VerdictOf(FinalScore(scores)) == "LIKELY FAKE"
    ensures Verdict.RiskLevelOf(FinalScore(scores)) == "HIGH"
  {
    ScoreStatistics.MeanBounds(scores, 0.8, 0.8);
    Temporal.ConstantIsCoherent(scores, 0.8);
  }

  /** What the frame records of a plausible source promise: ascending frame
      numbers and frame scores in [0, 1]. */
  lemma SampledRecords(mlAvailable: bool, v: Source, n: int)
    requires ValidSource(v) && PlausibleSource(v) && 0 <= n <= v.totalFrames
    ensures var frames := Records(mlAvailable, v, Sampling.SampleIndices(v.totalFrames, n));
      (forall i, j :: 0 <= i < j < |frames| ==> frames[i].frameNumber < frames[j].frameNumber)
      && ScoreStatistics.AllIn(Scores(frames), 0.0, 1.0)
  {
    var indices := Sampling.SampleIndices(v.totalFrames, n);
    if n >= 1 {
      Sampling.IndicesIncreasing(v.totalFrames, n);
    }
    RecordsInOrder(mlAvailable, v, indices);
    RecordScoresInUnit(mlAvailable, v, indices);
  }

  /** What the aggregation of frame records promises. */
  lemma AggregateProperties(frames: seq<FrameRecord>)
    requires |frames| > 0
    requires forall i, j :: 0 <= i < j < |frames| ==> frames[i].frameNumber < frames[j].frameNumber
    requires ScoreStatistics.AllIn(Scores(frames), 0.0, 1.0)
    ensures 0.0 <= FinalScore(Scores(frames)) <= 1.0
    ensures forall s :: s in Take(Suspicious(frames), MaxSegments) ==> s.confidence > SuspiciousThreshold
    ensures var segments := Take(Suspicious(frames), MaxSegments);
      forall i, j :: 0 <= i < j < |segments| ==> segments[i].frame < segments[j].frame
    ensures var scores := Scores(frames);
      0.0 <= ScoreStatistics.MinOf(scores) <= ScoreStatistics.Mean(scores)
        <= ScoreStatistics.MaxOf(scores) <= 1.0
  {
    var scores := Scores(frames);
    FinalScoreInUnit(scores);
    SuspiciousIsFilter(frames);
    SuspiciousInOrder(frames);
    var segments := Take(Suspicious(frames), MaxSegments);
    assert forall k :: 0 <= k < |segments| ==> segments[k] == Suspicious(frames)[k];
    ScoreStatistics.MeanBetweenExtremes(scores);
    ScoreStatistics.MinMaxBounds(scores);
  }

  /** What every report promises: a final probability in [0, 1] on the tier
      ladder, at most ten segments that are the first suspicious frames in
      frame order, and frame records in increasing frame order. */
  lemma ReportProperties(mlAvailable: bool, v: Source, sampleRate: int, rep: Report)
    requires ValidSource(v) && PlausibleSource(v)
    requires Describes(mlAvailable, v, sampleRate, rep)
    ensures 0.0 <= rep.overallAnalysis.confidenceScore <= 1.0
    ensures rep.overallAnalysis.verdict == Verdict.Verdicts[Verdict.Tier(rep.overallAnalysis.confidenceScore)]
    ensures rep.overallAnalysis.riskLevel == Verdict.RiskLevels[Verdict.Tier(rep.overallAnalysis.confidenceScore)]
    ensures |rep.suspiciousSegments| == if rep.statistics.suspiciousFrameCount <= MaxSegments
      then rep.statistics.suspiciousFrameCount else MaxSegments
    ensures rep.suspiciousSegments <= Suspicious(rep.frameByFrame)
    ensures forall s :: s in rep.suspiciousSegments ==> s.confidence > SuspiciousThreshold
    ensures forall i, j :: 0 <= i < j < |rep.suspiciousSegments| ==>
      rep.suspiciousSegments[i].frame < rep.suspiciousSegments[j].frame
    ensures forall i, j :: 0 <= i < j < |rep.frameByFrame| ==>
      rep.frameByFrame[i].frameNumber < rep.frameByFrame[j].frameNumber
    ensures 0.0 <= rep.statistics.minScore <= rep.statistics.meanScore <= rep.statistics.maxScore <= 1.0
  {
    var n := Sampling.SampleCount(sampleRate, v.totalFrames);
    SampledRecords(mlAvailable, v, n);
    AggregateProperties(rep.frameByFrame);
    var segments := rep.suspiciousSegments;
    assert segments == Take(Suspicious(rep.frameByFrame), MaxSegments);
    Verdict.SameTier(rep.overallAnalysis.confidenceScore);
  }
}
