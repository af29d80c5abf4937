# TruthLens deepfake scoring engine in Dafny

This project models the scoring and aggregation engine of the TruthLens
`DeepfakeAnalyzer` class (`backend/main.py`) and proves properties of it.

The engine runs five detection methods on an image. Each method has a fixed
weight:

| method | weight |
|---|---|
| learned classifier | 0.45 |
| frequency-domain heuristic | 0.20 |
| facial-consistency heuristic | 0.15 |
| compression-artifact heuristic | 0.12 |
| colour-balance heuristic | 0.08 |

Each method yields a score in [0, 1] and a suspicious flag. The frame score
is the weighted sum of the scores that are present, capped at 1. For a
video, the engine:

- samples frames evenly;
- scores every frame that decodes;
- blends the mean frame score (0.85) with a temporal-coherence score (0.15);
- maps the result onto a five-tier verdict and risk ladder;
- reports statistics, a per-method breakdown and the first ten suspicious
  frames.

Modules, one per part of the analyzer:

- `DetectionMethods` (methods.dfy): the method enumeration, the weight table
  and the per-method result records.
- `FrameScoring` (frame_score.dfy): `_calculate_frame_score`, as a loop proved
  against the function `FrameScore`.
- `Frequency` (frequency.dfy): the band mask, written in place into an
  `array2`, the energy ratio and the ratio-to-score map.
- `Compression` (compression.dfy): the 8×8 block-boundary loop over an integer
  luma grid.
- `Facial` (facial.dfy): the per-face accumulator over face measurements.
- `Color` (color.dfy): the colour-balance clamp.
- `Classifier` (classifier.dfy): the classifier's post-processing, from the
  softmax row onward, and its failure paths.
- `ImageAnalysis` (image_analysis.dfy): `analyze_image`, which fills the result
  map in table order and stops at the first heuristic that raises.
- `Sampling` (sampling.dfy): the even frame sampler.
- `Temporal` (temporal.dfy): the temporal-coherence score.
- `ScoreStatistics` (stats.dfy): mean, max, min and variance of the frame scores.
- `Verdict` (verdict.dfy): the verdict and risk ladders.
- `Video` (video.dfy): `analyze_video` and `_get_method_breakdown`.

The model does not work on pixels. Each detector starts from what its
OpenCV or numpy calls produce:

- the frequency detector takes the shifted magnitude spectrum;
- the compression detector takes the Y channel;
- the facial detector takes, per detected face, its box, its edge density and
  the means of the face and of the two boundary strips;
- the colour detector takes the standard deviation of the three channel
  deviations;
- the classifier takes the softmax row, or the fact that no model is loaded or
  that an exception was raised.

An exception in one of the heuristic detectors is a field of the frame
(`raisesAt`). The video decoder is a map from frame index to decoded frame;
an index missing from the map is a failed read. Scores are exact `real`s.

Three behaviours of the code are worth stating plainly:

- **Frequency score at 1.0.** Above the normal band the score is
  `min((ratio - 0.35) / 0.25, 1)`, which reaches 1.0 at a ratio of 0.60 and
  is already 0.2 just above 0.40 (`Frequency.ScoreOfRatio`). The comment at
  `backend/main.py:318` places deepfakes at 0.40-0.60.
- **Uniform grey frame.** A frame whose spectrum has no energy in the band has
  ratio 0, so the frequency heuristic scores 1.0 and is suspicious. Without
  the classifier, a frame that is also constant in luma, has no face and is
  balanced in colour therefore scores 0.2, not 0. Its verdict is still
  "LIKELY AUTHENTIC" (`ImageAnalysis.UniformFrameScore`). With the classifier
  loaded it scores 0.2 + 0.45·p₀, where p₀ is the fake probability. A
  uniform frame's spectrum has no band energy whenever neither dimension is 1,
  2 or 4 (`Frequency.ShiftedOriginInCentre`).
- **Suspicious segments.** The comment at line 215 calls them the "top 10".
  The code keeps the first ten suspicious frames in sampling order: the
  report's segments are a prefix of all suspicious frames, at most ten long
  (`Video.ReportProperties`, `Video.Describes`).

## Model

| member | source | states |
|---|---|---|
| DetectionMethods.Rank | backend/main.py:90-96 | every method has a position in the weight table, and the method at that position is itself |
| DetectionMethods.RankOfPosition | backend/main.py:90-96 | the weight table lists each method once |
| DetectionMethods.Weight | backend/main.py:90-96 | the fixed weight of each method: 0.45, 0.20, 0.15, 0.12, 0.08 |
| DetectionMethods.WeightsSumToOne | backend/main.py:90-96 | the five weights sum to 1.0; the four heuristic weights sum to 0.55; every weight is positive and none exceeds the classifier's 0.45 |
| FrameScoring.Term | backend/main.py:474-475 | what one table row adds to the total: the method's score times its weight when the method is in the map, else 0 |
| FrameScoring.WeightedSum | backend/main.py:471-475 | the running total after the listed methods: the sum of weight·score over those present in the map |
| FrameScoring.FrameScore | backend/main.py:469-477 | the frame score: that sum over the whole table, capped at 1.0 |
| FrameScoring.CalculateFrameScore | backend/main.py:469-477 | the loop over the weight table returns the capped weighted sum `FrameScore` of the present methods, never above 1.0 |
| FrameScoring.SumOverTable | backend/main.py:469-477 | the weighted sum over the table is the sum of the five per-method terms, each 0 when its method is absent |
| FrameScoring.FrameScoreInUnit | backend/main.py:469-477 | when every present score lies in [0, 1], the frame score lies in [0, 1] and the cap never binds |
| FrameScoring.NoClassifierCeiling | backend/main.py:469-477 | with no classifier entry and scores in [0, 1], the frame score is at most 0.55, because no renormalisation happens |
| FrameScoring.HeuristicsAtHalf | backend/main.py:469-477 | the four heuristics at 0.5 with no classifier give exactly 0.275 |
| FrameScoring.AbsentMethodAddsNothing | backend/main.py:473-475 | removing a method's entry lowers the weighted sum by exactly that method's weighted score |
| FrameScoring.FrameScoreMonotone | backend/main.py:469-477 | raising any present score never lowers the frame score |
| Frequency.LowCut | backend/main.py:307-310 | the strip bound `int(n * 0.3)`, taken as ⌊3n/10⌋ |
| Frequency.HighCut | backend/main.py:307-310 | the strip bound `int(n * 0.7)`, taken as ⌊7n/10⌋ |
| Frequency.InCentre | backend/main.py:306-310 | a cell lies in the central rectangle ⌊0.3h⌋ ≤ r < ⌊0.7h⌋, ⌊0.3w⌋ ≤ c < ⌊0.7w⌋ that no strip reaches |
| Frequency.MaskedRow | backend/main.py:312 | the sum of the first n cells of a spectrum row, each multiplied by the mask cell in the same place |
| Frequency.MaskedEnergy | backend/main.py:312 | `np.sum(magnitude_spectrum * mask)` over the first k rows |
| Frequency.RowEnergy | backend/main.py:313 | the sum of the first n cells of a row |
| Frequency.TotalEnergy | backend/main.py:313 | `np.sum(magnitude_spectrum)` over the first k rows |
| Frequency.BandRow | backend/main.py:312 | the sum of the first n cells of row r that lie outside the central rectangle |
| Frequency.BandEnergy | backend/main.py:312 | the summed magnitude of the cells outside the central rectangle |
| Frequency.HighFreqRatio | backend/main.py:312-315 | the band energy over the total energy, or 0 when the total is not positive |
| Frequency.ResultOf | backend/main.py:315-328 | the detector's result: the ratio's score, suspicious when the score exceeds 0.5, with the ratio as detail |
| Frequency.ShiftedOriginInCentre | backend/main.py:298-310 | the shifted constant term at (h/2, w/2) is off the band exactly when neither dimension is 1, 2 or 4 |
| Frequency.SetRows | backend/main.py:307-308 | row-strip assignment: cells in rows [lo, min(hi, h)) become 1; every other cell is unchanged |
| Frequency.SetCols | backend/main.py:309-310 | column-strip assignment: cells in columns [lo, min(hi, w)) become 1; every other cell is unchanged |
| Frequency.BuildMask | backend/main.py:306-310 | the four strip writes give a fresh h×w mask that is 0 exactly inside the central rectangle ⌊0.3h⌋ ≤ r < ⌊0.7h⌋, ⌊0.3w⌋ ≤ c < ⌊0.7w⌋, and 1 elsewhere |
| Frequency.MaskedRowIsBand | backend/main.py:312 | multiplying a row by the built mask and summing gives exactly the energy of the row's cells outside the central rectangle |
| Frequency.MaskSelectsBand | backend/main.py:312 | `np.sum(magnitude * mask)` with the built mask is the energy of the band outside the central rectangle |
| Frequency.BandRowBounds | backend/main.py:312-313 | with non-negative magnitudes, a row's band energy lies between 0 and the row's total energy |
| Frequency.BandEnergyBounds | backend/main.py:312-313 | with non-negative magnitudes, the band energy lies between 0 and the total energy |
| Frequency.RatioInUnit | backend/main.py:312-315 | with non-negative magnitudes, the high-frequency ratio lies in [0, 1], and it is 0 when the total energy is 0 |
| Frequency.ScoreOfRatio | backend/main.py:319-323 | the score lies in [0, 1]; it is 0 iff the ratio is in [0.15, 0.40]; just above 0.40 it is already above 0.2; it is 1 iff the ratio is ≥ 0.60 or ≤ 0; it exceeds 0.5 iff the ratio is above 0.475 or below 0.075 |
| Frequency.Analyze | backend/main.py:302-330 | builds the mask, sums the band and the total, and returns the detector's result `ResultOf`; the score lies in [0, 1] and suspicious holds iff the score exceeds 0.5 |
| Frequency.NoBandEnergyIsSuspicious | backend/main.py:315-328 | a spectrum with no band energy, such as a zero-energy or uniform frame, has ratio 0, scores 1.0 and is suspicious |
| Facial.SliceLength | backend/main.py:364-365 | the length of the Python slice [start:stop] of a dimension of len items, with both ends clipped |
| Facial.TopStripSize | backend/main.py:364 | the element count of the slice of up to 5 rows above the face, over the face's columns, 3 channels |
| Facial.BottomStripSize | backend/main.py:365 | the element count of the slice of up to 5 rows below the face, clipped to the image, 3 channels |
| Facial.UnusualEdges | backend/main.py:359 | the edge density is above 0.15 or below 0.03 |
| Facial.SharpBoundary | backend/main.py:367-372 | both strips are non-empty, and the face mean differs from the average of the two strip means by more than 50 |
| Facial.FaceAnomaly | backend/main.py:359-374 | what one face adds: 0.3 for unusual edge density, plus 0.2 for a sharp boundary with both strips non-empty |
| Facial.TotalAnomaly | backend/main.py:348-374 | the accumulator after the listed faces: the sum of what each face adds |
| Facial.FaceNotes | backend/main.py:359-374 | the notes one face appends: the edge note, then the boundary note, each when its test holds |
| Facial.AllNotes | backend/main.py:349-374 | the `details` list after the listed faces: their notes concatenated in face order |
| Facial.ResultOf | backend/main.py:340-383 | zero faces: score 0, not suspicious, no notes; otherwise min(total anomaly / face count, 1), suspicious above 0.4, with the face count and the notes |
| Facial.Analyze | backend/main.py:340-383 | the loop over faces returns `ResultOf`: zero faces give score 0, not suspicious, no notes; otherwise the summed anomaly over the face count, capped at 1, with the collected notes |
| Facial.TotalAnomalyBounds | backend/main.py:351-374 | each face adds between 0 and 0.5, so n faces accumulate at most 0.5·n |
| Facial.ScoreBounds | backend/main.py:340-381 | the score lies in [0, 0.5], so the cap at 1.0 never binds; suspicious holds iff the score exceeds 0.4; zero faces score 0 |
| Facial.FaceAnomalyCases | backend/main.py:359-374 | a face adds 0, 0.2, 0.3 or 0.5; it adds at least 0.3 iff its edge density is above 0.15 or below 0.03; it adds 0.2 or 0.5 iff both boundary strips are non-empty and the face mean differs from the strip average by more than 50 |
| Facial.StripsInsideImage | backend/main.py:364-367 | for a face box inside the image, the 5-pixel top strip is non-empty iff y > 0, and the bottom strip is non-empty iff y + h is below the image height |
| Compression.Origin | backend/main.py:398-399 | the k-th block origin along a dimension, 8k |
| Compression.BoundarySum | backend/main.py:404-407 | the sum of the absolute differences between rows i + 8 and i + 7 over the first n columns from j |
| Compression.BoundaryDiff | backend/main.py:404-407 | the mean of those 8 absolute differences, the boundary sum over 8 |
| Compression.Flagged | backend/main.py:409 | the boundary below block (i, j) is visible: its mean difference exceeds 15 |
| Compression.FlaggedInRow | backend/main.py:399-410 | the `artifact_score` added by the first n blocks of the block row at i |
| Compression.FlaggedRows | backend/main.py:398-410 | the `artifact_score` after the first k block rows |
| Compression.BlockCount | backend/main.py:396-412 | the final `block_count`: blocks along the height times blocks along the width |
| Compression.BlocksAlong | backend/main.py:398-399 | the number of origins `range(0, n - 8, 8)` yields: 0 for n ≤ 8, else ⌊(n − 1)/8⌋ |
| Compression.ArtifactRatio | backend/main.py:414 | flagged blocks over visited blocks, or 0 when no block is visited |
| Compression.ResultOf | backend/main.py:414-422 | the detector's result: min(ratio / 0.1, 1), suspicious above 0.5, with the ratio as detail |
| Compression.OriginInRange | backend/main.py:398-399 | block k is visited iff its origin 8k is below n − 8, as `range(0, n - 8, 8)` yields |
| Compression.Analyze | backend/main.py:392-424 | the nested block loop returns `ResultOf`: the flagged-block count over the visited-block count, scored `min(ratio / 0.1, 1)`, suspicious above 0.5; every row and column read is in bounds, and the test `i + 8 < h` always holds |
| Compression.FlaggedIffSumAbove120 | backend/main.py:403-410 | a block is flagged iff its 8 absolute differences across the boundary into the next block row sum to more than 120, which is the same as a mean above 15 |
| Compression.FlaggedInRowBound | backend/main.py:399-412 | a block row has at most as many flagged blocks as blocks |
| Compression.FlaggedAtMostBlocks | backend/main.py:398-413 | the flagged count never exceeds the block count |
| Compression.ScoreInUnit | backend/main.py:414-422 | the artifact ratio and the score lie in [0, 1]; the score is `min(10 · ratio, 1)`; suspicious holds iff the ratio exceeds 0.05 |
| Compression.SmallImageScoresZero | backend/main.py:398-417 | an image 8 pixels high or wide or less has no blocks, scores 0 and is not suspicious |
| Compression.UniformBoundaryIsFlat | backend/main.py:404-407 | on a constant luma grid every block-boundary difference sum is 0 |
| Compression.UniformRowUnflagged | backend/main.py:399-411 | on a constant luma grid no block of a block row is flagged |
| Compression.UniformRowsUnflagged | backend/main.py:398-411 | on a constant luma grid no block is flagged |
| Compression.UniformScoresZero | backend/main.py:398-422 | a constant luma grid has artifact ratio 0, scores 0 and is not suspicious |
| Color.ResultOf | backend/main.py:444-449 | `min(balance / 30, 1)`: at most 1, non-negative for a non-negative balance, exactly 1 iff the balance is ≥ 30; suspicious iff balance > 18 (score > 0.6) |
| Classifier.IsDistribution | backend/main.py:252 | a softmax row: every entry in [0, 1], and the entries sum to 1 |
| Classifier.FakeAndReal | backend/main.py:255-261 | the fake and real probability: the two entries of a two-class row, or the first entry and its complement for any other width |
| Classifier.Detect | backend/main.py:219-290 | with no model, or no model object, the result is "unknown"; an exception (empty row included) gives "error"; both paths give score 0, confidence 0, not suspicious and no probabilities; in every case suspicious holds iff the prediction is fake |
| Classifier.SoftmaxVerdict | backend/main.py:255-268 | on a softmax row the score is the fake probability p₀ in [0, 1]; suspicious iff p₀ > 0.5; confidence is max(p₀, 1 − p₀), at least 0.5 |
| ImageAnalysis.Reached | backend/main.py:104-113 | the try block reaches heuristic m: no heuristic raises, or the one that raises comes later in the table |
| ImageAnalysis.DetectorResult | backend/main.py:107-112 | the detector each key is filled from, applied to the frame's measurements |
| ImageAnalysis.Analysis | backend/main.py:100-116 | the result map holds the classifier entry iff the model is available, and each heuristic iff the try block reaches it; every entry is its detector's result |
| ImageAnalysis.Partial | backend/main.py:104-112 | the map after the first k table rows: the classifier iff available, and the heuristics of rank below k, each with its detector's result |
| ImageAnalysis.PartialStart | backend/main.py:102-107 | before any heuristic runs, the map is empty or holds only the classifier's entry |
| ImageAnalysis.PartialStep | backend/main.py:109-112 | storing the next heuristic's result extends the map of k rows to the map of k + 1 rows |
| ImageAnalysis.PartialIsAnalysis | backend/main.py:113-116 | stopping at the raising heuristic, or at the end of the table, gives `Analysis` |
| ImageAnalysis.AnalyzeImage | backend/main.py:100-116 | filling the map key by key, and returning what was written when a heuristic raises, yields `Analysis` |
| ImageAnalysis.DetectorScoresInUnit | backend/main.py:219-451 | every detector's score lies in [0, 1] on measurements its foreign calls can produce |
| ImageAnalysis.ImageScoreBounds | backend/main.py:100-116 | every score in an image's map, and its frame score, lie in [0, 1]; without the classifier the frame score is at most 0.55 |
| ImageAnalysis.UniformFrameScore | backend/main.py:292-451 | a uniform grey frame with no face and no classifier gets frequency score 1.0 and frame score 0.2, verdict "LIKELY AUTHENTIC" |
| Sampling.SampleCount | backend/main.py:133 | `min(sample_rate, total_frames)`: at most both, and equal to one of them |
| Sampling.SampleIndices | backend/main.py:133 | the sampler returns exactly n indices |
| Sampling.IndicesIncreasing | backend/main.py:133 | for 1 ≤ n ≤ total, the indices start at 0; for n ≥ 2 they end at total − 1; all lie in [0, total) and strictly increase |
| Temporal.StepSum | backend/main.py:461 | the sum of the absolute differences between consecutive scores |
| Temporal.StepSumNonNegative | backend/main.py:461 | the sum of absolute consecutive differences is never negative |
| Temporal.Coherence | backend/main.py:453-467 | the temporal score lies in [0, 1], and it is 0 for fewer than two frames |
| Temporal.ConstantHasNoSteps | backend/main.py:461 | a constant score sequence has no consecutive differences |
| Temporal.ConstantIsCoherent | backend/main.py:453-467 | a constant score sequence has temporal score 0 |
| Temporal.AlternatingSteps | backend/main.py:461 | the sequence 0, 1, 0, 1, … has a step of 1 between every pair of neighbours |
| Temporal.AlternatingIsIncoherent | backend/main.py:453-467 | the sequence 0, 1, 0, 1, … has temporal score 1.0 |
| ScoreStatistics.Sum | backend/main.py:178 | the sum of the scores, in order |
| ScoreStatistics.Mean | backend/main.py:178 | `np.mean`: the sum over the count, 0 for no scores as the guard gives |
| ScoreStatistics.MaxOf | backend/main.py:209 | `np.max` of a non-empty list |
| ScoreStatistics.MinOf | backend/main.py:210 | `np.min` of a non-empty list |
| ScoreStatistics.Variance | backend/main.py:179 | `np.var`: the mean squared deviation from the mean |
| ScoreStatistics.SumBounds | backend/main.py:178 | n values in [lo, hi] sum to between n·lo and n·hi |
| ScoreStatistics.MeanBounds | backend/main.py:178 | the mean of values in [lo, hi] lies in [lo, hi] |
| ScoreStatistics.MinMaxBounds | backend/main.py:209-210 | every value lies between `np.min` and `np.max`, and both are values of the sequence |
| ScoreStatistics.MeanBetweenExtremes | backend/main.py:208-210 | the mean lies between the minimum and the maximum |
| ScoreStatistics.SumNonNegative | backend/main.py:179 | non-negative values have a non-negative sum |
| ScoreStatistics.VarianceNonNegative | backend/main.py:179 | the variance is never negative |
| Verdict.VerdictOf | backend/main.py:498-509 | each verdict is returned exactly on its interval: [0.75, ∞), [0.60, 0.75), [0.40, 0.60), [0.25, 0.40), (−∞, 0.25) |
| Verdict.RiskLevelOf | backend/main.py:511-522 | each risk level is returned exactly on the same five intervals; the risk is HIGH or CRITICAL exactly when the score reaches 0.60, the bound of the two fake verdicts |
| Verdict.Tier | backend/main.py:498-522 | the tier index is below 5; it is 0 iff the score is below 0.25 and 4 iff the score is at least 0.75 |
| Verdict.SameTier | backend/main.py:498-522 | the verdict and the risk level always come from the same tier |
| Verdict.TierMonotone | backend/main.py:498-522 | a higher score never gives a lower tier |
| Verdict.Examples | backend/main.py:498-522 | 0.68 gives LIKELY FAKE/HIGH; 0.275 gives POSSIBLY AUTHENTIC/LOW; each lower bound is inclusive |
| Video.Timestamp | backend/main.py:155 | `idx / fps` when fps is positive, else 0; also the duration at line 127 |
| Video.SegmentOf | backend/main.py:166-170 | the suspicious-frame entry of a record: its frame number, timestamp and score as confidence |
| Video.RecordOf | backend/main.py:147-162 | the record of a decoded frame: its index, timestamp, frame score and result map |
| Video.Records | backend/main.py:139-162 | the records of the sampled indices that decode, in sampling order |
| Video.Suspicious | backend/main.py:164-170 | the segments of the records scoring above 0.6, in record order |
| Video.ScoresFor | backend/main.py:484-487 | the scores one method reported, over the records carrying it, in order |
| Video.Summary | backend/main.py:489-494 | a breakdown entry: the mean score, the weight and mean·weight·100 |
| Video.FinalScore | backend/main.py:190 | 0.85 · mean frame score + 0.15 · temporal score |
| Video.Describes | backend/main.py:194-217 | the report for a source: video info, final score with its verdict and risk, statistics, breakdown, the first ten suspicious segments, and the records |
| Video.Scores | backend/main.py:177 | the score list has one entry per frame record |
| Video.Take | backend/main.py:215 | `s[:n]` has length min(\|s\|, n) and is a prefix of s |
| Video.MethodBreakdown | backend/main.py:479-496 | the breakdown has an entry for a method iff some record carries it; each entry is the mean, the weight and mean·weight·100 |
| Video.AnalyzeFrames | backend/main.py:139-170 | the frame loop returns the records of the indices that decode, in sampling order, and the segments of the records scoring above 0.6 |
| Video.AnalyzeVideo | backend/main.py:118-217 | an unopened file fails with CouldNotOpen; a negative sample count, from a negative frame count or sample rate, fails with NegativeSampleCount; zero decoded frames fail with NoFramesDecoded; otherwise the report is exactly `Describes` |
| Video.RecordsInOrder | backend/main.py:139-162 | for strictly increasing indices, the records have strictly increasing frame numbers; each comes from a sampled index that decodes; there are at most as many as indices |
| Video.RecordScoresInUnit | backend/main.py:139-162 | on a plausible source every frame score lies in [0, 1], and in [0, 0.55] without the classifier |
| Video.ScoresAppend | backend/main.py:177 | the score list of two concatenated record lists is the concatenation of their score lists |
| Video.SuspiciousIsFilter | backend/main.py:164-170 | every suspicious segment comes from a record and has confidence above 0.6; every record scoring above 0.6 appears as a segment |
| Video.SuspiciousInOrder | backend/main.py:164-170 | segments keep the increasing frame order of the records |
| Video.BreakdownEntries | backend/main.py:483-489 | a method's score list is non-empty iff some record carries the method; with scores in [0, 1], every listed score lies in [0, 1] |
| Video.ContributionBounds | backend/main.py:489-494 | with scores in [0, 1], a method's average lies in [0, 1] and its contribution in [0, 100·weight] |
| Video.FinalScoreInUnit | backend/main.py:190 | with frame scores in [0, 1], 0.85·mean + 0.15·temporal lies in [0, 1] |
| Video.SteadyHighScores | backend/main.py:178-205 | frames that all score 0.8 give final score 0.68: LIKELY FAKE, HIGH risk |
| Video.SampledRecords | backend/main.py:133-162 | on a plausible source, the records of the sampled indices have ascending frame numbers and scores in [0, 1] |
| Video.AggregateProperties | backend/main.py:177-215 | for non-empty ascending records with scores in [0, 1]: the final score lies in [0, 1]; the kept segments score above 0.6 and ascend by frame; 0 ≤ min ≤ mean ≤ max ≤ 1 |
| Video.ReportProperties | backend/main.py:194-217 | every report of a plausible source satisfies the following: confidence in [0, 1]; verdict and risk from the same tier; min(10, count) segments forming a prefix of all suspicious frames, all above 0.6 and in frame order; ascending frame records; 0 ≤ min ≤ mean ≤ max ≤ 1 |

## Left out

- HTTP layer (FastAPI endpoints, CORS, uploads, temporary files, the yt-dlp download, the thread-pool offload): I/O, transport and concurrency.
- Model loading and the global model cache: foreign library state. Only whether a model is available is kept.
- Classifier preprocessing (colour conversion, resize, processor call), torch inference and softmax: foreign calls. The classifier starts from the softmax row.
- OpenCV and numpy primitives: foreign calls with floating-point numerics. Their outputs are inputs:
  - colour conversions;
  - FFT, `fftshift` and `abs`;
  - `Canny` and the edge density;
  - the Haar cascade face detector;
  - `VideoCapture` open, seek and read;
  - `np.std` in the colour detector.
- Compression.Analyze: the unused `block` slice is not modelled, since nothing reads it.
- FrameScoring.FrameScore: sums each detector's exact score. The source stores each detector's score rounded to 3 decimals (`backend/main.py:271, 326, 379, 420, 447`), and `_calculate_frame_score` sums those rounded values (line 475). The model's frame score can therefore differ from the source's by up to 0.0005. That can flip the `frame_score > 0.6` test at line 165 or a verdict bound for a score within 0.0005 of it.
- Video.Summary: averages the exact detector scores, whereas `_get_method_breakdown` averages the rounded ones (line 487) and rounds the result again (lines 491-493).
- Rounding of the other reported values with `round(x, 3)` and `round(x, 2)` (timestamps, probabilities, statistics, the final score): only the presented numbers differ. The verdict and risk level are computed from the unrounded final score in both.
- Frequency.LowCut: `int(h * 0.3)` and `int(h * 0.7)` are modelled as ⌊3h/10⌋ and ⌊7h/10⌋. Binary floating point can differ by one for some sizes.
- Sampling.SampleIndices: `np.linspace` with an integer cast is modelled as ⌊k·(total − 1)/(n − 1)⌋. Float truncation can differ by one from this for some sizes.
- Video.Timestamp: the timestamp and duration divisions by fps are exact real divisions.
- Human-readable `details` strings and the `"; ".join` of facial notes: notes are kept as a list of tags, the strings as fixed labels.
- Key order of the reported maps: the source's `results` and `breakdown` dicts carry weight-table insertion order into the JSON report; the model's `map`s have no order. No score depends on this, since `CalculateFrameScore` and `MethodBreakdown` iterate the table in order.
- Logging `print`s, the traceback, and the `ml_detections` counter: diagnostics only, with no effect on any result.
- ImageAnalysis.AnalyzeImage: models at most one raising heuristic per frame, chosen by the frame's `raisesAt` field. Which foreign call raises cannot be observed here.
- The frontend, the HTTP smoke tests and the launch script: UI, a running server and environment configuration.
