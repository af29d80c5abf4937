/** The five-tier ladders that turn a score into a verdict and a risk level,
    each tested top-down with inclusive lower bounds 0.75, 0.60, 0.40, 0.25. */
module Verdict {
  /** `_get_verdict`. */
  function VerdictOf(score: real): (v: string)
    ensures v == "HIGHLY LIKELY FAKE" <==> score >= 0.75
    ensures v == "LIKELY FAKE" <==> 0.60 <= score < 0.75
    ensures v == "SUSPICIOUS" <==> 0.40 <= score < 0.60
    ensures v == "POSSIBLY AUTHENTIC" <==> 0.25 <= score < 0.40
    ensures v == "LIKELY AUTHENTIC" <==> score < 0.25
  {
    if score >= 0.75 then "HIGHLY LIKELY FAKE"
    else if score >= 0.60 then "LIKELY FAKE"
    else if score >= 0.40 then "SUSPICIOUS"
    else if score >= 0.25 then "POSSIBLY AUTHENTIC"
    else "LIKELY AUTHENTIC"
  }

  /** `_get_risk_level`. */
  function RiskLevelOf(score: real): (v: string)
    ensures v == "CRITICAL" <==> score >= 0.75
    ensures v == "HIGH" <==> 0.60 <= score < 0.75
    ensures v == "MEDIUM" <==> 0.40 <= score < 0.60
    ensures v == "LOW" <==> 0.25 <= score < 0.40
    ensures v == "MINIMAL" <==> score < 0.25
    ensures v in {"HIGH", "CRITICAL"} <==> score >= 0.60
  {
    if score >= 0.75 then "CRITICAL"
    else if score >= 0.60 then "HIGH"
    else if score >= 0.40 then "MEDIUM"
    else if score >= 0.25 then "LOW"
    else "MINIMAL"
  }

  /** The tiers from lowest to highest, with their verdict and risk labels. */
  const Verdicts: seq<string> := ["LIKELY AUTHENTIC", "POSSIBLY AUTHENTIC", "SUSPICIOUS", "LIKELY FAKE", "HIGHLY LIKELY FAKE"]
  const RiskLevels: seq<string> := ["MINIMAL", "LOW", "MEDIUM", "HIGH", "CRITICAL"]

  /** The tier's position on the ladder, 0 (lowest) to 4 (highest). */
  function Tier(score: real): (t: nat)
    ensures t < 5
    ensures t == 0 <==> score < 0.25
    ensures t == 4 <==> score >= 0.75
  {
    if score >= 0.75 then 4 else if score >= 0.60 then 3 else if score >= 0.40 then 2 else if score >= 0.25 then 1 else 0
  }

  /** The two ladders always pick the same tier. */
  lemma SameTier(score: real)
    ensures VerdictOf(score) == Verdicts[Tier(score)]
    ensures RiskLevelOf(score) == RiskLevels[Tier(score)]
  {
  }

  /** A higher score never lands on a lower tier. */
  lemma TierMonotone(a: real, b: real)
    requires a <= b
    ensures Tier(a) <= Tier(b)
  {
  }

  /** Worked values: 0.68 is a likely fake of high risk, 0.275 possibly
      authentic of low risk, and each boundary belongs to the tier above it. */
  lemma Examples()
    ensures VerdictOf(0.68) == "LIKELY FAKE" && RiskLevelOf(0.68) == "HIGH"
    ensures VerdictOf(0.275) == "POSSIBLY AUTHENTIC" && RiskLevelOf(0.275) == "LOW"
    ensures Tier(0.75) == 4 && Tier(0.60) == 3 && Tier(0.40) == 2 && Tier(0.25) == 1
  {
  }
}
