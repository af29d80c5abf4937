/** The colour-balance detector from its one measurement onward: the standard
    deviation across the three per-channel deviations of the LAB image. */
module Color {
  import opened DetectionMethods
  import opened Numeric

  /** The detector's result: `min(color_balance / 30, 1)`, suspicious above 0.6. */
  function ResultOf(colorBalance: real): (r: MethodResult)
    ensures colorBalance >= 0.0 ==> 0.0 <= r.score
    ensures r.score <= 1.0
    ensures r.score == 1.0 <==> colorBalance >= 30.0
    ensures r.suspicious <==> colorBalance > 18.0
    ensures r.detail == ColorDetail(colorBalance)
  {
    var score := Min(colorBalance / 30.0, 1.0);
    MethodResult(score, score > 0.6, ColorDetail(colorBalance))
  }
}
