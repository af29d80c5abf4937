/** The frequency-domain detector, from the shifted magnitude spectrum onward:
    the high-frequency band mask, the band's share of the spectral energy and
    the piecewise map from that share to a score. */
module Frequency {
  import opened DetectionMethods
  import opened Numeric
  import opened Grids

  /** `int(n * 0.3)` and `int(n * 0.7)` for a dimension of n cells. */
  function LowCut(n: nat): nat { 3 * n / 10 }

  function HighCut(n: nat): nat { 7 * n / 10 }

  /** The central rectangle that none of the four strips reaches. */
  predicate InCentre(r: int, c: int, h: nat, w: nat)
  {
    LowCut(h) <= r < HighCut(h) && LowCut(w) <= c < HighCut(w)
  }

  /** `mask[lo:hi, :] = 1`, with Python's clipping of `hi` to the height. */
  method SetRows(mask: array2<real>, lo: nat, hi: nat)
    modifies mask
    ensures forall r, c :: 0 <= r < mask.Length0 && 0 <= c < mask.Length1 ==>
      mask[r, c] == (if lo <= r < hi then 1.0 else old(mask[r, c]))
  {
    var top := if hi < mask.Length0 then hi else mask.Length0;
    if lo < top {
      for r := lo to top
        invariant forall r', c :: 0 <= r' < mask.Length0 && 0 <= c < mask.Length1 ==>
          mask[r', c] == (if lo <= r' < r then 1.0 else old(mask[r', c]))
      {
        for c := 0 to mask.Length1
          invariant forall r', c' :: 0 <= r' < mask.Length0 && 0 <= c' < mask.Length1 ==>
            mask[r', c'] == (if lo <= r' < r || (r' == r && c' < c) then 1.0 else old(mask[r', c']))
        {
          mask[r, c] := 1.0;
        }
      }
    }
  }

  /** `mask[:, lo:hi] = 1`, with Python's clipping of `hi` to the width. */
  method SetCols(mask: array2<real>, lo: nat, hi: nat)
    modifies mask
    ensures forall r, c :: 0 <= r < mask.Length0 && 0 <= c < mask.Length1 ==>
      mask[r, c] == (if lo <= c < hi then 1.0 else old(mask[r, c]))
  {
    var right := if hi < mask.Length1 then hi else mask.Length1;
    if lo < right {
      for r := 0 to mask.Length0
        invariant forall r', c :: 0 <= r' < mask.Length0 && 0 <= c < mask.Length1 ==>
          mask[r', c] == (if r' < r && lo <= c < hi then 1.0 else old(mask[r', c]))
      {
        for c := lo to right
          invariant forall r', c' :: 0 <= r' < mask.Length0 && 0 <= c' < mask.Length1 ==>
            mask[r', c'] == (if (r' < r && lo <= c' < hi) || (r' == r && lo <= c' < c) then 1.0 else old(mask[r', c']))
        {
          mask[r, c] := 1.0;
        }
      }
    }
  }

  /** The high-frequency mask: zeros, then the top, bottom, left and right
      strips set to one. It is one exactly outside the central rectangle. */
  method BuildMask(h: nat, w: nat) returns (mask: array2<real>)
    ensures fresh(mask) && mask.Length0 == h && mask.Length1 == w
    ensures forall r, c :: 0 <= r < h && 0 <= c < w ==>
      mask[r, c] == (if InCentre(r, c, h, w) then 0.0 else 1.0)
  {
    mask := new real[h, w]((r, c) => 0.0);
    SetRows(mask, 0, LowCut(h));
    SetRows(mask, HighCut(h), h);
    SetCols(mask, 0, LowCut(w));
    SetCols(mask, HighCut(w), w);
  }

  /** `np.sum(row * mask[r])` over the first n cells of row r. */
  function MaskedRow(row: seq<real>, mask: array2<real>, r: nat, n: nat): real
    reads mask
    requires n <= |row| && r < mask.Length0 && n <= mask.Length1
  {
    if n == 0 then 0.0 else MaskedRow(row, mask, r, n - 1) + row[n - 1] * mask[r, n - 1]
  }

  /** `np.sum(magnitude * mask)` over the first k rows. */
  function MaskedEnergy(g: seq<seq<real>>, w: nat, mask: array2<real>, k: nat): real
    reads mask
    requires IsGrid(g, w) && k <= |g| && mask.Length0 == |g| && mask.Length1 == w
  {
    if k == 0 then 0.0 else MaskedEnergy(g, w, mask, k - 1) + MaskedRow(g[k - 1], mask, k - 1, w)
  }

  /** Sum of the first n cells of a row. */
  function RowEnergy(row: seq<real>, n: nat): real
    requires n <= |row|
  {
    if n == 0 then 0.0 else RowEnergy(row, n - 1) + row[n - 1]
  }

  /** `np.sum(magnitude)` over the first k rows. */
  function TotalEnergy(g: seq<seq<real>>, w: nat, k: nat): real
    requires IsGrid(g, w) && k <= |g|
  {
    if k == 0 then 0.0 else TotalEnergy(g, w, k - 1) + RowEnergy(g[k - 1], w)
  }

  /** Sum of the first n cells of row r that lie outside the central rectangle. */
  function BandRow(row: seq<real>, r: nat, h: nat, w: nat, n: nat): real
    requires n <= |row|
  {
    if n == 0 then 0.0
    else BandRow(row, r, h, w, n - 1) + (if InCentre(r, n - 1, h, w) then 0.0 else row[n - 1])
  }

  /** Energy of the first k rows in the high-frequency band. */
  function BandEnergy(g: seq<seq<real>>, w: nat, k: nat): real
    requires IsGrid(g, w) && k <= |g|
  {
    if k == 0 then 0.0 else BandEnergy(g, w, k - 1) + BandRow(g[k - 1], k - 1, |g|, w, w)
  }

  /** The share of the spectrum's energy in the band; 0 when there is no energy. */
  function HighFreqRatio(g: seq<seq<real>>, w: nat): real
    requires IsGrid(g, w)
  {
    var total := TotalEnergy(g, w, |g|);
    if total > 0.0 then BandEnergy(g, w, |g|) / total else 0.0
  }

  /** The piecewise map from ratio to anomaly score: zero on the normal band
      [0.15, 0.40], rising from about 0.2 just above it to 1 at 0.60, and
      from 0 at 0.15 to 1 at a ratio of 0. */
  function ScoreOfRatio(ratio: real): (s: real)
    ensures 0.0 <= s <= 1.0
    ensures s == 0.0 <==> 0.15 <= ratio <= 0.40
    ensures ratio > 0.40 ==> s > 0.2
    ensures s == 1.0 <==> (ratio >= 0.60 || ratio <= 0.0)
    ensures s > 0.5 <==> (ratio > 0.475 || ratio < 0.075)
  {
    if ratio > 0.40 then Min((ratio - 0.35) / 0.25, 1.0)
    else if ratio < 0.15 then Min((0.15 - ratio) / 0.15, 1.0)
    else 0.0
  }

  /** The result the detector reports for a magnitude spectrum. */
  function ResultOf(g: seq<seq<real>>, w: nat): MethodResult
    requires IsGrid(g, w)
  {
    var ratio := HighFreqRatio(g, w);
    var score := ScoreOfRatio(ratio);
    MethodResult(score, score > 0.5, FrequencyDetail(ratio))
  }

  /** The detector on a magnitude spectrum of |g| rows and w columns. */
  method Analyze(g: seq<seq<real>>, w: nat) returns (res: MethodResult)
    requires IsGrid(g, w)
    ensures res == ResultOf(g, w)
    ensures 0.0 <= res.score <= 1.0 && (res.suspicious <==> res.score > 0.5)
  {
    var h := |g|;
    var mask := BuildMask(h, w);
    var high := MaskedEnergy(g, w, mask, h);
    var total := TotalEnergy(g, w, h);
    MaskSelectsBand(g, w, mask, h);
    var ratio := if total > 0.0 then high / total else 0.0;
    var score := ScoreOfRatio(ratio);
    res := MethodResult(score, score > 0.5, FrequencyDetail(ratio));
  }

  /** Multiplying by the built mask sums exactly the band cells of a row. */
  lemma {:induction false} MaskedRowIsBand(row: seq<real>, mask: array2<real>, r: nat, h: nat, w: nat, n: nat)
    requires |row| == w && n <= w && r < h && mask.Length0 == h && mask.Length1 == w
    requires forall r', c :: 0 <= r' < h && 0 <= c < w ==>
      mask[r', c] == (if InCentre(r', c, h, w) then 0.0 else 1.0)
    ensures MaskedRow(row, mask, r, n) == BandRow(row, r, h, w, n)
  {
    if n > 0 {
      MaskedRowIsBand(row, mask, r, h, w, n - 1);
    }
  }

  /** `np.sum(magnitude * mask)` with the built mask is the band energy. */
  lemma {:induction false} MaskSelectsBand(g: seq<seq<real>>, w: nat, mask: array2<real>, k: nat)
    requires IsGrid(g, w) && k <= |g| && mask.Length0 == |g| && mask.Length1 == w
    requires forall r, c :: 0 <= r < |g| && 0 <= c < w ==>
      mask[r, c] == (if InCentre(r, c, |g|, w) then 0.0 else 1.0)
    ensures MaskedEnergy(g, w, mask, k) == BandEnergy(g, w, k)
  {
    if k > 0 {
      MaskSelectsBand(g, w, mask, k - 1);
      MaskedRowIsBand(g[k - 1], mask, k - 1, |g|, w, w);
    }
  }

  /** Every magnitude is non-negative, as `np.abs` guarantees. */
  predicate NonNegative(g: seq<seq<real>>)
  {
    forall r, c :: 0 <= r < |g| && 0 <= c < |g[r]| ==> g[r][c] >= 0.0
  }

  lemma {:induction false} BandRowBounds(row: seq<real>, r: nat, h: nat, w: nat, n: nat)
    requires n <= |row|
    requires forall c :: 0 <= c < |row| ==> row[c] >= 0.0
    ensures 0.0 <= BandRow(row, r, h, w, n) <= RowEnergy(row, n)
  {
    if n > 0 {
      BandRowBounds(row, r, h, w, n - 1);
    }
  }

  /** With non-negative magnitudes the band energy lies between 0 and the total. */
  lemma {:induction false} BandEnergyBounds(g: seq<seq<real>>, w: nat, k: nat)
    requires IsGrid(g, w) && k <= |g| && NonNegative(g)
    ensures 0.0 <= BandEnergy(g, w, k) <= TotalEnergy(g, w, k)
  {
    if k > 0 {
      BandEnergyBounds(g, w, k - 1);
      BandRowBounds(g[k - 1], k - 1, |g|, w, w);
    }
  }

  /** With non-negative magnitudes the ratio lies in [0, 1]; it is 0 when the
      spectrum carries no energy. */
  lemma RatioInUnit(g: seq<seq<real>>, w: nat)
    requires IsGrid(g, w) && NonNegative(g)
    ensures 0.0 <= HighFreqRatio(g, w) <= 1.0
    ensures TotalEnergy(g, w, |g|) == 0.0 ==> HighFreqRatio(g, w) == 0.0
  {
    BandEnergyBounds(g, w, |g|);
  }

  /** A spectrum with no energy in the band gets ratio 0 and therefore the
      maximal, suspicious score. A zero-energy frame is one such spectrum; so is
      a uniform frame, whose only energy is the constant term at (h / 2, w / 2),
      whenever neither dimension is 1, 2 or 4, since only for those sizes does
      that cell fall in the band. */
  lemma NoBandEnergyIsSuspicious(g: seq<seq<real>>, w: nat)
    requires IsGrid(g, w)
    requires BandEnergy(g, w, |g|) == 0.0
    ensures HighFreqRatio(g, w) == 0.0
    ensures ResultOf(g, w).score == 1.0 && ResultOf(g, w).suspicious
  {
  }

  /** The cell that `fftshift` moves the constant term to, (h / 2, w / 2), lies
      in the central rectangle, off the band, exactly when neither dimension is
      1, 2 or 4. */
  lemma ShiftedOriginInCentre(h: nat, w: nat)
    requires h > 0 && w > 0
    ensures InCentre(h / 2, w / 2, h, w) <==> (h !in {1, 2, 4} && w !in {1, 2, 4})
  {
  }
}
