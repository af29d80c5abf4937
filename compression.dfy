/** The compression-artifact detector on the luma channel: a walk over 8x8
    block origins that flags a block when the mean absolute step between its
    last row and the next row exceeds 15. */
module Compression {
  import opened DetectionMethods
  import opened Numeric
  import opened Grids

  const BlockSize: nat := 8

  /** How many origins `range(0, n - 8, 8)` yields along a dimension of n cells. */
  function BlocksAlong(n: nat): nat
  {
    if n <= BlockSize then 0 else (n - 1) / BlockSize
  }

  /** The k-th block origin along a dimension. */
  function Origin(k: nat): nat { BlockSize * k }

  /** `sum |y[i+8][j+t] - y[i+7][j+t]|` for t < n. */
  function BoundarySum(y: seq<seq<int>>, w: nat, i: nat, j: nat, n: nat): nat
    requires IsGrid(y, w) && i + BlockSize < |y| && j + n <= w
  {
    if n == 0 then 0
    else
      var d := y[i + BlockSize][j + n - 1] - y[i + BlockSize - 1][j + n - 1];
      BoundarySum(y, w, i, j, n - 1) + (if d < 0 then -d else d)
  }

  /** The mean absolute difference across the boundary below block (i, j). */
  function BoundaryDiff(y: seq<seq<int>>, w: nat, i: nat, j: nat): real
    requires IsGrid(y, w) && i + BlockSize < |y| && j + BlockSize <= w
  {
    BoundarySum(y, w, i, j, BlockSize) as real / BlockSize as real
  }

  /** A visible blocking boundary. */
  predicate Flagged(y: seq<seq<int>>, w: nat, i: nat, j: nat)
    requires IsGrid(y, w) && i + BlockSize < |y| && j + BlockSize <= w
  {
    BoundaryDiff(y, w, i, j) > 15.0
  }

  /** Flagged blocks among the first n column origins of the row of blocks at i. */
  function FlaggedInRow(y: seq<seq<int>>, w: nat, i: nat, n: nat): nat
    requires IsGrid(y, w) && i + BlockSize < |y| && n <= BlocksAlong(w)
  {
    if n == 0 then 0
    else FlaggedInRow(y, w, i, n - 1) + (if Flagged(y, w, i, Origin(n - 1)) then 1 else 0)
  }

  /** Flagged blocks in the first k rows of blocks. */
  function FlaggedRows(y: seq<seq<int>>, w: nat, k: nat): nat
    requires IsGrid(y, w) && k <= BlocksAlong(|y|)
  {
    if k == 0 then 0 else FlaggedRows(y, w, k - 1) + FlaggedInRow(y, w, Origin(k - 1), BlocksAlong(w))
  }

  /** The number of blocks the walk visits. */
  function BlockCount(h: nat, w: nat): nat
  {
    BlocksAlong(h) * BlocksAlong(w)
  }

  /** `artifact_score / block_count`, or 0 when no block was visited. */
  function ArtifactRatio(y: seq<seq<int>>, w: nat): real
    requires IsGrid(y, w)
  {
    var blocks := BlockCount(|y|, w);
    if blocks > 0 then FlaggedRows(y, w, BlocksAlong(|y|)) as real / blocks as real else 0.0
  }

  /** The result the detector reports for a luma grid. */
  function ResultOf(y: seq<seq<int>>, w: nat): MethodResult
    requires IsGrid(y, w)
  {
    var ratio := ArtifactRatio(y, w);
    var score := Min(ratio / 0.1, 1.0);
    MethodResult(score, score > 0.5, CompressionDetail(ratio))
  }

  /** The k-th origin is in the range exactly when k is below the block count:
      the range holds the origins whose block still has a next row (or
      column), which is why every index the walk reads is in bounds. */
  lemma OriginInRange(n: nat, k: nat)
    ensures k < BlocksAlong(n) <==> Origin(k) < n - BlockSize
  {
  }

  lemma MulSucc(k: nat, n: nat)
    ensures (k + 1) * n == k * n + n
  {
  }

  lemma FractionInUnit(a: nat, b: nat)
    requires 0 < b && a <= b
    ensures 0.0 <= a as real / b as real <= 1.0
  {
  }

  /** The walk over the blocks of a luma grid of |y| rows and w columns. */
  method Analyze(y: seq<seq<int>>, w: nat) returns (res: MethodResult)
    requires IsGrid(y, w)
    ensures res == ResultOf(y, w)
  {
    var h := |y|;
    var artifacts: nat := 0;
    var blocks: nat := 0;
    var i := 0;
    ghost var rows := 0;
    ghost var perRow := BlocksAlong(w);
    while i < h - BlockSize
      invariant rows <= BlocksAlong(h) && i == Origin(rows)
      invariant artifacts == FlaggedRows(y, w, rows)
      invariant blocks == rows * perRow
      decreases h - i
    {
      OriginInRange(h, rows);
      var j := 0;
      ghost var cols := 0;
      while j < w - BlockSize
        invariant cols <= BlocksAlong(w) && j == Origin(cols)
        invariant artifacts == FlaggedRows(y, w, rows) + FlaggedInRow(y, w, i, cols)
        invariant blocks == rows * BlocksAlong(w) + cols
        decreases w - j
      {
        OriginInRange(w, cols);
        assert i + BlockSize < h;
        if i + BlockSize < h {
          var sum := BoundarySum(y, w, i, j, BlockSize);
          var boundaryDiff := sum as real / BlockSize as real;
          if boundaryDiff > 15.0 {
            artifacts := artifacts + 1;
          }
        }
        blocks := blocks + 1;
        j := j + BlockSize;
        cols := cols + 1;
      }
      OriginInRange(w, cols);
      MulSucc(rows, perRow);
      i := i + BlockSize;
      rows := rows + 1;
    }
    OriginInRange(h, rows);
    var ratio := if blocks > 0 then artifacts as real / blocks as real else 0.0;
    var score := Min(ratio / 0.1, 1.0);
    res := MethodResult(score, score > 0.5, CompressionDetail(ratio));
  }

  /** A block is flagged exactly when its eight boundary differences sum to more than 120. */
  lemma FlaggedIffSumAbove120(y: seq<seq<int>>, w: nat, i: nat, j: nat)
    requires IsGrid(y, w) && i + BlockSize < |y| && j + BlockSize <= w
    ensures Flagged(y, w, i, j) <==> BoundarySum(y, w, i, j, BlockSize) > 120
  {
  }

  lemma {:induction false} FlaggedInRowBound(y: seq<seq<int>>, w: nat, i: nat, n: nat)
    requires IsGrid(y, w) && i + BlockSize < |y| && n <= BlocksAlong(w)
    ensures FlaggedInRow(y, w, i, n) <= n
  {
    if n > 0 {
      FlaggedInRowBound(y, w, i, n - 1);
    }
  }

  /** The flagged count never exceeds the number of visited blocks. */
  lemma {:induction false} FlaggedAtMostBlocks(y: seq<seq<int>>, w: nat, k: nat)
    requires IsGrid(y, w) && k <= BlocksAlong(|y|)
    ensures FlaggedRows(y, w, k) <= k * BlocksAlong(w)
  {
    if k > 0 {
      FlaggedAtMostBlocks(y, w, k - 1);
      OriginInRange(|y|, k - 1);
      FlaggedInRowBound(y, w, Origin(k - 1), BlocksAlong(w));
      MulSucc(k - 1, BlocksAlong(w));
    }
  }

  /** The artifact ratio and the score lie in [0, 1]; the score is ten times
      the ratio capped at one, and it is suspicious exactly above a ratio of 0.05. */
  lemma ScoreInUnit(y: seq<seq<int>>, w: nat)
    requires IsGrid(y, w)
    ensures 0.0 <= ArtifactRatio(y, w) <= 1.0
    ensures 0.0 <= ResultOf(y, w).score <= 1.0
    ensures ResultOf(y, w).score == Min(10.0 * ArtifactRatio(y, w), 1.0)
    ensures ResultOf(y, w).suspicious <==> ArtifactRatio(y, w) > 0.05
  {
    var blocks := BlockCount(|y|, w);
    FlaggedAtMostBlocks(y, w, BlocksAlong(|y|));
    if blocks > 0 {
      FractionInUnit(FlaggedRows(y, w, BlocksAlong(|y|)), blocks);
    }
  }

  /** An image at most 8 pixels high or wide has no blocks and scores 0. */
  lemma SmallImageScoresZero(y: seq<seq<int>>, w: nat)
    requires IsGrid(y, w)
    requires |y| <= BlockSize || w <= BlockSize
    ensures BlockCount(|y|, w) == 0
    ensures ResultOf(y, w).score == 0.0 && !ResultOf(y, w).suspicious
  {
  }

  /** Every luma value equals `level`, as in a uniform frame. */
  predicate Uniform(y: seq<seq<int>>, level: int)
  {
    forall r, c :: 0 <= r < |y| && 0 <= c < |y[r]| ==> y[r][c] == level
  }

  lemma {:induction false} UniformBoundaryIsFlat(y: seq<seq<int>>, w: nat, level: int, i: nat, j: nat, n: nat)
    requires IsGrid(y, w) && Uniform(y, level) && i + BlockSize < |y| && j + n <= w
    ensures BoundarySum(y, w, i, j, n) == 0
  {
    if n > 0 {
      UniformBoundaryIsFlat(y, w, level, i, j, n - 1);
    }
  }

  lemma {:induction false} UniformRowUnflagged(y: seq<seq<int>>, w: nat, level: int, i: nat, n: nat)
    requires IsGrid(y, w) && Uniform(y, level) && i + BlockSize < |y| && n <= BlocksAlong(w)
    ensures FlaggedInRow(y, w, i, n) == 0
  {
    if n > 0 {
      UniformRowUnflagged(y, w, level, i, n - 1);
      OriginInRange(w, n - 1);
      UniformBoundaryIsFlat(y, w, level, i, Origin(n - 1), BlockSize);
    }
  }

  lemma {:induction false} UniformRowsUnflagged(y: seq<seq<int>>, w: nat, level: int, k: nat)
    requires IsGrid(y, w) && Uniform(y, level) && k <= BlocksAlong(|y|)
    ensures FlaggedRows(y, w, k) == 0
  {
    if k > 0 {
      UniformRowsUnflagged(y, w, level, k - 1);
      OriginInRange(|y|, k - 1);
      UniformRowUnflagged(y, w, level, Origin(k - 1), BlocksAlong(w));
    }
  }

  /** A uniform luma channel has no visible block boundary and scores 0. */
  lemma UniformScoresZero(y: seq<seq<int>>, w: nat, level: int)
    requires IsGrid(y, w) && Uniform(y, level)
    ensures ArtifactRatio(y, w) == 0.0
    ensures ResultOf(y, w).score == 0.0 && !ResultOf(y, w).suspicious
  {
    UniformRowsUnflagged(y, w, level, BlocksAlong(|y|));
  }
}
