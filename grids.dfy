/** Two-dimensional images and spectra as sequences of rows. */
module Grids {
  /** Every row of `g` has exactly `w` cells, as in a numpy array of shape (|g|, w). */
  predicate IsGrid<T>(g: seq<seq<T>>, w: nat)
  {
    forall r :: 0 <= r < |g| ==> |g[r]| == w
  }
}
