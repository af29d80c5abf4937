/** The facial-consistency detector, from the detected face boxes and the
    measurements taken inside and around each box: an accumulator over faces
    that adds 0.3 for an unusual edge density and 0.2 for a sharp step
    between the face and the strips just above and below it. */
module Facial {
  import opened DetectionMethods
  import opened Numeric

  /** One detected face box (x, y, w, h) with its measurements: the fraction of
      edge pixels inside the box, the mean intensity of the box, and the mean
      intensities of the strips of up to 5 rows above and below it. */
  datatype Face = Face(x: nat, y: nat, w: nat, h: nat,
                       edgeDensity: real, faceMean: real, topMean: real, bottomMean: real)

  /** The length of the Python slice [start:stop] of a sequence of len items. */
  function SliceLength(start: nat, stop: nat, len: nat): nat
  {
    var lo := if start < len then start else len;
    var hi := if stop < len then stop else len;
    if lo < hi then hi - lo else 0
  }

  /** `image[max(0, y-5):y, x:x+w].size` for a three-channel image. */
  function TopStripSize(f: Face, imageHeight: nat, imageWidth: nat): nat
  {
    SliceLength(if f.y >= 5 then f.y - 5 else 0, f.y, imageHeight)
      * SliceLength(f.x, f.x + f.w, imageWidth) * 3
  }

  /** `image[y+h:min(height, y+h+5), x:x+w].size` for a three-channel image. */
  function BottomStripSize(f: Face, imageHeight: nat, imageWidth: nat): nat
  {
    var stop := if imageHeight < f.y + f.h + 5 then imageHeight else f.y + f.h + 5;
    SliceLength(f.y + f.h, stop, imageHeight)
      * SliceLength(f.x, f.x + f.w, imageWidth) * 3
  }

  predicate UnusualEdges(f: Face)
  {
    f.edgeDensity > 0.15 || f.edgeDensity < 0.03
  }

  /** Both strips exist and the face mean differs from their average by more than 50. */
  predicate SharpBoundary(f: Face, imageHeight: nat, imageWidth: nat)
  {
    TopStripSize(f, imageHeight, imageWidth) > 0 && BottomStripSize(f, imageHeight, imageWidth) > 0
      && Abs(f.faceMean - (f.topMean + f.bottomMean) / 2.0) > 50.0
  }

  /** What one face adds to the accumulator. */
  function FaceAnomaly(f: Face, imageHeight: nat, imageWidth: nat): real
  {
    (if UnusualEdges(f) then 0.3 else 0.0)
      + (if SharpBoundary(f, imageHeight, imageWidth) then 0.2 else 0.0)
  }

  /** The notes one face appends, in the order the detector appends them. */
  function FaceNotes(f: Face, imageHeight: nat, imageWidth: nat): seq<FaceNote>
  {
    (if UnusualEdges(f) then [UnusualEdgeDensity] else [])
      + (if SharpBoundary(f, imageHeight, imageWidth) then [SharpBoundaryTransition] else [])
  }

  /** The accumulator after the faces of `faces`. */
  function TotalAnomaly(faces: seq<Face>, imageHeight: nat, imageWidth: nat): real
  {
    if faces == [] then 0.0
    else
      TotalAnomaly(faces[..|faces| - 1], imageHeight, imageWidth)
        + FaceAnomaly(faces[|faces| - 1], imageHeight, imageWidth)
  }

  /** The notes after the faces of `faces`. */
  function AllNotes(faces: seq<Face>, imageHeight: nat, imageWidth: nat): seq<FaceNote>
  {
    if faces == [] then []
    else
      AllNotes(faces[..|faces| - 1], imageHeight, imageWidth)
        + FaceNotes(faces[|faces| - 1], imageHeight, imageWidth)
  }

  /** The result the detector reports for the detected faces. */
  function ResultOf(faces: seq<Face>, imageHeight: nat, imageWidth: nat): MethodResult
  {
    if |faces| == 0 then MethodResult(0.0, false, FacialDetail(0, []))
    else
      var score := Min(TotalAnomaly(faces, imageHeight, imageWidth) / |faces| as real, 1.0);
      MethodResult(score, score > 0.4, FacialDetail(|faces|, AllNotes(faces, imageHeight, imageWidth)))
  }

  /** The detector's loop over the faces of an imageHeight x imageWidth image. */
  method Analyze(faces: seq<Face>, imageHeight: nat, imageWidth: nat) returns (res: MethodResult)
    ensures res == ResultOf(faces, imageHeight, imageWidth)
  {
    if |faces| == 0 {
      return MethodResult(0.0, false, FacialDetail(0, []));
    }
    var anomaly := 0.0;
    var notes: seq<FaceNote> := [];
    for k := 0 to |faces|
      invariant anomaly == TotalAnomaly(faces[..k], imageHeight, imageWidth)
      invariant notes == AllNotes(faces[..k], imageHeight, imageWidth)
    {
      var f := faces[k];
      if f.edgeDensity > 0.15 || f.edgeDensity < 0.03 {
        anomaly := anomaly + 0.3;
        notes := notes + [UnusualEdgeDensity];
      }
      var topSize := TopStripSize(f, imageHeight, imageWidth);
      var bottomSize := BottomStripSize(f, imageHeight, imageWidth);
      if topSize > 0 && bottomSize > 0 {
        var boundaryMean := (f.topMean + f.bottomMean) / 2.0;
        if Abs(f.faceMean - boundaryMean) > 50.0 {
          anomaly := anomaly + 0.2;
          notes := notes + [SharpBoundaryTransition];
        }
      }
      assert faces[..k + 1][..k] == faces[..k];
    }
    assert faces[..|faces|] == faces;
    var score := Min(anomaly / |faces| as real, 1.0);
    res := MethodResult(score, score > 0.4, FacialDetail(|faces|, notes));
  }

  /** The accumulator grows by at most 0.5 per face. */
  lemma {:induction false} TotalAnomalyBounds(faces: seq<Face>, imageHeight: nat, imageWidth: nat)
    ensures 0.0 <= TotalAnomaly(faces, imageHeight, imageWidth) <= 0.5 * |faces| as real
  {
    if faces != [] {
      TotalAnomalyBounds(faces[..|faces| - 1], imageHeight, imageWidth);
    }
  }

  /** Zero faces give score 0 and not suspicious; otherwise the score is the
      mean anomaly per face, which lies in [0, 0.5], so the cap at 1 never
      binds. Suspicious means a score above 0.4. */
  lemma ScoreBounds(faces: seq<Face>, imageHeight: nat, imageWidth: nat)
    ensures var r := ResultOf(faces, imageHeight, imageWidth);
      0.0 <= r.score <= 0.5 && (r.suspicious <==> r.score > 0.4)
    ensures |faces| == 0 ==> ResultOf(faces, imageHeight, imageWidth).score == 0.0
    ensures |faces| > 0 ==>
      ResultOf(faces, imageHeight, imageWidth).score == TotalAnomaly(faces, imageHeight, imageWidth) / |faces| as real
  {
    TotalAnomalyBounds(faces, imageHeight, imageWidth);
    if |faces| > 0 {
      var n := |faces| as real;
      var t := TotalAnomaly(faces, imageHeight, imageWidth);
      DivBetween(t, n, 0.0, 0.5);
    }
  }

  /** For a box inside the image with positive width, the strip above is
      non-empty exactly when the box does not touch the top edge, and the
      strip below exactly when it does not touch the bottom edge. */
  lemma StripsInsideImage(f: Face, imageHeight: nat, imageWidth: nat)
    requires 0 < f.w && f.x + f.w <= imageWidth && f.y + f.h <= imageHeight
    ensures TopStripSize(f, imageHeight, imageWidth) > 0 <==> f.y > 0
    ensures BottomStripSize(f, imageHeight, imageWidth) > 0 <==> f.y + f.h < imageHeight
  {
    assert SliceLength(f.x, f.x + f.w, imageWidth) == f.w;
  }

  /** A face adds 0.3 exactly for unusual edges and 0.2 exactly for a sharp boundary. */
  lemma FaceAnomalyCases(f: Face, imageHeight: nat, imageWidth: nat)
    ensures FaceAnomaly(f, imageHeight, imageWidth) in {0.0, 0.2, 0.3, 0.5}
    ensures FaceAnomaly(f, imageHeight, imageWidth) >= 0.3 <==> UnusualEdges(f)
    ensures FaceAnomaly(f, imageHeight, imageWidth) in {0.2, 0.5} <==> SharpBoundary(f, imageHeight, imageWidth)
  {
  }
}
