/**
 * The bounds publisher: every analysed frame yields one list of face rects in
 * percentages of the upright image, whatever the number of faces and whatever
 * the capture gate decides.
 */
module FaceBounds {
  import opened Frames
  import opened ImageAnalysisUtils

  /** `faceRect(face, imageProxy)`: horizontal edges over the upright width, vertical edges over the upright height. */
  function FaceRect(face: Face, p: ImageProxy): (r: Rect)
    ensures face.boundingBox.left <= face.boundingBox.right ==> r.left <= r.right
    ensures face.boundingBox.top <= face.boundingBox.bottom ==> r.top <= r.bottom
  {
    var b := face.boundingBox;
    var imageHeight := HeightRotationAdjusted(p);
    var imageWidth := WidthRotationAdjusted(p);
    PercentOfMonotoneOnRect(b, imageWidth, imageHeight);
    Rect(PercentOf(b.left, imageWidth), PercentOf(b.top, imageHeight),
         PercentOf(b.right, imageWidth), PercentOf(b.bottom, imageHeight))
  }

  /** For a frame rotated by 90 or 270 degrees the horizontal edges are scaled by the raw height and the vertical ones by the raw width. */
  lemma FaceRectRotatedScales(face: Face, p: ImageProxy)
    requires p.rotationDegrees == 90 || p.rotationDegrees == 270
    ensures FaceRect(face, p) == Rect(
      PercentOf(face.boundingBox.left, p.height), PercentOf(face.boundingBox.top, p.width),
      PercentOf(face.boundingBox.right, p.height), PercentOf(face.boundingBox.bottom, p.width))
  {
  }

  /** A box inside the upright image maps to percentages in [0, 100]. */
  lemma FaceRectInRange(face: Face, p: ImageProxy)
    requires var b, w, h := face.boundingBox, WidthRotationAdjusted(p), HeightRotationAdjusted(p);
      0 <= b.left <= w && 0 <= b.right <= w && 0 <= b.top <= h && 0 <= b.bottom <= h
    ensures var r := FaceRect(face, p);
      0 <= r.left <= 100 && 0 <= r.right <= 100 && 0 <= r.top <= 100 && 0 <= r.bottom <= 100
  {
    var b, w, h := face.boundingBox, WidthRotationAdjusted(p), HeightRotationAdjusted(p);
    PercentOfInRange(b.left, w);
    PercentOfInRange(b.right, w);
    PercentOfInRange(b.top, h);
    PercentOfInRange(b.bottom, h);
  }

  /** `faces.map { face -> faceRect(face, imageProxy) }`: one rect per face, in the same order. */
  function FaceBoundsOf(faces: seq<Face>, p: ImageProxy): (bounds: seq<Rect>)
    ensures |bounds| == |faces|
    ensures forall i | 0 <= i < |faces| :: bounds[i] == FaceRect(faces[i], p)
  {
    if faces == [] then [] else [FaceRect(faces[0], p)] + FaceBoundsOf(faces[1..], p)
  }

  /** `FaceBoundsEmitter`: the lists sent to `faceBoundsFlow`, in launch order. */
  class FaceBoundsEmitter {
    var emissions: seq<seq<Rect>>

    constructor ()
      ensures emissions == []
    {
      emissions := [];
    }

    /** `onFrameReceived` / `emitFaceBounds`: exactly one emission per frame, empty when there is no face. */
    method OnFrameReceived(imageProxy: ImageProxy, faces: seq<Face>)
      modifies this
      ensures emissions == old(emissions) + [FaceBoundsOf(faces, imageProxy)]
      ensures faces == [] ==> emissions == old(emissions) + [[]]
    {
      var faceBounds := FaceBoundsOf(faces, imageProxy);
      emissions := emissions + [faceBounds];
    }
  }
}
