/**
 * The quality gate: a short-circuit conjunction of per-face criteria, with the
 * stability tracker consulted last. A face count other than one resets the tracker.
 */
module FaceParams {
  import opened Wrappers
  import opened KotlinArith
  import opened Frames
  import opened ImageAnalysisUtils
  import opened FaceStability

  const SMILE_THRESHOLD: real := 0.5
  const EYES_OPEN_THRESHOLD: real := 0.8
  const ANGLE_THRESHOLD: real := 5.0
  const CENTER_MIN_PERCENT: int := 45
  const CENTER_MAX_PERCENT: int := 55
  const MIN_WIDTH_PERCENT: int := 30

  /** `noSmile`: an unknown smile score counts as 0, and the score must be strictly below 0.5. */
  function NoSmile(face: Face): (ok: bool)
    ensures ok <==> face.smilingProbability.None? || face.smilingProbability.value < SMILE_THRESHOLD
  {
    face.smilingProbability.GetOr(0.0) < SMILE_THRESHOLD
  }

  /** `isEyesOpen`: an unknown eye score counts as 1, and both must be strictly above 0.8. */
  function IsEyesOpen(face: Face): (ok: bool)
    ensures ok <==>
      (face.leftEyeOpenProbability.None? || face.leftEyeOpenProbability.value > EYES_OPEN_THRESHOLD) &&
      (face.rightEyeOpenProbability.None? || face.rightEyeOpenProbability.value > EYES_OPEN_THRESHOLD)
  {
    var left := face.leftEyeOpenProbability.GetOr(1.0);
    var right := face.rightEyeOpenProbability.GetOr(1.0);
    left > EYES_OPEN_THRESHOLD && right > EYES_OPEN_THRESHOLD
  }

  function RealAbs(a: real): real
  {
    if a < 0.0 then -a else a
  }

  /** Kotlin's closed range test `angle in -threshold..threshold`. */
  predicate InAngleRange(angle: real)
  {
    -ANGLE_THRESHOLD <= angle <= ANGLE_THRESHOLD
  }

  /** `isFaceAngleCorrect`: each head angle within [-5, 5] degrees, both ends included. */
  function IsFaceAngleCorrect(face: Face): (ok: bool)
    ensures ok <==> RealAbs(face.headEulerAngleX) <= 5.0 && RealAbs(face.headEulerAngleY) <= 5.0 && RealAbs(face.headEulerAngleZ) <= 5.0
  {
    InAngleRange(face.headEulerAngleX) && InAngleRange(face.headEulerAngleY) && InAngleRange(face.headEulerAngleZ)
  }

  /**
   * `isFacePositioned`: the box centre within 45..55 percent of the upright image on both
   * axes, and the box wider than 30 percent of the upright width. The height percentage is
   * computed by the source but not used.
   */
  function IsFacePositioned(p: ImageProxy, face: Face): (ok: bool)
    ensures ok ==> face.boundingBox.Width() > 0
  {
    var w := WidthRotationAdjusted(p);
    var h := HeightRotationAdjusted(p);
    var centerXPercent := PercentOf(face.boundingBox.CenterX(), w);
    var centerYPercent := PercentOf(face.boundingBox.CenterY(), h);
    var widthPercent := PercentOf(face.boundingBox.Width(), w);
    && CENTER_MIN_PERCENT <= centerXPercent <= CENTER_MAX_PERCENT
    && CENTER_MIN_PERCENT <= centerYPercent <= CENTER_MAX_PERCENT
    && widthPercent > MIN_WIDTH_PERCENT
  }

  /** An integer percentage lies in `lo..hi` exactly when the exact fraction lies in [lo, hi + 1). */
  lemma PercentInBand(x: int, scale: int, lo: int, hi: int)
    requires scale > 0 && 0 < lo <= hi
    ensures lo <= PercentOf(x, scale) <= hi <==> lo * scale <= x * 100 < (hi + 1) * scale
  {
    TruncDivAtLeast(x * 100, scale, lo);
    TruncDivAtMost(x * 100, scale, hi);
  }

  /**
   * What "positioned" means without the rounding: the centre lies in [45%, 56%) of the
   * upright image on each axis and the width is at least 31% of the upright width.
   */
  lemma FacePositionedExactly(p: ImageProxy, face: Face)
    ensures var w, h, b := WidthRotationAdjusted(p), HeightRotationAdjusted(p), face.boundingBox;
      IsFacePositioned(p, face) <==>
        && 45 * w <= b.CenterX() * 100 < 56 * w
        && 45 * h <= b.CenterY() * 100 < 56 * h
        && 31 * w <= b.Width() * 100
  {
    var w, h, b := WidthRotationAdjusted(p), HeightRotationAdjusted(p), face.boundingBox;
    PercentInBand(b.CenterX(), w, 45, 55);
    PercentInBand(b.CenterY(), h, 45, 55);
    TruncDivAtLeast(b.Width() * 100, w, 31);
  }

  /** The four stateless criteria, in the order the source evaluates them. */
  predicate PassesQualityChecks(p: ImageProxy, face: Face): (ok: bool)
    ensures ok ==> face.boundingBox.Width() > 0
    ensures ok ==> 0 < face.boundingBox.CenterX() < WidthRotationAdjusted(p)
    ensures ok ==> 0 < face.boundingBox.CenterY() < HeightRotationAdjusted(p)
  {
    FacePositionedExactly(p, face);
    NoSmile(face) && IsEyesOpen(face) && IsFaceAngleCorrect(face) && IsFacePositioned(p, face)
  }

  /**
   * The public `isAcceptableImage(imageProxy, faces)`: the tracker's new state and the verdict.
   * The tracker is reset when the face count is not one, consulted only when every
   * stateless check passes, and left alone otherwise.
   */
  function Assess(s: StabilityState, p: ImageProxy, faces: seq<Face>, threshold: int): (r: (StabilityState, bool))
    ensures r.1 ==> |faces| == 1 && PassesQualityChecks(p, faces[0])
    ensures |faces| != 1 ==> r.0 == Zero
    ensures r.0 == s || r.0 == Zero || (|faces| == 1 && r.0.rect == StabilitySample(p, faces[0]).rect)
    ensures |faces| == 1 && PassesQualityChecks(p, faces[0]) ==> r == Step(s, StabilitySample(p, faces[0]), threshold)
  {
    if |faces| != 1 then (Zero, false)
    else if !PassesQualityChecks(p, faces[0]) then (s, false)
    else Step(s, StabilitySample(p, faces[0]), threshold)
  }

  /** A face count other than one rejects the frame and zeroes the tracker. */
  lemma WrongFaceCountResets(s: StabilityState, p: ImageProxy, faces: seq<Face>, threshold: int)
    requires |faces| != 1
    ensures Assess(s, p, faces, threshold) == (Zero, false)
  {
  }

  /** Short circuit: a single face that fails a stateless check leaves the tracker untouched. */
  lemma QualityFailureLeavesTracker(s: StabilityState, p: ImageProxy, faces: seq<Face>, threshold: int)
    requires |faces| == 1 && !PassesQualityChecks(p, faces[0])
    ensures Assess(s, p, faces, threshold) == (s, false)
  {
  }

  /**
   * A frame is accepted exactly when it has one face that meets every criterion and that the
   * tracker finds still, at least `STABILITY_THRESHOLD_MILLIS` after the stored time.
   */
  lemma AcceptedMeansEveryCriterion(s: StabilityState, p: ImageProxy, faces: seq<Face>, threshold: int)
    ensures Assess(s, p, faces, threshold).1 <==>
      && |faces| == 1
      && NoSmile(faces[0]) && IsEyesOpen(faces[0]) && IsFaceAngleCorrect(faces[0]) && IsFacePositioned(p, faces[0])
      && IsStill(s.rect, StabilitySample(p, faces[0]).rect, threshold)
      && StabilitySample(p, faces[0]).timestamp - s.timestamp >= STABILITY_THRESHOLD_MILLIS
  {
  }

  /**
   * A well-positioned face is never "still" against the zeroed tracker: its stability edges
   * cannot all be within 5 points of 0. So after a reset (or at start) the first single face
   * that passes the stateless checks counts as movement, and a full dwell must elapse again.
   */
  lemma PositionedFaceMovesFromZero(p: ImageProxy, face: Face)
    requires IsFacePositioned(p, face)
    ensures !IsStill(Zero.rect, StabilitySample(p, face).rect, DEFAULT_MOVEMENT_THRESHOLD_PERCENT)
  {
    var d := DiffScale(p);
    var b := face.boundingBox;
    var x := StabilitySample(p, face).rect;
    FacePositionedExactly(p, face);
    if IsStill(Zero.rect, x, DEFAULT_MOVEMENT_THRESHOLD_PERCENT) {
      TruncDivAbsBelow(b.left * 100, d, 5);
      TruncDivAbsBelow(b.top * 100, d, 5);
      TruncDivAbsBelow(b.right * 100, d, 5);
      TruncDivAbsBelow(b.bottom * 100, d, 5);
      // every edge is within 5% of the mean side, so the box is narrower and its centre
      // nearer 0 than 31% width and a 45% centre allow, whichever side is the upright width
      assert false;
    }
  }

  /** After a reset, a frame with one good face is rejected and starts the dwell clock at its own time. */
  lemma ResetForcesFullDwell(p: ImageProxy, faces: seq<Face>)
    requires |faces| == 1 && PassesQualityChecks(p, faces[0])
    ensures Assess(Zero, p, faces, DEFAULT_MOVEMENT_THRESHOLD_PERCENT) ==
      (StabilityState(StabilitySample(p, faces[0]).rect, NanoToMillis(p.timestampNanos)), false)
  {
    PositionedFaceMovesFromZero(p, faces[0]);
  }

  /** `FaceParamsAssessor`, which owns a tracker with the default tolerance. */
  class FaceParamsAssessor {
    const stabilityAssessor: FaceStabilityAssessor

    constructor ()
      ensures fresh(stabilityAssessor)
      ensures stabilityAssessor.movementDetectionThresholdPercent == DEFAULT_MOVEMENT_THRESHOLD_PERCENT
      ensures stabilityAssessor.State() == Zero
    {
      stabilityAssessor := new FaceStabilityAssessor(DEFAULT_MOVEMENT_THRESHOLD_PERCENT);
    }

    /** The public `isAcceptableImage(imageProxy, faces)`. */
    method IsAcceptableImage(imageProxy: ImageProxy, faces: seq<Face>) returns (accepted: bool)
      modifies stabilityAssessor
      ensures (stabilityAssessor.State(), accepted) ==
        Assess(old(stabilityAssessor.State()), imageProxy, faces, stabilityAssessor.movementDetectionThresholdPercent)
    {
      if |faces| != 1 {
        stabilityAssessor.Reset();
        return false;
      }
      var face := faces[0];
      accepted := IsAcceptableFace(imageProxy, face);
    }

    /** The private `isAcceptableImage(imageProxy, face)`: the checks in order, the tracker last. */
    method IsAcceptableFace(imageProxy: ImageProxy, face: Face) returns (accepted: bool)
      modifies stabilityAssessor
      ensures (stabilityAssessor.State(), accepted) ==
        Assess(old(stabilityAssessor.State()), imageProxy, [face], stabilityAssessor.movementDetectionThresholdPercent)
    {
      if !NoSmile(face) || !IsEyesOpen(face) || !IsFaceAngleCorrect(face) || !IsFacePositioned(imageProxy, face) {
        return false;
      }
      accepted := stabilityAssessor.AssessImageIsStill(imageProxy, face);
    }
  }
}
