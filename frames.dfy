/**
 * The values the capture pipeline receives from CameraX and ML Kit: a frame's
 * metadata (`ImageProxy`), a detected face (`Face`) and its bounding box
 * (`android.graphics.Rect`). The pixel payload of a frame is not modelled.
 */
module Frames {
  import opened Wrappers

  /** A frame dimension in pixels; CameraX never delivers an empty frame. */
  type Dimension = x: int | x > 0 witness 1

  /** `android.graphics.Rect` as a value: four integer edges. */
  datatype Rect = Rect(left: int, top: int, right: int, bottom: int) {

    /** `Rect.centerX()`, i.e. `(left + right) >> 1`: an arithmetic shift, so rounded down. */
    function CenterX(): (c: int)
      ensures 2 * c <= left + right < 2 * c + 2
    {
      (left + right) / 2
    }

    /** `Rect.centerY()`, i.e. `(top + bottom) >> 1`. */
    function CenterY(): (c: int)
      ensures 2 * c <= top + bottom < 2 * c + 2
    {
      (top + bottom) / 2
    }

    /** `Rect.width()`: no absolute value, so a flipped rect has a negative width. */
    function Width(): (w: int)
      ensures w < 0 <==> right < left
      ensures left + w == right
    {
      right - left
    }
  }

  /**
   * The parts of a CameraX `ImageProxy` the pipeline reads: `width`, `height`
   * (sensor orientation), `imageInfo.rotationDegrees` and `imageInfo.timestamp`
   * (nanoseconds).
   */
  datatype ImageProxy = ImageProxy(
    width: Dimension,
    height: Dimension,
    rotationDegrees: int,
    timestampNanos: int)

  /**
   * An ML Kit `Face`: bounding box in frame pixels (before rotation), the three
   * classification scores, absent when the detector could not compute them,
   * and the head's Euler angles in degrees. Kotlin `Float` is modelled as `real`:
   * the code only compares these with constants.
   */
  datatype Face = Face(
    boundingBox: Rect,
    smilingProbability: Option<real>,
    leftEyeOpenProbability: Option<real>,
    rightEyeOpenProbability: Option<real>,
    headEulerAngleX: real,
    headEulerAngleY: real,
    headEulerAngleZ: real)
}
