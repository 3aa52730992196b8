/** Coordinate helpers shared by the analysers: integer percentages and rotation-adjusted frame sizes. */
module ImageAnalysisUtils {
  import opened KotlinArith
  import opened Frames

  /** `Int.percentOf(scale)`: `this * 100 / scale` in Kotlin `Int` arithmetic (rounded toward zero). */
  function PercentOf(x: int, scale: int): (r: int)
    requires scale > 0
    ensures Abs(r) == Abs(x * 100) / scale
    ensures r < 0 ==> x < 0
    ensures r > 0 ==> x > 0
  {
    TruncDiv(x * 100, scale)
  }

  /**
   * `ImageProxy.widthRotationAdjusted`: the width of the upright image, which is the
   * sensor height when the frame is rotated by an odd multiple of 90 degrees.
   * Kotlin's `%` gives a remainder of zero exactly when Dafny's `%` does, so the test
   * is written with Dafny's operator.
   */
  function WidthRotationAdjusted(p: ImageProxy): (w: Dimension)
    ensures w == p.width || w == p.height
  {
    if p.rotationDegrees % 180 == 0 then p.width else p.height
  }

  /** `ImageProxy.heightRotationAdjusted`: the height of the upright image. */
  function HeightRotationAdjusted(p: ImageProxy): (h: Dimension)
    ensures h == p.width || h == p.height
  {
    if p.rotationDegrees % 180 == 0 then p.height else p.width
  }

  /** The two helpers always swap together: they are the raw sizes, in one order or the other. */
  lemma RotationAdjustedIsPermutation(p: ImageProxy)
    ensures multiset{WidthRotationAdjusted(p), HeightRotationAdjusted(p)} == multiset{p.width, p.height}
    ensures HeightRotationAdjusted(p) == p.width ==> WidthRotationAdjusted(p) == p.height
  {
  }

  /** For the rotations CameraX reports, 90 and 270 swap the sides and 0 and 180 keep them. */
  lemma RotationAdjustedForCameraRotations(p: ImageProxy)
    requires p.rotationDegrees == 0 || p.rotationDegrees == 90 || p.rotationDegrees == 180 || p.rotationDegrees == 270
    ensures p.rotationDegrees == 0 || p.rotationDegrees == 180 ==>
      WidthRotationAdjusted(p) == p.width && HeightRotationAdjusted(p) == p.height
    ensures p.rotationDegrees == 90 || p.rotationDegrees == 270 ==>
      WidthRotationAdjusted(p) == p.height && HeightRotationAdjusted(p) == p.width
  {
  }

  /** A negative rotation is swapped like its positive counterpart (`-90 % 180` is `-90` in Kotlin, not zero). */
  lemma RotationAdjustedNegative(p: ImageProxy)
    requires p.rotationDegrees == -90
    ensures WidthRotationAdjusted(p) == p.height && HeightRotationAdjusted(p) == p.width
  {
  }

  /** Truncation, not flooring: a pixel just left of the frame is 0 percent, where Dafny's `/` would give -1. */
  lemma PercentOfTruncatesTowardZero()
    ensures PercentOf(-1, 200) == 0
    ensures (-1 * 100) / 200 == -1
    ensures PercentOf(-3, 200) == -1
  {
  }

  /** An edge inside the scale maps into [0, 100]. */
  lemma PercentOfInRange(x: int, scale: int)
    requires scale > 0 && 0 <= x <= scale
    ensures 0 <= PercentOf(x, scale) <= 100
  {
    MulMonotone(x, scale, 100);
    DivMonotone(x * 100, scale * 100, scale);
    assert (scale * 100) / scale == 100;
  }

  /** `percentOf` never reverses the order of two edges. */
  lemma PercentOfMonotone(x1: int, x2: int, scale: int)
    requires scale > 0 && x1 <= x2
    ensures PercentOf(x1, scale) <= PercentOf(x2, scale)
  {
    TruncDivMonotone(x1 * 100, x2 * 100, scale);
  }

  /** Scaling a rect's edges keeps each pair of opposite edges in order. */
  lemma PercentOfMonotoneOnRect(b: Rect, w: int, h: int)
    requires w > 0 && h > 0
    ensures b.left <= b.right ==> PercentOf(b.left, w) <= PercentOf(b.right, w)
    ensures b.top <= b.bottom ==> PercentOf(b.top, h) <= PercentOf(b.bottom, h)
  {
    if b.left <= b.right { PercentOfMonotone(b.left, b.right, w); }
    if b.top <= b.bottom { PercentOfMonotone(b.top, b.bottom, h); }
  }
}
