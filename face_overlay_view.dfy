/**
 * The overlay view: turns the published percentage rects back into view pixels,
 * always mirrored horizontally, whichever camera is selected, by
 * overwriting each incoming `Rect` in place and keeping those same objects.
 */
module FaceOverlay {
  import opened KotlinArith
  import opened Frames

  /** An `android.graphics.Rect` object, whose edges `set` overwrites in place. */
  class MutableRect {
    var left: int
    var top: int
    var right: int
    var bottom: int

    function Value(): Rect
      reads this
    {
      Rect(left, top, right, bottom)
    }

    constructor (r: Rect)
      ensures Value() == r
    {
      left, top, right, bottom := r.left, r.top, r.right, r.bottom;
    }

    /** `Rect.set(left, top, right, bottom)`. */
    method Set(left: int, top: int, right: int, bottom: int)
      modifies this
      ensures Value() == Rect(left, top, right, bottom)
    {
      this.left, this.top, this.right, this.bottom := left, top, right, bottom;
    }
  }

  /**
   * The per-rect conversion inside `updateFaceBounds`: the horizontal edges are scaled to
   * the view width and mirrored (the old right edge becomes the new left edge), the
   * vertical ones only scaled. Kotlin `Int` division, so rounded toward zero.
   */
  function ToPixels(r: Rect, width: int, height: int): (px: Rect)
    ensures r.left == 0 ==> px.right == width
    ensures r.right == 100 ==> px.left == 0
    ensures r.right == 0 ==> px.left == width
    ensures r.top == 0 ==> px.top == 0
    ensures r.bottom == 100 ==> px.bottom == height
  {
    Rect(
      width - TruncDiv(r.right * width, 100),
      TruncDiv(r.top * height, 100),
      width - TruncDiv(r.left * width, 100),
      TruncDiv(r.bottom * height, 100))
  }

  /** The conversion keeps every rect well-ordered on a view of non-negative size: mirroring swaps the edges and scaling keeps their order. */
  lemma ToPixelsKeepsOrder(r: Rect, width: int, height: int)
    requires width >= 0 && height >= 0
    ensures r.left <= r.right ==> ToPixels(r, width, height).left <= ToPixels(r, width, height).right
    ensures r.top <= r.bottom ==> ToPixels(r, width, height).top <= ToPixels(r, width, height).bottom
  {
    if r.left <= r.right {
      MulMonotone(r.left, r.right, width);
      TruncDivMonotone(r.left * width, r.right * width, 100);
    }
    if r.top <= r.bottom {
      MulMonotone(r.top, r.bottom, height);
      TruncDivMonotone(r.top * height, r.bottom * height, 100);
    }
  }

  /** Percentages in [0, 100] land inside the view. */
  lemma ToPixelsInsideView(r: Rect, width: int, height: int)
    requires width >= 0 && height >= 0
    requires 0 <= r.left <= 100 && 0 <= r.right <= 100 && 0 <= r.top <= 100 && 0 <= r.bottom <= 100
    ensures var px := ToPixels(r, width, height);
      0 <= px.left <= width && 0 <= px.right <= width && 0 <= px.top <= height && 0 <= px.bottom <= height
  {
    ScaledPercentInRange(r.left, width);
    ScaledPercentInRange(r.right, width);
    ScaledPercentInRange(r.top, height);
    ScaledPercentInRange(r.bottom, height);
  }

  lemma ScaledPercentInRange(p: int, size: int)
    requires 0 <= p <= 100 && size >= 0
    ensures 0 <= TruncDiv(p * size, 100) <= size
  {
    MulMonotone(p, 100, size);
    DivMonotone(p * size, 100 * size, 100);
  }

  /** A worked mirror: 10..30 percent of a 200-pixel-wide view becomes pixels 140..180. */
  lemma ToPixelsMirrorExample()
    ensures ToPixels(Rect(10, 20, 30, 40), 200, 100) == Rect(140, 20, 180, 40)
  {
  }

  /** Rects at pairwise distinct positions of the list are distinct objects. */
  predicate DistinctObjects(rects: seq<MutableRect>)
  {
    forall i, j | 0 <= i < j < |rects| :: rects[i] != rects[j]
  }

  /** `FaceOverlayView`: its size in pixels and the rects `onDraw` paints. */
  class FaceOverlayView {
    var width: nat
    var height: nat
    var faceBounds: seq<MutableRect>

    constructor (width: nat, height: nat)
      ensures this.width == width && this.height == height && faceBounds == []
    {
      this.width, this.height := width, height;
      faceBounds := [];
    }

    /**
     * `updateFaceBounds(boundsInPercents)`: the old list is discarded, each incoming rect
     * is overwritten with its pixel coordinates, and the list then holds exactly those
     * objects in input order.
     */
    method UpdateFaceBounds(boundsInPercents: seq<MutableRect>)
      requires DistinctObjects(boundsInPercents)
      modifies this, boundsInPercents
      ensures width == old(width) && height == old(height)
      ensures faceBounds == boundsInPercents
      ensures forall i | 0 <= i < |boundsInPercents| ::
        boundsInPercents[i].Value() == ToPixels(old(boundsInPercents[i].Value()), width, height)
    {
      faceBounds := [];

      var boundsInPixels: seq<MutableRect> := [];
      var i := 0;
      while i < |boundsInPercents|
        invariant 0 <= i <= |boundsInPercents|
        invariant width == old(width) && height == old(height) && faceBounds == []
        invariant boundsInPixels == boundsInPercents[..i]
        invariant forall k | 0 <= k < i ::
          boundsInPercents[k].Value() == ToPixels(old(boundsInPercents[k].Value()), width, height)
        invariant forall k | i <= k < |boundsInPercents| ::
          boundsInPercents[k].Value() == old(boundsInPercents[k].Value())
      {
        var rect := boundsInPercents[i];
        var left := width - TruncDiv(rect.right * width, 100);
        var right := width - TruncDiv(rect.left * width, 100);
        var top := TruncDiv(rect.top * height, 100);
        var bottom := TruncDiv(rect.bottom * height, 100);
        rect.Set(left, top, right, bottom);
        boundsInPixels := boundsInPixels + [rect];
        i := i + 1;
      }

      faceBounds := faceBounds + boundsInPixels;
    }
  }
}
