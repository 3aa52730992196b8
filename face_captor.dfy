/**
 * The capture gate: when somebody listens for captured bitmaps, each frame is
 * assessed once, and an accepted frame is converted to a bitmap, rotated upright
 * and emitted. Pixel operations are opaque.
 */
module FaceCapture {
  import opened Wrappers
  import opened Frames
  import opened FaceStability
  import opened FaceParams

  /** An opaque bitmap (the pixels of one frame, as `ImageProxy.toBitmap()` returns them). */
  datatype Bitmap = Bitmap(handle: nat)

  /** What `rotateBitmap(bitmap, rotationDegrees)` produces: the bitmap turned upright by the given angle. */
  datatype CapturedBitmap = Rotated(source: Bitmap, rotationDegrees: int)

  /**
   * One call of `onFrameReceived`, with its environment as inputs: the number of
   * collectors of the bitmap flow, and what `toBitmap()` would return (`None` when it throws).
   */
  datatype FrameEvent = FrameEvent(
    imageProxy: ImageProxy,
    faces: seq<Face>,
    subscriptionCount: int,
    converted: Option<Bitmap>)

  /** `handleAcceptedImage`: nothing when conversion throws, else the bitmap rotated by the frame's own angle. */
  function HandleAccepted(p: ImageProxy, converted: Option<Bitmap>): (out: seq<CapturedBitmap>)
    ensures converted.None? <==> out == []
  {
    match converted
    case None => []
    case Some(bitmap) => [Rotated(bitmap, p.rotationDegrees)]
  }

  /** `onFrameReceived`: the tracker's new state and what is emitted for this frame. */
  function OnFrame(s: StabilityState, e: FrameEvent, threshold: int): (r: (StabilityState, seq<CapturedBitmap>))
    ensures e.subscriptionCount <= 0 ==> r == (s, [])
    ensures r.1 != [] ==> e.converted.Some? && r.1 == [Rotated(e.converted.value, e.imageProxy.rotationDegrees)]
  {
    if e.subscriptionCount <= 0 then (s, [])
    else
      var (s', accepted) := Assess(s, e.imageProxy, e.faces, threshold);
      (s', if accepted then HandleAccepted(e.imageProxy, e.converted) else [])
  }

  /**
   * The contract of one frame: with no collector nothing happens at all (not even a reset);
   * otherwise the gate runs once, and a bitmap is emitted exactly when the gate accepts and
   * the conversion succeeds, rotated by the frame's own rotation.
   */
  lemma OnFrameContract(s: StabilityState, e: FrameEvent, threshold: int)
    ensures e.subscriptionCount <= 0 ==> OnFrame(s, e, threshold) == (s, [])
    ensures e.subscriptionCount > 0 ==> OnFrame(s, e, threshold).0 == Assess(s, e.imageProxy, e.faces, threshold).0
    ensures |OnFrame(s, e, threshold).1| <= 1
    ensures OnFrame(s, e, threshold).1 != [] <==>
      e.subscriptionCount > 0 && Assess(s, e.imageProxy, e.faces, threshold).1 && e.converted.Some?
    ensures OnFrame(s, e, threshold).1 != [] ==>
      OnFrame(s, e, threshold).1 == [Rotated(e.converted.value, e.imageProxy.rotationDegrees)]
  {
  }

  /** Bitmap `b` is what frame `e` emits: that frame had a collector, and `b` is its own converted bitmap, rotated by its own angle. */
  predicate EmittedBy(b: CapturedBitmap, e: FrameEvent)
  {
    e.subscriptionCount > 0 && e.converted == Some(b.source) && b.rotationDegrees == e.imageProxy.rotationDegrees
  }

  /**
   * The tracker state and all emissions after a sequence of frames. Every emitted bitmap
   * comes from a frame of the run that had a collector and converted successfully.
   */
  function CaptureRun(s: StabilityState, events: seq<FrameEvent>, threshold: int): (r: (StabilityState, seq<CapturedBitmap>))
    ensures forall b | b in r.1 :: exists i | 0 <= i < |events| :: EmittedBy(b, events[i])
    decreases |events|
  {
    if events == [] then (s, [])
    else
      var first := OnFrame(s, events[0], threshold);
      var rest := CaptureRun(first.0, events[1..], threshold);
      assert forall b | b in rest.1 :: exists i | 0 <= i < |events| :: EmittedBy(b, events[i]) by {
        forall b | b in rest.1
          ensures exists i | 0 <= i < |events| :: EmittedBy(b, events[i])
        {
          var j :| 0 <= j < |events[1..]| && EmittedBy(b, events[1..][j]);
          assert EmittedBy(b, events[j + 1]);
        }
      }
      assert forall b | b in first.1 :: EmittedBy(b, events[0]);
      (rest.0, first.1 + rest.1)
  }

  /** Frames that arrive while nobody collects never touch the tracker and emit nothing. */
  lemma {:induction false} UnsubscribedFramesAreIgnored(s: StabilityState, events: seq<FrameEvent>, threshold: int)
    requires forall i | 0 <= i < |events| :: events[i].subscriptionCount <= 0
    ensures CaptureRun(s, events, threshold) == (s, [])
    decreases |events|
  {
    if events != [] {
      assert OnFrame(s, events[0], threshold) == (s, []);
      assert forall i | 0 <= i < |events[1..]| :: events[1..][i] == events[i + 1];
      UnsubscribedFramesAreIgnored(s, events[1..], threshold);
      assert OnFrame(s, events[0], threshold).1 + CaptureRun(s, events[1..], threshold).1 == [];
    }
  }

  /** A run emits at most one bitmap per frame. */
  lemma {:induction false} AtMostOneEmissionPerFrame(s: StabilityState, events: seq<FrameEvent>, threshold: int)
    ensures |CaptureRun(s, events, threshold).1| <= |events|
    decreases |events|
  {
    if events != [] {
      OnFrameContract(s, events[0], threshold);
      AtMostOneEmissionPerFrame(OnFrame(s, events[0], threshold).0, events[1..], threshold);
    }
  }

  /**
   * The end-to-end walk-through: one centred, neutral face (box 30..70 in a 100 x 100
   * frame) held still at 0, 500 and 1200 ms, starting from a fresh tracker. The first two
   * frames emit nothing and the third emits its bitmap.
   */
  lemma EndToEndScenario(bitmap: Bitmap)
    ensures
      var face := Face(Rect(30, 30, 70, 70), Some(0.1), Some(0.9), Some(0.9), 0.0, 0.0, 0.0);
      var frame := (t: int) => FrameEvent(ImageProxy(100, 100, 0, t), [face], 1, Some(bitmap));
      var k := DEFAULT_MOVEMENT_THRESHOLD_PERCENT;
      var (s1, out1) := OnFrame(Zero, frame(0), k);
      var (s2, out2) := OnFrame(s1, frame(500_000_000), k);
      var (s3, out3) := OnFrame(s2, frame(1_200_000_000), k);
      out1 == [] && out2 == [] && out3 == [Rotated(bitmap, 0)]
  {
  }

  /** The box 40..60 in a 100 x 100 frame is only 20 percent wide, so it never passes the gate. */
  lemma NarrowBoxIsRejected(faces: seq<Face>, s: StabilityState)
    requires |faces| == 1 && faces[0].boundingBox == Rect(40, 40, 60, 60)
    ensures !Assess(s, ImageProxy(100, 100, 0, 0), faces, DEFAULT_MOVEMENT_THRESHOLD_PERCENT).1
  {
  }

  /** `FaceCaptor`: the owned quality gate and the stream of emitted bitmaps. */
  class FaceCaptor {
    const faceParamsAssessor: FaceParamsAssessor
    /** Everything sent to `bitmapsFlow`, in launch order. */
    var emitted: seq<CapturedBitmap>

    constructor ()
      ensures fresh(faceParamsAssessor) && fresh(faceParamsAssessor.stabilityAssessor)
      ensures faceParamsAssessor.stabilityAssessor.State() == Zero
      ensures faceParamsAssessor.stabilityAssessor.movementDetectionThresholdPercent == DEFAULT_MOVEMENT_THRESHOLD_PERCENT
      ensures emitted == []
    {
      faceParamsAssessor := new FaceParamsAssessor();
      emitted := [];
    }

    /** The tracker inside the owned gate. */
    function Tracker(): FaceStabilityAssessor
      reads this, faceParamsAssessor
    {
      faceParamsAssessor.stabilityAssessor
    }

    /** `onFrameReceived(imageProxy, faces)`. */
    method OnFrameReceived(imageProxy: ImageProxy, faces: seq<Face>, subscriptionCount: int, converted: Option<Bitmap>)
      modifies this, Tracker()
      ensures Tracker() == old(Tracker())
      ensures var (s', out) := OnFrame(old(Tracker().State()), FrameEvent(imageProxy, faces, subscriptionCount, converted),
                                       Tracker().movementDetectionThresholdPercent);
        Tracker().State() == s' && emitted == old(emitted) + out
    {
      if subscriptionCount <= 0 {
        return;
      }
      var accepted := faceParamsAssessor.IsAcceptableImage(imageProxy, faces);
      if accepted {
        HandleAcceptedImage(imageProxy, converted);
      }
    }

    /** `handleAcceptedImage(imageProxy)`: the rotation is read before converting; a failed conversion emits nothing. */
    method HandleAcceptedImage(imageProxy: ImageProxy, converted: Option<Bitmap>)
      modifies this`emitted
      ensures emitted == old(emitted) + HandleAccepted(imageProxy, converted)
    {
      var rotationDegrees := imageProxy.rotationDegrees;
      match converted {
        case None =>
          return;
        case Some(bitmap) =>
          emitted := emitted + [Rotated(bitmap, rotationDegrees)];
      }
    }
  }
}
