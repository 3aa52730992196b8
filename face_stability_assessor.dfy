/**
 * The stability tracker: a dwell-time hysteresis over a face's position.
 *
 * The tracker remembers the last face rect it saw (as percentages of a fixed
 * scale) and the time of the last movement. A frame is "still" when all four
 * edges moved by less than the tolerance; it is accepted once the face has been
 * still for at least `STABILITY_THRESHOLD_MILLIS` since the last movement.
 */
module FaceStability {
  import opened KotlinArith
  import opened Frames
  import opened ImageAnalysisUtils

  /** The dwell time a still face needs before it is accepted. */
  const STABILITY_THRESHOLD_MILLIS: int := 1000

  /** The default per-edge movement tolerance, in percentage points. */
  const DEFAULT_MOVEMENT_THRESHOLD_PERCENT: int := 5

  /** A face rect's four edges as percentages of the stability scale. */
  datatype EdgePercents = EdgePercents(startX: int, startY: int, endX: int, endY: int)

  /** The tracker's five fields: the stored rect and the time of the last movement (ms). */
  datatype StabilityState = StabilityState(rect: EdgePercents, timestamp: int)

  /** One input of the tracker: a rect and the frame time in milliseconds. */
  datatype Sample = Sample(rect: EdgePercents, timestamp: int)

  /** The state of a fresh tracker, and of one after `reset()`. */
  const Zero: StabilityState := StabilityState(EdgePercents(0, 0, 0, 0), 0)

  /** All four edges moved by strictly less than the tolerance. */
  predicate IsStill(stored: EdgePercents, incoming: EdgePercents, threshold: int): (still: bool)
    ensures threshold <= 0 ==> !still
    ensures incoming == stored ==> (still <==> threshold > 0)
  {
    && Abs(incoming.startX - stored.startX) < threshold
    && Abs(incoming.startY - stored.startY) < threshold
    && Abs(incoming.endX - stored.endX) < threshold
    && Abs(incoming.endY - stored.endY) < threshold
  }

  /**
   * One call of the private `assessImageIsStill(startX, startY, endX, endY, timestamp)`:
   * the new state and the verdict. This is the reference the tracker class is proved against.
   */
  function Step(s: StabilityState, x: Sample, threshold: int): (r: (StabilityState, bool))
    ensures r.0.rect == x.rect
    ensures r.0.timestamp == s.timestamp || r.0.timestamp == x.timestamp
    ensures r.1 ==> r.0.timestamp == s.timestamp && x.timestamp - s.timestamp >= STABILITY_THRESHOLD_MILLIS
  {
    var still := IsStill(s.rect, x.rect, threshold);
    var dTime := x.timestamp - s.timestamp;
    if still then (StabilityState(x.rect, s.timestamp), dTime >= STABILITY_THRESHOLD_MILLIS)
    else (StabilityState(x.rect, x.timestamp), false)
  }

  /** `Long.nanoToMillis()`: Kotlin `Long` division by 1 000 000. */
  function NanoToMillis(nanos: int): (millis: int)
    ensures nanos >= 0 ==> millis * 1_000_000 <= nanos < millis * 1_000_000 + 1_000_000
    ensures nanos < 0 ==> millis * 1_000_000 - 1_000_000 < nanos <= millis * 1_000_000
  {
    TruncDiv(nanos, 1_000_000)
  }

  /** The stability scale: the mean of the raw sides, not rotation-adjusted. */
  function DiffScale(p: ImageProxy): (d: int)
    ensures d > 0
    ensures 2 * d <= p.width + p.height < 2 * d + 2
  {
    TruncDiv(p.width + p.height, 2)
  }

  /** The arguments the public `assessImageIsStill(imageProxy, face)` passes to the private one. */
  function StabilitySample(p: ImageProxy, face: Face): (x: Sample)
    ensures face.boundingBox.left <= face.boundingBox.right ==> x.rect.startX <= x.rect.endX
    ensures face.boundingBox.top <= face.boundingBox.bottom ==> x.rect.startY <= x.rect.endY
    ensures p.timestampNanos >= 0 ==> x.timestamp >= 0
  {
    var d := DiffScale(p);
    var b := face.boundingBox;
    PercentOfMonotoneOnRect(b, d, d);
    Sample(
      EdgePercents(PercentOf(b.left, d), PercentOf(b.top, d), PercentOf(b.right, d), PercentOf(b.bottom, d)),
      NanoToMillis(p.timestampNanos))
  }

  /** The stability sample ignores the frame's rotation: edges are scaled by the raw mean side. */
  lemma StabilitySampleIgnoresRotation(p: ImageProxy, q: ImageProxy, face: Face)
    requires p.width == q.width && p.height == q.height && p.timestampNanos == q.timestampNanos
    ensures StabilitySample(p, face) == StabilitySample(q, face)
    ensures StabilitySample(p, face).rect.startX == PercentOf(face.boundingBox.left, (p.width + p.height) / 2)
  {
  }

  /** What a single step does to the stored rect, the clock and the verdict. */
  lemma StepSemantics(s: StabilityState, x: Sample, threshold: int)
    ensures Step(s, x, threshold).0.rect == x.rect
    ensures !IsStill(s.rect, x.rect, threshold) ==>
      Step(s, x, threshold).0.timestamp == x.timestamp && !Step(s, x, threshold).1
    ensures IsStill(s.rect, x.rect, threshold) ==>
      Step(s, x, threshold).0.timestamp == s.timestamp &&
      (Step(s, x, threshold).1 <==> x.timestamp - s.timestamp >= STABILITY_THRESHOLD_MILLIS)
  {
  }

  // ---------------------------------------------------------------------------
  // Runs of the tracker over a sequence of samples

  /** The tracker state after the first `n` samples. */
  function StateAfter(init: StabilityState, samples: seq<Sample>, n: nat, threshold: int): StabilityState
    requires n <= |samples|
  {
    if n == 0 then init else Step(StateAfter(init, samples, n - 1, threshold), samples[n - 1], threshold).0
  }

  /** The verdict returned for sample `i`. */
  function Verdict(init: StabilityState, samples: seq<Sample>, i: nat, threshold: int): bool
    requires i < |samples|
  {
    Step(StateAfter(init, samples, i, threshold), samples[i], threshold).1
  }

  /** The rect sample `i` is compared with: the previous sample's, or the initial one. */
  function PreviousRect(init: StabilityState, samples: seq<Sample>, i: nat): EdgePercents
    requires i < |samples|
  {
    if i == 0 then init.rect else samples[i - 1].rect
  }

  /** Sample `i` differs from its predecessor by the tolerance or more on some edge. */
  predicate MovedAt(init: StabilityState, samples: seq<Sample>, i: nat, threshold: int)
    requires i < |samples|
  {
    !IsStill(PreviousRect(init, samples, i), samples[i].rect, threshold)
  }

  /**
   * The start of the still run that sample `i` belongs to: the time of the latest
   * sample at or before `i` that moved, or the initial timestamp if none did.
   */
  function DwellOrigin(init: StabilityState, samples: seq<Sample>, i: nat, threshold: int): int
    requires i < |samples|
  {
    if MovedAt(init, samples, i, threshold) then samples[i].timestamp
    else if i == 0 then init.timestamp
    else DwellOrigin(init, samples, i - 1, threshold)
  }

  /**
   * The hysteresis theorem: after sample `i` the tracker holds that sample's rect and the
   * start of the current still run, and it accepts sample `i` exactly when the sample did
   * not move and the still run has lasted at least the dwell threshold.
   */
  lemma {:induction false} RunTracksDwellOrigin(init: StabilityState, samples: seq<Sample>, i: nat, threshold: int)
    requires i < |samples|
    ensures StateAfter(init, samples, i + 1, threshold) ==
      StabilityState(samples[i].rect, DwellOrigin(init, samples, i, threshold))
    ensures Verdict(init, samples, i, threshold) <==>
      !MovedAt(init, samples, i, threshold) &&
      samples[i].timestamp - DwellOrigin(init, samples, i, threshold) >= STABILITY_THRESHOLD_MILLIS
  {
    if i > 0 {
      RunTracksDwellOrigin(init, samples, i - 1, threshold);
    }
  }

  /** Once accepting, the tracker keeps accepting every later still sample (no one-shot debounce). */
  lemma KeepsAcceptingWhileStill(init: StabilityState, samples: seq<Sample>, i: nat, threshold: int)
    requires i + 1 < |samples|
    requires Verdict(init, samples, i, threshold)
    requires !MovedAt(init, samples, i + 1, threshold)
    requires samples[i].timestamp <= samples[i + 1].timestamp
    ensures Verdict(init, samples, i + 1, threshold)
  {
    RunTracksDwellOrigin(init, samples, i, threshold);
    RunTracksDwellOrigin(init, samples, i + 1, threshold);
  }

  /** Dwell monotonicity: with a constant rect, the calls at t0, t0+500, t0+1200, t0+1250 give false, false, true, true. */
  lemma DwellScenario(init: StabilityState, r: EdgePercents, t0: int)
    requires !IsStill(init.rect, r, DEFAULT_MOVEMENT_THRESHOLD_PERCENT)
    ensures var samples := [Sample(r, t0), Sample(r, t0 + 500), Sample(r, t0 + 1200), Sample(r, t0 + 1250)];
      && !Verdict(init, samples, 0, DEFAULT_MOVEMENT_THRESHOLD_PERCENT)
      && !Verdict(init, samples, 1, DEFAULT_MOVEMENT_THRESHOLD_PERCENT)
      && Verdict(init, samples, 2, DEFAULT_MOVEMENT_THRESHOLD_PERCENT)
      && Verdict(init, samples, 3, DEFAULT_MOVEMENT_THRESHOLD_PERCENT)
  {
    var samples := [Sample(r, t0), Sample(r, t0 + 500), Sample(r, t0 + 1200), Sample(r, t0 + 1250)];
    var k := DEFAULT_MOVEMENT_THRESHOLD_PERCENT;
    RunTracksDwellOrigin(init, samples, 0, k);
    RunTracksDwellOrigin(init, samples, 1, k);
    RunTracksDwellOrigin(init, samples, 2, k);
    RunTracksDwellOrigin(init, samples, 3, k);
  }

  /**
   * Movement restarts the clock: after a move at t0+200, a still frame at t0+1100 is
   * rejected although 1100 ms have passed since t0; one at t0+1300 is accepted.
   */
  lemma MovementRestartsClock(init: StabilityState, r: EdgePercents, r': EdgePercents, t0: int)
    requires !IsStill(init.rect, r, DEFAULT_MOVEMENT_THRESHOLD_PERCENT)
    requires !IsStill(r, r', DEFAULT_MOVEMENT_THRESHOLD_PERCENT)
    ensures var samples := [Sample(r, t0), Sample(r', t0 + 200), Sample(r', t0 + 1100), Sample(r', t0 + 1300)];
      && !Verdict(init, samples, 0, DEFAULT_MOVEMENT_THRESHOLD_PERCENT)
      && !Verdict(init, samples, 1, DEFAULT_MOVEMENT_THRESHOLD_PERCENT)
      && !Verdict(init, samples, 2, DEFAULT_MOVEMENT_THRESHOLD_PERCENT)
      && Verdict(init, samples, 3, DEFAULT_MOVEMENT_THRESHOLD_PERCENT)
  {
    var samples := [Sample(r, t0), Sample(r', t0 + 200), Sample(r', t0 + 1100), Sample(r', t0 + 1300)];
    var k := DEFAULT_MOVEMENT_THRESHOLD_PERCENT;
    RunTracksDwellOrigin(init, samples, 0, k);
    RunTracksDwellOrigin(init, samples, 1, k);
    RunTracksDwellOrigin(init, samples, 2, k);
    RunTracksDwellOrigin(init, samples, 3, k);
  }

  /** `FaceStabilityAssessor`: the five mutable fields and the configured tolerance. */
  class FaceStabilityAssessor {
    const movementDetectionThresholdPercent: int
    var startX: int
    var startY: int
    var endX: int
    var endY: int
    var timestamp: int

    /** The five fields as a `StabilityState`. */
    function State(): StabilityState
      reads this
    {
      StabilityState(EdgePercents(startX, startY, endX, endY), timestamp)
    }

    constructor (movementDetectionThresholdPercent: int)
      ensures this.movementDetectionThresholdPercent == movementDetectionThresholdPercent
      ensures State() == Zero
    {
      this.movementDetectionThresholdPercent := movementDetectionThresholdPercent;
      startX, startY, endX, endY, timestamp := 0, 0, 0, 0, 0;
    }

    /** The private `assessImageIsStill(startX, startY, endX, endY, timestamp)`. */
    method AssessEdgesAreStill(startX: int, startY: int, endX: int, endY: int, timestamp: int)
      returns (accepted: bool)
      modifies this
      ensures (State(), accepted) ==
        Step(old(State()), Sample(EdgePercents(startX, startY, endX, endY), timestamp), movementDetectionThresholdPercent)
      // every call stores the incoming rect, still or not
      ensures this.startX == startX && this.startY == startY && this.endX == endX && this.endY == endY
    {
      var dXStart := Abs(startX - this.startX);
      var dYStart := Abs(startY - this.startY);
      var dXEnd := Abs(endX - this.endX);
      var dYEnd := Abs(endY - this.endY);

      var isFaceStill := dXStart < movementDetectionThresholdPercent &&
        dYStart < movementDetectionThresholdPercent &&
        dXEnd < movementDetectionThresholdPercent &&
        dYEnd < movementDetectionThresholdPercent;

      var dTime := timestamp - this.timestamp;

      this.startX := startX;
      this.startY := startY;
      this.endX := endX;
      this.endY := endY;

      if isFaceStill {
        accepted := dTime >= STABILITY_THRESHOLD_MILLIS;
      } else {
        this.timestamp := timestamp;
        accepted := false;
      }
    }

    /** The public `assessImageIsStill(imageProxy, face)`: scale the box by the stability scale and convert the time. */
    method AssessImageIsStill(imageProxy: ImageProxy, face: Face) returns (accepted: bool)
      modifies this
      ensures (State(), accepted) ==
        Step(old(State()), StabilitySample(imageProxy, face), movementDetectionThresholdPercent)
    {
      var diffScale := TruncDiv(imageProxy.width + imageProxy.height, 2);
      accepted := AssessEdgesAreStill(
        PercentOf(face.boundingBox.left, diffScale),
        PercentOf(face.boundingBox.top, diffScale),
        PercentOf(face.boundingBox.right, diffScale),
        PercentOf(face.boundingBox.bottom, diffScale),
        NanoToMillis(imageProxy.timestampNanos));
    }

    /** `reset()`: all five fields back to zero. */
    method Reset()
      modifies this
      ensures State() == Zero
    {
      startX := 0;
      startY := 0;
      endX := 0;
      endY := 0;
      timestamp := 0;
    }
  }
}
