# Frame acceptance pipeline of the CameraX face auto-capture demo, in Dafny

The app watches a live camera stream, runs face detection on each frame, and captures
a frame when exactly one face is neutral (no smile, eyes open, head straight), centred,
large enough and motionless for at least one second. After five images are saved, the
session is complete. This project models that pipeline and proves its properties:

- **Coordinate helpers** (`ImageAnalysisUtils`): Kotlin's truncating `Int` division in
  `percentOf`, and the width/height swap for frames rotated by an odd multiple of 90°.
- **Stability tracker** (`FaceStability`): a class with the five mutable fields of
  `FaceStabilityAssessor`, proved against a step function `Step`. The main theorem,
  `RunTracksDwellOrigin`, covers any run of samples. After each sample the tracker holds
  that sample's rect and the start of the current still run. It accepts exactly the still
  samples whose run has lasted 1000 ms.
- **Quality gate** (`FaceParams`): the stateless predicates and the short-circuit
  composition in `FaceParamsAssessor`. A face count other than one resets the tracker,
  and the tracker is touched only when every stateless check passes. The gate is also
  proved never to see a well-placed face as "still" against the zeroed tracker, so after
  a reset a full dwell always has to elapse again.
- **Capture gate** (`FaceCapture`): `FaceCaptor.onFrameReceived` does nothing without a
  subscriber, assesses each frame at most once, and emits a rotated bitmap only for an
  accepted frame whose conversion succeeded.
- **Overlay bounds** (`FaceBounds`, `FaceOverlay`): the pixel→percent mapping for every
  frame, and the view's in-place, mirrored percent→pixel conversion of the rect objects
  it receives.
- **Session** (`AutoCaptureCamera`): the screen-state mapping, `distinctUntilChanged`, the
  quota pipeline (`filterNotNull` then `take(5)`), and the camera toggle.

Each stateful Kotlin class is a Dafny class. It holds the Kotlin state fields, plus fields
that record the flows' emissions (`FaceCaptor.emitted` stands for `bitmapsFlow`,
`FaceBoundsEmitter.emissions` for `faceBoundsFlow`). The view model also has fields for what
`capturedImageSaver` provides (`directory`, and the ghost `saveResults`: what each bitmap of the `bitmaps` flow became through `saveImage`) and for the progress of its `init`
coroutine (`galleryPrepared`, `saved`). Its methods say exactly how the fields change, in terms
of a pure function (`Step`, `Assess`, `OnFrame`, `FaceBoundsOf`, `ToPixels`, `SavedFiles`).
The properties are lemmas about those functions.

Three facts about the code that are easy to get wrong:

- `FaceCaptor` gates on the subscriber count of its bitmap flow, not on the quota. The
  activity collects that flow while it is started, so frames are still assessed after the
  quota is reached. Bitmaps that reach the view model after the quota are dropped there,
  because its save pipeline has stopped collecting
  (`AutoCaptureCameraViewModel.OnImageCaptured`).
- A 40..60 box in a 100×100 frame is 20% wide and fails the `> 30` width check
  (`FaceCapture.NarrowBoxIsRejected`). `FaceCapture.EndToEndScenario` uses a 30..70 box.
- Moving a face back to where it was is itself a movement, so it restarts the clock.
  `FaceStability.MovementRestartsClock` holds the face at its new rect after the move.

## Model

| member | source | states |
|---|---|---|
| `KotlinArith.TruncDiv` | app/src/main/java/com/github/xe11/camxdemo/camera/capture/platform/ImageAnalysisUtils.kt:5 | Kotlin `/`: the quotient's magnitude is the floor of the magnitudes' quotient, and it keeps the dividend's sign |
| `KotlinArith.TruncDivMonotone` | app/src/main/java/com/github/xe11/camxdemo/camera/capture/platform/ImageAnalysisUtils.kt:5 | truncating division by a positive divisor is monotone in the dividend |
| `Frames.Rect.CenterX` | app/src/main/java/com/github/xe11/camxdemo/camera/capture/platform/FaceParamsAssessor.kt:59 | `centerX()` is `(left + right) >> 1`, the rounded-down midpoint: `2c <= left + right < 2c + 2`, also for negative sums |
| `Frames.Rect.CenterY` | app/src/main/java/com/github/xe11/camxdemo/camera/capture/platform/FaceParamsAssessor.kt:60 | `centerY()` is the rounded-down midpoint of top and bottom |
| `Frames.Rect.Width` | app/src/main/java/com/github/xe11/camxdemo/camera/capture/platform/FaceParamsAssessor.kt:65 | `width()` is `right - left` with no absolute value: negative exactly for a flipped box |
| `ImageAnalysisUtils.PercentOf` | app/src/main/java/com/github/xe11/camxdemo/camera/capture/platform/ImageAnalysisUtils.kt:5 | `x*100/scale` rounded toward zero; the sign of the result follows the sign of `x` |
| `ImageAnalysisUtils.PercentOfTruncatesTowardZero` | app/src/main/java/com/github/xe11/camxdemo/camera/capture/platform/ImageAnalysisUtils.kt:5 | `percentOf(-1, 200) == 0` where Euclidean division gives -1; `percentOf(-3, 200) == -1` |
| `ImageAnalysisUtils.PercentOfInRange` | app/src/main/java/com/github/xe11/camxdemo/camera/capture/platform/ImageAnalysisUtils.kt:5 | for `0 <= x <= scale` the percentage lies in [0, 100] |
| `ImageAnalysisUtils.PercentOfMonotone` | app/src/main/java/com/github/xe11/camxdemo/camera/capture/platform/ImageAnalysisUtils.kt:5 | `percentOf` is non-decreasing in `x` for a positive scale |
| `ImageAnalysisUtils.WidthRotationAdjusted` | app/src/main/java/com/github/xe11/camxdemo/camera/capture/platform/ImageAnalysisUtils.kt:7-8 | the upright width is one of the raw sides |
| `ImageAnalysisUtils.HeightRotationAdjusted` | app/src/main/java/com/github/xe11/camxdemo/camera/capture/platform/ImageAnalysisUtils.kt:10-11 | the upright height is one of the raw sides |
| `ImageAnalysisUtils.RotationAdjustedIsPermutation` | app/src/main/java/com/github/xe11/camxdemo/camera/capture/platform/ImageAnalysisUtils.kt:7-11 | the two helpers always swap together: together they are the raw width and height |
| `ImageAnalysisUtils.RotationAdjustedForCameraRotations` | app/src/main/java/com/github/xe11/camxdemo/camera/capture/platform/ImageAnalysisUtils.kt:7-11 | 0° and 180° keep the raw sides; 90° and 270° swap them |
| `ImageAnalysisUtils.RotationAdjustedNegative` | app/src/main/java/com/github/xe11/camxdemo/camera/capture/platform/ImageAnalysisUtils.kt:7-11 | -90° swaps the sides too: Kotlin's remainder is non-zero there |
| `FaceStability.IsStill` | app/src/main/java/com/github/xe11/camxdemo/camera/capture/platform/FaceStabilityAssessor.kt:41-49 | no tolerance means no frame is still; an unmoved rect is still exactly when the tolerance is positive |
| `FaceStability.Step` | app/src/main/java/com/github/xe11/camxdemo/camera/capture/platform/FaceStabilityAssessor.kt:41-74 | the incoming rect is always stored; the stored time is either kept or replaced by the incoming one; an acceptance keeps the stored time and lies at least 1000 ms after it |
| `FaceStability.NanoToMillis` | app/src/main/java/com/github/xe11/camxdemo/camera/capture/platform/FaceStabilityAssessor.kt:86 | nanoseconds to milliseconds by truncating division by 1 000 000 (bounds on the remainder) |
| `FaceStability.DiffScale` | app/src/main/java/com/github/xe11/camxdemo/camera/capture/platform/FaceStabilityAssessor.kt:23 | the stability scale `(width + height) / 2` is positive and is the rounded-down mean of the raw sides |
| `FaceStability.StabilitySample` | app/src/main/java/com/github/xe11/camxdemo/camera/capture/platform/FaceStabilityAssessor.kt:23-31 | an ordered box gives ordered stability edges; a non-negative frame time gives a non-negative time in ms |
| `FaceStability.StabilitySampleIgnoresRotation` | app/src/main/java/com/github/xe11/camxdemo/camera/capture/platform/FaceStabilityAssessor.kt:22-31 | stability edges use the raw mean side, not the rotation-adjusted sizes, and do not depend on the rotation |
| `FaceStability.StepSemantics` | app/src/main/java/com/github/xe11/camxdemo/camera/capture/platform/FaceStabilityAssessor.kt:41-74 | every step stores the incoming rect; a move stores the incoming time and rejects; a still step keeps the time and accepts iff `t - stored >= 1000` |
| `FaceStability.RunTracksDwellOrigin` | app/src/main/java/com/github/xe11/camxdemo/camera/capture/platform/FaceStabilityAssessor.kt:41-74 | over any run: the state after sample i is (rect i, start of the current still run); sample i is accepted iff it did not move and the run has lasted at least 1000 ms |
| `FaceStability.KeepsAcceptingWhileStill` | app/src/main/java/com/github/xe11/camxdemo/camera/capture/platform/FaceStabilityAssessor.kt:69-70 | once accepting, every later still sample with a non-decreasing time is accepted too (no one-shot debounce) |
| `FaceStability.DwellScenario` | app/src/main/java/com/github/xe11/camxdemo/camera/capture/platform/FaceStabilityAssessor.kt:51-74 | constant rect at t0, +500, +1200, +1250 (after a first move) gives false, false, true, true |
| `FaceStability.MovementRestartsClock` | app/src/main/java/com/github/xe11/camxdemo/camera/capture/platform/FaceStabilityAssessor.kt:69-74 | a move at t0+200 rejects a still frame at t0+1100 although 1100 ms passed since t0; t0+1300 is accepted |
| `FaceStability.FaceStabilityAssessor.constructor` | app/src/main/java/com/github/xe11/camxdemo/camera/capture/platform/FaceStabilityAssessor.kt:13-20 | a new tracker has all five fields zero and the given tolerance |
| `FaceStability.FaceStabilityAssessor.AssessEdgesAreStill` | app/src/main/java/com/github/xe11/camxdemo/camera/capture/platform/FaceStabilityAssessor.kt:34-75 | the new fields and verdict are `Step` of the old fields; the incoming rect is always stored |
| `FaceStability.FaceStabilityAssessor.AssessImageIsStill` | app/src/main/java/com/github/xe11/camxdemo/camera/capture/platform/FaceStabilityAssessor.kt:22-32 | `Step` on the box scaled by the stability scale and the frame time in ms |
| `FaceStability.FaceStabilityAssessor.Reset` | app/src/main/java/com/github/xe11/camxdemo/camera/capture/platform/FaceStabilityAssessor.kt:77-83 | all five fields become 0 |
| `FaceParams.NoSmile` | app/src/main/java/com/github/xe11/camxdemo/camera/capture/platform/FaceParamsAssessor.kt:41-45 | holds iff the smile score is unknown or strictly below 0.5 |
| `FaceParams.IsEyesOpen` | app/src/main/java/com/github/xe11/camxdemo/camera/capture/platform/FaceParamsAssessor.kt:47-53 | holds iff each eye score is unknown or strictly above 0.8 |
| `FaceParams.IsFaceAngleCorrect` | app/src/main/java/com/github/xe11/camxdemo/camera/capture/platform/FaceParamsAssessor.kt:81-97 | holds iff each of the three head angles has magnitude at most 5° (both ends included) |
| `FaceParams.IsFacePositioned` | app/src/main/java/com/github/xe11/camxdemo/camera/capture/platform/FaceParamsAssessor.kt:55-79 | a positioned face has a box of positive width |
| `FaceParams.FacePositionedExactly` | app/src/main/java/com/github/xe11/camxdemo/camera/capture/platform/FaceParamsAssessor.kt:59-78 | positioned iff the centre lies in [45%, 56%) of the upright size on both axes and the width is at least 31% of the upright width; box height is not used |
| `FaceParams.PassesQualityChecks` | app/src/main/java/com/github/xe11/camxdemo/camera/capture/platform/FaceParamsAssessor.kt:34-37 | a face that passes the four stateless checks has a box of positive width whose centre lies strictly inside the upright frame |
| `FaceParams.Assess` | app/src/main/java/com/github/xe11/camxdemo/camera/capture/platform/FaceParamsAssessor.kt:15-39 | only a single face that passes every stateless check is accepted; another face count zeroes the tracker; the tracker afterwards is unchanged, zeroed, or holds this frame's rect; a single face passing every stateless check gets the tracker's `Step` verdict and new state |
| `FaceParams.WrongFaceCountResets` | app/src/main/java/com/github/xe11/camxdemo/camera/capture/platform/FaceParamsAssessor.kt:19-23 | a face count other than 1 rejects and zeroes the tracker |
| `FaceParams.QualityFailureLeavesTracker` | app/src/main/java/com/github/xe11/camxdemo/camera/capture/platform/FaceParamsAssessor.kt:34-38 | short circuit: a single face failing a stateless check is rejected and the tracker is unchanged |
| `FaceParams.AcceptedMeansEveryCriterion` | app/src/main/java/com/github/xe11/camxdemo/camera/capture/platform/FaceParamsAssessor.kt:30-39 | accepted iff one face, every criterion, stillness and a 1000 ms dwell since the stored time |
| `FaceParams.PositionedFaceMovesFromZero` | app/src/main/java/com/github/xe11/camxdemo/camera/capture/platform/FaceParamsAssessor.kt:55-79 | a positioned face is never within the tolerance of the all-zero tracker rect, whatever the frame's size and rotation |
| `FaceParams.ResetForcesFullDwell` | app/src/main/java/com/github/xe11/camxdemo/camera/capture/platform/FaceParamsAssessor.kt:19-38 | after a reset, a good single face is rejected and starts the dwell clock at its own time |
| `FaceParams.FaceParamsAssessor.constructor` | app/src/main/java/com/github/xe11/camxdemo/camera/capture/platform/FaceParamsAssessor.kt:11-13 | owns a fresh zeroed tracker with the default tolerance 5 |
| `FaceParams.FaceParamsAssessor.IsAcceptableImage` | app/src/main/java/com/github/xe11/camxdemo/camera/capture/platform/FaceParamsAssessor.kt:15-28 | the tracker's new state and the verdict are `Assess` of the old state |
| `FaceParams.FaceParamsAssessor.IsAcceptableFace` | app/src/main/java/com/github/xe11/camxdemo/camera/capture/platform/FaceParamsAssessor.kt:30-39 | `Assess` for a single face: checks in order, the tracker last |
| `FaceCapture.HandleAccepted` | app/src/main/java/com/github/xe11/camxdemo/camera/capture/platform/FaceCaptor.kt:40-55 | nothing is emitted exactly when conversion fails |
| `FaceCapture.OnFrame` | app/src/main/java/com/github/xe11/camxdemo/camera/capture/platform/FaceCaptor.kt:29-38 | a frame without a collector changes nothing; anything emitted is this frame's converted bitmap, rotated by this frame's angle |
| `FaceCapture.OnFrameContract` | app/src/main/java/com/github/xe11/camxdemo/camera/capture/platform/FaceCaptor.kt:29-38 | with no subscriber the frame changes nothing; otherwise the gate runs once; one bitmap, rotated by the frame's own angle, is emitted iff accepted and converted |
| `FaceCapture.CaptureRun` | app/src/main/java/com/github/xe11/camxdemo/camera/capture/platform/FaceCaptor.kt:29-38 | over a run of frames, every emitted bitmap is the converted bitmap of some frame of the run that had a collector, rotated by that frame's angle |
| `FaceCapture.UnsubscribedFramesAreIgnored` | app/src/main/java/com/github/xe11/camxdemo/camera/capture/platform/FaceCaptor.kt:29-32 | any run of frames without subscribers leaves the tracker unchanged (no reset) and emits nothing |
| `FaceCapture.AtMostOneEmissionPerFrame` | app/src/main/java/com/github/xe11/camxdemo/camera/capture/platform/FaceCaptor.kt:34-37 | a run emits no more bitmaps than it has frames |
| `FaceCapture.EndToEndScenario` | app/src/main/java/com/github/xe11/camxdemo/camera/capture/platform/FaceCaptor.kt:29-38 | a good face held still at 0, 500 and 1200 ms from a fresh tracker emits nothing, nothing, then its bitmap |
| `FaceCapture.NarrowBoxIsRejected` | app/src/main/java/com/github/xe11/camxdemo/camera/capture/platform/FaceParamsAssessor.kt:65-78 | a box 40..60 in a 100×100 frame (20% wide) is never accepted |
| `FaceCapture.FaceCaptor.constructor` | app/src/main/java/com/github/xe11/camxdemo/camera/capture/platform/FaceCaptor.kt:24-27 | a fresh gate with a zeroed tracker, nothing emitted |
| `FaceCapture.FaceCaptor.OnFrameReceived` | app/src/main/java/com/github/xe11/camxdemo/camera/capture/platform/FaceCaptor.kt:29-38 | tracker state and emissions follow `OnFrame` |
| `FaceCapture.FaceCaptor.HandleAcceptedImage` | app/src/main/java/com/github/xe11/camxdemo/camera/capture/platform/FaceCaptor.kt:40-55 | appends the rotated bitmap when conversion succeeds, nothing otherwise |
| `FaceBounds.FaceRect` | app/src/main/java/com/github/xe11/camxdemo/camera/capture/platform/FaceBoundsEmitter.kt:43-66 | an ordered box maps to an ordered percentage rect |
| `FaceBounds.FaceRectRotatedScales` | app/src/main/java/com/github/xe11/camxdemo/camera/capture/platform/FaceBoundsEmitter.kt:49-55 | at 90°/270° the horizontal edges are scaled by the raw height and the vertical ones by the raw width |
| `FaceBounds.FaceRectInRange` | app/src/main/java/com/github/xe11/camxdemo/camera/capture/platform/FaceBoundsEmitter.kt:52-55 | a box inside the upright image maps into [0, 100] on every edge |
| `FaceBounds.FaceBoundsOf` | app/src/main/java/com/github/xe11/camxdemo/camera/capture/platform/FaceBoundsEmitter.kt:34-36 | one rect per face, same length and order |
| `FaceBounds.FaceBoundsEmitter.constructor` | app/src/main/java/com/github/xe11/camxdemo/camera/capture/platform/FaceBoundsEmitter.kt:18-24 | a new emitter has emitted nothing |
| `FaceBounds.FaceBoundsEmitter.OnFrameReceived` | app/src/main/java/com/github/xe11/camxdemo/camera/capture/platform/FaceBoundsEmitter.kt:26-41 | exactly one emission per frame, the empty list when there is no face |
| `FaceOverlay.MutableRect.Set` | app/src/main/java/com/github/xe11/camxdemo/camera/capture/ui/FaceOverlayView.kt:32 | `rect.set(...)` overwrites all four edges of that same object in place |
| `FaceOverlay.ToPixels` | app/src/main/java/com/github/xe11/camxdemo/camera/capture/ui/FaceOverlayView.kt:28-31 | mirrored scaling: a box touching the image's left edge touches the view's right edge and vice versa; top and bottom edges map to the view's top and bottom |
| `FaceOverlay.ToPixelsKeepsOrder` | app/src/main/java/com/github/xe11/camxdemo/camera/capture/ui/FaceOverlayView.kt:28-31 | on a view of non-negative size, `left <= right` gives `left' <= right'` (mirrored) and `top <= bottom` gives `top' <= bottom'` |
| `FaceOverlay.ToPixelsInsideView` | app/src/main/java/com/github/xe11/camxdemo/camera/capture/ui/FaceOverlayView.kt:28-31 | percentages in [0, 100] land inside the view |
| `FaceOverlay.ToPixelsMirrorExample` | app/src/main/java/com/github/xe11/camxdemo/camera/capture/ui/FaceOverlayView.kt:28-31 | 10..30% of a 200-pixel view becomes 140..180: the right edge becomes the left edge |
| `FaceOverlay.FaceOverlayView.constructor` | app/src/main/java/com/github/xe11/camxdemo/camera/capture/ui/FaceOverlayView.kt:22 | the view starts with no rects |
| `FaceOverlay.FaceOverlayView.UpdateFaceBounds` | app/src/main/java/com/github/xe11/camxdemo/camera/capture/ui/FaceOverlayView.kt:24-37 | the old list is discarded; each input rect object is overwritten with `ToPixels` of its old value; the list then holds exactly those objects in input order |
| `AutoCaptureCamera.StateOf` | app/src/main/java/com/github/xe11/camxdemo/camera/capture/presentation/AutoCaptureCameraViewModel.kt:57-69 | each screen state iff its condition: no result → RequestPermissions; either denial → PermissionsError; granted → CameraCapture or, once captured, Done(dir) |
| `AutoCaptureCamera.DistinctUntilChanged` | app/src/main/java/com/github/xe11/camxdemo/camera/capture/presentation/AutoCaptureCameraViewModel.kt:71 | consecutive outputs differ, first and last state are kept, and every state seen appears |
| `AutoCaptureCamera.DistinctUntilChangedSnoc` | app/src/main/java/com/github/xe11/camxdemo/camera/capture/presentation/AutoCaptureCameraViewModel.kt:71 | a new state is passed on exactly when it differs from the state before it, and what was already passed on is unchanged: this fixes the output for every stream |
| `AutoCaptureCamera.DistinctUntilChangedKeepsChanges` | app/src/main/java/com/github/xe11/camxdemo/camera/capture/presentation/AutoCaptureCameraViewModel.kt:71 | a stream with no equal neighbours passes through unchanged |
| `AutoCaptureCamera.DistinctUntilChangedAlternating` | app/src/main/java/com/github/xe11/camxdemo/camera/capture/presentation/AutoCaptureCameraViewModel.kt:71 | states that come back later are passed on again: only adjacent repeats are dropped |
| `AutoCaptureCamera.FilterNotNull` | app/src/main/java/com/github/xe11/camxdemo/camera/capture/presentation/AutoCaptureCameraViewModel.kt:80 | the output holds exactly the saved files; a single result gives its file or nothing |
| `AutoCaptureCamera.FilterNotNullAppend` | app/src/main/java/com/github/xe11/camxdemo/camera/capture/presentation/AutoCaptureCameraViewModel.kt:79-80 | filtering distributes over concatenation of result streams |
| `AutoCaptureCamera.FailedSaveIsNotCounted` | app/src/main/java/com/github/xe11/camxdemo/camera/capture/presentation/AutoCaptureCameraViewModel.kt:79-80 | a failed save adds nothing to the count |
| `AutoCaptureCamera.SavedFiles` | app/src/main/java/com/github/xe11/camxdemo/camera/capture/presentation/AutoCaptureCameraViewModel.kt:81 | at most 5 files: all successful saves while fewer than 5, the first 5 afterwards |
| `AutoCaptureCamera.QuotaReached` | app/src/main/java/com/github/xe11/camxdemo/camera/capture/presentation/AutoCaptureCameraViewModel.kt:81-84 | the capture flag's condition: `take(5)` has let five files through |
| `AutoCaptureCamera.QuotaReachedIsStable` | app/src/main/java/com/github/xe11/camxdemo/camera/capture/presentation/AutoCaptureCameraViewModel.kt:81-84 | once reached, the quota stays reached and the taken files never change |
| `AutoCaptureCamera.QuotaReachedAtFifthSuccess` | app/src/main/java/com/github/xe11/camxdemo/camera/capture/presentation/AutoCaptureCameraViewModel.kt:77-84 | the quota flips exactly at a successful save that follows 4 others |
| `AutoCaptureCamera.SaveStep` | app/src/main/java/com/github/xe11/camxdemo/camera/capture/presentation/AutoCaptureCameraViewModel.kt:79-84 | below the quota a successful save is appended to the taken files and a failed one adds nothing; the quota is reached exactly when five are taken |
| `AutoCaptureCamera.Toggled` | app/src/main/java/com/github/xe11/camxdemo/camera/capture/presentation/AutoCaptureCameraViewModel.kt:101-107 | the toggle always changes the camera |
| `AutoCaptureCamera.ToggleTwiceRestores` | app/src/main/java/com/github/xe11/camxdemo/camera/capture/presentation/AutoCaptureCameraViewModel.kt:101-107 | two toggles restore the original selector |
| `AutoCaptureCamera.AutoCaptureCameraViewModel.constructor` | app/src/main/java/com/github/xe11/camxdemo/camera/capture/presentation/AutoCaptureCameraViewModel.kt:44-51 | no permission result, front camera, not captured, nothing saved; the state is RequestPermissions |
| `AutoCaptureCamera.AutoCaptureCameraViewModel.PrepareGalleryDirectory` | app/src/main/java/com/github/xe11/camxdemo/camera/capture/presentation/AutoCaptureCameraViewModel.kt:74-75 | the pipeline may collect from now on; nothing was saved before |
| `AutoCaptureCamera.AutoCaptureCameraViewModel.OnImageCaptured` | app/src/main/java/com/github/xe11/camxdemo/camera/capture/presentation/AutoCaptureCameraViewModel.kt:77-98 | while collecting, the save result is recorded, and the taken files and the flag follow `SavedFiles` and the quota; otherwise the bitmap is dropped; the flag never goes back to false |
| `AutoCaptureCamera.AutoCaptureCameraViewModel.OnPermissionsResult` | app/src/main/java/com/github/xe11/camxdemo/camera/capture/presentation/AutoCaptureCameraViewModel.kt:88-92 | stores the permission result |
| `AutoCaptureCamera.AutoCaptureCameraViewModel.OnSwitchCameraClicked` | app/src/main/java/com/github/xe11/camxdemo/camera/capture/presentation/AutoCaptureCameraViewModel.kt:101-107 | front becomes back and back becomes front |

## Left out

- Face detection (`FaceAnalyzer`): ML Kit's detector and its task listeners, including
  releasing each frame when detection completes. The detected faces are an input list.
- `CapturedImageSaver`: filesystem work (deleting and creating directories, JPEG files,
  time-based names). `saveImage` is an input result (`None` for a failed save), and
  `prepareGalleryDirectory` is a flag.
- Bitmap conversion and rotation: pixel operations. `toBitmap()` is an input that is
  `None` when it throws, and a rotated bitmap records its source and angle.
- `FaceOverlayView.onDraw` and `invalidate`: graphics.
- Coroutines and flows. Each `scope.launch { emit(...) }` is an append to a sequence, in
  call order. Shared-flow suspension is not modelled. `buffer(capacity = 5)` is not
  modelled, nor is the discarding of buffered bitmaps when `take(5)` completes: the
  model saves each captured bitmap as it arrives. The subscriber count is an input.
- Kotlin `Float`: probabilities and angles are `real`, so a float literal (for example
  `0.8f`) is taken as its exact decimal value.
- 32/64-bit overflow of `Int` and `Long`: integers are unbounded.
- The activities, the gallery, the view-model factories and the permission classification,
  which depends on `shouldShowRequestPermissionRationale`.
- KotlinArith.TruncDiv: only positive divisors are defined. Every division in the code
  has one (a frame side, 2, 100 or 10^6).
- ImageAnalysisUtils.PercentOf: requires a positive scale. With a zero scale Kotlin
  throws, but frame sides are always positive.
- FaceOverlay.FaceOverlayView.UpdateFaceBounds: requires the incoming rects to be distinct
  objects. The emitter builds a fresh `Rect` per face. If a list contained the same
  object twice, the code would convert it twice, and that case is not modelled.
- FaceOverlay.ToPixelsKeepsOrder: states ordering and containment for a view of
  non-negative size only. A view's size is never negative.
