/**
 * The capture session's view model: the pure mapping from the permission result
 * and the capture flag to the screen state, the quota pipeline that counts saved
 * images up to `IMAGES_TO_CAPTURE`, and the front/back camera toggle.
 */
module AutoCaptureCamera {
  import opened Wrappers

  /** `IMAGES_TO_CAPTURE`: the capture quota. */
  const IMAGES_TO_CAPTURE: nat := 5

  /** A file or directory handle, as `CapturedImageSaver` returns it. */
  datatype File = File(path: string)

  datatype PermissionsResult = Granted | Denied | DeniedNeverAskAgain

  /** The screen `State`. */
  datatype UiState = RequestPermissions | PermissionsError | CameraCapture | Done(resultDir: File)

  datatype CameraSelector = DefaultFrontCamera | DefaultBackCamera

  /** The `combine` lambda: which screen to show for a permission result and the capture flag. */
  function StateOf(permissions: Option<PermissionsResult>, captured: bool, dir: File): (st: UiState)
    ensures st == RequestPermissions <==> permissions.None?
    ensures st == PermissionsError <==> permissions == Some(Denied) || permissions == Some(DeniedNeverAskAgain)
    ensures st == CameraCapture <==> permissions == Some(Granted) && !captured
    ensures st.Done? <==> permissions == Some(Granted) && captured
    ensures st.Done? ==> st.resultDir == dir
  {
    match permissions
    case None => RequestPermissions
    case Some(Denied) => PermissionsError
    case Some(DeniedNeverAskAgain) => PermissionsError
    case Some(Granted) => if captured then Done(dir) else CameraCapture
  }

  /**
   * `distinctUntilChanged()` over the sequence of combined states: each run of equal
   * states is replaced by its first element.
   */
  function DistinctUntilChanged(states: seq<UiState>): (out: seq<UiState>)
    ensures |out| <= |states|
    ensures out == [] <==> states == []
    ensures states != [] ==> out[0] == states[0] && out[|out| - 1] == states[|states| - 1]
    ensures forall i | 0 <= i < |out| - 1 :: out[i] != out[i + 1]
    ensures forall st :: st in out <==> st in states
  {
    if |states| <= 1 then states
    else
      var rest := DistinctUntilChanged(states[1..]);
      if states[0] == states[1] then rest else [states[0]] + rest
  }

  /**
   * `distinctUntilChanged()` seen from the newest element: a new state is passed on exactly
   * when it differs from the one before it, and nothing already passed on changes.
   */
  lemma {:induction false} DistinctUntilChangedSnoc(states: seq<UiState>, x: UiState)
    ensures DistinctUntilChanged(states + [x]) ==
      if states != [] && states[|states| - 1] == x then DistinctUntilChanged(states)
      else DistinctUntilChanged(states) + [x]
    decreases |states|
  {
    var t := states + [x];
    if |states| == 0 {
      assert t == [x];
    } else if |states| == 1 {
      assert t[1..] == [x];
    } else {
      assert t[1..] == states[1..] + [x];
      assert t[0] == states[0] && t[1] == states[1];
      assert states[1..][|states[1..]| - 1] == states[|states| - 1];
      DistinctUntilChangedSnoc(states[1..], x);
    }
  }

  /** A stream without equal neighbours passes through `distinctUntilChanged()` unchanged. */
  lemma {:induction false} DistinctUntilChangedKeepsChanges(states: seq<UiState>)
    requires forall i | 0 <= i < |states| - 1 :: states[i] != states[i + 1]
    ensures DistinctUntilChanged(states) == states
    decreases |states|
  {
    if |states| > 1 {
      var rest := states[1..];
      assert forall i | 0 <= i < |rest| - 1 :: rest[i] != rest[i + 1] by {
        forall i | 0 <= i < |rest| - 1 ensures rest[i] != rest[i + 1] {
          assert rest[i] == states[i + 1] && rest[i + 1] == states[i + 2];
        }
      }
      DistinctUntilChangedKeepsChanges(rest);
      assert states == [states[0]] + rest;
    }
  }

  /** Alternating states are all passed on, in order, repeats of earlier states included. */
  lemma DistinctUntilChangedAlternating()
    ensures DistinctUntilChanged([RequestPermissions, PermissionsError, CameraCapture, PermissionsError, CameraCapture])
         == [RequestPermissions, PermissionsError, CameraCapture, PermissionsError, CameraCapture]
  {
    var s := [RequestPermissions, PermissionsError, CameraCapture, PermissionsError, CameraCapture];
    DistinctUntilChangedKeepsChanges(s);
  }

  /** `filterNotNull()` over the results of `saveImage`: the saved files, in order. */
  function FilterNotNull(results: seq<Option<File>>): (files: seq<File>)
    ensures |files| <= |results|
    ensures forall f :: f in files <==> Some(f) in results
    ensures |results| == 1 ==> files == if results[0].Some? then [results[0].value] else []
  {
    if results == [] then []
    else
      var last := results[|results| - 1];
      assert results == results[..|results| - 1] + [last];
      FilterNotNull(results[..|results| - 1]) + (if last.Some? then [last.value] else [])
  }

  /** `filterNotNull()` distributes over concatenation of result streams. */
  lemma {:induction false} FilterNotNullAppend(a: seq<Option<File>>, b: seq<Option<File>>)
    ensures FilterNotNull(a + b) == FilterNotNull(a) + FilterNotNull(b)
    decreases |b|
  {
    if b != [] {
      var b' := b[..|b| - 1];
      assert (a + b)[..|a + b| - 1] == a + b';
      assert (a + b)[|a + b| - 1] == b[|b| - 1];
      FilterNotNullAppend(a, b');
    } else {
      assert a + b == a;
    }
  }

  /** A failed save (`null`) adds nothing: it is neither counted nor retried. */
  lemma FailedSaveIsNotCounted(results: seq<Option<File>>)
    ensures FilterNotNull(results + [None]) == FilterNotNull(results)
  {
    FilterNotNullAppend(results, [None]);
  }

  /** The files let through by `take(IMAGES_TO_CAPTURE)`. */
  function SavedFiles(results: seq<Option<File>>): (files: seq<File>)
    ensures |files| <= IMAGES_TO_CAPTURE
    ensures files <= FilterNotNull(results)
    ensures |FilterNotNull(results)| < IMAGES_TO_CAPTURE ==> files == FilterNotNull(results)
    ensures |FilterNotNull(results)| >= IMAGES_TO_CAPTURE ==> files == FilterNotNull(results)[..IMAGES_TO_CAPTURE]
  {
    var all := FilterNotNull(results);
    if |all| <= IMAGES_TO_CAPTURE then all else all[..IMAGES_TO_CAPTURE]
  }

  /** The quota is met once five saves have succeeded. */
  predicate QuotaReached(results: seq<Option<File>>): (reached: bool)
    ensures reached <==> |SavedFiles(results)| == IMAGES_TO_CAPTURE
  {
    |FilterNotNull(results)| >= IMAGES_TO_CAPTURE
  }

  /** More results never undo a reached quota, so the capture flag flips at most once. */
  lemma QuotaReachedIsStable(results: seq<Option<File>>, more: seq<Option<File>>)
    requires QuotaReached(results)
    ensures QuotaReached(results + more)
    ensures SavedFiles(results + more) == SavedFiles(results)
  {
    FilterNotNullAppend(results, more);
    assert SavedFiles(results) == FilterNotNull(results)[..IMAGES_TO_CAPTURE];
    assert (FilterNotNull(results) + FilterNotNull(more))[..IMAGES_TO_CAPTURE] == FilterNotNull(results)[..IMAGES_TO_CAPTURE];
  }

  /** The quota is reached exactly at the fifth successful save, never at a failed one. */
  lemma QuotaReachedAtFifthSuccess(results: seq<Option<File>>, r: Option<File>)
    requires !QuotaReached(results) && QuotaReached(results + [r])
    ensures r.Some?
    ensures |FilterNotNull(results)| == IMAGES_TO_CAPTURE - 1
    ensures SavedFiles(results + [r]) == FilterNotNull(results) + [r.value]
  {
    FilterNotNullAppend(results, [r]);
  }

  /**
   * One save result below the quota: a success is appended to the taken files, a failure
   * adds nothing, and the quota is reached exactly when five files are taken.
   */
  lemma SaveStep(results: seq<Option<File>>, r: Option<File>)
    requires !QuotaReached(results)
    ensures SavedFiles(results + [r]) == SavedFiles(results) + (if r.Some? then [r.value] else [])
    ensures QuotaReached(results + [r]) <==> |SavedFiles(results + [r])| == IMAGES_TO_CAPTURE
    ensures (results + [r])[..|results|] == results
  {
    FilterNotNullAppend(results, [r]);
    assert (results + [r])[..|results|] == results;
  }

  /** `onSwitchCameraClicked`: front becomes back and anything else becomes front. */
  function Toggled(c: CameraSelector): (t: CameraSelector)
    ensures t != c
  {
    if c == DefaultFrontCamera then DefaultBackCamera else DefaultFrontCamera
  }

  /** Two clicks restore the original camera. */
  lemma ToggleTwiceRestores(c: CameraSelector)
    ensures Toggled(Toggled(c)) == c
  {
  }

  /** `AutoCaptureCameraViewModel`. */
  class AutoCaptureCameraViewModel {
    /** `capturedImageSaver.directory()`: the session's output directory. */
    const directory: File
    var permissionsGranted: Option<PermissionsResult>
    var cameraSelector: CameraSelector
    var imagesCaptured: bool
    /** Whether `prepareGalleryDirectory()` has returned, so that the save pipeline collects. */
    var galleryPrepared: bool
    /** The files `take(IMAGES_TO_CAPTURE)` has let through. */
    var saved: seq<File>
    /** Every `saveImage` result, in order. */
    ghost var saveResults: seq<Option<File>>

    ghost predicate Valid()
      reads this
    {
      && (!galleryPrepared ==> saveResults == [])
      && saved == SavedFiles(saveResults)
      && imagesCaptured == QuotaReached(saveResults)
      // the collector stops at the fifth success: nothing is saved after it
      && (saveResults != [] ==> !QuotaReached(saveResults[..|saveResults| - 1]))
    }

    /** The save pipeline is collecting: the directory is ready and the quota is not met. */
    predicate Collecting()
      reads this
    {
      galleryPrepared && !imagesCaptured
    }

    /** The current value of the `state` flow. */
    function State(): UiState
      reads this
    {
      StateOf(permissionsGranted, imagesCaptured, directory)
    }

    constructor (directory: File)
      ensures Valid()
      ensures this.directory == directory
      ensures permissionsGranted == None && cameraSelector == DefaultFrontCamera
      ensures !imagesCaptured && !galleryPrepared && saveResults == []
      ensures State() == RequestPermissions
    {
      this.directory := directory;
      permissionsGranted := None;
      cameraSelector := DefaultFrontCamera;
      imagesCaptured := false;
      galleryPrepared := false;
      saved := [];
      saveResults := [];
    }

    /** The first step of the `init` coroutine: `prepareGalleryDirectory()` has returned. */
    method PrepareGalleryDirectory()
      requires Valid()
      modifies this
      ensures Valid() && galleryPrepared
      ensures saveResults == old(saveResults) && saved == old(saved) && imagesCaptured == old(imagesCaptured)
      ensures permissionsGranted == old(permissionsGranted) && cameraSelector == old(cameraSelector)
    {
      galleryPrepared := true;
    }

    /**
     * `onImageCaptured(bitmap)`, followed through the save pipeline. `saveResult` is what
     * `saveImage` returns for this bitmap. While the pipeline does not collect (the
     * directory is not ready yet, or the quota is met) the shared flow has no subscriber
     * and the bitmap is dropped without being saved.
     */
    method OnImageCaptured(saveResult: Option<File>)
      requires Valid()
      modifies this`saved, this`imagesCaptured, this`saveResults
      ensures Valid()
      ensures old(Collecting()) ==> saveResults == old(saveResults) + [saveResult]
      ensures !old(Collecting()) ==> saveResults == old(saveResults) && saved == old(saved)
      ensures old(imagesCaptured) ==> imagesCaptured
      ensures galleryPrepared == old(galleryPrepared)
      ensures permissionsGranted == old(permissionsGranted) && cameraSelector == old(cameraSelector)
    {
      if !galleryPrepared || imagesCaptured {
        return;
      }
      SaveStep(saveResults, saveResult);
      match saveResult {
        case None =>
        case Some(file) =>
          saved := saved + [file];
          if |saved| == IMAGES_TO_CAPTURE {
            imagesCaptured := true;
          }
      }
      saveResults := saveResults + [saveResult];
    }

    /** `onPermissionsResult(permissionsResult)`. */
    method OnPermissionsResult(permissionsResult: PermissionsResult)
      requires Valid()
      modifies this`permissionsGranted
      ensures Valid()
      ensures permissionsGranted == Some(permissionsResult)
    {
      permissionsGranted := Some(permissionsResult);
    }

    /** `onSwitchCameraClicked()`. */
    method OnSwitchCameraClicked()
      requires Valid()
      modifies this`cameraSelector
      ensures Valid()
      ensures cameraSelector == Toggled(old(cameraSelector))
    {
      cameraSelector := if cameraSelector == DefaultFrontCamera then DefaultBackCamera else DefaultFrontCamera;
    }
  }
}
