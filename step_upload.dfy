/**
 * The three-step upload component (`src/components/ImageUpload.tsx`): a list
 * of selected images, the step the dialog is on (upload, analyze, save), and
 * whether the metadata dialog is open. It owns a metadata state, of which it
 * only resets, and the upload hook's state.
 */
module StepImageUpload {
  import opened Wrappers
  import opened UploadTypes
  import opened ImageList
  import opened MetadataEditing
  import opened UploadHook

  datatype Step = UploadStep | AnalyzeStep | SaveStep

  /** Which handler the dialog's button runs. */
  datatype ButtonAction = UploadAction | SaveAction

  /** `getStepContent()`. */
  datatype StepContent = StepContent(title: string, description: string, buttonText: string, action: ButtonAction, showSpinner: bool)

  /** Some entry has no truthy `uploadedUrl` yet (`selectedImages.filter(img => !img.uploadedUrl)` is non-empty). */
  predicate AnyPending(images: seq<ImageFile>) {
    exists k :: 0 <= k < |images| && !IsUploaded(images[k])
  }

  /** The step `handleUpload` moves to; `uploadSucceeded` is whether the awaited upload resolved. */
  function StepAfterUpload(images: seq<ImageFile>, title: string, uploadSucceeded: bool, step: Step): Step {
    if images == [] || title == "" then step
    else if AnyPending(images) then (if uploadSucceeded then AnalyzeStep else step)
    else SaveStep
  }

  function ContentFor(step: Step, anyAnalyzing: bool, isUploading: bool): StepContent {
    match step
    case AnalyzeStep =>
      StepContent("Analyzing Images", "Please wait while we analyze your images...", "Save Images", SaveAction, anyAnalyzing)
    case SaveStep =>
      StepContent("Save Images", "Review the analysis results and save your images.", "Save Images", SaveAction, false)
    case UploadStep =>
      StepContent("Upload Images", "Add details for your images before uploading.", "Upload & Analyze", UploadAction, isUploading)
  }

  /** The form's `disabled` flag. */
  predicate FormDisabled(step: Step, images: seq<ImageFile>) {
    step == AnalyzeStep && AnyAnalyzing(images)
  }

  class ImageUpload {
    var showMetadataDialog: bool
    var selectedImages: seq<ImageFile>
    var uploadStep: Step
    const state: MetadataState
    const uploader: ImageUploader

    constructor ()
      ensures !showMetadataDialog && selectedImages == [] && uploadStep == UploadStep
      ensures fresh(state) && fresh(uploader)
      ensures state.metadata == DefaultMetadata && state.initialMetadata == "" && state.tagInput == "" && !uploader.isUploading
    {
      showMetadataDialog := false;
      selectedImages := [];
      uploadStep := UploadStep;
      state := new MetadataState();
      uploader := new ImageUploader();
    }

    method HandleFileSelect(files: seq<Selection>)
      modifies this
      ensures files == [] ==> selectedImages == old(selectedImages) && showMetadataDialog == old(showMetadataDialog) && uploadStep == old(uploadStep)
      ensures files != [] ==> selectedImages == AddSelection(old(selectedImages), files) && showMetadataDialog && uploadStep == UploadStep
    {
      if |files| == 0 {
        return;
      }
      selectedImages := AddSelection(selectedImages, files);
      showMetadataDialog := true;
      uploadStep := UploadStep;
    }

    method RemoveImage(index: int)
      modifies this
      ensures selectedImages == RemoveIndex(old(selectedImages), index)
      ensures showMetadataDialog == (old(showMetadataDialog) && selectedImages != [])
      ensures uploadStep == old(uploadStep)
    {
      var remaining := RemoveIndex(selectedImages, index);
      selectedImages := remaining;
      if |remaining| == 0 {
        showMetadataDialog := false;
      }
    }

    method ClearFiles()
      modifies this, state
      ensures selectedImages == [] && !showMetadataDialog && uploadStep == UploadStep
      ensures state.metadata == DefaultMetadata && state.initialMetadata == "" && state.tagInput == ""
    {
      selectedImages := [];
      showMetadataDialog := false;
      state.ResetMetadata();
      uploadStep := UploadStep;
    }

    method BeginAnalysis(index: int)
      modifies this
      ensures selectedImages == StartAnalysis(old(selectedImages), index)
      ensures showMetadataDialog == old(showMetadataDialog) && uploadStep == old(uploadStep)
    {
      selectedImages := StartAnalysis(selectedImages, index);
    }

    /** The settling half of `handleAnalyze`; `outcome` is what `analyzeImage` resolved or rejected with. */
    method SettleAnalysis(imageUrl: string, index: int, outcome: Result<ImageAnalysis, string>)
      modifies this
      ensures selectedImages == ResolveAnalysis(old(selectedImages), index, imageUrl, outcome)
      ensures showMetadataDialog == old(showMetadataDialog) && uploadStep == old(uploadStep)
    {
      selectedImages := ResolveAnalysis(selectedImages, index, imageUrl, outcome);
    }

    /** `handleAnalyze` with no other update in between its two halves. */
    method HandleAnalyze(imageUrl: string, index: int, outcome: Result<ImageAnalysis, string>)
      modifies this
      ensures selectedImages == ResolveAnalysis(StartAnalysis(old(selectedImages), index), index, imageUrl, outcome)
      ensures showMetadataDialog == old(showMetadataDialog) && uploadStep == old(uploadStep)
    {
      BeginAnalysis(index);
      SettleAnalysis(imageUrl, index, outcome);
    }

    /** The step transition of `handleUpload`; the upload itself is not part of this model. */
    method HandleUpload(title: string, uploadSucceeded: bool)
      modifies this
      ensures uploadStep == StepAfterUpload(old(selectedImages), title, uploadSucceeded, old(uploadStep))
      ensures selectedImages == old(selectedImages) && showMetadataDialog == old(showMetadataDialog)
    {
      if |selectedImages| == 0 || title == "" {
        return;
      }
      var pending := false;
      var k := 0;
      while k < |selectedImages|
        invariant 0 <= k <= |selectedImages|
        invariant pending <==> exists j :: 0 <= j < k && !IsUploaded(selectedImages[j])
      {
        if !IsUploaded(selectedImages[k]) {
          pending := true;
        }
        k := k + 1;
      }
      if pending {
        if uploadSucceeded {
          uploadStep := AnalyzeStep;
        }
      } else {
        uploadStep := SaveStep;
      }
    }

    /**
     * `handleSave`: saves the batch when the list is non-empty, there is a
     * title, and no entry is analyzing; a successful save clears the dialog.
     */
    method HandleSave(m: Metadata, user: Result<string, string>) returns (records: seq<InsertRecord>)
      modifies this, state, uploader
      ensures !CanSave(old(selectedImages), m) ==>
        && records == [] && selectedImages == old(selectedImages) && uploadStep == old(uploadStep)
        && showMetadataDialog == old(showMetadataDialog)
        && state.metadata == old(state.metadata) && uploader.isUploading == old(uploader.isUploading)
      ensures CanSave(old(selectedImages), m) && user.Success? && user.value != "" ==>
        && records == RecordsFrom(old(selectedImages), m, user.value, 0)
        && selectedImages == [] && !showMetadataDialog && uploadStep == UploadStep
        && state.metadata == DefaultMetadata && state.initialMetadata == "" && state.tagInput == ""
        && !uploader.isUploading
      ensures CanSave(old(selectedImages), m) && (user.Failure? || user.value == "") ==>
        && records == [] && selectedImages == old(selectedImages) && uploadStep == old(uploadStep)
        && showMetadataDialog == old(showMetadataDialog)
        && state.metadata == old(state.metadata) && !uploader.isUploading
      ensures !(CanSave(old(selectedImages), m) && user.Success? && user.value != "") ==>
        state.initialMetadata == old(state.initialMetadata) && state.tagInput == old(state.tagInput)
    {
      records := [];
      if |selectedImages| == 0 || m.title == "" {
        return;
      }
      if AnyAnalyzing(selectedImages) {
        return;
      }
      var outcome;
      records, outcome := uploader.SaveImages(selectedImages, m, user);
      if outcome == Saved {
        ClearFiles();
      }
    }

    function Content(): StepContent
      reads this, uploader
    {
      ContentFor(uploadStep, AnyAnalyzing(selectedImages), uploader.isUploading)
    }

    predicate Disabled()
      reads this
    {
      FormDisabled(uploadStep, selectedImages)
    }
  }

  // ---------------------------------------------------------------- properties

  /**
   * `handleUpload` leaves the step alone for an empty list or title, moves to
   * analysis only when something is pending and the upload resolved, and to
   * saving exactly when everything is already stored.
   */
  lemma StepAfterUploadCases(images: seq<ImageFile>, title: string, uploadSucceeded: bool, step: Step)
    ensures images == [] || title == "" ==> StepAfterUpload(images, title, uploadSucceeded, step) == step
    ensures StepAfterUpload(images, title, uploadSucceeded, step) == SaveStep && step != SaveStep ==>
      images != [] && title != "" && forall k :: 0 <= k < |images| ==> IsUploaded(images[k])
    ensures StepAfterUpload(images, title, uploadSucceeded, step) == AnalyzeStep && step != AnalyzeStep ==>
      uploadSucceeded && AnyPending(images)
    ensures images != [] && title != "" && !AnyPending(images) ==> StepAfterUpload(images, title, uploadSucceeded, step) == SaveStep
  {
  }

  /**
   * The dialog's button follows `handleUpload`: starting on the upload step it
   * keeps uploading, with a spinner while the upload runs, until an upload of
   * a titled list moves the step on, and from then on it saves. On the analysis
   * step the spinner shows exactly while the form is disabled; on the save
   * step it never shows.
   */
  lemma ButtonFollowsUpload(images: seq<ImageFile>, title: string, uploadSucceeded: bool, isUploading: bool)
    ensures ContentFor(UploadStep, AnyAnalyzing(images), isUploading).action == UploadAction
    ensures ContentFor(UploadStep, AnyAnalyzing(images), isUploading).showSpinner == isUploading
    ensures var next := StepAfterUpload(images, title, uploadSucceeded, UploadStep);
      ContentFor(next, AnyAnalyzing(images), isUploading).action == SaveAction <==>
        images != [] && title != "" && (uploadSucceeded || !AnyPending(images))
    ensures ContentFor(AnalyzeStep, AnyAnalyzing(images), isUploading).showSpinner == FormDisabled(AnalyzeStep, images)
    ensures !ContentFor(SaveStep, AnyAnalyzing(images), isUploading).showSpinner
  {
  }

  /** Once every analysis has settled the form is enabled again, whatever the step. */
  lemma SettledFormIsEnabled(step: Step, images: seq<ImageFile>, index: int, imageUrl: string, outcome: Result<ImageAnalysis, string>)
    requires !AnyAnalyzing(images)
    ensures !FormDisabled(step, images)
    ensures !FormDisabled(step, ResolveAnalysis(StartAnalysis(images, index), index, imageUrl, outcome))
  {
    SettledAnalysisLeavesNoneAnalyzing(images, index, imageUrl, outcome);
  }
}
