/**
 * The dialog upload component (`src/components/upload/ImageUpload.tsx`): the
 * selected images, the metadata dialog and its unsaved-changes confirmation,
 * the batch's metadata state and the upload hook's state. Uploading runs the
 * hook's loop, and each stored file is analyzed before the next is uploaded.
 */
module DialogImageUpload {
  import opened Wrappers
  import opened Text
  import opened UploadTypes
  import opened Json
  import opened ImageList
  import opened MetadataEditing
  import opened UploadHook

  /** `name.split('.')[0]`: the file name up to its first dot. */
  function TitleFromFileName(name: string): (r: string)
    ensures r <= name
    ensures '.' !in r
  {
    var pieces := Split(name, IsDot);
    JoinSplit(name, IsDot, '.');
    SplitPrefix(name);
    pieces[0]
  }

  /** The first piece of a split is where the string starts. */
  lemma {:induction false} SplitPrefix(s: string)
    ensures Split(s, IsDot)[0] <= s
  {
    if |s| > 0 {
      SplitPrefix(s[1..]);
    }
  }

  /** A change that supplies every key of `m`. */
  function Whole(m: Metadata): (p: MetadataPatch)
    ensures forall old_ :: Patched(old_, p) == m
  {
    MetadataPatch(Some(m.title), Some(m.description), Some(m.tags), Some(m.objects), Some(m.scenes), Some(m.emotions), Some(m.technical))
  }

  /** The metadata after a selection: a lone file names an untitled batch. */
  function TitledBySelection(m: Metadata, files: seq<Selection>): Metadata {
    if m.title == "" && |files| == 1 then m.(title := TitleFromFileName(files[0].file.name)) else m
  }

  /** The list after `handleAnalyze(call.url, call.index)` runs for each call in turn. */
  function AnalyzeAll(images: seq<ImageFile>, calls: seq<AnalyzeCall>, analyze: string -> Result<ImageAnalysis, string>): (r: seq<ImageFile>)
    ensures |r| == |images|
    decreases |calls|
  {
    if calls == [] then images
    else
      var c := calls[0];
      AnalyzeAll(ResolveAnalysis(StartAnalysis(images, c.index), c.index, c.url, analyze(c.url)), calls[1..], analyze)
  }

  /** The Upload button is shown while no entry is stored; otherwise Save All is. */
  predicate ShowsUploadButton(images: seq<ImageFile>) {
    !AnyUploaded(images)
  }

  predicate SaveAllDisabled(isUploading: bool, m: Metadata, images: seq<ImageFile>) {
    isUploading || m.title == "" || AnyAnalyzing(images)
  }

  class ImageUpload {
    var showMetadataDialog: bool
    var showUnsavedChangesDialog: bool
    var selectedImages: seq<ImageFile>
    const state: MetadataState
    const uploader: ImageUploader

    constructor ()
      ensures !showMetadataDialog && !showUnsavedChangesDialog && selectedImages == []
      ensures fresh(state) && fresh(uploader)
      ensures state.metadata == DefaultMetadata && state.initialMetadata == "" && state.tagInput == "" && !uploader.isUploading
    {
      showMetadataDialog := false;
      showUnsavedChangesDialog := false;
      selectedImages := [];
      state := new MetadataState();
      uploader := new ImageUploader();
    }

    /**
     * `handleFileSelect`: appends the selection and opens the dialog; a lone
     * file selected while the title is empty names the batch, and the named
     * metadata becomes the saved snapshot.
     */
    method HandleFileSelect(files: seq<Selection>)
      modifies this, state
      ensures files == [] ==>
        && selectedImages == old(selectedImages) && showMetadataDialog == old(showMetadataDialog)
        && state.metadata == old(state.metadata) && state.initialMetadata == old(state.initialMetadata)
      ensures files != [] ==>
        && selectedImages == AddSelection(old(selectedImages), files) && showMetadataDialog
        && state.metadata == TitledBySelection(old(state.metadata), files)
      ensures files != [] && old(state.metadata).title == "" && |files| == 1 ==>
        state.initialMetadata == Serialize(state.metadata)
      ensures !(old(state.metadata).title == "" && |files| == 1) ==> state.initialMetadata == old(state.initialMetadata)
      ensures showUnsavedChangesDialog == old(showUnsavedChangesDialog) && state.tagInput == old(state.tagInput)
    {
      if |files| == 0 {
        return;
      }
      selectedImages := AddSelection(selectedImages, files);
      if state.metadata.title == "" && |files| == 1 {
        var newMetadata := state.metadata.(title := TitleFromFileName(files[0].file.name));
        state.UpdateMetadata(Whole(newMetadata));
        state.SetInitialMetadata(Serialize(newMetadata));
      }
      showMetadataDialog := true;
    }

    /** `removeImage`: removing the last entry closes the dialog and resets the metadata. */
    method RemoveImage(index: int)
      modifies this, state
      ensures selectedImages == RemoveIndex(old(selectedImages), index)
      ensures selectedImages == [] ==>
        && !showMetadataDialog && state.metadata == DefaultMetadata && state.initialMetadata == "" && state.tagInput == ""
      ensures selectedImages != [] ==>
        && showMetadataDialog == old(showMetadataDialog)
        && state.metadata == old(state.metadata) && state.initialMetadata == old(state.initialMetadata)
        && state.tagInput == old(state.tagInput)
      ensures showUnsavedChangesDialog == old(showUnsavedChangesDialog)
    {
      var remaining := RemoveIndex(selectedImages, index);
      selectedImages := remaining;
      if |remaining| == 0 {
        showMetadataDialog := false;
        state.ResetMetadata();
      }
    }

    method HandleDiscardChanges()
      modifies this, state
      ensures !showUnsavedChangesDialog && !showMetadataDialog && selectedImages == []
      ensures state.metadata == DefaultMetadata && state.initialMetadata == "" && state.tagInput == ""
    {
      showUnsavedChangesDialog := false;
      showMetadataDialog := false;
      selectedImages := [];
      state.ResetMetadata();
    }

    /** `handleClose`: asks for confirmation when there are unsaved changes, else discards. */
    method HandleClose()
      modifies this, state
      ensures Unsaved(old(state.initialMetadata), old(state.metadata)) ==>
        && showUnsavedChangesDialog && showMetadataDialog == old(showMetadataDialog)
        && selectedImages == old(selectedImages) && state.metadata == old(state.metadata)
        && state.initialMetadata == old(state.initialMetadata) && state.tagInput == old(state.tagInput)
      ensures !Unsaved(old(state.initialMetadata), old(state.metadata)) ==>
        && !showUnsavedChangesDialog && !showMetadataDialog && selectedImages == []
        && state.metadata == DefaultMetadata && state.initialMetadata == "" && state.tagInput == ""
    {
      var unsaved := state.HasUnsavedChanges();
      if unsaved {
        showUnsavedChangesDialog := true;
      } else {
        HandleDiscardChanges();
      }
    }

    /** `handleAnalyze` with no other update in between its two halves; `outcome` is what `analyzeImage` settled with. */
    method HandleAnalyze(imageUrl: string, index: int, outcome: Result<ImageAnalysis, string>)
      modifies this
      ensures selectedImages == ResolveAnalysis(StartAnalysis(old(selectedImages), index), index, imageUrl, outcome)
      ensures showMetadataDialog == old(showMetadataDialog) && showUnsavedChangesDialog == old(showUnsavedChangesDialog)
    {
      selectedImages := StartAnalysis(selectedImages, index);
      selectedImages := ResolveAnalysis(selectedImages, index, imageUrl, outcome);
    }

    /**
     * `handleUpload`: runs the upload loop over the whole list, analyzing each
     * stored file as the loop reaches it; `respond` gives the preprocessing
     * replies and `analyze` the analysis outcome for a URL.
     */
    method HandleUpload(respond: nat -> UploadReply, analyze: string -> Result<ImageAnalysis, string>) returns (error: Option<string>)
      modifies this, uploader
      ensures old(selectedImages) == [] ==> selectedImages == [] && error.None? && uploader.isUploading == old(uploader.isUploading)
      ensures old(selectedImages) != [] ==>
        && error == UploadFrom(old(selectedImages), respond, 0).error
        && selectedImages == AnalyzeAll(old(selectedImages), UploadFrom(old(selectedImages), respond, 0).calls, analyze)
        && !uploader.isUploading
      ensures showMetadataDialog == old(showMetadataDialog) && showUnsavedChangesDialog == old(showUnsavedChangesDialog)
    {
      if |selectedImages| == 0 {
        return None;
      }
      var calls;
      calls, error := uploader.UploadImages(selectedImages, respond);
      ghost var start := selectedImages;
      var i := 0;
      while i < |calls|
        invariant 0 <= i <= |calls|
        invariant AnalyzeAll(start, calls, analyze) == AnalyzeAll(selectedImages, calls[i..], analyze)
        invariant !uploader.isUploading
        invariant showMetadataDialog == old(showMetadataDialog) && showUnsavedChangesDialog == old(showUnsavedChangesDialog)
      {
        HandleAnalyze(calls[i].url, calls[i].index, analyze(calls[i].url));
        assert calls[i..][1..] == calls[i + 1..];
        i := i + 1;
      }
    }

    /** `handleSave`: with a list and a title, saves through the hook; a successful save discards the dialog. */
    method HandleSave(user: Result<string, string>) returns (records: seq<InsertRecord>)
      modifies this, state, uploader
      ensures !CanSave(old(selectedImages), old(state.metadata)) ==>
        && records == [] && selectedImages == old(selectedImages) && state.metadata == old(state.metadata)
        && showMetadataDialog == old(showMetadataDialog) && uploader.isUploading == old(uploader.isUploading)
      ensures CanSave(old(selectedImages), old(state.metadata)) && user.Success? && user.value != "" ==>
        && records == RecordsFrom(old(selectedImages), old(state.metadata), user.value, 0)
        && selectedImages == [] && !showMetadataDialog && !showUnsavedChangesDialog && !uploader.isUploading
        && state.metadata == DefaultMetadata && state.initialMetadata == "" && state.tagInput == ""
      ensures CanSave(old(selectedImages), old(state.metadata)) && (user.Failure? || user.value == "") ==>
        && records == [] && selectedImages == old(selectedImages) && state.metadata == old(state.metadata)
        && showMetadataDialog == old(showMetadataDialog) && !uploader.isUploading
      ensures !(CanSave(old(selectedImages), old(state.metadata)) && user.Success? && user.value != "") ==>
        && showUnsavedChangesDialog == old(showUnsavedChangesDialog)
        && state.initialMetadata == old(state.initialMetadata) && state.tagInput == old(state.tagInput)
    {
      records := [];
      if |selectedImages| == 0 || state.metadata.title == "" {
        return;
      }
      var outcome;
      records, outcome := uploader.SaveImages(selectedImages, state.metadata, user);
      if outcome == Saved {
        HandleDiscardChanges();
      }
    }

    predicate UploadButtonShown()
      reads this
    {
      ShowsUploadButton(selectedImages)
    }

    predicate SaveAllButtonDisabled()
      reads this, state, uploader
    {
      SaveAllDisabled(uploader.isUploading, state.metadata, selectedImages)
    }
  }

  // ---------------------------------------------------------------- properties

  /** The title taken from a file name is the name's text before its first dot, or the whole name without one. */
  lemma TitleFromFileNameCases(stem: string, rest: string)
    requires '.' !in stem
    ensures TitleFromFileName(stem) == stem
    ensures TitleFromFileName(stem + "." + rest) == stem
  {
    SplitNoSeparator(stem, IsDot);
    SplitAfterPiece(stem, rest, IsDot, '.');
  }

  /**
   * A selection changes nothing but the title, and that only for a lone file
   * picked while the batch is untitled: the file name up to its first dot
   * becomes the title, so `photo.final.png` names the batch `photo`.
   */
  lemma SelectionNamesUntitledBatch(m: Metadata, files: seq<Selection>, stem: string, rest: string)
    requires '.' !in stem
    ensures TitledBySelection(m, files).(title := m.title) == m
    ensures m.title != "" || |files| != 1 ==> TitledBySelection(m, files) == m
    ensures m.title == "" && |files| == 1 && files[0].file.name == stem ==> TitledBySelection(m, files).title == stem
    ensures m.title == "" && |files| == 1 && files[0].file.name == stem + "." + rest ==>
      TitledBySelection(m, files).title == stem
  {
    TitleFromFileNameCases(stem, rest);
  }

  /** Right after a lone file names the batch there is nothing unsaved. */
  lemma NamedBatchIsSaved(m: Metadata, files: seq<Selection>)
    ensures !Unsaved(Serialize(TitledBySelection(m, files)), TitledBySelection(m, files))
  {
  }

  /**
   * Running the analyses of an upload keeps the list's length, leaves no
   * entry analyzing when none was, and leaves the entries no call names
   * untouched.
   */
  lemma {:induction false} AnalyzeAllSettles(images: seq<ImageFile>, calls: seq<AnalyzeCall>, analyze: string -> Result<ImageAnalysis, string>)
    requires !AnyAnalyzing(images)
    ensures !AnyAnalyzing(AnalyzeAll(images, calls, analyze))
    ensures forall k :: 0 <= k < |images| && (forall c :: 0 <= c < |calls| ==> calls[c].index != k) ==>
      AnalyzeAll(images, calls, analyze)[k] == images[k]
    decreases |calls|
  {
    if calls != [] {
      var c := calls[0];
      var next := ResolveAnalysis(StartAnalysis(images, c.index), c.index, c.url, analyze(c.url));
      SettledAnalysisLeavesNoneAnalyzing(images, c.index, c.url, analyze(c.url));
      AnalyzeAllSettles(next, calls[1..], analyze);
      forall k | 0 <= k < |images| && (forall d :: 0 <= d < |calls| ==> calls[d].index != k)
        ensures AnalyzeAll(images, calls, analyze)[k] == images[k]
      {
        assert calls[0].index != k;
        assert forall d :: 0 <= d < |calls[1..]| ==> calls[1..][d] == calls[d + 1];
      }
    }
  }

  /**
   * A successful analysis of a call's entry stores it: the entry gets the
   * call's URL and the analysis, provided no later call names it again.
   */
  lemma {:induction false} AnalyzedEntryIsStored(images: seq<ImageFile>, calls: seq<AnalyzeCall>, analyze: string -> Result<ImageAnalysis, string>, c: nat)
    requires c < |calls| && 0 <= calls[c].index < |images| && analyze(calls[c].url).Success?
    requires forall d :: c < d < |calls| ==> calls[d].index != calls[c].index
    ensures AnalyzeAll(images, calls, analyze)[calls[c].index].uploadedUrl == Some(calls[c].url)
    ensures AnalyzeAll(images, calls, analyze)[calls[c].index].analysis == Some(analyze(calls[c].url).value)
    ensures !AnalyzeAll(images, calls, analyze)[calls[c].index].isAnalyzing
    decreases |calls|
  {
    var first := calls[0];
    var next := ResolveAnalysis(StartAnalysis(images, first.index), first.index, first.url, analyze(first.url));
    if c == 0 {
      var k := first.index;
      assert next[k].uploadedUrl == Some(first.url) && next[k].analysis == Some(analyze(first.url).value) && !next[k].isAnalyzing;
      UntouchedByLaterCalls(next, calls[1..], analyze, k);
    } else {
      assert calls[1..][c - 1] == calls[c];
      AnalyzedEntryIsStored(next, calls[1..], analyze, c - 1);
    }
  }

  /** An entry no call names keeps its value through the analyses. */
  lemma {:induction false} UntouchedByLaterCalls(images: seq<ImageFile>, calls: seq<AnalyzeCall>, analyze: string -> Result<ImageAnalysis, string>, k: int)
    requires 0 <= k < |images|
    requires forall d :: 0 <= d < |calls| ==> calls[d].index != k
    ensures AnalyzeAll(images, calls, analyze)[k] == images[k]
    decreases |calls|
  {
    if calls != [] {
      var first := calls[0];
      var next := ResolveAnalysis(StartAnalysis(images, first.index), first.index, first.url, analyze(first.url));
      assert next[k] == images[k];
      assert forall d :: 0 <= d < |calls[1..]| ==> calls[1..][d] == calls[d + 1];
      UntouchedByLaterCalls(next, calls[1..], analyze, k);
    }
  }

  /**
   * After an upload that ended without error, every entry with a file whose
   * analysis succeeded is stored under the URL its reply gave, and no entry is
   * left analyzing.
   */
  lemma UploadStoresAnalyzedFiles(images: seq<ImageFile>, respond: nat -> UploadReply, analyze: string -> Result<ImageAnalysis, string>, k: nat)
    requires !AnyAnalyzing(images) && k < |images| && images[k].file.Some?
    requires UploadFrom(images, respond, 0).error.None?
    ensures ReplyUrl(respond(k)).Success?
    ensures analyze(ReplyUrl(respond(k)).value).Success? ==>
      AnalyzeAll(images, UploadFrom(images, respond, 0).calls, analyze)[k].uploadedUrl == Some(ReplyUrl(respond(k)).value)
    ensures !AnyAnalyzing(AnalyzeAll(images, UploadFrom(images, respond, 0).calls, analyze))
  {
    var calls := UploadFrom(images, respond, 0).calls;
    UploadWithoutErrorVisitsAll(images, respond, 0);
    UploadCallsFollowList(images, respond, 0);
    assert Called(calls, k);
    var c :| 0 <= c < |calls| && calls[c].index == k;
    if analyze(calls[c].url).Success? {
      AnalyzedEntryIsStored(images, calls, analyze, c);
    }
    AnalyzeAllSettles(images, calls, analyze);
  }

  /**
   * The Save All button is enabled only when the hook's save guard passes for
   * a non-empty list, and it replaces the Upload button once anything is stored.
   */
  lemma SaveAllEnabledPassesGuard(isUploading: bool, m: Metadata, images: seq<ImageFile>)
    ensures !SaveAllDisabled(isUploading, m, images) && images != [] ==> CanSave(images, m)
    ensures !ShowsUploadButton(images) ==> images != []
    ensures !SaveAllDisabled(isUploading, m, images) ==> !isUploading && m.title != ""
  {
  }
}
