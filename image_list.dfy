/**
 * The pending image list of the upload dialogs (`selectedImages`) and the
 * copy-and-replace updates both upload components apply to it: appending new
 * selections, filtering one index out, and the three steps of an analysis
 * (start, success, failure) applied to the entry at one index.
 *
 * An index outside the list is a no-op for every update, as `newImages[index]`
 * is then `undefined` and the guard skips the write.
 */
module ImageList {
  import opened Wrappers
  import opened UploadTypes

  /** A newly selected file with the object URL created for its preview. */
  datatype Selection = Selection(file: File, previewUrl: string)

  predicate InRange<T>(xs: seq<T>, index: int) {
    0 <= index < |xs|
  }

  /** `prev.some(img => img.isAnalyzing)`. */
  predicate AnyAnalyzing(images: seq<ImageFile>) {
    exists k :: 0 <= k < |images| && images[k].isAnalyzing
  }

  /** `prev.some(img => img.uploadedUrl)`. */
  predicate AnyUploaded(images: seq<ImageFile>) {
    exists k :: 0 <= k < |images| && IsUploaded(images[k])
  }

  /** The entries for a selection, one per file, in selection order. */
  function NewEntries(files: seq<Selection>): (r: seq<ImageFile>)
    ensures |r| == |files|
    ensures forall k :: 0 <= k < |files| ==> r[k] == NewImageFile(files[k].file, files[k].previewUrl)
  {
    if files == [] then [] else NewEntries(files[..|files| - 1]) + [NewImageFile(files[|files| - 1].file, files[|files| - 1].previewUrl)]
  }

  /** `[...prev, ...newImages]`. */
  function AddSelection(images: seq<ImageFile>, files: seq<Selection>): (r: seq<ImageFile>)
    ensures |r| == |images| + |files|
    ensures r[..|images|] == images
    ensures forall k :: 0 <= k < |files| ==>
      r[|images| + k].file == Some(files[k].file) && !IsUploaded(r[|images| + k]) && !r[|images| + k].isAnalyzing
  {
    images + NewEntries(files)
  }

  /** `xs.filter((_, i) => i !== index)`, written as that filter over the positions. */
  function RemoveIndex<T>(xs: seq<T>, index: int): (r: seq<T>)
    ensures |r| == if InRange(xs, index) then |xs| - 1 else |xs|
    decreases |xs|
  {
    if xs == [] then []
    else RemoveIndex(xs[..|xs| - 1], index) + (if |xs| - 1 == index then [] else [xs[|xs| - 1]])
  }

  /** Entry `index` with `isAnalyzing: true`. */
  function StartAnalysis(images: seq<ImageFile>, index: int): seq<ImageFile> {
    if InRange(images, index) then images[index := images[index].(isAnalyzing := true)] else images
  }

  /** Entry `index` with its analysis, `isAnalyzing: false` and `uploadedUrl: imageUrl`. */
  function FinishAnalysis(images: seq<ImageFile>, index: int, analysis: ImageAnalysis, imageUrl: string): seq<ImageFile> {
    if InRange(images, index) then
      images[index := images[index].(analysis := Some(analysis), isAnalyzing := false, uploadedUrl := Some(imageUrl))]
    else images
  }

  /** Entry `index` with `isAnalyzing: false` and nothing else changed. */
  function FailAnalysis(images: seq<ImageFile>, index: int): seq<ImageFile> {
    if InRange(images, index) then images[index := images[index].(isAnalyzing := false)] else images
  }

  /** The settled state of an analysis: success or failure, by the outcome of `analyzeImage`. */
  function ResolveAnalysis(images: seq<ImageFile>, index: int, imageUrl: string, outcome: Result<ImageAnalysis, string>): seq<ImageFile> {
    match outcome
    case Success(analysis) => FinishAnalysis(images, index, analysis, imageUrl)
    case Failure(_) => FailAnalysis(images, index)
  }

  // ---------------------------------------------------------------- removal

  /** Filtering one position out is cutting the list around it; an index outside the list keeps everything. */
  lemma {:induction false} RemoveIndexSlices<T>(xs: seq<T>, index: int)
    ensures InRange(xs, index) ==> RemoveIndex(xs, index) == xs[..index] + xs[index + 1..]
    ensures !InRange(xs, index) ==> RemoveIndex(xs, index) == xs
    decreases |xs|
  {
    if xs != [] {
      var init := xs[..|xs| - 1];
      RemoveIndexSlices(init, index);
      if index == |xs| - 1 {
        assert init == xs[..index];
        assert xs[index + 1..] == [];
      } else if InRange(init, index) {
        assert init[..index] == xs[..index];
        assert init[index + 1..] + [xs[|xs| - 1]] == xs[index + 1..];
      } else {
        assert init + [xs[|xs| - 1]] == xs;
      }
    }
  }

  /** The other entries keep their order: position `j` of the result is `j` or `j + 1` of the list. */
  lemma RemoveIndexKeepsOthers<T>(xs: seq<T>, index: int)
    requires InRange(xs, index)
    ensures forall j :: 0 <= j < |xs| - 1 ==>
      RemoveIndex(xs, index)[j] == if j < index then xs[j] else xs[j + 1]
  {
    RemoveIndexSlices(xs, index);
  }

  /** Removing the only entry empties the list, which is when the dialogs close. */
  lemma RemoveIndexEmpties<T>(xs: seq<T>, index: int)
    ensures RemoveIndex(xs, index) == [] <==> (xs == [] || (|xs| == 1 && index == 0))
  {
    RemoveIndexSlices(xs, index);
  }

  // ---------------------------------------------------------------- analysis updates

  /** Each analysis step writes entry `index` only, keeps the length, and is a no-op outside the list. */
  lemma AnalysisStepsTouchOneEntry(images: seq<ImageFile>, index: int, analysis: ImageAnalysis, imageUrl: string)
    ensures |StartAnalysis(images, index)| == |images|
    ensures |FinishAnalysis(images, index, analysis, imageUrl)| == |images|
    ensures |FailAnalysis(images, index)| == |images|
    ensures forall j :: 0 <= j < |images| && j != index ==>
      && StartAnalysis(images, index)[j] == images[j]
      && FinishAnalysis(images, index, analysis, imageUrl)[j] == images[j]
      && FailAnalysis(images, index)[j] == images[j]
    ensures !InRange(images, index) ==>
      && StartAnalysis(images, index) == images
      && FinishAnalysis(images, index, analysis, imageUrl) == images
      && FailAnalysis(images, index) == images
    ensures InRange(images, index) ==>
      && StartAnalysis(images, index)[index].isAnalyzing
      && !FinishAnalysis(images, index, analysis, imageUrl)[index].isAnalyzing
      && FinishAnalysis(images, index, analysis, imageUrl)[index].analysis == Some(analysis)
      && FinishAnalysis(images, index, analysis, imageUrl)[index].uploadedUrl == Some(imageUrl)
      && FinishAnalysis(images, index, analysis, imageUrl)[index].file == images[index].file
      && FailAnalysis(images, index)[index] == images[index].(isAnalyzing := false)
  {
  }

  /**
   * No path leaves an entry analyzing: an analysis that starts and then
   * settles, either way, returns a list with no entry analyzing to a list
   * that had none.
   */
  lemma SettledAnalysisLeavesNoneAnalyzing(images: seq<ImageFile>, index: int, imageUrl: string, outcome: Result<ImageAnalysis, string>)
    requires !AnyAnalyzing(images)
    ensures AnyAnalyzing(StartAnalysis(images, index)) <==> InRange(images, index)
    ensures !AnyAnalyzing(ResolveAnalysis(StartAnalysis(images, index), index, imageUrl, outcome))
  {
    if InRange(images, index) {
      assert StartAnalysis(images, index)[index].isAnalyzing;
    }
  }

  /** Settling overwrites the start: once its own index settles, the start step leaves no trace. */
  lemma SettleAfterStart(images: seq<ImageFile>, index: int, imageUrl: string, outcome: Result<ImageAnalysis, string>)
    ensures ResolveAnalysis(StartAnalysis(images, index), index, imageUrl, outcome)
      == ResolveAnalysis(images, index, imageUrl, outcome)
  {
  }

  /**
   * Analyses of different entries do not interfere: steps at distinct indices
   * commute, so the order in which concurrent analyses start and settle does
   * not change the final list.
   */
  lemma StepsAtDistinctIndicesCommute(images: seq<ImageFile>, i: int, j: int,
                                      urlI: string, outcomeI: Result<ImageAnalysis, string>,
                                      urlJ: string, outcomeJ: Result<ImageAnalysis, string>)
    requires i != j
    ensures StartAnalysis(ResolveAnalysis(images, j, urlJ, outcomeJ), i)
      == ResolveAnalysis(StartAnalysis(images, i), j, urlJ, outcomeJ)
    ensures ResolveAnalysis(ResolveAnalysis(images, i, urlI, outcomeI), j, urlJ, outcomeJ)
      == ResolveAnalysis(ResolveAnalysis(images, j, urlJ, outcomeJ), i, urlI, outcomeI)
    ensures StartAnalysis(StartAnalysis(images, i), j) == StartAnalysis(StartAnalysis(images, j), i)
  {
  }

  // ---------------------------------------------------------------- selection

  /** A selection is appended after the existing entries, none of which is lost; an empty one changes nothing. */
  lemma {:induction false} AddSelectionKeepsEntries(images: seq<ImageFile>, files: seq<Selection>)
    ensures AddSelection(images, files) == [] <==> images == [] && files == []
    ensures files == [] ==> AddSelection(images, files) == images
    ensures AnyAnalyzing(AddSelection(images, files)) <==> AnyAnalyzing(images)
    ensures AnyUploaded(AddSelection(images, files)) <==> AnyUploaded(images)
  {
    var r := AddSelection(images, files);
    assert forall k :: |images| <= k < |r| ==> !r[k].isAnalyzing && !IsUploaded(r[k]) by {
      forall k | |images| <= k < |r|
        ensures !r[k].isAnalyzing && !IsUploaded(r[k])
      {
        assert r[k] == r[|images| + (k - |images|)];
      }
    }
    if AnyAnalyzing(r) {
      var k :| 0 <= k < |r| && r[k].isAnalyzing;
      assert images[k] == r[..|images|][k];
    }
    if AnyAnalyzing(images) {
      var k :| 0 <= k < |images| && images[k].isAnalyzing;
      assert r[..|images|][k] == r[k];
    }
    if AnyUploaded(r) {
      var k :| 0 <= k < |r| && IsUploaded(r[k]);
      assert images[k] == r[..|images|][k];
    }
    if AnyUploaded(images) {
      var k :| 0 <= k < |images| && IsUploaded(images[k]);
      assert r[..|images|][k] == r[k];
    }
    if files == [] {
      assert r == r[..|images|];
    }
  }
}
