/**
 * The shared metadata form (`src/components/shared/ImageMetadataForm.tsx`):
 * it loads a stored image's metadata into its own metadata state with every
 * missing field defaulted, guards submission, keeps the set of expanded
 * analysis panels, reports each image's analysis status, and turns accepted
 * suggestions into metadata edits.
 */
module MetadataForm {
  import opened Wrappers
  import opened Seqs
  import opened UploadTypes
  import opened Json
  import opened MetadataEditing
  import opened ImageList

  /** `metadata.technical_details` of a stored image; any key may be missing. */
  datatype StoredTechnical = StoredTechnical(orientation: Option<string>, quality: Option<string>, lighting: Option<string>, composition: Option<seq<string>>)

  /** The `metadata` column of a stored image. */
  datatype StoredMetadata = StoredMetadata(
    objects: Option<seq<string>>,
    scenes: Option<seq<string>>,
    emotions: Option<seq<string>>,
    technicalDetails: Option<StoredTechnical>)

  /** The `initialMetadata` prop. */
  datatype InitialMetadata = InitialMetadata(
    title: Option<string>,
    description: Option<string>,
    tags: Option<seq<string>>,
    metadata: Option<StoredMetadata>)

  /** `value || fallback` for a string: a missing or empty string is falsy. */
  function TextOr(value: Option<string>, fallback: string): (r: string)
    ensures r == fallback || r != ""
  {
    if value.Some? && value.value != "" then value.value else fallback
  }

  /** `value || []` for an array: any array, even an empty one, is truthy. */
  function ListOr(value: Option<seq<string>>): seq<string> {
    if value.Some? then value.value else []
  }

  /** The metadata the load effect builds from the prop. */
  function Normalize(init: InitialMetadata): (m: Metadata)
    ensures m.technical.orientation != "" && m.technical.quality != "" && m.technical.lighting != ""
  {
    var stored := if init.metadata.Some? then init.metadata.value else StoredMetadata(None, None, None, None);
    var tech := if stored.technicalDetails.Some? then stored.technicalDetails.value else StoredTechnical(None, None, None, None);
    Metadata(
      TextOr(init.title, ""),
      TextOr(init.description, ""),
      ListOr(init.tags),
      ListOr(stored.objects),
      ListOr(stored.scenes),
      ListOr(stored.emotions),
      Technical(
        TextOr(tech.orientation, DefaultTechnical.orientation),
        TextOr(tech.quality, DefaultTechnical.quality),
        TextOr(tech.lighting, DefaultTechnical.lighting),
        ListOr(tech.composition)))
  }

  /** The prop as a stored image with metadata `m` supplies it. */
  function Stored(m: Metadata): InitialMetadata {
    InitialMetadata(Some(m.title), Some(m.description), Some(m.tags),
      Some(StoredMetadata(Some(m.objects), Some(m.scenes), Some(m.emotions),
        Some(StoredTechnical(Some(m.technical.orientation), Some(m.technical.quality), Some(m.technical.lighting), Some(m.technical.composition))))))
  }

  /** `toggleAnalysis`: an expanded index collapses, a collapsed one is appended. */
  function Toggled(expanded: seq<int>, index: int): (r: seq<int>)
    ensures index in r <==> index !in expanded
    ensures forall j :: j != index ==> (j in r <==> j in expanded)
  {
    if index in expanded then RemoveAll(expanded, index) else expanded + [index]
  }

  datatype AnalysisStatus = Analyzing | Complete | Waiting

  /** `getAnalysisStatus`, by its text: "Analyzing...", "Analysis complete" or "Waiting for analysis". */
  function StatusOf(image: ImageFile): AnalysisStatus {
    if image.isAnalyzing then Analyzing
    else if image.analysis.Some? && image.analysis.value.rawResults.Some? then Complete
    else Waiting
  }

  /** A suggestion button of an image's analysis panel. */
  datatype Suggestion =
    | DescriptionSuggestion(text: string)
    | ObjectSuggestion(name: string)
    | SceneSuggestion(name: string)

  /** The buttons of an analysis panel: the description, then each raw object, then each raw scene. */
  function SuggestionsFor(analysis: ImageAnalysis): (r: seq<Suggestion>)
    ensures analysis.rawResults.None? ==> r == []
    ensures analysis.rawResults.Some? ==>
      |r| == 1 + |analysis.rawResults.value.objects| + |analysis.rawResults.value.scenes|
  {
    match analysis.rawResults
    case None => []
    case Some(raw) =>
      [DescriptionSuggestion(analysis.description)]
      + seq(|raw.objects|, i requires 0 <= i < |raw.objects| => ObjectSuggestion(EntryLabel(raw.objects[i])))
      + seq(|raw.scenes|, i requires 0 <= i < |raw.scenes| => SceneSuggestion(EntryLabel(raw.scenes[i])))
  }

  /** The edit accepting a suggestion makes. */
  function Accepted(m: Metadata, s: Suggestion): Metadata {
    match s
    case DescriptionSuggestion(text) => m.(description := text)
    case ObjectSuggestion(name) => WithTag(m, name)
    case SceneSuggestion(name) => m.(description := AppendParagraph(m.description, name))
  }

  class ImageMetadataForm {
    /** Whether the form asked its parent to close (`onOpenChange(false)`). */
    var closeRequested: bool
    var showUnsavedChangesDialog: bool
    var expandedAnalysis: seq<int>
    const state: MetadataState

    constructor ()
      ensures !closeRequested && !showUnsavedChangesDialog && expandedAnalysis == []
      ensures fresh(state) && state.metadata == DefaultMetadata && state.initialMetadata == "" && state.tagInput == ""
    {
      closeRequested := false;
      showUnsavedChangesDialog := false;
      expandedAnalysis := [];
      state := new MetadataState();
    }

    /** The effect run when `initialMetadata` changes: load it, defaulted, and snapshot it. */
    method LoadInitialMetadata(init: Option<InitialMetadata>)
      modifies state
      ensures init.None? ==> state.metadata == old(state.metadata) && state.initialMetadata == old(state.initialMetadata)
      ensures init.Some? ==> state.metadata == Normalize(init.value) && state.initialMetadata == Serialize(Normalize(init.value))
      ensures state.tagInput == old(state.tagInput)
    {
      if init.Some? {
        var newMetadata := Normalize(init.value);
        state.UpdateMetadata(MetadataPatch(Some(newMetadata.title), Some(newMetadata.description), Some(newMetadata.tags),
          Some(newMetadata.objects), Some(newMetadata.scenes), Some(newMetadata.emotions), Some(newMetadata.technical)));
        state.SetInitialMetadata(Serialize(newMetadata));
      }
    }

    method HandleDiscardChanges()
      modifies this, state
      ensures !showUnsavedChangesDialog && closeRequested && expandedAnalysis == old(expandedAnalysis)
      ensures state.metadata == DefaultMetadata && state.initialMetadata == "" && state.tagInput == ""
    {
      showUnsavedChangesDialog := false;
      closeRequested := true;
      state.ResetMetadata();
    }

    /** `handleClose`: with unsaved changes ask first, otherwise discard. */
    method HandleClose()
      modifies this, state
      ensures Unsaved(old(state.initialMetadata), old(state.metadata)) ==>
        && showUnsavedChangesDialog && closeRequested == old(closeRequested)
        && state.metadata == old(state.metadata) && state.initialMetadata == old(state.initialMetadata)
        && state.tagInput == old(state.tagInput)
      ensures !Unsaved(old(state.initialMetadata), old(state.metadata)) ==>
        && !showUnsavedChangesDialog && closeRequested
        && state.metadata == DefaultMetadata && state.initialMetadata == "" && state.tagInput == ""
      ensures expandedAnalysis == old(expandedAnalysis)
    {
      var unsaved := state.HasUnsavedChanges();
      if unsaved {
        showUnsavedChangesDialog := true;
      } else {
        HandleDiscardChanges();
      }
    }

    /** `handleSubmit`: the metadata passed to `onSave`, or `None` when submission is refused. */
    method HandleSubmit(disabled: bool) returns (saved: Option<Metadata>)
      ensures saved.Some? <==> state.metadata.title != "" && !disabled
      ensures saved.Some? ==> saved.value == state.metadata
    {
      if state.metadata.title == "" || disabled {
        return None;
      }
      return Some(state.metadata);
    }

    method ToggleAnalysis(index: int)
      modifies this
      ensures expandedAnalysis == Toggled(old(expandedAnalysis), index)
      ensures closeRequested == old(closeRequested) && showUnsavedChangesDialog == old(showUnsavedChangesDialog)
    {
      expandedAnalysis := Toggled(expandedAnalysis, index);
    }

    /** A click on a suggestion button. */
    method AcceptSuggestion(s: Suggestion)
      modifies state
      ensures state.metadata == Accepted(old(state.metadata), s)
      ensures state.initialMetadata == old(state.initialMetadata) && state.tagInput == old(state.tagInput)
    {
      match s
      case DescriptionSuggestion(text) => state.UpdateDescription(text);
      case ObjectSuggestion(name) => state.AddTag(name);
      case SceneSuggestion(name) => state.AppendDescription(name);
    }
  }

  // ---------------------------------------------------------------- properties

  /** With nothing supplied the form loads exactly the default metadata. */
  lemma EmptyPropIsDefault()
    ensures Normalize(InitialMetadata(None, None, None, None)) == DefaultMetadata
    ensures Normalize(InitialMetadata(Some(""), Some(""), None, Some(StoredMetadata(None, None, None, None)))) == DefaultMetadata
  {
  }

  /**
   * Loading a stored image's metadata gives it back unchanged exactly when
   * its technical settings are non-empty; an empty one is replaced by its default.
   */
  lemma NormalizeStoredRoundTrip(m: Metadata)
    ensures Normalize(Stored(m)) == m <==>
      m.technical.orientation != "" && m.technical.quality != "" && m.technical.lighting != ""
    ensures Normalize(Stored(m)).title == m.title && Normalize(Stored(m)).tags == m.tags
  {
  }

  /** Normalizing is idempotent: a loaded form reloaded from its own metadata is unchanged. */
  lemma NormalizeIdempotent(init: InitialMetadata)
    ensures Normalize(Stored(Normalize(init))) == Normalize(init)
  {
    NormalizeStoredRoundTrip(Normalize(init));
  }

  /** Right after loading there is nothing unsaved; the first edit that changes the metadata makes it unsaved. */
  lemma LoadedFormIsSaved(init: InitialMetadata, edited: Metadata)
    ensures !Unsaved(Serialize(Normalize(init)), Normalize(init))
    ensures Unsaved(Serialize(Normalize(init)), edited) <==> edited != Normalize(init)
  {
    UnsavedExactlyWhenChanged(Normalize(init), edited);
  }

  /**
   * Toggling twice restores which panels are expanded; when the index was
   * collapsed and the list has no repeats, it restores the list exactly.
   */
  lemma ToggleTwice(expanded: seq<int>, index: int)
    ensures forall j :: j in Toggled(Toggled(expanded, index), index) <==> j in expanded
    ensures index !in expanded ==> Toggled(Toggled(expanded, index), index) == expanded
    ensures NoDups(expanded) ==> NoDups(Toggled(expanded, index))
  {
    if index !in expanded {
      RemoveAllConcat(expanded, [index], index);
      RemoveAllAbsent(expanded, index);
      assert RemoveAll([index], index) == [];
    } else {
      if NoDups(expanded) {
        RemoveAllKeepsNoDups(expanded, index);
      }
    }
  }

  /**
   * The status a panel shows follows `handleAnalyze`: "Analyzing..." once it
   * starts; once it settles, "Analysis complete" exactly when the analysis came
   * back with raw results, and after a failure whatever the entry showed
   * before; no other entry's status changes.
   */
  lemma StatusFollowsAnalysis(images: seq<ImageFile>, index: int, imageUrl: string, outcome: Result<ImageAnalysis, string>)
    ensures 0 <= index < |images| ==> StatusOf(StartAnalysis(images, index)[index]) == Analyzing
    ensures var after := ResolveAnalysis(StartAnalysis(images, index), index, imageUrl, outcome);
      && |after| == |images|
      && (0 <= index < |images| && outcome.Success? ==>
            (StatusOf(after[index]) == Complete <==> outcome.value.rawResults.Some?)
            && StatusOf(after[index]) != Analyzing)
      && (0 <= index < |images| && outcome.Failure? && !images[index].isAnalyzing ==>
            StatusOf(after[index]) == StatusOf(images[index]))
      && forall j :: 0 <= j < |images| && j != index ==> StatusOf(after[j]) == StatusOf(images[j])
  {
  }

  /**
   * Accepting the description suggestion replaces the description, an object
   * suggestion adds its label as a tag, and a scene suggestion appends its
   * label as a paragraph; only the description or the tags change.
   */
  lemma SuggestionEffects(m: Metadata, analysis: ImageAnalysis, k: nat)
    requires k < |SuggestionsFor(analysis)|
    ensures var s := SuggestionsFor(analysis)[k]; var r := Accepted(m, s);
      && r.title == m.title && r.objects == m.objects && r.scenes == m.scenes && r.technical == m.technical
      && (k == 0 ==> r == m.(description := analysis.description))
      && (s.ObjectSuggestion? ==> s.name in r.tags && r.description == m.description)
      && (s.SceneSuggestion? ==> r.tags == m.tags && AppendParagraph(m.description, s.name) == r.description)
    ensures analysis.rawResults.Some? ==>
      && (forall i :: 0 <= i < |analysis.rawResults.value.objects| ==>
            SuggestionsFor(analysis)[1 + i] == ObjectSuggestion(analysis.rawResults.value.objects[i].text))
      && (forall i :: 0 <= i < |analysis.rawResults.value.scenes| ==>
            SuggestionsFor(analysis)[1 + |analysis.rawResults.value.objects| + i] == SceneSuggestion(analysis.rawResults.value.scenes[i].text))
  {
  }
}
