/**
 * The metadata edit state of an upload or edit dialog: the metadata being
 * edited, a JSON snapshot of the last saved or loaded metadata, and the
 * pending text of the tag input.
 *
 * Each operation is a method of `MetadataState` whose postcondition ties the
 * new metadata to a function of the old one; the properties of the edits are
 * lemmas about those functions.
 */
module MetadataEditing {
  import opened Wrappers
  import opened Text
  import opened Seqs
  import opened UploadTypes
  import opened Json

  /** `Partial<MetadataFormData>`: `None` for a key the change does not supply. */
  datatype MetadataPatch = MetadataPatch(
    title: Option<string>,
    description: Option<string>,
    tags: Option<seq<string>>,
    objects: Option<seq<string>>,
    scenes: Option<seq<string>>,
    emotions: Option<seq<string>>,
    technical: Option<Technical>)

  const NoChanges := MetadataPatch(None, None, None, None, None, None, None)

  /** `{...prev, ...changes}`: each supplied top-level key replaces the old value as a whole. */
  function Patched(m: Metadata, p: MetadataPatch): Metadata {
    Metadata(
      p.title.GetOr(m.title),
      p.description.GetOr(m.description),
      p.tags.GetOr(m.tags),
      p.objects.GetOr(m.objects),
      p.scenes.GetOr(m.scenes),
      p.emotions.GetOr(m.emotions),
      p.technical.GetOr(m.technical))
  }

  /** `addTag`: append the tag unless an equal (case-sensitive) tag is present. */
  function WithTag(m: Metadata, tag: string): Metadata {
    if tag in m.tags then m else m.(tags := m.tags + [tag])
  }

  /** `removeTag`: drop every tag equal to it. */
  function WithoutTag(m: Metadata, tag: string): Metadata {
    m.(tags := RemoveAll(m.tags, tag))
  }

  /** The paragraph join used by `appendDescription` and `updateFromAnalysis`. */
  function AppendParagraph(current: string, addition: string): string {
    if current != "" then current + "\n\n" + addition else addition
  }

  /** What the tag input commits on Enter or ",": its trimmed text, when non-empty and new. */
  function CommitTagInput(m: Metadata, input: string): Metadata {
    if Trim(input) != "" then WithTag(m, Trim(input)) else m
  }

  predicate IsCommitKey(key: string) {
    key == "Enter" || key == ","
  }

  /**
   * `updateFromAnalysis`: with `raw_results.llm_analysis` present, the objects,
   * scenes and tags become duplicate-free unions with the current entries
   * first and the description gets the analysis description as a new
   * paragraph; without it nothing changes.
   */
  function MergeAnalysis(m: Metadata, analysis: ImageAnalysis): Metadata {
    match analysis.rawResults
    case None => m
    case Some(raw) =>
      m.(objects := Dedup(m.objects + EntryLabels(raw.objects)),
         scenes := Dedup(m.scenes + EntryLabels(raw.scenes)),
         tags := Dedup(m.tags + raw.tags),
         description := AppendParagraph(m.description, raw.description))
  }

  /** `hasUnsavedChanges`: the snapshot is not the serialization of the metadata. */
  predicate Unsaved(snapshot: string, m: Metadata) {
    snapshot != Serialize(m)
  }

  class MetadataState {
    var metadata: Metadata
    var initialMetadata: string
    var tagInput: string

    /** `useMetadataState()`: default metadata, no snapshot, empty tag input. */
    constructor ()
      ensures metadata == DefaultMetadata && initialMetadata == "" && tagInput == ""
    {
      metadata := DefaultMetadata;
      initialMetadata := "";
      tagInput := "";
    }

    method SetTagInput(text: string)
      modifies this
      ensures tagInput == text && metadata == old(metadata) && initialMetadata == old(initialMetadata)
    {
      tagInput := text;
    }

    method SetInitialMetadata(snapshot: string)
      modifies this
      ensures initialMetadata == snapshot && metadata == old(metadata) && tagInput == old(tagInput)
    {
      initialMetadata := snapshot;
    }

    method UpdateMetadata(changes: MetadataPatch)
      modifies this
      ensures metadata == Patched(old(metadata), changes)
      ensures initialMetadata == old(initialMetadata) && tagInput == old(tagInput)
    {
      metadata := Patched(metadata, changes);
    }

    /** A key press in the tag input; only Enter and "," act, and both clear the input. */
    method HandleTagInputKeyDown(key: string)
      modifies this
      ensures IsCommitKey(key) ==> metadata == CommitTagInput(old(metadata), old(tagInput)) && tagInput == ""
      ensures !IsCommitKey(key) ==> metadata == old(metadata) && tagInput == old(tagInput)
      ensures initialMetadata == old(initialMetadata)
    {
      if key == "Enter" || key == "," {
        var newTag := Trim(tagInput);
        if newTag != "" && newTag !in metadata.tags {
          metadata := metadata.(tags := metadata.tags + [newTag]);
        }
        tagInput := "";
      }
    }

    method RemoveTag(tag: string)
      modifies this
      ensures metadata == WithoutTag(old(metadata), tag)
      ensures initialMetadata == old(initialMetadata) && tagInput == old(tagInput)
    {
      metadata := metadata.(tags := RemoveAll(metadata.tags, tag));
    }

    method AddTag(tag: string)
      modifies this
      ensures metadata == WithTag(old(metadata), tag)
      ensures initialMetadata == old(initialMetadata) && tagInput == old(tagInput)
    {
      if tag !in metadata.tags {
        metadata := metadata.(tags := metadata.tags + [tag]);
      }
    }

    method UpdateDescription(newDescription: string)
      modifies this
      ensures metadata == old(metadata).(description := newDescription)
      ensures initialMetadata == old(initialMetadata) && tagInput == old(tagInput)
    {
      metadata := metadata.(description := newDescription);
    }

    method AppendDescription(additional: string)
      modifies this
      ensures metadata == old(metadata).(description := AppendParagraph(old(metadata).description, additional))
      ensures initialMetadata == old(initialMetadata) && tagInput == old(tagInput)
    {
      metadata := metadata.(description := AppendParagraph(metadata.description, additional));
    }

    method UpdateFromAnalysis(analysis: ImageAnalysis)
      modifies this
      ensures metadata == MergeAnalysis(old(metadata), analysis)
      ensures initialMetadata == old(initialMetadata) && tagInput == old(tagInput)
    {
      if analysis.rawResults.Some? {
        var raw := analysis.rawResults.value;
        metadata := metadata.(
          objects := Dedup(metadata.objects + EntryLabels(raw.objects)),
          scenes := Dedup(metadata.scenes + EntryLabels(raw.scenes)),
          tags := Dedup(metadata.tags + raw.tags),
          description := AppendParagraph(metadata.description, raw.description));
      }
    }

    method ResetMetadata()
      modifies this
      ensures metadata == DefaultMetadata && initialMetadata == "" && tagInput == ""
    {
      metadata := DefaultMetadata;
      initialMetadata := "";
      tagInput := "";
    }

    method HasUnsavedChanges() returns (unsaved: bool)
      ensures unsaved == Unsaved(initialMetadata, metadata)
    {
      unsaved := initialMetadata != Serialize(metadata);
    }
  }

  // ---------------------------------------------------------------- properties of the edits

  /** A change touches exactly the keys it supplies; supplying nothing, or the same change twice, is harmless. */
  lemma PatchReplacesSuppliedKeys(m: Metadata, p: MetadataPatch)
    ensures Patched(m, NoChanges) == m
    ensures Patched(Patched(m, p), p) == Patched(m, p)
    ensures p.title.Some? ==> Patched(m, p).title == p.title.value
    ensures p.title.None? ==> Patched(m, p).title == m.title
    ensures p.tags.Some? ==> Patched(m, p).tags == p.tags.value
    ensures p.tags.None? ==> Patched(m, p).tags == m.tags
    ensures p.technical.Some? ==> Patched(m, p).technical == p.technical.value
    ensures p.technical.None? ==> Patched(m, p).technical == m.technical
  {
  }

  /**
   * Adding a tag: afterwards it is present exactly once more than nothing,
   * nothing else changes, a second add changes nothing, and a duplicate-free
   * tag list stays duplicate-free.
   */
  lemma AddTagProperties(m: Metadata, tag: string)
    ensures tag in WithTag(m, tag).tags
    ensures forall t :: t in WithTag(m, tag).tags <==> t in m.tags || t == tag
    ensures m.tags <= WithTag(m, tag).tags
    ensures WithTag(m, tag).(tags := m.tags) == m
    ensures WithTag(WithTag(m, tag), tag) == WithTag(m, tag)
    ensures NoDups(m.tags) ==> NoDups(WithTag(m, tag).tags)
  {
  }

  /**
   * Removing a tag drops every copy of it, keeps the other tags in order,
   * changes nothing when it is absent, and undoes an add of a new tag.
   */
  lemma RemoveTagProperties(m: Metadata, tag: string)
    ensures tag !in WithoutTag(m, tag).tags
    ensures forall t :: t != tag ==> (t in WithoutTag(m, tag).tags <==> t in m.tags)
    ensures tag !in m.tags ==> WithoutTag(m, tag) == m
    ensures tag !in m.tags ==> WithoutTag(WithTag(m, tag), tag) == m
    ensures NoDups(m.tags) ==> NoDups(WithoutTag(m, tag).tags)
  {
    if tag !in m.tags {
      RemoveAllAbsent(m.tags, tag);
      RemoveAllConcat(m.tags, [tag], tag);
      assert RemoveAll([tag], tag) == [];
    }
    if NoDups(m.tags) {
      RemoveAllKeepsNoDups(m.tags, tag);
    }
  }

  /** Committing the tag input is adding its trimmed text, if that is not empty. */
  lemma CommitIsAddOfTrimmed(m: Metadata, input: string, pad: string)
    requires AllSpace(pad) && IsTrimmed(input) && input != ""
    ensures CommitTagInput(m, pad + input) == WithTag(m, input)
    ensures CommitTagInput(m, pad) == m
  {
    TrimLeadingSpace(pad, input);
    TrimAllSpace(pad);
  }

  /** Appending keeps the current description in front and the addition at the end. */
  lemma AppendParagraphKeepsBoth(current: string, addition: string)
    ensures current == "" ==> AppendParagraph(current, addition) == addition
    ensures current != "" ==>
      && current <= AppendParagraph(current, addition)
      && AppendParagraph(current, addition)[|current|..|current| + 2] == "\n\n"
      && AppendParagraph(current, addition)[|current| + 2..] == addition
  {
  }

  /**
   * Merging an analysis: objects, scenes and tags gain exactly the analysis'
   * entries, stay duplicate-free with the current (duplicate-free) entries
   * first; title, emotions and technical settings are untouched.
   */
  lemma MergeAnalysisProperties(m: Metadata, analysis: ImageAnalysis)
    requires analysis.rawResults.Some?
    ensures var r := MergeAnalysis(m, analysis); var raw := analysis.rawResults.value;
      && r.title == m.title && r.emotions == m.emotions && r.technical == m.technical
      && (forall x :: x in r.objects <==> x in m.objects || x in EntryLabels(raw.objects))
      && (forall x :: x in r.scenes <==> x in m.scenes || x in EntryLabels(raw.scenes))
      && (forall x :: x in r.tags <==> x in m.tags || x in raw.tags)
      && NoDups(r.objects) && NoDups(r.scenes) && NoDups(r.tags)
      && (NoDups(m.objects) ==> m.objects <= r.objects)
      && (NoDups(m.scenes) ==> m.scenes <= r.scenes)
      && (NoDups(m.tags) ==> m.tags <= r.tags)
  {
    var raw := analysis.rawResults.value;
    UnionContextFirst(m.objects, EntryLabels(raw.objects));
    UnionContextFirst(m.scenes, EntryLabels(raw.scenes));
    UnionContextFirst(m.tags, raw.tags);
  }

  /** An analysis without `raw_results.llm_analysis` changes nothing. */
  lemma MergeWithoutRawResults(m: Metadata, analysis: ImageAnalysis)
    requires analysis.rawResults.None?
    ensures MergeAnalysis(m, analysis) == m
  {
  }

  /** The snapshot decides: no unsaved changes exactly when the metadata is the snapshotted one. */
  lemma UnsavedExactlyWhenChanged(snapshotOf: Metadata, m: Metadata)
    ensures !Unsaved(Serialize(snapshotOf), m) <==> m == snapshotOf
  {
    SerializeInjective(snapshotOf, m);
  }

  /** With no snapshot (initially, and after a reset) there are always unsaved changes. */
  lemma NoSnapshotIsUnsaved(m: Metadata)
    ensures Unsaved("", m)
  {
  }

  /**
   * The comparison is order-sensitive: removing a tag that is not the last one
   * and adding it back moves it to the end, which counts as a change.
   */
  lemma RemoveThenAddIsAChange(m: Metadata, tag: string)
    requires tag in m.tags && m.tags[|m.tags| - 1] != tag
    ensures WithTag(WithoutTag(m, tag), tag) != m
    ensures Unsaved(Serialize(m), WithTag(WithoutTag(m, tag), tag))
  {
    var r := WithTag(WithoutTag(m, tag), tag);
    assert r.tags[|r.tags| - 1] == tag;
    UnsavedExactlyWhenChanged(m, r);
  }
}
