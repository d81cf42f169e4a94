# Image analysis and upload core, in Dafny

This project models the core of an image library web application. Users pick
image files, which a preprocessing endpoint resizes and stores. An analysis
endpoint then asks a vision-language model about each stored image. The
endpoint parses the model's free-text reply into objects, scenes, tags and a
description, and merges them with the metadata the user already entered.
Finally the batch is saved as one database row per stored image.

The modules follow the program's own files:

- `UploadTypes`: the shared records (`MetadataFormData`, `ImageAnalysis`, `ImageFile`, `defaultMetadata`).
- `Prompts`: the prompt the analysis endpoint sends to the model.
- `ResponseParser`: the regular-expression parser of the model's reply and the error envelope.
- `AnalyzeImage`: the analysis endpoint's request handler.
- `PreprocessImage`: the preprocessing endpoint's request handler.
- `MetadataEditing`: the metadata editing hook, as a class whose methods update its fields.
- `UploadHook`: the upload/save hook, with its upload loop and its save guard.
- `ImageList`: the list updates that both upload components apply to their selected images.
- `StepImageUpload`: the three-step upload component, as a class.
- `DialogImageUpload`: the dialog upload component, as a class.
- `MetadataForm`: the shared metadata form, as a class.
- `Text`, `Seqs` and `Json`: the JavaScript built-ins the core relies on.
  - `Text` covers `trim`, `split`, `toLowerCase` on ASCII, `length` in UTF-16 code units, and the `\s` class.
  - `Seqs` covers `[...new Set(xs)]` and `filter`.
  - `Json` covers `JSON.stringify` of the metadata, with a decoder used to prove that snapshots are injective.

External services are parameters, so every handler is a function of what they
return:

- the vision model is a function from the conversation to its reply or its error;
- the preprocessing reply for each list entry is `respond(i)`;
- the session lookup is `user`;
- the image library, the storage upload, the public URL and the UUID are `Services`.

Each state-changing component is a class. Its methods state the whole new
state in terms of specification functions. Lemmas then prove what the source
promises about those functions.

## Model

| member | source | states |
|---|---|---|
| UploadTypes.EntryLabels | src/hooks/use-metadata-state.ts:68-73 | one label per raw entry, in order: the string itself or its `label` |
| UploadTypes.NewImageFile | src/components/upload/ImageUpload.tsx:67-70 | a new entry holds the file and its preview URL, is not uploaded, has no analysis and is not analyzing |
| UploadTypes.DefaultMetadataValues | src/components/upload/types.ts:46-59 | the default metadata is empty everywhere except landscape/high/natural technical settings |
| Text.TrimStart | supabase/functions/analyze-image/response-parser.ts:57 | the result is a suffix of the input, and what was cut is all whitespace; the result does not start with whitespace |
| Text.TrimEnd | supabase/functions/analyze-image/response-parser.ts:57 | the result is a prefix of the input, and what was cut is all whitespace; the result does not end with whitespace |
| Text.Trim | supabase/functions/analyze-image/response-parser.ts:57 | `trim` leaves no whitespace at either end and never lengthens its input |
| Text.TrimChars | supabase/functions/analyze-image/response-parser.ts:57 | trimming only removes characters |
| Text.TrimmedIsFixed | src/hooks/use-metadata-state.ts:16 | trimming text with no whitespace at either end changes nothing |
| Text.TrimEmptyIsAllSpace | supabase/functions/analyze-image/response-parser.ts:57-58 | a piece trims to empty exactly when it is all whitespace, which is when `filter(Boolean)` drops it |
| Text.JoinSplit | supabase/functions/analyze-image/response-parser.ts:56 | joining the pieces of a one-character split with that character gives the string back |
| Text.Lower | supabase/functions/analyze-image/response-parser.ts:85-86 | `toLowerCase` keeps the length |
| Text.Utf16Length | supabase/functions/analyze-image/response-parser.ts:111 | `length` counts UTF-16 code units: between one and two per character, and exactly one per character when every character is in the basic multilingual plane |
| ResponseParser.LowerIsLowerCase | supabase/functions/analyze-image/response-parser.ts:84-111 | lower-cased text has no upper-case ASCII letter |
| Text.Split | supabase/functions/analyze-image/response-parser.ts:56 | a split has at least one piece, and no piece holds a separator |
| Text.Decimal | src/hooks/use-image-upload.ts:95 | a position prints as a non-empty string of digits with no leading zero |
| Text.DecimalRoundTrip | src/hooks/use-image-upload.ts:95 | the numeral printed for a position reads back as that number |
| Text.DecimalInjective | src/hooks/use-image-upload.ts:95 | different positions print as different numerals |
| Seqs.Dedup | supabase/functions/analyze-image/response-parser.ts:100-103 | a `Set` spread has no duplicates and the same elements as its input, and is never longer |
| Seqs.DedupConcat | supabase/functions/analyze-image/response-parser.ts:100-114 | the union of `a` then `b` lists `a`'s distinct elements, then the elements of `b` not in `a` |
| Seqs.DedupFirstOccurrenceOrder | supabase/functions/analyze-image/response-parser.ts:100-114 | a `Set` spread lists elements in the order of their first occurrence |
| Seqs.DedupIdempotent | src/hooks/use-metadata-state.ts:77-79 | spreading a set of a set's spread changes nothing |
| Seqs.UnionContextFirst | supabase/functions/analyze-image/response-parser.ts:100-108 | a union holds the elements of both inputs and nothing else, with no duplicates, and a duplicate-free first input is its prefix |
| Seqs.RemoveAllKeepsNoDups | src/components/shared/ImageMetadataForm.tsx:160 | filtering out one value keeps a duplicate-free list duplicate-free |
| Json.Serialize | src/hooks/use-metadata-state.ts:91-93 | the snapshot is a non-empty JSON object text |
| Json.HexRoundTrip | src/hooks/use-metadata-state.ts:92 | a `\u` escape's hex digit reads back as its value |
| Json.EscapeChar | src/hooks/use-metadata-state.ts:92 | `JSON.stringify`'s escape of one character: `\"`, `\\`, the short escapes, `\u00xx` for other control characters, and the character itself otherwise; never empty |
| Json.DecodeSerialize | src/hooks/use-metadata-state.ts:91-93 | decoding a snapshot gives back the metadata it was taken from |
| Json.SerializeInjective | src/hooks/use-metadata-state.ts:91-93 | equal snapshots come only from equal metadata |
| Prompts.CreateImageAnalysisPrompt | supabase/functions/analyze-image/prompts.ts:27-41 | one user message: the image URL part, then the prompt text part |
| Prompts.PromptText | supabase/functions/analyze-image/prompts.ts:14-25 | the preamble, the title clause, the description clause and the fixed reply-format instructions |
| Prompts.TitleClause | supabase/functions/analyze-image/prompts.ts:14 | `The image is titled "<title>". ` for a non-empty title, else nothing |
| Prompts.DescriptionClause | supabase/functions/analyze-image/prompts.ts:14 | `Current description: "<description>". ` for a non-empty description, else nothing |
| Prompts.PromptLayout | supabase/functions/analyze-image/prompts.ts:14-25 | the prompt is the preamble, the title and description clauses exactly when those are non-empty, and the reply-format instructions at the end |
| Prompts.ClauseInjective | supabase/functions/analyze-image/prompts.ts:14 | a quoted clause determines its quote-free value |
| Prompts.PromptDeterminesContext | supabase/functions/analyze-image/prompts.ts:10-41 | for quote-free values, equal prompts come only from equal image URLs, titles and descriptions |
| ResponseParser.ParseAnalysisResponse | supabase/functions/analyze-image/response-parser.ts:44-142 | the parse always carries the raw extraction |
| ResponseParser.CreateErrorResponse | supabase/functions/analyze-image/response-parser.ts:154-186 | the failure envelope is empty and has empty raw results and no composition; its technical settings are never empty |
| ResponseParser.FirstMarker | supabase/functions/analyze-image/response-parser.ts:44-46 | finds the first case-insensitive occurrence of a marker, with none before it |
| ResponseParser.SectionLineShape | supabase/functions/analyze-image/response-parser.ts:44-45 | a section read after a marker is a non-empty single line that starts with a non-space character |
| ResponseParser.SearchFromFirstMarker | supabase/functions/analyze-image/response-parser.ts:44-46 | the leftmost match of a section pattern is the one tried at its marker's first occurrence, or none when the marker does not occur |
| ResponseParser.Search | supabase/functions/analyze-image/response-parser.ts:44-46 | `match` tries the pattern at each position from the left and returns the first capture found |
| ResponseParser.ObjectLabelsFromSection | supabase/functions/analyze-image/response-parser.ts:44-62 | object labels are the comma-split, trimmed, non-empty pieces of the line after the first `OBJECTS:`, skipping whitespace and line breaks; no marker means no labels |
| ResponseParser.SceneLabelsFromSection | supabase/functions/analyze-image/response-parser.ts:45-72 | the same for `SCENE:` |
| ResponseParser.DescriptionFromSection | supabase/functions/analyze-image/response-parser.ts:46-75 | the description is the trimmed line after the first `DESCRIPTION:`, or the whole response when there is no marker or only whitespace follows it |
| ResponseParser.SplitLabelsAreLabels | supabase/functions/analyze-image/response-parser.ts:55-58 | every parsed label is non-empty, trimmed and comma-free, and made of the group's characters |
| ResponseParser.SplitLabelsJoin | supabase/functions/analyze-image/response-parser.ts:55-58 | splitting labels listed with `", "` gives exactly those labels back |
| ResponseParser.SplitLabelsNormalForm | supabase/functions/analyze-image/response-parser.ts:55-58 | re-listing the parsed labels and parsing again changes nothing |
| ResponseParser.SplitLabels | supabase/functions/analyze-image/response-parser.ts:55-58 | a section's labels: split at commas, trimmed, empty pieces dropped |
| ResponseParser.WithConfidence | supabase/functions/analyze-image/response-parser.ts:59-62 | one entry per label, in order, each scored 0.9 |
| ResponseParser.RawEntriesWellFormed | supabase/functions/analyze-image/response-parser.ts:55-141 | the raw entries are the parsed labels, each scored 0.9, single-line and well formed |
| ResponseParser.FormattedReplyRoundTrip | supabase/functions/analyze-image/response-parser.ts:44-75 | a reply in the prompt's format, with labels free of line breaks and colons, parses back to exactly those objects, scenes and description |
| ResponseParser.BlankObjectsLineReadsNextLine | supabase/functions/analyze-image/response-parser.ts:44 | `\s*` also skips line breaks, so an empty `OBJECTS:` line takes the next line (such as the `SCENE:` line) as its objects |
| ResponseParser.NoMarkersFallback | supabase/functions/analyze-image/response-parser.ts:55-75 | without markers there are no objects or scenes and the whole response is the description |
| ResponseParser.MergedListsAreUnions | supabase/functions/analyze-image/response-parser.ts:100-108 | objects and scenes are the duplicate-free union of the context's list and the parsed labels, with the context's list first |
| ResponseParser.RawTagsFromLabels | supabase/functions/analyze-image/response-parser.ts:84-87 | the raw tags are the lower-cased object labels, then the scene labels, each once |
| ResponseParser.RawTags | supabase/functions/analyze-image/response-parser.ts:84-87 | the `Set` spread of the lower-cased object labels followed by the lower-cased scene labels |
| ResponseParser.TitleWordsAreKeywords | supabase/functions/analyze-image/response-parser.ts:111 | title words are lower-case, whitespace-free and longer than two UTF-16 code units, and every such piece of the title is one |
| ResponseParser.MergedTags | supabase/functions/analyze-image/response-parser.ts:110-114 | the tags hold the title words, the context's tags and the raw tags, each once, and nothing else; the raw tags come from the parsed labels |
| ResponseParser.ParsedDescriptionShape | supabase/functions/analyze-image/response-parser.ts:75 | the parsed description is the whole response or a trimmed non-empty line of it |
| ResponseParser.ParsedDescription | supabase/functions/analyze-image/response-parser.ts:75 | the trimmed capture after `DESCRIPTION:` when it is non-empty, otherwise the whole response |
| ResponseParser.DescriptionKeepsContext | supabase/functions/analyze-image/response-parser.ts:122-126 | a context description stays in front, followed by a blank line, `AI Analysis: ` and the parsed description |
| ResponseParser.ComposeDescription | supabase/functions/analyze-image/response-parser.ts:122-126 | with a context description: that description, a blank line, `AI Analysis: ` and the parsed one; otherwise the parsed one |
| ResponseParser.TechnicalFromContextOnly | supabase/functions/analyze-image/response-parser.ts:90-175 | the technical details do not depend on the reply: context settings where given, defaults otherwise; the failure envelope drops the composition |
| ResponseParser.TechnicalFrom | supabase/functions/analyze-image/response-parser.ts:90-97 | each context setting where non-empty, else landscape, high or natural; the context's composition list, else `[]` |
| ResponseParser.ErrorResponseIsEmptyParse | supabase/functions/analyze-image/response-parser.ts:154-186 | the failure envelope is what parsing an empty reply gives for a context that carries only its technical settings |
| ResponseParser.LongWords | supabase/functions/analyze-image/response-parser.ts:111 | keeps exactly the words whose `length`, in UTF-16 code units, is above two |
| ResponseParser.SupplementaryCharCountsTwice | supabase/functions/analyze-image/response-parser.ts:111 | a character beyond the basic multilingual plane counts as two units, so the two-character title "🐱s" is kept as a title word |
| ResponseParser.TitleWords | supabase/functions/analyze-image/response-parser.ts:111 | an empty title gives no words; otherwise the long words of the lower-cased title split at whitespace |
| AnalyzeImage.AnalyzeImageWithQwen | supabase/functions/analyze-image/index.ts:52-136 | sends the model the single prompt built from the URL and the context |
| AnalyzeImage.Handle | supabase/functions/analyze-image/index.ts:138-227 | a request asks the model at most once |
| AnalyzeImage.FatalError | supabase/functions/analyze-image/index.ts:206-226 | the outer `catch`: status 500, the envelope for an empty context, the message and "Failed to analyze image" |
| AnalyzeImage.PreflightSkipsModel | supabase/functions/analyze-image/index.ts:148-151 | OPTIONS gets status 200, the CORS headers, no body, and no model call |
| AnalyzeImage.ResponsesCarryEnvelope | supabase/functions/analyze-image/index.ts:173-226 | every other response is JSON with the CORS headers and a full analysis envelope; it is 500 exactly when the body has an error and 200 otherwise |
| AnalyzeImage.MissingUrlRefused | supabase/functions/analyze-image/index.ts:161-227 | a missing or empty URL is refused with 500, the default envelope, the message and the details, before the model is asked |
| AnalyzeImage.AbsentMetadataIsEmpty | supabase/functions/analyze-image/index.ts:161 | absent metadata is read as `{}` |
| AnalyzeImage.NullMetadataIsFatal | supabase/functions/analyze-image/index.ts:161-227 | a `null` metadata with an image URL never reaches the model: `context.title` throws in the prompt and `Object.keys(null)` throws again in the inner `catch`, so the outer `catch` answers 500 with the empty-context envelope and that second message |
| AnalyzeImage.ModelOutcomeDecides | supabase/functions/analyze-image/index.ts:68-205 | the model is asked once about the prompt; its reply is parsed against the context with status 200, and its error becomes the context's envelope with the message and status 500 |
| PreprocessImage.ValidateUpload | supabase/functions/preprocess-image/index.ts:97-111 | a field is accepted exactly when it is a file of an allowed type of at most 10 MiB |
| PreprocessImage.StoredName | supabase/functions/preprocess-image/index.ts:124 | the stored name ends in `.jpg` |
| PreprocessImage.Handle | supabase/functions/preprocess-image/index.ts:74-185 | the status is 204, 200 or 500, and only the UUID's `.jpg` name is ever written |
| PreprocessImage.ErrorResponse | supabase/functions/preprocess-image/index.ts:164-183 | a failure: status 500, JSON headers, the message and the fixed details |
| PreprocessImage.MissingImageRefused | supabase/functions/preprocess-image/index.ts:94-99 | a missing or empty field is refused as "No image file provided" |
| PreprocessImage.TypeCheckedBeforeSize | supabase/functions/preprocess-image/index.ts:101-111 | a file of a wrong type is refused for its type, whatever its size |
| PreprocessImage.SizeLimitBoundary | supabase/functions/preprocess-image/index.ts:107-111 | exactly 10485760 bytes passes and one byte more is refused |
| PreprocessImage.PreflightAnswered | supabase/functions/preprocess-image/index.ts:78-83 | OPTIONS gets 204 and the CORS headers, and the form is not read |
| PreprocessImage.FailuresShareEnvelope | supabase/functions/preprocess-image/index.ts:164-183 | every failure is a JSON 500 with its message and the fixed details; a refused file is never stored |
| PreprocessImage.SuccessReportsProcessedJpeg | supabase/functions/preprocess-image/index.ts:121-163 | a 200 comes only from a valid, processed and stored file, and reports its public URL, its dimensions, "jpeg" and the processed byte length |
| MetadataEditing.Unsaved | src/hooks/use-metadata-state.ts:91-93 | unsaved exactly when the snapshot differs from the metadata's serialization |
| MetadataEditing.Patched | src/hooks/use-metadata-state.ts:9-11 | `{...prev, ...changes}`: each supplied key replaces the old value whole, the rest is kept |
| MetadataEditing.WithTag | src/hooks/use-metadata-state.ts:34-41 | the tag is appended unless an equal tag is present |
| MetadataEditing.WithoutTag | src/hooks/use-metadata-state.ts:27-32 | every tag equal to the given one is filtered out |
| MetadataEditing.AppendParagraph | src/hooks/use-metadata-state.ts:50-57 | the addition after a blank line, or the addition alone when the text is empty |
| MetadataEditing.CommitTagInput | src/hooks/use-metadata-state.ts:16-22 | the trimmed input is added as a tag when it is non-empty |
| MetadataEditing.MergeAnalysis | src/hooks/use-metadata-state.ts:59-83 | with raw results, the `Set` unions of objects, scenes and tags and the description's new paragraph; without them, no change |
| MetadataEditing.MetadataState.constructor | src/hooks/use-metadata-state.ts:5-7 | default metadata, no snapshot, empty tag input |
| MetadataEditing.MetadataState.SetTagInput | src/hooks/use-metadata-state.ts:7 | replaces the tag input only |
| MetadataEditing.MetadataState.SetInitialMetadata | src/hooks/use-metadata-state.ts:6 | replaces the snapshot only |
| MetadataEditing.MetadataState.UpdateMetadata | src/hooks/use-metadata-state.ts:9-11 | the metadata becomes the old metadata patched with the supplied keys |
| MetadataEditing.MetadataState.HandleTagInputKeyDown | src/hooks/use-metadata-state.ts:13-25 | Enter or "," commits the trimmed input as a tag when it is non-empty and new, and clears the input; other keys change nothing |
| MetadataEditing.MetadataState.RemoveTag | src/hooks/use-metadata-state.ts:27-32 | the tags lose every copy of the tag, and nothing else changes |
| MetadataEditing.MetadataState.AddTag | src/hooks/use-metadata-state.ts:34-41 | appends the tag unless it is present, and nothing else changes |
| MetadataEditing.MetadataState.UpdateDescription | src/hooks/use-metadata-state.ts:43-48 | replaces the description only |
| MetadataEditing.MetadataState.AppendDescription | src/hooks/use-metadata-state.ts:50-57 | appends a paragraph to the description |
| MetadataEditing.MetadataState.UpdateFromAnalysis | src/hooks/use-metadata-state.ts:59-83 | merges the raw analysis into the metadata |
| MetadataEditing.MetadataState.ResetMetadata | src/hooks/use-metadata-state.ts:85-89 | back to the initial state |
| MetadataEditing.MetadataState.HasUnsavedChanges | src/hooks/use-metadata-state.ts:91-93 | answers `Unsaved` of the current state |
| MetadataEditing.PatchReplacesSuppliedKeys | src/hooks/use-metadata-state.ts:9-11 | a patch replaces exactly the keys it supplies; an empty patch, or the same patch twice, is harmless |
| MetadataEditing.AddTagProperties | src/hooks/use-metadata-state.ts:34-41 | after adding, the tags are the old ones, as a prefix, plus this one; nothing else changes, a second add changes nothing, and duplicate-free tags stay duplicate-free |
| MetadataEditing.RemoveTagProperties | src/hooks/use-metadata-state.ts:27-32 | after removing, the tag is absent and every other tag is kept; removing an absent tag changes nothing and undoes adding it; duplicate-free tags stay duplicate-free |
| MetadataEditing.CommitIsAddOfTrimmed | src/hooks/use-metadata-state.ts:13-25 | committing the input is adding its trimmed text, if that is non-empty |
| MetadataEditing.AppendParagraphKeepsBoth | src/hooks/use-metadata-state.ts:50-57 | the old description stays in front, then a blank line and the addition; an empty description is simply replaced |
| MetadataEditing.MergeAnalysisProperties | src/hooks/use-metadata-state.ts:59-83 | objects, scenes and tags become duplicate-free unions with the extracted labels, the description gains the paragraph, and the other keys are kept |
| MetadataEditing.MergeWithoutRawResults | src/hooks/use-metadata-state.ts:60 | an analysis without raw results changes nothing |
| MetadataEditing.UnsavedExactlyWhenChanged | src/hooks/use-metadata-state.ts:91-93 | after a snapshot of `m`, there are no unsaved changes exactly while the metadata equals `m` |
| MetadataEditing.NoSnapshotIsUnsaved | src/hooks/use-metadata-state.ts:6-93 | with an empty snapshot there are always unsaved changes |
| MetadataEditing.RemoveThenAddIsAChange | src/hooks/use-metadata-state.ts:27-41 | removing a present tag that is not the last one and adding it back moves it to the end, which counts as an unsaved change |
| ImageList.NewEntries | src/components/upload/ImageUpload.tsx:67-70 | one new entry per file, in selection order |
| ImageList.AddSelection | src/components/upload/ImageUpload.tsx:72 | the existing entries come first, then one pending, idle entry per selected file |
| ImageList.RemoveIndex | src/components/upload/ImageUpload.tsx:88 | one entry shorter when `index` is in the list, else the same length |
| ImageList.RemoveIndexSlices | src/components/ImageUpload.tsx:47 | removing a position cuts the list around it; an index outside the list keeps everything |
| ImageList.RemoveIndexKeepsOthers | src/components/ImageUpload.tsx:47 | the other entries keep their order |
| ImageList.RemoveIndexEmpties | src/components/ImageUpload.tsx:55-57 | removing the only entry empties the list |
| ImageList.StartAnalysis | src/components/upload/ImageUpload.tsx:123-131 | entry `index`, when present, is marked analyzing |
| ImageList.FinishAnalysis | src/components/upload/ImageUpload.tsx:137-148 | entry `index`, when present, gets the analysis and the URL and stops analyzing |
| ImageList.FailAnalysis | src/components/upload/ImageUpload.tsx:149-159 | entry `index`, when present, only stops analyzing |
| ImageList.ResolveAnalysis | src/components/upload/ImageUpload.tsx:132-161 | the settled half of `handleAnalyze`: finish on success, fail on a rejection |
| ImageList.AnalysisStepsTouchOneEntry | src/components/ImageUpload.tsx:84-123 | each analysis update writes entry `index` only, keeps the length, and does nothing outside the list |
| ImageList.SettledAnalysisLeavesNoneAnalyzing | src/components/ImageUpload.tsx:84-123 | once an analysis settles, no entry is left analyzing if none was before |
| ImageList.SettleAfterStart | src/components/ImageUpload.tsx:84-123 | settling its own index erases the start of the analysis |
| ImageList.StepsAtDistinctIndicesCommute | src/components/ImageUpload.tsx:84-123 | analysis updates at different indices commute |
| ImageList.AddSelectionKeepsEntries | src/components/ImageUpload.tsx:40 | a selection is appended with nothing lost, and an empty one changes nothing |
| UploadHook.ReplyUrl | src/hooks/use-image-upload.ts:44-53 | a reply yields a URL exactly when it is ok and has a non-empty `url`; a rejection always yields a non-empty message |
| UploadHook.ImageUploader.constructor | src/hooks/use-image-upload.ts:10 | not uploading |
| UploadHook.ImageUploader.UploadImages | src/hooks/use-image-upload.ts:14-73 | the loop makes exactly the calls, and ends with exactly the error, of `UploadFrom`; `isUploading` ends false |
| UploadHook.ImageUploader.SaveImages | src/hooks/use-image-upload.ts:75-134 | skips when the guard fails; fails on an auth error or no user; otherwise inserts exactly `RecordsFrom` |
| UploadHook.CanSave | src/hooks/use-image-upload.ts:76-81 | the save guard |
| UploadHook.UploadFrom | src/hooks/use-image-upload.ts:24-56 | the loop from entry `i`: entries without a file are skipped, an accepted reply makes a call and goes on, and the first rejected reply ends the run with its message |
| UploadHook.RecordsFrom | src/hooks/use-image-upload.ts:90-112 | one insert per entry with an uploaded URL, in list order, with the batch metadata and the user |
| UploadHook.RecordTitle | src/hooks/use-image-upload.ts:93-95 | the title alone for a single image, otherwise the title and ` (n)` for position n counted from one |
| UploadHook.UploadCallsFollowList | src/hooks/use-image-upload.ts:24-56 | calls name accepted entries, with their reply's URL, in strictly increasing order |
| UploadHook.UploadWithoutErrorVisitsAll | src/hooks/use-image-upload.ts:24-56 | a run without error called `onAnalyze` for exactly the entries that have a file |
| UploadHook.UploadStopsAtFirstFailure | src/hooks/use-image-upload.ts:44-69 | the error is the message of the first file whose reply yields no URL, and no call follows it |
| UploadHook.UploadNothingForEmptyList | src/hooks/use-image-upload.ts:19 | an empty list makes no call and no error |
| UploadHook.RecordsAreStoredEntries | src/hooks/use-image-upload.ts:90-112 | one record per stored entry, in list order, with its URL, batch metadata and user |
| UploadHook.NothingStoredNoRecords | src/hooks/use-image-upload.ts:91 | no stored entry, no record |
| UploadHook.RecordTitlesDistinct | src/hooks/use-image-upload.ts:93-95 | a single image keeps the title; in a batch, different positions get different titles |
| StepImageUpload.FormDisabled | src/components/ImageUpload.tsx:222 | the form's disabled flag |
| StepImageUpload.StepAfterUpload | src/components/ImageUpload.tsx:125-139 | the step after `handleUpload`: unchanged without a list or title, the analyze step after a resolved upload of pending files, the save step when nothing is pending |
| StepImageUpload.ContentFor | src/components/ImageUpload.tsx:155-182 | `getStepContent()`: the title, description, button text, button action and spinner flag of each step |
| StepImageUpload.ImageUpload.Content | src/components/ImageUpload.tsx:184 | the step content for the current step, list and upload flag |
| StepImageUpload.ImageUpload.constructor | src/components/ImageUpload.tsx:15-17 | closed, empty, on the upload step |
| StepImageUpload.ImageUpload.HandleFileSelect | src/components/ImageUpload.tsx:30-43 | a non-empty selection is appended, opens the dialog and returns to the upload step |
| StepImageUpload.ImageUpload.RemoveImage | src/components/ImageUpload.tsx:45-58 | drops the entry and closes the dialog when none is left |
| StepImageUpload.ImageUpload.ClearFiles | src/components/ImageUpload.tsx:60-78 | empties the list, closes the dialog, resets the metadata and the step |
| StepImageUpload.ImageUpload.BeginAnalysis | src/components/ImageUpload.tsx:85-94 | marks the entry analyzing |
| StepImageUpload.ImageUpload.SettleAnalysis | src/components/ImageUpload.tsx:96-122 | stores the analysis and the URL, or only clears the flag on failure |
| StepImageUpload.ImageUpload.HandleAnalyze | src/components/ImageUpload.tsx:84-123 | both halves of `handleAnalyze` in turn |
| StepImageUpload.ImageUpload.HandleUpload | src/components/ImageUpload.tsx:125-139 | the step becomes `StepAfterUpload` of the list, the title and the upload's outcome |
| StepImageUpload.ImageUpload.HandleSave | src/components/ImageUpload.tsx:141-153 | saves through the hook only when the guard passes; a successful save clears the list, the dialog, the step, the metadata, the snapshot and the tag input; otherwise the metadata, snapshot and tag input are kept |
| StepImageUpload.StepAfterUploadCases | src/components/ImageUpload.tsx:125-139 | no list or no title keeps the step; the analyze step needs a pending file and a resolved upload; the save step comes exactly when everything is stored |
| StepImageUpload.ButtonFollowsUpload | src/components/ImageUpload.tsx:125-222 | the button uploads, spinning while the upload runs, until an upload of a titled list moves the step on, and saves from then on; on the analysis step the spinner shows exactly while the form is disabled, and on the save step never |
| StepImageUpload.SettledFormIsEnabled | src/components/ImageUpload.tsx:222 | once every analysis has settled the form is enabled |
| DialogImageUpload.TitleFromFileName | src/components/upload/ImageUpload.tsx:77 | the title is a dot-free prefix of the file name |
| DialogImageUpload.TitleFromFileNameCases | src/components/upload/ImageUpload.tsx:77 | the title is the name up to its first dot, or the whole name without one |
| DialogImageUpload.Whole | src/components/upload/ImageUpload.tsx:79 | a patch supplying every key replaces the metadata with `m` |
| DialogImageUpload.TitledBySelection | src/components/upload/ImageUpload.tsx:74-81 | a lone file picked while the batch is untitled sets the title from its name; any other selection keeps the metadata |
| DialogImageUpload.ShowsUploadButton | src/components/upload/ImageUpload.tsx:248 | Upload & Analyze shows while no entry is stored |
| DialogImageUpload.AnalyzeAll | src/components/upload/ImageUpload.tsx:122-168 | running the analyses keeps the list's length |
| DialogImageUpload.SaveAllDisabled | src/components/upload/ImageUpload.tsx:263 | the Save All button's disabled flag |
| DialogImageUpload.ImageUpload.constructor | src/components/upload/ImageUpload.tsx:36-38 | both dialogs closed, nothing selected, default metadata |
| DialogImageUpload.ImageUpload.HandleFileSelect | src/components/upload/ImageUpload.tsx:63-84 | a non-empty selection is appended and opens the dialog; a lone file names an untitled batch and becomes the snapshot |
| DialogImageUpload.ImageUpload.RemoveImage | src/components/upload/ImageUpload.tsx:86-100 | removing the last entry closes the dialog and resets the metadata, snapshot and tag input; otherwise only the list changes |
| DialogImageUpload.ImageUpload.HandleDiscardChanges | src/components/upload/ImageUpload.tsx:110-120 | closes both dialogs, empties the list, resets the metadata |
| DialogImageUpload.ImageUpload.HandleClose | src/components/upload/ImageUpload.tsx:102-108 | with unsaved changes it only opens the confirmation; otherwise it closes both dialogs, empties the list and resets the metadata, snapshot and tag input |
| DialogImageUpload.ImageUpload.HandleAnalyze | src/components/upload/ImageUpload.tsx:122-161 | starts then settles the entry's analysis |
| DialogImageUpload.ImageUpload.HandleUpload | src/components/upload/ImageUpload.tsx:163-172 | runs the upload loop and analyzes each accepted file in order: the list becomes `AnalyzeAll` over the loop's calls |
| DialogImageUpload.ImageUpload.HandleSave | src/components/upload/ImageUpload.tsx:174-182 | saves with a list and a title; a successful save closes both dialogs, empties the list and resets the metadata, snapshot and tag input; a refused save leaves `isUploading` as it was; anything but success keeps both dialogs, the snapshot and the tag input |
| DialogImageUpload.SelectionNamesUntitledBatch | src/components/upload/ImageUpload.tsx:74-81 | a selection changes nothing but the title, and that only for a lone file picked while untitled: its name up to the first dot, or the whole name without one |
| DialogImageUpload.NamedBatchIsSaved | src/components/upload/ImageUpload.tsx:79-80 | right after naming, nothing is unsaved |
| DialogImageUpload.AnalyzeAllSettles | src/components/upload/ImageUpload.tsx:122-161 | no entry is left analyzing, and entries no call names are untouched |
| DialogImageUpload.AnalyzedEntryIsStored | src/components/upload/ImageUpload.tsx:137-148 | a successful analysis stores the call's URL and analysis in its entry |
| DialogImageUpload.UploadStoresAnalyzedFiles | src/components/upload/ImageUpload.tsx:163-172 | after an error-free upload, every file whose analysis succeeded is stored under its reply's URL, and nothing is left analyzing |
| DialogImageUpload.SaveAllEnabledPassesGuard | src/components/upload/ImageUpload.tsx:248-274 | an enabled Save All passes the hook's save guard, and it replaces Upload only once something is stored |
| MetadataForm.TextOr | src/components/shared/ImageMetadataForm.tsx:114-123 | `value \|\| fallback` for strings: the fallback or a non-empty value |
| MetadataForm.Normalize | src/components/shared/ImageMetadataForm.tsx:113-126 | the loaded metadata never has an empty technical setting |
| MetadataForm.Stored | src/hooks/use-image-upload.ts:99-110 | the prop a stored image row supplies: every key present, technical settings under `metadata.technical_details` |
| MetadataForm.Toggled | src/components/shared/ImageMetadataForm.tsx:158-162 | toggling flips membership of the index and of nothing else |
| MetadataForm.SuggestionsFor | src/components/shared/ImageMetadataForm.tsx:263-337 | no raw results, no buttons; otherwise one for the description and one per raw object and scene |
| MetadataForm.Accepted | src/components/shared/ImageMetadataForm.tsx:268-324 | the edit a suggestion button makes: replace the description, add the object as a tag, or append the scene as a paragraph |
| MetadataForm.StatusOf | src/components/shared/ImageMetadataForm.tsx:164-184 | `getAnalysisStatus`: analyzing first, then complete when raw results exist, else waiting |
| MetadataForm.ImageMetadataForm.constructor | src/components/shared/ImageMetadataForm.tsx:95-108 | closed, no panel expanded, default metadata |
| MetadataForm.ImageMetadataForm.LoadInitialMetadata | src/components/shared/ImageMetadataForm.tsx:110-131 | a given prop is loaded normalized and snapshotted; an absent one changes nothing |
| MetadataForm.ImageMetadataForm.HandleDiscardChanges | src/components/shared/ImageMetadataForm.tsx:141-145 | closes and resets the metadata |
| MetadataForm.ImageMetadataForm.HandleClose | src/components/shared/ImageMetadataForm.tsx:133-139 | with unsaved changes it only opens the confirmation and keeps the metadata, snapshot and tag input; otherwise it asks to close and resets all three |
| MetadataForm.ImageMetadataForm.HandleSubmit | src/components/shared/ImageMetadataForm.tsx:147-156 | submits the metadata exactly when there is a title and the form is enabled |
| MetadataForm.ImageMetadataForm.ToggleAnalysis | src/components/shared/ImageMetadataForm.tsx:158-162 | the expanded panels become `Toggled` |
| MetadataForm.ImageMetadataForm.AcceptSuggestion | src/components/shared/ImageMetadataForm.tsx:268-324 | the metadata becomes `Accepted` of the suggestion |
| MetadataForm.EmptyPropIsDefault | src/components/shared/ImageMetadataForm.tsx:113-126 | an empty prop loads the default metadata |
| MetadataForm.NormalizeStoredRoundTrip | src/components/shared/ImageMetadataForm.tsx:113-126 | stored metadata loads back unchanged exactly when its technical settings are non-empty |
| MetadataForm.NormalizeIdempotent | src/components/shared/ImageMetadataForm.tsx:113-126 | reloading loaded metadata changes nothing |
| MetadataForm.LoadedFormIsSaved | src/components/shared/ImageMetadataForm.tsx:127-128 | nothing is unsaved right after loading, and any change makes it unsaved |
| MetadataForm.ToggleTwice | src/components/shared/ImageMetadataForm.tsx:158-162 | toggling twice restores the expanded set, and restores the list exactly when the index was collapsed |
| MetadataForm.StatusFollowsAnalysis | src/components/shared/ImageMetadataForm.tsx:164-184 | a panel shows "Analyzing..." once its analysis starts; once it settles, "Analysis complete" exactly when the analysis brought raw results, after a failure what it showed before, and no other panel changes |
| MetadataForm.SuggestionEffects | src/components/shared/ImageMetadataForm.tsx:268-324 | the description button replaces the description, an object adds a tag, a scene appends a paragraph, and the other keys are kept |

## Left out

- Logging, request IDs, timing and toasts: they are observable only as side output.
- The network calls are inputs, not modelled calls:
  - the Hugging Face chat completion;
  - Supabase storage upload and public URL;
  - the `images` insert;
  - `auth.getUser`;
  - `fetch` of the preprocessing endpoint.
- The Jimp image library is an input (`Services.preprocess`), including its resize to width 500 and its JPEG encoding at quality 80. Only its dimensions and byte length are modelled.
- `URL.createObjectURL` and `URL.revokeObjectURL`: preview URLs are parameters, and revoking is not modelled.
- The file input reset, `window` events and the `onUploadComplete` callback are not modelled.
- The useImageAnalysis hook is not part of this model. Its outcome is the `outcome`/`analyze` parameter.
- Text.Lower: `toLowerCase` is modelled on ASCII letters only; Unicode case mapping is not modelled.
- ResponseParser.TitleWords: `split(/\s+/)` is modelled as a split at every whitespace character. The extra empty pieces this gives are dropped by the length filter. A leading or trailing empty piece is dropped the same way.
- ResponseParser.WithConfidence: the confidence 0.9 is the real number 0.9, not a binary float.
- The `any` typed context is a record in which a missing field equals its empty value. `||` treats both alike. A non-string or non-array value in the context is not modelled.
- MetadataEditing.MetadataState.UpdateMetadata: a patch key set explicitly to `undefined` is not modelled; a patch key is either supplied or absent.
- React state batching and stale closures are not modelled: handlers run one after another on current state. In particular `addTag` and the tag input read `metadata.tags` from the last render, which the model takes to be the current state.
- `Promise.all` runs the inserts concurrently, and their errors are not checked by the source. The model lists the records in order and treats inserts as successful.
- `isGeneratingDescription`, and the step component's extra `url` field on new entries (src/components/ImageUpload.tsx:37), are never read by the core and are not modelled.
- StepImageUpload.ImageUpload.HandleUpload:
  - The call at src/components/ImageUpload.tsx:131 passes `handleAnalyze` in the hook's metadata slot and no analysis callback.
  - It passes indices of the filtered list.
  - The model takes the upload's outcome as a parameter and states only the step transition.
- AnalyzeImage.Handle: a body that is valid JSON but not an object, and a non-string `imageUrl`, are not modelled.
- The message a `null` metadata ends with is the one the V8 engine gives `Object.keys(null)`; other engines word it differently.
- The dialog component passes `metadata` and `updateFromAnalysis` to `analyzeImage`, which takes only the URL. Those extra arguments have no effect, so they are not modelled.
- The parts of the user interface that only render are not modelled. This covers previews, icons, badges, the collapsibles' contents other than the suggestion buttons, and the alert dialogs' text.
