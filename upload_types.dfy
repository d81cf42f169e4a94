/**
 * The shapes shared by the upload components and the analysis endpoint:
 * the editable metadata of a batch, the analysis result of one image, one
 * entry of the pending image list, and the default metadata.
 */
module UploadTypes {
  import opened Wrappers

  datatype Technical = Technical(orientation: string, quality: string, lighting: string, composition: seq<string>)

  /** `MetadataFormData`: what the user edits for a batch of images. */
  datatype Metadata = Metadata(
    title: string,
    description: string,
    tags: seq<string>,
    objects: seq<string>,
    scenes: seq<string>,
    emotions: seq<string>,
    technical: Technical)

  /** A raw object or scene entry: a plain label, or `{label, confidence}`; `text` is the label. */
  datatype Entry = Plain(text: string) | Scored(text: string, confidence: real)

  /** `raw_results.llm_analysis`: the extraction before it is merged with the caller's context. */
  datatype RawAnalysis = RawAnalysis(objects: seq<Entry>, scenes: seq<Entry>, tags: seq<string>, description: string)

  /** `ImageAnalysis` (the endpoint's `ParsedResponse`); `rawResults` is `None` when `raw_results.llm_analysis` is missing. */
  datatype ImageAnalysis = ImageAnalysis(
    objects: seq<string>,
    scenes: seq<string>,
    tags: seq<string>,
    description: string,
    technicalDetails: Technical,
    rawResults: Option<RawAnalysis>)

  /** A browser `File`, reduced to what the core reads. */
  datatype File = File(name: string, mimeType: string, size: nat)

  /**
   * `ImageFile`: one pending image. An absent `isAnalyzing` reads as false; `uploadedUrl`
   * is absent until the image has been stored.
   */
  datatype ImageFile = ImageFile(
    file: Option<File>,
    previewUrl: string,
    uploadedUrl: Option<string>,
    analysis: Option<ImageAnalysis>,
    isAnalyzing: bool)

  const DefaultTechnical := Technical("landscape", "high", "natural", [])

  /** `defaultMetadata`. */
  const DefaultMetadata := Metadata("", "", [], [], [], [], DefaultTechnical)

  /** An entry's label: `typeof obj === "string" ? obj : obj.label`. */
  function EntryLabel(e: Entry): string {
    e.text
  }

  function EntryLabels(es: seq<Entry>): (r: seq<string>)
    ensures |r| == |es|
    ensures forall i :: 0 <= i < |es| ==> r[i] == es[i].text
  {
    seq(|es|, i requires 0 <= i < |es| => EntryLabel(es[i]))
  }

  /** A truthy `uploadedUrl`: the image has been stored. */
  predicate IsUploaded(img: ImageFile) {
    img.uploadedUrl.Some? && img.uploadedUrl.value != ""
  }

  /** The entry created for a newly selected file. */
  function NewImageFile(file: File, previewUrl: string): (img: ImageFile)
    ensures !IsUploaded(img) && !img.isAnalyzing && img.analysis.None?
    ensures img.file == Some(file)
  {
    ImageFile(Some(file), previewUrl, None, None, false)
  }

  /** Every field of the default metadata is empty except the technical settings. */
  lemma DefaultMetadataValues()
    ensures DefaultMetadata.title == "" && DefaultMetadata.description == ""
    ensures DefaultMetadata.tags == [] && DefaultMetadata.objects == []
    ensures DefaultMetadata.scenes == [] && DefaultMetadata.emotions == []
    ensures DefaultMetadata.technical.orientation == "landscape"
    ensures DefaultMetadata.technical.quality == "high"
    ensures DefaultMetadata.technical.lighting == "natural"
    ensures DefaultMetadata.technical.composition == []
  {
  }
}
