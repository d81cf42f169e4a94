/**
 * The image preprocessing endpoint: it checks the uploaded form field, hands
 * the file to the image library to be resized and re-encoded as JPEG, stores
 * the result under a fresh `.jpg` name, and answers with the public URL and
 * the processed image's metadata, or with a 500 error envelope.
 *
 * The form parsing, the image library, the storage upload, the public URL and
 * the UUID are parameters.
 */
module PreprocessImage {
  import opened Wrappers
  import opened UploadTypes

  type Header = (string, string)

  const CorsHeaders: seq<Header> := [
    ("Access-Control-Allow-Origin", "*"),
    ("Access-Control-Allow-Methods", "POST, OPTIONS"),
    ("Access-Control-Allow-Headers", "*")
  ]

  const JsonHeaders: seq<Header> := CorsHeaders + [("Content-Type", "application/json")]

  const AllowedTypes: seq<string> := ["image/jpeg", "image/png", "image/webp"]

  /** 10 MiB. */
  const MaxSize: nat := 10 * 1024 * 1024

  const NoImageMessage := "No image file provided"
  const InvalidTypeMessage := "Invalid file type. Supported formats: JPG, PNG, WebP"
  const TooLargeMessage := "File size too large. Maximum size is 10MB"
  const ProcessFailureDetails := "Failed to process image"

  /** `formData.get('image')`: missing, a text field, or a file. */
  datatype FormValue = NoField | TextField(text: string) | FileField(file: File)

  /** The image library's output: the JPEG bytes' length and the new dimensions. */
  datatype Processed = Processed(byteLength: nat, width: nat, height: nat)

  /** What the endpoint's collaborators do for one request. */
  datatype Services = Services(
    preprocess: File -> Result<Processed, string>,   // read, resize and re-encode; the message of what it throws
    uuid: string,                                     // `crypto.randomUUID()`
    upload: string -> Option<string>,                // the storage error for a name, if any
    publicUrl: string -> string)                     // the public URL of a stored name

  datatype Request = Request(verb: string, form: Result<FormValue, string>)

  datatype ImageMetadata = ImageMetadata(width: nat, height: nat, format: string, size: nat)

  datatype ResponseBody =
    | NoBody
    | Stored(url: string, metadata: ImageMetadata)
    | ErrorBody(error: string, details: string)

  datatype Response = Response(status: nat, headers: seq<Header>, body: ResponseBody)

  /** The checks on the form field, in the order the handler makes them. */
  function ValidateUpload(value: FormValue): (r: Result<File, string>)
    ensures r.Success? <==> value.FileField? && value.file.mimeType in AllowedTypes && value.file.size <= MaxSize
    ensures r.Success? ==> r.value == value.file
  {
    match value
    case NoField => Failure(NoImageMessage)
    case TextField(text) =>
      // a non-empty text value is truthy, and its missing `type` is not an allowed one
      if text == "" then Failure(NoImageMessage) else Failure(InvalidTypeMessage)
    case FileField(file) =>
      if file.mimeType !in AllowedTypes then Failure(InvalidTypeMessage)
      else if file.size > MaxSize then Failure(TooLargeMessage)
      else Success(file)
  }

  function StoredName(uuid: string): (name: string)
    ensures |name| >= 4 && name[|name| - 4..] == ".jpg"
  {
    uuid + ".jpg"
  }

  function ErrorResponse(message: string): Response {
    Response(500, JsonHeaders, ErrorBody(message, ProcessFailureDetails))
  }

  /** The handler: the response and the name written to storage, if any. */
  function Handle(req: Request, services: Services): (r: (Response, Option<string>))
    ensures r.0.status == 204 || r.0.status == 200 || r.0.status == 500
    ensures r.1.Some? ==> r.1.value == StoredName(services.uuid)
  {
    if req.verb == "OPTIONS" then (Response(204, CorsHeaders, NoBody), None)
    else match req.form
      case Failure(message) => (ErrorResponse(message), None)
      case Success(value) =>
        match ValidateUpload(value)
        case Failure(message) => (ErrorResponse(message), None)
        case Success(file) =>
          match services.preprocess(file)
          case Failure(message) => (ErrorResponse(message), None)
          case Success(processed) =>
            var name := StoredName(services.uuid);
            var uploadError := services.upload(name);
            if uploadError.Some? then (ErrorResponse(uploadError.value), Some(name))
            else
              (Response(200, JsonHeaders,
                 Stored(services.publicUrl(name), ImageMetadata(processed.width, processed.height, "jpeg", processed.byteLength))),
               Some(name))
  }

  // ---------------------------------------------------------------- properties

  /** A missing or empty field is refused as "no image" before any other check. */
  lemma MissingImageRefused()
    ensures ValidateUpload(NoField) == Failure(NoImageMessage)
    ensures ValidateUpload(TextField("")) == Failure(NoImageMessage)
  {
  }

  /** The type is checked before the size: a file of the wrong type is refused as such, however large. */
  lemma TypeCheckedBeforeSize(file: File)
    requires file.mimeType !in AllowedTypes
    ensures ValidateUpload(FileField(file)) == Failure(InvalidTypeMessage)
  {
  }

  /** The size limit is inclusive: exactly 10 MiB passes, one byte more is refused. */
  lemma SizeLimitBoundary(name: string, mimeType: string)
    requires mimeType in AllowedTypes
    ensures ValidateUpload(FileField(File(name, mimeType, MaxSize))).Success?
    ensures ValidateUpload(FileField(File(name, mimeType, MaxSize + 1))) == Failure(TooLargeMessage)
    ensures MaxSize == 10485760
  {
  }

  /** A preflight request is answered with 204 and the CORS headers, without touching the form. */
  lemma PreflightAnswered(form: Result<FormValue, string>, services: Services)
    ensures Handle(Request("OPTIONS", form), services) == (Response(204, CorsHeaders, NoBody), None)
  {
  }

  /**
   * Every failure, whatever its cause, is a 500 carrying the error's message
   * and the fixed details; a refused file is never processed or stored.
   */
  lemma FailuresShareEnvelope(req: Request, services: Services)
    requires req.verb != "OPTIONS"
    ensures var (resp, name) := Handle(req, services);
      && resp.headers == JsonHeaders
      && (resp.status == 500 <==> resp.body.ErrorBody?)
      && (resp.body.ErrorBody? ==> resp.body.details == ProcessFailureDetails)
      && (resp.status == 200 <==> resp.body.Stored?)
      && (req.form.Success? && ValidateUpload(req.form.value).Failure? ==>
            resp == ErrorResponse(ValidateUpload(req.form.value).error) && name.None?)
  {
  }

  /**
   * A success comes only from a valid file that was processed and stored:
   * it reports the stored `.jpg` name's public URL, format "jpeg", and the
   * processed byte length as the size.
   */
  lemma SuccessReportsProcessedJpeg(req: Request, services: Services)
    requires Handle(req, services).0.status == 200
    ensures req.verb != "OPTIONS" && req.form.Success?
    ensures ValidateUpload(req.form.value).Success?
    ensures services.preprocess(ValidateUpload(req.form.value).value).Success?
    ensures var processed := services.preprocess(ValidateUpload(req.form.value).value).value;
      var name := StoredName(services.uuid);
      && services.upload(name).None?
      && Handle(req, services).1 == Some(name)
      && Handle(req, services).0.body == Stored(services.publicUrl(name), ImageMetadata(processed.width, processed.height, "jpeg", processed.byteLength))
  {
  }
}
