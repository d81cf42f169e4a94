/**
 * The analysis endpoint: it answers the CORS preflight, reads `{imageUrl,
 * metadata}`, asks the vision model about the image and returns the parsed
 * analysis, or the empty analysis envelope with an error message.
 *
 * The model is a parameter: a function from the conversation sent to it to
 * its reply text or the message of the error it raised. Every response also
 * records the conversations the model was asked about.
 */
module AnalyzeImage {
  import opened Wrappers
  import opened UploadTypes
  import opened ResponseParser
  import opened Prompts

  type Model = seq<Message> -> Result<string, string>

  /** The analysis and, when something was thrown, its message under the `error` key. */
  datatype AnalysisOutcome = AnalysisOutcome(analysis: ImageAnalysis, error: Option<string>)

  /** `analyzeImageWithQwen(imageUrl, userContext)`, and the conversations it sent. */
  function AnalyzeImageWithQwen(imageUrl: string, ctx: Context, model: Model): (r: (AnalysisOutcome, seq<seq<Message>>))
    ensures r.1 == [CreateImageAnalysisPrompt(imageUrl, ctx.title, ctx.description)]
  {
    var conversation := CreateImageAnalysisPrompt(imageUrl, ctx.title, ctx.description);
    match model(conversation)
    case Success(text) => (AnalysisOutcome(ParseAnalysisResponse(text, ctx), None), [conversation])
    case Failure(message) => (AnalysisOutcome(CreateErrorResponse(ctx), Some(message)), [conversation])
  }

  type Header = (string, string)

  const CorsHeaders: seq<Header> := [
    ("Access-Control-Allow-Origin", "*"),
    ("Access-Control-Allow-Methods", "POST, OPTIONS"),
    ("Access-Control-Allow-Headers", "Content-Type, Authorization")
  ]

  const JsonHeaders: seq<Header> := CorsHeaders + [("Content-Type", "application/json")]

  const FailureDetails: string := "Failed to analyze image"
  const MissingUrlMessage: string := "Image URL is required"

  /**
   * The message of the `TypeError` that `Object.keys(null)` throws: the error
   * path of `analyzeImageWithQwen` raises it when the context is `null`.
   */
  const NullContextMessage: string := "Cannot convert undefined or null to object"

  /** The `metadata` field of the body: absent, `null`, or a context object. */
  datatype MetadataField = Absent | Null | Given(context: Context)

  /** The request body: unreadable JSON (with the parser's message), or the two fields the handler reads. */
  datatype RequestBody =
    | Unreadable(message: string)
    | Body(imageUrl: Option<string>, metadata: MetadataField)

  /** `verb` is the HTTP method. */
  datatype Request = Request(verb: string, body: RequestBody)

  /** `null`, or the JSON of the analysis with the optional `error` and `details` keys. */
  datatype ResponseBody =
    | NoBody
    | AnalysisBody(analysis: ImageAnalysis, error: Option<string>, details: Option<string>)

  datatype Response = Response(status: nat, headers: seq<Header>, body: ResponseBody)

  /** What the outer `catch` sends: the envelope for an empty context, the message and the details. */
  function FatalError(message: string): Response {
    Response(500, JsonHeaders, AnalysisBody(CreateErrorResponse(EmptyContext), Some(message), Some(FailureDetails)))
  }

  /** The request handler, and the conversations it sent to the model. */
  function Handle(req: Request, model: Model): (r: (Response, seq<seq<Message>>))
    ensures |r.1| <= 1
  {
    if req.verb == "OPTIONS" then (Response(200, CorsHeaders, NoBody), [])
    else
      match req.body
      case Unreadable(message) => (FatalError(message), [])
      case Body(imageUrl, metadata) =>
        if imageUrl.None? || imageUrl.value == "" then (FatalError(MissingUrlMessage), [])
        else if metadata.Null? then
          // `= {}` replaces only an absent field: reading `title` of `null` in the
          // prompt throws, and so does `Object.keys` in the inner `catch`.
          (FatalError(NullContextMessage), [])
        else
          var ctx := if metadata.Given? then metadata.context else EmptyContext;
          var (outcome, calls) := AnalyzeImageWithQwen(imageUrl.value, ctx, model);
          if outcome.error.Some? then (Response(500, JsonHeaders, AnalysisBody(outcome.analysis, outcome.error, None)), calls)
          else (Response(200, JsonHeaders, AnalysisBody(outcome.analysis, None, None)), calls)
  }

  /** The preflight gets the CORS headers and no body, and the model is not asked. */
  lemma PreflightSkipsModel(body: RequestBody, model: Model)
    ensures Handle(Request("OPTIONS", body), model) == (Response(200, CorsHeaders, NoBody), [])
  {
  }

  /**
   * Every other request gets a JSON body holding the whole analysis envelope
   * and the CORS headers; the status is 500 exactly when the body carries an
   * error, and 200 otherwise.
   */
  lemma ResponsesCarryEnvelope(req: Request, model: Model)
    requires req.verb != "OPTIONS"
    ensures var resp := Handle(req, model).0;
      && resp.body.AnalysisBody?
      && CorsHeaders <= resp.headers
      && resp.headers == JsonHeaders
      && (resp.status == 500 <==> resp.body.error.Some?)
      && (resp.status == 200 <==> resp.body.error.None?)
      && resp.body.analysis.rawResults.Some?
  {
  }

  /**
   * A missing or empty image URL is refused before the model is asked: status
   * 500, the envelope with the default technical settings, the message and the
   * details.
   */
  lemma MissingUrlRefused(imageUrl: Option<string>, metadata: MetadataField, model: Model, verb: string)
    requires verb != "OPTIONS"
    requires imageUrl.None? || imageUrl.value == ""
    ensures var (resp, calls) := Handle(Request(verb, Body(imageUrl, metadata)), model);
      && calls == []
      && resp.status == 500
      && resp.body == AnalysisBody(CreateErrorResponse(EmptyContext), Some(MissingUrlMessage), Some(FailureDetails))
      && resp.body.analysis.technicalDetails == DefaultTechnical
      && resp.body.analysis.objects == [] && resp.body.analysis.description == ""
  {
  }

  /** An absent `metadata` is read as `{}`. */
  lemma AbsentMetadataIsEmpty(verb: string, imageUrl: Option<string>, model: Model)
    ensures Handle(Request(verb, Body(imageUrl, Absent)), model) == Handle(Request(verb, Body(imageUrl, Given(EmptyContext))), model)
  {
  }

  /**
   * A `null` metadata with an image URL never reaches the model: the request
   * fails with status 500, the envelope for an empty context and the message
   * of the second `TypeError`.
   */
  lemma NullMetadataIsFatal(verb: string, url: string, model: Model)
    requires verb != "OPTIONS" && url != ""
    ensures var (resp, calls) := Handle(Request(verb, Body(Some(url), Null)), model);
      && calls == []
      && resp.status == 500
      && resp.body == AnalysisBody(CreateErrorResponse(EmptyContext), Some(NullContextMessage), Some(FailureDetails))
  {
  }

  /**
   * With an image URL, the model is asked once, about the prompt built from
   * that URL and the context's title and description; its reply is parsed
   * against the context and returned with status 200, and its failure becomes
   * the envelope for that context with the message and status 500.
   */
  lemma ModelOutcomeDecides(verb: string, url: string, ctx: Context, model: Model)
    requires verb != "OPTIONS" && url != ""
    ensures var (resp, calls) := Handle(Request(verb, Body(Some(url), Given(ctx))), model);
      var conversation := CreateImageAnalysisPrompt(url, ctx.title, ctx.description);
      && calls == [conversation]
      && (model(conversation).Success? ==>
            resp == Response(200, JsonHeaders, AnalysisBody(ParseAnalysisResponse(model(conversation).value, ctx), None, None)))
      && (model(conversation).Failure? ==>
            resp == Response(500, JsonHeaders, AnalysisBody(CreateErrorResponse(ctx), Some(model(conversation).error), None)))
  {
    var req := Request(verb, Body(Some(url), Given(ctx)));
    var conversation := CreateImageAnalysisPrompt(url, ctx.title, ctx.description);
    var out := AnalyzeImageWithQwen(url, ctx, model);
    assert Handle(req, model).1 == out.1;
    match model(conversation) {
      case Success(text) =>
        assert out.0 == AnalysisOutcome(ParseAnalysisResponse(text, ctx), None);
      case Failure(message) =>
        assert out.0 == AnalysisOutcome(CreateErrorResponse(ctx), Some(message));
    }
  }
}
