/**
 * The lesson-generation endpoint (api/generate-lesson.ts): CORS headers, an ordered
 * chain of early replies (method, declared size, credential, required fields), the
 * choice of prompt and attached parts, and the classification of failures into a
 * 500 reply. The generative model itself is outside the model: what it did is a
 * parameter.
 */
module GenerateLessonApi {
  import opened Wrappers
  import opened Types
  import opened JsText

  /** 4.5 × 1024 × 1024: the largest declared body size let through. */
  const MaxBodyBytes: nat := 4718592

  const MethodNotAllowedError: string := "Method not allowed"
  const PayloadTooLargeError: string := "Payload too large"
  const PayloadTooLargeDetails: string :=
    "Request body exceeds 4.5 MB limit. PDF files must be under 4 MB (before base64 encoding)."
  const KeyMissingError: string :=
    "API Key not configured. Please set GEMINI_API_KEY environment variable."
  const MissingParamsError: string := "Missing required parameters: grade, subject, loCode"
  const GenericError: string := "Failed to generate lesson"
  const UnknownDetails: string := "Unknown error"
  const InvalidKeyError: string :=
    "Invalid API Key. Please check your GEMINI_API_KEY in Vercel Environment Variables."
  const InvalidKeyDetails: string := "The API key may be incorrect or expired."
  const QuotaError: string := "API quota exceeded or rate limit reached."
  const QuotaDetails: string := "Please try again later or check your Gemini API quota."
  const PermissionError: string := "API key does not have required permissions."
  const PermissionDetails: string := "Please verify your Gemini API key has the correct permissions."
  const NoContentMessage: string := "No content generated"
  /** What Node.js throws when the handler reads `grade` from an absent body. */
  const AbsentBodyMessage: string := "Cannot read properties of undefined (reading 'grade')"

  /** The JSON fields of the request body the handler reads. */
  datatype RequestBody = RequestBody(
    grade: Option<string>,
    subject: Option<string>,
    loCode: Option<string>,
    ncertPdf: Option<Pdf>,
    refinedBlocks: Option<EditableBlocks>)

  datatype Request = Request(
    verb: string,
    contentLength: Option<string>,
    body: Option<RequestBody>)

  /** `GEMINI_API_KEY` and `NODE_ENV` from the process environment. */
  datatype Env = Env(apiKey: Option<string>, nodeEnv: Option<string>)

  datatype Body =
    | NoBody
    | ErrorJson(error: string, details: Option<string>, fullError: Option<string>)
    /** The model's JSON text, parsed and sent back as the reply. */
    | LessonJson(json: string)

  datatype Reply = Reply(status: nat, body: Body)

  /** The text prompt: a regeneration from refined blocks, or an initial generation that may mention an attached PDF. */
  datatype Prompt = RegenerationPrompt | InitialPrompt(mentionsPdf: bool)

  datatype Part = TextPart(prompt: Prompt) | InlineData(mimeType: string, data: string)

  /**
   * What the model call did: it replied with a text (together with the message
   * `JSON.parse` throws on that text, if it throws), or the call threw.
   */
  datatype ModelOutcome = Replied(text: string, syntaxError: Option<string>) | Threw(thrown: Thrown)

  /** A string value that JavaScript treats as true: present and non-empty. */
  predicate Truthy(s: Option<string>)
  {
    s.Some? && s.value != []
  }

  /**
   * The declared size check: a present, non-empty header whose `parseInt` exceeds the
   * limit. A header that does not parse (NaN) never exceeds it.
   */
  predicate TooLarge(contentLength: Option<string>)
  {
    && Truthy(contentLength)
    && var n := ParseInt(contentLength.value);
       n.Some? && n.value > MaxBodyBytes
  }

  /** For a header written as a decimal number, the check is exactly "more than 4,718,592 bytes". */
  lemma {:induction false} TooLargeDecimal(n: nat)
    ensures TooLarge(Some(DecimalString(n))) <==> n > MaxBodyBytes
  {
    ParseIntDecimal(n);
  }

  /** The message of a thrown value, if it has one. */
  function MessageOf(t: Thrown): Option<string>
  {
    if t.ErrorObject? then Some(t.message) else None
  }

  /** `error.message?.includes(word)`. */
  predicate Mentions(t: Thrown, word: string)
  {
    t.ErrorObject? && Includes(t.message, word)
  }

  /**
   * The catch block: every failure is a 500 whose message is chosen by the first of
   * `API_KEY`, `quota`/`rate limit`, `permission` that the thrown message mentions,
   * or the generic one; the generic reply's details are the message itself, or
   * "Unknown error" when there is none. The raw message is added only in development.
   */
  function Classify(t: Thrown, nodeEnv: Option<string>): (r: Reply)
    ensures r.status == 500 && r.body.ErrorJson?
    ensures r.body.error == InvalidKeyError <==> Mentions(t, "API_KEY")
    ensures r.body.error == QuotaError <==>
      !Mentions(t, "API_KEY") && (Mentions(t, "quota") || Mentions(t, "rate limit"))
    ensures r.body.error == PermissionError <==>
      !Mentions(t, "API_KEY") && !Mentions(t, "quota") && !Mentions(t, "rate limit")
      && Mentions(t, "permission")
    ensures (!Mentions(t, "API_KEY") && !Mentions(t, "quota") && !Mentions(t, "rate limit")
             && !Mentions(t, "permission")) ==> r.body.error == GenericError
    ensures r.body.error == InvalidKeyError ==> r.body.details == Some(InvalidKeyDetails)
    ensures r.body.error == QuotaError ==> r.body.details == Some(QuotaDetails)
    ensures r.body.error == PermissionError ==> r.body.details == Some(PermissionDetails)
    ensures r.body.error == GenericError ==>
      r.body.details == Some(if MessageOf(t).Some? && MessageOf(t).value != [] then t.message else UnknownDetails)
    ensures r.body.fullError == (if nodeEnv == Some("development") then MessageOf(t) else None)
  {
    var details := if MessageOf(t).Some? && MessageOf(t).value != [] then t.message else UnknownDetails;
    var fullError := if nodeEnv == Some("development") then MessageOf(t) else None;
    if Mentions(t, "API_KEY") then
      Reply(500, ErrorJson(InvalidKeyError, Some(InvalidKeyDetails), fullError))
    else if Mentions(t, "quota") || Mentions(t, "rate limit") then
      Reply(500, ErrorJson(QuotaError, Some(QuotaDetails), fullError))
    else if Mentions(t, "permission") then
      Reply(500, ErrorJson(PermissionError, Some(PermissionDetails), fullError))
    else
      Reply(500, ErrorJson(GenericError, Some(details), fullError))
  }

  /**
   * The parts sent to the model: the text prompt first, which is the regeneration
   * prompt exactly when refined blocks are present; the PDF is attached as inline
   * data only for an initial generation that has one.
   */
  function Parts(body: RequestBody): (ps: seq<Part>)
    ensures 1 <= |ps| <= 2 && ps[0].TextPart?
    ensures ps[0].prompt.RegenerationPrompt? <==> body.refinedBlocks.Some?
    ensures ps[0].prompt.InitialPrompt? ==> (ps[0].prompt.mentionsPdf <==> body.ncertPdf.Some?)
    ensures |ps| == 2 <==> body.ncertPdf.Some? && body.refinedBlocks.None?
    ensures |ps| == 2 ==> ps[1] == InlineData(body.ncertPdf.value.mimeType, body.ncertPdf.value.data)
  {
    var text := TextPart(if body.refinedBlocks.Some? then RegenerationPrompt
                         else InitialPrompt(body.ncertPdf.Some?));
    if body.ncertPdf.Some? && body.refinedBlocks.None? then
      [text, InlineData(body.ncertPdf.value.mimeType, body.ncertPdf.value.data)]
    else
      [text]
  }

  /** Where the handler's checks leave a request: an early reply, or a model call with these parts. */
  datatype Gate = Respond(reply: Reply) | CallModel(parts: seq<Part>)

  /** The required fields are all present and non-empty. */
  predicate HasRequiredFields(b: RequestBody)
  {
    Truthy(b.grade) && Truthy(b.subject) && Truthy(b.loCode)
  }

  /**
   * The checks before the model call, in the handler's order. Each reply happens
   * exactly when every earlier check passed and its own failed; the model is called
   * only when all pass.
   */
  function Admit(req: Request, env: Env): (g: Gate)
    ensures g == Respond(Reply(200, NoBody)) <==> req.verb == "OPTIONS"
    ensures (g.Respond? && g.reply.status == 405) <==> req.verb != "OPTIONS" && req.verb != "POST"
    ensures (g.Respond? && g.reply.status == 413) <==> req.verb == "POST" && TooLarge(req.contentLength)
    ensures (g.Respond? && g.reply.body.ErrorJson? && g.reply.body.error == KeyMissingError) <==>
      req.verb == "POST" && !TooLarge(req.contentLength) && !Truthy(env.apiKey)
    ensures (g.Respond? && g.reply.status == 400) <==>
      && req.verb == "POST" && !TooLarge(req.contentLength) && Truthy(env.apiKey)
      && req.body.Some? && !HasRequiredFields(req.body.value)
    ensures g.CallModel? <==>
      && req.verb == "POST" && !TooLarge(req.contentLength) && Truthy(env.apiKey)
      && req.body.Some? && HasRequiredFields(req.body.value)
    ensures g.CallModel? ==> g.parts == Parts(req.body.value)
    ensures req.verb != "OPTIONS" && req.verb != "POST" ==>
      g == Respond(Reply(405, ErrorJson(MethodNotAllowedError, None, None)))
    ensures req.verb == "POST" && TooLarge(req.contentLength) ==>
      g == Respond(Reply(413, ErrorJson(PayloadTooLargeError, Some(PayloadTooLargeDetails), None)))
    ensures req.verb == "POST" && !TooLarge(req.contentLength) && !Truthy(env.apiKey) ==>
      g == Respond(Reply(500, ErrorJson(KeyMissingError, None, None)))
    ensures req.verb == "POST" && !TooLarge(req.contentLength) && Truthy(env.apiKey) && req.body.None? ==>
      g == Respond(Classify(ErrorObject(AbsentBodyMessage), env.nodeEnv))
    ensures (&& req.verb == "POST" && !TooLarge(req.contentLength) && Truthy(env.apiKey)
             && req.body.Some? && !HasRequiredFields(req.body.value)) ==>
      g == Respond(Reply(400, ErrorJson(MissingParamsError, None, None)))
  {
    if req.verb == "OPTIONS" then
      Respond(Reply(200, NoBody))
    else if req.verb != "POST" then
      Respond(Reply(405, ErrorJson(MethodNotAllowedError, None, None)))
    else if TooLarge(req.contentLength) then
      Respond(Reply(413, ErrorJson(PayloadTooLargeError, Some(PayloadTooLargeDetails), None)))
    else if !Truthy(env.apiKey) then
      Respond(Reply(500, ErrorJson(KeyMissingError, None, None)))
    else if req.body.None? then
      Respond(Classify(ErrorObject(AbsentBodyMessage), env.nodeEnv))
    else if !HasRequiredFields(req.body.value) then
      Respond(Reply(400, ErrorJson(MissingParamsError, None, None)))
    else
      CallModel(Parts(req.body.value))
  }

  /**
   * The reply once the model has been called: the parsed JSON with 200 when the model
   * returned a non-empty text that parses; otherwise the classified failure (an empty
   * text throws "No content generated", a text that does not parse throws its syntax
   * error).
   */
  function Complete(outcome: ModelOutcome, nodeEnv: Option<string>): (r: Reply)
    ensures r.status == 200 <==> outcome.Replied? && outcome.text != [] && outcome.syntaxError.None?
    ensures r.status == 200 ==> r.body == LessonJson(outcome.text)
    ensures r.status != 200 ==> r.status == 500 && r.body.ErrorJson?
    ensures outcome.Threw? ==> r == Classify(outcome.thrown, nodeEnv)
    ensures outcome.Replied? && outcome.text == [] ==> r == Classify(ErrorObject(NoContentMessage), nodeEnv)
    ensures outcome.Replied? && outcome.text != [] && outcome.syntaxError.Some? ==>
      r == Classify(ErrorObject(outcome.syntaxError.value), nodeEnv)
  {
    match outcome
    case Threw(t) => Classify(t, nodeEnv)
    case Replied(text, syntaxError) =>
      if text == [] then Classify(ErrorObject(NoContentMessage), nodeEnv)
      else if syntaxError.Some? then Classify(ErrorObject(syntaxError.value), nodeEnv)
      else Reply(200, LessonJson(text))
  }

  /** The whole handler as a function of the request, the environment and the model's behaviour. */
  function Handle(req: Request, env: Env, outcome: ModelOutcome): (r: Reply)
    ensures r.status == 200 <==>
      req.verb == "OPTIONS" || (Admit(req, env).CallModel? && Complete(outcome, env.nodeEnv).status == 200)
    ensures r.status in {200, 400, 405, 413, 500}
  {
    match Admit(req, env)
    case Respond(reply) => reply
    case CallModel(_) => Complete(outcome, env.nodeEnv)
  }

  const AllowCredentials: string := "Access-Control-Allow-Credentials"
  const AllowOrigin: string := "Access-Control-Allow-Origin"
  const AllowMethods: string := "Access-Control-Allow-Methods"
  const AllowHeaders: string := "Access-Control-Allow-Headers"
  const AllowedMethods: string := "GET,OPTIONS,PATCH,DELETE,POST,PUT"
  const AllowedHeaders: string :=
    "X-CSRF-Token, X-Requested-With, Accept, Accept-Version, Content-Length, Content-MD5, Content-Type, Date, X-Api-Version"

  /** The CORS headers every reply carries. */
  const CorsHeaders: map<string, string> := map[
    AllowCredentials := "true",
    AllowOrigin := "*",
    AllowMethods := AllowedMethods,
    AllowHeaders := AllowedHeaders]

  /**
   * The headers after the four `setHeader` calls, in the handler's order: whatever
   * was there, with every CORS header set to its value on top.
   */
  function WithCors(h: map<string, string>): (r: map<string, string>)
    ensures r == h + CorsHeaders
  {
    var r := h[AllowCredentials := "true"][AllowOrigin := "*"]
              [AllowMethods := AllowedMethods][AllowHeaders := AllowedHeaders];
    assert r.Keys == h.Keys + CorsHeaders.Keys;
    r
  }

  /** The response object the handler writes to. */
  class ServerResponse {
    var headers: map<string, string>
    var reply: Option<Reply>

    constructor()
      ensures headers == map[] && reply == None
    {
      headers := map[];
      reply := None;
    }

    method SetHeader(name: string, value: string)
      modifies this
      ensures headers == old(headers)[name := value] && reply == old(reply)
    {
      headers := headers[name := value];
    }
  }

  /**
   * The handler: the four CORS headers are set on every response, before anything is
   * checked, and then the reply is written. `modelCall` is the parts the model was
   * called with, or None when an earlier check replied.
   */
  method Handler(req: Request, env: Env, outcome: ModelOutcome, res: ServerResponse)
    returns (modelCall: Option<seq<Part>>)
    modifies res
    ensures res.headers == WithCors(old(res.headers))
    ensures res.reply == Some(Handle(req, env, outcome))
    ensures modelCall.Some? <==> Admit(req, env).CallModel?
    ensures modelCall.Some? ==> modelCall.value == Parts(req.body.value)
  {
    res.SetHeader(AllowCredentials, "true");
    res.SetHeader(AllowOrigin, "*");
    res.SetHeader(AllowMethods, AllowedMethods);
    res.SetHeader(AllowHeaders, AllowedHeaders);
    var gate := Admit(req, env);
    match gate
    case Respond(reply) =>
      modelCall := None;
      res.reply := Some(reply);
    case CallModel(parts) =>
      modelCall := Some(parts);
      res.reply := Some(Complete(outcome, env.nodeEnv));
  }
}
