/** The request handlers: the streaming analysis function, the server's
    analysis and PDF routes, the PDF function, the command line's check of
    its input, and the review screen's gate on the briefing length. The model
    call, the PDF renderer and `JSON.parse` are inputs. */
module Handlers {
  import opened Base
  import opened JsText
  import opened Format
  import opened Proposal
  import opened Layout
  import opened Extract
  import opened Nested
  import opened Stream

  /** The model request a handler sends. */
  datatype ModelRequest = ModelRequest(model: string, maxTokens: nat, system: string, user: string)

  /** What a handler answers: a JSON error with its status, an event stream,
      the proposal as JSON, the PDF with its `Content-Disposition`, or an
      exception the handler does not catch. */
  datatype Response =
    | ErrorJson(status: nat, error: string)
    | EventStream(events: seq<Event>)
    | ProposalJson(data: Value)
    | PdfFile(contentDisposition: string, document: Document)
    | Crash(message: string)

  /** A handler's answer and the model request it made on the way, if any. */
  datatype Exchange = Exchange(call: Option<ModelRequest>, response: Response)

  /** What awaiting the model call gave: the reply's text, or the error the
      call threw, with its class (the SDK can itself throw a SyntaxError). */
  datatype CallResult = Replied(text: string) | Threw(failure: Failure)

  const ModelName := "claude-sonnet-4-5-20250929"

  const MethodNotAllowed := "Method not allowed"
  const ConfigError := "Server configuratie fout: "
  const PromptMissing := ConfigError + "system prompt niet gevonden."
  const KeyMissing := ConfigError + "ANTHROPIC_API_KEY niet ingesteld."
  const NoBriefing := "Geen briefing tekst ontvangen."
  const NoMeta := "JSON mist het \"meta\" object."
  const TrimNotAFunction := "briefing_text.trim is not a function"

  /** The instructions before the briefing in the streaming function's user
      message. */
  const StreamingInstructions :=
    "Analyseer deze klantbriefing en genereer de offerte als JSON.\n\nREGELS:\n"
    + "- Geef ALLEEN het JSON-object, geen markdown codeblokken of tekst eromheen.\n"
    + "- Maximaal 1-2 zinnen per beschrijving. Geen herhalingen.\n"
    + "- Arrays (screeningcriteria, kwaliteitsmaatregelen, etc.) max 4-5 items.\n"
    + "- Houd de totale output zo compact mogelijk.\n\n---\n\n"

  /** The same for the server's route. */
  const ServerInstructions :=
    "Hier is de klantbriefing. Analyseer deze en genereer de complete offerte als JSON.\n\n"
    + "Geef ALLEEN het JSON-object terug, geen tekst eromheen.\n\n---\n\n"

  // ---------------------------------------------------------------- briefing

  /** `(body.briefing_text || '').trim()`: a missing or falsy field reads as
      empty; a truthy field that is not a string has no `trim` and throws. */
  function BriefingText(body: Value): (r: Result<string>)
    ensures !TruthyValue(Member(body, "briefing_text")) ==> r == Ok("")
    ensures var f := Member(body, "briefing_text");
            f.Prim? && f.p.Str? ==> r == Ok(Trim(f.p.s))
    ensures var f := Member(body, "briefing_text");
            r.Err? <==> TruthyValue(f) && !(f.Prim? && f.p.Str?)
  {
    var f := Member(body, "briefing_text");
    if !TruthyValue(f) then Ok("")
    else if f.Prim? && f.p.Str? then Ok(Trim(f.p.s))
    else Err(TrimNotAFunction)
  }

  /** The review screen enables the analysis, and sends the briefing, only
      when its trimmed text has at least 20 characters. */
  predicate CanAnalyze(briefing: string) {
    |Trim(briefing)| >= 20
  }

  /** The request body the review screen sends: `{briefing_text: text}`. */
  function BriefingBody(text: string): (r: Value)
    ensures Member(r, "briefing_text") == Prim(Str(text))
  {
    Obj(map["briefing_text" := Prim(Str(text))])
  }

  /** A briefing the review screen lets through is never refused as empty:
      the server trims the already trimmed text to the same non-empty text. */
  lemma GateImpliesBriefing(briefing: string)
    requires CanAnalyze(briefing)
    ensures BriefingText(BriefingBody(Trim(briefing))) == Ok(Trim(briefing))
    ensures Trim(briefing) != ""
  {
    TrimIdempotent(briefing);
  }

  // ---------------------------------------------------------------- analysis

  /** The streaming analysis function: 405 for anything but POST, 500 when the
      system prompt or the API key is missing or empty, 400 for an empty
      briefing; otherwise the model is called and the session's events are
      streamed. */
  function AnalyzeHandler(httpMethod: string, body: Value, systemPrompt: Option<string>, apiKey: Option<string>,
                          deltas: seq<string>, end: StreamEnd, parse: Parser): (x: Exchange)
    ensures x.call.Some? <==> x.response.EventStream?
    ensures x.call.Some? ==>
              && BriefingText(body).Ok? && systemPrompt.Some?
              && x.call.value == ModelRequest(ModelName, 3000, systemPrompt.value, StreamingInstructions + BriefingText(body).value)
  {
    if httpMethod != "POST" then Exchange(None, ErrorJson(405, MethodNotAllowed))
    else if OrText(systemPrompt, "") == "" then Exchange(None, ErrorJson(500, PromptMissing))
    else if OrText(apiKey, "") == "" then Exchange(None, ErrorJson(500, KeyMissing))
    else match BriefingText(body)
      case Err(m) => Exchange(None, Crash(m))
      case Ok(text) =>
        if text == "" then Exchange(None, ErrorJson(400, NoBriefing))
        else Exchange(Some(ModelRequest(ModelName, 3000, systemPrompt.value, StreamingInstructions + text)),
                      EventStream(Session(deltas, end, parse)))
  }

  /** The guards as a decision table, in order: each answer is given exactly
      when every earlier guard passed and its own fails, and no event is
      written and no model called unless all pass. */
  lemma AnalyzeGuardOrder(httpMethod: string, body: Value, systemPrompt: Option<string>, apiKey: Option<string>,
                          deltas: seq<string>, end: StreamEnd, parse: Parser)
    ensures var x := AnalyzeHandler(httpMethod, body, systemPrompt, apiKey, deltas, end, parse);
            var post := httpMethod == "POST";
            var prompt := systemPrompt.Some? && systemPrompt.value != "";
            var key := apiKey.Some? && apiKey.value != "";
            && (x.response == ErrorJson(405, MethodNotAllowed) <==> !post)
            && (x.response == ErrorJson(500, PromptMissing) <==> post && !prompt)
            && (x.response == ErrorJson(500, KeyMissing) <==> post && prompt && !key)
            && (x.response == ErrorJson(400, NoBriefing) <==> post && prompt && key && BriefingText(body) == Ok(""))
            && (x.response.EventStream? <==> post && prompt && key && BriefingText(body).Ok? && BriefingText(body).value != "")
            && (x.response.EventStream? ==> x.response.events == Session(deltas, end, parse))
  {
    assert PromptMissing[|ConfigError|] != KeyMissing[|ConfigError|];
  }

  /** The server's analysis route: 400 for an empty briefing before any model
      call; otherwise the reply (or the call's failure) is extracted, parsed
      and answered as the proposal or a 500 with the classified message. */
  function ServerAnalyze(body: Value, systemPrompt: string, reply: CallResult, parse: Parser): (x: Exchange)
    ensures x.response == ErrorJson(400, NoBriefing) <==> BriefingText(body) == Ok("")
    ensures x.call.Some? <==> BriefingText(body).Ok? && BriefingText(body).value != ""
    ensures x.call.Some? ==> x.call.value == ModelRequest(ModelName, 8000, systemPrompt, ServerInstructions + BriefingText(body).value)
  {
    match BriefingText(body)
    case Err(m) => Exchange(None, Crash(m))
    case Ok(text) =>
      if text == "" then Exchange(None, ErrorJson(400, NoBriefing))
      else
        var call := ModelRequest(ModelName, 8000, systemPrompt, ServerInstructions + text);
        match reply
        case Threw(f) => Exchange(Some(call), ErrorJson(500, ErrorMessage(f)))
        case Replied(r) =>
          match parse(ExtractJson(r))
          case Ok(v) => Exchange(Some(call), ProposalJson(v))
          case Err(m) => Exchange(Some(call), ErrorJson(500, ErrorMessage(SyntaxError(m))))
  }

  /** The server answers with a proposal exactly when the call returned a
      reply whose extracted text parses, and then with the parsed value; a
      reply that does not parse gets a 500 with the fixed invalid-JSON message;
      an error the call throws is classified by its own class, so a
      SyntaxError gets that same message and any other error `API fout: `
      and its message. */
  lemma ServerAnalyzeAnswers(body: Value, systemPrompt: string, reply: CallResult, parse: Parser, v: Value)
    requires BriefingText(body).Ok? && BriefingText(body).value != ""
    ensures ServerAnalyze(body, systemPrompt, reply, parse).response == ProposalJson(v) <==>
              reply.Replied? && parse(ExtractJson(reply.text)) == Ok(v)
    ensures reply.Threw? ==> ServerAnalyze(body, systemPrompt, reply, parse).response == ErrorJson(500, ErrorMessage(reply.failure))
    ensures reply.Threw? && reply.failure.SyntaxError? ==>
              ServerAnalyze(body, systemPrompt, reply, parse).response == ErrorJson(500, InvalidJsonMessage)
    ensures reply.Threw? && reply.failure.OtherError? ==>
              ServerAnalyze(body, systemPrompt, reply, parse).response == ErrorJson(500, ApiErrorPrefix + reply.failure.message)
    ensures reply.Replied? && parse(ExtractJson(reply.text)).Err? ==>
              ServerAnalyze(body, systemPrompt, reply, parse).response == ErrorJson(500, InvalidJsonMessage)
  {
  }

  // ---------------------------------------------------------------- PDF

  /** The PDF function: 405 for anything but POST, 400 without a body or
      without `meta`; then the document is built (by a builder this model
      does not see) and rendered, and either step's failure is a 500 with its
      message; otherwise the PDF is sent as an attachment named after the
      proposal number. */
  function PdfHandler(httpMethod: string, data: Option<Proposal>, build: Proposal -> Result<Document>, renderError: Option<string>): (r: Response)
    ensures r.PdfFile? ==> data.Some? && data.value.meta.Some?
    ensures r.PdfFile? ==> r.contentDisposition == ContentDisposition(data.value.meta.value.offerteNummer)
  {
    if httpMethod != "POST" then ErrorJson(405, MethodNotAllowed)
    else if data.None? || data.value.meta.None? then ErrorJson(400, NoMeta)
    else match build(data.value)
      case Err(m) => ErrorJson(500, m)
      case Ok(doc) =>
        if renderError.Some? then ErrorJson(500, renderError.value)
        else PdfFile(ContentDisposition(data.value.meta.value.offerteNummer), doc)
  }

  /** The server's PDF route: the same without the method check, building
      with the modelled `buildDocument`. */
  function ServerPdf(data: Option<Proposal>, renderError: Option<string>): (r: Response)
    ensures r == ErrorJson(400, NoMeta) <==> data.None? || data.value.meta.None?
  {
    if data.None? || data.value.meta.None? then ErrorJson(400, NoMeta)
    else match BuildDocument(data.value)
      case Err(m) => ErrorJson(500, m)
      case Ok(doc) =>
        if renderError.Some? then ErrorJson(500, renderError.value)
        else PdfFile(ContentDisposition(data.value.meta.value.offerteNummer), doc)
  }

  /** The guards come before the document is built: while one fires, the
      answer is the same whatever the builder and the renderer do. */
  lemma PdfGuardsBeforeBuild(httpMethod: string, data: Option<Proposal>,
                             b1: Proposal -> Result<Document>, b2: Proposal -> Result<Document>,
                             e1: Option<string>, e2: Option<string>)
    requires httpMethod != "POST" || data.None? || data.value.meta.None?
    ensures PdfHandler(httpMethod, data, b1, e1) == PdfHandler(httpMethod, data, b2, e2)
    ensures PdfHandler(httpMethod, data, b1, e1).status == (if httpMethod != "POST" then 405 else 400)
  {
  }

  /** The PDF function's decision table: 405 exactly for other methods, 400
      exactly for a POST without `meta`, a 500 with the builder's message
      exactly when building throws. */
  lemma PdfGuardOrder(httpMethod: string, data: Option<Proposal>, build: Proposal -> Result<Document>, renderError: Option<string>)
    ensures var r := PdfHandler(httpMethod, data, build, renderError);
            && (r.ErrorJson? && r.status == 405 <==> httpMethod != "POST")
            && (r.ErrorJson? && r.status == 400 <==> httpMethod == "POST" && (data.None? || data.value.meta.None?))
            && (httpMethod == "POST" && data.Some? && data.value.meta.Some? && build(data.value).Err? ==>
                  r == ErrorJson(500, build(data.value).error))
            && (r.PdfFile? <==> httpMethod == "POST" && data.Some? && data.value.meta.Some? && build(data.value).Ok? && renderError.None?)
  {
  }

  /** On the server, a proposal that passes the guard is always built: the
      only 500 left is the renderer's, and otherwise the PDF holds the
      proposal's content. */
  lemma ServerPdfBuilds(p: Proposal, renderError: Option<string>)
    requires p.meta.Some?
    ensures renderError.Some? ==> ServerPdf(Some(p), renderError) == ErrorJson(500, renderError.value)
    ensures renderError.None? ==> ServerPdf(Some(p), renderError).PdfFile?
    ensures renderError.None? ==> ServerPdf(Some(p), renderError).document.content == Content(p.meta.value, p)
  {
  }

  /** The file name the download reads out of the header is the slug plus
      `.pdf`. */
  lemma PdfAttachmentName(httpMethod: string, data: Option<Proposal>, build: Proposal -> Result<Document>, renderError: Option<string>)
    requires PdfHandler(httpMethod, data, build, renderError).PdfFile?
    ensures Split(PdfHandler(httpMethod, data, build, renderError).contentDisposition, "\"")
            == ["attachment; filename=", PdfFileName(data.value.meta.value.offerteNummer), ""]
  {
    ContentDispositionQuotesFileName(data.value.meta.value.offerteNummer);
  }

  // ---------------------------------------------------------------- command line

  const CliNoMeta := "Fout: JSON mist het \"meta\" object. Controleer de structuur."

  /** The command line's check of the parsed input and the name of the file it
      writes: the given output path, or the slug plus `.pdf` in the output
      directory. */
  function CliOutputName(data: Proposal, outputArg: Option<string>): (r: Result<string>)
    ensures r.Err? <==> data.meta.None?
    ensures r.Err? ==> r.error == CliNoMeta
    ensures r.Ok? && (outputArg.None? || outputArg.value == "") ==>
              var name := r.value;
              |name| > 4 && name[|name| - 4..] == ".pdf" && SlugChars(name[..|name| - 4]) && NoDoubleHyphen(name[..|name| - 4])
  {
    if data.meta.None? then Err(CliNoMeta)
    else if outputArg.Some? && outputArg.value != "" then Ok(outputArg.value)
    else Ok(PdfFileName(data.meta.value.offerteNummer))
  }

  /** The command line and the HTTP routes name the same proposal's PDF alike. */
  lemma CliNameMatchesDownload(p: Proposal)
    requires p.meta.Some?
    ensures CliOutputName(p, None) == Ok(PdfFileName(p.meta.value.offerteNummer))
    ensures ServerPdf(Some(p), None).contentDisposition == AttachmentHeader(CliOutputName(p, None).value)
  {
  }
}
