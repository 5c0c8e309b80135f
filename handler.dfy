/** The serverless handler of api/generate.js as one decision: from the
    request, the environment and what Gemini answered, to the status and the
    JSON body sent back. Header writes, the fetch itself, its 25-second
    abort timer and logging are not modelled; their effect on the decision
    is the `Remote` value. */
module Handler {
  import opened JsValues
  import opened JsStrings
  import opened Fences
  import opened Payloads
  import opened Gate

  datatype Request = Request(httpMethod: string, body: JsValue)

  /** How the call to Gemini ended. */
  datatype Remote =
      /** fetch or reading the reply threw; when the timer aborts the
          request, the error is named "AbortError" */
    | Threw(error: JsError)
      /** the reply came back with a status outside 200-299 */
    | NotOk(status: nat)
      /** the reply was ok and `await geminiRes.json()` gave `data` */
    | Ok(data: JsValue)

  /** The response body: none (`res.end()`), `{ error }` or `{ slides }`. */
  datatype Body = NoBody | Error(message: string) | Slides(slides: seq<JsValue>)

  /** A response, or an exception that escapes the handler. */
  datatype Reply = Reply(status: int, body: Body) | Uncaught(error: JsError)

  const MethodNotAllowed: string := "Método não permitido. Use POST."
  const MissingKey: string :=
    "Configure GEMINI_API_KEY (ou GOOGLE_API_KEY) nas variáveis de ambiente da Vercel."
  const TopicRequired: string := "Campo \"topic\" é obrigatório."
  const NoGeneratedContent: string := "Resposta inesperada da Gemini. Sem conteúdo gerado."
  const InvalidFormat: string := "A IA retornou um formato inválido. Tente novamente."
  const SlidesMissing: string := "Formato de slides ausente na resposta da IA."
  const TimedOut: string := "Tempo limite excedido ao comunicar com a Gemini. Tente novamente."
  const InternalPrefix: string := "Erro interno no servidor: "

  function CommunicationError(status: nat): (message: string) {
    "Erro de comunicação com Gemini (" + Decimal(status) + ")."
  }

  /** The TypeError V8 raises for `rawText.replace(...)` when rawText is not
      a string. */
  const ReplaceNotAFunction: JsError := JsError("TypeError", "rawText.replace is not a function")

  /** The TypeError raised by destructuring `{ topic, total }` out of null or
      undefined. */
  const DestructureNullish: JsError :=
    JsError("TypeError", "Cannot destructure property 'topic' of 'safeParseBody(...)' as it is null.")

  /** `geminiData?.candidates?.[0]?.content?.parts?.[0]?.text` */
  function RawText(data: JsValue): (text: JsValue)
    ensures text != Undefined ==> data.Obj? && "candidates" in data.fields
  {
    Member(FirstOf(Member(Member(FirstOf(Member(data, "candidates")), "content"), "parts")), "text")
  }

  /** The text of the first part of the first candidate of a reply shaped as
      Gemini documents it. */
  lemma {:induction false} RawTextOfReply(text: string, parts: seq<JsValue>, candidates: seq<JsValue>)
    ensures RawText(Obj(map["candidates" :=
              Arr([Obj(map["content" := Obj(map["parts" :=
                Arr([Obj(map["text" := Str(text)])] + parts)])])] + candidates)]))
            == Str(text)
  {
  }

  /** Any reply that lacks one of the links of the chain yields undefined,
      and the handler answers 502. */
  lemma {:induction false} RawTextMissing(data: JsValue)
    requires !data.Obj? || "candidates" !in data.fields
    ensures RawText(data) == Undefined
  {
  }

  /** The replies Gemini sends when it generated nothing also yield
      undefined: no candidate at all, a first candidate without `content`
      (as when a safety filter blocked it), or a content without parts. */
  lemma {:induction false} RawTextEmptyReplies(candidates: seq<JsValue>, first: map<string, JsValue>,
                                               content: map<string, JsValue>)
    ensures RawText(Obj(map["candidates" := Arr([])])) == Undefined
    ensures "content" !in first ==>
              RawText(Obj(map["candidates" := Arr([Obj(first)] + candidates)])) == Undefined
    ensures "parts" in content && content["parts"] == Arr([]) ==>
              RawText(Obj(map["candidates" := Arr([Obj(map["content" := Obj(content)])] + candidates)]))
              == Undefined
  {
  }

  /** Whenever the chain yields undefined, the handler answers 502 with the
      "no generated content" message. */
  lemma {:induction false} MissingTextIsBadGateway(data: JsValue, parse: Parser)
    requires RawText(data) == Undefined
    ensures RemoteStage(Ok(data), parse) == Reply(502, Error(NoGeneratedContent))
  {
  }

  /** What the handler does once the prompt has gone out
      (api/generate.js:88-153): a thrown error, a status that is not ok, or
      an answer whose text is examined by TextStage. */
  function RemoteStage(outcome: Remote, parse: Parser): (r: Reply)
    ensures r.Reply? && (r.status == 200 || r.status == 500 || r.status == 502 || r.status == 504)
    ensures outcome.Threw? ==>
              r == if outcome.error.name == "AbortError" then Reply(504, Error(TimedOut))
                   else Reply(500, Error(InternalPrefix + outcome.error.message))
    ensures outcome.NotOk? ==> r == Reply(502, Error(CommunicationError(outcome.status)))
  {
    match outcome
    case Threw(error) =>
      if error.name == "AbortError" then Reply(504, Error(TimedOut))
      else Reply(500, Error(InternalPrefix + error.message))
    case NotOk(status) => Reply(502, Error(CommunicationError(status)))
    case Ok(data) => TextStage(RawText(data), parse)
  }

  /** 504 is the answer exactly when the call was aborted by the timer. */
  lemma {:induction false} RemoteStageTimeout(outcome: Remote, parse: Parser)
    ensures RemoteStage(outcome, parse).status == 504 <==>
              outcome.Threw? && outcome.error.name == "AbortError"
  {
    match outcome
    case Ok(data) =>
      var r := TextStage(RawText(data), parse);
      assert RemoteStage(outcome, parse) == r;
    case Threw(_) =>
    case NotOk(_) =>
  }

  /** What the handler does with `rawText` (api/generate.js:121-144). */
  function TextStage(rawText: JsValue, parse: Parser): (r: Reply)
    ensures r.Reply? && (r.status == 200 || r.status == 500 || r.status == 502)
    ensures Falsy(rawText) ==> r == Reply(502, Error(NoGeneratedContent))
    ensures !Falsy(rawText) && !rawText.Str? ==>
              r == Reply(500, Error(InternalPrefix + ReplaceNotAFunction.message))
    ensures rawText.Str? && rawText.s != "" && parse(Clean(rawText.s)).None? ==>
              r == Reply(502, Error(InvalidFormat))
    ensures rawText.Str? && rawText.s != "" && parse(Clean(rawText.s)).Some? ==>
              var slides := NormalizeSlides(parse(Clean(rawText.s)).value, parse);
              r == if slides.Some? && |slides.value| > 0 then Reply(200, Slides(slides.value))
                   else Reply(502, Error(SlidesMissing))
  {
    if Falsy(rawText) then Reply(502, Error(NoGeneratedContent))
    else if !rawText.Str? then Reply(500, Error(InternalPrefix + ReplaceNotAFunction.message))
    else
      match parse(Clean(rawText.s))
      case None => Reply(502, Error(InvalidFormat))
      case Some(parsed) =>
        match NormalizeSlides(parsed, parse)
        case Some(slides) =>
          if |slides| == 0 then Reply(502, Error(SlidesMissing)) else Reply(200, Slides(slides))
        case None => Reply(502, Error(SlidesMissing))
  }

  /** The remote stage answers 200 exactly when Gemini's text, cleaned and
      parsed, holds a non-empty slide array, and then the body is that array
      as it is: not cut or padded to the requested count. */
  lemma {:induction false} RemoteStageSuccess(outcome: Remote, parse: Parser)
    ensures RemoteStage(outcome, parse).status == 200 <==>
              && outcome.Ok? && RawText(outcome.data).Str? && RawText(outcome.data).s != ""
              && parse(Clean(RawText(outcome.data).s)).Some?
              && var slides := NormalizeSlides(parse(Clean(RawText(outcome.data).s)).value, parse);
                 slides.Some? && |slides.value| > 0
    ensures RemoteStage(outcome, parse).status == 200 ==>
              RemoteStage(outcome, parse).body
              == Slides(NormalizeSlides(parse(Clean(RawText(outcome.data).s)).value, parse).value)
  {
  }

  /** The handler (api/generate.js:35-154). `parse` is JSON.parse, `parseInt`
      is `parseInt(·, 10)` and `gemini` gives the outcome of
      calling Gemini with a key and a prompt. */
  function Handle(req: Request, env: Env, parse: Parser, parseInt: IntParser,
                  gemini: (string, string) -> Remote): (r: Reply)
    ensures req.httpMethod == "OPTIONS" ==> r == Reply(200, NoBody)
    ensures req.httpMethod != "OPTIONS" && req.httpMethod != "POST" ==> r == Reply(405, Error(MethodNotAllowed))
    ensures req.httpMethod == "POST" && !HasApiKey(env) ==> r == Reply(500, Error(MissingKey))
    ensures r.Reply? ==> (r.status == 200 || r.status == 400 || r.status == 405
                     || r.status == 500 || r.status == 502 || r.status == 504)
  {
    if req.httpMethod == "OPTIONS" then Reply(200, NoBody)
    else if req.httpMethod != "POST" then Reply(405, Error(MethodNotAllowed))
    else if !HasApiKey(env) then Reply(500, Error(MissingKey))
    else
      var payload := SafeParseBody(req.body, parse);
      if payload.Null? || payload.Undefined? then Uncaught(DestructureNullish)
      else
        var topic := Get(payload, "topic");
        if !ValidTopic(topic) then Reply(400, Error(TopicRequired))
        else
          var read := parseInt(Total(payload));
          if read.Throws? then Uncaught(read.error)
          else RemoteStage(gemini(ApiKey(env).value, Prompt(SlideCount(payload, parseInt), topic.s)), parse)
  }

  /** The request gets past the method and key checks. */
  predicate Admitted(req: Request, env: Env) {
    req.httpMethod == "POST" && HasApiKey(env)
  }

  /** `total` reads as a number parseInt cannot convert to a string: the
      TypeError is thrown at line 63, outside the `try`. */
  predicate CountThrows(payload: JsValue, parseInt: IntParser) {
    !payload.Null? && !payload.Undefined?
    && ValidTopic(Get(payload, "topic")) && parseInt(Total(payload)).Throws?
  }

  /** An exception escapes the handler exactly when the request is admitted
      and either its body is a string that JSON.parse reads as null (so
      destructuring it throws), or its topic is valid and parseInt throws on
      its `total`. Both happen before the `try`. */
  lemma {:induction false} HandleUncaught(req: Request, env: Env, parse: Parser, parseInt: IntParser,
                       gemini: (string, string) -> Remote)
    ensures Handle(req, env, parse, parseInt, gemini).Uncaught? <==>
              && Admitted(req, env)
              && (|| (req.body.Str? && req.body.s != "" && parse(req.body.s).Some?
                      && (parse(req.body.s).value.Null? || parse(req.body.s).value.Undefined?))
                  || CountThrows(SafeParseBody(req.body, parse), parseInt))
    ensures CountThrows(SafeParseBody(req.body, parse), parseInt) && Admitted(req, env) ==>
              Handle(req, env, parse, parseInt, gemini)
              == Uncaught(parseInt(Total(SafeParseBody(req.body, parse))).error)
  {
    SafeParseBodyNullish(req.body, parse);
  }

  /** An admitted request whose body can be destructured is refused with 400
      exactly when its topic fails ValidTopic (falsy, not a string, or only
      whitespace: see ValidTopicIff); no later stage answers 400. */
  lemma {:induction false} HandleTopicGate(req: Request, env: Env, parse: Parser,
                                           parseInt: IntParser,
                                           gemini: (string, string) -> Remote)
    requires Admitted(req, env)
    requires var payload := SafeParseBody(req.body, parse); !payload.Null? && !payload.Undefined?
    ensures var r := Handle(req, env, parse, parseInt, gemini);
            var topic := Get(SafeParseBody(req.body, parse), "topic");
            && (r.Reply? && r.status == 400 <==> !ValidTopic(topic))
            && (!ValidTopic(topic) ==> r == Reply(400, Error(TopicRequired)))
  {
    var payload := SafeParseBody(req.body, parse);
    var topic := Get(payload, "topic");
    if ValidTopic(topic) && parseInt(Total(payload)).Throws? {
      assert Handle(req, env, parse, parseInt, gemini).Uncaught?;
    } else if ValidTopic(topic) {
      var o := gemini(ApiKey(env).value, Prompt(SlideCount(payload, parseInt), topic.s));
      var r := RemoteStage(o, parse);
      assert Handle(req, env, parse, parseInt, gemini) == r;
      assert r.status != 400;
    } else {
      assert Handle(req, env, parse, parseInt, gemini) == Reply(400, Error(TopicRequired));
    }
  }

  /** A request that passes every check, and whose `total` parseInt reads
      without throwing, is sent to Gemini with the key found,
      the slide count clamped into [3, 10] (SlideCount) and the trimmed topic
      (Prompt), and the reply follows from Gemini's outcome alone. */
  lemma {:induction false} HandleCallsGemini(req: Request, env: Env, parse: Parser, parseInt: IntParser,
                          gemini: (string, string) -> Remote)
    requires Admitted(req, env)
    requires var payload := SafeParseBody(req.body, parse);
             && !payload.Null? && !payload.Undefined?
             && ValidTopic(Get(payload, "topic"))
             && !parseInt(Total(payload)).Throws?
    ensures var payload := SafeParseBody(req.body, parse);
            Handle(req, env, parse, parseInt, gemini)
            == RemoteStage(gemini(ApiKey(env).value,
                                  Prompt(SlideCount(payload, parseInt), Get(payload, "topic").s)),
                           parse)
  {
  }

  /** A 200 after a POST always carries a non-empty slide array; with
      HandleCallsGemini and RemoteStageSuccess, it is the normalised array of
      Gemini's answer as it is. */
  lemma {:induction false} HandleSuccess(req: Request, env: Env, parse: Parser, parseInt: IntParser,
                      gemini: (string, string) -> Remote)
    requires req.httpMethod == "POST"
    ensures var r := Handle(req, env, parse, parseInt, gemini);
            r.Reply? && r.status == 200 ==> Admitted(req, env) && r.body.Slides? && |r.body.slides| > 0
  {
    var r := Handle(req, env, parse, parseInt, gemini);
    if r.Reply? && r.status == 200 {
      var payload := SafeParseBody(req.body, parse);
      var o := gemini(ApiKey(env).value, Prompt(SlideCount(payload, parseInt), Get(payload, "topic").s));
      assert r == RemoteStage(o, parse);
      RemoteStageSuccess(o, parse);
    }
  }
}
