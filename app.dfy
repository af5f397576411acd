/** The Flask application's API handlers: each reads the JSON body, insists on a
    `text` key, reads its options, calls one service and wraps the outcome in a
    JSON envelope; every response then receives the CORS headers. Routing and serving
    are not modelled. `request` is the outcome of `request.get_json()`; the services
    that are not part of this model (`summarize_text`) and the external capabilities
    of the others (tokenizers, stopwords, the scorer, the translator, the random
    generator) are parameters. */
module App {
  import opened Values
  import opened ResponseWrapper
  import opened SentimentAnalyzer
  import opened KeywordExtractor
  import opened ContentEnhancer
  import opened Translator
  import Validators

  const MissingTextMessage := "Missing required parameter: text"
  const ErrorPrefix := "Error processing request: "
  const SentimentMessage := "Sentiment analysis completed successfully"
  const SummaryMessage := "Text summarization completed successfully"
  const KeywordsMessage := "Keyword extraction completed successfully"
  const EnhanceMessage := "Content enhancement completed successfully"
  const TranslateMessage := "Translation completed successfully"

  const DefaultSentences := 3
  const DefaultKeywords := 5

  /** What `jsonify(...)` and the status code of a handler come to. */
  datatype Reply<+D> = Reply(code: int, body: Body<D>)

  function MissingTextReply<D>(): Reply<D>
  {
    Reply(400, Body("error", MissingTextMessage, None))
  }

  /** The handlers' `except Exception as e` answer. */
  function ErrorReply<D>(e: Exception): Reply<D>
  {
    Reply(500, Body("error", ErrorPrefix + e.message, None))
  }

  function SuccessReply<D>(message: string, data: D): Reply<D>
  {
    Reply(200, Body("success", message, Some(data)))
  }

  /** The handlers' common opening, up to `request_data.get('text', '')`. */
  datatype Intake =
    | Proceed(fields: map<string, Json>, text: Json)
    | MissingText
    | Crashed(error: Exception)

  /** `request.get_json()`, the check `not request_data or 'text' not in request_data`, and
      `request_data.get('text', '')`; only the presence of the key is checked. */
  function ReadRequest(request: Attempt<Json>): (r: Intake)
    ensures request.Raised? ==> r == Crashed(request.error)
    ensures r.Proceed? <==> request.Returned? && request.value.JObj? && "text" in request.value.fields
    ensures r.Proceed? ==> r.fields == request.value.fields && r.text == request.value.fields["text"]
    ensures r == MissingText <==>
      request.Returned? && (!Truthy(request.value) || Contains(request.value, "text") == Returned(false))
    // a truthy scalar is not iterable; a list or string passes `in` but has no `get`
    ensures request.Returned? && r.Crashed? ==>
      && Truthy(request.value)
      && (Contains(request.value, "text").Raised? ==> r.error == Contains(request.value, "text").error)
      && (Contains(request.value, "text") == Returned(true) ==>
            (request.value.JArr? || request.value.JStr?) && r.error == Get(request.value, "text", JStr("")).error)
  {
    match request
    case Raised(e) => Crashed(e)
    case Returned(data) =>
      if !Truthy(data) then MissingText
      else
        match Contains(data, "text")
        case Raised(e) => Crashed(e)
        case Returned(present) =>
          if !present then MissingText
          else
            match Get(data, "text", JStr(""))
            case Raised(e) => Crashed(e)
            case Returned(text) => Proceed(data.fields, text)
  }

  /** A body the serverless validator accepts is also accepted here, but not conversely:
      the handlers let through a `text` that is empty or not a string. */
  lemma AcceptsMoreThanValidator(body: Json)
    ensures Validators.WellFormed(body) ==> ReadRequest(Returned(body)).Proceed?
    ensures ReadRequest(Returned(JObj(map["text" := JInt(7)]))).Proceed?
    ensures !Validators.WellFormed(JObj(map["text" := JInt(7)]))
  {
  }

  /** What the services' opening `not text or len(text.strip()) == 0` makes of the `text`
      value: a string goes on as it is; any other falsy value takes the blank-text branch,
      whose result does not depend on the text, so it stands for ""; any other value
      has no `strip`. */
  function TextArgument(v: Json): (r: Attempt<string>)
    ensures v.JStr? ==> r == Returned(v.s)
    ensures !v.JStr? && !Truthy(v) ==> r == Returned("")
    ensures r.Raised? <==> !v.JStr? && Truthy(v)
    ensures r.Raised? ==> r.error.kind == "AttributeError"
  {
    if v.JStr? then Returned(v.s)
    else if !Truthy(v) then Returned("")
    else Raised(Exception("AttributeError", "'" + TypeName(v) + "' object has no attribute 'strip'"))
  }

  /** `int(v)` truncates a float toward zero. */
  function TruncateTowardZero(f: real): (n: int)
    ensures f >= 0.0 ==> 0 <= n && n as real <= f < n as real + 1.0
    ensures f < 0.0 ==> n <= 0 && n as real - 1.0 < f <= n as real
  {
    if f >= 0.0 then f.Floor else -((-f).Floor)
  }

  /** `int(v)` on a JSON value: `None` when it raises `ValueError` or `TypeError`.
      `parseStr` stands for `int` on a string. */
  function PyInt(v: Json, parseStr: string -> Option<int>): (r: Option<int>)
    ensures v.JInt? ==> r == Some(v.i)
    ensures v.JBool? ==> r == Some(if v.b then 1 else 0)
    ensures v.JFloat? ==> r == Some(TruncateTowardZero(v.f))
    ensures v.JStr? ==> r == parseStr(v.s)
    ensures v.JNull? || v.JArr? || v.JObj? ==> r == None
  {
    match v
    case JInt(i) => Some(i)
    case JBool(b) => Some(if b then 1 else 0)
    case JFloat(f) => Some(TruncateTowardZero(f))
    case JStr(s) => parseStr(s)
    case _ => None
  }

  /** The count option after `int(...)`, the reset of a value below 1, and the fallback
      when the conversion fails; an absent option takes the default. */
  function Coerced(fields: map<string, Json>, key: string, default: int, parseStr: string -> Option<int>): (n: int)
    ensures key !in fields ==> n == default
    ensures key in fields && PyInt(fields[key], parseStr).Some? && PyInt(fields[key], parseStr).value >= 1 ==>
      n == PyInt(fields[key], parseStr).value
    ensures key in fields && !(PyInt(fields[key], parseStr).Some? && PyInt(fields[key], parseStr).value >= 1) ==>
      n == default
    ensures default >= 1 ==> n >= 1
  {
    if key !in fields then default
    else
      match PyInt(fields[key], parseStr)
      case None => default
      case Some(k) => if k < 1 then default else k
  }

  /** `api_analyze_sentiment` */
  function ApiAnalyzeSentiment(request: Attempt<Json>, score: string -> (real, real)): (reply: Reply<Sentiment>)
    ensures ReadRequest(request) == MissingText <==> reply.code == 400
    ensures reply.code == 400 ==> reply == MissingTextReply()
    ensures ReadRequest(request).Crashed? ==> reply == ErrorReply(ReadRequest(request).error)
    ensures ReadRequest(request).Proceed? && TextArgument(ReadRequest(request).text).Raised? ==>
      reply == ErrorReply(TextArgument(ReadRequest(request).text).error)
    ensures ReadRequest(request).Proceed? && TextArgument(ReadRequest(request).text).Returned? ==>
      reply == SuccessReply(SentimentMessage, AnalyzeSentiment(TextArgument(ReadRequest(request).text).value, score))
    ensures reply.body.data.Some? <==> reply.code == 200
    ensures reply.body.status == "success" <==> reply.code == 200
  {
    match ReadRequest(request)
    case MissingText => MissingTextReply()
    case Crashed(e) => ErrorReply(e)
    case Proceed(_, text) =>
      match TextArgument(text)
      case Raised(e) => ErrorReply(e)
      case Returned(s) => SuccessReply(SentimentMessage, AnalyzeSentiment(s, score))
  }

  /** `api_summarize`; `summarize(text, n)` stands for `summarize_text(text, n)`. */
  method ApiSummarize<S>(request: Attempt<Json>, parseStr: string -> Option<int>, summarize: (Json, int) -> Attempt<S>)
    returns (reply: Reply<S>)
    ensures ReadRequest(request) == MissingText <==> reply.code == 400
    ensures reply.code == 400 ==> reply == MissingTextReply()
    ensures ReadRequest(request).Crashed? ==> reply == ErrorReply(ReadRequest(request).error)
    ensures ReadRequest(request).Proceed? ==>
      var n := Coerced(ReadRequest(request).fields, "num_sentences", DefaultSentences, parseStr);
      && n >= 1
      && (summarize(ReadRequest(request).text, n).Returned? ==>
            reply == SuccessReply(SummaryMessage, summarize(ReadRequest(request).text, n).value))
      && (summarize(ReadRequest(request).text, n).Raised? ==>
            reply == ErrorReply(summarize(ReadRequest(request).text, n).error))
    ensures reply.body.data.Some? <==> reply.code == 200
    ensures reply.body.status == "success" <==> reply.code == 200
  {
    var intake := ReadRequest(request);
    if intake.MissingText? {
      return MissingTextReply();
    } else if intake.Crashed? {
      return ErrorReply(intake.error);
    }
    var fields, text := intake.fields, intake.text;
    var numSentences := DefaultSentences;
    var converted: Option<int> := None;
    if "num_sentences" in fields {
      converted := PyInt(fields["num_sentences"], parseStr);
    } else {
      converted := Some(DefaultSentences);
    }
    if converted.Some? {
      numSentences := converted.value;
      if numSentences < 1 {
        numSentences := DefaultSentences;
      }
    } else {
      numSentences := DefaultSentences;
    }
    var result := summarize(text, numSentences);
    if result.Raised? {
      return ErrorReply(result.error);
    }
    return SuccessReply(SummaryMessage, result.value);
  }

  /** `api_extract_keywords` */
  method ApiExtractKeywords(request: Attempt<Json>, parseStr: string -> Option<int>,
                            wordTokenize: string -> seq<string>, stopWords: set<string>)
    returns (reply: Reply<Keywords>)
    ensures ReadRequest(request) == MissingText <==> reply.code == 400
    ensures reply.code == 400 ==> reply == MissingTextReply()
    ensures ReadRequest(request).Crashed? ==> reply == ErrorReply(ReadRequest(request).error)
    ensures ReadRequest(request).Proceed? && TextArgument(ReadRequest(request).text).Raised? ==>
      reply == ErrorReply(TextArgument(ReadRequest(request).text).error)
    ensures ReadRequest(request).Proceed? && TextArgument(ReadRequest(request).text).Returned? ==>
      var n := Coerced(ReadRequest(request).fields, "num_keywords", DefaultKeywords, parseStr);
      && n >= 1
      && reply == SuccessReply(KeywordsMessage,
                    ExtractKeywords(TextArgument(ReadRequest(request).text).value, n, wordTokenize, stopWords))
    ensures reply.body.data.Some? <==> reply.code == 200
    ensures reply.body.status == "success" <==> reply.code == 200
  {
    var intake := ReadRequest(request);
    if intake.MissingText? {
      return MissingTextReply();
    } else if intake.Crashed? {
      return ErrorReply(intake.error);
    }
    var fields, text := intake.fields, intake.text;
    var numKeywords := DefaultKeywords;
    var converted: Option<int> := None;
    if "num_keywords" in fields {
      converted := PyInt(fields["num_keywords"], parseStr);
    } else {
      converted := Some(DefaultKeywords);
    }
    if converted.Some? {
      numKeywords := converted.value;
      if numKeywords < 1 {
        numKeywords := DefaultKeywords;
      }
    } else {
      numKeywords := DefaultKeywords;
    }
    var s := TextArgument(text);
    if s.Raised? {
      return ErrorReply(s.error);
    }
    return SuccessReply(KeywordsMessage, ExtractKeywords(s.value, numKeywords, wordTokenize, stopWords));
  }

  /** `api_enhance_content` */
  method ApiEnhanceContent(request: Attempt<Json>, sentTokenize: string -> seq<string>, draws: nat -> PhraseIndex)
    returns (reply: Reply<Enhancement>)
    ensures ReadRequest(request) == MissingText <==> reply.code == 400
    ensures reply.code == 400 ==> reply == MissingTextReply()
    ensures ReadRequest(request).Crashed? ==> reply == ErrorReply(ReadRequest(request).error)
    ensures ReadRequest(request).Proceed? && TextArgument(ReadRequest(request).text).Raised? ==>
      reply == ErrorReply(TextArgument(ReadRequest(request).text).error)
    ensures ReadRequest(request).Proceed? && TextArgument(ReadRequest(request).text).Returned? ==>
      var text := TextArgument(ReadRequest(request).text).value;
      && reply.code == 200 && reply.body == Body("success", EnhanceMessage, reply.body.data) && reply.body.data.Some?
      && (IsBlank(text) ==> reply.body.data.value == Enhancement("", 0, 0, 0))
      && (!IsBlank(text) && |sentTokenize(text)| < 3 ==> reply.body.data.value == Enhancement(text, |text|, |text|, 0))
      && (!IsBlank(text) && |sentTokenize(text)| >= 3 ==>
            && reply.body.data.value.enhancedText == Join(EnhancedSentences(sentTokenize(text), draws))
            && reply.body.data.value.originalLength == |text|
            && reply.body.data.value.enhancedLength == |reply.body.data.value.enhancedText|
            && reply.body.data.value.changesMade == EligibleBefore(sentTokenize(text), |sentTokenize(text)|))
    ensures reply.body.data.Some? <==> reply.code == 200
    ensures reply.body.status == "success" <==> reply.code == 200
  {
    var intake := ReadRequest(request);
    if intake.MissingText? {
      return MissingTextReply();
    } else if intake.Crashed? {
      return ErrorReply(intake.error);
    }
    var s := TextArgument(intake.text);
    if s.Raised? {
      return ErrorReply(s.error);
    }
    var result := EnhanceContent(s.value, sentTokenize, draws);
    return SuccessReply(EnhanceMessage, result);
  }

  /** `api_translate`: a missing `from_lang` is `"auto"` and a missing `to_lang` is `"en"`. */
  function ApiTranslate(request: Attempt<Json>, google: (Json, Json, string) -> TranslatorReply): (reply: Reply<Translation>)
    ensures ReadRequest(request) == MissingText <==> reply.code == 400
    ensures reply.code == 400 ==> reply == MissingTextReply()
    ensures ReadRequest(request).Crashed? ==> reply == ErrorReply(ReadRequest(request).error)
    ensures ReadRequest(request).Proceed? && TextArgument(ReadRequest(request).text).Returned? ==>
      var fields := ReadRequest(request).fields;
      var fromLang := if "from_lang" in fields then fields["from_lang"] else JStr("auto");
      var toLang := if "to_lang" in fields then fields["to_lang"] else JStr("en");
      var outcome := TranslateText(TextArgument(ReadRequest(request).text).value, fromLang, toLang, google);
      && (outcome.Returned? ==> reply == SuccessReply(TranslateMessage, outcome.value))
      && (outcome.Raised? ==> reply == ErrorReply(outcome.error))
    ensures ReadRequest(request).Proceed? && TextArgument(ReadRequest(request).text).Raised? ==>
      reply == ErrorReply(TextArgument(ReadRequest(request).text).error)
    ensures reply.body.data.Some? <==> reply.code == 200
    ensures reply.body.status == "success" <==> reply.code == 200
  {
    match ReadRequest(request)
    case MissingText => MissingTextReply()
    case Crashed(e) => ErrorReply(e)
    case Proceed(fields, text) =>
      var fromLang := Get(JObj(fields), "from_lang", JStr("auto")).value;
      var toLang := Get(JObj(fields), "to_lang", JStr("en")).value;
      match TextArgument(text)
      case Raised(e) => ErrorReply(e)
      case Returned(s) =>
        match TranslateText(s, fromLang, toLang, google)
        case Returned(result) => SuccessReply(TranslateMessage, result)
        case Raised(e) => ErrorReply(e)
  }

  /** A request that names only the text is translated into English from an automatically
      detected language, which is the shortcut: the text comes back unchanged. */
  lemma DefaultsTakeShortcut(text: string, google: (Json, Json, string) -> TranslatorReply)
    requires !IsBlank(text)
    ensures ApiTranslate(Returned(JObj(map["text" := JStr(text)])), google)
         == SuccessReply(TranslateMessage, Translation(text, JStr(ShortcutSource), JStr("en"), |text|))
  {
    assert Lower("en") == "en";
  }

  /** The CORS headers `add_cors_headers` adds to every Flask response. */
  const CorsHeaders: seq<Header> := [
    ("Access-Control-Allow-Origin", "*"),
    ("Access-Control-Allow-Headers", "Content-Type"),
    ("Access-Control-Allow-Methods", "POST, OPTIONS")
  ]

  /** A Flask response as `add_cors_headers` sees it: a status and a header list,
      to which `headers.add` appends. */
  class FlaskResponse {
    var statusCode: int
    var headers: seq<Header>

    constructor (statusCode: int, headers: seq<Header>)
      ensures this.statusCode == statusCode && this.headers == headers
    {
      this.statusCode := statusCode;
      this.headers := headers;
    }

    /** `add_cors_headers`: appends the three headers, in order, and changes nothing else. */
    method AddCorsHeaders()
      modifies this
      ensures headers == old(headers) + CorsHeaders
      ensures statusCode == old(statusCode)
      ensures forall h :: h in CorsHeaders ==> h in headers
    {
      headers := headers + [("Access-Control-Allow-Origin", "*")];
      headers := headers + [("Access-Control-Allow-Headers", "Content-Type")];
      headers := headers + [("Access-Control-Allow-Methods", "POST, OPTIONS")];
    }
  }
}
