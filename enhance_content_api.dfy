/** The serverless function that serves content enhancement: `do_POST` decodes,
    validates, calls the enhancer and answers with one envelope and one log record;
    `do_OPTIONS` answers the CORS preflight. The request stream, the clock and the
    enhancer itself are parameters: `contentLength` is the outcome of
    `int(self.headers.get('Content-Length', 0))`, `decoding` that of `json.loads` on the
    bytes read, and `enhance` that of `enhance_content` on the request's text. */
module EnhanceContentApi {
  import opened Values
  import opened Validators
  import opened ResponseWrapper
  import opened ContentEnhancer

  const Route := "/api/enhance_content"
  const RequestEmptyMessage := "Request body is empty"
  const InvalidJsonMessage := "Invalid JSON in request body"
  const SuccessMessage := "Content enhancement completed successfully"
  const ErrorPrefix := "Error processing request: "

  /** What one POST comes to: one response together with the request body that is
      logged beside it, or an exception that escapes `do_POST` before anything is sent. */
  datatype PostOutcome =
    | Respond(response: Response<Enhancement>, logged: Json)
    | Escape(error: Exception)

  /** The decision sequence of `do_POST`, step by step with its early returns. */
  function PostDecision(contentLength: Attempt<int>, decoding: Decoding, enhance: string -> Attempt<Enhancement>): (r: PostOutcome)
    // an unreadable Content-Length escapes
    ensures contentLength.Raised? ==> r == Escape(contentLength.error)
    // an empty body is answered before anything is decoded or validated
    ensures contentLength == Returned(0) ==>
      r == Respond(MakeResponse(400, RequestEmptyMessage, None), JObj(map[]))
    ensures contentLength.Returned? && contentLength.value != 0 && decoding == DecodeError ==>
      r == Respond(MakeResponse(400, InvalidJsonMessage, None), JObj(map[]))
    // a validator failure is answered with exactly the validator's message
    ensures contentLength.Returned? && contentLength.value != 0 && decoding.Decoded? &&
            ValidateTextInput(decoding.value).Returned? && !ValidateTextInput(decoding.value).value.isValid ==>
      r == Respond(MakeResponse(400, ValidateTextInput(decoding.value).value.errorMessage.value, None), decoding.value)
    // a valid request is handed to the enhancer
    ensures contentLength.Returned? && contentLength.value != 0 && decoding.Decoded? && WellFormed(decoding.value) ==>
      var text := decoding.value.fields["text"].s;
      && (enhance(text).Returned? ==>
            r == Respond(MakeResponse(200, SuccessMessage, Some(enhance(text).value)), decoding.value))
      && (enhance(text).Raised? ==>
            r == Respond(MakeResponse(500, ErrorPrefix + enhance(text).error.message, None), decoding.value))
    // the validator's crash on a non-object body escapes
    ensures r.Escape? <==>
      contentLength.Raised? ||
      (contentLength.value != 0 && decoding.Decoded? && RaisesOn(decoding.value))
  {
    match contentLength
    case Raised(e) => Escape(e)
    case Returned(n) =>
      if n == 0 then Respond(MakeResponse(400, RequestEmptyMessage, None), JObj(map[]))
      else
        match decoding
        case DecodeError => Respond(MakeResponse(400, InvalidJsonMessage, None), JObj(map[]))
        case Decoded(requestData) =>
          match ValidateTextInput(requestData)
          case Raised(e) => Escape(e)
          case Returned(verdict) =>
            if !verdict.isValid then Respond(MakeResponse(400, verdict.errorMessage.value, None), requestData)
            else
              match enhance(requestData.fields["text"].s)
              case Returned(result) => Respond(MakeResponse(200, SuccessMessage, Some(result)), requestData)
              case Raised(e) => Respond(MakeResponse(500, ErrorPrefix + e.message, None), requestData)
  }

  /** Every answered POST is a 200 carrying data, a 400 or a 500 without data, and its
      status string agrees with its code; only a valid request reaches 200 or 500. */
  lemma PostResponseShape(contentLength: Attempt<int>, decoding: Decoding, enhance: string -> Attempt<Enhancement>)
    ensures var r := PostDecision(contentLength, decoding, enhance);
      r.Respond? ==>
        && r.response.statusCode in {200, 400, 500}
        && (r.response.body.data.Some? <==> r.response.statusCode == 200)
        && (r.response.body.status == "success" <==> r.response.statusCode == 200)
        && (r.response.statusCode != 400 <==> decoding.Decoded? && contentLength.value != 0 && WellFormed(decoding.value))
  {
  }

  /** `parse_body` and `do_POST` agree: an empty or undecodable body that `do_POST`
      rejects is, through `parse_body`, the empty dict the validator rejects; a body
      `do_POST` accepts is exactly what `parse_body` returns. */
  lemma ParseBodyAgrees(contentLength: Attempt<int>, decoding: Decoding, enhance: string -> Attempt<Enhancement>)
    requires contentLength.Returned?
    ensures var r := PostDecision(contentLength, decoding, enhance);
      && (contentLength.value == 0 || decoding == DecodeError ==>
            && ParseBody(contentLength, decoding) == Returned(JObj(map[]))
            && ValidateTextInput(JObj(map[])) == Returned(Verdict(false, Some(EmptyBodyMessage)))
            && r.Respond? && r.response.statusCode == 400)
      && (r.Respond? && r.response.statusCode != 400 ==>
            ParseBody(contentLength, decoding) == Returned(r.logged) && WellFormed(r.logged))
  {
  }

  /** What reaches the socket, in order. The status line stands for `send_response`. */
  datatype WireEvent =
    | StatusLine(code: int)
    | HeaderLine(name: string, value: string)
    | EndHeaders
    | BodyBytes(body: Body<Enhancement>)

  /** One call of `log_request`: the route, the logged request body and the status code. */
  datatype LogEntry = LogEntry(route: string, requestBody: Json, status: int)

  function HeaderEvents(headers: seq<Header>): (events: seq<WireEvent>)
    ensures |events| == |headers|
    ensures forall k :: 0 <= k < |headers| ==> events[k] == HeaderLine(headers[k].0, headers[k].1)
  {
    if |headers| == 0 then []
    else HeaderEvents(headers[..|headers| - 1]) + [HeaderLine(headers[|headers| - 1].0, headers[|headers| - 1].1)]
  }

  /** What `_send_response` writes for a response. */
  function ResponseEvents(response: Response<Enhancement>): seq<WireEvent>
  {
    [StatusLine(response.statusCode)] + HeaderEvents(response.headers) + [EndHeaders, BodyBytes(response.body)]
  }

  /** The preflight headers: unlike the envelope's, they allow POST only. */
  const OptionsHeaders: seq<Header> := [
    ("Access-Control-Allow-Origin", "*"),
    ("Access-Control-Allow-Methods", "POST"),
    ("Access-Control-Allow-Headers", "Content-Type")
  ]

  /** One invocation of the serverless handler: what it has written and logged. */
  class Handler {
    var wire: seq<WireEvent>
    var log: seq<LogEntry>

    constructor ()
      ensures wire == [] && log == []
    {
      wire := [];
      log := [];
    }

    /** Answers 200 with the three preflight headers and no body. */
    method DoOptions()
      modifies this
      ensures wire == old(wire) + [StatusLine(200)] + HeaderEvents(OptionsHeaders) + [EndHeaders]
      ensures log == old(log)
    {
      wire := wire + [StatusLine(200)];
      wire := wire + [HeaderLine("Access-Control-Allow-Origin", "*")];
      wire := wire + [HeaderLine("Access-Control-Allow-Methods", "POST")];
      wire := wire + [HeaderLine("Access-Control-Allow-Headers", "Content-Type")];
      wire := wire + [EndHeaders];
    }

    /** `_send_response`: the status, each header in order, the end of the headers, the body. */
    method SendResponse(response: Response<Enhancement>)
      modifies this
      ensures wire == old(wire) + ResponseEvents(response)
      ensures log == old(log)
    {
      wire := wire + [StatusLine(response.statusCode)];
      for k := 0 to |response.headers|
        invariant wire == old(wire) + [StatusLine(response.statusCode)] + HeaderEvents(response.headers[..k])
        invariant log == old(log)
      {
        assert response.headers[..k + 1][..k] == response.headers[..k];
        wire := wire + [HeaderLine(response.headers[k].0, response.headers[k].1)];
      }
      assert response.headers[..|response.headers|] == response.headers;
      wire := wire + [EndHeaders, BodyBytes(response.body)];
    }

    /** `log_request`: one record per call; the timestamp and latency are not modelled. */
    method LogRequest(route: string, requestBody: Json, response: Response<Enhancement>)
      modifies this
      ensures log == old(log) + [LogEntry(route, requestBody, response.statusCode)]
      ensures wire == old(wire)
    {
      log := log + [LogEntry(route, requestBody, response.statusCode)];
    }

    /** `do_POST`: every path that does not raise sends exactly one response and logs
        exactly once; a path that raises sends and logs nothing. */
    method DoPost(contentLength: Attempt<int>, decoding: Decoding, enhance: string -> Attempt<Enhancement>)
      returns (escaped: Option<Exception>)
      modifies this
      ensures var r := PostDecision(contentLength, decoding, enhance);
        r.Respond? ==>
          && escaped == None
          && wire == old(wire) + ResponseEvents(r.response)
          && log == old(log) + [LogEntry(Route, r.logged, r.response.statusCode)]
      ensures var r := PostDecision(contentLength, decoding, enhance);
        r.Escape? ==> escaped == Some(r.error) && wire == old(wire) && log == old(log)
    {
      if contentLength.Raised? {
        return Some(contentLength.error);
      }
      if contentLength.value == 0 {
        var response := MakeResponse<Enhancement>(400, RequestEmptyMessage, None);
        SendResponse(response);
        LogRequest(Route, JObj(map[]), response);
        return None;
      }
      if decoding == DecodeError {
        var response := MakeResponse<Enhancement>(400, InvalidJsonMessage, None);
        SendResponse(response);
        LogRequest(Route, JObj(map[]), response);
        return None;
      }
      var requestData := decoding.value;
      var validation := ValidateTextInput(requestData);
      if validation.Raised? {
        return Some(validation.error);
      }
      if !validation.value.isValid {
        var response := MakeResponse<Enhancement>(400, validation.value.errorMessage.value, None);
        SendResponse(response);
        LogRequest(Route, requestData, response);
        return None;
      }
      var text := requestData.fields["text"].s;
      var response: Response<Enhancement>;
      var outcome := enhance(text);
      if outcome.Returned? {
        response := MakeResponse(200, SuccessMessage, Some(outcome.value));
      } else {
        response := MakeResponse(500, ErrorPrefix + outcome.error.message, None);
      }
      SendResponse(response);
      LogRequest(Route, requestData, response);
      escaped := None;
    }
  }
}
