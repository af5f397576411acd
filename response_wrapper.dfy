/** The response envelope of the serverless functions: `make_response` and the body
    decision of `VercelHandler.parse_body`. The envelope is kept as a structure; its
    `json.dumps` encoding is not modelled. */
module ResponseWrapper {
  import opened Values

  type Header = (string, string)

  /** The dictionary that `json.dumps` turns into the response body. */
  datatype Body<+D> = Body(status: string, message: string, data: Option<D>)

  /** The dictionary `make_response` returns. */
  datatype Response<+D> = Response(statusCode: int, body: Body<D>, headers: seq<Header>)

  /** The four headers every envelope carries, in this order. */
  const EnvelopeHeaders: seq<Header> := [
    ("Content-Type", "application/json"),
    ("Access-Control-Allow-Origin", "*"),
    ("Access-Control-Allow-Headers", "Content-Type"),
    ("Access-Control-Allow-Methods", "POST, OPTIONS")
  ]

  function MakeResponse<D>(statusCode: int, message: string, data: Option<D>): (r: Response<D>)
    ensures r.body.status == "success" <==> 200 <= statusCode < 300
    ensures r.body.status == "error" <==> !(200 <= statusCode < 300)
    ensures r.body.message == message
    ensures r.body.data.Some? <==> data.Some?
    ensures data.Some? ==> r.body.data.value == data.value
    ensures r.statusCode == statusCode
    ensures r.headers == EnvelopeHeaders && |r.headers| == 4
  {
    var status := if 200 <= statusCode < 300 then "success" else "error";
    Response(statusCode, Body(status, message, data), EnvelopeHeaders)
  }

  /** The result of `json.loads` on the bytes read from the request. */
  datatype Decoding = Decoded(value: Json) | DecodeError

  /** `parse_body`: `contentLength` is the outcome of `int(self.headers.get('Content-Length', 0))`. */
  function ParseBody(contentLength: Attempt<int>, decoding: Decoding): (r: Attempt<Json>)
    ensures contentLength.Raised? ==> r == Raised(contentLength.error)
    ensures contentLength == Returned(0) ==> r == Returned(JObj(map[]))
    ensures contentLength.Returned? && contentLength.value != 0 && decoding == DecodeError ==>
      r == Returned(JObj(map[]))
    ensures contentLength.Returned? && contentLength.value != 0 && decoding.Decoded? ==>
      r == Returned(decoding.value)
  {
    match contentLength
    case Raised(e) => Raised(e)
    case Returned(n) =>
      if n == 0 then Returned(JObj(map[]))
      else
        match decoding
        case Decoded(v) => Returned(v)
        case DecodeError => Returned(JObj(map[]))
  }
}
