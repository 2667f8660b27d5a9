/**
 * The network boundary. `fetch` and `response.json()` are not modelled;
 * instead each request is settled by one of these outcomes, supplied as input.
 */
module Transport {
  import opened JsValue
  import opened Options

  /**
   * An HTTP response that arrived. `body` is `None` when `response.json()`
   * rejects because the body is not valid JSON.
   */
  datatype Response = Response(ok: bool, status: int, body: Option<Json>)

  /** Either `fetch` rejects (network failure), or a response arrives. */
  datatype FetchOutcome =
    | NetworkError
    | Received(response: Response)

  /** The JSON body of an outcome, whatever its status, when one was parsed. */
  function ParsedBody(o: FetchOutcome): (b: Option<Json>)
    ensures b.Some? <==> o.Received? && o.response.body.Some?
    ensures b.Some? ==> b.value == o.response.body.value
  {
    match o
    case NetworkError => None
    case Received(r) => r.body
  }
}
