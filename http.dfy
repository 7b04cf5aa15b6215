/** An HTTP exchange as the registry clients see it. */
module Http {
  import opened Wrappers

  /** The outcome of one GET: a transport failure, or a status with a body
      that is None when it cannot be read or decoded. */
  datatype Response<B> = Failed(reason: string) | Response(status: nat, body: Option<B>)

  /** `StatusCode::is_success`. */
  predicate IsSuccess(status: nat) {
    200 <= status < 300
  }

  /** What a registry lookup returns: Err for a transport or decoding
      failure, Ok(None) when there is no license, Ok(Some(l)) otherwise. */
  type FetchResult = Result<Option<string>, string>

  /** The shared tail of every registry client: a transport failure or an
      unreadable body is an error, a status outside 2xx means no license,
      and otherwise `extract` reads the license from the body. */
  function Outcome<B>(response: Response<B>, extract: B -> Option<string>): (r: FetchResult)
    ensures response.Failed? ==> r == Err(response.reason)
    ensures response.Response? && !IsSuccess(response.status) ==> r == Ok(None)
    ensures response.Response? && IsSuccess(response.status) && response.body.None? ==> r.Err?
    ensures response.Response? && IsSuccess(response.status) && response.body.Some? ==>
              r == Ok(extract(response.body.value))
    ensures r.Ok? ==> response.Response?
  {
    match response
    case Failed(reason) => Err(reason)
    case Response(status, body) =>
      if !IsSuccess(status) then Ok(None)
      else if body.None? then Err("error decoding response body")
      else Ok(extract(body.value))
  }
}
