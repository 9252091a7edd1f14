/**
 * What every adapter shares before it reads a field: the errors it can
 * return, the response the HTTP call hands back, and the three checks
 * that turn a response into a parsed document.
 */
module Geo {
  import opened Wrappers
  import opened Json

  /** The error kinds of the adapters; the source reports each one as a
      message string, modelled here by its kind and its varying part. */
  datatype GeoError =
    | ConnectFailed(host: string, rateLimitHint: bool) // "Couldn't connect to <host>"
    | BodyUnreadable                                   // "Couldn't transform to string"
    | ParseFailed                                      // "Couldn't parse json"
    | SuccessMissing                                   // "Cannot find success in JSON"
    | MonthlyLimit                                     // "You've hit the monthly limit"
    | FieldNotFound(field: string)                     // "Unable to find <field> in parsed JSON"
    | PrivateAddress                                   // "IP can't be private"

  /** What `ureq::get(url).call()` yields: whether `response.ok()` holds,
      and the body, absent when `into_string()` fails. */
  datatype Response = Response(ok: bool, body: Option<string>)

  /** The steps every adapter takes before reading a field: a non-OK
      response fails with the connect error for `host`, an unreadable body
      fails next, then a body that does not parse as JSON. */
  function Receive(resp: Response, host: string, rateLimitHint: bool,
                   parse: string -> Option<Value>): (r: Result<Value, GeoError>)
    ensures !resp.ok ==> r == Failure(ConnectFailed(host, rateLimitHint))
    ensures resp.ok && resp.body.None? ==> r == Failure(BodyUnreadable)
    ensures resp.ok && resp.body.Some? && parse(resp.body.value).None? ==> r == Failure(ParseFailed)
    ensures r.Success? <==> resp.ok && resp.body.Some? && parse(resp.body.value).Some?
    ensures r.Success? ==> Some(r.value) == parse(resp.body.value)
  {
    if !resp.ok then
      Failure(ConnectFailed(host, rateLimitHint))
    else
      match resp.body
      case None => Failure(BodyUnreadable)
      case Some(data) =>
        match parse(data)
        case None => Failure(ParseFailed)
        case Some(doc) => Success(doc)
  }

  /** Whatever the response, a failed receive never names a field, the
      success gate or the address guard: those come only after parsing. */
  lemma ReceiveFailsBeforeFields(resp: Response, host: string, hint: bool,
                                 parse: string -> Option<Value>)
    requires Receive(resp, host, hint, parse).Failure?
    ensures Receive(resp, host, hint, parse).error in
      {ConnectFailed(host, hint), BodyUnreadable, ParseFailed}
  {
  }
}
