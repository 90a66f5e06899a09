/**
 `apiRequest`, the one place where the sync engine talks to the server. The
 network is an input: for each request the caller supplies the `Reply` the
 server (or the transport) gives. The model records which request would be
 sent and what the call resolves to or throws.
 */
module ApiClient {
  import opened Values

  datatype Verb = GET | POST | PUT | DELETE

  /** The path a request targets, relative to the API base URL. */
  datatype Endpoint =
    | Collection(table: string)                  // `/${table}`
    | Member(table: string, key: Option<Value>)  // `/${table}/${payload.id}`
    | Changes(table: string, since: int)         // `/${table}/changes?since=${since}`

  /** A request as it leaves the client: JSON content type is implied. */
  datatype Request = Request(verb: Verb, endpoint: Endpoint, authorization: string, body: Option<string>)

  /** What `fetch` produces: a response, or a rejection with its message. */
  datatype Reply = Response(status: int, body: Body) | NetworkError(message: string)

  /** What one call to `apiRequest` did: the request it sent, if any, and
      the parsed response body or the message of the error it threw. */
  datatype Exchange = Exchange(sent: Option<Request>, result: Result<Value, string>)

  const NotAuthenticated := "Not authenticated"
  const UnknownError := "Unknown error"
  const ApiErrorPrefix := "API error: "

  /** The `TypeError` message for reading `error` off `null`. The wording
      depends on the JavaScript engine; this is V8's. */
  const NullBodyError := "Cannot read properties of null (reading 'error')"

  /** `if (!this.accessToken)`: a null or empty token counts as missing. */
  predicate HasToken(token: Option<string>) {
    token.Some? && token.value != ""
  }

  function AuthorizationHeader(token: string): (h: string)
    ensures StartsWith(h, "Bearer ") && h[7..] == token
  {
    "Bearer " + token
  }

  /** `response.ok`. */
  predicate IsOk(status: int) {
    200 <= status <= 299
  }

  /** The message thrown for a response that is not ok:
      `error.error || \`API error: ${status}\``, where a body that does not
      parse reads as `{ error: 'Unknown error' }`. */
  function ErrorMessage(rt: Runtime, status: int, body: Body): (msg: string)
    ensures body.Malformed? ==> msg == UnknownError
    ensures body.Decoded? && body.value.Null? ==> msg == NullBodyError
    ensures body.Decoded? && !body.value.Null? && !TruthyOpt(Get(body.value, "error")) ==>
              StartsWith(msg, ApiErrorPrefix) && ParseInt(msg[|ApiErrorPrefix|..]) == Some(status)
    ensures body.Decoded? && TruthyOpt(Get(body.value, "error")) && Get(body.value, "error").value.Str? ==>
              msg == Get(body.value, "error").value.s && msg != ""
  {
    match body
    case Malformed(_) => UnknownError
    case Decoded(v) =>
      if v.Null? then NullBodyError
      else
        var e := Get(v, "error");
        if TruthyOpt(e) then (if e.value.Str? then e.value.s else rt.show(e.value))
        else
          var digits := IntToString(status);
          ParseIntOfIntToString(status);
          assert (ApiErrorPrefix + digits)[|ApiErrorPrefix|..] == digits;
          ApiErrorPrefix + digits
  }

  /** `apiRequest(endpoint, { method, body })` given the reply the network
      would give. Without a token it throws before anything is sent. A
      response that is ok resolves to its parsed body, and a body that does
      not parse makes the call throw the parser's message. */
  function Call(rt: Runtime, token: Option<string>, verb: Verb, endpoint: Endpoint,
                body: Option<string>, reply: Reply): (x: Exchange)
    ensures x.sent.Some? <==> HasToken(token)
    ensures x.sent.Some? ==> x.sent.value == Request(verb, endpoint, AuthorizationHeader(token.value), body)
    ensures !HasToken(token) ==> x.result == Err(NotAuthenticated)
    ensures x.result.Ok? <==>
              HasToken(token) && reply.Response? && IsOk(reply.status) && reply.body.Decoded?
    ensures x.result.Ok? ==> x.result.value == reply.body.value
    ensures HasToken(token) && reply.NetworkError? ==> x.result == Err(reply.message)
    ensures HasToken(token) && reply.Response? && !IsOk(reply.status) ==>
              x.result == Err(ErrorMessage(rt, reply.status, reply.body))
  {
    if !HasToken(token) then Exchange(None, Err(NotAuthenticated))
    else
      var request := Request(verb, endpoint, AuthorizationHeader(token.value), body);
      match reply
      case NetworkError(m) => Exchange(Some(request), Err(m))
      case Response(status, b) =>
        if !IsOk(status) then Exchange(Some(request), Err(ErrorMessage(rt, status, b)))
        else match b
          case Decoded(v) => Exchange(Some(request), Ok(v))
          case Malformed(m) => Exchange(Some(request), Err(m))
  }
}
