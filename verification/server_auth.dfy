/**
 The server's authentication helpers: `verifyAuth` reads the bearer token
 from the `Authorization` header and has it verified, and `handleError`
 turns a thrown value into an HTTP status and message. Signature
 verification is an input (`verify`): it yields the token's claims or fails.
 */
module ServerAuth {
  import opened Values
  import ApiClient

  /** The verified claims the server reads: the subject and, if present,
      the `email` claim. */
  datatype Claims = Claims(sub: string, email: Option<Value>)

  datatype AuthContext = AuthContext(userId: string, email: Value, sub: string)

  /** A thrown value: an `Error` with its message and its `statusCode`
      property (absent unless the thrower set one), or any other value. */
  datatype Thrown = ErrorObject(message: string, statusCode: Option<Value>) | Other(value: Value)

  /** What `handleError` produces: the status and the `error` message of the body. */
  datatype ErrorReply = ErrorReply(status: Value, message: string)

  const MissingHeader := "Missing or invalid authorization header"
  const InvalidToken := "Invalid token"
  const InternalError := "Internal server error"
  const BearerPrefix := "Bearer "

  function Status(code: int): Value {
    Num(code as real)
  }

  /** The token of an `Authorization` header: present exactly when the
      header is non-empty and starts with "Bearer ", and then the rest of
      the header after those 7 characters. */
  function BearerToken(header: Option<string>): (t: Option<string>)
    ensures t.Some? <==> header.Some? && header.value != "" && StartsWith(header.value, BearerPrefix)
    ensures t.Some? ==> BearerPrefix + t.value == header.value
  {
    if header.None? || header.value == "" || !StartsWith(header.value, BearerPrefix) then None
    else
      var token := header.value[7..];
      assert BearerPrefix + token == header.value;
      Some(token)
  }

  /** `verifyAuth(request)`. Both failures carry status 401. The email falls
      back to "" when the claim is missing or falsy. */
  function VerifyAuth(header: Option<string>, verify: string -> Option<Claims>): (r: Result<AuthContext, Thrown>)
    ensures BearerToken(header).None? ==> r == Err(ErrorObject(MissingHeader, Some(Status(401))))
    ensures BearerToken(header).Some? && verify(BearerToken(header).value).None? ==>
              r == Err(ErrorObject(InvalidToken, Some(Status(401))))
    ensures r.Ok? <==> BearerToken(header).Some? && verify(BearerToken(header).value).Some?
    ensures r.Ok? ==> var claims := verify(BearerToken(header).value).value;
              r.value.userId == claims.sub && r.value.sub == claims.sub
              && (TruthyOpt(claims.email) ==> r.value.email == claims.email.value)
              && (!TruthyOpt(claims.email) ==> r.value.email == Str(""))
  {
    match BearerToken(header)
    case None => Err(ErrorObject(MissingHeader, Some(Status(401))))
    case Some(token) =>
      match verify(token)
      case None => Err(ErrorObject(InvalidToken, Some(Status(401))))
      case Some(claims) =>
        var email := if TruthyOpt(claims.email) then claims.email.value else Str("");
        Ok(AuthContext(claims.sub, email, claims.sub))
  }

  /** `handleError(error)`: the status is the thrown value's `statusCode`
      when that is truthy and 500 otherwise; the message is the error's own
      for an `Error` and "Internal server error" for anything else. */
  function HandleError(e: Thrown): (r: ErrorReply)
    ensures e.ErrorObject? ==> r.message == e.message
    ensures e.Other? ==> r.message == InternalError
    ensures e.ErrorObject? && TruthyOpt(e.statusCode) ==> r.status == e.statusCode.value
    ensures e.ErrorObject? && !TruthyOpt(e.statusCode) ==> r.status == Status(500)
    ensures e.Other? && TruthyOpt(Get(e.value, "statusCode")) ==> r.status == Get(e.value, "statusCode").value
    ensures e.Other? && !TruthyOpt(Get(e.value, "statusCode")) ==> r.status == Status(500)
    ensures Truthy(r.status)
  {
    var code := match e
      case ErrorObject(_, sc) => sc
      case Other(v) => Get(v, "statusCode");
    var status := if TruthyOpt(code) then code.value else Status(500);
    var message := if e.ErrorObject? then e.message else InternalError;
    ErrorReply(status, message)
  }

  /** Both failures of `verifyAuth` reach the client as 401 with their own
      message. */
  lemma AuthFailuresAre401(header: Option<string>, verify: string -> Option<Claims>)
    requires VerifyAuth(header, verify).Err?
    ensures var reply := HandleError(VerifyAuth(header, verify).error);
      && reply.status == Status(401)
      && (reply.message == MissingHeader || reply.message == InvalidToken)
  {
  }

  /** The server reads back exactly the token the client put in its
      header, and the client's header form is the only one that yields a
      given token. */
  lemma BearerTokenRoundTrip(token: string, header: Option<string>)
    ensures BearerToken(Some(ApiClient.AuthorizationHeader(token))) == Some(token)
    ensures BearerToken(header) == Some(token) ==> header == Some(ApiClient.AuthorizationHeader(token))
  {
    var h := ApiClient.AuthorizationHeader(token);
    assert h[..7] == BearerPrefix;
    assert h[7..] == token;
  }
}
