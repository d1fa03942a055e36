/**
 * The request middleware of the blog backend: it takes the bearer token out
 * of the Authorization header and looks up the user it names. It also maps
 * thrown errors to responses and answers unknown routes.
 *
 * The request object is changed in place: `tokenExtractor` sets its token
 * and `userExtractor` sets its user. So the request is a class, and each
 * middleware is a method on it that returns how the middleware ended.
 * `jwt.verify` and `User.findById` are code this model cannot see. They are
 * parameters: each is a function from a token, or an id, to what the call
 * yields.
 */
module Middleware {
  import opened Wrappers
  import opened Http

  /** A user record as `User.findById` returns it. */
  datatype User = User(id: string, username: string)

  /** What `jwt.verify` does with a token: yields a payload with an optional `id`, or throws. */
  datatype Verification = Decoded(id: Option<string>) | Thrown(error: Error)

  /** How a middleware ends: `next()`, `next(error)`, or a response sent. */
  datatype Outcome = Next | NextWithError(error: Error) | Respond(response: Response<()>)

  /** What `userExtractor` decides for a token. */
  datatype Authorization = Admitted(user: User) | Rejected(response: Response<()>) | Failed(error: Error)

  const BearerPrefix: string := "Bearer "

  // ---------------------------------------------------------------------
  // tokenExtractor

  /**
   * The token in an Authorization header: the header without its leading
   * "Bearer " (case-sensitive), or null when the header is absent or does not
   * start with it.
   */
  function BearerToken(authorization: Option<string>): (token: Option<string>)
    ensures token.Some? <==> authorization.Some? && BearerPrefix <= authorization.value
    ensures token.Some? ==> authorization.value == BearerPrefix + token.value
  {
    if Truthy(authorization) && BearerPrefix <= authorization.value
    then Some(authorization.value[|BearerPrefix|..])
    else None
  }

  /** Prefixing a token with "Bearer " and extracting it again gives the token back. */
  lemma BearerTokenRoundTrip(token: string)
    ensures BearerToken(Some(BearerPrefix + token)) == Some(token)
  {
    var header := BearerPrefix + token;
    assert BearerPrefix <= header;
    assert header[|BearerPrefix|..] == token;
  }

  // ---------------------------------------------------------------------
  // userExtractor

  /**
   * The checks of userExtractor, in order: a missing token, a payload with no
   * id, an id with no user; a token that `verify` rejects throws past all of them.
   */
  function Authorize(token: Option<string>, verify: string -> Verification, findById: string -> Option<User>): (d: Authorization)
    ensures !Truthy(token) ==> d == Rejected(Response(401, ErrorBody("Token missing")))
    ensures d.Failed? <==> Truthy(token) && verify(token.value).Thrown?
    ensures d.Failed? ==> d.error == verify(token.value).error
    ensures d == Rejected(Response(401, ErrorBody("Token invalid"))) <==>
      Truthy(token) && verify(token.value).Decoded? && !Truthy(verify(token.value).id)
    ensures d == Rejected(Response(404, ErrorBody("User not found"))) <==>
      Truthy(token) && verify(token.value).Decoded? && Truthy(verify(token.value).id) &&
      findById(verify(token.value).id.value).None?
    ensures d.Admitted? <==>
      Truthy(token) && verify(token.value).Decoded? && Truthy(verify(token.value).id) &&
      findById(verify(token.value).id.value).Some?
    ensures d.Admitted? ==> d.user == findById(verify(token.value).id.value).value
  {
    if !Truthy(token) then Rejected(Response(401, ErrorBody("Token missing")))
    else
      match verify(token.value)
      case Thrown(error) => Failed(error)
      case Decoded(id) =>
        if !Truthy(id) then Rejected(Response(401, ErrorBody("Token invalid")))
        else
          match findById(id.value)
          case None => Rejected(Response(404, ErrorBody("User not found")))
          case Some(user) => Admitted(user)
  }

  /** How userExtractor's decision ends the middleware. */
  function AuthorizationOutcome(d: Authorization): (o: Outcome)
    ensures o.Next? <==> d.Admitted?
    ensures d.Rejected? ==> o == Respond(d.response)
    ensures d.Failed? ==> o == NextWithError(d.error)
  {
    match d
    case Admitted(_) => Next
    case Rejected(response) => Respond(response)
    case Failed(error) => NextWithError(error)
  }

  /** A missing token is rejected before the token is decoded or any user looked up. */
  lemma MissingTokenIsRejectedBeforeDecoding(token: Option<string>,
      verify1: string -> Verification, findById1: string -> Option<User>,
      verify2: string -> Verification, findById2: string -> Option<User>)
    requires !Truthy(token)
    ensures Authorize(token, verify1, findById1) == Authorize(token, verify2, findById2)
  {
  }

  /** The header "Bearer " yields the empty token, which is a missing token. */
  lemma BareBearerHeaderIsMissingToken(verify: string -> Verification, findById: string -> Option<User>)
    ensures BearerToken(Some(BearerPrefix)) == Some("")
    ensures Authorize(BearerToken(Some(BearerPrefix)), verify, findById) == Rejected(Response(401, ErrorBody("Token missing")))
  {
    BearerTokenRoundTrip("");
    assert BearerPrefix + "" == BearerPrefix;
  }

  // ---------------------------------------------------------------------
  // errorHandler and unknownEndpoint

  const DuplicateKeyMarker: string := "E11000 duplicate key error"

  /** `s.includes(part)`. */
  function Contains(s: string, part: string): (r: bool)
    ensures r <==> exists i :: 0 <= i <= |s| && part <= s[i..]
    decreases |s|
  {
    if part <= s then (assert s[0..] == s; true)
    else if |s| == 0 then false
    else
      assert forall i :: 1 <= i <= |s| ==> s[1..][i - 1..] == s[i..];
      Contains(s[1..], part)
  }

  /** `includes` is true when the substring stands at a given position. */
  lemma ContainsAt(s: string, part: string, i: nat)
    requires i <= |s| && part <= s[i..]
    ensures Contains(s, part)
  {
  }

  /**
   * The error handler: responds to the four kinds of error it knows and passes
   * every other error on, unchanged, to the next error handler.
   */
  function ErrorHandler(error: Error): (o: Outcome)
    ensures !o.Next?
    ensures o.NextWithError? ==> o.error == error
    ensures o.Respond? ==> 400 <= o.response.status < 500 && o.response.body.ErrorBody?
    ensures o.NextWithError? <==>
      && error.name != "CastError"
      && error.name != "ValidationError"
      && !(error.name == "MongoServerError" && Contains(error.message, DuplicateKeyMarker))
      && error.name != "JsonWebTokenError"
  {
    if error.name == "CastError" then
      Respond(Response(400, ErrorBody("malformatted id")))
    else if error.name == "ValidationError" then
      Respond(Response(400, ErrorBody(error.message)))
    else if error.name == "MongoServerError" && Contains(error.message, DuplicateKeyMarker) then
      Respond(Response(400, ErrorBody("expected `username` to be unique")))
    else if error.name == "JsonWebTokenError" then
      Respond(Response(401, ErrorBody("token invalid")))
    else
      NextWithError(error)
  }

  /** The response the error handler gives for each kind of error it knows. */
  lemma ErrorHandlerResponses(message: string)
    ensures ErrorHandler(Error("CastError", message)) == Respond(Response(400, ErrorBody("malformatted id")))
    ensures ErrorHandler(Error("ValidationError", message)) == Respond(Response(400, ErrorBody(message)))
    ensures ErrorHandler(Error("JsonWebTokenError", message)) == Respond(Response(401, ErrorBody("token invalid")))
  {
  }

  /** A MongoServerError whose message contains the duplicate key marker, anywhere, gets 400. */
  lemma DuplicateKeyErrorResponse(message: string)
    requires Contains(message, DuplicateKeyMarker)
    ensures ErrorHandler(Error("MongoServerError", message)) ==
      Respond(Response(400, ErrorBody("expected `username` to be unique")))
  {
  }

  /** A MongoServerError that is not a duplicate key error is passed on unchanged. */
  lemma OtherMongoErrorsPassOn(message: string)
    requires !Contains(message, DuplicateKeyMarker)
    ensures ErrorHandler(Error("MongoServerError", message)) == NextWithError(Error("MongoServerError", message))
  {
  }

  /** The answer to every request that no route matches. */
  function UnknownEndpoint(path: string): (r: Response<()>)
    ensures r.status == 404 && r.body == ErrorBody("unknown endpoint")
  {
    Response(404, ErrorBody("unknown endpoint"))
  }

  // ---------------------------------------------------------------------
  // The request object

  class Request {
    /** What `request.get('authorization')` returns. */
    const authorization: Option<string>
    /** `request.token`, set by tokenExtractor. */
    var token: Option<string>
    /** `request.user`, set by userExtractor. */
    var user: Option<User>

    constructor (authorization: Option<string>)
      ensures this.authorization == authorization && token == None && user == None
    {
      this.authorization := authorization;
      token := None;
      user := None;
    }

    /** Sets the token from the Authorization header, then calls `next()`. */
    method TokenExtractor() returns (o: Outcome)
      modifies this`token
      ensures token == BearerToken(authorization)
      ensures o == Next
    {
      token := BearerToken(authorization);
      o := Next;
    }

    /** Checks the token and sets the user; only an admitted request goes on to `next()`. */
    method UserExtractor(verify: string -> Verification, findById: string -> Option<User>) returns (o: Outcome)
      modifies this`user
      ensures o == AuthorizationOutcome(Authorize(token, verify, findById))
      ensures user == if o.Next? then Some(Authorize(token, verify, findById).user) else old(user)
    {
      var decision := Authorize(token, verify, findById);
      if decision.Admitted? {
        user := Some(decision.user);
      }
      o := AuthorizationOutcome(decision);
    }
  }

  /**
   * A request through tokenExtractor and then userExtractor. A thrown
   * verification error is forwarded to the error handler as `next(error)`.
   */
  method Authenticate(authorization: Option<string>, verify: string -> Verification, findById: string -> Option<User>)
    returns (o: Outcome, user: Option<User>)
    ensures o == AuthorizationOutcome(Authorize(BearerToken(authorization), verify, findById))
    ensures user == if o.Next? then Some(Authorize(BearerToken(authorization), verify, findById).user) else None
    ensures !Truthy(BearerToken(authorization)) ==> o == Respond(Response(401, ErrorBody("Token missing")))
  {
    var request := new Request(authorization);
    o := request.TokenExtractor();
    o := request.UserExtractor(verify, findById);
    user := request.user;
  }

  /** A token that `jwt.verify` rejects ends, through the error handler, in 401 "token invalid". */
  lemma RejectedSignatureIsTokenInvalid(token: string, message: string, findById: string -> Option<User>,
      verify: string -> Verification)
    requires token != ""
    requires verify(token) == Thrown(Error("JsonWebTokenError", message))
    ensures AuthorizationOutcome(Authorize(Some(token), verify, findById)) == NextWithError(Error("JsonWebTokenError", message))
    ensures ErrorHandler(Error("JsonWebTokenError", message)) == Respond(Response(401, ErrorBody("token invalid")))
  {
  }
}
