/**
 * The request gate of AuthorizationJWT.php: requests under `auth` go to
 * the login handlers, every other request must carry an access token whose
 * scope is the requested API version. Each refusal records a phase label
 * and ends the request with an error response.
 */
module AuthorizationJwt {
  import opened Results
  import opened PhpStrings
  import opened Jwt
  import opened ResponseJson

  /** The phase labels, by index. */
  const Phases: seq<string> := [
    "[1] Authentication",
    "[1.1] Authorize",
    "[1.2] Authorize > JSON WEB Token",
    "[1.3] Authorize > Scope"
  ]

  /** The phase recorded while a login request is processed. */
  const LoginPhase := "[2] Authorization request processing"

  const HeaderNoAuthorization := "Missing \"Authorization\" key in header."
  const NoAccessToken := "Wrong JWT type, for access REST API use `access_token`."
  const NotImplemented := "Not implemented."
  const WrongPath := "For generating token use \"token\" endpoint. For authentication purposes use \"authorize\" endpoint."
  const WrongMethod := "For \"/auth\" endpoint only POST method is supported."

  /** The first path segment that selects the login part. */
  const AuthKey := "auth"

  /** The kinds of token, and the `type` claim each carries. */
  datatype TokenKind = AccessToken | RefreshToken

  function KindName(k: TokenKind): string
  {
    match k
    case AccessToken => "access_token"
    case RefreshToken => "refresh_token"
  }

  function TypeClaim(k: TokenKind): string
  {
    match k
    case AccessToken => "access"
    case RefreshToken => "refresh"
  }

  /** The configuration the gate reads. */
  datatype Config = Config(secret: KeyArg, expiration: int, authPath: string)

  /** The request as the gate sees it: the `Authorization` header, if sent, as bytes. */
  datatype Request = Request(verb: string, version: string, target: seq<string>, authorization: Option<Bytes>)

  /** What running a login handler file gives: its return value, or the exception it throws. */
  datatype HandlerResult = Returned(data: Json) | Raised(e: Exception)

  /** The login handler files: which paths exist, and what running one gives. */
  datatype Handlers = Handlers(present: string -> bool, run: string -> HandlerResult)

  /**
   * How a request leaves the gate: admitted with its token's payload, ended
   * with a response, or aborted by an exception the gate does not catch
   * (an invalid configuration, or a PHP `TypeError` from a timestamp claim).
   */
  datatype Outcome = Admitted(payload: Claims) | Ended(ending: Ending) | Thrown(error: JwtError) | Crashed

  /** The codec the gate builds: HS384, maxAge = expiration, leeway 3 seconds. */
  function GateCodec(config: Config): Result<CodecState, JwtError>
  {
    Construct(config.secret, "HS384", config.expiration, 3, None)
  }

  /** The handler file for a login sub-endpoint. */
  function HandlerPath(config: Config, segment: string): string
  {
    config.authPath + "/" + segment + "/post.php"
  }

  /** `authorize`: the login flow, which always ends the request. */
  function Login(config: Config, request: Request, handlers: Handlers): Ending
  {
    if request.verb != "post" then ErrorResponse(Exception(WrongMethod, 405), None, LoginPhase)
    else if |request.target| < 2 || request.target[1] !in ["token", "authorize", "update"] then
      ErrorResponse(Exception(WrongPath, 0), Some(400), LoginPhase)
    else
      var path := HandlerPath(config, request.target[1]);
      if !handlers.present(path) then ErrorResponse(Exception(NotImplemented, 500), None, LoginPhase)
      else match handlers.run(path)
        case Returned(data) => SuccessResponse(request.verb, data)
        case Raised(e) => ErrorResponse(e, None, LoginPhase)
  }

  /** The bearer token: the second space-separated field of the header, "" when there is none. */
  function BearerToken(header: Bytes): Bytes
  {
    var fields := Explode<Octet>(' ', header);
    if |fields| >= 2 then fields[1] else []
  }

  /** The gate for a request that is not a login: token, then type, then scope. */
  function Protected(prims: Primitives, st: CodecState, request: Request, clock: int): Outcome
  {
    if request.authorization.None? then
      Ended(ErrorResponse(Exception(HeaderNoAuthorization, 0), Some(401), Phases[1]))
    else
      TokenOutcome(DecodeSpec(prims, st, BearerToken(request.authorization.value), clock).0, request.version)
  }

  /** What the gate does with the decoded bearer token of a request for API version `version`. */
  function TokenOutcome(decoded: Result<Claims, Failure>, version: string): Outcome
  {
    match decoded
    case Err(JwtFailure(e)) => Ended(ErrorResponse(Exception(Message(e), Code(e)), Some(401), Phases[2]))
    case Err(TypeFailure) => Crashed
    case Ok(p) =>
      if Lookup(p, "type") != JStr(TypeClaim(AccessToken)) then
        Ended(ErrorResponse(Exception(NoAccessToken, 0), Some(401), Phases[2]))
      else if Lookup(p, "scope") != JStr(version) then
        Ended(ErrorResponse(Exception("Given access token is not allowed to use '" + version + "' version", 403), None, Phases[3]))
      else Admitted(p)
  }

  /** The constructor of `Authorization`, as a function of its inputs. */
  function Gate(prims: Primitives, clock: int, config: Config, request: Request, handlers: Handlers): Outcome
  {
    match GateCodec(config)
    case Err(e) => Thrown(e)
    case Ok(st) =>
      if |request.target| > 0 && request.target[0] == AuthKey then Ended(Login(config, request, handlers))
      else Protected(prims, st, request, clock)
  }

  /** `jwtEncode`: the payload with its `type` claim set from the kind, whatever it held. */
  function TypedPayload(kind: TokenKind, payload: Claims): Claims
  {
    payload["type" := JStr(TypeClaim(kind))]
  }

  /** What `jwtDecode` gives: the payload, a 401 exception, or an uncaught `TypeError`. */
  datatype Checked = Valid(payload: Claims) | Invalid(e: Exception) | Fatal

  /** `jwtDecode` after the codec: failures re-wrapped as 401, then the `type` claim checked. */
  function CheckDecoded(decoded: Result<Claims, Failure>, kind: TokenKind): Checked
  {
    match decoded
    case Err(JwtFailure(e)) => Invalid(Exception("Invalid refresh token: " + Message(e), 401))
    case Err(TypeFailure) => Fatal
    case Ok(p) =>
      if Lookup(p, "type") != JStr(TypeClaim(kind)) then
        Invalid(Exception("Invalid JWT token type, use '" + KindName(kind) + "'.", 401))
      else Valid(p)
  }

  class Authorization {
    var expiration: int
    const jwt: Codec
    var payload: Option<Claims>

    constructor Init(expiration: int, jwt: Codec)
      ensures this.expiration == expiration && this.jwt == jwt && payload.None?
    {
      this.expiration := expiration;
      this.jwt := jwt;
      payload := None;
    }

    /**
     * `new Authorization(config, request, response)`: builds the codec, then
     * routes the request; every refusal ends `response`.
     */
    static method New(prims: Primitives, clock: int, config: Config, request: Request, handlers: Handlers, response: Response)
      returns (out: Outcome, auth: Authorization?)
      requires response.ending.None? && response.verb == request.verb
      modifies response
      ensures out == Gate(prims, clock, config, request, handlers)
      ensures out.Ended? ==> response.ending == Some(out.ending)
      ensures !out.Ended? ==> response.ending.None?
      ensures out.Admitted? ==>
        auth != null && fresh(auth) && auth.payload == Some(out.payload) && auth.expiration == config.expiration
    {
      var built := Codec.Create(prims, config.secret, "HS384", config.expiration, 3, None);
      if built.Failed? {
        return Thrown(built.error), null;
      }
      var codec := built.codec;
      var a := new Authorization.Init(config.expiration, codec);
      if |request.target| > 0 && request.target[0] == AuthKey {
        a.Authorize(config, request, handlers, response);
        return Ended(response.ending.value), a;
      }
      if request.authorization.None? {
        response.Phase(Phases[1]);
        response.Error(Exception(HeaderNoAuthorization, 0), Some(401));
        return Ended(response.ending.value), a;
      }
      var fields := Explode<Octet>(' ', request.authorization.value);
      var token := if |fields| >= 2 then fields[1] else [];
      var decoded := codec.Decode(token, clock);
      out := a.Screen(decoded, request.version, response);
      auth := a;
    }

    /** The checks on the decoded bearer token: the codec's verdict, then the `type` claim, then the `scope` claim. */
    method Screen(decoded: Result<Claims, Failure>, version: string, response: Response) returns (out: Outcome)
      requires response.ending.None?
      modifies this, response
      ensures out == TokenOutcome(decoded, version)
      ensures out.Ended? ==> response.ending == Some(out.ending)
      ensures !out.Ended? ==> response.ending.None?
      ensures out.Admitted? ==> payload == Some(out.payload)
      ensures expiration == old(expiration)
    {
      match decoded {
        case Err(f) =>
          if f.TypeFailure? {
            return Crashed;
          }
          response.Phase(Phases[2]);
          response.Error(Exception(Message(f.error), Code(f.error)), Some(401));
          return Ended(response.ending.value);
        case Ok(p) =>
          if Lookup(p, "type") != JStr(TypeClaim(AccessToken)) {
            response.Phase(Phases[2]);
            response.Error(Exception(NoAccessToken, 0), Some(401));
            return Ended(response.ending.value);
          }
          if Lookup(p, "scope") != JStr(version) {
            response.Phase(Phases[3]);
            response.Error(Exception("Given access token is not allowed to use '" + version + "' version", 403), None);
            return Ended(response.ending.value);
          }
          payload := Some(p);
          return Admitted(p);
      }
    }

    /** `authorize`: the login flow; it ends `response`. */
    method Authorize(config: Config, request: Request, handlers: Handlers, response: Response)
      requires response.ending.None? && response.verb == request.verb
      modifies response
      ensures response.ending == Some(Login(config, request, handlers))
    {
      response.Phase(LoginPhase);
      var path := config.authPath + "/";
      var verb := request.verb;
      if verb != "post" {
        response.Error(Exception(WrongMethod, 405), None);
        return;
      }
      if |request.target| < 2 || request.target[1] !in ["token", "authorize", "update"] {
        response.Error(Exception(WrongPath, 0), Some(400));
        return;
      }
      path := path + request.target[1] + "/";
      path := path + verb + ".php";
      assert path == HandlerPath(config, request.target[1]);
      if !handlers.present(path) {
        response.Error(Exception(NotImplemented, 500), None);
        return;
      }
      match handlers.run(path) {
        case Returned(data) => response.Success(data);
        case Raised(e) => response.Error(e, None);
      }
    }

    /** `jwtEncode(kind, payload)`. */
    method JwtEncode(kind: TokenKind, payload: Claims, clock: int) returns (r: Result<Bytes, Failure>)
      modifies jwt
      ensures (r, jwt.State()) == EncodeSpec(jwt.prims, old(jwt.State()), TypedPayload(kind, payload), map[], clock)
    {
      r := jwt.Encode(payload["type" := JStr(TypeClaim(kind))], map[], clock);
    }

    /** `jwtDecode(candidate, kind)`. */
    method JwtDecode(candidate: Bytes, kind: TokenKind, clock: int) returns (r: Checked)
      modifies jwt
      ensures var (d, st) := DecodeSpec(jwt.prims, old(jwt.State()), candidate, clock);
        r == CheckDecoded(d, kind) && jwt.State() == st
    {
      var decoded := jwt.Decode(candidate, clock);
      match decoded {
        case Err(f) =>
          if f.TypeFailure? {
            return Fatal;
          }
          return Invalid(Exception("Invalid refresh token: " + Message(f.error), 401));
        case Ok(p) =>
          if Lookup(p, "type") != JStr(TypeClaim(kind)) {
            return Invalid(Exception("Invalid JWT token type, use '" + KindName(kind) + "'.", 401));
          }
          return Valid(p);
      }
    }
  }
}
