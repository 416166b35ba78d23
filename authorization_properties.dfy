/**
 * What the request gate of AuthorizationJWT.php guarantees: which requests
 * it admits, how it refuses the others, and that a token issued by its own
 * codec for the requested version admits the request while it is fresh.
 */
module AuthorizationProperties {
  import opened Results
  import opened PhpStrings
  import opened Jwt
  import opened ResponseJson
  import opened AuthorizationJwt
  import JwtProperties

  /**
   * The gate's codec signs with HS384, allows `expiration` seconds and a
   * leeway of 3; building it fails exactly on an empty secret (10) or an
   * expiration below one second (30), and the gate then throws that error.
   */
  lemma GateCodecSettings(prims: Primitives, clock: int, config: Config, request: Request, handlers: Handlers)
    ensures GateCodec(config).Ok? <==> !KeyArgEmpty(config.secret) && config.expiration >= 1
    ensures GateCodec(config).Ok? ==>
      var st := GateCodec(config).value;
      st.algo == HS384 && IsHmac(st.algo) && st.maxAge == config.expiration && st.leeway == 3 && st.timestamp.None?
    ensures KeyArgEmpty(config.secret) ==> Gate(prims, clock, config, request, handlers) == Thrown(KeyEmpty)
    ensures !KeyArgEmpty(config.secret) && config.expiration < 1 ==>
      Gate(prims, clock, config, request, handlers) == Thrown(InvalidMaxAge)
  {
    assert AlgoOf("HS384") == Some(HS384);
  }

  /**
   * The login flow always ends in phase [2]: a method other than POST is
   * refused with 405, an unknown sub-endpoint with 400 (body code 1000), a
   * missing handler file with 500; a handler that returns makes the response
   * a 201 success carrying its data, one that throws ends it with its exception.
   */
  lemma LoginOutcomes(config: Config, request: Request, handlers: Handlers)
    ensures var e := Login(config, request, handlers);
      && (e.ErrorEnding? ==> e.phase == LoginPhase && e.code != 0)
      && (request.verb != "post" ==> e == ErrorEnding(405, 405, WrongMethod, LoginPhase))
      && (request.verb == "post" && (|request.target| < 2 || request.target[1] !in ["token", "authorize", "update"]) ==>
            e == ErrorEnding(400, 1000, WrongPath, LoginPhase))
      && (e.SuccessEnding? <==>
            && request.verb == "post"
            && |request.target| >= 2 && request.target[1] in ["token", "authorize", "update"]
            && handlers.present(HandlerPath(config, request.target[1]))
            && handlers.run(HandlerPath(config, request.target[1])).Returned?)
      && (e.SuccessEnding? ==> e.status == 201 && e.data == handlers.run(HandlerPath(config, request.target[1])).data)
    ensures request.verb == "post" && |request.target| >= 2 && request.target[1] in ["token", "authorize", "update"] ==>
      var path := HandlerPath(config, request.target[1]);
      && (!handlers.present(path) ==> Login(config, request, handlers) == ErrorEnding(500, 500, NotImplemented, LoginPhase))
      && (handlers.present(path) && handlers.run(path).Raised? ==>
            Login(config, request, handlers) == ErrorResponse(handlers.run(path).e, None, LoginPhase))
  {
  }

  /** A request under `auth` goes to the login flow whatever its `Authorization` header. */
  lemma LoginIgnoresToken(prims: Primitives, clock: int, config: Config, request: Request, handlers: Handlers,
                          header: Option<Bytes>)
    requires GateCodec(config).Ok? && |request.target| > 0 && request.target[0] == AuthKey
    ensures Gate(prims, clock, config, request, handlers).Ended?
    ensures Gate(prims, clock, config, request.(authorization := header), handlers)
            == Gate(prims, clock, config, request, handlers)
  {
  }

  /** Without an `Authorization` header the request is refused in phase [1.1] with 401 and body code 1000. */
  lemma MissingHeaderRefused(prims: Primitives, st: CodecState, request: Request, clock: int)
    requires request.authorization.None?
    ensures Protected(prims, st, request, clock)
            == Ended(ErrorEnding(401, 1000, HeaderNoAuthorization, "[1.1] Authorize"))
  {
  }

  /**
   * A token the codec refuses ends the request in phase [1.2] with status
   * 401, whatever the codec's own code, which the body carries.
   */
  lemma CodecFailureRefused(prims: Primitives, st: CodecState, request: Request, clock: int, e: JwtError)
    requires request.authorization.Some?
    requires DecodeSpec(prims, st, BearerToken(request.authorization.value), clock).0 == Err(JwtFailure(e))
    ensures Protected(prims, st, request, clock)
            == Ended(ErrorEnding(401, Code(e), Message(e), "[1.2] Authorize > JSON WEB Token"))
  {
    assert Protected(prims, st, request, clock) == Ended(ErrorResponse(Exception(Message(e), Code(e)), Some(401), Phases[2]));
  }

  /**
   * A bearer token whose header names a supported `alg` but an array as
   * `kid`, or a non-empty array as `alg`, raises a `TypeError` that nothing
   * catches: the request dies instead of being refused with 401.
   */
  lemma ArrayOffsetCrashes(prims: Primitives, st: CodecState, request: Request, clock: int,
                           h: Bytes, b: Bytes, s: Bytes, header: Claims)
    requires request.authorization.Some? && BearerToken(request.authorization.value) == Join(Join(h, b), s)
    requires Dot !in h && Dot !in b && ParseSegment(prims, h) == Some(header)
    requires Lookup(header, "alg") == JArray(false)
      || (Lookup(header, "alg").JStr? && AlgoOf(Lookup(header, "alg").s).Some? && "kid" in header && header["kid"].JArray?)
    ensures Protected(prims, st, request, clock) == Crashed
  {
    JwtProperties.ArrayOffsetsRaise(st, header);
    assert DecodeSegments(prims, st, h, b, s, clock).0 == Err(TypeFailure);
    JwtProperties.DecodeSplitsAtFirstTwoDots(prims, st, h, b, s, clock);
    assert DecodeSpec(prims, st, BearerToken(request.authorization.value), clock).0 == Err(TypeFailure);
  }

  /** A valid refresh token does not open the API: it is refused in phase [1.2] with 401, before the scope is looked at. */
  lemma RefreshTokenRefused(prims: Primitives, st: CodecState, request: Request, clock: int, p: Claims)
    requires request.authorization.Some?
    requires DecodeSpec(prims, st, BearerToken(request.authorization.value), clock).0 == Ok(TypedPayload(RefreshToken, p))
    ensures Protected(prims, st, request, clock)
            == Ended(ErrorEnding(401, 1000, NoAccessToken, "[1.2] Authorize > JSON WEB Token"))
  {
    assert Lookup(TypedPayload(RefreshToken, p), "type") == JStr("refresh");
    WrongTypeRefused(prims, st, request, clock, TypedPayload(RefreshToken, p));
  }

  /** A decoded token whose `type` is not `access` is refused in phase [1.2] with 401. */
  lemma WrongTypeRefused(prims: Primitives, st: CodecState, request: Request, clock: int, p: Claims)
    requires request.authorization.Some?
    requires DecodeSpec(prims, st, BearerToken(request.authorization.value), clock).0 == Ok(p)
    requires Lookup(p, "type") != JStr("access")
    ensures Protected(prims, st, request, clock)
            == Ended(ErrorEnding(401, 1000, NoAccessToken, "[1.2] Authorize > JSON WEB Token"))
  {
  }

  /** An access token for another API version is refused in phase [1.3] with 403. */
  lemma ScopeMismatchForbidden(prims: Primitives, st: CodecState, request: Request, clock: int, p: Claims)
    requires request.authorization.Some?
    requires DecodeSpec(prims, st, BearerToken(request.authorization.value), clock).0 == Ok(p)
    requires Lookup(p, "type") == JStr("access") && Lookup(p, "scope") != JStr(request.version)
    ensures var out := Protected(prims, st, request, clock);
      out.Ended? && out.ending.status == 403 && out.ending.code == 403 && out.ending.phase == "[1.3] Authorize > Scope"
  {
  }

  /**
   * The gate admits a request exactly when its bearer token decodes, is an
   * access token and is scoped to the requested version; the payload it
   * keeps is the decoded one.
   */
  lemma AdmittedExactly(prims: Primitives, st: CodecState, request: Request, clock: int, p: Claims)
    ensures Protected(prims, st, request, clock) == Admitted(p) <==>
      && request.authorization.Some?
      && DecodeSpec(prims, st, BearerToken(request.authorization.value), clock).0 == Ok(p)
      && Lookup(p, "type") == JStr("access")
      && Lookup(p, "scope") == JStr(request.version)
  {
  }

  /** Every refusal of the token gate is a 401 or a 403, never a success. */
  lemma ProtectedRefusals(prims: Primitives, st: CodecState, request: Request, clock: int)
    ensures var out := Protected(prims, st, request, clock);
      out.Ended? ==> out.ending.ErrorEnding? && out.ending.status in {401, 403}
  {
    if request.authorization.Some? {
      TokenRefusals(DecodeSpec(prims, st, BearerToken(request.authorization.value), clock).0, request.version);
    }
  }

  lemma TokenRefusals(decoded: Result<Claims, Failure>, version: string)
    ensures var out := TokenOutcome(decoded, version);
      out.Ended? ==> out.ending.ErrorEnding? && out.ending.status in {401, 403}
  {
  }

  /** The token is the second space-separated field: `scheme token` gives `token` back. */
  lemma {:induction false} BearerTokenOf(scheme: Bytes, token: Bytes)
    requires ' ' !in scheme && ' ' !in token
    ensures BearerToken(scheme + [' '] + token) == token
  {
    var header := scheme + [' '] + token;
    FindAfter<Octet>(' ', scheme, token);
    assert Find<Octet>(token, ' ').None?;
    assert Explode<Octet>(' ', token) == [token];
    assert Explode<Octet>(' ', header) == [scheme, token];
  }

  /** `jwtEncode` sets the `type` claim from the kind and leaves every other claim as given. */
  lemma TypedPayloadClaims(kind: TokenKind, payload: Claims)
    ensures Lookup(TypedPayload(kind, payload), "type") == JStr(TypeClaim(kind))
    ensures forall k :: k != "type" ==> Lookup(TypedPayload(kind, payload), k) == Lookup(payload, k)
    ensures forall k :: k != "type" ==> (IsSet(TypedPayload(kind, payload), k) <==> IsSet(payload, k))
  {
  }

  /**
   * `jwtDecode` accepts exactly a decoded token of the asked kind; every
   * refusal is a 401 exception, and only a timestamp claim PHP cannot add
   * escapes as a fatal error.
   */
  lemma CheckDecodedOutcomes(decoded: Result<Claims, Failure>, kind: TokenKind)
    ensures CheckDecoded(decoded, kind).Valid? <==> decoded.Ok? && Lookup(decoded.value, "type") == JStr(TypeClaim(kind))
    ensures CheckDecoded(decoded, kind).Valid? ==> CheckDecoded(decoded, kind).payload == decoded.value
    ensures CheckDecoded(decoded, kind).Invalid? ==> CheckDecoded(decoded, kind).e.code == 401
    ensures CheckDecoded(decoded, kind).Fatal? <==> decoded == Err(TypeFailure)
  {
  }

  /** A token typed for one kind is refused when the other kind is asked for. */
  lemma KindsNotInterchangeable(p: Claims, issued: TokenKind, asked: TokenKind)
    ensures CheckDecoded(Ok(TypedPayload(issued, p)), asked).Valid? <==> issued == asked
  {
    assert TypeClaim(issued) == TypeClaim(asked) ==> issued == asked;
  }

  /** Tokens of `encode` hold no space: base64url segments joined by dots. */
  lemma {:induction false} EncodedTokenHasNoSpace(prims: Primitives, st: CodecState, payload: Claims, extra: Claims, clock: int)
    requires EncodeSpec(prims, st, payload, extra, clock).0.Ok?
    ensures ' ' !in EncodeSpec(prims, st, payload, extra, clock).0.value
  {
    var (r, st1) := EncodeSpec(prims, st, payload, extra, clock);
    var header := Header(st.algo, extra);
    assert SelectKey(st, header) == Ok(st1);
    var p := WithDefaultExp(st1, payload, clock);
    var h := Segment(prims, header);
    var b := Segment(prims, p);
    var sig := SignSpec(prims, st1, Join(h, b)).value;
    assert r.value == Join(Join(h, b), Base64.UrlSafeEncode(sig));
    Base64.NoDotInUrlSafe(Serialize(prims, header));
    Base64.NoDotInUrlSafe(Serialize(prims, p));
    Base64.NoDotInUrlSafe(sig);
    NoSpaceJoined(h, b, Base64.UrlSafeEncode(sig));
  }

  lemma NoSpaceJoined(h: Bytes, b: Bytes, s: Bytes)
    requires ' ' !in h && ' ' !in b && ' ' !in s
    ensures ' ' !in Join(Join(h, b), s)
  {
  }

  /** Without extra header entries `encode` leaves the codec state alone, and its token decodes under that state. */
  lemma PlainTokenRoundTrip(prims: Primitives, st: CodecState, payload: Claims, issued: int, now: int)
    requires JwtProperties.JsonRoundTrip(prims) && IsHmac(st.algo)
    requires EncodeSpec(prims, st, payload, map[], issued).0.Ok?
    ensures EncodeSpec(prims, st, payload, map[], issued).1 == st
    ensures DecodeSpec(prims, st, EncodeSpec(prims, st, payload, map[], issued).0.value, now).0
            == match TimestampFailure(st, WithDefaultExp(st, payload, issued), Now(st, now))
               case Some(f) => Err(f)
               case None => Ok(WithDefaultExp(st, payload, issued))
  {
    var header := Header(st.algo, map[]);
    assert "kid" !in header;
    assert SelectKey(st, header) == Ok(st);
    var (r, st1) := EncodeSpec(prims, st, payload, map[], issued);
    assert st1 == st;
    var p := WithDefaultExp(st1, payload, issued);
    JwtProperties.EncodeDecodeRoundTrip(prims, st, payload, map[], issued, now);
    var d := DecodeSpec(prims, st1, r.value, now);
    assert d == (match TimestampFailure(st1, p, Now(st1, now)) case Some(f) => Err(f) case None => Ok(p), st1);
  }

  /** The payload `encode` signs when none of `exp`, `iat` and `nbf` is given, and when it expires. */
  lemma FreshPayload(st: CodecState, payload: Claims, issued: int, now: int)
    requires st.timestamp.None?
    requires !IsSet(payload, "exp") && !IsSet(payload, "iat") && !IsSet(payload, "nbf")
    ensures Now(st, now) == now
    ensures WithDefaultExp(st, payload, issued) == payload["exp" := JInt(issued + st.maxAge)]
    ensures TimestampFailure(st, WithDefaultExp(st, payload, issued), now)
            == if now < issued + st.maxAge + st.leeway then None else Some(JwtFailure(TokenExpired))
  {
    JwtProperties.DefaultExpiryWindow(st, payload, issued, now);
  }

  /**
   * A token the gate's codec issued at `issued` for a payload without
   * timestamp claims decodes to that payload with its default `exp` until
   * `maxAge + leeway` seconds later, and as expired (52) from then on.
   */
  lemma IssuedTokenDecodes(prims: Primitives, st: CodecState, payload: Claims, issued: int, now: int)
    requires JwtProperties.JsonRoundTrip(prims) && IsHmac(st.algo) && st.timestamp.None?
    requires !IsSet(payload, "exp") && !IsSet(payload, "iat") && !IsSet(payload, "nbf")
    requires EncodeSpec(prims, st, payload, map[], issued).0.Ok?
    ensures EncodeSpec(prims, st, payload, map[], issued).1 == st
    ensures DecodeSpec(prims, st, EncodeSpec(prims, st, payload, map[], issued).0.value, now).0
            == if now < issued + st.maxAge + st.leeway then Ok(payload["exp" := JInt(issued + st.maxAge)])
               else Err(JwtFailure(TokenExpired))
  {
    FreshPayload(st, payload, issued, now);
    PlainTokenRoundTrip(prims, st, payload, issued, now);
  }

  /** The token the gate's codec issues: it holds no space, and how it decodes at `now`. */
  lemma IssuedAccessToken(prims: Primitives, issued: int, now: int, st: CodecState, payload: Claims)
    requires JwtProperties.JsonRoundTrip(prims) && IsHmac(st.algo) && st.timestamp.None?
    requires !IsSet(payload, "exp") && !IsSet(payload, "iat") && !IsSet(payload, "nbf")
    requires EncodeSpec(prims, st, TypedPayload(AccessToken, payload), map[], issued).0.Ok?
    ensures var token := EncodeSpec(prims, st, TypedPayload(AccessToken, payload), map[], issued).0.value;
      && ' ' !in token
      && DecodeSpec(prims, st, token, now).0
         == if now < issued + st.maxAge + st.leeway
            then Ok(TypedPayload(AccessToken, payload)["exp" := JInt(issued + st.maxAge)])
            else Err(JwtFailure(TokenExpired))
  {
    var typed := TypedPayload(AccessToken, payload);
    TypedPayloadClaims(AccessToken, payload);
    EncodedTokenHasNoSpace(prims, st, typed, map[], issued);
    IssuedTokenDecodes(prims, st, typed, issued, now);
  }

  /** Before it expires, the token the gate's codec issues decodes to the payload it signed. */
  lemma FreshAccessTokenDecodes(prims: Primitives, issued: int, now: int, st: CodecState, payload: Claims)
    requires JwtProperties.JsonRoundTrip(prims) && IsHmac(st.algo) && st.timestamp.None?
    requires !IsSet(payload, "exp") && !IsSet(payload, "iat") && !IsSet(payload, "nbf")
    requires EncodeSpec(prims, st, TypedPayload(AccessToken, payload), map[], issued).0.Ok?
    requires now < issued + st.maxAge + st.leeway
    ensures ' ' !in EncodeSpec(prims, st, TypedPayload(AccessToken, payload), map[], issued).0.value
    ensures DecodeSpec(prims, st, EncodeSpec(prims, st, TypedPayload(AccessToken, payload), map[], issued).0.value, now).0
            == Ok(TypedPayload(AccessToken, payload)["exp" := JInt(issued + st.maxAge)])
  {
    IssuedAccessToken(prims, issued, now, st, payload);
  }

  /** The signed payload of an access token still reads as an access token with its own scope. */
  lemma StampedAccessPayload(payload: Claims, exp: int)
    ensures var p := TypedPayload(AccessToken, payload)["exp" := JInt(exp)];
      Lookup(p, "type") == JStr("access") && Lookup(p, "scope") == Lookup(payload, "scope")
  {
  }

  /**
   * End to end: take the codec the gate builds from `config` (HS384, maxAge
   * = expiration, leeway 3), and an access token it issued at `issued` for
   * the requested version, with no timestamp claims of its own. Sent as
   * `<scheme> <token>` to an API endpoint before `maxAge + leeway` seconds
   * have passed, it admits the request with the signed payload plus its
   * default `exp`.
   */
  lemma IssuedAccessTokenAdmitted(prims: Primitives, issued: int, now: int, config: Config, st: CodecState,
                                  request: Request, handlers: Handlers, payload: Claims, scheme: Bytes)
    requires JwtProperties.JsonRoundTrip(prims)
    requires GateCodec(config) == Ok(st)
    requires !(|request.target| > 0 && request.target[0] == AuthKey)
    requires Lookup(payload, "scope") == JStr(request.version)
    requires !IsSet(payload, "exp") && !IsSet(payload, "iat") && !IsSet(payload, "nbf")
    requires ' ' !in scheme
    requires var token := EncodeSpec(prims, st, TypedPayload(AccessToken, payload), map[], issued).0;
      token.Ok? && request.authorization == Some(scheme + [' '] + token.value)
    requires now < issued + st.maxAge + st.leeway
    ensures Gate(prims, now, config, request, handlers)
            == Admitted(TypedPayload(AccessToken, payload)["exp" := JInt(issued + st.maxAge)])
  {
    GateCodecSettings(prims, now, config, request, handlers);
    var token := EncodeSpec(prims, st, TypedPayload(AccessToken, payload), map[], issued).0.value;
    var p := TypedPayload(AccessToken, payload)["exp" := JInt(issued + st.maxAge)];
    FreshAccessTokenDecodes(prims, issued, now, st, payload);
    StampedAccessPayload(payload, issued + st.maxAge);
    GateAdmitsToken(prims, now, config, st, request, handlers, scheme, token, p);
  }

  /** The same token sent `maxAge + leeway` seconds or more after it was issued is refused as expired (52, status 401). */
  lemma IssuedAccessTokenExpires(prims: Primitives, issued: int, now: int, config: Config, st: CodecState,
                                 request: Request, handlers: Handlers, payload: Claims, scheme: Bytes)
    requires JwtProperties.JsonRoundTrip(prims)
    requires GateCodec(config) == Ok(st)
    requires !(|request.target| > 0 && request.target[0] == AuthKey)
    requires !IsSet(payload, "exp") && !IsSet(payload, "iat") && !IsSet(payload, "nbf")
    requires ' ' !in scheme
    requires var token := EncodeSpec(prims, st, TypedPayload(AccessToken, payload), map[], issued).0;
      token.Ok? && request.authorization == Some(scheme + [' '] + token.value)
    requires now >= issued + st.maxAge + st.leeway
    ensures Gate(prims, now, config, request, handlers)
            == Ended(ErrorEnding(401, Code(TokenExpired), Message(TokenExpired), "[1.2] Authorize > JSON WEB Token"))
  {
    GateCodecSettings(prims, now, config, request, handlers);
    var token := EncodeSpec(prims, st, TypedPayload(AccessToken, payload), map[], issued).0.value;
    IssuedAccessToken(prims, issued, now, st, payload);
    GateRefusesToken(prims, now, config, st, request, handlers, scheme, token, TokenExpired);
  }

  /** An API request carrying `<scheme> <token>` is admitted when the token decodes to an access token for its version. */
  lemma GateAdmitsToken(prims: Primitives, now: int, config: Config, st: CodecState, request: Request,
                        handlers: Handlers, scheme: Bytes, token: Bytes, p: Claims)
    requires GateCodec(config) == Ok(st)
    requires !(|request.target| > 0 && request.target[0] == AuthKey)
    requires ' ' !in scheme && ' ' !in token && request.authorization == Some(scheme + [' '] + token)
    requires Lookup(p, "type") == JStr("access") && Lookup(p, "scope") == JStr(request.version)
    requires DecodeSpec(prims, st, token, now).0 == Ok(p)
    ensures Gate(prims, now, config, request, handlers) == Admitted(p)
  {
    BearerTokenOf(scheme, token);
    AdmittedExactly(prims, st, request, now, p);
  }

  /** An API request carrying `<scheme> <token>` is refused with 401 when the codec refuses the token. */
  lemma GateRefusesToken(prims: Primitives, now: int, config: Config, st: CodecState, request: Request,
                         handlers: Handlers, scheme: Bytes, token: Bytes, e: JwtError)
    requires GateCodec(config) == Ok(st)
    requires !(|request.target| > 0 && request.target[0] == AuthKey)
    requires ' ' !in scheme && ' ' !in token && request.authorization == Some(scheme + [' '] + token)
    requires DecodeSpec(prims, st, token, now).0 == Err(JwtFailure(e))
    ensures Gate(prims, now, config, request, handlers)
            == Ended(ErrorEnding(401, Code(e), Message(e), "[1.2] Authorize > JSON WEB Token"))
  {
    BearerTokenOf(scheme, token);
    CodecFailureRefused(prims, st, request, now, e);
  }
}
