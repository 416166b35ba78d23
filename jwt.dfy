/**
 * The JSON Web Token codec of `libs/JWT.php`: compact JWS tokens
 * (RFC 7515 section 7.1) signed with HMAC or RSA (RFC 7518 sections 3.2
 * and 3.3), a `kid` key table, configuration checks and the timestamp
 * window, with the failure codes of `ExceptionJWT`.
 *
 * The hash and signature functions and PHP's JSON functions are not
 * modelled; they are the fields of a `Primitives` value that every
 * operation receives.
 */
module Jwt {
  import opened Results
  import opened PhpStrings
  import opened PhpArrays
  import Base64

  // ---------------------------------------------------------------------
  // Errors
  // ---------------------------------------------------------------------

  /** The failures of the codec, one per entry of the `ExceptionJWT` table. */
  datatype JwtError =
    | KeyEmpty
    | KeyInvalid
    | AlgoUnsupported(detail: string)
    | AlgoMissing
    | InvalidMaxAge
    | InvalidLeeway
    | JsonFailed
    | JsonDecode
    | TokenInvalid
    | TokenExpired
    | TokenNotNow
    | SignatureFailed
    | KidUnknown

  /** The identifier the exception is raised with (the key of its table entry). */
  function Id(e: JwtError): string
  {
    match e
    case KeyEmpty => "key_empty"
    case KeyInvalid => "key_invalid"
    case AlgoUnsupported(_) => "algo_unsupported"
    case AlgoMissing => "algo_missing"
    case InvalidMaxAge => "invalid_maxage"
    case InvalidLeeway => "invalid_leeway"
    case JsonFailed => "json_failed"
    case JsonDecode => "json_decode"
    case TokenInvalid => "token_invalid"
    case TokenExpired => "token_expired"
    case TokenNotNow => "token_not_now"
    case SignatureFailed => "signature_failed"
    case KidUnknown => "kid_unknown"
  }

  /** The exception code. */
  function Code(e: JwtError): (c: int)
    ensures 10 <= c <= 70
  {
    match e
    case KeyEmpty => 10
    case KeyInvalid => 12
    case AlgoUnsupported(_) => 20
    case AlgoMissing => 22
    case InvalidMaxAge => 30
    case InvalidLeeway => 32
    case JsonFailed => 40
    case JsonDecode => 40
    case TokenInvalid => 50
    case TokenExpired => 52
    case TokenNotNow => 54
    case SignatureFailed => 60
    case KidUnknown => 70
  }

  /** The exception message; `%s` in the template is replaced by the detail. */
  function Message(e: JwtError): string
  {
    match e
    case KeyEmpty => "Signing key cannot be empty."
    case KeyInvalid => "Invalid key: Should be resource of private key."
    case AlgoUnsupported(d) => "Unsupported algo " + d + "."
    case AlgoMissing => "Missing header algo."
    case InvalidMaxAge => "Token maxAge should be greater than 0."
    case InvalidLeeway => "Token leeway should be between 0-120."
    case JsonFailed => "JSON encode failed."
    case JsonDecode => "JSON decode failed (JWT can be corrupted)."
    case TokenInvalid => "Token contains incomplete segments."
    case TokenExpired => "Token expired."
    case TokenNotNow => "Token not active yet."
    case SignatureFailed => "Signature failed (JWT can be corrupted)."
    case KidUnknown => "Token ID key is unknown."
  }

  /**
   * Why `encode` or `decode` gave up: an `ExceptionJWT`, or a PHP
   * `TypeError`, raised when a header uses an array as an `alg` or `kid`
   * offset, or when a timestamp claim is not a number and cannot be added to
   * an integer.
   */
  datatype Failure = JwtFailure(error: JwtError) | TypeFailure

  // ---------------------------------------------------------------------
  // Claims and headers
  // ---------------------------------------------------------------------

  /**
   * A decoded JSON value as the codec inspects it. A float is held as its
   * integer part (truncated toward zero) and whether it has a fraction, which
   * is all an array offset or `empty()` sees of it; lists and objects both
   * decode to PHP arrays, of which the codec only asks whether they are empty.
   */
  datatype Json = JNull | JBool(b: bool) | JInt(i: int) | JStr(s: string)
                | JFloat(whole: int, fractional: bool) | JArray(isEmpty: bool)

  /** A JSON object decoded to an associative array: a payload or a header. */
  type Claims = map<string, Json>

  /** `$c[k]`: a missing key reads as null. */
  function Lookup(c: Claims, k: string): Json
  {
    if k in c then c[k] else JNull
  }

  /** `isset($c[k])`: present and not null. */
  predicate IsSet(c: Claims, k: string)
  {
    k in c && c[k] != JNull
  }

  /** PHP `empty()` on a value. */
  predicate IsEmpty(v: Json)
  {
    match v
    case JNull => true
    case JBool(b) => !b
    case JInt(i) => i == 0
    case JStr(s) => IsEmptyString(s)
    case JFloat(w, f) => w == 0 && !f
    case JArray(e) => e
  }

  /**
   * The integer PHP adds to a timestamp offset: null as 0, integers and
   * booleans as they are, a string by the integer it starts with (after
   * whitespace and a sign). A string with no number in front and an array
   * raise a `TypeError`; floats and float-shaped strings are outside this
   * model. Both give `None`.
   */
  function ClaimNumber(v: Json): Option<int>
  {
    match v
    case JNull => Some(0)
    case JBool(b) => Some(if b then 1 else 0)
    case JInt(i) => Some(i)
    case JStr(s) => (match NumericPrefix(s) case IntPrefix(n) => Some(n) case _ => None)
    case JFloat(_, _) => None
    case JArray(_) => None
  }

  // ---------------------------------------------------------------------
  // Algorithms and primitives
  // ---------------------------------------------------------------------

  /** The supported signing algorithms. */
  datatype Algo = HS256 | HS384 | HS512 | RS256 | RS384 | RS512

  function AlgoName(a: Algo): string
  {
    match a
    case HS256 => "HS256"
    case HS384 => "HS384"
    case HS512 => "HS512"
    case RS256 => "RS256"
    case RS384 => "RS384"
    case RS512 => "RS512"
  }

  /** The entry of the algorithm table a name selects, if any. */
  function AlgoOf(name: string): (r: Option<Algo>)
    ensures r.Some? ==> AlgoName(r.value) == name
    ensures r.None? ==> forall a: Algo :: AlgoName(a) != name
  {
    if name == "HS256" then Some(HS256)
    else if name == "HS384" then Some(HS384)
    else if name == "HS512" then Some(HS512)
    else if name == "RS256" then Some(RS256)
    else if name == "RS384" then Some(RS384)
    else if name == "RS512" then Some(RS512)
    else None
  }

  /** `substr($algo, 0, 2) === 'HS'`: the algorithm is an HMAC. */
  predicate IsHmac(a: Algo)
  {
    AlgoName(a)[..2] == "HS"
  }

  /**
   * The functions the codec calls but that are not modelled:
   * `hmac(algo, input, key)` is `hash_hmac` with raw output;
   * `keyLoads(key, pass)` says whether `openssl_get_privatekey` accepts the key;
   * `rsaSign(algo, input, key, pass)` is the signature `openssl_sign` writes;
   * `rsaVerify(algo, input, signature, key, pass)` says whether `openssl_verify`
   * returns 1 for the public half of that key;
   * `jsonEncode` is `json_encode` and `jsonDecode` is `json_decode(.., true)`
   * when that returns an array.
   */
  datatype Primitives = Primitives(
    hmac: (Algo, Bytes, Bytes) -> Bytes,
    keyLoads: (Bytes, Bytes) -> bool,
    rsaSign: (Algo, Bytes, Bytes, Bytes) -> Bytes,
    rsaVerify: (Algo, Bytes, Bytes, Bytes, Bytes) -> bool,
    jsonEncode: Claims -> Bytes,
    jsonDecode: Bytes -> Option<Claims>)

  const Dot: Octet := '.'

  /** `a . '.' . b` */
  function Join(a: Bytes, b: Bytes): Bytes
  {
    a + [Dot] + b
  }

  /** `urlSafeEncode` on an array: JSON with `\/` turned back into `/`, then base64url. */
  function Segment(prims: Primitives, c: Claims): Bytes
  {
    Base64.UrlSafeEncode(Serialize(prims, c))
  }

  function Serialize(prims: Primitives, c: Claims): Bytes
  {
    Replace<Octet>(prims.jsonEncode(c), "\\/", "/")
  }

  /** `urlSafeDecode` with JSON parsing: `None` when the result is not an array. */
  function ParseSegment(prims: Primitives, s: Bytes): Option<Claims>
  {
    prims.jsonDecode(Base64.UrlSafeDecode(s))
  }

  // ---------------------------------------------------------------------
  // Codec state
  // ---------------------------------------------------------------------

  /** The key given to the constructor: a key, or a table of keys by id. */
  datatype KeyArg = KeyString(key: Bytes) | KeyArray(table: PhpArray<Bytes>)

  /** PHP `empty()` on the constructor's key. */
  predicate KeyArgEmpty(k: KeyArg)
  {
    match k
    case KeyString(s) => IsEmptyString(s)
    case KeyArray(t) => t == []
  }

  /** The fields of a `JWT` object. */
  datatype CodecState = CodecState(
    key: Bytes,
    keys: PhpArray<Bytes>,
    timestamp: Option<int>,
    algo: Algo,
    maxAge: int,
    leeway: int,
    passphrase: Option<Bytes>)

  /** What a successful construction guarantees about the settings. */
  predicate Configured(st: CodecState)
  {
    1 <= st.maxAge && 0 <= st.leeway <= 120
  }

  /** The current time: the test timestamp unless it is null or 0, else the clock. */
  function Now(st: CodecState, clock: int): int
  {
    if st.timestamp.Some? && st.timestamp.value != 0 then st.timestamp.value else clock
  }

  /** The passphrase handed to OpenSSL: an empty passphrase ("" or "0" or null) becomes "". */
  function Pass(st: CodecState): Bytes
  {
    if st.passphrase.None? || IsEmptyString(st.passphrase.value) then [] else st.passphrase.value
  }

  // ---------------------------------------------------------------------
  // Operations, as functions of the state
  // ---------------------------------------------------------------------

  /** `validateConfig`: the first violated setting, if any. */
  function ConfigError(key: KeyArg, algo: string, maxAge: int, leeway: int): Option<JwtError>
  {
    if KeyArgEmpty(key) then Some(KeyEmpty)
    else if AlgoOf(algo).None? then Some(AlgoUnsupported(algo))
    else if maxAge < 1 then Some(InvalidMaxAge)
    else if leeway < 0 || leeway > 120 then Some(InvalidLeeway)
    else None
  }

  /**
   * The constructor: the checked settings, and for a key table its entries
   * registered as the `kid` table and its first value as the key.
   */
  function Construct(key: KeyArg, algo: string, maxAge: int, leeway: int, pass: Option<Bytes>)
    : (r: Result<CodecState, JwtError>)
    ensures r.Ok? ==> Configured(r.value) && AlgoName(r.value.algo) == algo
    ensures r.Ok? ==> r.value.timestamp.None? && r.value.passphrase == pass
    ensures r.Ok? ==> r.value.maxAge == maxAge && r.value.leeway == leeway
    ensures r.Ok? && key.KeyString? ==> r.value.key == key.key && r.value.keys == []
  {
    match ConfigError(key, algo, maxAge, leeway)
    case Some(e) => Err(e)
    case None =>
      var st := CodecState([], [], None, AlgoOf(algo).value, maxAge, leeway, pass);
      match key
      case KeyString(k) => Ok(st.(key := k))
      case KeyArray(t) => Ok(MergeKeys(st, t).(key := t[0].1))
  }

  /** `registerKeys`: `array_merge` of the table so far and the new entries. */
  function MergeKeys(st: CodecState, more: PhpArray<Bytes>): CodecState
  {
    st.(keys := ArrayMerge(st.keys, more))
  }

  /**
   * The array key a value is used as when it indexes an array: null as "",
   * booleans as 0 and 1, floats truncated toward zero, strings as
   * `KeyOfString` says; `None` for an array, which is an illegal offset.
   */
  function OffsetKey(v: Json): Option<ArrayKey>
  {
    match v
    case JNull => Some(StrKey(""))
    case JBool(b) => Some(IntKey(if b then 1 else 0))
    case JInt(i) => Some(IntKey(i))
    case JStr(s) => Some(KeyOfString(s))
    case JFloat(w, _) => Some(IntKey(w))
    case JArray(_) => None
  }

  /**
   * `validateKid`: with a `kid`, its non-empty key from the table becomes the
   * current key; an array `kid` raises a `TypeError`.
   */
  function SelectKey(st: CodecState, header: Claims): Result<CodecState, Failure>
  {
    if !IsSet(header, "kid") then Ok(st)
    else match OffsetKey(header["kid"])
      case None => Err(TypeFailure)
      case Some(k) =>
        match Get(st.keys, k)
        case None => Err(JwtFailure(KidUnknown))
        case Some(v) => if IsEmptyString(v) then Err(JwtFailure(KidUnknown)) else Ok(st.(key := v))
  }

  /**
   * `validateHeader`: `alg` must be a non-empty name from the table, then the
   * `kid` is checked; a non-empty array `alg` raises a `TypeError`.
   */
  function CheckHeader(st: CodecState, header: Claims): Result<CodecState, Failure>
  {
    var alg := Lookup(header, "alg");
    if IsEmpty(alg) then Err(JwtFailure(AlgoMissing))
    else if OffsetKey(alg).None? then Err(TypeFailure)
    else if !(alg.JStr? && AlgoOf(alg.s).Some?) then Err(JwtFailure(AlgoUnsupported("(header missing)")))
    else SelectKey(st, header)
  }

  /** The header `encode` writes: `typ` and `alg` first, then the extra entries, the first two winning. */
  function Header(algo: Algo, extra: Claims): Claims
  {
    extra + map["typ" := JStr("JWT"), "alg" := JStr(AlgoName(algo))]
  }

  /** The payload `encode` writes: `exp = now + maxAge` added when neither `iat` nor `exp` is set. */
  function WithDefaultExp(st: CodecState, payload: Claims, clock: int): Claims
  {
    if !IsSet(payload, "iat") && !IsSet(payload, "exp") then payload["exp" := JInt(Now(st, clock) + st.maxAge)]
    else payload
  }

  /** `sign`: HMAC with the key, or an RSA signature once the private key loads. */
  function SignSpec(prims: Primitives, st: CodecState, input: Bytes): Result<Bytes, JwtError>
  {
    if IsHmac(st.algo) then Ok(prims.hmac(st.algo, input, st.key))
    else if !prims.keyLoads(st.key, Pass(st)) then Err(KeyInvalid)
    else Ok(prims.rsaSign(st.algo, input, st.key, Pass(st)))
  }

  /** `verify`: the configured algorithm checks the signature segment against the input. */
  function VerifySpec(prims: Primitives, st: CodecState, input: Bytes, signature: Bytes): Result<bool, JwtError>
  {
    if IsHmac(st.algo) then Ok(Base64.UrlSafeEncode(prims.hmac(st.algo, input, st.key)) == signature)
    else if !prims.keyLoads(st.key, Pass(st)) then Err(KeyInvalid)
    else Ok(prims.rsaVerify(st.algo, input, Base64.UrlSafeDecode(signature), st.key, Pass(st)))
  }

  /** One row of the timestamp check table. */
  datatype TimeCheck = TimeCheck(claim: string, offset: int, error: JwtError)

  /** The check table of `validateTimestamps`, in the order it is walked. */
  function TimeChecks(st: CodecState): seq<TimeCheck>
  {
    [ TimeCheck("exp", st.leeway, TokenExpired),
      TimeCheck("iat", st.maxAge - st.leeway, TokenExpired),
      TimeCheck("nbf", st.maxAge - st.leeway, TokenNotNow) ]
  }

  /** The outcome of one row: an absent claim passes; `nbf` fails at or before its bound, the others at or after it. */
  function CheckClaim(c: TimeCheck, payload: Claims, now: int): Option<Failure>
  {
    if !IsSet(payload, c.claim) then None
    else match ClaimNumber(payload[c.claim])
      case None => Some(TypeFailure)
      case Some(v) =>
        var bound := c.offset + v;
        if (if c.claim == "nbf" then now <= bound else now >= bound) then Some(JwtFailure(c.error)) else None
  }

  /** The first failing row of a table. */
  function FirstFailure(checks: seq<TimeCheck>, payload: Claims, now: int): (r: Option<Failure>)
    ensures r.None? <==> forall i :: 0 <= i < |checks| ==> CheckClaim(checks[i], payload, now).None?
  {
    if checks == [] then None
    else match CheckClaim(checks[0], payload, now)
      case Some(f) => Some(f)
      case None =>
        var r := FirstFailure(checks[1..], payload, now);
        assert forall i :: 1 <= i < |checks| ==> checks[i] == checks[1..][i - 1];
        r
  }

  /** `validateTimestamps` at time `now`. */
  function TimestampFailure(st: CodecState, payload: Claims, now: int): Option<Failure>
  {
    FirstFailure(TimeChecks(st), payload, now)
  }

  /** `encode`: the token, or the failure, and the state afterwards (a `kid` may have changed the key). */
  function EncodeSpec(prims: Primitives, st: CodecState, payload: Claims, extra: Claims, clock: int)
    : (Result<Bytes, Failure>, CodecState)
  {
    var header := Header(st.algo, extra);
    match SelectKey(st, header)
    case Err(f) => (Err(f), st)
    case Ok(st1) =>
      var h := Segment(prims, header);
      var b := Segment(prims, WithDefaultExp(st1, payload, clock));
      match SignSpec(prims, st1, Join(h, b))
      case Err(e) => (Err(JwtFailure(e)), st1)
      case Ok(sig) => (Ok(Join(Join(h, b), Base64.UrlSafeEncode(sig))), st1)
  }

  /** `decode`: the payload, or the first failure, and the state afterwards. */
  function DecodeSpec(prims: Primitives, st: CodecState, token: Bytes, clock: int)
    : (Result<Claims, Failure>, CodecState)
  {
    if Count(token, Dot) < 2 then (Err(JwtFailure(TokenInvalid)), st)
    else
      ExplodeThreeParts(Dot, token);
      var parts := ExplodeLimit(Dot, token, 3);
      DecodeSegments(prims, st, parts[0], parts[1], parts[2], clock)
  }

  /** `decode` once the token is split into header, payload and signature segments. */
  function DecodeSegments(prims: Primitives, st: CodecState, h: Bytes, b: Bytes, s: Bytes, clock: int)
    : (Result<Claims, Failure>, CodecState)
  {
    match ParseSegment(prims, h)
    case None => (Err(JwtFailure(JsonDecode)), st)
    case Some(header) =>
      match CheckHeader(st, header)
      case Err(f) => (Err(f), st)
      case Ok(st1) =>
        match VerifySpec(prims, st1, Join(h, b), s)
        case Err(e) => (Err(JwtFailure(e)), st1)
        case Ok(ok) =>
          if !ok then (Err(JwtFailure(SignatureFailed)), st1)
          else match ParseSegment(prims, b)
            case None => (Err(JwtFailure(JsonDecode)), st1)
            case Some(payload) =>
              match TimestampFailure(st1, payload, Now(st1, clock))
              case Some(f) => (Err(f), st1)
              case None => (Ok(payload), st1)
  }

  // ---------------------------------------------------------------------
  // The codec object
  // ---------------------------------------------------------------------

  /** `hash_equals` as the fallback computes it: OR of the XORed bytes, from the last one down. */
  method HashEquals(a: Bytes, b: Bytes) returns (eq: bool)
    ensures eq <==> a == b
  {
    if |a| != |b| {
      return false;
    }
    var acc: nat := 0;
    var i := |a|;
    while i > 0
      invariant 0 <= i <= |a|
      invariant acc == 0 <==> a[i..] == b[i..]
    {
      i := i - 1;
      var x := Xor(Ord(a[i]), Ord(b[i]));
      AccumulateStep(acc, a[i], b[i]);
      SuffixStep(a, b, i);
      acc := BitOr(acc, x);
    }
    eq := acc == 0;
  }

  /** PHP's `^` on non-negative integers, bit by bit from the lowest. */
  function Xor(u: nat, v: nat): nat
    decreases u + v
  {
    if u == 0 && v == 0 then 0 else 2 * Xor(u / 2, v / 2) + (if u % 2 == v % 2 then 0 else 1)
  }

  /** PHP's `|` on non-negative integers, bit by bit from the lowest. */
  function BitOr(u: nat, v: nat): nat
    decreases u + v
  {
    if u == 0 && v == 0 then 0 else 2 * BitOr(u / 2, v / 2) + (if u % 2 == 1 || v % 2 == 1 then 1 else 0)
  }

  lemma AccumulateStep(acc: nat, x: Octet, y: Octet)
    ensures BitOr(acc, Xor(Ord(x), Ord(y))) == 0 <==> acc == 0 && x == y
  {
    XorZero(Ord(x), Ord(y));
    OrZero(acc, Xor(Ord(x), Ord(y)));
  }

  /** The XOR of two numbers is zero exactly when they are equal. */
  lemma {:induction false} XorZero(u: nat, v: nat)
    ensures Xor(u, v) == 0 <==> u == v
    decreases u + v
  {
    if u != 0 || v != 0 {
      XorZero(u / 2, v / 2);
    }
  }

  /** The OR of two numbers is zero exactly when both are. */
  lemma {:induction false} OrZero(u: nat, v: nat)
    ensures BitOr(u, v) == 0 <==> u == 0 && v == 0
    decreases u + v
  {
    if u != 0 || v != 0 {
      OrZero(u / 2, v / 2);
    }
  }

  lemma SuffixStep(a: Bytes, b: Bytes, i: nat)
    requires i < |a| == |b|
    ensures a[i..] == b[i..] <==> a[i] == b[i] && a[i + 1..] == b[i + 1..]
  {
    assert a[i..] == [a[i]] + a[i + 1..];
    assert b[i..] == [b[i]] + b[i + 1..];
  }

  /** The outcome of the constructor. */
  datatype Construction = Built(codec: Codec) | Failed(error: JwtError)

  class Codec {
    const prims: Primitives
    var key: Bytes
    var keys: PhpArray<Bytes>
    var timestamp: Option<int>
    const algo: Algo
    const maxAge: int
    const leeway: int
    const passphrase: Option<Bytes>

    function State(): CodecState
      reads this
    {
      CodecState(key, keys, timestamp, algo, maxAge, leeway, passphrase)
    }

    /** The fields, once `validateConfig` has accepted maxAge and leeway. */
    constructor Init(prims: Primitives, key: Bytes, algo: Algo, maxAge: int, leeway: int, pass: Option<Bytes>)
      requires 1 <= maxAge && 0 <= leeway <= 120
      ensures this.prims == prims
      ensures State() == CodecState(key, [], None, algo, maxAge, leeway, pass)
    {
      this.prims := prims;
      this.key := key;
      this.keys := [];
      this.timestamp := None;
      this.algo := algo;
      this.maxAge := maxAge;
      this.leeway := leeway;
      this.passphrase := pass;
    }

    /** `new JWT(key, algo, maxAge, leeway, pass)`: the configuration checks, then the fields. */
    static method Create(prims: Primitives, key: KeyArg, algo: string, maxAge: int, leeway: int, pass: Option<Bytes>)
      returns (r: Construction)
      ensures r.Failed? ==> Construct(key, algo, maxAge, leeway, pass) == Err(r.error)
      ensures r.Built? ==> fresh(r.codec) && r.codec.prims == prims
      ensures r.Built? ==> Construct(key, algo, maxAge, leeway, pass) == Ok(r.codec.State())
    {
      var err := ConfigError(key, algo, maxAge, leeway);
      if err.Some? {
        return Failed(err.value);
      }
      var c := new Codec.Init(prims, [], AlgoOf(algo).value, maxAge, leeway, pass);
      if key.KeyString? {
        c.key := key.key;
      } else {
        c.RegisterKeys(key.table);
        c.key := key.table[0].1;
      }
      r := Built(c);
    }

    /** `registerKeys`. */
    method RegisterKeys(more: PhpArray<Bytes>)
      modifies this
      ensures State() == MergeKeys(old(State()), more)
    {
      keys := ArrayMerge(keys, more);
    }

    /** `setTestTimestamp`. */
    method SetTestTimestamp(t: Option<int>)
      modifies this
      ensures State() == old(State()).(timestamp := t)
    {
      timestamp := t;
    }

    /** `validateKid`. */
    method ValidateKid(header: Claims) returns (err: Option<Failure>)
      modifies this
      ensures err.Some? ==> SelectKey(old(State()), header) == Err(err.value) && State() == old(State())
      ensures err.None? ==> SelectKey(old(State()), header) == Ok(State())
    {
      if !IsSet(header, "kid") {
        return None;
      }
      var k := OffsetKey(header["kid"]);
      if k.None? {
        return Some(TypeFailure);
      }
      var v := Get(keys, k.value);
      if v.None? || IsEmptyString(v.value) {
        return Some(JwtFailure(KidUnknown));
      }
      key := v.value;
      err := None;
    }

    /** `validateHeader`. */
    method ValidateHeader(header: Claims) returns (err: Option<Failure>)
      modifies this
      ensures err.Some? ==> CheckHeader(old(State()), header) == Err(err.value) && State() == old(State())
      ensures err.None? ==> CheckHeader(old(State()), header) == Ok(State())
    {
      var alg := Lookup(header, "alg");
      if IsEmpty(alg) {
        return Some(JwtFailure(AlgoMissing));
      }
      if alg.JArray? {
        return Some(TypeFailure);
      }
      if !(alg.JStr? && AlgoOf(alg.s).Some?) {
        return Some(JwtFailure(AlgoUnsupported("(header missing)")));
      }
      err := ValidateKid(header);
    }

    /** `sign`. */
    method Sign(input: Bytes) returns (r: Result<Bytes, JwtError>)
      ensures r == SignSpec(prims, State(), input)
    {
      if AlgoName(algo)[..2] == "HS" {
        return Ok(prims.hmac(algo, input, key));
      }
      var pass := if passphrase.None? || IsEmptyString(passphrase.value) then [] else passphrase.value;
      if !prims.keyLoads(key, pass) {
        return Err(KeyInvalid);
      }
      r := Ok(prims.rsaSign(algo, input, key, pass));
    }

    /** `verify`: the HMAC branch compares with `hash_equals`. */
    method Verify(input: Bytes, signature: Bytes) returns (r: Result<bool, JwtError>)
      ensures r == VerifySpec(prims, State(), input, signature)
    {
      if AlgoName(algo)[..2] == "HS" {
        var eq := HashEquals(Base64.UrlSafeEncode(prims.hmac(algo, input, key)), signature);
        return Ok(eq);
      }
      var pass := if passphrase.None? || IsEmptyString(passphrase.value) then [] else passphrase.value;
      if !prims.keyLoads(key, pass) {
        return Err(KeyInvalid);
      }
      r := Ok(prims.rsaVerify(algo, input, Base64.UrlSafeDecode(signature), key, pass));
    }

    /** `validateTimestamps`: the check table walked in order, stopping at the first failure. */
    method ValidateTimestamps(payload: Claims, clock: int) returns (r: Option<Failure>)
      ensures r == TimestampFailure(State(), payload, Now(State(), clock))
    {
      var now := if timestamp.Some? && timestamp.value != 0 then timestamp.value else clock;
      var checks := TimeChecks(State());
      var i := 0;
      while i < |checks|
        invariant 0 <= i <= |checks|
        invariant FirstFailure(checks, payload, now) == FirstFailure(checks[i..], payload, now)
      {
        var c := checks[i];
        assert checks[i..][1..] == checks[i + 1..];
        if IsSet(payload, c.claim) {
          var v := ClaimNumber(payload[c.claim]);
          if v.None? {
            return Some(TypeFailure);
          }
          var bound := c.offset + v.value;
          var fail := if c.claim == "nbf" then now <= bound else now >= bound;
          if fail {
            return Some(JwtFailure(c.error));
          }
        }
        i := i + 1;
      }
      r := None;
    }

    /** `encode(payload, extra)` at clock time `clock`. */
    method Encode(payload: Claims, extra: Claims, clock: int) returns (r: Result<Bytes, Failure>)
      modifies this
      ensures (r, State()) == EncodeSpec(prims, old(State()), payload, extra, clock)
    {
      var header := Header(algo, extra);
      var err := ValidateKid(header);
      if err.Some? {
        return Err(err.value);
      }
      ghost var st1 := State();
      var p := payload;
      if !IsSet(p, "iat") && !IsSet(p, "exp") {
        var now := if timestamp.Some? && timestamp.value != 0 then timestamp.value else clock;
        p := p["exp" := JInt(now + maxAge)];
      }
      assert p == WithDefaultExp(st1, payload, clock);
      var h := Segment(prims, header);
      var b := Segment(prims, p);
      var sig := Sign(Join(h, b));
      if sig.Err? {
        return Err(JwtFailure(sig.error));
      }
      r := Ok(Join(Join(h, b), Base64.UrlSafeEncode(sig.value)));
    }

    /** `decode(token)` at clock time `clock`. */
    method Decode(token: Bytes, clock: int) returns (r: Result<Claims, Failure>)
      modifies this
      ensures (r, State()) == DecodeSpec(prims, old(State()), token, clock)
    {
      if Count(token, Dot) < 2 {
        return Err(JwtFailure(TokenInvalid));
      }
      ExplodeThreeParts(Dot, token);
      var parts := ExplodeLimit(Dot, token, 3);
      var header := ParseSegment(prims, parts[0]);
      if header.None? {
        return Err(JwtFailure(JsonDecode));
      }
      var err := ValidateHeader(header.value);
      if err.Some? {
        return Err(err.value);
      }
      var ok := Verify(Join(parts[0], parts[1]), parts[2]);
      if ok.Err? {
        return Err(JwtFailure(ok.error));
      }
      if !ok.value {
        return Err(JwtFailure(SignatureFailed));
      }
      var payload := ParseSegment(prims, parts[1]);
      if payload.None? {
        return Err(JwtFailure(JsonDecode));
      }
      var f := ValidateTimestamps(payload.value, clock);
      if f.Some? {
        return Err(f.value);
      }
      r := Ok(payload.value);
    }
  }
}
