/**
 * What the JWT codec guarantees: the order of its configuration checks,
 * the `kid` table, the shape of an encoded token, the order of the
 * failures of `decode`, the timestamp window and the encode/decode round
 * trip under the assumption that JSON and RSA behave.
 */
module JwtProperties {
  import opened Results
  import opened PhpStrings
  import opened PhpArrays
  import opened Jwt
  import Base64

  // ---------------------------------------------------------------------
  // Error table
  // ---------------------------------------------------------------------

  /** Two failures share a code exactly when they share an identifier, or both are JSON failures (40). */
  lemma CodesIdentifyErrors(e1: JwtError, e2: JwtError)
    ensures Code(e1) == Code(e2) <==>
      Id(e1) == Id(e2) || (Id(e1) in {"json_failed", "json_decode"} && Id(e2) in {"json_failed", "json_decode"})
  {
  }

  // ---------------------------------------------------------------------
  // Construction and the key table
  // ---------------------------------------------------------------------

  /**
   * Construction succeeds exactly when every setting is valid, and otherwise
   * fails with the first violated check in the order key, algorithm,
   * maxAge, leeway.
   */
  lemma ConstructChecks(key: KeyArg, algo: string, maxAge: int, leeway: int, pass: Option<Bytes>)
    ensures Construct(key, algo, maxAge, leeway, pass).Ok? <==>
      !KeyArgEmpty(key) && AlgoOf(algo).Some? && maxAge >= 1 && 0 <= leeway <= 120
    ensures KeyArgEmpty(key) ==> Construct(key, algo, maxAge, leeway, pass) == Err(KeyEmpty)
    ensures !KeyArgEmpty(key) && AlgoOf(algo).None? ==>
      Construct(key, algo, maxAge, leeway, pass) == Err(AlgoUnsupported(algo))
    ensures !KeyArgEmpty(key) && AlgoOf(algo).Some? && maxAge < 1 ==>
      Construct(key, algo, maxAge, leeway, pass) == Err(InvalidMaxAge)
    ensures !KeyArgEmpty(key) && AlgoOf(algo).Some? && maxAge >= 1 && !(0 <= leeway <= 120) ==>
      Construct(key, algo, maxAge, leeway, pass) == Err(InvalidLeeway)
  {
  }

  /**
   * A key table given to the constructor becomes the `kid` table and its
   * first value the key: string ids keep their values, integer ids are
   * renumbered 0, 1, 2, ... by `array_merge`.
   */
  lemma ConstructKeyTable(t: PhpArray<Bytes>, algo: string, maxAge: int, leeway: int, pass: Option<Bytes>)
    requires Construct(KeyArray(t), algo, maxAge, leeway, pass).Ok?
    ensures var st := Construct(KeyArray(t), algo, maxAge, leeway, pass).value;
      && t != []
      && st.key == t[0].1
      && (forall s :: Get(st.keys, StrKey(s)) == Get(t, StrKey(s)))
      && (forall j :: Get(st.keys, IntKey(j)) == if 0 <= j < |IntValues(t)| then Some(IntValues(t)[j]) else None)
  {
    ArrayMergeLookup([], t);
    assert [] + t == t;
    assert IntValues<Bytes>([]) + IntValues(t) == IntValues(t);
    forall s ensures !HasKey<Bytes>([], StrKey(s)) {
    }
  }

  /**
   * `registerKeys` adds a table to the one so far: for a string id the later
   * table wins, an id only in the earlier table keeps its key, and integer
   * ids are renumbered over both tables in order.
   */
  lemma RegisterKeysMerge(st: CodecState, more: PhpArray<Bytes>)
    ensures MergeKeys(st, more).key == st.key
    ensures forall s :: Get(MergeKeys(st, more).keys, StrKey(s))
                        == if HasKey(more, StrKey(s)) then Get(more, StrKey(s)) else Get(st.keys, StrKey(s))
    ensures forall j :: Get(MergeKeys(st, more).keys, IntKey(j))
                        == var v := IntValues(st.keys) + IntValues(more);
                           if 0 <= j < |v| then Some(v[j]) else None
  {
    ArrayMergeLookup(st.keys, more);
  }

  /**
   * A table registered with a numeric id `n` other than 0 is renumbered: a
   * token naming `kid: n` is refused, and one naming `kid: 0` gets the key.
   */
  lemma NumericKidRenumbered(n: int, k: Bytes, algo: string, maxAge: int, leeway: int, pass: Option<Bytes>)
    requires n != 0 && !IsEmptyString(k)
    requires Construct(KeyArray([(IntKey(n), k)]), algo, maxAge, leeway, pass).Ok?
    ensures var st := Construct(KeyArray([(IntKey(n), k)]), algo, maxAge, leeway, pass).value;
      && SelectKey(st, map["kid" := JInt(n)]) == Err(JwtFailure(KidUnknown))
      && SelectKey(st, map["kid" := JInt(0)]) == Ok(st.(key := k))
  {
    var t := [(IntKey(n), k)];
    ConstructKeyTable(t, algo, maxAge, leeway, pass);
    assert t[..0] == [];
    assert IntValues(t) == [k];
  }

  /**
   * A key table whose only key is a number too large for a 64-bit integer,
   * written in decimal, keeps it as a string key through `array_merge`, and a
   * `kid` of that text selects its value.
   */
  lemma LongNumericKid(n: nat, k: Bytes, algo: string, maxAge: int, leeway: int, pass: Option<Bytes>)
    requires n > IntMax && !IsEmptyString(k)
    requires Construct(KeyArray([(KeyOfString(NatToString(n)), k)]), algo, maxAge, leeway, pass).Ok?
    ensures var st := Construct(KeyArray([(KeyOfString(NatToString(n)), k)]), algo, maxAge, leeway, pass).value;
      SelectKey(st, map["kid" := JStr(NatToString(n))]) == Ok(st.(key := k))
  {
    IntKeyRange(n);
    var t := [(StrKey(NatToString(n)), k)];
    ConstructKeyTable(t, algo, maxAge, leeway, pass);
    assert Get(t, StrKey(NatToString(n))) == Some(k);
  }

  /** A `kid` either leaves the state alone or replaces the key, and nothing else, by a non-empty key of the table. */
  lemma SelectKeyChangesOnlyKey(st: CodecState, header: Claims)
    ensures SelectKey(st, header).Ok? ==> SelectKey(st, header).value.(key := st.key) == st
    ensures SelectKey(st, header).Ok? && SelectKey(st, header).value != st ==>
      IsSet(header, "kid") && OffsetKey(header["kid"]).Some?
      && Get(st.keys, OffsetKey(header["kid"]).value) == Some(SelectKey(st, header).value.key)
      && !IsEmptyString(SelectKey(st, header).value.key)
  {
  }

  /**
   * A `kid` indexes the table as a PHP array offset: a float by its integer
   * part, so `0.0` or `0.5` selects the entry at 0; an array raises a
   * `TypeError`, whatever the table holds.
   */
  lemma KidOffsets(st: CodecState, header: Claims)
    requires IsSet(header, "kid")
    ensures header["kid"].JArray? ==> SelectKey(st, header) == Err(TypeFailure)
    ensures header["kid"].JFloat? ==>
      SelectKey(st, header) == SelectKey(st, header["kid" := JInt(header["kid"].whole)])
  {
  }

  /**
   * A header is refused with a `TypeError`, not an `ExceptionJWT`, when it
   * uses a non-empty array as `alg`, or names a supported `alg` and an
   * array as `kid`.
   */
  lemma ArrayOffsetsRaise(st: CodecState, header: Claims)
    requires Lookup(header, "alg") == JArray(false)
      || (Lookup(header, "alg").JStr? && AlgoOf(Lookup(header, "alg").s).Some? && "kid" in header && header["kid"].JArray?)
    ensures CheckHeader(st, header) == Err(TypeFailure)
  {
    if Lookup(header, "alg") != JArray(false) {
      KidOffsets(st, header);
    }
  }

  /** A header whose `kid` is `0.0` selects the non-empty key registered at 0. */
  lemma ZeroFloatKid(st: CodecState, k: Bytes)
    requires Get(st.keys, IntKey(0)) == Some(k) && !IsEmptyString(k)
    ensures SelectKey(st, map["alg" := JStr("HS384"), "kid" := JFloat(0, false)]) == Ok(st.(key := k))
  {
  }

  /**
   * Timestamp claims given as strings count by the integer they start
   * with, past leading whitespace and a sign.
   */
  lemma SignedStringClaims()
    ensures ClaimNumber(JStr(" 1")) == Some(1)
    ensures ClaimNumber(JStr("+1")) == Some(1)
    ensures ClaimNumber(JStr("-7")) == Some(-7)
  {
    assert DecimalValue("1") == 1;
    assert NumericPrefix(" 1") == IntPrefix(1) by {
      IntegerPrefix("", "1", "");
      assert "" + "1" + "" == "1";
      LeadingWhitespaceSkipped(' ', "1");
      assert [' '] + "1" == " 1";
    }
    assert NumericPrefix("+1") == IntPrefix(1) by {
      IntegerPrefix("+", "1", "");
      assert "+" + "1" + "" == "+1";
    }
    assert NumericPrefix("-7") == IntPrefix(-7) by {
      assert DecimalValue("7") == 7;
      IntegerPrefix("-", "7", "");
      assert "-" + "7" + "" == "-7";
    }
  }

  /**
   * Text after the leading integer of a timestamp string is ignored (PHP
   * only warns), but a string with no number in front is a `TypeError`.
   */
  lemma TrailingStringClaims()
    ensures ClaimNumber(JStr("1 ")) == Some(1)
    ensures ClaimNumber(JStr("17abc")) == Some(17)
    ensures ClaimNumber(JStr("abc")) == None
  {
    assert NumericPrefix("1 ") == IntPrefix(1) by {
      assert DecimalValue("1") == 1;
      IntegerPrefix("", "1", " ");
      assert "" + "1" + " " == "1 ";
    }
    assert NumericPrefix("17abc") == IntPrefix(17) by {
      assert DecimalValue("17") == 17 by {
        assert "17"[..1] == "1";
      }
      IntegerPrefix("", "17", "abc");
      assert "" + "17" + "abc" == "17abc";
    }
    LettersAreNoNumber("abc");
  }

  /** Selecting by the same header twice selects the same key. */
  lemma SelectKeyIdempotent(st: CodecState, header: Claims)
    requires SelectKey(st, header).Ok?
    ensures SelectKey(SelectKey(st, header).value, header) == SelectKey(st, header)
  {
  }

  // ---------------------------------------------------------------------
  // Encoding
  // ---------------------------------------------------------------------

  /**
   * The header always carries `typ: "JWT"` and the configured algorithm;
   * an extra `typ` or `alg` is ignored, every other extra entry is kept.
   */
  lemma HeaderFields(algo: Algo, extra: Claims)
    ensures Header(algo, extra)["typ"] == JStr("JWT")
    ensures Header(algo, extra)["alg"] == JStr(AlgoName(algo))
    ensures forall k :: k != "typ" && k != "alg" ==>
      (k in Header(algo, extra) <==> k in extra) && (k in extra ==> Header(algo, extra)[k] == extra[k])
  {
  }

  /**
   * `exp = now + maxAge` is added exactly when neither `iat` nor `exp` is
   * set; every other claim is left as it is.
   */
  lemma DefaultExpAdded(st: CodecState, payload: Claims, clock: int)
    ensures var p := WithDefaultExp(st, payload, clock);
      && (forall k :: k != "exp" ==> (k in p <==> k in payload) && (k in payload ==> p[k] == payload[k]))
      && (!IsSet(payload, "iat") && !IsSet(payload, "exp") ==> p["exp"] == JInt(Now(st, clock) + st.maxAge))
      && (IsSet(payload, "iat") || IsSet(payload, "exp") ==> p == payload)
  {
  }

  /**
   * An encoded token is three segments joined by exactly two dots: the
   * header, the payload with its default `exp`, and the signature of the
   * first two.
   */
  lemma EncodedTokenShape(prims: Primitives, st: CodecState, payload: Claims, extra: Claims, clock: int)
    requires EncodeSpec(prims, st, payload, extra, clock).0.Ok?
    ensures var (r, st1) := EncodeSpec(prims, st, payload, extra, clock);
      var h := Segment(prims, Header(st.algo, extra));
      var b := Segment(prims, WithDefaultExp(st1, payload, clock));
      && SignSpec(prims, st1, Join(h, b)).Ok?
      && Count(r.value, Dot) == 2
      && ExplodeLimit(Dot, r.value, 3) == [h, b, Base64.UrlSafeEncode(SignSpec(prims, st1, Join(h, b)).value)]
  {
    var (r, st1) := EncodeSpec(prims, st, payload, extra, clock);
    var h := Segment(prims, Header(st.algo, extra));
    var b := Segment(prims, WithDefaultExp(st1, payload, clock));
    var s := Base64.UrlSafeEncode(SignSpec(prims, st1, Join(h, b)).value);
    Base64.NoDotInUrlSafe(Serialize(prims, Header(st.algo, extra)));
    Base64.NoDotInUrlSafe(Serialize(prims, WithDefaultExp(st1, payload, clock)));
    Base64.NoDotInUrlSafe(SignSpec(prims, st1, Join(h, b)).value);
    TokenOfSegments(h, b, s);
  }

  /** Three base64url segments joined by dots hold exactly two dots and split back into the segments. */
  lemma TokenOfSegments(h: Bytes, b: Bytes, s: Bytes)
    requires Dot !in h && Dot !in b && Dot !in s
    ensures Count(Join(Join(h, b), s), Dot) == 2
    ensures ExplodeLimit(Dot, Join(Join(h, b), s), 3) == [h, b, s]
  {
    var t := Join(Join(h, b), s);
    assert t == h + [Dot] + b + [Dot] + s;
    ExplodeJoined(Dot, h, b, s);
    CountConcat(h + [Dot] + b + [Dot], s, Dot);
    CountConcat(h + [Dot] + b, [Dot], Dot);
    CountConcat(h + [Dot], b, Dot);
    CountConcat(h, [Dot], Dot);
  }

  // ---------------------------------------------------------------------
  // Decoding
  // ---------------------------------------------------------------------

  /** A token with fewer than two dots is refused with code 50 and leaves the state alone. */
  lemma FewDotsRefused(prims: Primitives, st: CodecState, token: Bytes, clock: int)
    requires Count(token, Dot) < 2
    ensures DecodeSpec(prims, st, token, clock) == (Err(JwtFailure(TokenInvalid)), st)
    ensures Code(TokenInvalid) == 50
  {
  }

  /**
   * A token is split at its first two dots: further dots stay in the
   * signature segment, and such a token is decoded like any other.
   */
  lemma DecodeSplitsAtFirstTwoDots(prims: Primitives, st: CodecState, h: Bytes, b: Bytes, s: Bytes, clock: int)
    requires Dot !in h && Dot !in b
    ensures DecodeSpec(prims, st, Join(Join(h, b), s), clock) == DecodeSegments(prims, st, h, b, s, clock)
  {
    var t := Join(Join(h, b), s);
    assert t == h + [Dot] + b + [Dot] + s;
    ExplodeJoined(Dot, h, b, s);
    CountConcat(h + [Dot] + b + [Dot], s, Dot);
    CountConcat(h + [Dot] + b, [Dot], Dot);
    CountConcat(h + [Dot], b, Dot);
    CountConcat(h, [Dot], Dot);
  }

  /**
   * The order of the checks on the header: a header that is not JSON gives
   * 40, then a missing `alg` 22, then an `alg` outside the table 20 (whatever
   * the signature), then an unknown `kid` 70; the state is left alone. A
   * non-empty array as `alg` raises a `TypeError` in place of 20.
   */
  lemma HeaderChecksFirst(prims: Primitives, st: CodecState, h: Bytes, b: Bytes, s: Bytes, clock: int)
    ensures ParseSegment(prims, h).None? ==> DecodeSegments(prims, st, h, b, s, clock) == (Err(JwtFailure(JsonDecode)), st)
    ensures ParseSegment(prims, h).Some? && IsEmpty(Lookup(ParseSegment(prims, h).value, "alg")) ==>
      DecodeSegments(prims, st, h, b, s, clock) == (Err(JwtFailure(AlgoMissing)), st)
    ensures ParseSegment(prims, h).Some? && Lookup(ParseSegment(prims, h).value, "alg") == JStr("none") ==>
      DecodeSegments(prims, st, h, b, s, clock) == (Err(JwtFailure(AlgoUnsupported("(header missing)"))), st)
    ensures ParseSegment(prims, h).Some? ==>
      var alg := Lookup(ParseSegment(prims, h).value, "alg");
      !IsEmpty(alg) && !alg.JArray? && !(alg.JStr? && AlgoOf(alg.s).Some?) ==>
        DecodeSegments(prims, st, h, b, s, clock) == (Err(JwtFailure(AlgoUnsupported("(header missing)"))), st)
    ensures ParseSegment(prims, h).Some? && Lookup(ParseSegment(prims, h).value, "alg") == JArray(false) ==>
      DecodeSegments(prims, st, h, b, s, clock) == (Err(TypeFailure), st)
    ensures (ParseSegment(prims, h).Some? && SelectKey(st, ParseSegment(prims, h).value) == Err(JwtFailure(KidUnknown))
      && !IsEmpty(Lookup(ParseSegment(prims, h).value, "alg")) && Lookup(ParseSegment(prims, h).value, "alg").JStr?
      && AlgoOf(Lookup(ParseSegment(prims, h).value, "alg").s).Some?) ==>
      DecodeSegments(prims, st, h, b, s, clock) == (Err(JwtFailure(KidUnknown)), st)
  {
  }

  /**
   * Decoding never changes the algorithm or any other setting, whatever
   * `alg` the header names: at most the key is replaced, through a `kid`.
   */
  lemma DecodeKeepsSettings(prims: Primitives, st: CodecState, token: Bytes, clock: int)
    ensures DecodeSpec(prims, st, token, clock).1.(key := st.key) == st
  {
    if Count(token, Dot) >= 2 {
      ExplodeThreeParts(Dot, token);
      var parts := ExplodeLimit(Dot, token, 3);
      SegmentsKeepSettings(prims, st, parts[0], parts[1], parts[2], clock);
    }
  }

  lemma SegmentsKeepSettings(prims: Primitives, st: CodecState, h: Bytes, b: Bytes, s: Bytes, clock: int)
    ensures DecodeSegments(prims, st, h, b, s, clock).1 == st
      || (ParseSegment(prims, h).Some? && DecodeSegments(prims, st, h, b, s, clock).1 == CheckHeader(st, ParseSegment(prims, h).value).value)
    ensures DecodeSegments(prims, st, h, b, s, clock).1.(key := st.key) == st
  {
    match ParseSegment(prims, h) {
      case None =>
      case Some(header) =>
        if CheckHeader(st, header).Ok? {
          SelectKeyChangesOnlyKey(st, header);
        }
    }
  }

  /**
   * With an HMAC algorithm and a header that passes its checks, the token
   * is refused with code 60 exactly when its signature segment differs from
   * the base64url HMAC of `header.payload` under the selected key.
   */
  lemma HmacSignatureChecked(prims: Primitives, st: CodecState, h: Bytes, b: Bytes, s: Bytes, clock: int)
    requires IsHmac(st.algo)
    requires ParseSegment(prims, h).Some? && CheckHeader(st, ParseSegment(prims, h).value).Ok?
    ensures var st1 := CheckHeader(st, ParseSegment(prims, h).value).value;
      DecodeSegments(prims, st, h, b, s, clock).0 == Err(JwtFailure(SignatureFailed))
      <==> s != Base64.UrlSafeEncode(prims.hmac(st1.algo, Join(h, b), st1.key))
  {
    var header := ParseSegment(prims, h).value;
    var st1 := CheckHeader(st, header).value;
    SelectKeyChangesOnlyKey(st, header);
    assert st1.algo == st.algo;
    var expected := Base64.UrlSafeEncode(prims.hmac(st1.algo, Join(h, b), st1.key));
    assert VerifySpec(prims, st1, Join(h, b), s) == Ok(expected == s);
    match ParseSegment(prims, b) {
      case None =>
      case Some(payload) => TimestampErrors(st1, payload, Now(st1, clock));
    }
  }

  // ---------------------------------------------------------------------
  // Timestamps
  // ---------------------------------------------------------------------

  /** The numeric value of a set timestamp claim. */
  function Claim(p: Claims, k: string): int
    requires IsSet(p, k) && ClaimNumber(p[k]).Some?
  {
    ClaimNumber(p[k]).value
  }

  /** Every set timestamp claim is a number PHP can add. */
  predicate NumericTimestamps(p: Claims)
  {
    forall k :: k in ["exp", "iat", "nbf"] && IsSet(p, k) ==> ClaimNumber(p[k]).Some?
  }

  /**
   * The timestamp window: a token passes exactly when
   * now < exp + leeway, now < iat + maxAge - leeway and
   * now > nbf + maxAge - leeway hold for the claims it carries; the first
   * failure in the order exp, iat, nbf is reported, as 52, 52 and 54.
   */
  lemma TimestampWindow(st: CodecState, p: Claims, now: int)
    requires NumericTimestamps(p)
    ensures var expOk := !IsSet(p, "exp") || now < Claim(p, "exp") + st.leeway;
      var iatOk := !IsSet(p, "iat") || now < Claim(p, "iat") + st.maxAge - st.leeway;
      var nbfOk := !IsSet(p, "nbf") || now > Claim(p, "nbf") + st.maxAge - st.leeway;
      && (TimestampFailure(st, p, now).None? <==> expOk && iatOk && nbfOk)
      && (!expOk ==> TimestampFailure(st, p, now) == Some(JwtFailure(TokenExpired)))
      && (expOk && !iatOk ==> TimestampFailure(st, p, now) == Some(JwtFailure(TokenExpired)))
      && (expOk && iatOk && !nbfOk ==> TimestampFailure(st, p, now) == Some(JwtFailure(TokenNotNow)))
  {
    var checks := TimeChecks(st);
    FirstOfThree(checks[0], checks[1], checks[2], p, now);
    assert checks == [checks[0], checks[1], checks[2]];
    assert "exp" in ["exp", "iat", "nbf"] && "iat" in ["exp", "iat", "nbf"] && "nbf" in ["exp", "iat", "nbf"];
  }

  /**
   * A token whose payload carries none of `exp`, `iat` and `nbf` is given
   * `exp = now + maxAge` by `encode`; without a test timestamp it is then
   * accepted until `maxAge + leeway` seconds after it was issued, and refused
   * as expired (52) from then on.
   */
  lemma DefaultExpiryWindow(st: CodecState, payload: Claims, issued: int, now: int)
    requires !IsSet(payload, "exp") && !IsSet(payload, "iat") && !IsSet(payload, "nbf")
    requires st.timestamp.None?
    ensures TimestampFailure(st, WithDefaultExp(st, payload, issued), now)
            == if now < issued + st.maxAge + st.leeway then None else Some(JwtFailure(TokenExpired))
  {
    var p := WithDefaultExp(st, payload, issued);
    assert p == payload["exp" := JInt(issued + st.maxAge)];
    assert NumericTimestamps(p);
    assert Claim(p, "exp") == issued + st.maxAge;
    assert !IsSet(p, "iat") && !IsSet(p, "nbf");
    TimestampWindow(st, p, now);
  }

  /** The timestamp checks fail only with 52, 54 or a `TypeError`. */
  lemma TimestampErrors(st: CodecState, p: Claims, now: int)
    ensures TimestampFailure(st, p, now).Some? ==>
      TimestampFailure(st, p, now) in {Some(TypeFailure), Some(JwtFailure(TokenExpired)), Some(JwtFailure(TokenNotNow))}
  {
    var checks := TimeChecks(st);
    FirstOfThree(checks[0], checks[1], checks[2], p, now);
    assert checks == [checks[0], checks[1], checks[2]];
  }

  lemma FirstOfThree(c0: TimeCheck, c1: TimeCheck, c2: TimeCheck, p: Claims, now: int)
    ensures FirstFailure([c0, c1, c2], p, now) ==
      if CheckClaim(c0, p, now).Some? then CheckClaim(c0, p, now)
      else if CheckClaim(c1, p, now).Some? then CheckClaim(c1, p, now)
      else CheckClaim(c2, p, now)
  {
    assert [c2][1..] == [];
    assert FirstFailure([c2], p, now) == CheckClaim(c2, p, now);
    assert [c1, c2][1..] == [c2];
    assert FirstFailure([c1, c2], p, now) ==
      if CheckClaim(c1, p, now).Some? then CheckClaim(c1, p, now) else CheckClaim(c2, p, now);
    assert [c0, c1, c2][1..] == [c1, c2];
  }

  /**
   * A token whose only timestamp is `nbf` equal to the current time is
   * refused as not yet active whenever maxAge is at least the leeway: the
   * window for `nbf` is shifted by maxAge.
   */
  lemma NbfNowRefused(st: CodecState, now: int)
    requires st.maxAge >= st.leeway
    ensures TimestampFailure(st, map["nbf" := JInt(now)], now) == Some(JwtFailure(TokenNotNow))
  {
    TimestampWindow(st, map["nbf" := JInt(now)], now);
  }

  /** A token that expired one second ago passes only with a leeway of at least 2. */
  lemma ExpiredOneSecondAgo(st: CodecState, now: int)
    ensures TimestampFailure(st, map["exp" := JInt(now - 1)], now).None? <==> st.leeway >= 2
  {
    TimestampWindow(st, map["exp" := JInt(now - 1)], now);
  }

  // ---------------------------------------------------------------------
  // Round trip
  // ---------------------------------------------------------------------

  /** `json_decode` reads back what the codec serialises. */
  ghost predicate JsonRoundTrip(prims: Primitives)
  {
    forall c :: prims.jsonDecode(Serialize(prims, c)) == Some(c)
  }

  /** An RSA signature made with a key that loads verifies with that key. */
  ghost predicate RsaSound(prims: Primitives)
  {
    forall a, m, k, pw :: prims.keyLoads(k, pw) ==> prims.rsaVerify(a, m, prims.rsaSign(a, m, k, pw), k, pw)
  }

  /**
   * A token the codec encodes decodes, with the same codec, to the payload
   * it signed (with its default `exp`), unless the payload's timestamps are
   * outside the window at the time of decoding; the state is unchanged.
   */
  lemma EncodeDecodeRoundTrip(prims: Primitives, st: CodecState, payload: Claims, extra: Claims, clock: int, clock2: int)
    requires JsonRoundTrip(prims) && (IsHmac(st.algo) || RsaSound(prims))
    requires EncodeSpec(prims, st, payload, extra, clock).0.Ok?
    ensures var (r, st1) := EncodeSpec(prims, st, payload, extra, clock);
      var p := WithDefaultExp(st1, payload, clock);
      DecodeSpec(prims, st1, r.value, clock2) ==
        (match TimestampFailure(st1, p, Now(st1, clock2))
         case Some(f) => Err(f)
         case None => Ok(p), st1)
  {
    var (r, st1) := EncodeSpec(prims, st, payload, extra, clock);
    var header := Header(st.algo, extra);
    assert SelectKey(st, header) == Ok(st1);
    var p := WithDefaultExp(st1, payload, clock);
    var h := Segment(prims, header);
    var b := Segment(prims, p);
    assert SignSpec(prims, st1, Join(h, b)).Ok?;
    var sig := SignSpec(prims, st1, Join(h, b)).value;
    var s := Base64.UrlSafeEncode(sig);
    assert r.value == Join(Join(h, b), s);
    Base64.NoDotInUrlSafe(Serialize(prims, header));
    Base64.NoDotInUrlSafe(Serialize(prims, p));
    DecodeSplitsAtFirstTwoDots(prims, st1, h, b, s, clock2);
    Base64.UrlSafeRoundTrip(Serialize(prims, header));
    Base64.UrlSafeRoundTrip(Serialize(prims, p));
    assert ParseSegment(prims, h) == Some(header);
    assert ParseSegment(prims, b) == Some(p);
    HeaderOfEncodeChecks(st, extra);
    SelectKeyChangesOnlyKey(st, header);
    assert st1.algo == st.algo;
    SignedVerifies(prims, st1, Join(h, b));
    SegmentsAccepted(prims, st1, h, b, s, clock2, header, p);
  }

  /** Once the header and the signature are accepted, a payload segment that is not a JSON object is refused with 40. */
  lemma PayloadJsonAfterSignature(prims: Primitives, st: CodecState, h: Bytes, b: Bytes, s: Bytes, clock: int,
                                  header: Claims, st1: CodecState)
    requires ParseSegment(prims, h) == Some(header) && CheckHeader(st, header) == Ok(st1)
    requires VerifySpec(prims, st1, Join(h, b), s) == Ok(true) && ParseSegment(prims, b).None?
    ensures DecodeSegments(prims, st, h, b, s, clock) == (Err(JwtFailure(JsonDecode)), st1)
  {
  }

  /** Segments whose header passes its checks unchanged and whose signature verifies decode to their payload, timestamps permitting. */
  lemma SegmentsAccepted(prims: Primitives, st: CodecState, h: Bytes, b: Bytes, s: Bytes, clock: int, header: Claims, p: Claims)
    requires ParseSegment(prims, h) == Some(header) && CheckHeader(st, header) == Ok(st)
    requires VerifySpec(prims, st, Join(h, b), s) == Ok(true) && ParseSegment(prims, b) == Some(p)
    ensures DecodeSegments(prims, st, h, b, s, clock) ==
      (match TimestampFailure(st, p, Now(st, clock)) case Some(f) => Err(f) case None => Ok(p), st)
  {
  }

  /** The header `encode` writes passes `validateHeader` in the state `encode` leaves. */
  lemma HeaderOfEncodeChecks(st: CodecState, extra: Claims)
    requires SelectKey(st, Header(st.algo, extra)).Ok?
    ensures var st1 := SelectKey(st, Header(st.algo, extra)).value;
      CheckHeader(st1, Header(st.algo, extra)) == Ok(st1)
  {
    var header := Header(st.algo, extra);
    HeaderFields(st.algo, extra);
    assert Lookup(header, "alg") == JStr(AlgoName(st.algo));
    SelectKeyIdempotent(st, header);
    SelectKeyChangesOnlyKey(st, header);
  }

  /** A signature `sign` makes verifies, once base64url-encoded, in the same state. */
  lemma SignedVerifies(prims: Primitives, st: CodecState, input: Bytes)
    requires IsHmac(st.algo) || RsaSound(prims)
    requires SignSpec(prims, st, input).Ok?
    ensures VerifySpec(prims, st, input, Base64.UrlSafeEncode(SignSpec(prims, st, input).value)) == Ok(true)
  {
    Base64.UrlSafeRoundTrip(SignSpec(prims, st, input).value);
  }
}
