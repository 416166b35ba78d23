# JWT authorization and help pages of a PHP REST API framework, in Dafny

This project models three parts of a small PHP REST API framework and
proves properties of them.

- **The JSON Web Token codec** (`libs/JWT.php`, class `JWT` and
  `ExceptionJWT`), module `Jwt`. It builds compact tokens
  `header.payload.signature`, each part base64url-encoded, signed with
  HMAC (HS256/384/512) or RSA (RS256/384/512). It also covers the
  configuration checks, the `kid` key table, the `exp`/`iat`/`nbf`
  timestamp window and the numbered failures. The object is the class
  `Jwt.Codec`. Its methods are proved equal to the functions `EncodeSpec`,
  `DecodeSpec`, `SelectKey` and `CheckHeader` of the codec state, and
  `JwtProperties` proves what those functions guarantee. The round trip
  "decode of encode gives the payload back, unless the timestamp window
  refuses it" is among them.
- **The request gate** (`AuthorizationJWT.php`, class `Authorization`),
  module `AuthorizationJwt`, with the response recorder of
  `ResponseJSON.php`, module `ResponseJson`. Requests under `auth` go to
  the login handlers. Every other request needs a bearer access token
  whose `scope` claim is the requested API version. Every refusal records
  a phase label and ends the request through the `Response` object. The
  pure function `Gate` states the outcome. The imperative
  `Authorization.New` drives a `Response` and is proved to produce
  exactly that outcome. `AuthorizationProperties` proves:
  - each refusal's status, code and phase;
  - that only a decodable access token of the right scope is admitted;
  - that an access token the gate's own codec issued is admitted until it
    expires, and refused with code 52 afterwards.
- **The help page renderer** (`HelpREST.php`, class `Help`), modules
  `HelpRender`, `HelpLinks` and `HelpPretty`. It renders the help array:
  - headings for string keys;
  - `<pre>` blocks for `code_…` keys;
  - paragraphs with `{@link …}` references turned into anchors;
  - recursion into nested arrays.

  `codeToHTML` is the character-by-character JSON pretty-printer loop.
  `linkToHtml` is the `.`/`..` path resolution loop with `array_pop`.

Supporting modules:
- `PhpStrings` holds the PHP string functions the code relies on:
  `substr_count`, `explode` with and without a limit, `implode`, `strtr`,
  `rtrim`, `str_replace`, and the reading of a string as an integer array key.
- `PhpArrays` holds PHP ordered arrays with `array_merge`, which keeps
  string keys and renumbers integer keys.
- `Base64` holds `base64_encode` and the non-strict `base64_decode`,
  modelled at the level of 6-bit groups.

Hashing, signing and JSON are not modelled. They are the fields of a
`Jwt.Primitives` value passed to every operation. The round-trip results
assume, as a hypothesis, that `json_decode` inverts `json_encode`
(`JwtProperties.JsonRoundTrip`) and, for RSA, that verification accepts
what signing produced (`JwtProperties.RsaSound`). The clock is an `int`
parameter. The request, the server variables, the configuration and the
login handler files are datatypes passed in.

Where the code and its documentation disagree, the model follows the
code:
- The `nbf` check refuses a token until `nbf + maxAge - leeway`, not
  until `nbf`.
- A token whose `exp` is one second in the past is accepted only when the
  leeway is at least 2.
- A token with more than two dots is accepted: the third part keeps the
  extra dots.
- A `kid` header replaces the codec's current key for good.
- The gate's phase labels are the ones in the code.
- An error raised with code 0 is reported with code 1000.

## Model

| member | source | states |
|---|---|---|
| PhpStrings.Count | libs/JWT.php:162 | `substr_count` is at most the length, and is zero exactly when the needle does not occur |
| PhpStrings.Explode | AuthorizationJWT.php:75 | `explode` without a limit gives one part more than there are separators, no part contains the separator, and `implode` of the parts is the input |
| PhpStrings.ExplodeImplode | HelpREST.php:119-125 | splitting what `implode` joined gives back the parts when none contains the separator |
| PhpStrings.ExplodeLimit | libs/JWT.php:166 | `explode` with a positive limit gives at least one and at most `limit` parts |
| PhpStrings.ExplodeThreeParts | libs/JWT.php:162-166 | once the token has at least two dots, `explode('.', token, 3)` has exactly three parts, so `$token[2]` exists |
| PhpStrings.ExplodeJoined | libs/JWT.php:150 | splitting `a.b.c` with limit 3 gives `[a, b, c]` when `a` and `b` have no dot, whatever dots `c` holds |
| PhpStrings.Strtr | libs/JWT.php:257 | `strtr` keeps the length and translates each byte on its own |
| PhpStrings.RTrim | libs/JWT.php:257 | `rtrim` keeps a prefix that does not end in the trimmed character and removes only that character |
| PhpArrays.Get | libs/JWT.php:315 | an array lookup finds a value exactly when the key is present |
| PhpArrays.Put | libs/JWT.php:143 | assigning a key sets it, leaves every other key as it was, and a string key leaves the integer-keyed values unchanged |
| PhpArrays.ArrayMergeLookup | libs/JWT.php:123 | after `array_merge`, a string key has the second array's value if it has one and the first's otherwise; integer keys are renumbered 0, 1, … over the first array's integer-keyed values followed by the second's |
| PhpArrays.MergeIntoDense | libs/JWT.php:123 | merging keeps the integer keys dense (0 … n-1) |
| Base64.Sextets | libs/JWT.php:257 | base64 produces 4 digits per 3 bytes, and `rem + 1` digits for a remainder of `rem` bytes before padding |
| Base64.UrlDigit | libs/JWT.php:257 | the base64url alphabet has no `+`, `/`, `=`, `.` or space |
| Base64.OctetsOfSextets | libs/JWT.php:257-272 | regrouping bytes into 6-bit digits and back loses nothing |
| Base64.ValuesOfDigits | libs/JWT.php:272 | decoding a standard digit gives back its 6-bit value |
| Base64.RTrimNoTrailing | libs/JWT.php:257 | `rtrim(…, '=')` removes exactly the padding |
| Base64.UrlSafeEncodeIsDigits | libs/JWT.php:251-258 | `strtr(base64_encode(b), '+/', '-_')` without padding is the base64url digits of `b` |
| Base64.UrlSafeAlphabet | libs/JWT.php:257 | no `+`, `/`, `=` or `.` occurs in a base64url segment |
| Base64.NoDotInUrlSafe | libs/JWT.php:150 | a base64url segment contains no dot and no space, so the token's dots and the header's space separate unambiguously |
| Base64.UrlSafeDecodeOfDigits | libs/JWT.php:270-273 | `urlSafeDecode` of base64url digits is the bytes those digits encode |
| Base64.UrlSafeRoundTrip | libs/JWT.php:251-278 | `urlSafeDecode(urlSafeEncode(b), false) == b` for all bytes |
| Jwt.Code | libs/JWT.php:25-39 | every failure code lies between 10 and 70 |
| JwtProperties.CodesIdentifyErrors | libs/JWT.php:25-39 | two failures share a code exactly when they carry the same identifier, or both are the JSON failures (code 40) |
| Jwt.AlgoOf | libs/JWT.php:57-64 | an algorithm name is accepted exactly when it is one of the six table keys, and maps back to that name |
| Jwt.Construct | libs/JWT.php:97-112 | a successful construction keeps maxAge (≥ 1), leeway (0–120), the requested algorithm and the given passphrase, with no test timestamp; a string key becomes the key with an empty key table |
| JwtProperties.ConstructChecks | libs/JWT.php:284-294 | construction succeeds exactly when the key is non-empty, the algorithm is known, maxAge ≥ 1 and leeway is in 0–120; otherwise it fails with the first violated check, in that order |
| JwtProperties.ConstructKeyTable | libs/JWT.php:101-106 | given a key table, the first value becomes the key and the table is registered with string keys kept and integer keys renumbered |
| Jwt.Codec.Init | libs/JWT.php:106-110 | once maxAge ≥ 1 and leeway in 0–120 are established, the fields are set as given, with an empty key table and no test timestamp |
| Jwt.Codec.Create | libs/JWT.php:97-112 | the constructor fails with `Construct`'s failure, or builds a fresh codec whose state is `Construct`'s |
| Jwt.Codec.RegisterKeys | libs/JWT.php:121-126 | the key table becomes the old one `array_merge`d with the new keys; nothing else changes |
| JwtProperties.RegisterKeysMerge | libs/JWT.php:121-126 | after registering, string kids find the newest value and integer kids index the concatenated integer-keyed values; the key is unchanged |
| JwtProperties.NumericKidRenumbered | libs/JWT.php:101-103 | a key table `[n => k]` with `n ≠ 0` is renumbered by `array_merge`: kid `n` is then unknown, and kid `0` selects `k` |
| JwtProperties.LongNumericKid | libs/JWT.php:101-103 | a key table whose key is a decimal number beyond the 64-bit range keeps it as a string key through `array_merge`, and a `kid` of that text selects its value |
| PhpStrings.IntKeyRange | libs/JWT.php:315 | a number written in decimal becomes an integer array key exactly when it lies in the 64-bit range (down to -2^63 with a minus sign), and stays a string key otherwise |
| PhpStrings.NatToStringValue | libs/JWT.php:315 | the decimal text of a number is digits with no leading zero that read back as the number |
| Jwt.Codec.SetTestTimestamp | libs/JWT.php:186-190 | only the test timestamp changes |
| Jwt.Codec.ValidateKid | libs/JWT.php:311-318 | the verdict and new state are `SelectKey`'s: without a `kid` nothing changes; a `kid`, used as a PHP array offset (booleans as 0/1, floats truncated, decimal-integer strings within the 64-bit range as integers), must name a non-empty table entry, which becomes the key, or the codec is left unchanged with `kid_unknown` (70); an array `kid` is a `TypeError` |
| JwtProperties.SelectKeyChangesOnlyKey | libs/JWT.php:311-318 | selecting a kid changes only the key, and only to the non-empty table entry of a `kid` the header sets |
| JwtProperties.SelectKeyIdempotent | libs/JWT.php:311-318 | validating the same header twice gives the same state as validating it once |
| JwtProperties.KidOffsets | libs/JWT.php:313-317 | a set `kid` that is an array raises a `TypeError`; a float `kid` selects exactly as its integer part does |
| JwtProperties.ZeroFloatKid | libs/JWT.php:315-317 | a header with `kid` 0.0 selects the non-empty key registered at index 0 |
| JwtProperties.ArrayOffsetsRaise | libs/JWT.php:299-317 | a header with a non-empty array `alg`, or a supported `alg` and an array `kid`, is refused with a `TypeError` rather than an `ExceptionJWT` |
| Jwt.Codec.ValidateHeader | libs/JWT.php:299-306 | the verdict and new state are `CheckHeader`'s: an empty `alg` fails with `algo_missing` (22), a non-empty array `alg` with a `TypeError`, any other `alg` outside the table with `algo_unsupported` (20), all leaving the codec unchanged; then the `kid` is checked as in `ValidateKid` |
| JwtProperties.HeaderFields | libs/JWT.php:138 | the token header has `typ` = `JWT` and `alg` = the codec's algorithm, overriding the caller's; every other field is the caller's |
| JwtProperties.DefaultExpAdded | libs/JWT.php:142-144 | without `iat` and `exp`, encoding adds `exp = now + maxAge`; otherwise the payload is untouched; no other claim changes |
| Jwt.Codec.Sign | libs/JWT.php:199-211 | the signature is `SignSpec` of the current state: HMAC for `HS*`, otherwise the key must load and RSA signs |
| Jwt.Codec.Verify | libs/JWT.php:223-238 | the verdict is `VerifySpec` of the current state |
| JwtProperties.SignedVerifies | libs/JWT.php:199-238 | a signature the codec produced verifies under the same state (for RSA, given a sound key pair) |
| Jwt.HashEquals | libs/JWT.php:12-22 | the constant-time comparison is true exactly when the strings are equal |
| Jwt.XorZero | libs/JWT.php:17 | the XOR of two bytes is 0 exactly when they are equal |
| Jwt.OrZero | libs/JWT.php:19 | an OR is 0 exactly when both operands are 0 |
| Jwt.AccumulateStep | libs/JWT.php:19-20 | one step of the accumulator stays 0 exactly when it was 0 and the two bytes agree |
| Jwt.FirstFailure | libs/JWT.php:332-340 | no failure is reported exactly when every timestamp check passes |
| JwtProperties.FirstOfThree | libs/JWT.php:326-340 | the checks run in the order `exp`, `iat`, `nbf`, and the first failing one is reported |
| Jwt.Codec.ValidateTimestamps | libs/JWT.php:323-341 | the verdict is `TimestampFailure` at the test timestamp (when set and non-zero) or the clock: the first failing check of `exp`, `iat`, `nbf` in that order, each claim counted as PHP 8 adds it to an integer (null as 0, booleans as 0/1, a string by the integer it starts with), and a `TypeError` for a claim with no integer to add |
| JwtProperties.TimestampWindow | libs/JWT.php:323-341 | with numeric claims, a payload is accepted exactly when `now < exp + leeway`, `now < iat + maxAge - leeway` and `now > nbf + maxAge - leeway`; the first two fail with "expired", the third with "not active yet" |
| JwtProperties.DefaultExpiryWindow | libs/JWT.php:142-144 | a payload stamped with the default `exp` at time `t` is accepted until `t + maxAge + leeway` and expired from then on |
| JwtProperties.TimestampErrors | libs/JWT.php:323-341 | the timestamp checks fail only with "expired", "not active yet" or a type error from a non-numeric claim |
| JwtProperties.NbfNowRefused | libs/JWT.php:329-336 | a token whose `nbf` is now is refused as not active yet whenever maxAge ≥ leeway |
| JwtProperties.ExpiredOneSecondAgo | libs/JWT.php:327-336 | a token whose `exp` was one second ago is accepted exactly when the leeway is at least 2 |
| JwtProperties.SignedStringClaims | libs/JWT.php:335 | timestamp strings `" 1"`, `"+1"` and `"-7"` count as 1, 1 and -7: leading whitespace and a sign are read |
| JwtProperties.TrailingStringClaims | libs/JWT.php:335 | timestamp strings `"1 "` and `"17abc"` count as 1 and 17, the text after the integer being ignored, while `"abc"` is a `TypeError` |
| PhpStrings.IntegerPrefix | libs/JWT.php:335 | a string of an optional sign, digits and a tail that starts neither a fraction nor an exponent reads, in arithmetic, as the signed value of the digits |
| PhpStrings.LeadingWhitespaceSkipped | libs/JWT.php:335 | whitespace in front of a string does not change what arithmetic reads from it |
| PhpStrings.LettersAreNoNumber | libs/JWT.php:335 | a string starting with a letter has no number in front, so adding it raises a `TypeError` |
| Jwt.Codec.Encode | libs/JWT.php:136-151 | the token and the new codec state are `EncodeSpec`'s |
| JwtProperties.EncodedTokenShape | libs/JWT.php:146-150 | an issued token has exactly two dots, and splits into the header segment, the payload segment and the base64url signature of `header.payload` |
| JwtProperties.TokenOfSegments | libs/JWT.php:150 | joining three dot-free segments gives a token with two dots that splits back into them |
| Jwt.Codec.Decode | libs/JWT.php:160-179 | the result and the new codec state are `DecodeSpec`'s |
| JwtProperties.FewDotsRefused | libs/JWT.php:162-164 | a token with fewer than two dots fails with code 50 and leaves the codec unchanged |
| JwtProperties.DecodeSplitsAtFirstTwoDots | libs/JWT.php:166 | decoding `h.b.s` with dot-free `h` and `b` works on exactly those three segments |
| JwtProperties.HeaderChecksFirst | libs/JWT.php:167 | an unreadable header, a missing `alg`, any non-empty `alg` outside the table that is not an array (20, `none` among them), a non-empty array `alg` (a `TypeError`) and an unknown `kid` are each refused before the signature is looked at, and leave the codec unchanged |
| JwtProperties.DecodeKeepsSettings | libs/JWT.php:160-179 | decoding changes at most the current key |
| JwtProperties.SegmentsKeepSettings | libs/JWT.php:166-179 | decoding the segments leaves the state as it was or as header validation set it, and changes at most the key |
| JwtProperties.HmacSignatureChecked | libs/JWT.php:170-172 | with an HMAC algorithm and an accepted header, decoding fails on the signature exactly when the third segment is not the base64url HMAC of `header.payload` |
| JwtProperties.EncodeDecodeRoundTrip | libs/JWT.php:136-179 | decoding an issued token with the same codec gives back the stamped payload, unless the timestamp window refuses it |
| JwtProperties.SegmentsAccepted | libs/JWT.php:166-179 | segments whose header passes unchanged and whose signature verifies decode to their payload unless the timestamp checks fail |
| JwtProperties.PayloadJsonAfterSignature | libs/JWT.php:174 | once the header and the signature are accepted, a payload segment that does not decode to a JSON object is refused with 40 (`json_decode`), in the state header validation left |
| JwtProperties.HeaderOfEncodeChecks | libs/JWT.php:138-140 | a header the codec writes passes the codec's own header validation |
| ResponseJson.ErrorResponse | ResponseJSON.php:74-81 | an error response carries the message and the phase; its status is the given HTTP code or else the exception's code; its error code is never 0, and is the exception's own code when that is nonzero |
| ResponseJson.SuccessResponse | ResponseJSON.php:52-60 | a success response carries the data, with status 201 exactly for POST |
| ResponseJson.Response.constructor | ResponseJSON.php:26 | a new response has phase `[0] Unknown` and has not ended |
| ResponseJson.Response.Phase | ResponseJSON.php:29 | only the phase label changes |
| ResponseJson.Response.Error | ResponseJSON.php:74-81 | the response ends with the error response built from the current phase |
| ResponseJson.Response.Success | ResponseJSON.php:52-60 | the response ends with the success response |
| AuthorizationJwt.Authorization.New | AuthorizationJWT.php:64-95 | the outcome is `Gate`'s; an ended outcome is what the response ended with; otherwise the response stays open; an admitted request keeps its payload and the expiration |
| AuthorizationJwt.Authorization.Screen | AuthorizationJWT.php:76-93 | the decoded token is screened as `TokenOutcome` says, and the response ends exactly when the request is refused |
| AuthorizationJwt.Authorization.Authorize | AuthorizationJWT.php:35-56 | a login request always ends the response, with `Login`'s ending |
| AuthorizationJwt.Authorization.JwtEncode | AuthorizationJWT.php:102 | the token is the codec's encoding of the payload with the `type` claim of the requested kind |
| AuthorizationJwt.Authorization.JwtDecode | AuthorizationJWT.php:108-117 | the result is the codec's decoding, checked for the requested `type` |
| AuthorizationProperties.GateCodecSettings | AuthorizationJWT.php:65-66 | the gate's codec is HS384 with maxAge = expiration and leeway 3, and it can be built exactly when the secret is non-empty and the expiration is at least 1; otherwise the gate throws that failure |
| AuthorizationProperties.LoginOutcomes | AuthorizationJWT.php:35-56 | non-POST login requests get 405; an unknown sub-path gets 400 with code 1000; success means a POST to `token`, `authorize` or `update` whose handler exists and returns, and gives status 201 with the handler's data; a missing handler file ends with 500, and a handler that throws ends with its exception; every error ending is in phase [2] |
| AuthorizationProperties.LoginIgnoresToken | AuthorizationJWT.php:67-68 | a request under `auth` ends without looking at the `Authorization` header |
| AuthorizationProperties.MissingHeaderRefused | AuthorizationJWT.php:70-74 | a request without `Authorization` is refused with 401, code 1000, in phase `[1.1] Authorize` |
| AuthorizationProperties.CodecFailureRefused | AuthorizationJWT.php:88-90 | a codec failure is refused with 401 and the failure's own code and message, in phase `[1.2]` |
| AuthorizationProperties.ArrayOffsetCrashes | AuthorizationJWT.php:76-93 | a bearer token whose header has a non-empty array `alg`, or a supported `alg` and an array `kid`, raises a `TypeError` that neither `catch` takes: the request dies instead of being refused |
| AuthorizationProperties.RefreshTokenRefused | AuthorizationJWT.php:78-81 | a valid refresh token is refused for API access with 401 |
| AuthorizationProperties.WrongTypeRefused | AuthorizationJWT.php:78-81 | any payload whose `type` is not `access` is refused with 401, code 1000 |
| AuthorizationProperties.ScopeMismatchForbidden | AuthorizationJWT.php:82-85 | an access token for another API version is refused with 403, in phase `[1.3]` |
| AuthorizationProperties.AdmittedExactly | AuthorizationJWT.php:76-87 | a request is admitted with payload `p` exactly when it sends a token that decodes to `p`, whose `type` is `access` and whose `scope` is the request's version |
| AuthorizationProperties.ProtectedRefusals | AuthorizationJWT.php:70-93 | every refusal of a protected request is an error response with status 401 or 403 |
| AuthorizationProperties.TokenRefusals | AuthorizationJWT.php:77-93 | every refusal after decoding is an error response with status 401 or 403 |
| AuthorizationProperties.BearerTokenOf | AuthorizationJWT.php:75-77 | the token read from `scheme token` is `token` when neither contains a space |
| AuthorizationProperties.TypedPayloadClaims | AuthorizationJWT.php:102 | an issued payload has the kind's `type` claim, and every other claim as given |
| AuthorizationProperties.CheckDecodedOutcomes | AuthorizationJWT.php:108-117 | a decoded token is accepted exactly when it decoded and has the asked `type`; every refusal has code 401 |
| AuthorizationProperties.KindsNotInterchangeable | AuthorizationJWT.php:102-117 | a token issued as one kind is accepted as exactly that kind |
| AuthorizationProperties.EncodedTokenHasNoSpace | libs/JWT.php:146-150 | an issued token contains no space, so it survives the `Authorization` header split |
| AuthorizationProperties.NoSpaceJoined | libs/JWT.php:150 | joining space-free segments with dots gives a space-free token |
| AuthorizationProperties.PlainTokenRoundTrip | libs/JWT.php:136-179 | decoding an issued HMAC token gives the stamped payload unless the window refuses it, and encoding leaves the state unchanged |
| AuthorizationProperties.FreshPayload | libs/JWT.php:142-144 | a payload without timestamps, stamped at `t`, gets `exp = t + maxAge` and passes the window exactly before `t + maxAge + leeway` |
| AuthorizationProperties.IssuedTokenDecodes | libs/JWT.php:136-179 | an HMAC token issued at `t` decodes to the payload plus `exp` before `t + maxAge + leeway`, and fails as expired from then on |
| AuthorizationProperties.IssuedAccessToken | AuthorizationJWT.php:102 | an access token issued at `t` is space-free and decodes to the typed payload plus `exp` until it expires |
| AuthorizationProperties.FreshAccessTokenDecodes | AuthorizationJWT.php:102 | an unexpired access token decodes to the typed payload plus `exp` |
| AuthorizationProperties.StampedAccessPayload | AuthorizationJWT.php:78-82 | stamping `exp` keeps the `type` and `scope` claims the gate checks |
| AuthorizationProperties.IssuedAccessTokenAdmitted | AuthorizationJWT.php:64-87 | an access token the gate's codec issued for the requested version, sent as `scheme token`, is admitted until it expires |
| AuthorizationProperties.IssuedAccessTokenExpires | AuthorizationJWT.php:88-90 | the same token is refused with 401 and code 52 once it has expired |
| AuthorizationProperties.GateAdmitsToken | AuthorizationJWT.php:75-87 | a non-login request whose bearer token decodes to an access payload of its version is admitted with that payload |
| AuthorizationProperties.GateRefusesToken | AuthorizationJWT.php:75-90 | a non-login request whose bearer token fails to decode is refused with 401 and the failure's code and message |
| HelpRender.Lines | HelpREST.php:131 | a list-shaped value gives one line per item, each the item as `implode` shows it |
| HelpRender.CodeToHtml | HelpREST.php:129-188 | the rendering is the joined lines for a list, and the pretty-printed JSON otherwise |
| HelpRender.ListCodeLines | HelpREST.php:130-131 | splitting a list's rendering at newlines gives back its lines when no item holds a newline |
| HelpRender.DropDigits | HelpREST.php:99 | removing trailing digits keeps the longest prefix that does not end in a digit, and removes only digits |
| HelpRender.DropNumber | HelpREST.php:99 | removing trailing digits from a name followed by digits gives back the name |
| HelpRender.SyntaxOfNumberedKey | HelpREST.php:97-99 | `code_<name><n>` shows syntax `<name>`, so one syntax can appear several times |
| HelpRender.SyntaxOfPlainKey | HelpREST.php:97-99 | `code_<name>` shows syntax `<name>` when the name ends in neither a digit nor a newline |
| HelpRender.DigitsAreNumeric | HelpREST.php:104 | an all-digit key is numeric and gets no heading |
| HelpRender.WordsAreNotNumeric | HelpREST.php:104 | a key that starts with a letter is not numeric and gets a heading |
| HelpRender.UrlEncodedIsSafe | HelpREST.php:104 | the heading id holds only letters, digits, `-_.%+` |
| HelpRender.UrlRoundTrip | HelpREST.php:104 | `urldecode` gives the heading key back from its id |
| HelpRender.ArrayToHtml | HelpREST.php:94-112 | the output is the concatenated HTML of the blocks `Layout` assigns to the entries, in order; a text in place of an array renders as "" |
| HelpRender.PageBody | HelpREST.php:49 | the page body is `arrayToHtml` of the `texts` array at its default starting level 2, and "" when `texts` is not an array |
| HelpRender.PageHeadings | HelpREST.php:94-105 | on the page every heading is at least `<h2>` and less than 2 plus the nesting depth, and each top entry with a heading key contributes an `<h2>` heading of that key |
| HelpRender.StartHeadingMarkup | HelpREST.php:104 | a heading at the starting level is an `h2` element whose id is the url-encoded key |
| HelpRender.EntryToHtml | HelpREST.php:96-109 | one entry renders as the HTML of its blocks |
| HelpRender.EntryShape | HelpREST.php:96-109 | a `code_` key gives one `<pre>` block; any other key gives a heading when non-numeric, then the nested array's blocks one level deeper or a paragraph |
| HelpRender.EntryHtml | HelpREST.php:96-110 | the body grows entry by entry: each entry appends exactly its own HTML |
| HelpRender.HeadingLevels | HelpREST.php:104-105 | every heading of a nested array sits between the starting level and that level plus the nesting depth |
| HelpRender.EntryHeading | HelpREST.php:97-104 | an entry starts with a heading at the current level exactly when its key is neither a `code_` key nor numeric, and that heading shows the key |
| HelpLinks.WithSlash | HelpREST.php:126 | the base path ends in exactly one added `/`, and otherwise is unchanged |
| HelpLinks.LinkToHtml | HelpREST.php:113-128 | the anchor built by the loop is `LinkHtml`'s |
| HelpLinks.WalkKeeps | HelpREST.php:119-123 | the link keeps exactly its segments that are neither `.` nor `..`, in order |
| HelpLinks.WalkDrops | HelpREST.php:119-123 | each `..` drops one trailing segment of the base path, never more than it has |
| HelpLinks.LinkAddress | HelpREST.php:113-128 | the anchor's address is the base path less one segment per `..`, a `/`, then the kept segments; its text is the whole reference |
| HelpLinks.PlainLink | HelpREST.php:119-127 | a link without `.` or `..` segments is appended to the slash-terminated base path |
| HelpLinks.LinkAt | HelpREST.php:107 | a match starts with `{@link `, ends with `}` and encloses a target of at least one character |
| HelpLinks.NoLinkUnchanged | HelpREST.php:107 | text without `{` is unchanged |
| HelpLinks.LeadingLink | HelpREST.php:107 | a reference at the start is replaced by the callback's anchor, and the rest is processed on |
| HelpLinks.CopiedPrefix | HelpREST.php:107 | text before the first `{` is copied unchanged |
| HelpLinks.FirstLinkReplaced | HelpREST.php:107 | in `before {@link t} after`, only the reference is replaced |
| HelpLinks.FirstLinkExpanded | HelpREST.php:107-108 | a paragraph's first reference becomes `linkToHtml`'s anchor for it, with the text around it kept |
| HelpPretty.PrettyPrint | HelpREST.php:135-187 | the loop's output is `Pretty` of the JSON text |
| HelpPretty.PrintChar | HelpREST.php:143-184 | one pass of the loop body is one `Step` of the printer |
| HelpPretty.RunFollowsKinds | HelpREST.php:146-180 | after any prefix, the level is the bracket depth outside strings, and a line break is pending exactly after an opening bracket or a comma, with blanks skipped |
| HelpPretty.LevelIsDepth | HelpREST.php:156-163 | the level is the number of opening minus closing brackets outside strings |
| HelpPretty.Indent | HelpREST.php:182 | the indentation is two spaces per level and none for a level ≤ 0 |
| HelpPretty.PieceLayout | HelpREST.php:146-184 | a closing bracket starts a new line at the reduced depth, other non-blank characters start one when a break is pending, blanks print nothing, and a colon is followed by a space |
| HelpPretty.CharsAreMinified | HelpREST.php:172-176 | the characters printed, without the layout, are the input less the whitespace outside strings |
| HelpPretty.PrettyIsShownPieces | HelpREST.php:181-184 | each character appends exactly its own piece to the output |
| HelpPretty.BlankPrintsNothing | HelpREST.php:172-176 | whitespace outside strings prints nothing |

## Left out

- Hashing and signing (`hash_hmac`, `openssl_sign`, `openssl_verify`, `openssl_get_privatekey`, `openssl_pkey_get_details`) are abstract functions of `Jwt.Primitives`. The `file://` prefixing in `validateKey` is folded into `keyLoads`. A key already loaded as an OpenSSL resource is not modelled. The RSA case of `JwtProperties.SignedVerifies` and the RSA branch of `JwtProperties.EncodeDecodeRoundTrip` describe a runtime where `openssl_get_privatekey` gives a resource; under PHP 8 it gives an `OpenSSLAsymmetricKey` object, `is_resource` is false for it, and every RS* signature fails with `key_invalid`, which is `keyLoads` always false.
- `json_encode` and `json_decode` are abstract functions. `json_encode` is total in the model, so the `json_encode` failure at `libs/JWT.php:370` is left out. That branch raises an id missing from the message table.
- Claims and headers are maps from string keys to JSON values. Claim order, integer claim keys and duplicate keys are lost. A JSON float is kept as its integer part and whether it has a fraction; lists and objects are arrays, kept only as empty or not.
- Jwt.OffsetKey: a float `kid` or `alg` is keyed by its integer part whatever its size; a float beyond the 64-bit range, which PHP converts to an integer by its own out-of-range rule, is not modelled. A JSON integer beyond 64 bits, which `json_decode` gives as a float, is left to the abstract `json_decode`.
- Jwt.ClaimNumber: a float timestamp claim (a JSON float, or a string PHP reads as a float such as `"1.5e9"` or `"1."`) is answered with a type failure, whereas PHP adds it as a float and compares; the `PHP_INT_MAX` overflow of `$offset += …` and integer strings too long for 64 bits, which PHP reads as floats, are not modelled either.
- Jwt.Codec.ValidateTimestamps: inherits the `Jwt.ClaimNumber` gap above for float claims; integer, boolean, null and integer-string claims are modelled as PHP 8 adds them.
- The `hash_equals` polyfill only exists when PHP lacks it; `Jwt.HashEquals` models the polyfill. `Jwt.Codec.Verify` states its result through `VerifySpec`, which compares the strings directly.
- AuthorizationJwt.Authorization.New: the `catch(\Exception)` branch (phase `[1] Authentication`, status 500) is left out. Nothing the modelled codec raises reaches it: the codec's own failures are `ExceptionJWT`, and the `TypeError` from a non-numeric claim or from an array `alg` or `kid` offset is not an `\Exception` and is not caught. That error is the outcome `Crashed`.
- Running a login handler (`require_once` of the handler file and of `requires_once`) is the `Handlers` parameter. `file_exists` is `Handlers.present`.
- ResponseJson.Response.constructor: the `Accept` header check and the request-error branch are left out. The response starts in phase `[0] Unknown`. `dataSet` is left out: the gate never calls it, so `success` has no stored data to merge.
- `exitWith` is left out: the timestamp, the headers and the process exit. An ending is recorded in `Response.ending`, and the methods that end a response require that it has not ended.
- The `Help` constructor (locating `help.php`, method and existence checks), the page template of `toHTML` around its body, and `toUnicode` are left out.
- The JSON text `codeToHTML` prints is the `Context.encode` parameter. It stands for `json_encode` followed by the `\/` and `\uXXXX` unescaping.
- Help values that are neither strings nor arrays (numbers, booleans) are left out. A nested array inside a list of code lines is shown as `Array`, as `implode` does.
- `$_SERVER['REDIRECT_URL']` and `$_SERVER['QUERY_STRING']` are the `Page` datatype.
- `is_numeric` follows PHP 8: leading and trailing whitespace, sign, decimals and exponent.
- An empty help array is not list-shaped, because `range(0, -1)` is `[0, -1]`. It is therefore JSON-encoded.
- The loops of `codeToHTML`, `arrayToHtml` and `Authorization::__construct` are split into helper methods: `HelpPretty.PrintChar` and `HelpRender.EntryToHtml` are one loop iteration, and `AuthorizationJwt.Authorization.Screen` is the token checks.
- HelpPretty.Indent: gives "" for a negative level, where PHP 8's `str_repeat` throws a `ValueError`. A negative level arises from help text, not from `json_encode`: a help string `\uZZZZ` is encoded as `\\uZZZZ`, `toUnicode` replaces its `\uZZZZ` part with "" (its `json_decode` gives null), and the backslash left in front of the closing quote keeps the string open, so that the help value `{"a":"\uZZZZ","b":"]]"}` reaches level -1.
