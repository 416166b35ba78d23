/**
 * PHP's `base64_encode` and non-strict `base64_decode` (RFC 4648 section 4),
 * and the URL-safe variant the JWT codec builds from them
 * (RFC 4648 section 5, padding removed): `+/` become `-_` and trailing `=`
 * are trimmed.
 */
module Base64 {
  import opened Results
  import opened PhpStrings

  /** A six-bit value: one base64 digit. */
  type Sextet = x: int | 0 <= x < 64

  function ToOctet(x: int): Octet
    requires 0 <= x < 256
  {
    x as char
  }

  /** The character of the standard alphabet for a six-bit value. */
  function Digit(x: Sextet): (c: Octet)
    ensures c != '=' && c != '.' && c != '-' && c != '_' && c != ' '
  {
    if x < 26 then ('A' as int + x) as char
    else if x < 52 then ('a' as int + (x - 26)) as char
    else if x < 62 then ('0' as int + (x - 52)) as char
    else if x == 62 then '+'
    else '/'
  }

  /** The character of the URL-safe alphabet for a six-bit value. */
  function UrlDigit(x: Sextet): (c: Octet)
    ensures c != '+' && c != '/' && c != '=' && c != '.' && c != ' '
  {
    if x == 62 then '-' else if x == 63 then '_' else Digit(x)
  }

  /** The value `base64_decode` gives a character: `None` for `=` and for characters it skips. */
  function ValueOf(c: char): (r: Option<Sextet>)
    ensures c == '=' ==> r.None?
  {
    if 'A' <= c <= 'Z' then Some(c as int - 'A' as int)
    else if 'a' <= c <= 'z' then Some(c as int - 'a' as int + 26)
    else if '0' <= c <= '9' then Some(c as int - '0' as int + 52)
    else if c == '+' then Some(62)
    else if c == '/' then Some(63)
    else None
  }

  /** Bytes to six-bit groups: three bytes give four digits, a last one or two bytes give two or three. */
  function Sextets(b: Bytes): (r: seq<Sextet>)
    ensures |r| == |b| / 3 * 4 + (if |b| % 3 == 0 then 0 else |b| % 3 + 1)
  {
    if |b| == 0 then []
    else
      var b0 := b[0] as int;
      if |b| == 1 then [b0 / 4, b0 % 4 * 16]
      else
        var b1 := b[1] as int;
        if |b| == 2 then [b0 / 4, b0 % 4 * 16 + b1 / 16, b1 % 16 * 4]
        else Group(b[0], b[1], b[2]) + Sextets(b[3..])
  }

  /** The four digits of three bytes. */
  function Group(c0: Octet, c1: Octet, c2: Octet): seq<Sextet>
  {
    var b0, b1, b2 := c0 as int, c1 as int, c2 as int;
    [b0 / 4, b0 % 4 * 16 + b1 / 16, b1 % 16 * 4 + b2 / 64, b2 % 64]
  }

  /**
   * Six-bit groups to bytes, as `base64_decode` reassembles them: four digits
   * give three bytes, a last two or three give one or two, a last single digit
   * gives nothing.
   */
  function Octets(s: seq<Sextet>): Bytes
  {
    if |s| < 2 then []
    else
      var first := ToOctet(s[0] as int * 4 + s[1] as int / 16);
      if |s| == 2 then [first]
      else
        var second := ToOctet(s[1] as int % 16 * 16 + s[2] as int / 4);
        if |s| == 3 then [first, second]
        else [first, second, ToOctet(s[2] as int % 4 * 64 + s[3] as int)] + Octets(s[4..])
  }

  function Digits(xs: seq<Sextet>): (r: Bytes)
    ensures |r| == |xs| && forall i :: 0 <= i < |xs| ==> r[i] == Digit(xs[i])
  {
    seq(|xs|, i requires 0 <= i < |xs| => Digit(xs[i]))
  }

  function UrlDigits(xs: seq<Sextet>): (r: Bytes)
    ensures |r| == |xs| && forall i :: 0 <= i < |xs| ==> r[i] == UrlDigit(xs[i])
  {
    seq(|xs|, i requires 0 <= i < |xs| => UrlDigit(xs[i]))
  }

  /** The `=` padding that brings the encoding of `n` bytes to a multiple of four characters. */
  function Padding(n: nat): (r: Bytes)
    ensures forall i :: 0 <= i < |r| ==> r[i] == '='
  {
    if n % 3 == 1 then "==" else if n % 3 == 2 then "=" else ""
  }

  /** `base64_encode(b)`. */
  function Encode(b: Bytes): Bytes
  {
    Digits(Sextets(b)) + Padding(|b|)
  }

  /** The digit values of `s`, skipping `=` and every character outside the alphabet. */
  function Values(s: string): seq<Sextet>
  {
    if s == [] then []
    else match ValueOf(s[0])
      case Some(x) => [x] + Values(s[1..])
      case None => Values(s[1..])
  }

  /** `base64_decode(s)` in its default, non-strict mode. */
  function Decode(s: string): Bytes
  {
    Octets(Values(s))
  }

  /** `JWT::urlSafeEncode` on a string: base64, `+/` to `-_`, trailing `=` removed. */
  function UrlSafeEncode(b: Bytes): Bytes
  {
    RTrim(Strtr(Encode(b), "+/", "-_"), '=')
  }

  /** `JWT::urlSafeDecode(s, false)`: `-_` back to `+/`, then `base64_decode`. */
  function UrlSafeDecode(s: Bytes): Bytes
  {
    Decode(Strtr(s, "-_", "+/"))
  }

  // ---------------------------------------------------------------------
  // Properties
  // ---------------------------------------------------------------------

  /** Reassembling the digits of three bytes gives the three bytes back. */
  lemma GroupRoundTrip(b0: int, b1: int, b2: int)
    requires 0 <= b0 < 256 && 0 <= b1 < 256 && 0 <= b2 < 256
    ensures var s1 := b0 % 4 * 16 + b1 / 16;
            var s2 := b1 % 16 * 4 + b2 / 64;
            b0 / 4 * 4 + s1 / 16 == b0
            && s1 % 16 * 16 + s2 / 4 == b1
            && s2 % 4 * 64 + b2 % 64 == b2
            && (b1 % 16 * 4) / 4 == b1 % 16
  {
    var s1 := b0 % 4 * 16 + b1 / 16;
    var s2 := b1 % 16 * 4 + b2 / 64;
    assert s1 / 16 == b0 % 4 && s1 % 16 == b1 / 16;
    assert s2 / 4 == b1 % 16 && s2 % 4 == b2 / 64;
  }

  /** `Octets` undoes `Sextets`. */
  lemma {:induction false} OctetsOfSextets(b: Bytes)
    ensures Octets(Sextets(b)) == b
    decreases |b|
  {
    if |b| == 0 {
    } else if |b| == 1 {
      OneByteDecodes(b[0]);
      assert b == [b[0]];
    } else if |b| == 2 {
      TwoBytesDecode(b[0], b[1]);
      assert b == [b[0], b[1]];
    } else {
      LeadingGroupDecodes(b);
      OctetsOfSextets(b[3..]);
      assert b == [b[0], b[1], b[2]] + b[3..];
    }
  }

  lemma OneByteDecodes(c0: Octet)
    ensures Octets(Sextets([c0])) == [c0]
  {
    var b0 := c0 as int;
    GroupRoundTrip(b0, 0, 0);
    assert Sextets([c0]) == [b0 / 4, b0 % 4 * 16];
  }

  lemma TwoBytesDecode(c0: Octet, c1: Octet)
    ensures Octets(Sextets([c0, c1])) == [c0, c1]
  {
    var b0, b1 := c0 as int, c1 as int;
    GroupRoundTrip(b0, b1, 0);
    assert Sextets([c0, c1]) == [b0 / 4, b0 % 4 * 16 + b1 / 16, b1 % 16 * 4];
  }

  /** The first three bytes come back first. */
  lemma LeadingGroupDecodes(b: Bytes)
    requires |b| >= 3
    ensures Octets(Sextets(b)) == [b[0], b[1], b[2]] + Octets(Sextets(b[3..]))
  {
    assert Sextets(b) == Group(b[0], b[1], b[2]) + Sextets(b[3..]);
    GroupDecodes(b[0], b[1], b[2], Sextets(b[3..]));
  }

  /** Four digits made from three bytes, followed by more digits, decode to those bytes first. */
  lemma GroupDecodes(c0: Octet, c1: Octet, c2: Octet, rest: seq<Sextet>)
    ensures Octets(Group(c0, c1, c2) + rest) == [c0, c1, c2] + Octets(rest)
  {
    var b0, b1, b2 := c0 as int, c1 as int, c2 as int;
    GroupRoundTrip(b0, b1, b2);
    var g := Group(c0, c1, c2);
    var s := g + rest;
    assert s[..4] == g && s[4..] == rest;
  }

  lemma ValueOfDigit(x: Sextet)
    ensures ValueOf(Digit(x)) == Some(x)
  {
  }

  /** Reading back the standard digits of `xs` gives `xs`. */
  lemma {:induction false} ValuesOfDigits(xs: seq<Sextet>)
    ensures Values(Digits(xs)) == xs
  {
    if xs != [] {
      ValueOfDigit(xs[0]);
      assert Digits(xs)[1..] == Digits(xs[1..]);
      ValuesOfDigits(xs[1..]);
    }
  }

  lemma TrCharToUrl(c: Octet)
    ensures TrChar(c, "+/", "-_") == if c == '+' then '-' else if c == '/' then '_' else c
  {
    var from: Bytes := "+/";
    assert from[0] == '+' && from[1] == '/' && from[1..] == "/";
    if c != '+' && c != '/' {
      assert c !in from;
    }
  }

  lemma TrCharFromUrl(c: Octet)
    ensures TrChar(c, "-_", "+/") == if c == '-' then '+' else if c == '_' then '/' else c
  {
    var from: Bytes := "-_";
    assert from[0] == '-' && from[1] == '_' && from[1..] == "_";
    if c != '-' && c != '_' {
      assert c !in from;
    }
  }

  lemma RTrimNoTrailing(s: Bytes, pad: Bytes)
    requires s == [] || s[|s| - 1] != '='
    requires forall i :: 0 <= i < |pad| ==> pad[i] == '='
    ensures RTrim(s + pad, '=') == s
    decreases |pad|
  {
    if pad == [] {
      assert s + pad == s;
    } else {
      assert (s + pad)[..|s + pad| - 1] == s + pad[..|pad| - 1];
      RTrimNoTrailing(s, pad[..|pad| - 1]);
    }
  }

  /** The URL-safe encoding is exactly the URL-safe digits of the six-bit groups, with no padding. */
  lemma UrlSafeEncodeIsDigits(b: Bytes)
    ensures UrlSafeEncode(b) == UrlDigits(Sextets(b))
  {
    var xs := Sextets(b);
    var e := Encode(b);
    var t := Strtr(e, "+/", "-_");
    var pad := Padding(|b|);
    forall i | 0 <= i < |t|
      ensures t[i] == (UrlDigits(xs) + pad)[i]
    {
      TrCharToUrl(e[i]);
    }
    assert t == UrlDigits(xs) + pad;
    RTrimNoTrailing(UrlDigits(xs), pad);
  }

  /**
   * The URL-safe encoding uses neither `+`, `/`, `=` nor `.`, so it can be
   * placed between the dots of a compact token.
   */
  lemma UrlSafeAlphabet(b: Bytes)
    ensures forall i :: 0 <= i < |UrlSafeEncode(b)| ==> UrlSafeEncode(b)[i] !in "+/=."
  {
    UrlSafeEncodeIsDigits(b);
  }

  lemma NoDotInUrlSafe(b: Bytes)
    ensures '.' !in UrlSafeEncode(b) && ' ' !in UrlSafeEncode(b)
  {
    UrlSafeEncodeIsDigits(b);
  }

  /** Decoding the URL-safe digits of six-bit groups reassembles them into bytes. */
  lemma UrlSafeDecodeOfDigits(xs: seq<Sextet>)
    ensures UrlSafeDecode(UrlDigits(xs)) == Octets(xs)
  {
    var u := UrlDigits(xs);
    var t := Strtr(u, "-_", "+/");
    forall i | 0 <= i < |t|
      ensures t[i] == Digits(xs)[i]
    {
      TrCharFromUrl(u[i]);
    }
    assert t == Digits(xs);
    ValuesOfDigits(xs);
  }

  /** `urlSafeDecode(urlSafeEncode(b), false) == b` for every byte string. */
  lemma UrlSafeRoundTrip(b: Bytes)
    ensures UrlSafeDecode(UrlSafeEncode(b)) == b
  {
    UrlSafeEncodeIsDigits(b);
    UrlSafeDecodeOfDigits(Sextets(b));
    OctetsOfSextets(b);
  }
}
