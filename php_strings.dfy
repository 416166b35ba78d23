/**
 * The handful of PHP string built-ins the core relies on, on PHP's byte
 * strings: `empty`, `substr_count`, `explode`, `implode`, `strtr`, `rtrim`
 * and `str_replace`.
 */
module PhpStrings {
  import opened Results

  /** One byte of a PHP string. */
  type Octet = c: char | c as int < 256

  /** A PHP string, seen as the bytes it is made of. */
  type Bytes = seq<Octet>

  /** PHP `empty()` on a string: only "" and "0" are empty. */
  predicate IsEmptyString(s: string)
  {
    s == "" || s == "0"
  }

  /** `substr_count(s, x)` for a one-character needle. */
  function Count<T(==)>(s: seq<T>, x: T): (n: nat)
    ensures n <= |s|
    ensures n == 0 <==> x !in s
  {
    if s == [] then 0 else (if s[0] == x then 1 else 0) + Count(s[1..], x)
  }

  lemma {:induction false} CountConcat<T>(a: seq<T>, b: seq<T>, x: T)
    ensures Count(a + b, x) == Count(a, x) + Count(b, x)
  {
    if a == [] {
      assert a + b == b;
    } else {
      assert (a + b)[1..] == a[1..] + b;
      CountConcat(a[1..], b, x);
    }
  }

  /** The position of the first `x` in `s`, as `strpos` finds it. */
  function Find<T(==)>(s: seq<T>, x: T): (r: Option<nat>)
    ensures r.None? <==> x !in s
    ensures r.Some? ==> r.value < |s| && s[r.value] == x && x !in s[..r.value]
  {
    if s == [] then None
    else if s[0] == x then Some(0)
    else match Find(s[1..], x)
      case None => None
      case Some(i) =>
        assert s[..i + 1] == [s[0]] + s[1..][..i];
        Some(i + 1)
  }

  /** `implode(sep, parts)`. */
  function Implode<T>(sep: T, parts: seq<seq<T>>): seq<T>
  {
    if parts == [] then []
    else if |parts| == 1 then parts[0]
    else parts[0] + [sep] + Implode(sep, parts[1..])
  }

  /**
   * `explode(sep, s)` for a one-character separator: the pieces between
   * separators, none of them holding the separator, which `implode` puts
   * back together.
   */
  function Explode<T(==)>(sep: T, s: seq<T>): (parts: seq<seq<T>>)
    ensures |parts| == Count(s, sep) + 1
    ensures forall i :: 0 <= i < |parts| ==> sep !in parts[i]
    ensures Implode(sep, parts) == s
    decreases |s|
  {
    match Find(s, sep)
    case None => [s]
    case Some(i) =>
      var rest := Explode(sep, s[i + 1..]);
      ExplodeStep(sep, s, i, rest);
      [s[..i]] + rest
  }

  lemma ExplodeStep<T>(sep: T, s: seq<T>, i: nat, rest: seq<seq<T>>)
    requires i < |s| && s[i] == sep && sep !in s[..i]
    requires |rest| == Count(s[i + 1..], sep) + 1 && |rest| >= 1
    requires Implode(sep, rest) == s[i + 1..]
    ensures |[s[..i]] + rest| == Count(s, sep) + 1
    ensures Implode(sep, [s[..i]] + rest) == s
  {
    CountSplit(sep, s, i);
    var parts := [s[..i]] + rest;
    assert parts[0] == s[..i] && parts[1..] == rest;
    assert Implode(sep, parts) == s[..i] + [sep] + Implode(sep, rest);
    assert s == s[..i] + [sep] + s[i + 1..];
  }

  /** Splitting at the first separator: it is counted once, and nothing before it counts. */
  lemma {:induction false} CountSplit<T>(sep: T, s: seq<T>, i: nat)
    requires i < |s| && s[i] == sep && sep !in s[..i]
    ensures Count(s, sep) == Count(s[i + 1..], sep) + 1
    decreases i
  {
    if i > 0 {
      assert s[0] == s[..i][0];
      assert s[1..][..i - 1] == s[..i][1..];
      CountSplit(sep, s[1..], i - 1);
      assert s[1..][i..] == s[i + 1..];
    }
  }

  /** `explode` undoes `implode` when no part holds the separator. */
  lemma {:induction false} ExplodeImplode<T>(sep: T, parts: seq<seq<T>>)
    requires |parts| >= 1
    requires forall i :: 0 <= i < |parts| ==> sep !in parts[i]
    ensures Explode(sep, Implode(sep, parts)) == parts
    decreases |parts|
  {
    if |parts| > 1 {
      ExplodeImplode(sep, parts[1..]);
      FindAfter(sep, parts[0], Implode(sep, parts[1..]));
      assert [parts[0]] + parts[1..] == parts;
    }
  }

  /**
   * `explode(sep, s, limit)` for a positive limit: at most `limit` pieces,
   * the last one keeping the rest of the string, separators included.
   */
  function ExplodeLimit<T(==)>(sep: T, s: seq<T>, limit: nat): (parts: seq<seq<T>>)
    ensures 1 <= |parts| <= if limit == 0 then 1 else limit
    decreases limit
  {
    if limit <= 1 then [s]
    else match Find(s, sep)
      case None => [s]
      case Some(i) => [s[..i]] + ExplodeLimit(sep, s[i + 1..], limit - 1)
  }

  /** With at least two separators, a limit of three gives three pieces. */
  lemma ExplodeThreeParts<T>(sep: T, s: seq<T>)
    requires Count(s, sep) >= 2
    ensures |ExplodeLimit(sep, s, 3)| == 3
  {
    var i := Find(s, sep).value;
    CountSplit(sep, s, i);
    var t := s[i + 1..];
    var j := Find(t, sep).value;
    assert ExplodeLimit(sep, t, 2) == [t[..j]] + ExplodeLimit(sep, t[j + 1..], 1);
    assert ExplodeLimit(sep, s, 3) == [s[..i]] + ExplodeLimit(sep, t, 2);
  }

  /** Splitting `a.b.c` with a limit of three gives back `a`, `b` and `c`. */
  lemma {:induction false} ExplodeJoined<T>(sep: T, a: seq<T>, b: seq<T>, c: seq<T>)
    requires sep !in a && sep !in b
    ensures ExplodeLimit(sep, a + [sep] + b + [sep] + c, 3) == [a, b, c]
  {
    var t := b + [sep] + c;
    assert a + [sep] + b + [sep] + c == a + [sep] + t;
    ExplodeFirst(sep, a, t, 3);
    ExplodeFirst(sep, b, c, 2);
    assert ExplodeLimit(sep, c, 1) == [c];
  }

  /** With room for more pieces, the text before the first separator is the first piece. */
  lemma ExplodeFirst<T>(sep: T, a: seq<T>, rest: seq<T>, limit: nat)
    requires sep !in a && limit >= 2
    ensures ExplodeLimit(sep, a + [sep] + rest, limit) == [a] + ExplodeLimit(sep, rest, limit - 1)
  {
    FindAfter(sep, a, rest);
  }

  lemma FindAfter<T>(sep: T, a: seq<T>, rest: seq<T>)
    requires sep !in a
    ensures Find(a + [sep] + rest, sep) == Some(|a|)
    ensures (a + [sep] + rest)[..|a|] == a && (a + [sep] + rest)[|a| + 1..] == rest
  {
    var s := a + [sep] + rest;
    assert s[|a|] == sep;
    assert s[..|a|] == a;
  }

  /** `strtr(s, from, to)`: each character found in `from` becomes its partner in `to`. */
  function Strtr(s: Bytes, from: Bytes, to: Bytes): (r: Bytes)
    ensures |r| == |s|
    ensures forall i :: 0 <= i < |s| ==> r[i] == TrChar(s[i], from, to)
  {
    seq(|s|, i requires 0 <= i < |s| => TrChar(s[i], from, to))
  }

  /** The character `strtr` puts in place of `c`. */
  function TrChar(c: Octet, from: Bytes, to: Bytes): Octet
  {
    match Find(from, c)
    case Some(i) => if i < |to| then to[i] else c
    case None => c
  }

  /** `rtrim(s, c)` for a one-character list. */
  function RTrim<T(==)>(s: seq<T>, c: T): (r: seq<T>)
    ensures |r| <= |s| && r == s[..|r|]
    ensures r == [] || r[|r| - 1] != c
    ensures forall i :: |r| <= i < |s| ==> s[i] == c
  {
    if s == [] || s[|s| - 1] != c then s else RTrim(s[..|s| - 1], c)
  }

  /** `str_replace(needle, with, s)`: occurrences of `needle`, scanned left to right, each replaced by `with`. */
  function Replace<T(==)>(s: seq<T>, needle: seq<T>, with: seq<T>): seq<T>
    decreases |s|
  {
    if needle == [] || |s| < |needle| then s
    else if s[..|needle|] == needle then with + Replace(s[|needle|..], needle, with)
    else [s[0]] + Replace(s[1..], needle, with)
  }

  /** Decimal digits of a natural number, as PHP prints integers. */
  function NatToString(n: nat): (r: string)
    ensures |r| >= 1
    ensures forall i :: 0 <= i < |r| ==> '0' <= r[i] <= '9'
  {
    if n < 10 then [DigitChar(n)] else NatToString(n / 10) + [DigitChar(n % 10)]
  }

  function DigitChar(d: nat): (c: char)
    requires d < 10
    ensures '0' <= c <= '9'
  {
    ('0' as int + d) as char
  }

  predicate IsDigit(c: char)
  {
    '0' <= c <= '9'
  }

  predicate AllDigits(s: string)
  {
    forall i :: 0 <= i < |s| ==> IsDigit(s[i])
  }

  function DecimalValue(s: string): nat
    requires AllDigits(s)
  {
    if s == [] then 0 else DecimalValue(s[..|s| - 1]) * 10 + (s[|s| - 1] as int - '0' as int)
  }

  /** A key of a PHP array: decimal-integer strings become integer keys. */
  datatype ArrayKey = IntKey(i: int) | StrKey(s: string)

  /** The bounds of a 64-bit PHP integer. */
  const IntMax: int := 0x7FFF_FFFF_FFFF_FFFF
  const IntMin: int := -0x8000_0000_0000_0000

  /**
   * The decimal strings PHP turns into integer keys: no sign "+", no leading
   * zero, no "-0", and a value a 64-bit integer can hold; any other string
   * stays a string key.
   */
  predicate IsCanonicalInt(s: string)
  {
    var digits := if |s| > 0 && s[0] == '-' then s[1..] else s;
    |digits| > 0 && AllDigits(digits)
    && (digits[0] != '0' || (|digits| == 1 && digits == s))
    && (if s[0] == '-' then -(DecimalValue(digits) as int) >= IntMin else DecimalValue(digits) <= IntMax)
  }

  /** The key PHP stores when a string `s` is used as an array key. */
  function KeyOfString(s: string): ArrayKey
  {
    if IsCanonicalInt(s) then
      if s[0] == '-' then IntKey(-(DecimalValue(s[1..]) as int)) else IntKey(DecimalValue(s))
    else StrKey(s)
  }

  // ---------------------------------------------------------------------
  // Numeric strings
  // ---------------------------------------------------------------------

  /** The whitespace PHP skips around a numeric string: space, tab, newline, carriage return, vertical tab, form feed. */
  predicate IsWhitespace(c: char)
  {
    c == ' ' || c == '\t' || c == '\n' || c == '\r' || c as int == 11 || c as int == 12
  }

  /** The number of digits `s` starts with. */
  function LeadingDigits(s: string): (n: nat)
    ensures n <= |s| && (n < |s| ==> !IsDigit(s[n]))
    ensures forall i :: 0 <= i < n ==> IsDigit(s[i])
  {
    if s != [] && IsDigit(s[0]) then 1 + LeadingDigits(s[1..]) else 0
  }

  function TrimLeft(s: string): (r: string)
    ensures r == [] || !IsWhitespace(r[0])
  {
    if s != [] && IsWhitespace(s[0]) then TrimLeft(s[1..]) else s
  }

  function TrimRight(s: string): (r: string)
    ensures r == [] || !IsWhitespace(r[|r| - 1])
  {
    if s != [] && IsWhitespace(s[|s| - 1]) then TrimRight(s[..|s| - 1]) else s
  }

  /** Empty, or `e`/`E`, an optional sign and one or more digits. */
  predicate IsExponentOrEmpty(e: string)
  {
    e == [] ||
    (|e| >= 2 && (e[0] == 'e' || e[0] == 'E') &&
      var f := if e[1] == '+' || e[1] == '-' then e[2..] else e[1..];
      f != [] && LeadingDigits(f) == |f|)
  }

  /** Digits with an optional fraction (at least one digit in all), then an optional exponent. */
  predicate IsDecimal(u: string)
  {
    var a := LeadingDigits(u);
    if a < |u| && u[a] == '.' then
      var b := LeadingDigits(u[a + 1..]);
      a + b > 0 && IsExponentOrEmpty(u[a + 1 + b..])
    else a > 0 && IsExponentOrEmpty(u[a..])
  }

  /** `is_numeric` on a string: a decimal number with an optional sign, whitespace allowed around it. */
  predicate IsNumeric(s: string)
  {
    var t := TrimRight(TrimLeft(s));
    var u := if t != [] && (t[0] == '+' || t[0] == '-') then t[1..] else t;
    IsDecimal(u)
  }

  /** What PHP 8 arithmetic reads from the start of a string: an integer, a float, or nothing numeric. */
  datatype NumberPrefix = IntPrefix(value: int) | FloatPrefix | NoNumber

  /** After the digits of a number: `e` or `E`, an optional sign and a digit, which makes it a float. */
  predicate StartsExponent(e: string)
  {
    |e| >= 2 && (e[0] == 'e' || e[0] == 'E') &&
    (IsDigit(e[1]) || (|e| >= 3 && (e[1] == '+' || e[1] == '-') && IsDigit(e[2])))
  }

  /**
   * The number a string stands for in `+` and `+=`: leading whitespace and a
   * sign are skipped; digits followed by `.` or by an exponent, or `.` and a
   * digit, read as a float; digits followed by anything else read as an
   * integer, the rest being ignored with a warning; a string with no digits
   * there is not numeric.
   */
  function NumericPrefix(s: string): (r: NumberPrefix)
  {
    var t := TrimLeft(s);
    if t != [] && t[0] == '-' then Negated(UnsignedPrefix(t[1..]))
    else if t != [] && t[0] == '+' then UnsignedPrefix(t[1..])
    else UnsignedPrefix(t)
  }

  /** What arithmetic reads once whitespace and sign are behind it. */
  function UnsignedPrefix(u: string): NumberPrefix
  {
    var a := LeadingDigits(u);
    if a == 0 then
      if |u| >= 2 && u[0] == '.' && IsDigit(u[1]) then FloatPrefix else NoNumber
    else if a < |u| && (u[a] == '.' || StartsExponent(u[a..])) then FloatPrefix
    else IntPrefix(DecimalValue(u[..a]))
  }

  function Negated(p: NumberPrefix): NumberPrefix
  {
    if p.IntPrefix? then IntPrefix(-p.value) else p
  }

  /** Digits followed by a non-digit: the digits are what `LeadingDigits` counts. */
  lemma {:induction false} DigitsThenOther(d: string, tail: string)
    requires AllDigits(d) && (tail == [] || !IsDigit(tail[0]))
    ensures LeadingDigits(d + tail) == |d|
  {
    if d != [] {
      assert (d + tail)[1..] == d[1..] + tail;
      DigitsThenOther(d[1..], tail);
    }
  }

  /**
   * A string made of an optional sign, digits, and a tail that starts
   * neither a fraction nor an exponent (any text with no digit, `.`, `e` or
   * `E` in front) reads as the signed integer of the digits.
   */
  lemma IntegerPrefix(sign: string, d: string, tail: string)
    requires sign == "" || sign == "+" || sign == "-"
    requires d != [] && AllDigits(d)
    requires tail == [] || !(IsDigit(tail[0]) || tail[0] == '.' || tail[0] == 'e' || tail[0] == 'E')
    ensures NumericPrefix(sign + d + tail) == IntPrefix(if sign == "-" then -(DecimalValue(d) as int) else DecimalValue(d))
  {
    var s := sign + d + tail;
    var u := d + tail;
    assert !IsWhitespace(s[0]);
    assert TrimLeft(s) == s;
    assert sign != "" ==> s[1..] == u;
    assert sign == "" ==> s == u;
    UnsignedInteger(d, tail);
  }

  lemma UnsignedInteger(d: string, tail: string)
    requires d != [] && AllDigits(d)
    requires tail == [] || !(IsDigit(tail[0]) || tail[0] == '.' || tail[0] == 'e' || tail[0] == 'E')
    ensures UnsignedPrefix(d + tail) == IntPrefix(DecimalValue(d))
  {
    var u := d + tail;
    DigitsThenOther(d, tail);
    assert u[..|d|] == d;
    assert |d| < |u| ==> u[|d|..] == tail && !StartsExponent(tail);
  }

  /** Whitespace in front of a string changes nothing of what arithmetic reads from it. */
  lemma LeadingWhitespaceSkipped(c: char, s: string)
    requires IsWhitespace(c)
    ensures NumericPrefix([c] + s) == NumericPrefix(s)
  {
    assert ([c] + s)[1..] == s;
  }

  /** A string that starts with a letter has no number in front. */
  lemma LettersAreNoNumber(s: string)
    requires s != [] && ('a' <= s[0] <= 'z' || 'A' <= s[0] <= 'Z')
    ensures NumericPrefix(s) == NoNumber
  {
    assert TrimLeft(s) == s;
  }

  /** The decimal text of `n` is digits without a leading zero, and reads back as `n`. */
  lemma {:induction false} NatToStringValue(n: nat)
    ensures AllDigits(NatToString(n)) && DecimalValue(NatToString(n)) == n
    ensures n > 0 ==> NatToString(n)[0] != '0'
    ensures n == 0 ==> NatToString(n) == "0"
  {
    var r := NatToString(n);
    if n >= 10 {
      NatToStringValue(n / 10);
      assert r[..|r| - 1] == NatToString(n / 10);
    }
  }

  /**
   * A number written in decimal is an integer key exactly when a 64-bit
   * integer holds it, up to `IntMax` and down to `IntMin` with a minus sign;
   * beyond those it stays a string key.
   */
  lemma IntKeyRange(n: nat)
    ensures KeyOfString(NatToString(n)) == (if n <= IntMax then IntKey(n) else StrKey(NatToString(n)))
    ensures n > 0 ==>
      KeyOfString("-" + NatToString(n)) == (if -(n as int) >= IntMin then IntKey(-(n as int)) else StrKey("-" + NatToString(n)))
  {
    NatToStringValue(n);
    assert ("-" + NatToString(n))[1..] == NatToString(n);
  }

  /** `ord`: the byte value of a character. */
  function Ord(c: Octet): (n: nat)
    ensures n < 256
  {
    c as int
  }
}
