/**
 * The help page body of HelpREST.php: `Help::arrayToHtml` renders the
 * nested help array, one block per entry; `Help::codeToHTML` renders the
 * value of a `code_…` entry, either as lines or as pretty-printed JSON.
 */
module HelpRender {
  import opened Results
  import opened PhpStrings
  import opened HelpPretty
  import opened HelpLinks

  /**
   * A key of the help array: an integer, or a string. As in PHP, a
   * decimal-integer string key is taken to be held as its `Index`, and the
   * keys of one array to be distinct.
   */
  datatype HelpKey = Index(i: int) | Name(s: Bytes)

  /** A value of the help array: a text, or a nested array of entries in order. */
  datatype Texts = Text(s: Bytes) | Entries(items: seq<(HelpKey, Texts)>)

  /**
   * What rendering depends on besides the array: the request the links
   * resolve against, and `json_encode` followed by the unescaping of `\/`
   * and of `\uXXXX` sequences, which is not part of this model.
   */
  datatype Context = Context(page: Page, encode: Texts -> Bytes)

  // ---------------------------------------------------------------------
  // codeToHTML
  // ---------------------------------------------------------------------

  /**
   * The keys are exactly 0, 1, …, count - 1 in order. An empty array does
   * not qualify: `range(0, -1)` is `[0, -1]`, not the empty key list.
   */
  predicate IsList(items: seq<(HelpKey, Texts)>)
  {
    |items| > 0 && forall i :: 0 <= i < |items| ==> items[i].0 == Index(i)
  }

  /** A value as `implode` shows it: a text as it is, a nested array as `Array`. */
  function Shown(t: Texts): Bytes
  {
    match t
    case Text(s) => s
    case Entries(_) => "Array"
  }

  function Lines(items: seq<(HelpKey, Texts)>): (ls: seq<Bytes>)
    ensures |ls| == |items|
    ensures forall i :: 0 <= i < |items| ==> ls[i] == Shown(items[i].1)
  {
    if items == [] then [] else [Shown(items[0].1)] + Lines(items[1..])
  }

  /** The body of a code block: a list one line per element, anything else pretty-printed JSON. */
  function CodeHtml(encode: Texts -> Bytes, t: Texts): Bytes
  {
    if t.Entries? && IsList(t.items) then Implode<Octet>('\n', Lines(t.items))
    else Pretty(encode(t))
  }

  /** `codeToHTML`. */
  method CodeToHtml(encode: Texts -> Bytes, t: Texts) returns (r: Bytes)
    ensures r == CodeHtml(encode, t)
  {
    if t.Entries? && IsList(t.items) {
      return Implode<Octet>('\n', Lines(t.items));
    }
    var json := encode(t);
    r := PrettyPrint(json);
  }

  /** A list of single-line texts comes back line by line when its code block is split at line breaks. */
  lemma ListCodeLines(encode: Texts -> Bytes, items: seq<(HelpKey, Texts)>)
    requires IsList(items)
    requires forall i :: 0 <= i < |items| ==> '\n' !in Shown(items[i].1)
    ensures Explode<Octet>('\n', CodeHtml(encode, Entries(items))) == Lines(items)
  {
    var ls := Lines(items);
    assert CodeHtml(encode, Entries(items)) == Implode<Octet>('\n', ls);
    assert forall i :: 0 <= i < |ls| ==> '\n' !in ls[i] by {
      forall i | 0 <= i < |ls|
        ensures '\n' !in ls[i]
      {
        assert ls[i] == Shown(items[i].1);
      }
    }
    ExplodeImplode<Octet>('\n', ls);
  }

  // ---------------------------------------------------------------------
  // Keys: code blocks, headings
  // ---------------------------------------------------------------------

  const CodePrefix: Bytes := "code_"

  predicate IsCodeKey(key: HelpKey)
  {
    key.Name? && |key.s| >= 5 && key.s[..5] == CodePrefix
  }

  /** The last character of `s` and every one before it that is a digit, removed. */
  function DropDigits(s: Bytes): (r: Bytes)
    ensures |r| <= |s| && r == s[..|r|]
    ensures r == [] || !IsDigit(r[|r| - 1])
    ensures forall i :: |r| <= i < |s| ==> IsDigit(s[i])
  {
    if s != [] && IsDigit(s[|s| - 1]) then DropDigits(s[..|s| - 1]) else s
  }

  /**
   * The syntax name of a code block, the key after `code_` with the digits
   * at its end removed, as the pattern `\d+$` does: `$` also matches before
   * a final line break, which is then kept.
   */
  function SyntaxName(code: Bytes): Bytes
  {
    if code != [] && code[|code| - 1] == '\n' then DropDigits(code[..|code| - 1]) + "\n"
    else DropDigits(code)
  }

  lemma {:induction false} DropNumber(name: Bytes, digits: Bytes)
    requires name == [] || !IsDigit(name[|name| - 1])
    requires forall i :: 0 <= i < |digits| ==> IsDigit(digits[i])
    ensures DropDigits(name + digits) == name
    decreases |digits|
  {
    if digits == [] {
      assert name + digits == name;
    } else {
      var init := digits[..|digits| - 1];
      assert (name + digits)[..|name + digits| - 1] == name + init;
      DropNumber(name, init);
    }
  }

  /** Numbered code keys share their syntax: `code_json`, `code_json2`, … all name `json`. */
  lemma SyntaxOfNumberedKey(name: Bytes, n: nat)
    requires name == [] || !IsDigit(name[|name| - 1])
    ensures SyntaxName(name + NatToString(n)) == name
  {
    var digits: Bytes := NatToString(n);
    var s := name + digits;
    assert s[|s| - 1] == digits[|digits| - 1];
    assert SyntaxName(s) == DropDigits(s);
    DropNumber(name, digits);
  }

  /** A key without digits or a line break at its end names its syntax as it is. */
  lemma SyntaxOfPlainKey(name: Bytes)
    requires name == [] || (!IsDigit(name[|name| - 1]) && name[|name| - 1] != '\n')
    ensures SyntaxName(name) == name
  {
  }

  /** A non-empty string of digits is numeric. */
  lemma DigitsAreNumeric(s: Bytes)
    requires s != [] && LeadingDigits(s) == |s|
    ensures IsNumeric(s)
  {
    assert IsDigit(s[0]) && IsDigit(s[|s| - 1]);
    Untrimmed(s);
    DigitsAreDecimal(s);
  }

  /** A string with no whitespace at either end is left as it is by both trims. */
  lemma Untrimmed(s: Bytes)
    requires s != [] && !IsWhitespace(s[0]) && !IsWhitespace(s[|s| - 1])
    ensures TrimRight(TrimLeft(s)) == s
  {
    assert TrimLeft(s) == s;
  }

  lemma DigitsAreDecimal(s: Bytes)
    requires s != [] && LeadingDigits(s) == |s|
    ensures IsDecimal(s)
  {
    assert s[|s|..] == [];
  }

  /** A string starting with a letter is not numeric. */
  lemma WordsAreNotNumeric(s: Bytes)
    requires s != [] && ('a' <= s[0] <= 'z' || 'A' <= s[0] <= 'Z')
    ensures !IsNumeric(s)
  {
    TrimRightKeepsHead(s);
  }

  lemma {:induction false} TrimRightKeepsHead(s: Bytes)
    requires s != [] && !IsWhitespace(s[0])
    ensures TrimRight(s) != [] && TrimRight(s)[0] == s[0]
    decreases |s|
  {
    if IsWhitespace(s[|s| - 1]) {
      TrimRightKeepsHead(s[..|s| - 1]);
    }
  }

  /** A string key other than a code key that is not numeric gets a heading. */
  predicate IsHeadingKey(key: HelpKey)
  {
    key.Name? && !IsNumeric(key.s)
  }

  // ---------------------------------------------------------------------
  // urlencode
  // ---------------------------------------------------------------------

  predicate IsAlnum(c: Octet)
  {
    '0' <= c <= '9' || 'a' <= c <= 'z' || 'A' <= c <= 'Z'
  }

  /** Upper-case hexadecimal digit. */
  function HexDigit(d: nat): (c: Octet)
    requires d < 16
    ensures IsAlnum(c)
  {
    if d < 10 then ('0' as int + d) as char else ('A' as int + d - 10) as char
  }

  function HexValue(c: Octet): nat
  {
    if '0' <= c <= '9' then c as int - '0' as int
    else if 'A' <= c <= 'F' then c as int - 'A' as int + 10
    else if 'a' <= c <= 'f' then c as int - 'a' as int + 10
    else 0
  }

  predicate IsHex(c: Octet)
  {
    '0' <= c <= '9' || 'A' <= c <= 'F' || 'a' <= c <= 'f'
  }

  /** `urlencode` on one byte: letters, digits and `-_.` kept, space as `+`, anything else as `%XX`. */
  function UrlByte(c: Octet): Bytes
  {
    if IsAlnum(c) || c == '-' || c == '_' || c == '.' then [c]
    else if c == ' ' then "+"
    else ['%', HexDigit(c as int / 16), HexDigit(c as int % 16)]
  }

  /** `urlencode`. */
  function UrlEncode(s: Bytes): Bytes
  {
    if s == [] then [] else UrlByte(s[0]) + UrlEncode(s[1..])
  }

  /** `urldecode`: `+` as space, `%XX` as the byte it names, anything else as it is. */
  function UrlDecode(s: Bytes): Bytes
  {
    if s == [] then []
    else if s[0] == '%' && |s| >= 3 && IsHex(s[1]) && IsHex(s[2]) then
      [(HexValue(s[1]) * 16 + HexValue(s[2])) as char] + UrlDecode(s[3..])
    else if s[0] == '+' then [' '] + UrlDecode(s[1..])
    else [s[0]] + UrlDecode(s[1..])
  }

  predicate IsUrlSafe(c: Octet)
  {
    IsAlnum(c) || c == '-' || c == '_' || c == '.' || c == '+' || c == '%'
  }

  /** The encoded key holds only letters, digits and `-_.+%`: no quote can end the `id` attribute early. */
  lemma {:induction false} UrlEncodedIsSafe(s: Bytes)
    ensures forall i :: 0 <= i < |UrlEncode(s)| ==> IsUrlSafe(UrlEncode(s)[i])
  {
    if s != [] {
      UrlEncodedIsSafe(s[1..]);
      var h := UrlByte(s[0]);
      assert forall i :: 0 <= i < |h| ==> IsUrlSafe(h[i]);
      assert forall i :: |h| <= i < |UrlEncode(s)| ==> UrlEncode(s)[i] == UrlEncode(s[1..])[i - |h|];
    }
  }

  lemma ByteDecodes(c: Octet, rest: Bytes)
    ensures UrlDecode(UrlByte(c) + rest) == [c] + UrlDecode(rest)
  {
    var h := UrlByte(c);
    var s := h + rest;
    if IsAlnum(c) || c == '-' || c == '_' || c == '.' {
      assert s[0] == c && s[1..] == rest;
    } else if c == ' ' {
      assert s[0] == '+' && s[1..] == rest;
    } else {
      var hi, lo := c as int / 16, c as int % 16;
      assert s[0] == '%' && s[1] == HexDigit(hi) && s[2] == HexDigit(lo) && s[3..] == rest;
      assert HexValue(HexDigit(hi)) == hi && HexValue(HexDigit(lo)) == lo;
      assert (hi * 16 + lo) as char == c;
    }
  }

  /** `urldecode` undoes `urlencode`. */
  lemma {:induction false} UrlRoundTrip(s: Bytes)
    ensures UrlDecode(UrlEncode(s)) == s
  {
    if s != [] {
      UrlRoundTrip(s[1..]);
      ByteDecodes(s[0], UrlEncode(s[1..]));
    }
  }

  // ---------------------------------------------------------------------
  // arrayToHtml
  // ---------------------------------------------------------------------

  /**
   * What one entry prints: a code block with its syntax name and the value
   * it shows, a heading, or a paragraph with its text as written.
   */
  datatype Block = Code(syntax: Bytes, value: Texts) | Heading(level: int, key: Bytes) | Paragraph(text: Bytes)

  /** A PHP integer printed in decimal. */
  function IntText(n: int): Bytes
  {
    if n < 0 then "-" + NatToString(-n) else NatToString(n)
  }

  /** The markup of a block: the code value through `codeToHTML`, the paragraph's references as anchors. */
  function BlockHtml(ctx: Context, b: Block): Bytes
  {
    match b
    case Code(syntax, value) => PreHtml(syntax, CodeHtml(ctx.encode, value))
    case Heading(level, key) => HeadingHtml(level, key)
    case Paragraph(text) => ParagraphHtml(ExpandLinks(ctx.page, text))
  }

  function PreHtml(syntax: Bytes, code: Bytes): Bytes
  {
    "\t<pre syntax='" + syntax + "'>" + code + "</pre>"
  }

  /** A heading whose `id` is its key url-encoded. */
  function HeadingHtml(level: int, key: Bytes): Bytes
  {
    var n := IntText(level);
    "\t<h" + n + " id=\"" + UrlEncode(key) + "\">" + key + "</h" + n + ">"
  }

  function ParagraphHtml(text: Bytes): Bytes
  {
    "\t<p>" + text + "</p>"
  }

  /** The texts `f` gives for the elements of `xs`, one after the other. */
  function Join<T>(xs: seq<T>, f: T -> Bytes): Bytes
  {
    if xs == [] then [] else Join(xs[..|xs| - 1], f) + f(xs[|xs| - 1])
  }

  /** `BlockHtml` with its context fixed. */
  function Render(ctx: Context): Block -> Bytes
  {
    b => BlockHtml(ctx, b)
  }

  function Html(ctx: Context, bs: seq<Block>): Bytes
  {
    Join(bs, Render(ctx))
  }

  /**
   * The blocks of the first `j` entries of array `t` at heading level
   * `level`: a code entry gives its code block and nothing else; a string
   * key that is not numeric gives a heading; then a nested array gives its
   * own blocks one level down, and a text gives a paragraph.
   */
  function Layout(t: Texts, j: nat, level: int): seq<Block>
    requires t.Entries? && j <= |t.items|
    decreases t, j
  {
    if j == 0 then [] else Layout(t, j - 1, level) + EntryBlocks(t, j - 1, level)
  }

  /** The blocks of entry `k` of array `t` at heading level `level`. */
  function EntryBlocks(t: Texts, k: nat, level: int): seq<Block>
    requires t.Entries? && k < |t.items|
    decreases t, k
  {
    var (key, texts) := t.items[k];
    assert texts < t.items[k];
    if IsCodeKey(key) then [Code(SyntaxName(key.s[5..]), texts)]
    else
      (if IsHeadingKey(key) then [Heading(level, key.s)] else []) +
      match texts
      case Entries(_) => Layout(texts, |texts.items|, level + 1)
      case Text(s) => [Paragraph(s)]
  }

  lemma {:induction false} JoinConcat<T>(a: seq<T>, b: seq<T>, f: T -> Bytes)
    ensures Join(a + b, f) == Join(a, f) + Join(b, f)
    decreases |b|
  {
    if b == [] {
      assert a + b == a;
    } else {
      var init, last := b[..|b| - 1], b[|b| - 1];
      JoinConcat(a, init, f);
      assert (a + b)[..|a + b| - 1] == a + init;
    }
  }

  lemma JoinOne<T>(a: seq<T>, x: T, f: T -> Bytes)
    ensures Join(a + [x], f) == Join(a, f) + f(x)
  {
    assert (a + [x])[..|a|] == a;
  }

  /**
   * `arrayToHtml(arr, level)`: the entries rendered in order; a text in
   * place of an array only draws a warning from `foreach` and renders as "".
   */
  method ArrayToHtml(ctx: Context, t: Texts, level: int) returns (out: Bytes)
    ensures t.Text? ==> out == []
    ensures t.Entries? ==> out == Html(ctx, Layout(t, |t.items|, level))
    decreases t, 1
  {
    if t.Text? {
      return [];
    }
    var html: string := [];
    for j := 0 to |t.items|
      invariant html == Html(ctx, Layout(t, j, level))
    {
      var entry := EntryToHtml(ctx, t, j, level);
      EntryHtml(ctx, t, j, level);
      html := html + entry;
    }
    out := html;
  }

  /** The level `arrayToHtml` starts at when no level is passed. */
  const StartLevel := 2

  /** The `$body` of `toHTML`: `arrayToHtml` of the `texts` array at its default level. */
  method PageBody(ctx: Context, t: Texts) returns (body: Bytes)
    ensures t.Text? ==> body == []
    ensures t.Entries? ==> body == Html(ctx, Layout(t, |t.items|, StartLevel))
  {
    body := ArrayToHtml(ctx, t, StartLevel);
  }

  /**
   * The headings of the page body are `<h2>` for the entries of the top
   * array and one level deeper per nested array: every heading lies between
   * level 2 and 2 + the nesting depth, and each top entry with a heading key
   * contributes an `<h2>` heading of that key.
   */
  lemma PageHeadings(t: Texts, j: nat)
    requires t.Entries? && j < |t.items|
    ensures forall b :: b in Layout(t, |t.items|, StartLevel) && b.Heading? ==> 2 <= b.level < 2 + Nesting(t)
    ensures !IsCodeKey(t.items[j].0) && IsHeadingKey(t.items[j].0) ==>
      Heading(2, t.items[j].0.s) in Layout(t, |t.items|, StartLevel)
  {
    HeadingLevels(t, |t.items|, StartLevel);
    var key := t.items[j].0;
    if !IsCodeKey(key) && IsHeadingKey(key) {
      EntryHeading(t, j, StartLevel);
      var before := Layout(t, j, StartLevel);
      assert Layout(t, j + 1, StartLevel) == before + EntryBlocks(t, j, StartLevel);
      assert Layout(t, j + 1, StartLevel)[|before|] == Heading(2, key.s);
      LayoutGrows(t, j + 1, |t.items|, StartLevel);
      assert Layout(t, |t.items|, StartLevel)[|before|] == Heading(2, key.s);
    }
  }

  /** The blocks of the first `j` entries begin the blocks of the first `k`. */
  lemma {:induction false} LayoutGrows(t: Texts, j: nat, k: nat, level: int)
    requires t.Entries? && j <= k <= |t.items|
    ensures Layout(t, j, level) <= Layout(t, k, level)
    decreases k
  {
    if j < k {
      LayoutGrows(t, j, k - 1, level);
      assert Layout(t, k, level) == Layout(t, k - 1, level) + EntryBlocks(t, k - 1, level);
    }
  }

  /** A heading at the start level is an `h2` element. */
  lemma StartHeadingMarkup(key: Bytes)
    ensures HeadingHtml(StartLevel, key) == "\t<h2 id=\"" + UrlEncode(key) + "\">" + key + "</h2>"
  {
    assert IntText(StartLevel) == "2";
  }

  /** One pass of the loop of `arrayToHtml`: the text entry `j` adds. */
  method EntryToHtml(ctx: Context, t: Texts, j: nat, level: int) returns (entry: string)
    requires t.Entries? && j < |t.items|
    ensures entry == Html(ctx, EntryBlocks(t, j, level))
    decreases t, 0
  {
    var (key, texts) := t.items[j];
    assert texts < t.items[j];
    EntryShape(t, j, level);
    if IsCodeKey(key) {
      var code := key.s[5..];
      code := SyntaxName(code);
      var json := CodeToHtml(ctx.encode, texts);
      entry := PreHtml(code, json);
      HtmlOne(ctx, Code(code, texts));
      return;
    }
    var heading: seq<Block> := [];
    var title: string := [];
    if IsHeadingKey(key) {
      title := HeadingHtml(level, key.s);
      heading := [Heading(level, key.s)];
      HtmlOne(ctx, heading[0]);
    }
    var rest: seq<Block>;
    var body: string;
    if texts.Entries? {
      body := ArrayToHtml(ctx, texts, level + 1);
      rest := Layout(texts, |texts.items|, level + 1);
    } else {
      var p := ExpandLinks(ctx.page, texts.s);
      body := ParagraphHtml(p);
      rest := [Paragraph(texts.s)];
      HtmlOne(ctx, rest[0]);
    }
    JoinConcat(heading, rest, Render(ctx));
    entry := title + body;
  }

  lemma HtmlOne(ctx: Context, b: Block)
    ensures Html(ctx, [b]) == BlockHtml(ctx, b)
  {
    JoinOne([], b, Render(ctx));
    assert [] + [b] == [b];
  }

  /** The blocks of one entry: a code block alone, or an optional heading and then the value's blocks. */
  lemma EntryShape(t: Texts, j: nat, level: int)
    requires t.Entries? && j < |t.items|
    ensures var (key, texts) := t.items[j];
      var rest := if texts.Entries? then Layout(texts, |texts.items|, level + 1) else [Paragraph(texts.s)];
      EntryBlocks(t, j, level) ==
        if IsCodeKey(key) then [Code(SyntaxName(key.s[5..]), texts)]
        else (if IsHeadingKey(key) then [Heading(level, key.s)] else []) + rest
  {
    var (key, texts) := t.items[j];
    match texts
    case Entries(_) =>
    case Text(_) =>
  }

  /** The text of the first `j + 1` entries is that of the first `j` followed by entry `j`'s. */
  lemma EntryHtml(ctx: Context, t: Texts, j: nat, level: int)
    requires t.Entries? && j < |t.items|
    ensures Html(ctx, Layout(t, j + 1, level)) == Html(ctx, Layout(t, j, level)) + Html(ctx, EntryBlocks(t, j, level))
  {
    JoinConcat(Layout(t, j, level), EntryBlocks(t, j, level), Render(ctx));
  }

  /** How deeply arrays nest inside `t`. */
  function Nesting(t: Texts): nat
    decreases t, 1
  {
    match t
    case Text(_) => 0
    case Entries(items) => 1 + Widest(t, |items|)
  }

  /** The deepest nesting among the first `j` entries of `t`. */
  function Widest(t: Texts, j: nat): (n: nat)
    requires t.Entries? && j <= |t.items|
    ensures forall k :: 0 <= k < j ==> Nesting(t.items[k].1) <= n
    decreases t, 0, j
  {
    if j == 0 then 0
    else
      assert t.items[j - 1].1 < t.items[j - 1];
      var m := Nesting(t.items[j - 1].1);
      var w := Widest(t, j - 1);
      if m < w then w else m
  }

  /**
   * Heading levels follow the nesting: an array rendered at level `level`
   * gives headings from `level` up to, and not including, `level` plus how
   * deeply its arrays nest.
   */
  lemma {:induction false} HeadingLevels(t: Texts, j: nat, level: int)
    requires t.Entries? && j <= |t.items|
    ensures forall b :: b in Layout(t, j, level) && b.Heading? ==> level <= b.level < level + Nesting(t)
    decreases t, j
  {
    if j > 0 {
      HeadingLevels(t, j - 1, level);
      var (key, texts) := t.items[j - 1];
      assert texts < t.items[j - 1];
      assert Nesting(texts) <= Widest(t, |t.items|);
      if !IsCodeKey(key) && texts.Entries? {
        HeadingLevels(texts, |texts.items|, level + 1);
      }
    }
  }

  /**
   * An entry's blocks start with a heading at the array's own level exactly
   * for the string keys that are neither code keys nor numeric, and that
   * heading shows the key.
   */
  lemma EntryHeading(t: Texts, j: nat, level: int)
    requires t.Entries? && j < |t.items|
    ensures var key := t.items[j].0;
      var added := Layout(t, j + 1, level)[|Layout(t, j, level)|..];
      (added != [] && added[0].Heading? && added[0].level == level) <==> (!IsCodeKey(key) && IsHeadingKey(key))
    ensures var key := t.items[j].0;
      var added := Layout(t, j + 1, level)[|Layout(t, j, level)|..];
      !IsCodeKey(key) && IsHeadingKey(key) ==> added[0] == Heading(level, key.s)
  {
    var (key, texts) := t.items[j];
    assert texts < t.items[j];
    var before := Layout(t, j, level);
    var added := Layout(t, j + 1, level)[|before|..];
    assert Layout(t, j + 1, level) == before + added;
    if !IsCodeKey(key) && !IsHeadingKey(key) && texts.Entries? {
      HeadingLevels(texts, |texts.items|, level + 1);
      assert added == Layout(texts, |texts.items|, level + 1);
      if added != [] {
        assert added[0] in added;
      }
    }
  }
}
