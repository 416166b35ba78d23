/**
 * The JSON pretty-printer of `Help::codeToHTML` (HelpREST.php): one pass
 * over the JSON text that drops whitespace outside strings, puts a space
 * after every `:`, and breaks lines after `{`, `[` and `,` and before `}`
 * and `]`, indenting two spaces per open bracket.
 *
 * The printer is specified by `Run` and `Pieces`, one step per character;
 * what it promises is stated against a separate reading of the text,
 * `Kinds`, which only tracks string literals and knows nothing of levels
 * or line breaks.
 */
module HelpPretty {
  import opened Results
  import opened PhpStrings

  // ---------------------------------------------------------------------
  // Reading the text: which characters belong to string literals
  // ---------------------------------------------------------------------

  /** What a character of the JSON text is, outside or inside string literals. */
  datatype Kind = Quoted | Open | Close | Comma | Colon | Blank | Plain

  /** Whether the scan is inside a string literal, and just after a backslash in one. */
  datatype Lexer = Lexer(inQuotes: bool, inEscape: bool)

  predicate IsBlank(c: Octet)
  {
    c == ' ' || c == '\t' || c == '\n' || c == '\r'
  }

  /** The kind of `c` read in state `l`: quotes and everything inside a string are `Quoted`. */
  function KindAt(l: Lexer, c: Octet): Kind
  {
    if l.inEscape || l.inQuotes || c == '"' then Quoted
    else if c == '{' || c == '[' then Open
    else if c == '}' || c == ']' then Close
    else if c == ',' then Comma
    else if c == ':' then Colon
    else if IsBlank(c) then Blank
    else Plain
  }

  /** The state after `c`: an unescaped quote opens or closes a string; a backslash in a string escapes the next character. */
  function LexStep(l: Lexer, c: Octet): Lexer
  {
    if l.inEscape then Lexer(l.inQuotes, false)
    else if c == '"' then Lexer(!l.inQuotes, false)
    else if l.inQuotes then Lexer(true, c == '\\')
    else l
  }

  /** The state after reading `s`. */
  function Lex(s: Bytes): Lexer
  {
    if s == [] then Lexer(false, false) else LexStep(Lex(s[..|s| - 1]), s[|s| - 1])
  }

  /** The kind of every character of `s`. */
  function Kinds(s: Bytes): (ks: seq<Kind>)
    ensures |ks| == |s|
  {
    if s == [] then [] else Kinds(s[..|s| - 1]) + [KindAt(Lex(s[..|s| - 1]), s[|s| - 1])]
  }

  /** Open brackets minus closed ones, outside strings. */
  function Depth(ks: seq<Kind>): int
  {
    Count(ks, Open) - Count(ks, Close)
  }

  /** The last kind other than whitespace is `{`, `[` or `,`: a line break is due. */
  predicate BreakDue(ks: seq<Kind>)
  {
    if ks == [] then false
    else if ks[|ks| - 1] == Blank then BreakDue(ks[..|ks| - 1])
    else ks[|ks| - 1] == Open || ks[|ks| - 1] == Comma
  }

  /** `s` without the whitespace outside its string literals. */
  function Minify(s: Bytes): Bytes
  {
    if s == [] then []
    else Minify(s[..|s| - 1]) + (if Kinds(s)[|s| - 1] == Blank then [] else [s[|s| - 1]])
  }

  // ---------------------------------------------------------------------
  // The printer
  // ---------------------------------------------------------------------

  /** The loop variables: `$level`, `$in_quotes`, `$in_escape`, `$ends_line_level`. */
  datatype Printer = Printer(level: int, inQuotes: bool, inEscape: bool, endsLine: Option<int>)

  /** What one character adds: a line break at a level or none, the character or nothing, and a space or nothing. */
  datatype Piece = Piece(newline: Option<int>, copied: Bytes, post: Bytes)

  /** Two spaces per level; a negative level, which only unbalanced text can reach, gives none. */
  function Indent(n: int): (r: Bytes)
    ensures |r| == if n <= 0 then 0 else 2 * n
    ensures forall i :: 0 <= i < |r| ==> r[i] == ' '
  {
    if n <= 0 then [] else Indent(n - 1) + "  "
  }

  function Show(p: Piece): Bytes
  {
    (if p.newline.Some? then "\n" + Indent(p.newline.value) else []) + p.copied + p.post
  }

  /** One iteration of the loop on character `c`. */
  function Step(p: Printer, c: Octet): (Printer, Piece)
  {
    var pending := p.endsLine;
    var q := p.(endsLine := None);
    if p.inEscape then (q.(inEscape := false), Piece(pending, [c], []))
    else if c == '"' then (q.(inQuotes := !p.inQuotes), Piece(pending, [c], []))
    else if !p.inQuotes then
      if c == '}' || c == ']' then (q.(level := p.level - 1), Piece(Some(p.level - 1), [c], []))
      else if c == '{' || c == '[' then (q.(level := p.level + 1, endsLine := Some(p.level + 1)), Piece(pending, [c], []))
      else if c == ',' then (q.(endsLine := Some(p.level)), Piece(pending, [c], []))
      else if c == ':' then (q, Piece(pending, [c], " "))
      else if IsBlank(c) then (q.(endsLine := pending), Piece(None, [], []))
      else (q, Piece(pending, [c], []))
    else if c == '\\' then (q.(inEscape := true), Piece(pending, [c], []))
    else (q, Piece(pending, [c], []))
  }

  const Start := Printer(0, false, false, None)

  /** The loop variables after `s`. */
  function Run(s: Bytes): Printer
  {
    if s == [] then Start else Step(Run(s[..|s| - 1]), s[|s| - 1]).0
  }

  /** What each character of `s` adds to the output. */
  function Pieces(s: Bytes): (ps: seq<Piece>)
    ensures |ps| == |s|
  {
    if s == [] then [] else Pieces(s[..|s| - 1]) + [Step(Run(s[..|s| - 1]), s[|s| - 1]).1]
  }

  /** The printed text. */
  function Pretty(s: Bytes): Bytes
  {
    if s == [] then [] else Pretty(s[..|s| - 1]) + Show(Pieces(s)[|s| - 1])
  }

  /** The characters kept from the input, line breaks, indentation and added spaces left out. */
  function Chars(ps: seq<Piece>): Bytes
  {
    if ps == [] then [] else Chars(ps[..|ps| - 1]) + ps[|ps| - 1].copied
  }

  /** The `for` loop of `codeToHTML`, on the JSON text. */
  method PrettyPrint(json: Bytes) returns (result: Bytes)
    ensures result == Pretty(json)
  {
    var out: string := [];
    var level := 0;
    var inQuotes := false;
    var inEscape := false;
    var endsLineLevel: Option<int> := None;
    var i := 0;
    while i < |json|
      invariant 0 <= i <= |json|
      invariant Run(json[..i]) == Printer(level, inQuotes, inEscape, endsLineLevel)
      invariant out == Pretty(json[..i])
    {
      var printed := out;
      var newLineLevel, ch, post;
      level, inQuotes, inEscape, endsLineLevel, newLineLevel, ch, post := PrintChar(level, inQuotes, inEscape, endsLineLevel, json[i]);
      if newLineLevel.Some? {
        out := out + "\n" + Indent(newLineLevel.value);
      }
      out := out + ch + post;
      Advance(json, i, Printer(level, inQuotes, inEscape, endsLineLevel), Piece(newLineLevel, ch, post), printed, out);
      i := i + 1;
    }
    assert json[..|json|] == json;
    result := out;
  }

  /**
   * The branches of one pass of the loop on character `c`: the loop
   * variables after it, and the line break, the character and the space it
   * prints.
   */
  method PrintChar(level0: int, inQuotes0: bool, inEscape0: bool, endsLineLevel0: Option<int>, c: Octet)
    returns (level: int, inQuotes: bool, inEscape: bool, endsLineLevel: Option<int>, newLineLevel: Option<int>, ch: Bytes, post: Bytes)
    ensures (Printer(level, inQuotes, inEscape, endsLineLevel), Piece(newLineLevel, ch, post))
      == Step(Printer(level0, inQuotes0, inEscape0, endsLineLevel0), c)
  {
    level, inQuotes, inEscape, endsLineLevel := level0, inQuotes0, inEscape0, endsLineLevel0;
    ch := [c];
    newLineLevel := None;
    post := [];
    if endsLineLevel.Some? {
      newLineLevel := endsLineLevel;
      endsLineLevel := None;
    }
    if inEscape {
      inEscape := false;
    } else if c == '"' {
      inQuotes := !inQuotes;
    } else if !inQuotes {
      if c == '}' || c == ']' {
        level := level - 1;
        endsLineLevel := None;
        newLineLevel := Some(level);
      } else if c == '{' || c == '[' || c == ',' {
        if c != ',' {
          level := level + 1;
        }
        endsLineLevel := Some(level);
      } else if c == ':' {
        post := " ";
      } else if IsBlank(c) {
        ch := [];
        endsLineLevel := newLineLevel;
        newLineLevel := None;
      }
    } else if c == '\\' {
      inEscape := true;
    }
  }

  // ---------------------------------------------------------------------
  // Properties
  // ---------------------------------------------------------------------

  /**
   * The printer's state follows the reading of the text: its level is the
   * number of brackets opened minus those closed outside strings, its quote
   * and escape flags are the reader's, and a line break is pending exactly
   * when the last character other than whitespace opened a bracket or was
   * a comma, at the current level.
   */
  lemma {:induction false} RunFollowsKinds(s: Bytes)
    ensures var ks := Kinds(s);
      Run(s) == Printer(Depth(ks), Lex(s).inQuotes, Lex(s).inEscape, if BreakDue(ks) then Some(Depth(ks)) else None)
  {
    if s != [] {
      var init := s[..|s| - 1];
      var ks, l, c := Kinds(init), Lex(init), s[|s| - 1];
      RunFollowsKinds(init);
      DepthSnoc(ks, KindAt(l, c));
      BreakDueSnoc(ks, KindAt(l, c));
      StepState(Depth(ks), BreakDue(ks), l, c);
    }
  }

  /** One step of the printer keeps it in line with the reading of the text, on the depth and the pending break. */
  lemma StepState(d: int, due: bool, l: Lexer, c: Octet)
    ensures var k := KindAt(l, c);
      var d' := d + (if k == Open then 1 else if k == Close then -1 else 0);
      var due' := if k == Blank then due else k == Open || k == Comma;
      Step(Printer(d, l.inQuotes, l.inEscape, if due then Some(d) else None), c).0
        == Printer(d', LexStep(l, c).inQuotes, LexStep(l, c).inEscape, if due' then Some(d') else None)
  {
  }

  /** Appending a kind: whitespace leaves the pending break as it was, anything else decides it. */
  lemma BreakDueSnoc(ks: seq<Kind>, k: Kind)
    ensures BreakDue(ks + [k]) == if k == Blank then BreakDue(ks) else k == Open || k == Comma
  {
    assert (ks + [k])[..|ks|] == ks;
  }

  /** Appending a kind moves the depth by one for a bracket and not otherwise. */
  lemma DepthSnoc(ks: seq<Kind>, k: Kind)
    ensures Depth(ks + [k]) == Depth(ks) + (if k == Open then 1 else if k == Close then -1 else 0)
  {
    CountConcat(ks, [k], Open);
    CountConcat(ks, [k], Close);
  }

  /** Appending a piece's text: the line break first, then the character and what follows it. */
  lemma ShowAppends(printed: string, p: Piece)
    ensures printed + Show(p)
      == (if p.newline.Some? then printed + "\n" + Indent(p.newline.value) else printed) + p.copied + p.post
  {
  }

  /** Extending the input by its next character: one more step of the loop. */
  lemma Extend(s: Bytes, i: nat)
    requires i < |s|
    ensures Run(s[..i + 1]) == Step(Run(s[..i]), s[i]).0
    ensures Pretty(s[..i + 1]) == Pretty(s[..i]) + Show(Step(Run(s[..i]), s[i]).1)
  {
    assert s[..i + 1][..i] == s[..i];
  }

  /** One pass of the loop of `PrettyPrint` moves both invariants one character on. */
  lemma Advance(s: Bytes, i: nat, next: Printer, p: Piece, printed: string, result: string)
    requires i < |s| && Step(Run(s[..i]), s[i]) == (next, p) && printed == Pretty(s[..i])
    requires result == (if p.newline.Some? then printed + "\n" + Indent(p.newline.value) else printed) + p.copied + p.post
    ensures Run(s[..i + 1]) == next && result == Pretty(s[..i + 1])
  {
    Extend(s, i);
    ShowAppends(printed, p);
  }

  /** The printer's level is the bracket depth outside strings. */
  lemma LevelIsDepth(s: Bytes)
    ensures Run(s).level == Count(Kinds(s), Open) - Count(Kinds(s), Close)
  {
    RunFollowsKinds(s);
  }

  /** Reading a prefix gives the prefix of the kinds. */
  lemma {:induction false} KindsPrefix(s: Bytes, i: nat)
    requires i <= |s|
    ensures Kinds(s[..i]) == Kinds(s)[..i]
    decreases |s|
  {
    if i < |s| {
      var init := s[..|s| - 1];
      assert s[..i] == init[..i];
      KindsPrefix(init, i);
      assert Kinds(s)[..i] == Kinds(init)[..i];
    } else {
      assert s[..i] == s;
    }
  }

  /** Piece `i` of `s` is the step on `s[i]` from the state after `s[..i]`. */
  lemma {:induction false} PieceAt(s: Bytes, i: nat)
    requires i < |s|
    ensures Pieces(s)[i] == Step(Run(s[..i]), s[i]).1
    ensures Kinds(s)[i] == KindAt(Lex(s[..i]), s[i])
    decreases |s|
  {
    var init := s[..|s| - 1];
    if i < |s| - 1 {
      assert init[..i] == s[..i] && init[i] == s[i];
      PieceAt(init, i);
    }
  }

  /**
   * What each character prints: whitespace outside strings prints nothing;
   * `}` and `]` start a line at the depth they close to; any other
   * character starts a line at the current depth when it follows `{`, `[`
   * or `,` (whitespace between ignored); the character itself is copied,
   * with one space after a `:` outside strings, and characters of string
   * literals are copied as they are.
   */
  lemma PieceLayout(s: Bytes, i: nat)
    requires i < |s|
    ensures var ks := Kinds(s);
      Pieces(s)[i] == Piece(
        if ks[i] == Close then Some(Depth(ks[..i + 1]))
        else if ks[i] != Blank && BreakDue(ks[..i]) then Some(Depth(ks[..i]))
        else None,
        if ks[i] == Blank then [] else [s[i]],
        if ks[i] == Colon then " " else [])
  {
    var pre := s[..i];
    PieceAt(s, i);
    RunFollowsKinds(pre);
    KindsPrefix(s, i);
    LayoutAt(Kinds(s), i, Lex(pre), s[i], Pieces(s)[i]);
  }

  /** `PieceLayout` for the piece printed at index `i` of a reading `ks`. */
  lemma LayoutAt(ks: seq<Kind>, i: nat, l: Lexer, c: Octet, piece: Piece)
    requires i < |ks| && ks[i] == KindAt(l, c)
    requires var kp := ks[..i];
      piece == Step(Printer(Depth(kp), l.inQuotes, l.inEscape, if BreakDue(kp) then Some(Depth(kp)) else None), c).1
    ensures piece == Piece(
        if ks[i] == Close then Some(Depth(ks[..i + 1]))
        else if ks[i] != Blank && BreakDue(ks[..i]) then Some(Depth(ks[..i]))
        else None,
        if ks[i] == Blank then [] else [c],
        if ks[i] == Colon then " " else [])
  {
    StepPiece(ks[..i], l, c);
    assert ks[..i + 1] == ks[..i] + [ks[i]];
    DepthSnoc(ks[..i], ks[i]);
  }

  /** The piece one step prints, in terms of the reading of the text so far. */
  lemma StepPiece(ks: seq<Kind>, l: Lexer, c: Octet)
    ensures var k := KindAt(l, c);
      var p := Printer(Depth(ks), l.inQuotes, l.inEscape, if BreakDue(ks) then Some(Depth(ks)) else None);
      Step(p, c).1 == Piece(
        if k == Close then Some(Depth(ks) - 1)
        else if k != Blank && BreakDue(ks) then Some(Depth(ks))
        else None,
        if k == Blank then [] else [c],
        if k == Colon then " " else [])
  {
    PieceState(Depth(ks), BreakDue(ks), l, c);
  }

  /** `StepPiece` on the depth and the pending break alone. */
  lemma PieceState(d: int, due: bool, l: Lexer, c: Octet)
    ensures var k := KindAt(l, c);
      Step(Printer(d, l.inQuotes, l.inEscape, if due then Some(d) else None), c).1 == Piece(
        if k == Close then Some(d - 1)
        else if k != Blank && due then Some(d)
        else None,
        if k == Blank then [] else [c],
        if k == Colon then " " else [])
  {
  }

  /**
   * Removing the line breaks, the indentation and the spaces after `:`
   * from the output gives the input without its whitespace outside strings.
   */
  lemma {:induction false} CharsAreMinified(s: Bytes)
    ensures Chars(Pieces(s)) == Minify(s)
  {
    if s != [] {
      var init := s[..|s| - 1];
      CharsAreMinified(init);
      PieceLayout(s, |s| - 1);
      assert Pieces(s)[..|s| - 1] == Pieces(init);
    }
  }

  /** The output is the pieces shown one after the other. */
  lemma {:induction false} PrettyIsShownPieces(s: Bytes, t: Octet)
    ensures Pretty(s + [t]) == Pretty(s) + Show(Step(Run(s), t).1)
  {
    var st := s + [t];
    assert st[..|st| - 1] == s;
  }

  /** Whitespace outside strings changes nothing in the output, not even where lines break. */
  lemma BlankPrintsNothing(s: Bytes, i: nat)
    requires i < |s| && Kinds(s)[i] == Blank
    ensures Show(Pieces(s)[i]) == []
  {
    PieceLayout(s, i);
  }
}
