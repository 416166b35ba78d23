/**
 * The `{@link target}` references of the help texts (HelpREST.php):
 * `Help::linkToHtml` turns one into an anchor whose address is the target
 * resolved against the path of the current request, and the text renderer
 * replaces every reference, left to right, by its anchor.
 */
module HelpLinks {
  import opened Results
  import opened PhpStrings

  /**
   * Where the help page was requested from: the API endpoint prefix, and
   * either the rewritten request path (`REDIRECT_URL` set, `redirected`) or
   * the raw query string.
   */
  datatype Page = Page(endpoint: Bytes, redirected: bool, target: Bytes, queryString: Bytes)

  /** The path links resolve against: the request path, or `?` and the query string, with the endpoint removed. */
  function BasePath(page: Page): Bytes
  {
    var path: Bytes := if page.redirected then page.target else ['?'] + page.queryString;
    Replace(path, page.endpoint, [])
  }

  /** The path segments that name the current and the parent directory. */
  const Dot: Bytes := "."
  const DotDot: Bytes := ".."

  /**
   * Resolving the segments of a link against the segments of the base path,
   * one segment at a time: `.` is skipped, `..` drops the last base segment
   * (when none is left it does nothing), any other segment is kept.
   * The result is the base segments left and the segments kept.
   */
  function Walk(base: seq<Bytes>, segs: seq<Bytes>): (seq<Bytes>, seq<Bytes>)
  {
    if segs == [] then (base, [])
    else
      var (q, t) := Walk(base, segs[..|segs| - 1]);
      var seg := segs[|segs| - 1];
      if seg == Dot then (q, t)
      else if seg == DotDot then (if q == [] then q else q[..|q| - 1], t)
      else (q, t + [seg])
  }

  /** The path ending in exactly the `/` it needs: one is added unless it is already there. */
  function WithSlash(q: Bytes): (r: Bytes)
    ensures |r| > 0 && r[|r| - 1] == '/'
    ensures |q| <= |r| <= |q| + 1 && r[..|q|] == q
  {
    if |q| > 0 && q[|q| - 1] == '/' then q else q + ['/']
  }

  /** The anchor for a reference: `link` is the whole `{@link …}` text, `candidate` its target. */
  function LinkHtml(page: Page, link: Bytes, candidate: Bytes): Bytes
  {
    var (q, t) := Walk(Explode<Octet>('/', BasePath(page)), Explode<Octet>('/', candidate));
    Anchor(WithSlash(Implode<Octet>('/', q)) + Implode<Octet>('/', t), link)
  }

  function Anchor(href: Bytes, text: Bytes): Bytes
  {
    ['<', 'a', ' ', 'h', 'r', 'e', 'f', '=', '\''] + href + ['\'', '>'] + text + ['<', '/', 'a', '>']
  }

  /** `linkToHtml`: the loop over the target's segments, popping the base for each `..`. */
  method LinkToHtml(page: Page, link: Bytes, candidate: Bytes) returns (html: Bytes)
    ensures html == LinkHtml(page, link, candidate)
  {
    var query := Explode<Octet>('/', BasePath(page));
    var targetArr: seq<Bytes> := [];
    var parts := Explode<Octet>('/', candidate);
    for j := 0 to |parts|
      invariant (query, targetArr) == Walk(Explode<Octet>('/', BasePath(page)), parts[..j])
    {
      var nth := parts[j];
      assert parts[..j + 1][..j] == parts[..j];
      if nth == Dot {
        continue;
      }
      if nth == DotDot {
        if |query| > 0 {
          query := query[..|query| - 1];
        }
        continue;
      }
      targetArr := targetArr + [nth];
    }
    assert parts[..|parts|] == parts;
    assert (query, targetArr) == Walk(Explode<Octet>('/', BasePath(page)), parts);
    var target := Implode<Octet>('/', targetArr);
    var q := Implode<Octet>('/', query);
    if |q| == 0 || q[|q| - 1] != '/' {
      q := q + ['/'];
    }
    assert q == WithSlash(Implode<Octet>('/', query));
    html := Anchor(q + target, link);
  }

  /** The segments that are neither `.` nor `..`, in order. */
  function Kept(segs: seq<Bytes>): seq<Bytes>
  {
    if segs == [] then []
    else (if segs[0] == Dot || segs[0] == DotDot then [] else [segs[0]]) + Kept(segs[1..])
  }

  lemma {:induction false} KeptConcat(a: seq<Bytes>, b: seq<Bytes>)
    ensures Kept(a + b) == Kept(a) + Kept(b)
  {
    if a != [] {
      var head := if a[0] == Dot || a[0] == DotDot then [] else [a[0]];
      assert (a + b)[0] == a[0] && (a + b)[1..] == a[1..] + b;
      assert Kept(a + b) == head + Kept(a[1..] + b);
      KeptConcat(a[1..], b);
    } else {
      assert a + b == b;
    }
  }

  /** The target part of the address is the link's segments without `.` and `..`, whatever the base. */
  lemma {:induction false} WalkKeeps(base: seq<Bytes>, segs: seq<Bytes>)
    ensures Walk(base, segs).1 == Kept(segs)
  {
    if segs != [] {
      var init := segs[..|segs| - 1];
      WalkKeeps(base, init);
      KeptConcat(init, [segs[|segs| - 1]]);
      assert init + [segs[|segs| - 1]] == segs;
    }
  }

  /** The base part of the address is the base with one trailing segment dropped per `..`, none below empty. */
  lemma {:induction false} WalkDrops(base: seq<Bytes>, segs: seq<Bytes>)
    ensures var ups := Count(segs, DotDot);
      Walk(base, segs).0 == base[..if ups <= |base| then |base| - ups else 0]
  {
    if segs != [] {
      var init, last := segs[..|segs| - 1], segs[|segs| - 1];
      WalkDrops(base, init);
      WalkBase(base, segs);
      CountConcat(init, [last], DotDot);
      assert init + [last] == segs;
      var ups := Count(init, DotDot);
      PopPrefix(base, if ups <= |base| then |base| - ups else 0);
    }
  }

  /** The base part after one more segment: `..` pops a segment if there is one. */
  lemma WalkBase(base: seq<Bytes>, segs: seq<Bytes>)
    requires segs != []
    ensures var q := Walk(base, segs[..|segs| - 1]).0;
      Walk(base, segs).0 == if segs[|segs| - 1] == DotDot && q != [] then q[..|q| - 1] else q
  {
  }

  lemma PopPrefix(base: seq<Bytes>, n: nat)
    requires n <= |base|
    ensures var q := base[..n]; q != [] ==> q[..|q| - 1] == base[..n - 1]
  {
  }

  /**
   * The anchor a reference becomes: its address is the base path cut by one
   * segment per `..`, ending in `/`, followed by the link's segments other
   * than `.` and `..`; its text is the whole reference.
   */
  lemma LinkAddress(page: Page, link: Bytes, candidate: Bytes)
    ensures var base := Explode<Octet>('/', BasePath(page));
      var segs := Explode<Octet>('/', candidate);
      var ups := Count(segs, DotDot);
      LinkHtml(page, link, candidate)
        == Anchor(WithSlash(Implode<Octet>('/', base[..if ups <= |base| then |base| - ups else 0])) + Implode<Octet>('/', Kept(segs)), link)
  {
    var base := Explode<Octet>('/', BasePath(page));
    var segs := Explode<Octet>('/', candidate);
    WalkKeeps(base, segs);
    WalkDrops(base, segs);
  }

  /** A target without `.` or `..` segments is appended as written. */
  lemma {:induction false} KeptAll(segs: seq<Bytes>)
    requires Dot !in segs && DotDot !in segs
    ensures Kept(segs) == segs
  {
    if segs != [] {
      KeptAll(segs[1..]);
    }
  }

  /** A plain relative link: the address is the base path, ending in `/`, then the target itself. */
  lemma PlainLink(page: Page, link: Bytes, candidate: Bytes)
    requires Dot !in Explode<Octet>('/', candidate) && DotDot !in Explode<Octet>('/', candidate)
    ensures LinkHtml(page, link, candidate) == Anchor(WithSlash(Implode<Octet>('/', Explode<Octet>('/', BasePath(page)))) + candidate, link)
  {
    var segs := Explode<Octet>('/', candidate);
    var base := Explode<Octet>('/', BasePath(page));
    LinkAddress(page, link, candidate);
    KeptAll(segs);
    assert Count(segs, DotDot) == 0;
    assert base[..|base|] == base;
  }

  // ---------------------------------------------------------------------
  // Replacing every reference in a text
  // ---------------------------------------------------------------------

  const LinkOpen: Bytes := ['{', '@', 'l', 'i', 'n', 'k', ' ']

  /** The length of the `{@link target}` at the start of `s`, if one is there: a target of one or more characters up to the first `}`. */
  function LinkAt(s: Bytes): (r: Option<nat>)
    ensures r.Some? ==> 9 <= r.value <= |s| && s[..7] == LinkOpen && s[r.value - 1] == '}'
  {
    if |s| < 7 || s[0] != '{' || s[..7] != LinkOpen then None
    else match Find(s[7..], '}')
      case None => None
      case Some(k) => if k == 0 then None else Some(8 + k)
  }

  /**
   * `preg_replace_callback` with the pattern `\{@link ([^\}]+)\}`: each
   * reference, found left to right without overlap, is replaced by what the
   * callback gives for the whole reference and its target.
   */
  function ReplaceLinks(s: Bytes, callback: (Bytes, Bytes) -> Bytes): Bytes
    decreases |s|
  {
    if s == [] then []
    else match LinkAt(s)
      case Some(n) => callback(s[..n], s[7..n - 1]) + ReplaceLinks(s[n..], callback)
      case None => [s[0]] + ReplaceLinks(s[1..], callback)
  }

  /** The text of a paragraph: every reference replaced by its anchor. */
  function ExpandLinks(page: Page, s: Bytes): Bytes
  {
    ReplaceLinks(s, (link, candidate) => LinkHtml(page, link, candidate))
  }

  /** A character other than `{` starts no reference and is copied. */
  lemma CopiedChar(s: Bytes, callback: (Bytes, Bytes) -> Bytes)
    requires s != [] && s[0] != '{'
    ensures ReplaceLinks(s, callback) == [s[0]] + ReplaceLinks(s[1..], callback)
  {
  }

  /** A text without `{` is left as it is. */
  lemma {:induction false} NoLinkUnchanged(s: Bytes, callback: (Bytes, Bytes) -> Bytes)
    requires '{' !in s
    ensures ReplaceLinks(s, callback) == s
    decreases |s|
  {
    if s != [] {
      CopiedChar(s, callback);
      NoLinkUnchanged(s[1..], callback);
    }
  }

  /** A text that starts with a reference: the callback's text replaces it, and the rest is expanded. */
  lemma LeadingLink(target: Bytes, after: Bytes, callback: (Bytes, Bytes) -> Bytes)
    requires |target| >= 1 && '}' !in target
    ensures var link := LinkOpen + target + ['}'];
      ReplaceLinks(link + after, callback) == callback(link, target) + ReplaceLinks(after, callback)
  {
    var link := LinkOpen + target + ['}'];
    var s := link + after;
    var n := 8 + |target|;
    LinkFound(target, after);
    assert s[..n] == link && s[7..n - 1] == target && s[n..] == after;
  }

  /** The reference at the head of a text is found, with its closing brace. */
  lemma LinkFound(target: Bytes, after: Bytes)
    requires |target| >= 1 && '}' !in target
    ensures LinkAt(LinkOpen + target + ['}'] + after) == Some(8 + |target|)
  {
    var s := LinkOpen + target + ['}'] + after;
    assert s[..7] == LinkOpen;
    assert s[7..] == target + ['}'] + after;
    FindAfter('}', target, after);
  }

  /** Copying a prefix without `{`: what follows it is expanded on its own. */
  lemma {:induction false} CopiedPrefix(before: Bytes, tail: Bytes, callback: (Bytes, Bytes) -> Bytes)
    requires '{' !in before
    ensures ReplaceLinks(before + tail, callback) == before + ReplaceLinks(tail, callback)
    decreases |before|
  {
    if before == [] {
      assert before + tail == tail;
    } else {
      var c, more := before[0], before[1..];
      assert before + tail == [c] + (more + tail);
      CopiedChar([c] + (more + tail), callback);
      assert ([c] + (more + tail))[1..] == more + tail;
      CopiedPrefix(more, tail, callback);
      assert [c] + (more + ReplaceLinks(tail, callback)) == before + ReplaceLinks(tail, callback);
    }
  }

  /** The first reference of a text is replaced by the callback's text, and the text before it is kept. */
  lemma FirstLinkReplaced(before: Bytes, target: Bytes, after: Bytes, callback: (Bytes, Bytes) -> Bytes)
    requires '{' !in before
    requires |target| >= 1 && '}' !in target
    ensures var link := LinkOpen + target + ['}'];
      ReplaceLinks(before + link + after, callback) == before + callback(link, target) + ReplaceLinks(after, callback)
  {
    var link := LinkOpen + target + ['}'];
    CopiedPrefix(before, link + after, callback);
    assert before + link + after == before + (link + after);
    LeadingLink(target, after, callback);
  }

  /** In a paragraph, the first reference becomes the anchor `linkToHtml` makes for it. */
  lemma FirstLinkExpanded(page: Page, before: Bytes, target: Bytes, after: Bytes)
    requires '{' !in before
    requires |target| >= 1 && '}' !in target
    ensures var link := LinkOpen + target + ['}'];
      ExpandLinks(page, before + link + after) == before + LinkHtml(page, link, target) + ExpandLinks(page, after)
  {
    FirstLinkReplaced(before, target, after, (link, candidate) => LinkHtml(page, link, candidate));
  }
}
