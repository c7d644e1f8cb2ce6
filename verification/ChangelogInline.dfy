/** `_escape` and `_inline` of the changelog renderer: HTML escaping, then four substitutions. */
module ChangelogInline {
  import opened Search
  import opened Wrappers

  // ---- escaping -----------------------------------------------------------------------------------

  function ReplaceChar(s: string, c: char, with: string): string {
    if s == "" then "" else (if s[0] == c then with else [s[0]]) + ReplaceChar(s[1..], c, with)
  }

  function Escape(s: string): string {
    ReplaceChar(ReplaceChar(ReplaceChar(s, '&', "&amp;"), '<', "&lt;"), '>', "&gt;")
  }

  // ---- the four patterns ----------------------------------------------------------------------------

  datatype Rule = Code | Bold | Italic | Link

  /** What a rule makes of the text at one position: nothing, or a replacement up to `end`. */
  datatype Hit = Miss | Hit(end: nat, text: string)

  /** The first position from `i` on that holds one of two characters, or the end of the text. */
  function Until(s: string, i: nat, c: char, d: char): (j: nat)
    ensures j <= |s| && (i <= |s| ==> i <= j) && (j < |s| ==> i <= j && (s[j] == c || s[j] == d))
    decreases |s| - i
  {
    if i >= |s| then |s| else if s[i] == c || s[i] == d then i else Until(s, i + 1, c, d)
  }

  predicate At(s: string, i: nat, c: char) {
    i < |s| && s[i] == c
  }

  /** A doubled backtick, the shortest nonempty text on one line, and a doubled backtick. */
  function DoubleCode(s: string, i: nat): Hit {
    if !At(s, i, '`') || !At(s, i + 1, '`') || i + 2 >= |s| then Miss
    else match Find(s, "``", i + 3)
      case None => Miss
      case Some(j) =>
        if Until(s[..j], i + 2, '\n', '\n') < j then Miss else Hit(j + 2, "<code>" + s[i + 2..j] + "</code>")
  }

  function SingleCode(s: string, i: nat): Hit {
    if !At(s, i, '`') then Miss
    else
      var j := Until(s, i + 1, '`', '`');
      if j == |s| || j == i + 1 then Miss else Hit(j + 1, "<code>" + s[i + 1..j] + "</code>")
  }

  function BoldText(s: string, i: nat): Hit {
    if !At(s, i, '*') || !At(s, i + 1, '*') then Miss
    else
      var j := Until(s, i + 2, '*', '*');
      if j == i + 2 || !At(s, j, '*') || !At(s, j + 1, '*') then Miss
      else Hit(j + 2, "<strong>" + s[i + 2..j] + "</strong>")
  }

  /** Neither asterisk stands beside another one. */
  function ItalicText(s: string, i: nat): Hit {
    if !At(s, i, '*') || (i > 0 && s[i - 1] == '*') then Miss
    else
      var j := Until(s, i + 1, '*', '\n');
      if j == i + 1 || !At(s, j, '*') || At(s, j + 1, '*') then Miss
      else Hit(j + 1, "<em>" + s[i + 1..j] + "</em>")
  }

  function LinkText(s: string, i: nat): Hit {
    if !At(s, i, '[') then Miss
    else
      var j := Until(s, i + 1, ']', ']');
      if j == i + 1 || !At(s, j, ']') || !At(s, j + 1, '(') then Miss
      else
        var k := Until(s, j + 2, ')', ')');
        if k == j + 2 || !At(s, k, ')') then Miss
        else Hit(k + 1, "<a href=\"" + s[j + 2..k] + "\">" + s[i + 1..j] + "</a>")
  }

  function Match(rule: Rule, s: string, i: nat): (h: Hit)
    ensures h.Hit? ==> i < h.end <= |s|
  {
    match rule
    case Code => if DoubleCode(s, i).Hit? then DoubleCode(s, i) else SingleCode(s, i)
    case Bold => BoldText(s, i)
    case Italic => ItalicText(s, i)
    case Link => LinkText(s, i)
  }

  /** `pattern.sub` from position `i` on. */
  function Sub(rule: Rule, s: string, i: nat): string
    decreases |s| - i
  {
    if i >= |s| then ""
    else match Match(rule, s, i)
      case Hit(end, text) => text + Sub(rule, s, end)
      case Miss => [s[i]] + Sub(rule, s, i + 1)
  }

  function Inline(s: string): string {
    Sub(Link, Sub(Italic, Sub(Bold, Sub(Code, Escape(s), 0), 0), 0), 0)
  }

  // ---- every tag is one of the renderer's own ----------------------------------------------------------

  predicate TagStart(c: char) {
    c == '/' || 'a' <= c <= 'z'
  }

  /** No angle bracket opens anything but a tag; in particular no comment. */
  predicate OnlyTags(s: string) {
    forall k | 0 <= k < |s| && s[k] == '<' :: k + 1 < |s| && TagStart(s[k + 1])
  }

  lemma {:induction false} ReplacedIsGone(s: string, c: char, with: string, d: char)
    requires d !in with && (d == c || d !in s)
    ensures d !in ReplaceChar(s, c, with)
  {
    if s != "" { ReplacedIsGone(s[1..], c, with, d); }
  }

  /** The source text's own angle brackets are gone after escaping. */
  lemma EscapedHasNoAngles(s: string)
    ensures '<' !in Escape(s) && '>' !in Escape(s)
  {
    var amp := ReplaceChar(s, '&', "&amp;");
    var lt := ReplaceChar(amp, '<', "&lt;");
    ReplacedIsGone(amp, '<', "&lt;", '<');
    ReplacedIsGone(lt, '>', "&gt;", '<');
    ReplacedIsGone(lt, '>', "&gt;", '>');
  }

  lemma OnlyTagsAppend(a: string, b: string)
    requires OnlyTags(a) && OnlyTags(b)
    ensures OnlyTags(a + b)
  {
  }

  /** A piece that ends before something that starts no tag. */
  lemma OnlyTagsSlice(s: string, i: nat, j: nat)
    requires OnlyTags(s) && i <= j < |s| && !TagStart(s[j])
    ensures OnlyTags(s[i..j])
  {
    forall k | 0 <= k < j - i && s[i..j][k] == '<' ensures k + 1 < j - i && TagStart(s[i..j][k + 1]) {
      assert s[i + k] == '<';
    }
  }

  lemma Wrapped(open: string, s: string, i: nat, j: nat, close: string)
    requires OnlyTags(s) && i <= j < |s| && !TagStart(s[j]) && OnlyTags(open) && OnlyTags(close)
    ensures OnlyTags(open + s[i..j] + close)
  {
    OnlyTagsSlice(s, i, j);
    OnlyTagsAppend(open, s[i..j]);
    OnlyTagsAppend(open + s[i..j], close);
  }

  /** A hit starts at a mark, and its text has only tags. */
  predicate CleanHit(h: Hit, s: string, i: nat) {
    h.Hit? ==> OnlyTags(h.text) && i < |s| && !TagStart(s[i]) && s[i] != '<'
  }

  lemma DoubleCodeIsClean(s: string, i: nat)
    requires OnlyTags(s)
    ensures CleanHit(DoubleCode(s, i), s, i)
  {
    if DoubleCode(s, i).Hit? {
      FindMeans(s, "``", i + 3);
      var j, zero := Find(s, "``", i + 3).value, 0;
      assert s[j + zero] == "``"[zero];
      Wrapped("<code>", s, i + 2, j, "</code>");
    }
  }

  lemma SingleCodeIsClean(s: string, i: nat)
    requires OnlyTags(s)
    ensures CleanHit(SingleCode(s, i), s, i)
  {
    if SingleCode(s, i).Hit? { Wrapped("<code>", s, i + 1, Until(s, i + 1, '`', '`'), "</code>"); }
  }

  lemma BoldIsClean(s: string, i: nat)
    requires OnlyTags(s)
    ensures CleanHit(BoldText(s, i), s, i)
  {
    if BoldText(s, i).Hit? { Wrapped("<strong>", s, i + 2, Until(s, i + 2, '*', '*'), "</strong>"); }
  }

  lemma ItalicIsClean(s: string, i: nat)
    requires OnlyTags(s)
    ensures CleanHit(ItalicText(s, i), s, i)
  {
    if ItalicText(s, i).Hit? { Wrapped("<em>", s, i + 1, Until(s, i + 1, '*', '\n'), "</em>"); }
  }

  lemma LinkIsClean(s: string, i: nat)
    requires OnlyTags(s)
    ensures CleanHit(LinkText(s, i), s, i)
  {
    if LinkText(s, i).Hit? {
      var j := Until(s, i + 1, ']', ']');
      var k := Until(s, j + 2, ')', ')');
      Wrapped("<a href=\"", s, j + 2, k, "\">");
      Wrapped("<a href=\"" + s[j + 2..k] + "\">", s, i + 1, j, "</a>");
    }
  }

  lemma HitHasOnlyTags(rule: Rule, s: string, i: nat)
    requires OnlyTags(s)
    ensures CleanHit(Match(rule, s, i), s, i)
  {
    match rule
    case Code =>
      DoubleCodeIsClean(s, i);
      SingleCodeIsClean(s, i);
    case Bold => BoldIsClean(s, i);
    case Italic => ItalicIsClean(s, i);
    case Link => LinkIsClean(s, i);
  }

  /** A substitution keeps the text free of everything but tags, and never eats what follows a bracket. */
  lemma {:induction false} SubKeepsTags(rule: Rule, s: string, i: nat)
    requires OnlyTags(s)
    ensures OnlyTags(Sub(rule, s, i))
    ensures i < |s| && TagStart(s[i]) ==> Sub(rule, s, i) != "" && Sub(rule, s, i)[0] == s[i]
    decreases |s| - i
  {
    hide Match, LinkText, DoubleCode, SingleCode, BoldText, TagStart;
    if i < |s| {
      match Match(rule, s, i)
      case Hit(end, text) =>
        HitHasOnlyTags(rule, s, i);
        SubKeepsTags(rule, s, end);
        OnlyTagsAppend(text, Sub(rule, s, end));
      case Miss =>
        SubKeepsTags(rule, s, i + 1);
    }
  }

  /** A formatted line opens no comment, whatever the source line was. */
  lemma InlineHasOnlyTags(s: string)
    ensures OnlyTags(Inline(s))
  {
    EscapedHasNoAngles(s);
    var code := Sub(Code, Escape(s), 0);
    var bold := Sub(Bold, code, 0);
    SubKeepsTags(Code, Escape(s), 0);
    SubKeepsTags(Bold, code, 0);
    SubKeepsTags(Italic, bold, 0);
    SubKeepsTags(Link, Sub(Italic, bold, 0), 0);
  }
}
