/**
 `render_markdown`: its nested loops are proved against the pieces it cuts the lines into, and the page
 is shown to hold every line, to follow its grammar and to open no comment.
 */
module ChangelogRender {
  import opened ChangelogInline
  import opened Search
  import opened Strings

  // ---- lines ----------------------------------------------------------------------------------------

  predicate IsBullet(s: string) {
    Starts(s, "- ") || Starts(s, "* ")
  }

  /** An indented line under a bullet, unless it is a bullet itself. */
  predicate ContinuesBullet(line: string) {
    Strip(line) != "" && LStrip(line) != line && !IsBullet(LStrip(line))
  }

  predicate ContinuesParagraph(line: string) {
    var s := Strip(line);
    s != "" && !Starts(s, "#") && !IsBullet(s)
  }

  // ---- pieces --------------------------------------------------------------------------------------------

  datatype Kind = Blank | Title | Heading(level: nat) | Item | Paragraph

  /** A run of lines, stripped, that the renderer handles as one. */
  datatype Piece = Piece(kind: Kind, lines: seq<string>)

  function KindOf(stripped: string): Kind {
    if stripped == "" then Blank
    else if Starts(stripped, "# ") then Title
    else if Starts(stripped, "## ") then Heading(2)
    else if Starts(stripped, "### ") then Heading(3)
    else if Starts(stripped, "#### ") then Heading(4)
    else if IsBullet(stripped) then Item
    else Paragraph
  }

  predicate Continues(kind: Kind, line: string) {
    match kind
    case Item => ContinuesBullet(line)
    case Paragraph => ContinuesParagraph(line)
    case _ => false
  }

  /** The end of the lines that continue a piece of this kind. */
  function EndOf(kind: Kind, lines: seq<string>, j: nat): (end: nat)
    requires j <= |lines|
    ensures j <= end <= |lines|
    decreases |lines| - j
  {
    if j < |lines| && Continues(kind, lines[j]) then EndOf(kind, lines, j + 1) else j
  }

  /** The pieces from line `i` on. */
  function Pieces(lines: seq<string>, i: nat): seq<Piece>
    requires i <= |lines|
    decreases |lines| - i
  {
    if i == |lines| then []
    else
      var kind := KindOf(Strip(lines[i]));
      var end := EndOf(kind, lines, i + 1);
      [Piece(kind, Stripped(lines[i..end]))] + Pieces(lines, end)
  }

  // ---- elements ------------------------------------------------------------------------------------------

  datatype Tag = H(level: nat) | Li | P

  datatype Element = OpenList | CloseList | Tagged(tag: Tag, html: string)

  function Behind(s: string, n: nat): string {
    if n <= |s| then s[n..] else ""
  }

  /** The text of a piece, without its own mark. */
  function Content(p: Piece): string {
    match p.kind
    case Heading(level) => Behind(Join(p.lines, " "), level + 1)
    case Item => Behind(Join(p.lines, " "), 2)
    case _ => Join(p.lines, " ")
  }

  function Close(inList: bool): seq<Element> {
    if inList then [CloseList] else []
  }

  /** What one piece adds to the page, and whether a list is open behind it. */
  function Added(p: Piece, inList: bool): seq<Element> {
    match p.kind
    case Blank => Close(inList)
    case Title => Close(inList)
    case Heading(level) => Close(inList) + [Tagged(H(level), Inline(Content(p)))]
    case Paragraph => Close(inList) + [Tagged(P, Inline(Content(p)))]
    case Item => (if inList then [] else [OpenList]) + [Tagged(Li, Inline(Content(p)))]
  }

  function Elements(pieces: seq<Piece>, inList: bool): seq<Element> {
    if pieces == [] then Close(inList) else Added(pieces[0], inList) + Elements(pieces[1..], pieces[0].kind.Item?)
  }

  function TagText(tag: Tag): string {
    match tag
    case H(level) => if level == 2 then "h2" else if level == 3 then "h3" else "h4"
    case Li => "li"
    case P => "p"
  }

  function Print(e: Element): string {
    match e
    case OpenList => "<ul>"
    case CloseList => "</ul>"
    case Tagged(tag, html) => "<" + TagText(tag) + ">" + html + "</" + TagText(tag) + ">"
  }

  function PrintAll(es: seq<Element>): (r: seq<string>)
    ensures |r| == |es| && forall k | 0 <= k < |es| :: r[k] == Print(es[k])
  {
    seq(|es|, k requires 0 <= k < |es| => Print(es[k]))
  }

  function Body(lines: seq<string>): string {
    Join(PrintAll(Elements(Pieces(lines, 0), false)), "\n") + "\n"
  }

  // ---- the loops ---------------------------------------------------------------------------------------

  lemma PrintAppend(a: seq<Element>, b: seq<Element>)
    ensures PrintAll(a + b) == PrintAll(a) + PrintAll(b)
  {
  }

  lemma StripOne(lines: seq<string>, i: nat)
    requires i < |lines|
    ensures Stripped(lines[i..i + 1]) == [Strip(lines[i])]
  {
  }

  lemma StripMore(lines: seq<string>, i: nat, j: nat)
    requires i <= j < |lines|
    ensures Stripped(lines[i..j + 1]) == Stripped(lines[i..j]) + [Strip(lines[j])]
  {
  }

  function Joined(lines: seq<string>, i: nat, j: nat): string
    requires i <= j <= |lines|
  {
    Join(Stripped(lines[i..j]), " ")
  }

  lemma JoinedMore(lines: seq<string>, i: nat, j: nat)
    requires i < j < |lines|
    ensures Joined(lines, i, j + 1) == Joined(lines, i, j) + (" " + Strip(lines[j]))
  {
    StripMore(lines, i, j);
    var so := Stripped(lines[i..j]);
    assert (so + [Strip(lines[j])])[..|so|] == so;
    Associate(Join(so, " "), " ", Strip(lines[j]));
  }

  lemma BehindAppend(s: string, t: string, n: nat)
    requires n <= |s|
    ensures Behind(s + t, n) == Behind(s, n) + t
  {
  }

  lemma PiecesStep(lines: seq<string>, i: nat, end: nat, inList: bool)
    requires i < |lines| && end == EndOf(KindOf(Strip(lines[i])), lines, i + 1)
    ensures
      var p := Piece(KindOf(Strip(lines[i])), Stripped(lines[i..end]));
      Elements(Pieces(lines, i), inList) == Added(p, inList) + Elements(Pieces(lines, end), p.kind.Item?)
  {
    var p := Piece(KindOf(Strip(lines[i])), Stripped(lines[i..end]));
    assert ([p] + Pieces(lines, end))[1..] == Pieces(lines, end);
  }

  /** `<li>`: this line and the lines that continue it. */
  method ReadBullet(lines: seq<string>, i: nat) returns (content: string, j: nat)
    requires i < |lines| && IsBullet(Strip(lines[i]))
    ensures i < j <= |lines| && j == EndOf(Item, lines, i + 1) && content == Behind(Joined(lines, i, j), 2)
  {
    hide Strip;
    StripOne(lines, i);
    content := Strip(lines[i])[2..];
    j := i + 1;
    while j < |lines| && ContinuesBullet(lines[j])
      invariant i < j <= |lines| && EndOf(Item, lines, i + 1) == EndOf(Item, lines, j)
      invariant |Joined(lines, i, j)| >= 2 && content == Behind(Joined(lines, i, j), 2)
    {
      JoinedMore(lines, i, j);
      BehindAppend(Joined(lines, i, j), " " + Strip(lines[j]), 2);
      content := content + (" " + Strip(lines[j]));
      j := j + 1;
    }
  }

  /** `<p>`: the stripped lines up to the next blank line, heading mark or bullet. */
  method ReadParagraph(lines: seq<string>, i: nat) returns (paragraph: seq<string>, j: nat)
    requires i < |lines|
    ensures i < j <= |lines| && j == EndOf(Paragraph, lines, i + 1) && paragraph == Stripped(lines[i..j])
  {
    StripOne(lines, i);
    paragraph, j := [Strip(lines[i])], i + 1;
    while j < |lines| && ContinuesParagraph(lines[j])
      invariant i < j <= |lines| && EndOf(Paragraph, lines, i + 1) == EndOf(Paragraph, lines, j)
      invariant paragraph == Stripped(lines[i..j])
    {
      StripMore(lines, i, j);
      paragraph := paragraph + [Strip(lines[j])];
      j := j + 1;
    }
  }

  lemma MarkIsThere(stripped: string)
    ensures KindOf(stripped).Heading? ==> KindOf(stripped).level + 1 <= |stripped|
    ensures Behind(Join([stripped], " "), 2) == Behind(stripped, 2)
  {
  }

  /** The branches of the loop body. */
  method RenderPiece(lines: seq<string>, i: nat, inUl: bool) returns (added: seq<Element>, next: nat)
    requires i < |lines|
    ensures next == EndOf(KindOf(Strip(lines[i])), lines, i + 1)
    ensures added == Added(Piece(KindOf(Strip(lines[i])), Stripped(lines[i..next])), inUl)
  {
    var stripped := Strip(lines[i]);
    StripOne(lines, i);
    MarkIsThere(stripped);
    match KindOf(stripped) {
      case Blank =>
        next, added := i + 1, Close(inUl);
      case Title =>
        next, added := i + 1, Close(inUl);
      case Heading(level) =>
        next, added := i + 1, Close(inUl) + [Tagged(H(level), Inline(stripped[level + 1..]))];
      case Item =>
        var content: string;
        content, next := ReadBullet(lines, i);
        added := (if inUl then [] else [OpenList]) + [Tagged(Li, Inline(content))];
      case Paragraph =>
        var paragraph: seq<string>;
        paragraph, next := ReadParagraph(lines, i);
        added := Close(inUl) + [Tagged(P, Inline(Join(paragraph, " ")))];
    }
  }

  /** `render_markdown`, after `splitlines`. */
  method RenderMarkdown(lines: seq<string>) returns (body: string)
    ensures body == Body(lines)
  {
    var out: seq<string> := [];
    ghost var shown: seq<Element> := [];
    var inUl, i := false, 0;
    while i < |lines|
      invariant i <= |lines| && out == PrintAll(shown)
      invariant shown + Elements(Pieces(lines, i), inUl) == Elements(Pieces(lines, 0), false)
    {
      var added, next := RenderPiece(lines, i, inUl);
      PiecesStep(lines, i, next, inUl);
      inUl := KindOf(Strip(lines[i])).Item?;
      Associate(shown, added, Elements(Pieces(lines, next), inUl));
      PrintAppend(shown, added);
      out, shown := out + PrintAll(added), shown + added;
      i := next;
    }
    PrintAppend(shown, Close(inUl));
    out := out + PrintAll(Close(inUl));
    body := Join(out, "\n") + "\n";
  }

  // ---- every line once, and blocks in their grammar --------------------------------------------------------

  function Flatten(pieces: seq<Piece>): seq<string> {
    if pieces == [] then [] else pieces[0].lines + Flatten(pieces[1..])
  }

  /**
   The pieces are the lines, each once and in order. Dropped are exactly the pieces of a single blank
   line or a single line that starts with one number sign; an indented one under a bullet stays.
   */
  lemma {:induction false} EveryLineOnce(lines: seq<string>, i: nat)
    requires i <= |lines|
    ensures Flatten(Pieces(lines, i)) == Stripped(lines[i..])
    ensures forall p | p in Pieces(lines, i) :: IsPiece(p)
    decreases |lines| - i
  {
    if i < |lines| {
      var kind := KindOf(Strip(lines[i]));
      var end := EndOf(kind, lines, i + 1);
      EveryLineOnce(lines, end);
      FirstPiece(lines, i, end);
      StripSplit(lines, i, end);
      assert ([Piece(kind, Stripped(lines[i..end]))] + Pieces(lines, end))[1..] == Pieces(lines, end);
    }
  }

  predicate IsPiece(p: Piece) {
    && p.lines != [] && p.kind == KindOf(p.lines[0])
    && (p.kind.Blank? || p.kind.Title? || p.kind.Heading? ==> |p.lines| == 1)
    && forall k | 1 <= k < |p.lines| :: p.lines[k] != ""
  }

  lemma FirstPiece(lines: seq<string>, i: nat, end: nat)
    requires i < |lines| && end == EndOf(KindOf(Strip(lines[i])), lines, i + 1)
    ensures IsPiece(Piece(KindOf(Strip(lines[i])), Stripped(lines[i..end])))
  {
    ContinuationsAreText(KindOf(Strip(lines[i])), lines, i + 1);
  }

  lemma StripSplit(lines: seq<string>, i: nat, end: nat)
    requires i <= end <= |lines|
    ensures Stripped(lines[i..]) == Stripped(lines[i..end]) + Stripped(lines[end..])
  {
  }

  lemma {:induction false} ContinuationsAreText(kind: Kind, lines: seq<string>, j: nat)
    requires j <= |lines|
    ensures forall k | j <= k < EndOf(kind, lines, j) :: Strip(lines[k]) != ""
    decreases |lines| - j
  {
    if j < |lines| && Continues(kind, lines[j]) { ContinuationsAreText(kind, lines, j + 1); }
  }

  datatype Place = Outside | ListOpened | InList

  /** The grammar of the page: headings, paragraphs, and lists of at least one item. */
  predicate Grammatical(es: seq<Element>, place: Place) {
    if es == [] then place.Outside?
    else match (es[0], place)
      case (OpenList, Outside) => Grammatical(es[1..], ListOpened)
      case (CloseList, InList) => Grammatical(es[1..], Outside)
      case (Tagged(Li, _), ListOpened) => Grammatical(es[1..], InList)
      case (Tagged(Li, _), InList) => Grammatical(es[1..], InList)
      case (Tagged(H(_), _), Outside) => Grammatical(es[1..], Outside)
      case (Tagged(P, _), Outside) => Grammatical(es[1..], Outside)
      case _ => false
  }

  lemma AddedIsGrammatical(p: Piece, inList: bool, rest: seq<Element>)
    requires Grammatical(rest, if p.kind.Item? then InList else Outside)
    ensures Grammatical(Added(p, inList) + rest, if inList then InList else Outside)
  {
    var es := Added(p, inList) + rest;
    if |Added(p, inList)| == 0 {
      assert es == rest;
    } else if |Added(p, inList)| == 1 {
      assert es[1..] == rest;
    } else {
      assert es[1..][1..] == rest;
    }
  }

  /** Whatever the lines are, the page follows the grammar. */
  lemma {:induction false} PageIsGrammatical(pieces: seq<Piece>, inList: bool)
    ensures Grammatical(Elements(pieces, inList), if inList then InList else Outside)
    decreases |pieces|
  {
    if pieces != [] {
      PageIsGrammatical(pieces[1..], pieces[0].kind.Item?);
      AddedIsGrammatical(pieces[0], inList, Elements(pieces[1..], pieces[0].kind.Item?));
    }
  }

  // ---- what a bullet absorbs --------------------------------------------------------------------------------

  /** The rule that the script's comment states: indented by at least two blanks. */
  predicate IndentedByTwo(line: string) {
    Starts(line, "  ") && Strip(line) != "" && !IsBullet(LStrip(line))
  }

  lemma LStripMoves(line: string)
    ensures LStrip(line) != line <==> line != "" && IsSpace(line[0])
  {
  }

  /** The line after a bullet is absorbed exactly if it is no bullet and starts with white space of any kind. */
  lemma AbsorbedExactlyWhen(lines: seq<string>, i: nat)
    requires i + 1 < |lines| && IsBullet(Strip(lines[i]))
    ensures
      var next := lines[i + 1];
      i + 1 < EndOf(KindOf(Strip(lines[i])), lines, i + 1) <==>
        Strip(next) != "" && IsSpace(next[0]) && !IsBullet(LStrip(next))
  {
    BulletsAreItems(Strip(lines[i]));
    LStripMoves(lines[i + 1]);
  }

  lemma FirstCharacter(s: string, w: string)
    requires w != ""
    ensures Starts(s, w) ==> s != "" && s[0] == w[0]
  {
  }

  lemma BulletsAreItems(s: string)
    requires IsBullet(s)
    ensures KindOf(s) == Item
  {
    FirstCharacter(s, "- ");
    FirstCharacter(s, "* ");
    FirstCharacter(s, "# ");
    FirstCharacter(s, "## ");
    FirstCharacter(s, "### ");
    FirstCharacter(s, "#### ");
  }

  /** So the code differs from its comment exactly on lines that start with white space, but not with two blanks. */
  lemma BulletRuleDiffersExactlyWhen(line: string)
    ensures IndentedByTwo(line) ==> ContinuesBullet(line)
    ensures ContinuesBullet(line) != IndentedByTwo(line) <==>
              Strip(line) != "" && IsSpace(line[0]) && !Starts(line, "  ") && !IsBullet(LStrip(line))
  {
    LStripMoves(line);
    FirstCharacter(line, "  ");
  }

  /** One blank is enough for the code, and not for the comment. */
  lemma OneBlankIsAbsorbed()
    ensures ContinuesBullet(" b") && !IndentedByTwo(" b")
    ensures Pieces(["- a", " b"], 0) == [Piece(Item, ["- a", "b"])]
  {
    assert " b"[1..] == "b" && " b"[1] != "  "[1];
    var lines := ["- a", " b"];
    assert !IsBullet("b") by { assert |"b"| == 1; }
    assert Starts("- a", "- ") by { forall k | 0 <= k < 2 ensures "- a"[k] == "- "[k] {} }
    BulletsAreItems("- a");
    assert EndOf(Item, lines, 1) == 2;
    assert Stripped(lines[0..2]) == ["- a", "b"];
  }

  /** A title line under a bullet is absorbed instead of dropped exactly if it is indented at all. */
  lemma TitleAbsorbedExactlyWhen(line: string)
    requires KindOf(Strip(line)).Title?
    ensures ContinuesBullet(line) <==> IsSpace(line[0])
  {
    LStripMoves(line);
    RStripIsPrefix(LStrip(line));
    var s := LStrip(line);
    FirstCharacter(s, "# ");
    FirstCharacter(s, "- ");
    FirstCharacter(s, "* ");
  }

  lemma {:induction false} RStripIsPrefix(s: string)
    ensures RStrip(s) == s[..|RStrip(s)|]
    decreases |s|
  {
    if s != "" && IsSpace(s[|s| - 1]) { RStripIsPrefix(s[..|s| - 1]); }
  }

  // ---- the body opens no comment -----------------------------------------------------------------------------

  lemma {:induction false} JoinHasOnlyTags(lines: seq<string>, sep: string)
    requires OnlyTags(sep) && forall k | 0 <= k < |lines| :: OnlyTags(lines[k])
    ensures OnlyTags(Join(lines, sep))
    decreases |lines|
  {
    if |lines| > 1 {
      JoinHasOnlyTags(lines[..|lines| - 1], sep);
      OnlyTagsAppend(Join(lines[..|lines| - 1], sep), sep);
      OnlyTagsAppend(Join(lines[..|lines| - 1], sep) + sep, lines[|lines| - 1]);
    }
  }

  lemma TagsAreTags(tag: Tag)
    ensures OnlyTags("<" + TagText(tag) + ">") && OnlyTags("</" + TagText(tag) + ">")
  {
  }

  lemma ListTagsAreTags()
    ensures OnlyTags("<ul>") && OnlyTags("</ul>")
  {
  }

  lemma PrintHasOnlyTags(e: Element, html: string)
    requires e.Tagged? ==> e.html == html && OnlyTags(html)
    ensures OnlyTags(Print(e))
  {
    hide OnlyTags, TagText;
    ListTagsAreTags();
    if e.Tagged? {
      var lead, back := "<" + TagText(e.tag) + ">", "</" + TagText(e.tag) + ">";
      TagsAreTags(e.tag);
      OnlyTagsAppend(lead, html);
      OnlyTagsAppend(lead + html, back);
      assert Print(e) == lead + html + back;
    }
  }

  lemma {:induction false} ElementsAreFormatted(pieces: seq<Piece>, inList: bool)
    ensures forall e | e in Elements(pieces, inList) && e.Tagged? :: OnlyTags(e.html)
    decreases |pieces|
  {
    hide Inline;
    if pieces != [] {
      InlineHasOnlyTags(Content(pieces[0]));
      ElementsAreFormatted(pieces[1..], pieces[0].kind.Item?);
    }
  }

  /** The body's angle brackets all belong to tags of the renderer, so no marker can occur in it. */
  lemma BodyHasOnlyTags(lines: seq<string>)
    ensures OnlyTags(Body(lines))
  {
    var es := Elements(Pieces(lines, 0), false);
    ElementsAreFormatted(Pieces(lines, 0), false);
    forall k | 0 <= k < |es| ensures OnlyTags(PrintAll(es)[k]) {
      assert es[k] in es;
      PrintHasOnlyTags(es[k], if es[k].Tagged? then es[k].html else "");
    }
    JoinHasOnlyTags(PrintAll(es), "\n");
    OnlyTagsAppend(Join(PrintAll(es), "\n"), "\n");
  }
}
