/**
 Texts with well-formed auto-count blocks: how they are put together, and that the marker scan finds
 exactly their blocks.
 */
module MarkerDocs {
  import opened Search
  import opened Strings
  import opened Wrappers
  import opened MarkerText

  /** A text cut at its marker blocks: what stands before a block, its name, its inside, and the rest. */
  datatype Doc =
    | Last(outside: Text)
    | Block(outside: Text, name: Text, inside: Text, rest: Doc)

  function BlockText(name: Text, inside: Text): Text {
    BeginMarker(name) + inside + EndMarker(name)
  }

  function Render(d: Doc): Text {
    match d
    case Last(outside) => outside
    case Block(outside, name, inside, rest) => outside + (BlockText(name, inside) + Render(rest))
  }

  // ---- well-formed markers -----------------------------------------------------------------------------

  /** No position of the text opens a marker. */
  ghost predicate NoMarkers(s: string) {
    forall k: nat, side: Side | k < |s| :: OpenEnd(s, k, side).None?
  }

  ghost predicate NoMarker(t: Text) {
    NoMarkers(Skeleton(t))
  }

  predicate PlainName(name: Text) {
    forall k | 0 <= k < |name| :: name[k] != Ch('<') && name[k] != Ch('>')
  }

  /** Blocks are closed by their own name, and neither nested nor half open. */
  ghost predicate WellFormed(d: Doc) {
    NoMarker(d.outside)
    && (d.Block? ==> PlainName(d.name) && NoMarker(d.inside) && WellFormed(d.rest))
  }

  /** The pattern cannot match an angle bracket. */
  predicate Plain(p: Pattern) {
    forall k | 0 <= k < |p.items| :: p.items[k] != Lit('<') && p.items[k] != Lit('>')
  }

  function Repeat(b: bool, n: nat): (m: seq<bool>)
    ensures |m| == n && forall i | 0 <= i < n :: m[i] == b
  {
    seq(n, _ => b)
  }

  // ---- finding the blocks of a rendered document -----------------------------------------------------

  function Lead(side: Side): string {
    "<!-- " + Keyword(side)
  }

  /** What follows position `i` cannot belong to an opening that started before. */
  ghost predicate AngleAt(s: string, i: nat) {
    i >= |s| || s[i] == '<'
  }

  lemma KeywordChars(side: Side)
    ensures !IsSpace(Keyword(side)[0]) && forall j | 0 <= j < |Keyword(side)| :: Keyword(side)[j] != '<'
  {
  }

  lemma {:induction false} KeywordIsLocal(t: string, s: string, i: nat, k: nat, side: Side)
    requires Sits(t, s, i) && AngleAt(s, i + |t|) && k <= |t|
    ensures KeywordEnd(s, i + k, side) == match KeywordEnd(t, k, side) case Some(e) => Some(i + e) case None => None
    decreases |t| - k
  {
    hide Keyword;
    KeywordChars(side);
    PrefixIsLocal(t, s, i, k, Keyword(side));
    if k < |t| {
      assert s[i + k] == t[k];
      if IsSpace(t[k]) { KeywordIsLocal(t, s, i, k + 1, side); }
    }
  }

  lemma PrefixIsLocal(t: string, s: string, i: nat, k: nat, w: string)
    requires Sits(t, s, i) && AngleAt(s, i + |t|) && k <= |t| && forall j | 0 <= j < |w| :: w[j] != '<'
    ensures Sits(w, s, i + k) == Sits(w, t, k)
  {
    if Sits(w, t, k) {
      forall j | 0 <= j < |w| ensures s[i + k + j] == w[j] {
        assert s[i + (k + j)] == t[k + j];
      }
    }
    if k + |w| > |t| && i + |t| < |s| {
      assert s[i + k + (|t| - k)] == '<' && w[|t| - k] != '<';
    }
    if Sits(w, s, i + k) {
      forall j | 0 <= j < |w| ensures t[k + j] == w[j] {
        assert s[i + k + j] == w[j] && s[i + (k + j)] == t[k + j];
      }
    }
  }

  /** Past its first character, no opening reaches across an angle bracket. */
  lemma OpenIsLocal(t: string, s: string, i: nat, k: nat, side: Side)
    requires Sits(t, s, i) && AngleAt(s, i + |t|) && k < |t|
    ensures OpenEnd(s, i + k, side).Some? == OpenEnd(t, k, side).Some?
  {
    assert forall j | k <= j < |t| :: s[i + j] == t[j];
    if AtComment(t, k) { KeywordIsLocal(t, s, i, k + 4, side); }
  }

  lemma {:induction false} FindOpenAt(s: string, i: nat, j: nat, side: Side)
    requires i <= j <= |s| && OpenEnd(s, j, side).Some? && forall k: nat | i <= k < j :: OpenEnd(s, k, side).None?
    ensures FindOpen(s, i, side) == OpenEnd(s, j, side)
    decreases j - i
  {
    if i < j { FindOpenAt(s, i + 1, j, side); }
  }

  lemma {:induction false} FindCloseAt(s: string, i: nat, j: nat)
    requires i <= j && AtClose(s, j) && forall k: nat | i <= k < j :: !AtClose(s, k)
    ensures FindClose(s, i) == Some(j + 3)
    decreases j - i
  {
    if i < j { FindCloseAt(s, i + 1, j); }
  }

  /** A whole marker at position `i`: its lead, its name, and its closing. */
  ghost predicate MarkerAt(s: string, i: nat, side: Side, name: string) {
    Sits(Lead(side), s, i) && Sits(name, s, i + |Lead(side)|) && Sits(" -->", s, i + |Lead(side)| + |name|)
  }

  lemma SitsFirst(w: string, s: string, i: nat)
    requires Sits(w, s, i) && |w| >= 4
    ensures s[i] == w[0] && s[i + 1] == w[1] && s[i + 2] == w[2] && s[i + 3] == w[3] && (|w| >= 5 ==> s[i + 4] == w[4])
  {
    forall k | 0 <= k < |w| ensures s[i + k] == w[k] {}
    var zero, one, two, three, four := 0, 1, 2, 3, 4;
    assert s[i + zero] == w[zero] && s[i + one] == w[one] && s[i + two] == w[two] && s[i + three] == w[three];
    assert |w| >= 5 ==> s[i + four] == w[four];
  }

  lemma MarkerOpens(s: string, i: nat, side: Side)
    requires Sits(Lead(side), s, i)
    ensures OpenEnd(s, i, side) == Some(i + |Lead(side)|)
  {
    var w := Keyword(side);
    SitsFirst(Lead(side), s, i);
    assert Lead(side)[5] == w[0] && !IsSpace(w[0]);
    forall k | 0 <= k < |w| ensures s[i + 5 + k] == w[k] {
      assert s[i + (5 + k)] == Lead(side)[5 + k];
    }
    assert Sits(w, s, i + 5);
    assert KeywordEnd(s, i + 5, side) == Some(i + 5 + |w|);
  }

  lemma MarkerCloses(s: string, i: nat, name: string)
    requires Sits(name, s, i) && Sits(" -->", s, i + |name|) && forall k | 0 <= k < |name| :: name[k] != '>'
    ensures FindClose(s, i) == Some(i + |name| + 4)
  {
    var j := i + |name|;
    SitsFirst(" -->", s, j);
    forall k: nat | i <= k < j + 1 ensures !AtClose(s, k) {
      if k + 2 < j { assert s[i + (k + 2 - i)] == name[k + 2 - i]; }
    }
    FindCloseAt(s, i, j + 1);
  }

  ghost predicate BlockAt(s: string, i: nat, name: string, inside: string) {
    && MarkerAt(s, i, BEGIN, name)
    && Sits(inside, s, i + |Lead(BEGIN)| + |name| + 4)
    && MarkerAt(s, i + |Lead(BEGIN)| + |name| + 4 + |inside|, END, name)
  }

  lemma BlockIsFound(s: string, i: nat, name: string, inside: string)
    requires BlockAt(s, i, name, inside) && NoMarkers(inside) && forall k | 0 <= k < |name| :: name[k] != '>'
    ensures BlockEnd(s, i) == Some(i + BlockSize(|name|, |inside|)) && AngleAt(s, i)
  {
    hide Sits, FindClose, OpenEnd;
    SitsFirst(Lead(BEGIN), s, i);
    var a := i + |Lead(BEGIN)| + |name| + 4;
    var b := a + |inside|;
    MarkerOpens(s, i, BEGIN);
    MarkerCloses(s, i + |Lead(BEGIN)|, name);
    MarkerOpens(s, b, END);
    SitsFirst(Lead(END), s, b);
    forall k: nat | a <= k < b ensures OpenEnd(s, k, END).None? {
      OpenIsLocal(inside, s, a, k - a, END);
    }
    FindOpenAt(s, a, b, END);
    MarkerCloses(s, b + |Lead(END)|, name);
  }

  // ---- the mask ---------------------------------------------------------------------------------------

  function DocMask(d: Doc): (m: seq<bool>)
    ensures |m| == |Render(d)|
  {
    match d
    case Last(outside) => Repeat(false, |outside|)
    case Block(outside, name, inside, rest) =>
      Repeat(false, |outside|) + (Repeat(true, |BlockText(name, inside)|) + DocMask(rest))
  }

  /** The rendered text stands at position `i`, up to the end. */
  ghost predicate StandsAt(t: Text, s: string, i: nat) {
    i + |t| == |s| && Sits(Skeleton(t), s, i)
  }

  lemma {:induction false} OutsideIsNoBlock(t: string, s: string, i: nat, n: nat, k: nat)
    requires Sits(t, s, i) && AngleAt(s, i + |t|) && NoMarkers(t) && n <= |t|
    ensures InBlock(s, i + n, k) == (i + |t| <= k && InBlock(s, i + |t|, k))
    decreases |t| - n
  {
    hide FindClose, FindOpen;
    if n < |t| {
      OpenIsLocal(t, s, i, n, BEGIN);
      OutsideIsNoBlock(t, s, i, n + 1, k);
    }
  }

  lemma SitsSplit(a: Text, b: Text, s: string, i: nat)
    requires Sits(Skeleton(a + b), s, i)
    ensures Sits(Skeleton(a), s, i) && Sits(Skeleton(b), s, i + |a|)
  {
    forall k | 0 <= k < |a| ensures s[i + k] == Skeleton(a)[k] {
      assert s[i + k] == Skeleton(a + b)[k];
    }
    forall k | 0 <= k < |b| ensures s[i + |a| + k] == Skeleton(b)[k] {
      assert s[i + (|a| + k)] == Skeleton(a + b)[|a| + k];
    }
  }

  lemma CharsSkeleton(w: string)
    ensures Skeleton(Chars(w)) == w
  {
  }

  lemma LeadText(side: Side)
    ensures Chars("<!-- BEGIN auto-count:") == Chars(Lead(BEGIN)) && Chars("<!-- END auto-count:") == Chars(Lead(END))
  {
  }

  lemma MarkerStands(lead: string, name: Text, s: string, i: nat)
    requires Sits(Skeleton(Chars(lead) + name + Chars(" -->")), s, i)
    ensures Sits(lead, s, i) && Sits(Skeleton(name), s, i + |lead|) && Sits(" -->", s, i + |lead| + |name|)
  {
    SitsSplit(Chars(lead) + name, Chars(" -->"), s, i);
    SitsSplit(Chars(lead), name, s, i);
    CharsSkeleton(lead);
    CharsSkeleton(" -->");
  }

  lemma BlockStands(name: Text, inside: Text, s: string, i: nat)
    requires Sits(Skeleton(BlockText(name, inside)), s, i)
    ensures BlockAt(s, i, Skeleton(name), Skeleton(inside))
    ensures |BlockText(name, inside)| == |Lead(BEGIN)| + |name| + 4 + |inside| + |Lead(END)| + |name| + 4
  {
    LeadText(BEGIN);
    SitsSplit(BeginMarker(name) + inside, EndMarker(name), s, i);
    SitsSplit(BeginMarker(name), inside, s, i);
    MarkerStands(Lead(BEGIN), name, s, i);
    MarkerStands(Lead(END), name, s, i + |BeginMarker(name)| + |inside|);
  }

  function BlockSize(name: nat, inside: nat): nat {
    |Lead(BEGIN)| + name + 4 + inside + |Lead(END)| + name + 4
  }

  lemma PiecesStand(o: Text, name: Text, inside: Text, rest: Text, s: string, i: nat)
    requires StandsAt(o + (BlockText(name, inside) + rest), s, i)
    ensures Sits(Skeleton(o), s, i) && BlockAt(s, i + |o|, Skeleton(name), Skeleton(inside))
    ensures |BlockText(name, inside)| == BlockSize(|name|, |inside|)
    ensures StandsAt(rest, s, i + |o| + |BlockText(name, inside)|)
  {
    var b := BlockText(name, inside);
    SitsSplit(o, b + rest, s, i);
    SitsSplit(b, rest, s, i + |o|);
    BlockStands(name, inside, s, i + |o|);
  }

  lemma BlockFlags(s: string, i: nat, end: nat, k: nat)
    requires i < |s| && BlockEnd(s, i) == Some(end)
    ensures InBlock(s, i, k) == (i <= k && (k < end || InBlock(s, end, k)))
  {
  }

  lemma FlagsAtBlock(o: Text, name: Text, inside: Text, rest: Text, s: string, i: nat, k: nat)
    requires NoMarker(o) && PlainName(name) && NoMarker(inside)
    requires StandsAt(o + (BlockText(name, inside) + rest), s, i) && i <= k
    ensures
      var end := i + |o| + |BlockText(name, inside)|;
      StandsAt(rest, s, end) && InBlock(s, i, k) == (i + |o| <= k && (k < end || InBlock(s, end, k)))
  {
    PiecesStand(o, name, inside, rest, s, i);
    FlagsThroughBlock(Skeleton(o), Skeleton(name), Skeleton(inside), s, i, k);
  }

  lemma FlagsThroughBlock(o: string, name: string, inside: string, s: string, i: nat, k: nat)
    requires NoMarkers(o) && NoMarkers(inside) && (forall j | 0 <= j < |name| :: name[j] != '>') && i <= k
    requires Sits(o, s, i) && BlockAt(s, i + |o|, name, inside)
    ensures
      var end := i + |o| + BlockSize(|name|, |inside|);
      end <= |s| && InBlock(s, i, k) == (i + |o| <= k && (k < end || InBlock(s, end, k)))
  {
    hide NoMarkers, BlockEnd;
    BlockIsFound(s, i + |o|, name, inside);
    FlagsFrom(o, s, i, i + |o| + BlockSize(|name|, |inside|), k);
  }

  lemma FlagsFrom(o: string, s: string, i: nat, end: nat, k: nat)
    requires NoMarkers(o) && Sits(o, s, i) && AngleAt(s, i + |o|) && i + |o| < |s| && i <= k
    requires BlockEnd(s, i + |o|) == Some(end)
    ensures InBlock(s, i, k) == (i + |o| <= k && (k < end || InBlock(s, end, k)))
  {
    hide BlockEnd;
    assert InBlock(s, i, k) == (i + |o| <= k && InBlock(s, i + |o|, k)) by { OutsideIsNoBlock(o, s, i, 0, k); }
    assert InBlock(s, i + |o|, k) == (i + |o| <= k && (k < end || InBlock(s, end, k))) by { BlockFlags(s, i + |o|, end, k); }
  }

  lemma DocMaskAt(d: Doc, n: nat)
    requires d.Block? && n < |Render(d)|
    ensures
      var j, end := |d.outside|, |d.outside| + |BlockText(d.name, d.inside)|;
      && |Render(d)| == end + |Render(d.rest)|
      && DocMask(d)[n] == (j <= n && (n < end || DocMask(d.rest)[n - end]))
  {
  }

  lemma NoFlagAtTheEnd(o: Text, s: string, i: nat, k: nat)
    requires NoMarker(o) && StandsAt(o, s, i) && i <= k < |s|
    ensures !InBlock(s, i, k)
  {
    OutsideIsNoBlock(Skeleton(o), s, i, 0, k);
  }

  lemma {:induction false} BlocksOfDoc(d: Doc, s: string, i: nat, k: nat)
    requires WellFormed(d) && StandsAt(Render(d), s, i) && i <= k < |s|
    ensures InBlock(s, i, k) == DocMask(d)[k - i]
  {
    hide EndMarker;
    match d
    case Last(o) =>
      NoFlagAtTheEnd(o, s, i, k);
    case Block(o, name, inside, rest) =>
      var end := i + |o| + |BlockText(name, inside)|;
      FlagsAtBlock(o, name, inside, Render(rest), s, i, k);
      DocMaskAt(d, k - i);
      if end <= k { BlocksOfDoc(rest, s, end, k); }
  }

  lemma StandsAlone(t: Text)
    ensures StandsAt(t, Skeleton(t), 0)
  {
  }

  lemma FlagOfDoc(d: Doc, k: nat)
    requires WellFormed(d) && k < |Render(d)|
    ensures InBlock(Skeleton(Render(d)), 0, k) == DocMask(d)[k]
  {
    StandsAlone(Render(d));
    BlocksOfDoc(d, Skeleton(Render(d)), 0, k);
  }

  lemma MaskOfDoc(d: Doc)
    requires WellFormed(d)
    ensures Mask(Render(d)) == DocMask(d)
  {
    forall k | 0 <= k < |Render(d)| ensures Mask(Render(d))[k] == DocMask(d)[k] {
      FlagOfDoc(d, k);
    }
  }
}
