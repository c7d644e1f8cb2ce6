/**
 The two count rewriters on the strings they are run on: each settles, a dry run is clean exactly if
 the entries agree, and on a text with well-formed markers they leave each other's part alone, commute
 and settle together.
 */
module RewriterStrings {
  import opened MarkerText
  import opened MarkerTokens
  import opened MarkerStrings
  import opened MarkerMatching
  import opened MarkerRefinement
  import opened MarkerReplacement
  import opened MarkerDocs
  import opened MarkerScan
  import opened Wrappers
  import SurfaceSync
  import RewriterTheorems

  // ---- the free-form rewriter ---------------------------------------------------------------------------

  lemma ApplyRefines(t: Text, e: Entry)
    requires Canonical(t) && (e.active ==> Regular(e.pattern))
    ensures ApplyString(Flatten(t), e) == Flatten(Apply(t, e)) && Canonical(Apply(t, e))
    ensures e.active ==> (HitsFrom(Flatten(t), 0, e.pattern) == [] <==> Apply(t, e) == t)
  {
    ApplyStaysCanonical(t, e);
    if e.active {
      assert t[0..] == t && Mask(t)[0..] == Mask(t);
      RewriteRefines(Flatten(t), t, 0, e.pattern);
    }
  }

  /** The string rewriter is the token rewriter, on every text that a string is cut into. */
  lemma {:induction false} SyncRefines(t: Text, entries: seq<Entry>)
    requires Canonical(t) && RegularEntries(entries)
    ensures SyncString(Flatten(t), entries) == Flatten(Sync(t, entries)) && Canonical(Sync(t, entries))
    decreases |entries|
  {
    if entries != [] {
      var init, last := entries[..|entries| - 1], entries[|entries| - 1];
      SyncRefines(t, init);
      ApplyRefines(Sync(t, init), last);
    }
  }

  /** One run settles every string: a second run changes nothing. */
  lemma SyncSettles(s: string, entries: seq<Entry>)
    requires RegularEntries(entries)
    ensures SyncString(SyncString(s, entries), entries) == SyncString(s, entries)
  {
    var t := Tokens(s);
    FlattenOfTokens(s);
    SyncRefines(t, entries);
    SyncRefines(Sync(t, entries), entries);
    SurfaceSync.SyncSettles(t, entries);
  }

  ghost predicate Clean(s: string, entries: seq<Entry>) {
    forall e | e in entries :: ApplyString(s, e) == s
  }

  lemma {:induction false} CleanIsFixed(s: string, entries: seq<Entry>)
    requires Clean(s, entries)
    ensures SyncString(s, entries) == s
    decreases |entries|
  {
    if entries != [] {
      CleanIsFixed(s, entries[..|entries| - 1]);
      assert entries[|entries| - 1] in entries;
    }
  }

  lemma NoHitsNoChange(s: string, e: Entry)
    requires e.active && Regular(e.pattern)
    ensures HitsFrom(s, 0, e.pattern) == [] <==> ApplyString(s, e) == s
  {
    var t := Tokens(s);
    FlattenOfTokens(s);
    ApplyRefines(t, e);
    SameStringSameText(Apply(t, e), t);
  }

  /** Nothing is reported exactly if no entry would change the string. */
  lemma {:induction false} HitsMeanChange(s: string, entries: seq<Entry>)
    requires RegularEntries(entries)
    ensures Hits(s, entries) == [] <==> Clean(s, entries)
    decreases |entries|
  {
    if entries != [] {
      var init, last := entries[..|entries| - 1], entries[|entries| - 1];
      assert entries == init + [last];
      HitsMeanChange(s, init);
      if Clean(s, init) {
        CleanIsFixed(s, init);
        if last.active { NoHitsNoChange(s, last); }
      }
    }
  }

  /** A dry run after a write reports nothing exactly if no two entries write different numbers at one place. */
  lemma DryRunIsCleanExactlyWhen(s: string, entries: seq<Entry>)
    requires RegularEntries(entries)
    ensures Hits(SyncString(s, entries), entries) == [] <==> SurfaceSync.Agree(Tokens(s), entries)
  {
    var t := Tokens(s);
    var once := Sync(t, entries);
    FlattenOfTokens(s);
    SyncRefines(t, entries);
    HitsMeanChange(SyncString(s, entries), entries);
    forall e | e in entries ensures ApplyString(Flatten(once), e) == Flatten(once) <==> Apply(once, e) == once {
      ApplyRefines(once, e);
      SameStringSameText(Apply(once, e), once);
    }
    SurfaceSync.DryRunIsCleanExactlyWhen(t, entries);
  }

  /** An entry that writes more than a number need not settle: `\d+x` to `1xx` adds an `x` in every run. */
  lemma NumbersMustStayNumbers()
    ensures
      var e := Entry(Pattern(false, [Put("1x"), Lit('x')], false), true);
      SyncString("1x", [e]) == "1xx" && SyncString("1xx", [e]) == "1xxx"
  {
    var p := Pattern(false, [Put("1x"), Lit('x')], false);
    GrowsByOne("1x", p);
    GrowsByOne("1xx", p);
    assert RewriteFrom("1x", 2, p) == "" && RewriteFrom("1xx", 2, p) == "x" by { NoDigitNoMatch("1xx", 2, p); }
    assert [Entry(p, true)][..0] == [];
  }

  lemma GrowsByOne(s: string, p: Pattern)
    requires p == Pattern(false, [Put("1x"), Lit('x')], false) && |s| >= 2 && s[0] == '1' && s[1] == 'x'
    ensures RewriteFrom(s, 0, p) == "1xx" + RewriteFrom(s, 2, p)
  {
    assert RunEnd(s, 0) == 1;
    assert ['x'] + "" == "x" && "1x" + "x" == "1xx";
    assert MatchItems(s, 2, p, 2) == Some(Match(2, ""));
    assert MatchItems(s, 1, p, 1) == Some(Match(2, "x"));
    assert MatchDigits(s, 0, 1, p, 0) == Some(Match(2, "1xx"));
    assert !InBlock(s, 0, 0);
  }

  lemma NoDigitNoMatch(s: string, i: nat, p: Pattern)
    requires p == Pattern(false, [Put("1x"), Lit('x')], false) && i + 1 == |s| && !IsDigit(s[i])
    ensures RewriteFrom(s, i, p) == [s[i]]
  {
    assert RunEnd(s, i) == i;
    assert RewriteFrom(s, i + 1, p) == "";
  }

  // ---- strings with well-formed markers -------------------------------------------------------------------

  /** A string cut at its marker blocks. */
  datatype Page =
    | Tail(outside: string)
    | Cut(outside: string, name: string, inside: string, rest: Page)

  function PageText(d: Page): string {
    match d
    case Tail(outside) => outside
    case Cut(outside, name, inside, rest) =>
      outside + (BeginString(name) + inside + EndString(name) + PageText(rest))
  }

  predicate NoAngles(name: string) {
    forall k | 0 <= k < |name| :: name[k] != '<' && name[k] != '>'
  }

  /** No marker opens outside the blocks or inside one, and names have no angle brackets. */
  ghost predicate WellMarked(d: Page) {
    && NoMarkers(d.outside)
    && (d.Cut? ==> NoAngles(d.name) && NoMarkers(d.inside) && WellMarked(d.rest))
  }

  /** The same page in tokens. */
  function DocOf(d: Page): Doc {
    match d
    case Tail(outside) => Last(Tokens(outside))
    case Cut(outside, name, inside, rest) => Block(Tokens(outside), Tokens(name), Tokens(inside), DocOf(rest))
  }

  lemma NoMarkerInTokens(s: string)
    requires NoMarkers(s)
    ensures NoMarker(Tokens(s))
  {
    var t := Tokens(s);
    FlattenOfTokens(s);
    FlattenSpells(t);
    forall k: nat, side: Side | k < |t| ensures OpenEnd(Skeleton(t), k, side).None? {
      OffInside(s, t, k);
      OpenScans(s, t, k, side);
    }
  }

  lemma PlainTokens(name: string)
    requires NoAngles(name)
    ensures PlainName(Tokens(name))
  {
    var t := Tokens(name);
    FlattenOfTokens(name);
    FlattenSpells(t);
    forall k | 0 <= k < |t| ensures t[k] != Ch('<') && t[k] != Ch('>') {
      if t[k].Ch? { CharAt(name, t, k); }
    }
  }

  lemma BlockSpelled(name: string, inside: string)
    ensures Bounded(BlockText(Tokens(name), Tokens(inside)))
    ensures Flatten(BlockText(Tokens(name), Tokens(inside))) == BeginString(name) + inside + EndString(name)
  {
    var begin, end := BeginMarker(Tokens(name)), EndMarker(Tokens(name));
    BeginSpelled(name);
    EndSpelled(name);
    FlattenOfTokens(inside);
    CanonicalAppend(begin, Tokens(inside));
    CanonicalAppend(begin + Tokens(inside), end);
    FlattenAppend(begin, Tokens(inside));
    FlattenAppend(begin + Tokens(inside), end);
  }

  lemma {:induction false} PageInTokens(d: Page)
    requires WellMarked(d)
    ensures Canonical(Render(DocOf(d))) && Flatten(Render(DocOf(d))) == PageText(d) && WellFormed(DocOf(d))
  {
    FlattenOfTokens(d.outside);
    NoMarkerInTokens(d.outside);
    if d.Cut? {
      var block, rest := BlockText(Tokens(d.name), Tokens(d.inside)), Render(DocOf(d.rest));
      PageInTokens(d.rest);
      BlockSpelled(d.name, d.inside);
      PlainTokens(d.name);
      NoMarkerInTokens(d.inside);
      CanonicalAppend(block, rest);
      CanonicalAppend(Tokens(d.outside), block + rest);
      FlattenAppend(block, rest);
      FlattenAppend(Tokens(d.outside), block + rest);
    }
  }

  /** Names without angle brackets, and bodies in which no marker opens. */
  ghost predicate WritableBodies(blocks: seq<Body>) {
    forall b | b in blocks :: NoAngles(b.name) && NoMarkers("\n" + b.text + "\n")
  }

  lemma FramedTokens(text: string)
    ensures Framed(Tokens(text)) == Tokens("\n" + text + "\n")
  {
    FlattenOfTokens(text);
    FramedSpelled(Tokens(text));
    TokensOfFlatten(Framed(Tokens(text)));
  }

  lemma WritableTokens(blocks: seq<Body>)
    requires WritableBodies(blocks)
    ensures RewriterTheorems.Writable(TokenBlocks(blocks))
  {
    forall b | b in TokenBlocks(blocks) ensures PlainName(b.name) && NoMarker(Framed(b.body)) {
      var k :| 0 <= k < |blocks| && TokenBlocks(blocks)[k] == b;
      assert blocks[k] in blocks;
      PlainTokens(blocks[k].name);
      FramedTokens(blocks[k].text);
      NoMarkerInTokens("\n" + blocks[k].text + "\n");
    }
  }

  /** Keys of a Python dict. */
  predicate DistinctBodies(blocks: seq<Body>) {
    forall i, j | 0 <= i < j < |blocks| :: blocks[i].name != blocks[j].name
  }

  lemma DistinctTokens(blocks: seq<Body>)
    requires DistinctBodies(blocks)
    ensures RewriterTheorems.Distinct(TokenBlocks(blocks))
  {
    forall i, j | 0 <= i < j < |blocks| ensures TokenBlocks(blocks)[i].name != TokenBlocks(blocks)[j].name {
      FlattenOfTokens(blocks[i].name);
      FlattenOfTokens(blocks[j].name);
    }
  }

  // ---- both rewriters --------------------------------------------------------------------------------------

  lemma BothRefine(t: Text, entries: seq<Entry>, blocks: seq<Body>)
    requires Canonical(t) && RegularEntries(entries)
    ensures SyncString(BuildString(Flatten(t), blocks), entries) == Flatten(Sync(Build(t, TokenBlocks(blocks)), entries))
    ensures BuildString(SyncString(Flatten(t), entries), blocks) == Flatten(Build(Sync(t, entries), TokenBlocks(blocks)))
    ensures Canonical(Sync(Build(t, TokenBlocks(blocks)), entries))
  {
    BuildRefines(t, blocks);
    SyncRefines(Build(t, TokenBlocks(blocks)), entries);
    SyncRefines(t, entries);
    BuildRefines(Sync(t, entries), blocks);
  }

  /** A text in tokens as a page. */
  function PageOf(d: Doc): Page {
    match d
    case Last(outside) => Tail(Flatten(outside))
    case Block(outside, name, inside, rest) => Cut(Flatten(outside), Flatten(name), Flatten(inside), PageOf(rest))
  }

  lemma BlockFlattened(name: Text, inside: Text)
    ensures Flatten(BlockText(name, inside)) == BeginString(Flatten(name)) + Flatten(inside) + EndString(Flatten(name))
  {
    FlattenAppend(BeginMarker(name) + inside, EndMarker(name));
    FlattenAppend(BeginMarker(name), inside);
    MarkerFlattened("<!-- BEGIN auto-count:", name);
    MarkerFlattened("<!-- END auto-count:", name);
  }

  lemma MarkerFlattened(lead: string, name: Text)
    ensures Flatten(Chars(lead) + name + Chars(" -->")) == lead + Flatten(name) + " -->"
  {
    FlattenAppend(Chars(lead) + name, Chars(" -->"));
    FlattenAppend(Chars(lead), name);
    FlattenChars(lead);
    FlattenChars(" -->");
  }

  lemma {:induction false} DocAsPage(d: Doc)
    ensures Flatten(Render(d)) == PageText(PageOf(d))
  {
    if d.Block? {
      DocAsPage(d.rest);
      BlockFlattened(d.name, d.inside);
      FlattenAppend(BlockText(d.name, d.inside), Render(d.rest));
      FlattenAppend(d.outside, BlockText(d.name, d.inside) + Render(d.rest));
    }
  }

  /** The blocks of two pages agree byte for byte. */
  predicate SameBlocks(a: Page, b: Page) {
    a.Cut? == b.Cut? && (a.Cut? ==> a.name == b.name && a.inside == b.inside && SameBlocks(a.rest, b.rest))
  }

  /** Everything outside the blocks agrees byte for byte, and so do the blocks' names. */
  predicate SameOutside(a: Page, b: Page) {
    && a.outside == b.outside && a.Cut? == b.Cut?
    && (a.Cut? ==> a.name == b.name && SameOutside(a.rest, b.rest))
  }

  lemma {:induction false} SameBlocksInText(d: Page, e: Doc)
    requires RewriterTheorems.SameBlocks(DocOf(d), e)
    ensures SameBlocks(d, PageOf(e))
  {
    if d.Cut? {
      FlattenOfTokens(d.name);
      FlattenOfTokens(d.inside);
      SameBlocksInText(d.rest, e.rest);
    }
  }

  lemma {:induction false} SameOutsideInText(d: Page, e: Doc)
    requires RewriterTheorems.SameOutside(DocOf(d), e)
    ensures SameOutside(d, PageOf(e))
  {
    FlattenOfTokens(d.outside);
    if d.Cut? {
      FlattenOfTokens(d.name);
      SameOutsideInText(d.rest, e.rest);
    }
  }

  /** The free-form rewriter leaves every block of the string as it is. */
  lemma SyncLeavesBlocks(d: Page, entries: seq<Entry>) returns (after: Page)
    requires WellMarked(d) && RegularEntries(entries) && RewriterTheorems.AllPlain(entries)
    ensures SyncString(PageText(d), entries) == PageText(after) && SameBlocks(d, after)
  {
    PageInTokens(d);
    SyncRefines(Render(DocOf(d)), entries);
    RewriterTheorems.SyncLeavesBlocks(DocOf(d), entries);
    var e := RewriterTheorems.SyncOutside(DocOf(d), entries);
    DocAsPage(e);
    SameBlocksInText(d, e);
    after := PageOf(e);
  }

  /** The block rewriter leaves everything outside the blocks of the string as it is. */
  lemma BuildLeavesOutside(d: Page, blocks: seq<Body>) returns (after: Page)
    requires WellMarked(d) && WritableBodies(blocks)
    ensures BuildString(PageText(d), blocks) == PageText(after) && SameOutside(d, after)
  {
    PageInTokens(d);
    WritableTokens(blocks);
    BuildRefines(Render(DocOf(d)), blocks);
    RewriterTheorems.BuildLeavesOutside(DocOf(d), TokenBlocks(blocks));
    var e := RewriterTheorems.SetBlocks(DocOf(d), TokenBlocks(blocks));
    DocAsPage(e);
    SameOutsideInText(d, e);
    after := PageOf(e);
  }

  predicate HasCut(d: Page, name: string) {
    d.Cut? && (d.name == name || HasCut(d.rest, name))
  }

  predicate Asked(blocks: seq<Body>, name: string) {
    exists b | b in blocks :: b.name == name
  }

  /** The names, in order, of the blocks that the page has no place for. */
  function Absent(d: Page, blocks: seq<Body>): seq<string> {
    if blocks == [] then []
    else
      var last := blocks[|blocks| - 1];
      Absent(d, blocks[..|blocks| - 1]) + if HasCut(d, last.name) then [] else [last.name]
  }

  lemma {:induction false} CutsInTokens(d: Page, e: Doc, name: string)
    requires RewriterTheorems.SameOutside(DocOf(d), e)
    ensures RewriterTheorems.HasBlock(e, Tokens(name)) <==> HasCut(d, name)
  {
    if d.Cut? {
      FlattenOfTokens(d.name);
      FlattenOfTokens(name);
      CutsInTokens(d.rest, e.rest, name);
    }
  }

  /** Whether a block is found depends only on the page as it was before all replacements. */
  lemma FoundMeans(d: Page, blocks: seq<Body>, last: Body)
    requires WellMarked(d) && WritableBodies(blocks) && NoAngles(last.name)
    ensures ReplaceBlockString(BuildString(PageText(d), blocks), last).1 <==> HasCut(d, last.name)
  {
    var e := RewriterTheorems.SetBlocks(DocOf(d), TokenBlocks(blocks));
    PageInTokens(d);
    WritableTokens(blocks);
    BuildRefines(Render(DocOf(d)), blocks);
    RewriterTheorems.BuildLeavesOutside(DocOf(d), TokenBlocks(blocks));
    ReplaceBlockRefines(Render(e), last);
    PlainTokens(last.name);
    RewriterTheorems.ReplaceOfDoc(e, Tokens(last.name), Tokens(last.text));
    CutsInTokens(d, e, last.name);
  }

  /** Reported as not found are exactly the blocks that the page has no markers for, in order. */
  lemma {:induction false} NotFoundIsAbsent(d: Page, blocks: seq<Body>)
    requires WellMarked(d) && WritableBodies(blocks)
    ensures NotFound(PageText(d), blocks) == Absent(d, blocks)
    ensures forall name :: name in NotFound(PageText(d), blocks) <==>
              Asked(blocks, name) && !HasCut(d, name)
    decreases |blocks|
  {
    if blocks != [] {
      var init, last := blocks[..|blocks| - 1], blocks[|blocks| - 1];
      assert last in blocks && blocks == init + [last];
      NotFoundIsAbsent(d, init);
      FoundMeans(d, init, last);
      AbsentOneMore(d, init, last);
    }
  }

  lemma AbsentOneMore(d: Page, init: seq<Body>, last: Body)
    requires forall name :: name in Absent(d, init) <==> Asked(init, name) && !HasCut(d, name)
    ensures Absent(d, init + [last]) == Absent(d, init) + if HasCut(d, last.name) then [] else [last.name]
    ensures forall name :: name in Absent(d, init + [last]) <==>
              Asked(init + [last], name) && !HasCut(d, name)
  {
    var all := init + [last];
    assert all[..|init|] == init && last in all;
    forall name ensures Asked(all, name) <==> Asked(init, name) || name == last.name {
      if Asked(init, name) {
        var b :| b in init && b.name == name;
        assert b in all;
      }
    }
  }

  /** Either order of the two scripts gives one string. */
  lemma RewritersCommute(d: Page, entries: seq<Entry>, blocks: seq<Body>)
    requires WellMarked(d) && RegularEntries(entries) && RewriterTheorems.AllPlain(entries) && WritableBodies(blocks)
    ensures SyncString(BuildString(PageText(d), blocks), entries) == BuildString(SyncString(PageText(d), entries), blocks)
  {
    PageInTokens(d);
    WritableTokens(blocks);
    BothRefine(Render(DocOf(d)), entries, blocks);
    RewriterTheorems.RewritersCommute(DocOf(d), entries, TokenBlocks(blocks));
  }

  /** After both scripts have run, neither changes a character: they never fight. */
  lemma RewritersSettle(d: Page, entries: seq<Entry>, blocks: seq<Body>)
    requires WellMarked(d) && RegularEntries(entries) && RewriterTheorems.AllPlain(entries)
    requires WritableBodies(blocks) && DistinctBodies(blocks)
    ensures
      var settled := SyncString(BuildString(PageText(d), blocks), entries);
      BuildString(settled, blocks) == settled && SyncString(settled, entries) == settled
  {
    var t := Sync(Build(Render(DocOf(d)), TokenBlocks(blocks)), entries);
    PageInTokens(d);
    WritableTokens(blocks);
    DistinctTokens(blocks);
    BothRefine(Render(DocOf(d)), entries, blocks);
    BuildRefines(t, blocks);
    SyncRefines(t, entries);
    RewriterTheorems.RewritersSettle(DocOf(d), entries, TokenBlocks(blocks));
  }
}
