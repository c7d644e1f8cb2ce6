/**
 The two count rewriters on strings, as they run: the pattern matcher tries the longest run of digits
 first and backtracks to shorter ones, and a block is what stands between two literal markers.
 */
module MarkerStrings {
  import opened MarkerText
  import opened MarkerTokens
  import opened Wrappers

  // ---- matching one pattern at one position ------------------------------------------------------------

  predicate WordChar(c: char) {
    IsDigit(c) || c == '_' || 'a' <= c <= 'z' || 'A' <= c <= 'Z'
  }

  /** A word boundary. */
  predicate Boundary(s: string, i: nat)
    requires i <= |s|
  {
    (i > 0 && WordChar(s[i - 1])) != (i < |s| && WordChar(s[i]))
  }

  /** Where a match ends, and what the replacement expands to. */
  datatype Match = Match(end: nat, text: string)

  function Behind(piece: string, m: Option<Match>): Option<Match> {
    match m
    case Some(Match(end, text)) => Some(Match(end, piece + text))
    case None => None
  }

  /** A number in the expanded replacement: the captured one, or the one to write. */
  function Expanded(item: Item, digits: string): string {
    if item.Put? then item.digits else digits
  }

  /** The items from `j` on at position `i`. */
  function MatchItems(s: string, i: nat, p: Pattern, j: nat): (r: Option<Match>)
    requires i <= |s| && j <= |p.items|
    ensures r.Some? ==> i + (|p.items| - j) <= r.value.end <= |s|
    decreases |p.items| - j, |s| + 1
  {
    if j == |p.items| then
      if p.rightEdge && !Boundary(s, i) then None else Some(Match(i, ""))
    else match p.items[j]
      case Lit(c) => if i < |s| && s[i] == c then Behind([c], MatchItems(s, i + 1, p, j + 1)) else None
      case _ => MatchDigits(s, i, RunEnd(s, i), p, j)
  }

  /** A number that ends at `end`, or, if the rest does not match there, earlier. */
  function MatchDigits(s: string, i: nat, end: nat, p: Pattern, j: nat): (r: Option<Match>)
    requires i <= end <= |s| && j < |p.items| && !p.items[j].Lit?
    ensures r.Some? ==> i + (|p.items| - j) <= r.value.end <= |s|
    decreases |p.items| - j, end - i
  {
    if end == i then None
    else match Behind(Expanded(p.items[j], s[i..end]), MatchItems(s, end, p, j + 1))
      case Some(m) => Some(m)
      case None => MatchDigits(s, i, end - 1, p, j)
  }

  function MatchString(s: string, i: nat, p: Pattern): (r: Option<Match>)
    requires i <= |s|
    ensures r.Some? ==> i < r.value.end <= |s|
  {
    if p.items == [] || (p.leftEdge && !Boundary(s, i)) then None else MatchItems(s, i, p, 0)
  }

  // ---- the free-form rewriter ---------------------------------------------------------------------------

  /** Where the scan goes on: behind a match, or one character further. */
  function Next(s: string, i: nat, p: Pattern): (n: nat)
    requires i < |s|
    ensures i < n <= |s|
  {
    match MatchString(s, i, p)
    case Some(m) => m.end
    case None => i + 1
  }

  /** What the scan puts there: a match that does not start in a marker block is rewritten. */
  function Piece(s: string, i: nat, p: Pattern): string
    requires i < |s|
  {
    match MatchString(s, i, p)
    case Some(m) => if InBlock(s, 0, i) then s[i..m.end] else m.text
    case None => [s[i]]
  }

  /** One pattern from position `i` on. */
  function RewriteFrom(s: string, i: nat, p: Pattern): string
    requires i <= |s|
    decreases |s| - i
  {
    if i == |s| then "" else Piece(s, i, p) + RewriteFrom(s, Next(s, i, p), p)
  }

  function Reported(s: string, i: nat, p: Pattern): seq<(string, string)>
    requires i < |s|
  {
    if Piece(s, i, p) == s[i..Next(s, i, p)] then [] else [(s[i..Next(s, i, p)], Piece(s, i, p))]
  }

  /** What is reported: the matches outside marker blocks that change, before and after. */
  function HitsFrom(s: string, i: nat, p: Pattern): seq<(string, string)>
    requires i <= |s|
    decreases |s| - i
  {
    if i == |s| then [] else Reported(s, i, p) + HitsFrom(s, Next(s, i, p), p)
  }

  function ApplyString(s: string, e: Entry): string {
    if e.active then RewriteFrom(s, 0, e.pattern) else s
  }

  /** `_apply_marker_aware`: the text after all entries, one after the other. */
  function SyncString(s: string, entries: seq<Entry>): string {
    if entries == [] then s
    else ApplyString(SyncString(s, entries[..|entries| - 1]), entries[|entries| - 1])
  }

  function Hits(s: string, entries: seq<Entry>): seq<(string, string)> {
    if entries == [] then []
    else
      var init, last := entries[..|entries| - 1], entries[|entries| - 1];
      Hits(s, init) + if last.active then HitsFrom(SyncString(s, init), 0, last.pattern) else []
  }

  // ---- the block rewriter -------------------------------------------------------------------------------

  datatype Body = Body(name: string, text: string)

  function BeginString(name: string): string { "<!-- BEGIN auto-count:" + name + " -->" }
  function EndString(name: string): string { "<!-- END auto-count:" + name + " -->" }

  /** `_replace_block`. */
  function ReplaceBlockString(s: string, b: Body): (string, bool) {
    Refilled(s, Enclosed(s, 0, BeginString(b.name), EndString(b.name)), "\n" + b.text + "\n")
  }

  /** The loop of `_apply_markdown`: the text after all blocks ... */
  function BuildString(s: string, blocks: seq<Body>): string {
    if blocks == [] then s
    else ReplaceBlockString(BuildString(s, blocks[..|blocks| - 1]), blocks[|blocks| - 1]).0
  }

  /** ... and the names of those that were not found. */
  function NotFound(s: string, blocks: seq<Body>): seq<string> {
    if blocks == [] then []
    else
      var init, last := blocks[..|blocks| - 1], blocks[|blocks| - 1];
      NotFound(s, init) + if ReplaceBlockString(BuildString(s, init), last).1 then [] else [last.name]
  }

  // ---- the loops ------------------------------------------------------------------------------------------

  lemma Glue<T>(a: seq<T>, kept: seq<T>, piece: seq<T>, rest: seq<T>)
    ensures a + kept + (piece + rest) == a + (kept + piece) + rest
    ensures a + kept + (piece + rest) == a + kept + piece + [] + rest
  {
  }

  /** What the loop has put together before position `i`, in front of what is left to do. */
  ghost function Done(out: string, s: string, last: nat, i: nat, p: Pattern): string
    requires last <= i <= |s|
  {
    out + s[last..i] + RewriteFrom(s, i, p)
  }

  lemma CopyStep(out: string, s: string, last: nat, i: nat, p: Pattern)
    requires last <= i < |s| && Piece(s, i, p) == s[i..Next(s, i, p)]
    ensures Done(out, s, last, i, p) == Done(out, s, last, Next(s, i, p), p)
  {
    var next := Next(s, i, p);
    Glue(out, s[last..i], s[i..next], RewriteFrom(s, next, p));
    assert s[last..i] + s[i..next] == s[last..next];
  }

  lemma WriteStep(out: string, s: string, last: nat, i: nat, p: Pattern)
    requires last <= i < |s|
    ensures
      var next := Next(s, i, p);
      Done(out, s, last, i, p) == Done(out + s[last..i] + Piece(s, i, p), s, next, next, p)
  {
    var next := Next(s, i, p);
    Glue(out, s[last..i], Piece(s, i, p), RewriteFrom(s, next, p));
    assert s[next..next] == [];
  }

  lemma FirstAndLast(out: string, s: string, last: nat, p: Pattern)
    requires last <= |s|
    ensures Done("", s, 0, 0, p) == RewriteFrom(s, 0, p) && Done(out, s, last, |s|, p) == out + s[last..]
  {
    assert s[0..0] == "" && s[last..|s|] == s[last..];
  }

  ghost function Told(hits: seq<(string, string)>, s: string, i: nat, p: Pattern): seq<(string, string)>
    requires i <= |s|
  {
    hits + HitsFrom(s, i, p)
  }

  lemma NoHit(hits: seq<(string, string)>, s: string, i: nat, p: Pattern)
    requires i < |s| && Piece(s, i, p) == s[i..Next(s, i, p)]
    ensures Told(hits, s, i, p) == Told(hits, s, Next(s, i, p), p)
  {
    assert [] + HitsFrom(s, Next(s, i, p), p) == HitsFrom(s, Next(s, i, p), p);
  }

  lemma OneHit(hits: seq<(string, string)>, s: string, i: nat, p: Pattern)
    requires i < |s| && Piece(s, i, p) != s[i..Next(s, i, p)]
    ensures
      var next := Next(s, i, p);
      Told(hits, s, i, p) == Told(hits + [(s[i..next], Piece(s, i, p))], s, next, p)
  {
  }

  lemma ToldInTheEnd(hits: seq<(string, string)>, s: string, p: Pattern)
    ensures Told([], s, 0, p) == HitsFrom(s, 0, p) && Told(hits, s, |s|, p) == hits
  {
  }

  /** What the loop has written and reported before position `i`. */
  ghost predicate Progress(s: string, p: Pattern, out: string, last: nat, i: nat, hits: seq<(string, string)>) {
    && last <= i <= |s|
    && RewriteFrom(s, 0, p) == Done(out, s, last, i, p)
    && HitsFrom(s, 0, p) == Told(hits, s, i, p)
  }

  lemma Started(s: string, p: Pattern)
    ensures Progress(s, p, "", 0, 0, [])
  {
    FirstAndLast("", s, 0, p);
    ToldInTheEnd([], s, p);
  }

  lemma Copied(s: string, p: Pattern, out: string, last: nat, i: nat, hits: seq<(string, string)>)
    requires Progress(s, p, out, last, i, hits) && i < |s| && Piece(s, i, p) == s[i..Next(s, i, p)]
    ensures Progress(s, p, out, last, Next(s, i, p), hits)
  {
    CopyStep(out, s, last, i, p);
    NoHit(hits, s, i, p);
  }

  lemma Replaced(s: string, p: Pattern, out: string, last: nat, i: nat, hits: seq<(string, string)>)
    requires Progress(s, p, out, last, i, hits) && i < |s|
    ensures
      var next, piece := Next(s, i, p), Piece(s, i, p);
      Progress(s, p, out + s[last..i] + piece, next, next,
               if piece == s[i..next] then hits else hits + [(s[i..next], piece)])
  {
    WriteStep(out, s, last, i, p);
    if Piece(s, i, p) == s[i..Next(s, i, p)] { NoHit(hits, s, i, p); } else { OneHit(hits, s, i, p); }
  }

  lemma Ended(s: string, p: Pattern, out: string, last: nat, hits: seq<(string, string)>)
    requires Progress(s, p, out, last, |s|, hits)
    ensures out + s[last..] == RewriteFrom(s, 0, p) && hits == HitsFrom(s, 0, p)
  {
    FirstAndLast(out, s, last, p);
    ToldInTheEnd(hits, s, p);
  }

  lemma StepIs(s: string, i: nat, p: Pattern)
    requires i < |s|
    ensures MatchString(s, i, p).None? ==> Next(s, i, p) == i + 1 && Piece(s, i, p) == s[i..i + 1]
    ensures MatchString(s, i, p).Some? ==>
              && Next(s, i, p) == MatchString(s, i, p).value.end
              && Piece(s, i, p) == if InBlock(s, 0, i) then s[i..Next(s, i, p)] else MatchString(s, i, p).value.text
  {
  }

  /** One pattern over the whole text, as the loop over its matches. */
  method RewriteMatches(s: string, p: Pattern) returns (r: string, hits: seq<(string, string)>)
    ensures r == RewriteFrom(s, 0, p)
    ensures hits == HitsFrom(s, 0, p)
  {
    var out := "";
    hits := [];
    var last: nat, i: nat := 0, 0;
    Started(s, p);
    while i < |s|
      invariant Progress(s, p, out, last, i, hits)
    {
      var m := MatchString(s, i, p);
      StepIs(s, i, p);
      if m.None? {
        Copied(s, p, out, last, i, hits);
        i := i + 1;
      } else {
        var found, replaced := s[i..m.value.end], m.value.text;
        if InBlock(s, 0, i) {
          Copied(s, p, out, last, i, hits);
        } else {
          Replaced(s, p, out, last, i, hits);
          out := out + s[last..i] + replaced;
          last := m.value.end;
          if replaced != found {
            hits := hits + [(found, replaced)];
          }
        }
        i := m.value.end;
      }
    }
    Ended(s, p, out, last, hits);
    r := out + s[last..];
  }

  /** `_apply_marker_aware`. */
  method ApplyMarkerAware(text: string, entries: seq<Entry>) returns (r: string, hits: seq<(string, string)>)
    ensures r == SyncString(text, entries)
    ensures hits == Hits(text, entries)
  {
    r, hits := text, [];
    for j := 0 to |entries|
      invariant r == SyncString(text, entries[..j])
      invariant hits == Hits(text, entries[..j])
    {
      assert entries[..j + 1][..j] == entries[..j];
      if entries[j].active {
        var more: seq<(string, string)>;
        r, more := RewriteMatches(r, entries[j].pattern);
        hits := hits + more;
      }
    }
    assert entries[..|entries|] == entries;
  }

  /** The loop of `_apply_markdown`. */
  method ApplyMarkdown(text: string, blocks: seq<Body>) returns (r: string, missing: seq<string>)
    ensures r == BuildString(text, blocks)
    ensures missing == NotFound(text, blocks)
  {
    r, missing := text, [];
    for j := 0 to |blocks|
      invariant r == BuildString(text, blocks[..j]) && missing == NotFound(text, blocks[..j])
    {
      assert blocks[..j + 1][..j] == blocks[..j];
      var replaced := ReplaceBlockString(r, blocks[j]);
      r := replaced.0;
      if !replaced.1 {
        missing := missing + [blocks[j].name];
      }
    }
    assert blocks[..|blocks|] == blocks;
  }
}
