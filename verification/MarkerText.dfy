/**
 Text in tokens, the auto-count markers, the patterns of the free-form rewriter, and both rewriters on
 tokens. A digit run is one token, because a pattern reads whole runs of digits and writes numbers only
 for numbers; what the scripts do to strings is in `MarkerStrings`.
 */
module MarkerText {
  import opened Search
  import opened Strings
  import opened Wrappers

  datatype Token = Ch(c: char) | Num(digits: string)

  type Text = seq<Token>

  function Chars(s: string): (t: Text)
    ensures |t| == |s| && forall i | 0 <= i < |s| :: t[i] == Ch(s[i])
  {
    seq(|s|, i requires 0 <= i < |s| => Ch(s[i]))
  }

  predicate IsDigit(c: char) {
    '0' <= c <= '9'
  }

  predicate Decimal(digits: string) {
    digits != "" && forall k | 0 <= k < |digits| :: IsDigit(digits[k])
  }

  // ---- the marker blocks ----------------------------------------------------------------------------

  /** The text without its numbers; no marker pattern looks at digits. */
  function Skeleton(t: Text): (s: string)
    ensures |s| == |t| && forall i | 0 <= i < |t| :: s[i] == if t[i].Ch? then t[i].c else '0'
  {
    seq(|t|, i requires 0 <= i < |t| => if t[i].Ch? then t[i].c else '0')
  }

  datatype Side = BEGIN | END

  function Keyword(side: Side): string {
    match side
    case BEGIN => "BEGIN auto-count:"
    case END => "END auto-count:"
  }

  /** The end of any white space and this keyword at position `i`. */
  function KeywordEnd(s: string, i: nat, side: Side): (r: Option<nat>)
    ensures r.Some? ==> i < r.value <= |s|
    decreases |s| - i
  {
    if i < |s| && IsSpace(s[i]) then KeywordEnd(s, i + 1, side)
    else if Sits(Keyword(side), s, i) then Some(i + |Keyword(side)|)
    else None
  }

  predicate AtComment(s: string, i: nat) {
    i + 4 <= |s| && s[i] == '<' && s[i + 1] == '!' && s[i + 2] == '-' && s[i + 3] == '-'
  }

  predicate AtClose(s: string, i: nat) {
    i + 3 <= |s| && s[i] == '-' && s[i + 1] == '-' && s[i + 2] == '>'
  }

  /** The end of a comment opening, any white space and this keyword at position `i`. */
  function OpenEnd(s: string, i: nat, side: Side): (r: Option<nat>)
    ensures r.Some? ==> i < r.value <= |s|
  {
    if AtComment(s, i) then KeywordEnd(s, i + 4, side) else None
  }

  /** The end of the first such opening from position `i` on. */
  function FindOpen(s: string, i: nat, side: Side): (r: Option<nat>)
    ensures r.Some? ==> i < r.value <= |s|
    decreases |s| - i
  {
    if OpenEnd(s, i, side).Some? then OpenEnd(s, i, side)
    else if i < |s| then FindOpen(s, i + 1, side)
    else None
  }

  /** The end of the first comment closing from position `i` on. */
  function FindClose(s: string, i: nat): (r: Option<nat>)
    ensures r.Some? ==> i < r.value <= |s|
    decreases |s| - i
  {
    if AtClose(s, i) then Some(i + 3)
    else if i < |s| then FindClose(s, i + 1)
    else None
  }

  /** The end of a `_MARKER_BLOCK` at position `i`: the lazy gaps stop at the first closing and the first end. */
  function BlockEnd(s: string, i: nat): (r: Option<nat>)
    ensures r.Some? ==> i < r.value <= |s|
  {
    match OpenEnd(s, i, BEGIN)
    case None => None
    case Some(named) =>
      match FindClose(s, named)
      case None => None
      case Some(inside) =>
        match FindOpen(s, inside, END)
        case None => None
        case Some(closing) => FindClose(s, closing)
  }

  /** `_marker_spans` and `_in_marker`: scanning from `i` on, does position `k` lie in a marker block? */
  function InBlock(s: string, i: nat, k: nat): bool
    requires i <= |s|
    decreases |s| - i
  {
    if k < i || i == |s| then false
    else match BlockEnd(s, i)
      case Some(end) => k < end || InBlock(s, end, k)
      case None => InBlock(s, i + 1, k)
  }

  function Mask(t: Text): (m: seq<bool>)
    ensures |m| == |t| && forall k | 0 <= k < |t| :: m[k] == InBlock(Skeleton(t), 0, k)
  {
    seq(|t|, k requires 0 <= k < |t| => InBlock(Skeleton(t), 0, k))
  }

  // ---- the patterns ------------------------------------------------------------------------------------

  /** A character, a number that stays (a captured group), or a number to be written. */
  datatype Item = Lit(c: char) | Keep | Put(digits: string)

  /** The edges are the word boundaries of the pattern. */
  datatype Pattern = Pattern(leftEdge: bool, items: seq<Item>, rightEdge: bool)

  predicate Word(token: Token) {
    token.Num? || token.c == '_' || 'a' <= token.c <= 'z' || 'A' <= token.c <= 'Z'
  }

  predicate Accepts(item: Item, token: Token) {
    match item
    case Lit(c) => token == Ch(c)
    case _ => token.Num?
  }

  /** `before`: is the token before `t` part of a word? */
  predicate MatchesAt(t: Text, before: bool, p: Pattern) {
    var n := |p.items|;
    && 0 < n <= |t|
    && (forall k | 0 <= k < n :: Accepts(p.items[k], t[k]))
    && (p.leftEdge ==> before != Word(t[0]))
    && (p.rightEdge ==> Word(t[n - 1]) != (n < |t| && Word(t[n])))
  }

  /** `m.expand(repl)`. */
  function Written(items: seq<Item>, t: Text): (r: Text)
    requires |items| == |t|
    ensures |r| == |t|
    ensures forall k | 0 <= k < |t| :: r[k] == if items[k].Put? then Num(items[k].digits) else t[k]
  {
    seq(|t|, k requires 0 <= k < |t| => if items[k].Put? then Num(items[k].digits) else t[k])
  }

  /** How many tokens the scan consumes at once: a match, or one token. */
  function Width(t: Text, before: bool, p: Pattern): (n: nat)
    requires t != []
    ensures 0 < n <= |t|
  {
    if MatchesAt(t, before, p) then |p.items| else 1
  }

  /** What becomes of them. */
  function Head(t: Text, inBlock: bool, before: bool, p: Pattern): (r: Text)
    requires t != []
    ensures |r| == Width(t, before, p)
  {
    var n := Width(t, before, p);
    if MatchesAt(t, before, p) && !inBlock then Written(p.items, t[..n]) else t[..n]
  }

  /** One pattern: every match that does not start in a marker block is rewritten. */
  function Pass(t: Text, mask: seq<bool>, before: bool, p: Pattern): (r: Text)
    requires |mask| == |t|
    ensures |r| == |t|
    decreases |t|
  {
    if t == [] then []
    else
      var n := Width(t, before, p);
      Head(t, mask[0], before, p) + Pass(t[n..], mask[n..], Word(t[n - 1]), p)
  }

  /** An entry without a replacement is listed for the reader only. */
  datatype Entry = Entry(pattern: Pattern, active: bool)

  function Apply(t: Text, e: Entry): (r: Text)
    ensures |r| == |t|
  {
    if e.active then Pass(t, Mask(t), false, e.pattern) else t
  }

  /** The text after all entries, one after the other. */
  function Sync(t: Text, entries: seq<Entry>): (r: Text)
    ensures |r| == |t|
  {
    if entries == [] then t else Apply(Sync(t, entries[..|entries| - 1]), entries[|entries| - 1])
  }

  // ---- the marker-protected blocks ---------------------------------------------------------------------

  function BeginMarker(name: Text): Text { Chars("<!-- BEGIN auto-count:") + name + Chars(" -->") }
  function EndMarker(name: Text): Text { Chars("<!-- END auto-count:") + name + Chars(" -->") }

  function Framed(body: Text): Text { [Ch('\n')] + body + [Ch('\n')] }

  /** From behind the first `begin` from position `i` on to the first `end` behind it. */
  function Enclosed<T(==)>(t: seq<T>, i: nat, begin: seq<T>, end: seq<T>): (r: Option<(nat, nat)>)
    ensures r.Some? ==> r.value.0 <= r.value.1 <= |t|
  {
    match Find(t, begin, i)
    case None => None
    case Some(found) =>
      match Find(t, end, found + |begin|)
      case None => None
      case Some(closed) => Some((found + |begin|, closed))
  }

  /** Something else in this place, and whether there is such a place. */
  function Refilled<T>(t: seq<T>, place: Option<(nat, nat)>, inside: seq<T>): (seq<T>, bool)
    requires place.Some? ==> place.value.0 <= place.value.1 <= |t|
  {
    match place
    case None => (t, false)
    case Some((from, to)) => (t[..from] + inside + t[to..], true)
  }

  function ReplaceBetween(t: Text, i: nat, begin: Text, end: Text, body: Text): (Text, bool) {
    Refilled(t, Enclosed(t, i, begin, end), Framed(body))
  }

  /** The body of the first block of this name from position `i` on. */
  function ReplaceFrom(t: Text, i: nat, name: Text, body: Text): (Text, bool) {
    ReplaceBetween(t, i, BeginMarker(name), EndMarker(name), body)
  }

  /** `_replace_block`. */
  function ReplaceBlock(t: Text, name: Text, body: Text): (Text, bool) {
    ReplaceFrom(t, 0, name, body)
  }

  datatype NamedBody = NamedBody(name: Text, body: Text)

  function Build(t: Text, blocks: seq<NamedBody>): Text {
    if blocks == [] then t
    else
      var last := blocks[|blocks| - 1];
      ReplaceBlock(Build(t, blocks[..|blocks| - 1]), last.name, last.body).0
  }
}
