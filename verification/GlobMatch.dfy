/**
 `roam._glob_match`: a glob with `**` is compiled to the text of a regular expression, which
 Python's `re` then parses and matches. The compiler, the parser for the emitted fragment, its
 language and a direct matcher are all here; the theorems are in `GlobTheorems`.
 */
module GlobMatch {
  import opened Wrappers

  // ---- the compiler -----------------------------------------------------------------------

  predicate IsMeta(c: char) {
    || c == '.' || c == '+' || c == '^' || c == '$' || c == '{' || c == '}'
    || c == '(' || c == ')' || c == '|' || c == '[' || c == ']'
  }

  /** What one step of the compiler recognises. */
  datatype Token = Question | Star | Deep | Slashed | Literal(c: char)

  function TokenLength(t: Token): nat {
    match t
    case Deep => 2
    case Slashed => 3
    case _ => 1
  }

  /** `_next_segment_safe_fragment`, without the text. */
  function NextToken(pat: string): (t: Token)
    requires pat != ""
    ensures TokenLength(t) <= |pat|
  {
    if pat[0] == '?' then Question
    else if pat[0] != '*' then Literal(pat[0])
    else if |pat| < 2 || pat[1] != '*' then Star
    else if |pat| >= 3 && pat[2] == '/' then Slashed
    else Deep
  }

  function Fragment(t: Token): string {
    match t
    case Question => "[^/]"
    case Star => "[^/]*"
    case Slashed => "(?:.+/)?"
    case Deep => ".*"
    case Literal(c) => if IsMeta(c) then ['\\', c] else [c]
  }

  function Tokens(pat: string): seq<Token>
    decreases |pat|
  {
    if pat == "" then [] else [NextToken(pat)] + Tokens(pat[TokenLength(NextToken(pat))..])
  }

  function Print(ts: seq<Token>): string {
    if ts == [] then "" else Fragment(ts[0]) + Print(ts[1..])
  }

  lemma {:induction false} PrintAppend(ts: seq<Token>, t: Token)
    ensures Print(ts + [t]) == Print(ts) + Fragment(t)
  {
    hide Fragment;
    if ts == [] {
      assert Print([t]) == Fragment(t) + Print([]);
    } else {
      PrintAppend(ts[1..], t);
      assert (ts + [t])[1..] == ts[1..] + [t];
    }
  }

  /** One round of the compiler's loop: the text so far, then what remains to be compiled. */
  lemma CompileStep(pat: string, i: nat, regex: string)
    requires i < |pat|
    ensures
      var token := NextToken(pat[i..]);
      && i + TokenLength(token) <= |pat|
      && regex + Fragment(token) + Print(Tokens(pat[i + TokenLength(token)..])) == regex + Print(Tokens(pat[i..]))
  {
    var token := NextToken(pat[i..]);
    assert pat[i..][TokenLength(token)..] == pat[i + TokenLength(token)..];
    assert Tokens(pat[i..])[1..] == Tokens(pat[i + TokenLength(token)..]);
  }

  /** `_regex_preserving_doublestar_segments`: the loop over `i`, joining the fragments. */
  method RegexPreservingDoubleStarSegments(pat: string) returns (regex: string)
    ensures regex == Print(Tokens(pat))
  {
    regex := "";
    var i := 0;
    while i < |pat|
      invariant 0 <= i <= |pat|
      invariant regex + Print(Tokens(pat[i..])) == Print(Tokens(pat))
    {
      var token := NextToken(pat[i..]);
      CompileStep(pat, i, regex);
      regex := regex + Fragment(token);
      i := i + TokenLength(token);
    }
  }

  // ---- the regular expressions of Python's `re`, as far as the compiler uses them -------------

  datatype Regex =
    | Char(c: char)
    | Any                       // `.`: everything but a newline
    | NotIn(chars: set<char>)   // `[^...]`
    | AtStart                   // `^`
    | AtEnd                     // `$`: at the end, or before a newline that ends the text
    | Group(body: seq<Regex>)   // `(?:...)`
    | Repeat(item: Regex)       // `*`
    | OneOrMore(item: Regex)    // `+`
    | Optional(item: Regex)     // `?`

  datatype Parsed = Parsed(items: seq<Regex>, rest: string)
  datatype Atom = Atom(item: Regex, rest: string)

  /** Inside `[^...]`: plain characters up to the closing bracket. */
  function ParseClass(s: string, acc: set<char>): (r: Option<Atom>)
    ensures r.Some? ==> |r.value.rest| < |s|
    decreases |s|
  {
    if s == "" || s[0] == '\\' || s[0] == '[' || s[0] == '-' then None
    else if s[0] == ']' then (if acc == {} then None else Some(Atom(NotIn(acc), s[1..])))
    else ParseClass(s[1..], acc + {s[0]})
  }

  predicate IsQuantifier(c: char) {
    c == '*' || c == '+' || c == '?' || c == '{'
  }

  /** A quantifier binds to the atom before it; a second one is outside the fragment. */
  function ParseQuantifier(atom: Regex, s: string): (r: Option<Atom>)
    ensures r.Some? ==> |r.value.rest| <= |s|
  {
    if s == "" || !IsQuantifier(s[0]) then Some(Atom(atom, s))
    else if s[0] == '{' || (|s| > 1 && IsQuantifier(s[1])) then None
    else if s[0] == '*' then Some(Atom(Repeat(atom), s[1..]))
    else if s[0] == '+' then Some(Atom(OneOrMore(atom), s[1..]))
    else Some(Atom(Optional(atom), s[1..]))
  }

  /** One atom. An escape is understood only before a metacharacter; `|` is outside the fragment. */
  function ParseAtom(s: string): (r: Option<Atom>)
    requires s != ""
    ensures r.Some? ==> |r.value.rest| < |s|
    decreases |s|, 0
  {
    if "(?:" <= s then
      match ParseItems(s[3..])
      case Some(p) => if p.rest != "" then Some(Atom(Group(p.items), p.rest[1..])) else None
      case None => None
    else if "[^" <= s then ParseClass(s[2..], {})
    else if s[0] == '\\' then (if |s| > 1 && IsMeta(s[1]) then Some(Atom(Char(s[1]), s[2..])) else None)
    else if s[0] == '.' then Some(Atom(Any, s[1..]))
    else if s[0] == '^' then Some(Atom(AtStart, s[1..]))
    else if s[0] == '$' then Some(Atom(AtEnd, s[1..]))
    else if IsMeta(s[0]) || IsQuantifier(s[0]) then None
    else Some(Atom(Char(s[0]), s[1..]))
  }

  /** Items up to the end of the text or an unmatched `)`, which is left in `rest`. */
  function ParseItems(s: string): (r: Option<Parsed>)
    ensures r.Some? ==> |r.value.rest| <= |s|
    decreases |s|, 1
  {
    if s == "" || s[0] == ')' then Some(Parsed([], s))
    else match ParseAtom(s)
      case None => None
      case Some(a) =>
        match ParseQuantifier(a.item, a.rest)
        case None => None
        case Some(q) =>
          match ParseItems(q.rest)
          case None => None
          case Some(p) => Some(Parsed([q.item] + p.items, p.rest))
  }

  // ---- what an expression matches -----------------------------------------------------------

  /** `r` can match exactly the stretch of `t` from `i` to `k`. */
  ghost predicate Matches(r: Regex, t: string, i: nat, k: nat)
    requires i <= k <= |t|
    decreases r, 1, 0
  {
    match r
    case Char(c) => k == i + 1 && t[i] == c
    case Any => k == i + 1 && t[i] != '\n'
    case NotIn(chars) => k == i + 1 && t[i] !in chars
    case AtStart => k == i == 0
    case AtEnd => k == i && IsEnd(t, i)
    case Group(body) => MatchesAll(body, t, i, k)
    case Repeat(item) => Repeated(item, t, i, k)
    case OneOrMore(item) => exists m | i <= m <= k :: Matches(item, t, i, m) && Repeated(item, t, m, k)
    case Optional(item) => i == k || Matches(item, t, i, k)
  }

  predicate IsEnd(t: string, i: nat) {
    i == |t| || (i + 1 == |t| && t[i] == '\n')
  }

  ghost predicate Repeated(item: Regex, t: string, i: nat, k: nat)
    requires i <= k <= |t|
    decreases item, 2, k - i
  {
    i == k || exists m | i < m <= k :: Matches(item, t, i, m) && Repeated(item, t, m, k)
  }

  ghost predicate MatchesAll(items: seq<Regex>, t: string, i: nat, k: nat)
    requires i <= k <= |t|
    decreases items, 0, 0
  {
    if items == [] then i == k
    else exists m | i <= m <= k :: Matches(items[0], t, i, m) && MatchesAll(items[1..], t, m, k)
  }

  /** `match` is anchored at the start only. */
  ghost predicate AcceptsPrefix(items: seq<Regex>, text: string) {
    exists k | 0 <= k <= |text| :: MatchesAll(items, text, 0, k)
  }

  /** `re.match(regex, text) is not None`, or nothing if the text is outside the fragment. */
  ghost function ReMatch(regex: string, text: string): Option<bool> {
    match ParseItems(regex)
    case Some(p) => if p.rest == "" then Some(AcceptsPrefix(p.items, text)) else None
    case None => None
  }

  // ---- the matcher itself -------------------------------------------------------------------

  function Slashes(s: string): string {
    seq(|s|, i requires 0 <= i < |s| => if s[i] == '\\' then '/' else s[i])
  }

  predicate HasDoubleStar(pat: string) {
    exists i | 0 <= i < |pat| - 1 :: pat[i] == '*' && pat[i + 1] == '*'
  }

  /** `_matches_glob`; the standard library's `fnmatch` decides patterns without `**`. */
  ghost function MatchesGlob(filePath: string, pattern: string, fnmatch: (string, string) -> bool): Option<bool> {
    var norm, pat := Slashes(filePath), Slashes(pattern);
    if pat == "" then Some(false)
    else if !HasDoubleStar(pat) then Some(fnmatch(norm, pat))
    else ReMatch("^" + Print(Tokens(pat)) + "$", norm)
  }
}
