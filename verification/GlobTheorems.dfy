/**
 The compiled expression against a direct matcher that never mentions regular expressions.
 */
module GlobTheorems {
  import opened Wrappers
  import opened GlobMatch
  import opened GlobParsing

  /** `**` may cross everything except, if `lines` is set, a newline. */
  predicate Crosses(c: char, lines: bool) {
    !lines || c != '\n'
  }

  predicate CrossesAll(s: string, lines: bool) {
    forall i | 0 <= i < |s| :: Crosses(s[i], lines)
  }

  /**
   The documented meaning, character by character: `?` and `*` stay inside one segment, `**`
   crosses segments, and a directory wildcard is nothing or some nonempty text and a slash.
   */
  ghost predicate Glob(p: string, s: string, lines: bool)
    decreases |p|, |s|
  {
    if p == "" then s == ""
    else match NextToken(p)
      case Question => s != "" && s[0] != '/' && Glob(p[1..], s[1..], lines)
      case Literal(c) => s != "" && s[0] == c && Glob(p[1..], s[1..], lines)
      case Star => Glob(p[1..], s, lines) || (s != "" && s[0] != '/' && Glob(p, s[1..], lines))
      case Deep => Glob(p[2..], s, lines) || (s != "" && Crosses(s[0], lines) && Glob(p, s[1..], lines))
      case Slashed => Glob(p[3..], s, lines) || exists k | 1 <= k < |s| :: BelowSlash(p[3..], s, k, lines)
  }

  /** The wildcard has consumed `s[..k]` and the slash after it. */
  ghost predicate BelowSlash(p: string, s: string, k: nat, lines: bool)
    requires k < |s|
    decreases |p|, |s|, 0
  {
    s[k] == '/' && CrossesAll(s[..k], lines) && Glob(p, s[k + 1..], lines)
  }

  // ---- the language of each repeated item ----------------------------------------------------

  predicate NoSlash(t: string, i: nat, k: nat)
    requires i <= k <= |t|
  {
    forall x | i <= x < k :: t[x] != '/'
  }

  predicate NoNewline(t: string, i: nat, k: nat)
    requires i <= k <= |t|
  {
    forall x | i <= x < k :: t[x] != '\n'
  }

  lemma {:induction false} RepeatedNotSlash(t: string, i: nat, k: nat)
    requires i <= k <= |t|
    ensures Repeated(NotIn({'/'}), t, i, k) <==> NoSlash(t, i, k)
    decreases k - i
  {
    if i < k {
      forall m | i < m <= k { RepeatedNotSlash(t, m, k); }
      if NoSlash(t, i, k) {
        assert Matches(NotIn({'/'}), t, i, i + 1);
      }
    }
  }

  lemma {:induction false} RepeatedAny(t: string, i: nat, k: nat)
    requires i <= k <= |t|
    ensures Repeated(Any, t, i, k) <==> NoNewline(t, i, k)
    decreases k - i
  {
    if i < k {
      forall m | i < m <= k { RepeatedAny(t, m, k); }
      if NoNewline(t, i, k) {
        assert Matches(Any, t, i, i + 1);
      }
    }
  }

  lemma DirectoryItem(t: string, i: nat, k: nat)
    requires i <= k <= |t|
    ensures Matches(Group([OneOrMore(Any), Char('/')]), t, i, k) <==>
              i + 2 <= k && t[k - 1] == '/' && NoNewline(t, i, k - 1)
  {
    var dots, slash := OneOrMore(Any), Char('/');
    var body := [dots, slash];
    assert body[1..] == [slash];
    assert [slash][1..] == [];
    forall m | i <= m <= k
      ensures MatchesAll([slash], t, m, k) <==> m + 1 == k && t[m] == '/'
    {
      if m < k { assert MatchesAll([], t, k, k); }
    }
    forall m | i <= m <= k
      ensures Matches(dots, t, i, m) <==> i < m && NoNewline(t, i, m)
    {
      forall n | i <= n <= m { RepeatedAny(t, n, m); }
      if i < m && NoNewline(t, i, m) {
        assert Matches(Any, t, i, i + 1) && Repeated(Any, t, i + 1, m);
      }
    }
  }

  // ---- one token at a time --------------------------------------------------------------------

  /** The token takes `t[i..m]` and the rest of the pattern takes `t[m..e]`. */
  ghost predicate Splits(token: Token, p: string, t: string, i: nat, m: nat, e: nat)
    requires i <= m <= e <= |t|
  {
    Matches(Item(token), t, i, m) && Glob(p, t[m..e], true)
  }

  lemma {:induction false} StarSplits(p: string, t: string, i: nat, e: nat)
    requires p != "" && NextToken(p) == Star && i <= e <= |t|
    ensures Glob(p, t[i..e], true) <==> exists m | i <= m <= e :: Splits(Star, p[1..], t, i, m, e)
    decreases e - i
  {
    forall m | i <= m <= e { RepeatedNotSlash(t, i, m); }
    if Glob(p[1..], t[i..e], true) {
      assert Splits(Star, p[1..], t, i, i, e);
    }
    if i < e {
      assert t[i..e][1..] == t[i + 1..e];
      StarSplits(p, t, i + 1, e);
      var j := i + 1;
      forall m | j <= m <= e { RepeatedNotSlash(t, j, m); }
      if t[i] != '/' && Glob(p, t[i + 1..e], true) {
        var m :| i + 1 <= m <= e && Splits(Star, p[1..], t, i + 1, m, e);
        assert Splits(Star, p[1..], t, i, m, e);
      }
      forall m | i < m <= e && Splits(Star, p[1..], t, i, m, e)
        ensures t[i] != '/' && Splits(Star, p[1..], t, i + 1, m, e)
      {
      }
    }
  }

  lemma {:induction false} DeepSplits(p: string, t: string, i: nat, e: nat)
    requires p != "" && NextToken(p) == Deep && i <= e <= |t|
    ensures Glob(p, t[i..e], true) <==> exists m | i <= m <= e :: Splits(Deep, p[2..], t, i, m, e)
    decreases e - i
  {
    forall m | i <= m <= e { RepeatedAny(t, i, m); }
    if Glob(p[2..], t[i..e], true) {
      assert Splits(Deep, p[2..], t, i, i, e);
    }
    if i < e {
      assert t[i..e][1..] == t[i + 1..e];
      DeepSplits(p, t, i + 1, e);
      var j := i + 1;
      forall m | j <= m <= e { RepeatedAny(t, j, m); }
      if t[i] != '\n' && Glob(p, t[i + 1..e], true) {
        var m :| i + 1 <= m <= e && Splits(Deep, p[2..], t, i + 1, m, e);
        assert Splits(Deep, p[2..], t, i, m, e);
      }
      forall m | i < m <= e && Splits(Deep, p[2..], t, i, m, e)
        ensures t[i] != '\n' && Splits(Deep, p[2..], t, i + 1, m, e)
      {
      }
    }
  }

  lemma SlashedSplits(p: string, t: string, i: nat, e: nat)
    requires p != "" && NextToken(p) == Slashed && i <= e <= |t|
    ensures Glob(p, t[i..e], true) <==> exists m | i <= m <= e :: Splits(Slashed, p[3..], t, i, m, e)
  {
    var s := t[i..e];
    forall m | i <= m <= e { DirectoryItem(t, i, m); }
    if Glob(p[3..], s, true) {
      assert Splits(Slashed, p[3..], t, i, i, e);
    }
    forall k | 1 <= k < |s| && BelowSlash(p[3..], s, k, true)
      ensures Splits(Slashed, p[3..], t, i, i + k + 1, e)
    {
      assert s[k + 1..] == t[i + k + 1..e];
      assert forall x | i <= x < i + k :: t[x] == s[..k][x - i];
    }
    forall m | i < m <= e && Splits(Slashed, p[3..], t, i, m, e)
      ensures i + 2 <= m && BelowSlash(p[3..], s, m - i - 1, true)
    {
      assert s[m - i..] == t[m..e];
    }
  }

  lemma TokenSplits(p: string, t: string, i: nat, e: nat)
    requires p != "" && i <= e <= |t|
    ensures
      var token := NextToken(p);
      Glob(p, t[i..e], true) <==> exists m | i <= m <= e :: Splits(token, p[TokenLength(token)..], t, i, m, e)
  {
    var token := NextToken(p);
    match token
    case Star => StarSplits(p, t, i, e);
    case Deep => DeepSplits(p, t, i, e);
    case Slashed => SlashedSplits(p, t, i, e);
    case _ =>
      if i < e {
        assert t[i..e][1..] == t[i + 1..e];
        assert Splits(token, p[1..], t, i, i + 1, e) <==> Glob(p, t[i..e], true);
      }
  }

  // ---- the whole pattern ----------------------------------------------------------------------

  lemma {:induction false} Language(p: string, t: string, i: nat, e: nat)
    requires i <= e <= |t|
    ensures MatchesAll(Items(Tokens(p)) + [AtEnd], t, i, e) <==> IsEnd(t, e) && Glob(p, t[i..e], true)
    decreases |p|
  {
    var items := Items(Tokens(p)) + [AtEnd];
    if p == "" {
      assert items[0] == AtEnd && items[1..] == [];
      assert MatchesAll([], t, e, e) && (Matches(AtEnd, t, i, i) <==> IsEnd(t, i));
      assert i == e <==> t[i..e] == "";
      assert i == e && IsEnd(t, e) ==> Matches(items[0], t, i, i) && MatchesAll(items[1..], t, i, e);
    } else {
      var token := NextToken(p);
      var rest := p[TokenLength(token)..];
      assert items[0] == Item(token) && items[1..] == Items(Tokens(rest)) + [AtEnd];
      TokenSplits(p, t, i, e);
      forall m | i <= m <= e
        ensures Matches(Item(token), t, i, m) && MatchesAll(items[1..], t, m, e) <==>
                  IsEnd(t, e) && Splits(token, rest, t, i, m, e)
      {
        Language(rest, t, m, e);
      }
    }
  }

  // ---- main results ---------------------------------------------------------------------------

  lemma StartMatches(items: seq<Regex>, t: string, k: nat)
    requires k <= |t|
    ensures MatchesAll([AtStart] + items, t, 0, k) <==> MatchesAll(items, t, 0, k)
  {
    assert ([AtStart] + items)[0] == AtStart && ([AtStart] + items)[1..] == items;
    assert Matches(AtStart, t, 0, 0);
  }

  lemma Accepts(pat: string, t: string, k: nat)
    requires k <= |t|
    ensures MatchesAll([AtStart] + Items(Tokens(pat)) + [AtEnd], t, 0, k) <==> IsEnd(t, k) && Glob(pat, t[..k], true)
  {
    var items := Items(Tokens(pat)) + [AtEnd];
    assert [AtStart] + Items(Tokens(pat)) + [AtEnd] == [AtStart] + items;
    StartMatches(items, t, k);
    Language(pat, t, 0, k);
    assert t[0..k] == t[..k];
  }

  lemma AcceptedEnds(pat: string, path: string)
    ensures
      AcceptsPrefix([AtStart] + Items(Tokens(pat)) + [AtEnd], path) <==>
      Glob(pat, path, true) || (path != "" && path[|path| - 1] == '\n' && Glob(pat, path[..|path| - 1], true))
  {
    forall k | 0 <= k <= |path| { Accepts(pat, path, k); }
    assert path[..|path|] == path;
    Accepts(pat, path, |path|);
    if path != "" { Accepts(pat, path, |path| - 1); }
  }

  /**
   Compilation preserves meaning, on every path: the printed expression is inside the fragment,
   and it accepts a path exactly if the direct matcher accepts the path, or the path without a
   final newline, with newlines closed to `**`.
   */
  lemma CompilationPreservesMeaning(pat: string, path: string)
    requires '\\' !in pat
    ensures
      ReMatch("^" + Print(Tokens(pat)) + "$", path) ==
      Some(Glob(pat, path, true) || (path != "" && path[|path| - 1] == '\n' && Glob(pat, path[..|path| - 1], true)))
  {
    CompiledTextParsesBack(pat);
    AcceptedEnds(pat, path);
  }

  lemma {:induction false} NewlinesDoNotMatter(p: string, s: string)
    requires '\n' !in s
    ensures Glob(p, s, true) <==> Glob(p, s, false)
    decreases |p|, |s|
  {
    if p != "" {
      match NextToken(p)
      case Question => if s != "" { NewlinesDoNotMatter(p[1..], s[1..]); }
      case Literal(_) => if s != "" { NewlinesDoNotMatter(p[1..], s[1..]); }
      case Star =>
        NewlinesDoNotMatter(p[1..], s);
        if s != "" { NewlinesDoNotMatter(p, s[1..]); }
      case Deep =>
        NewlinesDoNotMatter(p[2..], s);
        if s != "" { NewlinesDoNotMatter(p, s[1..]); }
      case Slashed =>
        NewlinesDoNotMatter(p[3..], s);
        forall k | 1 <= k < |s|
          ensures BelowSlash(p[3..], s, k, true) <==> BelowSlash(p[3..], s, k, false)
        {
          NewlinesDoNotMatter(p[3..], s[k + 1..]);
        }
    }
  }

  /** The documented meaning, for patterns with `**` and newline-free paths, in either slash style. */
  lemma MatchesGlobIsGlob(filePath: string, pattern: string, fnmatch: (string, string) -> bool)
    requires HasDoubleStar(pattern) && '\n' !in filePath
    ensures MatchesGlob(filePath, pattern, fnmatch) == Some(Glob(Slashes(pattern), Slashes(filePath), false))
  {
    var norm, pat := Slashes(filePath), Slashes(pattern);
    var i :| 0 <= i < |pattern| - 1 && pattern[i] == '*' && pattern[i + 1] == '*';
    assert pat[i] == '*' && pat[i + 1] == '*';
    assert '\n' !in norm;
    CompilationPreservesMeaning(pat, norm);
    NewlinesDoNotMatter(pat, norm);
  }

  // ---- newlines ---------------------------------------------------------------------------------

  /** The matcher decides this path as documented, for every pattern with `**`. */
  ghost predicate AlwaysRight(filePath: string, fnmatch: (string, string) -> bool) {
    forall pattern | HasDoubleStar(pattern) ::
      MatchesGlob(filePath, pattern, fnmatch) == Some(Glob(Slashes(pattern), Slashes(filePath), false))
  }

  lemma {:induction false} DeepMatches(s: string, lines: bool)
    ensures Glob("**", s, lines) <==> CrossesAll(s, lines)
  {
    assert "**"[2..] == "";
    if s != "" {
      DeepMatches(s[1..], lines);
      assert CrossesAll(s, lines) <==> Crosses(s[0], lines) && CrossesAll(s[1..], lines) by {
        assert s == [s[0]] + s[1..];
      }
    }
  }

  /** A pattern for exactly this text, up to what a question mark stands for. */
  function Escaped(x: string): (p: string)
    ensures |p| == |x|
  {
    if x == "" then "" else [if x[0] == '*' then '?' else x[0]] + Escaped(x[1..])
  }

  /** A pattern that starts with no star takes one character. */
  lemma GlobLead(p: string, s: string, lines: bool)
    requires p != "" && p[0] != '*'
    ensures Glob(p, s, lines) <==>
              && s != "" && (if p[0] == '?' then s[0] != '/' else s[0] == p[0])
              && Glob(p[1..], s[1..], lines)
  {
  }

  lemma FirstOf(x: string, rest: string)
    requires x != ""
    ensures x + rest != "" && (x + rest)[0] == x[0] && (x + rest)[1..] == x[1..] + rest
  {
  }

  lemma EscapedFirst(x: string, q: string)
    requires x != ""
    ensures
      var p := Escaped(x) + q;
      p != "" && p[0] == (if x[0] == '*' then '?' else x[0]) && p[1..] == Escaped(x[1..]) + q
  {
    FirstOf(Escaped(x), q);
    FirstOf([if x[0] == '*' then '?' else x[0]], Escaped(x[1..]));
  }

  lemma {:induction false} EscapedMatches(x: string, q: string, s: string, lines: bool)
    ensures Glob(Escaped(x) + q, x + s, lines) <==> Glob(q, s, lines)
  {
    if x == "" {
      assert Escaped(x) + q == q && x + s == s;
    } else {
      hide Glob, Escaped;
      EscapedFirst(x, q);
      FirstOf(x, s);
      GlobLead(Escaped(x) + q, x + s, lines);
      EscapedMatches(x[1..], q, s, lines);
    }
  }

  lemma SlashedAlone(s: string, lines: bool)
    requires s == "" || s == "\n"
    ensures Glob("**/", s, lines) <==> s == ""
  {
    assert "**/"[3..] == "";
    assert NextToken("**/") == Slashed;
  }

  lemma {:induction false} EscapedIsClean(x: string)
    requires '\\' !in x
    ensures '\\' !in Escaped(x)
  {
    if x != "" { EscapedIsClean(x[1..]); }
  }

  lemma CleanSlashes(p: string)
    requires '\\' !in p
    ensures Slashes(p) == p
  {
  }

  /** `$` also stands before a final newline, so this pattern is accepted one character early. */
  lemma FinalNewlineIsOverlooked(filePath: string, fnmatch: (string, string) -> bool)
    requires var n := Slashes(filePath); n != "" && n[|n| - 1] == '\n'
    ensures !AlwaysRight(filePath, fnmatch)
  {
    var n := Slashes(filePath);
    var x := n[..|n| - 1];
    var p := Escaped(x) + "**/";
    EscapedIsClean(x);
    CleanSlashes(p);
    assert p[|x|] == '*' && p[|x| + 1] == '*' && HasDoubleStar(p);
    assert n == x + "\n" && x == x + "";
    EscapedMatches(x, "**/", "", true);
    EscapedMatches(x, "**/", "\n", false);
    SlashedAlone("", true);
    SlashedAlone("\n", false);
    CompilationPreservesMeaning(p, n);
  }

  /** The emitted `.` stops at a newline inside the path, where `**` promises anything. */
  lemma InnerNewlineStopsDeep(filePath: string, fnmatch: (string, string) -> bool, i: nat)
    requires var n := Slashes(filePath); i < |n| - 1 && n[i] == '\n'
    ensures !AlwaysRight(filePath, fnmatch)
  {
    var n := Slashes(filePath);
    var p := "**";
    CleanSlashes(p);
    assert p[0] == '*' && p[1] == '*' && HasDoubleStar(p);
    DeepMatches(n, false);
    DeepMatches(n, true);
    DeepMatches(n[..|n| - 1], true);
    assert n[..|n| - 1][i] == '\n';
    CompilationPreservesMeaning(p, n);
  }

  /** The paths on which the matcher is right for every pattern are exactly those without a newline. */
  lemma RightForEveryPatternExactlyWhen(filePath: string, fnmatch: (string, string) -> bool)
    ensures AlwaysRight(filePath, fnmatch) <==> '\n' !in filePath
  {
    if '\n' in filePath {
      var i :| 0 <= i < |filePath| && filePath[i] == '\n';
      assert Slashes(filePath)[i] == '\n';
      if i == |filePath| - 1 { FinalNewlineIsOverlooked(filePath, fnmatch); } else { InnerNewlineStopsDeep(filePath, fnmatch, i); }
    } else {
      forall pattern | HasDoubleStar(pattern) { MatchesGlobIsGlob(filePath, pattern, fnmatch); }
    }
  }

  /** A directory wildcard right after another adds nothing. */
  lemma DoubledWildcard(p: string, s: string, lines: bool)
    ensures Glob("**/**/" + p, s, lines) <==> Glob("**/" + p, s, lines)
  {
    var one, two := "**/" + p, "**/**/" + p;
    assert two[3..] == one && one[3..] == p;
    assert NextToken(two) == Slashed && NextToken(one) == Slashed;
    forall k | 1 <= k < |s| && BelowSlash(one, s, k, lines)
      ensures Glob(one, s, lines)
    {
      var rest := s[k + 1..];
      assert Glob(one, rest, lines);
      assert Glob(p, rest, lines) || exists m | 1 <= m < |rest| :: BelowSlash(p, rest, m, lines);
      if Glob(p, rest, lines) {
        assert BelowSlash(p, s, k, lines);
      } else {
        var m :| 1 <= m < |rest| && BelowSlash(p, rest, m, lines);
        assert Crosses('/', lines);
        assert s[..k + 1 + m] == s[..k] + "/" + rest[..m];
        assert s[k + 1 + m + 1..] == rest[m + 1..];
        assert BelowSlash(p, s, k + 1 + m, lines);
      }
    }
  }
}
