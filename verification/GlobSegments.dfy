/**
 The documented meaning of a glob, segment by segment: `**` as a whole segment stands for zero or
 more directories, everything else for one segment of the path.
 */
module GlobSegments {
  import opened Wrappers
  import opened GlobMatch
  import opened GlobTheorems

  function Join(xs: seq<string>): string {
    if xs == [] then "" else if |xs| == 1 then xs[0] else xs[0] + "/" + Join(xs[1..])
  }

  predicate Clean(x: string) {
    x != "" && '/' !in x && '\\' !in x && '\n' !in x
  }

  predicate CleanPath(ss: seq<string>) {
    ss != [] && forall x | x in ss :: Clean(x)
  }

  /** Every segment is `**` or free of it. */
  predicate CleanPattern(ps: seq<string>) {
    CleanPath(ps) && forall p | p in ps :: p == "**" || !HasDoubleStar(p)
  }

  // A final `**` stands for at least one segment: "src/**" does not match "src".
  ghost predicate SegmentsMatch(ps: seq<string>, ss: seq<string>)
    decreases |ps|
  {
    if ps == [] then ss == []
    else if ps[0] != "**" then ss != [] && Glob(ps[0], ss[0], false) && SegmentsMatch(ps[1..], ss[1..])
    else if |ps| == 1 then ss != []
    else exists n | 0 <= n <= |ss| :: SegmentsMatch(ps[1..], ss[n..])
  }

  // ---- splitting a path at its slashes ---------------------------------------------------------

  function FirstSlash(s: string): (j: nat)
    ensures j <= |s| && (j < |s| ==> s[j] == '/') && '/' !in s[..j]
  {
    if s == "" || s[0] == '/' then 0 else 1 + FirstSlash(s[1..])
  }

  lemma FirstSlashOf(x: string, rest: string)
    requires '/' !in x && (rest == "" || rest[0] == '/')
    ensures FirstSlash(x + rest) == |x|
  {
    assert (x + rest)[..|x|] == x;
  }

  /** One step of a pattern that has no double star in front. */
  lemma GlobStep(p: string, s: string)
    requires p != "" ==> !NextToken(p).Deep? && !NextToken(p).Slashed?
    ensures Glob(p, s, false) <==>
              if p == "" then s == ""
              else if NextToken(p).Star? then Glob(p[1..], s, false) || (s != "" && s[0] != '/' && Glob(p, s[1..], false))
              else s != "" && Consumes(NextToken(p), s[0]) && Glob(p[1..], s[1..], false)
  {
  }

  predicate Consumes(t: Token, c: char) {
    match t
    case Question => c != '/'
    case Literal(l) => c == l
    case _ => false
  }

  lemma FirstTokenOf(p: string, q: string)
    requires p != "" && '/' !in p && !HasDoubleStar(p) && (q == "" || q[0] == '/')
    ensures NextToken(p + q) == NextToken(p) && !NextToken(p).Deep? && !NextToken(p).Slashed? && p[0] != '/'
    ensures (p + q)[1..] == p[1..] + q && '/' !in p[1..] && !HasDoubleStar(p[1..])
  {
    if |p| > 1 { assert !(p[0] == '*' && p[1] == '*'); }
  }

  /** A pattern segment and what follows it match on either side of the first slash. */
  lemma {:induction false} SegmentSplits(p: string, q: string, s: string)
    requires '/' !in p && !HasDoubleStar(p) && (q == "" || q[0] == '/')
    ensures
      var j := FirstSlash(s);
      Glob(p + q, s, false) <==> Glob(p, s[..j], false) && Glob(q, s[j..], false)
    decreases |p|, |s|
  {
    hide Glob, HasDoubleStar;
    var j := FirstSlash(s);
    if p == "" {
      assert p + q == q && s[0..] == s;
      GlobStep(p, s[..j]);
      GlobStep(q, s);
    } else {
      FirstTokenOf(p, q);
      GlobStep(p, s[..j]);
      GlobStep(p + q, s);
      var past := s != "" && s[0] != '/';
      if past {
        assert s[..j][1..] == s[1..][..j - 1] && s[j..] == s[1..][j - 1..];
        SegmentSplits(p[1..], q, s[1..]);
      }
      if NextToken(p) == Star {
        SegmentSplits(p[1..], q, s);
        if past { SegmentSplits(p, q, s[1..]); }
      }
    }
  }

  lemma {:induction false} DeepMatchesEverything(s: string)
    ensures Glob("**", s, false)
    decreases |s|
  {
    assert "**"[2..] == "";
    if s != "" { DeepMatchesEverything(s[1..]); }
  }

  // ---- a directory wildcard drops a number of leading segments ----------------------------------

  lemma {:induction false} SlashOfSegment(ss: seq<string>, n: nat) returns (k: nat)
    requires CleanPath(ss) && 1 <= n < |ss|
    ensures 1 <= k < |Join(ss)| && Join(ss)[k] == '/' && Join(ss)[k + 1..] == Join(ss[n..])
    decreases n
  {
    var head, tail := ss[0], ss[1..];
    assert head in ss;
    if n == 1 {
      k := |head|;
      assert Join(ss) == head + "/" + Join(tail);
    } else {
      var m := SlashOfSegment(tail, n - 1);
      k := |head| + 1 + m;
      assert Join(ss)[k] == Join(tail)[m];
      assert Join(ss)[k + 1..] == Join(tail)[m + 1..];
      assert tail[n - 1..] == ss[n..];
    }
  }

  lemma {:induction false} SegmentOfSlash(ss: seq<string>, k: nat) returns (n: nat)
    requires CleanPath(ss) && k < |Join(ss)| && Join(ss)[k] == '/'
    ensures 1 <= n < |ss| && Join(ss)[k + 1..] == Join(ss[n..])
    decreases |ss|
  {
    var head, tail := ss[0], ss[1..];
    assert head in ss;
    if |ss| == 1 {
      assert false;
    } else {
      assert Join(ss) == head + "/" + Join(tail);
      if k < |head| {
        assert false;
      } else if k == |head| {
        n := 1;
      } else {
        var m := SegmentOfSlash(tail, k - |head| - 1);
        n := m + 1;
        assert tail[m..] == ss[n..];
        assert Join(ss)[k + 1..] == Join(tail)[k - |head| - 1 + 1..];
      }
    }
  }

  lemma WildcardDropsSegments(q: string, ss: seq<string>)
    requires CleanPath(ss)
    ensures Glob("**/" + q, Join(ss), false) <==> exists n | 0 <= n < |ss| :: Glob(q, Join(ss[n..]), false)
  {
    var p, s := "**/" + q, Join(ss);
    assert p[3..] == q && NextToken(p) == Slashed;
    assert ss[0..] == ss;
    forall k | 1 <= k < |s| && BelowSlash(q, s, k, false)
      ensures exists n | 0 <= n < |ss| :: Glob(q, Join(ss[n..]), false)
    {
      var n := SegmentOfSlash(ss, k);
      assert Glob(q, Join(ss[n..]), false);
    }
    forall n | 1 <= n < |ss| && Glob(q, Join(ss[n..]), false)
      ensures Glob(p, s, false)
    {
      var k := SlashOfSegment(ss, n);
      assert BelowSlash(q, s, k, false);
    }
  }

  // ---- the theorem --------------------------------------------------------------------------------

  lemma {:induction false} NothingMatchesNothing(ps: seq<string>)
    requires ps != []
    ensures !SegmentsMatch(ps, [])
    decreases |ps|
  {
    if ps[0] == "**" && |ps| > 1 { NothingMatchesNothing(ps[1..]); }
  }

  lemma {:induction false} GlobIsSegmentwise(ps: seq<string>, ss: seq<string>)
    requires CleanPattern(ps) && CleanPath(ss)
    ensures Glob(Join(ps), Join(ss), false) <==> SegmentsMatch(ps, ss)
    decreases |ps|
  {
    var rest := ps[1..];
    if ps[0] == "**" {
      if rest == [] {
        DeepMatchesEverything(Join(ss));
      } else {
        assert "**" + "/" + Join(rest) == "**/" + Join(rest);
        WildcardDropsSegments(Join(rest), ss);
        forall n | 0 <= n < |ss|
          ensures Glob(Join(rest), Join(ss[n..]), false) <==> SegmentsMatch(rest, ss[n..])
        {
          GlobIsSegmentwise(rest, ss[n..]);
        }
        assert ss[|ss|..] == [];
        NothingMatchesNothing(rest);
      }
    } else {
      PlainSegment(ps, ss);
      TailsMatch(ps, ss);
      if rest != [] && |ss| > 1 {
        GlobIsSegmentwise(rest, ss[1..]);
      } else if rest != [] {
        NothingMatchesNothing(rest);
      }
    }
  }

  /** What follows the first segment, with its slash. */
  function Tail(xs: seq<string>): string {
    if |xs| <= 1 then "" else "/" + Join(xs[1..])
  }

  lemma TailsMatch(ps: seq<string>, ss: seq<string>)
    requires ps != [] && ss != []
    ensures Glob(Tail(ps), Tail(ss), false) <==>
              if |ps| == 1 || |ss| == 1 then |ps| == 1 && |ss| == 1 else Glob(Join(ps[1..]), Join(ss[1..]), false)
  {
    if |ps| > 1 {
      assert Tail(ps)[1..] == Join(ps[1..]) && NextToken(Tail(ps)) == Literal('/');
      if |ss| > 1 { assert Tail(ss)[1..] == Join(ss[1..]); }
    }
  }

  /** A pattern that starts with a plain segment. */
  lemma JoinSplits(xs: seq<string>)
    requires xs != []
    ensures Join(xs) == xs[0] + Tail(xs) && (Tail(xs) == "" || Tail(xs)[0] == '/')
  {
  }

  lemma PlainSegment(ps: seq<string>, ss: seq<string>)
    requires CleanPattern(ps) && CleanPath(ss) && ps[0] != "**"
    ensures Glob(Join(ps), Join(ss), false) <==> Glob(ps[0], ss[0], false) && Glob(Tail(ps), Tail(ss), false)
  {
    hide Glob, Join, Tail, FirstSlash;
    var p, x, r := ps[0], ss[0], Tail(ss);
    assert p in ps && x in ss;
    JoinSplits(ps);
    JoinSplits(ss);
    FirstSlashOf(x, r);
    SegmentSplits(p, Tail(ps), x + r);
    assert (x + r)[..|x|] == x && (x + r)[|x|..] == r;
  }

  lemma {:induction false} JoinFacts(xs: seq<string>)
    requires CleanPath(xs)
    ensures '\\' !in Join(xs) && '\n' !in Join(xs)
    ensures "**" in xs ==> HasDoubleStar(Join(xs))
    decreases |xs|
  {
    assert xs[0] in xs;
    if |xs| > 1 {
      JoinFacts(xs[1..]);
      assert Join(xs) == xs[0] + "/" + Join(xs[1..]);
      if "**" in xs && xs[0] != "**" {
        var rest := Join(xs[1..]);
        var i :| 0 <= i < |rest| - 1 && rest[i] == '*' && rest[i + 1] == '*';
        var at := |xs[0]| + 1 + i;
        assert Join(xs)[at] == '*' && Join(xs)[at + 1] == '*';
      } else if "**" in xs {
        assert Join(xs)[0] == '*' && Join(xs)[0 + 1] == '*';
      }
    } else if "**" in xs {
      assert Join(xs)[0] == '*' && Join(xs)[0 + 1] == '*';
    }
  }

  /** Main result: the compiled matcher implements the documented, segment-wise meaning. */
  lemma MatchesGlobIsSegmentwise(ps: seq<string>, ss: seq<string>, fnmatch: (string, string) -> bool)
    requires CleanPattern(ps) && CleanPath(ss) && "**" in ps
    ensures MatchesGlob(Join(ss), Join(ps), fnmatch) == Some(SegmentsMatch(ps, ss))
  {
    JoinFacts(ps);
    JoinFacts(ss);
    assert Slashes(Join(ps)) == Join(ps) && Slashes(Join(ss)) == Join(ss);
    MatchesGlobIsGlob(Join(ss), Join(ps), fnmatch);
    GlobIsSegmentwise(ps, ss);
  }

  // ---- the documentation's reading of a final `**` ------------------------------------------------

  /** `**` stands for zero or more components wherever it is, as the module's documentation says. */
  ghost predicate Documented(ps: seq<string>, ss: seq<string>)
    decreases |ps|
  {
    if ps == [] then ss == []
    else if ps[0] != "**" then ss != [] && Glob(ps[0], ss[0], false) && Documented(ps[1..], ss[1..])
    else exists n | 0 <= n <= |ss| :: Documented(ps[1..], ss[n..])
  }

  /** How many segments of a path the pattern needs at least. */
  function Needs(ps: seq<string>): nat {
    if ps == [] then 0
    else if ps[0] != "**" then 1 + Needs(ps[1..])
    else if |ps| == 1 then 1
    else Needs(ps[1..])
  }

  lemma {:induction false} MatchesNeed(ps: seq<string>, ss: seq<string>)
    requires SegmentsMatch(ps, ss)
    ensures |ss| >= Needs(ps)
    decreases |ps|
  {
    if ps != [] && ps[0] != "**" {
      MatchesNeed(ps[1..], ss[1..]);
    } else if |ps| > 1 {
      var n :| 0 <= n <= |ss| && SegmentsMatch(ps[1..], ss[n..]);
      MatchesNeed(ps[1..], ss[n..]);
    }
  }

  /** The wildcards of one segment, each filled in with one letter. */
  function Filled(p: string): string {
    if p == "" then "" else [if p[0] == '*' || p[0] == '?' then 'x' else p[0]] + Filled(p[1..])
  }

  lemma {:induction false} FilledMatches(p: string)
    requires '/' !in p && !HasDoubleStar(p)
    ensures Glob(p, Filled(p), false)
    decreases |p|
  {
    if p != "" {
      FilledMatches(p[1..]);
      assert Filled(p)[1..] == Filled(p[1..]);
      if |p| > 1 { assert !(p[0] == '*' && p[0 + 1] == '*'); }
    }
  }

  lemma {:induction false} FilledIsClean(p: string)
    requires '/' !in p && '\\' !in p && '\n' !in p
    ensures '/' !in Filled(p) && '\\' !in Filled(p) && '\n' !in Filled(p) && |Filled(p)| == |p|
  {
    if p != "" { FilledIsClean(p[1..]); }
  }

  /** One filled-in segment for every plain segment; the wildcards stand for nothing. */
  function Shortest(ps: seq<string>): seq<string> {
    if ps == [] then [] else (if ps[0] == "**" then [] else [Filled(ps[0])]) + Shortest(ps[1..])
  }

  lemma {:induction false} ShortestIsDocumented(ps: seq<string>)
    requires forall p | p in ps :: Clean(p) && (p == "**" || !HasDoubleStar(p))
    ensures Documented(ps, Shortest(ps))
    ensures forall x | x in Shortest(ps) :: Clean(x)
    decreases |ps|
  {
    if ps != [] {
      ShortestIsDocumented(ps[1..]);
      assert ps[0] in ps;
      if ps[0] == "**" {
        assert Shortest(ps)[0..] == Shortest(ps[1..]);
      } else {
        FilledMatches(ps[0]);
        FilledIsClean(ps[0]);
        assert Shortest(ps)[1..] == Shortest(ps[1..]);
      }
    }
  }

  lemma {:induction false} ShortestIsTooShort(ps: seq<string>)
    requires ps != [] && ps[|ps| - 1] == "**"
    ensures |Shortest(ps)| + 1 == Needs(ps)
    decreases |ps|
  {
    if |ps| > 1 { ShortestIsTooShort(ps[1..]); }
  }

  lemma {:induction false} AgreeWithoutFinalDeep(ps: seq<string>, ss: seq<string>)
    requires ps != [] && ps[|ps| - 1] != "**"
    ensures SegmentsMatch(ps, ss) <==> Documented(ps, ss)
    decreases |ps|
  {
    if |ps| > 1 {
      forall n | 0 <= n <= |ss| { AgreeWithoutFinalDeep(ps[1..], ss[n..]); }
      if ss != [] { AgreeWithoutFinalDeep(ps[1..], ss[1..]); }
    } else if ss != [] {
      assert ps[1..] == [];
    }
  }

  lemma {:induction false} OnlyDeepMatchesAll(ps: seq<string>, ss: seq<string>)
    requires ps != [] && (forall p | p in ps :: p == "**") && ss != []
    ensures SegmentsMatch(ps, ss) && Documented(ps, ss)
    decreases |ps|
  {
    assert ps[0] in ps;
    assert ss[0..] == ss && ss[|ss|..] == [];
    if |ps| > 1 {
      forall p | p in ps[1..] ensures p == "**" { assert p in ps; }
      OnlyDeepMatchesAll(ps[1..], ss);
    } else {
      assert Documented(ps[1..], ss[|ss|..]);
    }
  }

  /**
   Exactly when the documented reading is right for every path: unless a plain segment is
   followed by a final `**`. Such a pattern rejects the directory itself.
   */
  lemma DocumentedExactlyWhen(ps: seq<string>)
    requires CleanPattern(ps)
    ensures (forall ss | CleanPath(ss) :: SegmentsMatch(ps, ss) <==> Documented(ps, ss))
            <==> (ps[|ps| - 1] != "**" || forall p | p in ps :: p == "**")
  {
    if ps[|ps| - 1] != "**" {
      forall ss | CleanPath(ss) { AgreeWithoutFinalDeep(ps, ss); }
    } else if forall p | p in ps :: p == "**" {
      forall ss | CleanPath(ss) { OnlyDeepMatchesAll(ps, ss); }
    } else {
      var ss := Shortest(ps);
      ShortestIsDocumented(ps);
      ShortestIsTooShort(ps);
      if SegmentsMatch(ps, ss) { MatchesNeed(ps, ss); }
      ShortestIsNotEmpty(ps);
      assert CleanPath(ss) && Documented(ps, ss) && !SegmentsMatch(ps, ss);
    }
  }

  lemma {:induction false} ShortestIsNotEmpty(ps: seq<string>)
    requires exists p | p in ps :: p != "**"
    ensures Shortest(ps) != []
  {
    if ps[0] == "**" {
      var p :| p in ps && p != "**";
      assert ps == [ps[0]] + ps[1..];
      assert p in ps[1..];
      ShortestIsNotEmpty(ps[1..]);
    }
  }
}
