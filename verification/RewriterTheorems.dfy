/**
 The two rewriters never fight: on a text with well-formed markers one leaves every block alone,
 the other leaves everything else alone, either order gives one result, and that result is settled.
 */
module RewriterTheorems {
  import opened Search
  import opened Wrappers
  import opened MarkerText
  import opened MarkerDocs
  import SurfaceSync

  // ---- what the rewriters do to the parts -----------------------------------------------------------

  /** One pattern on a text without blocks. */
  function Run(t: Text, before: bool, p: Pattern): (r: Text)
    ensures |r| == |t|
  {
    Pass(t, Repeat(false, |t|), before, p)
  }

  function RunOutside(d: Doc, p: Pattern): Doc {
    match d
    case Last(outside) => Last(Run(outside, false, p))
    case Block(outside, name, inside, rest) => Block(Run(outside, false, p), name, inside, RunOutside(rest, p))
  }

  function SyncOutside(d: Doc, entries: seq<Entry>): Doc {
    if entries == [] then d
    else
      var before, last := SyncOutside(d, entries[..|entries| - 1]), entries[|entries| - 1];
      if last.active then RunOutside(before, last.pattern) else before
  }

  /** The inside of the first block of this name. */
  function SetInside(d: Doc, name: Text, inside: Text): Doc {
    match d
    case Last(_) => d
    case Block(outside, n, before, rest) =>
      if n == name then Block(outside, n, inside, rest) else Block(outside, n, before, SetInside(rest, name, inside))
  }

  predicate HasBlock(d: Doc, name: Text) {
    d.Block? && (d.name == name || HasBlock(d.rest, name))
  }

  function SetBlocks(d: Doc, blocks: seq<NamedBody>): Doc {
    if blocks == [] then d
    else
      var last := blocks[|blocks| - 1];
      SetInside(SetBlocks(d, blocks[..|blocks| - 1]), last.name, Framed(last.body))
  }

  // ---- a pass over a rendered document ------------------------------------------------------------------

  ghost predicate TextStartsAngle(t: Text) {
    t == [] || t[0] == Ch('<')
  }

  function Behind(t: Text, before: bool): bool {
    if t == [] then before else Word(t[|t| - 1])
  }

  lemma MatchesAppend(t: Text, tail: Text, before: bool, p: Pattern)
    requires t != [] && TextStartsAngle(tail) && Plain(p)
    ensures MatchesAt(t + tail, before, p) == MatchesAt(t, before, p)
  {
    var n := |p.items|;
    if tail != [] { assert (t + tail)[|t|] == Ch('<'); }
    if |t| < n <= |t + tail| {
      assert !Accepts(p.items[|t|], (t + tail)[|t|]);
    }
  }

  lemma AppendSlices<T>(a: seq<T>, b: seq<T>, n: nat)
    requires n <= |a|
    ensures (a + b)[n..] == a[n..] + b && (a + b)[..n] == a[..n]
  {
  }

  lemma FlagSlices(flag: bool, k: nat, m: seq<bool>, n: nat)
    requires n <= k
    ensures (Repeat(flag, k) + m)[n..] == Repeat(flag, k - n) + m
    ensures Repeat(flag, k)[n..] == Repeat(flag, k - n)
  {
  }

  lemma PassUnfolds(t: Text, mask: seq<bool>, before: bool, p: Pattern, n: nat, rest: Text, restMask: seq<bool>)
    requires t != [] && |mask| == |t| && n == Width(t, before, p) && t[n..] == rest && mask[n..] == restMask
    ensures Pass(t, mask, before, p) == Head(t, mask[0], before, p) + Pass(rest, restMask, Word(t[n - 1]), p)
  {
  }

  /** A pass over `a + b`, when its first step stays in `a`. */
  lemma PassSplit(a: Text, b: Text, flag: bool, m: seq<bool>, before: bool, p: Pattern, n: nat)
    requires a != [] && |m| == |b| && n == Width(a + b, before, p) <= |a|
    ensures Pass(a + b, Repeat(flag, |a|) + m, before, p) ==
            Head(a + b, flag, before, p) + Pass(a[n..] + b, Repeat(flag, |a| - n) + m, Word(a[n - 1]), p)
  {
    AppendSlices(a, b, n);
    FlagSlices(flag, |a|, m, n);
    assert (a + b)[n - 1] == a[n - 1] && (Repeat(flag, |a|) + m)[0] == flag;
    PassUnfolds(a + b, Repeat(flag, |a|) + m, before, p, n, a[n..] + b, Repeat(flag, |a| - n) + m);
  }

  lemma RunStep(o: Text, before: bool, p: Pattern, n: nat)
    requires o != [] && n == Width(o, before, p)
    ensures Run(o, before, p) == Head(o, false, before, p) + Run(o[n..], Word(o[n - 1]), p)
    ensures Behind(o[n..], Word(o[n - 1])) == Behind(o, before)
  {
    FlagSlices(false, |o|, [], n);
    assert Repeat(false, |o|)[0] == false;
  }

  lemma {:induction false} PassOutside(o: Text, tail: Text, m: seq<bool>, before: bool, p: Pattern)
    requires TextStartsAngle(tail) && Plain(p) && |m| == |tail|
    ensures Pass(o + tail, Repeat(false, |o|) + m, before, p) == Run(o, before, p) + Pass(tail, m, Behind(o, before), p)
    decreases |o|
  {
    if o == [] {
      assert o + tail == tail && Repeat(false, 0) + m == m;
      assert Run(o, before, p) == [];
    } else {
      MatchesAppend(o, tail, before, p);
      var n := Width(o, before, p);
      AppendSlices(o, tail, n);
      PassSplit(o, tail, false, m, before, p, n);
      RunStep(o, before, p, n);
      PassOutside(o[n..], tail, m, Word(o[n - 1]), p);
      Associate(Head(o, false, before, p), Run(o[n..], Word(o[n - 1]), p), Pass(tail, m, Behind(o, before), p));
    }
  }

  lemma MatchStaysInside(b: Text, tail: Text, before: bool, p: Pattern)
    requires b != [] && b[|b| - 1] == Ch('>') && Plain(p) && MatchesAt(b + tail, before, p)
    ensures |p.items| < |b|
  {
    var last := |b| - 1;
    assert (b + tail)[last] == Ch('>');
    assert last < |p.items| ==> Accepts(p.items[last], (b + tail)[last]);
  }

  lemma Halves(b: Text, n: nat)
    requires n <= |b|
    ensures b[..n] + b[n..] == b && |b[n..]| == |b| - n
    ensures n < |b| ==> b[n..][|b| - n - 1] == b[|b| - 1]
  {
  }

  lemma NothingLeft(b: Text, tail: Text, m: seq<bool>)
    requires b == []
    ensures b + tail == tail && Repeat(true, 0) + m == m
  {
  }

  /** The first step of a pass over a block stays in the block and changes nothing. */
  lemma BlockStep(b: Text, tail: Text, m: seq<bool>, before: bool, p: Pattern) returns (n: nat)
    requires b != [] && b[|b| - 1] == Ch('>') && Plain(p) && |m| == |tail|
    ensures 0 < n <= |b|
    ensures Pass(b + tail, Repeat(true, |b|) + m, before, p) ==
            b[..n] + Pass(b[n..] + tail, Repeat(true, |b| - n) + m, Word(b[n - 1]), p)
  {
    if MatchesAt(b + tail, before, p) { MatchStaysInside(b, tail, before, p); }
    n := Width(b + tail, before, p);
    AppendSlices(b, tail, n);
    PassSplit(b, tail, true, m, before, p, n);
  }

  lemma {:induction false} PassBlock(b: Text, tail: Text, m: seq<bool>, before: bool, p: Pattern)
    requires b != [] && b[|b| - 1] == Ch('>') && Plain(p) && |m| == |tail|
    ensures Pass(b + tail, Repeat(true, |b|) + m, before, p) == b + Pass(tail, m, false, p)
    decreases |b|
  {
    hide Pass;
    var n := BlockStep(b, tail, m, before, p);
    Halves(b, n);
    if n < |b| {
      PassBlock(b[n..], tail, m, Word(b[n - 1]), p);
      Associate(b[..n], b[n..], Pass(tail, m, false, p));
    } else {
      BlockPassed(b, tail, m, n, p);
    }
  }

  lemma BlockPassed(b: Text, tail: Text, m: seq<bool>, n: nat, p: Pattern)
    requires b != [] && b[|b| - 1] == Ch('>') && |m| == |tail| && n == |b|
    ensures b[..n] + Pass(b[n..] + tail, Repeat(true, |b| - n) + m, Word(b[n - 1]), p) == b + Pass(tail, m, false, p)
  {
    NothingLeft(b[n..], tail, m);
    WholeText(b);
    SamePass(b[n..] + tail, tail, Repeat(true, |b| - n) + m, m, p);
  }

  lemma WholeText(b: Text)
    ensures b[..|b|] == b && b[|b|..] == []
  {
  }

  lemma SamePass(t: Text, u: Text, m: seq<bool>, n: seq<bool>, p: Pattern)
    requires t == u && m == n && |m| == |t|
    ensures Pass(t, m, false, p) == Pass(u, n, false, p)
  {
  }

  lemma {:induction false} PassOfDoc(d: Doc, p: Pattern)
    requires Plain(p)
    ensures Pass(Render(d), DocMask(d), false, p) == Render(RunOutside(d, p))
  {
    match d
    case Last(o) =>
    case Block(o, name, inside, rest) =>
      var b, tail := BlockText(name, inside), Render(rest);
      PassOfDoc(rest, p);
      assert (b + tail)[0] == Ch('<');
      PassOutside(o, b + tail, Repeat(true, |b|) + DocMask(rest), false, p);
      assert b[|b| - 1] == Ch('>');
      PassBlock(b, tail, DocMask(rest), Behind(o, false), p);
  }

  // ---- replacing a block of a rendered document -------------------------------------------------------

  /** Where no marker opens, no marker of any name stands. */
  lemma NoMarkerHere(lead: string, side: Side, name: Text, t: Text, k: nat)
    requires lead == Lead(side) && OpenEnd(Skeleton(t), k, side).None?
    ensures !Sits(Chars(lead) + name + Chars(" -->"), t, k)
  {
    var marker := Chars(lead) + name + Chars(" -->");
    if Sits(marker, t, k) {
      forall j | 0 <= j < |lead| ensures Skeleton(t)[k + j] == lead[j] {
        assert marker[j] == Ch(lead[j]) && t[k + j] == marker[j];
      }
      MarkerOpens(Skeleton(t), k, side);
      assert false;
    }
  }

  lemma NoAngleNoOpening(s: string, k: nat, side: Side)
    requires k < |s| && s[k] != '<'
    ensures OpenEnd(s, k, side).None?
  {
  }

  lemma EndIsNotBegin(s: string, i: nat)
    requires Sits(Lead(END), s, i)
    ensures OpenEnd(s, i, BEGIN).None?
  {
    SitsFirst(Lead(END), s, i);
    var five := 5;
    assert s[i + five] == Lead(END)[five] == 'E';
    assert Keyword(BEGIN)[0] == 'B';
    assert KeywordEnd(s, i + 5, BEGIN).None?;
  }

  /** Inside a well-formed block no other block begins. */
  lemma NoBeginInBlock(s: string, i: nat, name: string, inside: string, k: nat)
    requires BlockAt(s, i, name, inside) && NoMarkers(inside) && forall j | 0 <= j < |name| :: name[j] != '<'
    requires i < k < i + BlockSize(|name|, |inside|)
    ensures OpenEnd(s, k, BEGIN).None?
  {
    var a := i + |Lead(BEGIN)| + |name| + 4;
    var b := a + |inside|;
    if k < a {
      NoAngleInMarker(s, i, BEGIN, name, k);
      NoAngleNoOpening(s, k, BEGIN);
    } else if k < b {
      SitsFirst(Lead(END), s, b);
      OpenIsLocal(inside, s, a, k - a, BEGIN);
    } else if k == b {
      EndIsNotBegin(s, b);
    } else {
      NoAngleInMarker(s, b, END, name, k);
      NoAngleNoOpening(s, k, BEGIN);
    }
  }

  lemma NoAngleInMarker(s: string, i: nat, side: Side, name: string, k: nat)
    requires MarkerAt(s, i, side, name) && forall j | 0 <= j < |name| :: name[j] != '<'
    requires i < k < i + |Lead(side)| + |name| + 4
    ensures k < |s| && s[k] != '<'
  {
    var n := |Lead(side)|;
    assert forall j | 1 <= j < n :: Lead(side)[j] != '<';
    if k < i + n {
      assert s[i + (k - i)] == Lead(side)[k - i];
    } else if k < i + n + |name| {
      assert s[i + n + (k - i - n)] == name[k - i - n];
    } else {
      var close := " -->";
      assert s[i + n + |name| + (k - i - n - |name|)] == close[k - i - n - |name|];
    }
  }

  /** Two begin markers at one place have one name. */
  lemma SameName(a: Text, b: Text, t: Text, i: nat)
    requires PlainName(a) && PlainName(b) && Sits(BeginMarker(a), t, i) && Sits(BeginMarker(b), t, i)
    ensures a == b
  {
    NameStands(a, t, i);
    NameStands(b, t, i);
    var n := |Lead(BEGIN)|;
    forall j | 0 <= j < |a| && j < |b| ensures a[j] == b[j] {}
    if |a| < |b| {
      ShorterName(|a|, b, t, i + n);
      assert false;
    }
    if |b| < |a| {
      ShorterName(|b|, a, t, i + n);
      assert false;
    }
  }

  lemma NameStands(name: Text, t: Text, i: nat)
    requires Sits(BeginMarker(name), t, i)
    ensures
      var j := i + |Lead(BEGIN)|;
      Sits(name, t, j) && Sits(Chars(" -->"), t, j + |name|) && t[j + |name| + 3] == Ch('>')
  {
    var m, n := BeginMarker(name), |Lead(BEGIN)|;
    forall j | 0 <= j < |name| ensures t[i + n + j] == name[j] {
      assert t[i + (n + j)] == m[n + j];
    }
    forall j | 0 <= j < 4 ensures t[i + n + |name| + j] == Chars(" -->")[j] {
      assert t[i + (n + |name| + j)] == m[n + |name| + j];
    }
    var three := 3;
    assert t[i + n + |name| + three] == Chars(" -->")[three];
  }

  lemma ShorterName(a: nat, b: Text, t: Text, i: nat)
    requires PlainName(b) && a < |b| && Sits(b, t, i) && Sits(Chars(" -->"), t, i + |b|)
    ensures i + a + 3 < |t| && t[i + a + 3] != Ch('>')
  {
    var k := a + 3;
    if k < |b| {
      assert t[i + k] == b[k];
    } else {
      assert t[i + |b| + (k - |b|)] == Chars(" -->")[k - |b|];
    }
  }

  /** Searching for a begin marker passes over a text without markers. */
  lemma FindPastText(o: Text, t: Text, i: nat, name: Text)
    requires NoMarker(o) && Sits(o, t, i) && AngleAt(Skeleton(t), i + |o|)
    ensures Find(t, BeginMarker(name), i) == Find(t, BeginMarker(name), i + |o|)
  {
    hide OpenEnd, Skeleton;
    SkeletonStands(o, t, i);
    forall k: nat | i <= k < i + |o| ensures !Sits(BeginMarker(name), t, k) {
      OpenIsLocal(Skeleton(o), Skeleton(t), i, k - i, BEGIN);
      NoBeginMarker(name, t, k);
    }
    FindSkips(t, BeginMarker(name), i, i + |o|);
  }

  lemma NoOtherBegin(n: Text, inside: Text, t: Text, j: nat, name: Text, k: nat)
    requires PlainName(n) && NoMarker(inside) && PlainName(name) && n != name
    requires Sits(BeginMarker(n), t, j) && BlockAt(Skeleton(t), j, Skeleton(n), Skeleton(inside))
    requires j <= k < j + BlockSize(|n|, |inside|)
    ensures !Sits(BeginMarker(name), t, k)
  {
    if k == j {
      if Sits(BeginMarker(name), t, j) { SameName(n, name, t, j); }
    } else {
      NoBeginInBlock(Skeleton(t), j, Skeleton(n), Skeleton(inside), k);
      NoBeginMarker(name, t, k);
    }
  }

  lemma FindHere(n: Text, t: Text, j: nat)
    requires Sits(BeginMarker(n), t, j)
    ensures Find(t, BeginMarker(n), j) == Some(j)
  {
  }

  lemma NoBeginMarker(name: Text, t: Text, k: nat)
    requires OpenEnd(Skeleton(t), k, BEGIN).None?
    ensures !Sits(BeginMarker(name), t, k)
  {
    NoMarkerHere(Lead(BEGIN), BEGIN, name, t, k);
    LeadText(BEGIN);
  }

  lemma NoEndMarker(name: Text, t: Text, k: nat)
    requires OpenEnd(Skeleton(t), k, END).None?
    ensures !Sits(EndMarker(name), t, k)
  {
    NoMarkerHere(Lead(END), END, name, t, k);
    LeadText(END);
  }

  lemma SkeletonStands(a: Text, t: Text, i: nat)
    requires Sits(a, t, i)
    ensures Sits(Skeleton(a), Skeleton(t), i)
  {
    forall k | 0 <= k < |a| ensures Skeleton(t)[i + k] == Skeleton(a)[k] {
      assert t[i + k] == a[k];
    }
  }

  lemma TextSplit(a: Text, b: Text, t: Text, i: nat)
    requires Sits(a + b, t, i)
    ensures Sits(a, t, i) && Sits(b, t, i + |a|)
  {
    forall k | 0 <= k < |a| ensures t[i + k] == a[k] {
      assert t[i + k] == (a + b)[k];
    }
    forall k | 0 <= k < |b| ensures t[i + |a| + k] == b[k] {
      assert t[i + (|a| + k)] == (a + b)[|a| + k];
    }
  }

  /** The markers of a block, and what is between and behind them. */
  lemma BeginStands(o: Text, n: Text, inside: Text, rest: Text, t: Text, i: nat)
    requires Sits(o + (BlockText(n, inside) + rest), t, i)
    ensures
      var j := i + |o|;
      && Sits(o, t, i) && Sits(BeginMarker(n), t, j) && Sits(inside, t, j + |BeginMarker(n)|)
      && Sits(EndMarker(n), t, j + |BeginMarker(n)| + |inside|) && Sits(rest, t, j + |BlockText(n, inside)|)
  {
    var j := i + |o|;
    TextSplit(o, BlockText(n, inside) + rest, t, i);
    TextSplit(BlockText(n, inside), rest, t, j);
    TextSplit(BeginMarker(n) + inside, EndMarker(n), t, j);
    TextSplit(BeginMarker(n), inside, t, j);
  }

  /** The end marker of a block is the first one behind its begin marker. */
  lemma FindEnd(inside: Text, n: Text, t: Text, a: nat)
    requires NoMarker(inside) && Sits(inside, t, a) && Sits(EndMarker(n), t, a + |inside|)
    ensures Find(t, EndMarker(n), a) == Some(a + |inside|)
  {
    var s, b := Skeleton(t), a + |inside|;
    SkeletonStands(inside, t, a);
    SkeletonStands(EndMarker(n), t, b);
    LeadText(END);
    MarkerStands(Lead(END), n, s, b);
    SitsFirst(Lead(END), s, b);
    forall k: nat | a <= k < b ensures !Sits(EndMarker(n), t, k) {
      OpenIsLocal(Skeleton(inside), s, a, k - a, END);
      NoEndMarker(n, t, k);
    }
    FindSkips(t, EndMarker(n), a, b);
  }

  lemma NotBehindTheEnd(name: Text, t: Text)
    ensures Find(t, BeginMarker(name), |t|).None?
  {
  }

  lemma SameFind(t: Text, i: nat, j: nat, begin: Text, end: Text, body: Text)
    requires Find(t, begin, i) == Find(t, begin, j)
    ensures ReplaceBetween(t, i, begin, end, body) == ReplaceBetween(t, j, begin, end, body)
  {
  }

  /** The markers stand where they should, and nothing earlier looks like them. */
  ghost predicate Delimited(t: Text, i: nat, begin: Text, inside: nat, end: Text) {
    && Find(t, begin, i) == Some(i) && Sits(begin, t, i)
    && Find(t, end, i + |begin|) == Some(i + |begin| + inside) && Sits(end, t, i + |begin| + inside)
  }

  lemma ReplaceFound(o: Text, begin: Text, inside: Text, end: Text, rest: Text, t: Text, i: nat, body: Text)
    requires i + |o| + |begin| + |inside| + |end| + |rest| == |t|
    requires Sits(o, t, i) && Delimited(t, i + |o|, begin, |inside|, end)
    requires Sits(rest, t, i + |o| + |begin| + |inside| + |end|)
    ensures ReplaceBetween(t, i + |o|, begin, end, body) == (t[..i] + (o + ((begin + Framed(body) + end) + rest)), true)
  {
    Spliced(o, begin, inside, end, rest, t, i, Framed(body));
  }

  lemma DelimitedBlock(o: Text, n: Text, inside: Text, rest: Text, t: Text, i: nat)
    requires NoMarker(inside) && Sits(o + (BlockText(n, inside) + rest), t, i)
    ensures Delimited(t, i + |o|, BeginMarker(n), |inside|, EndMarker(n))
    ensures Sits(o, t, i) && Sits(rest, t, i + |o| + |BeginMarker(n)| + |inside| + |EndMarker(n)|)
  {
    hide Sits;
    var j := i + |o|;
    BeginStands(o, n, inside, rest, t, i);
    FindHere(n, t, j);
    FindEnd(inside, n, t, j + |BeginMarker(n)|);
  }

  lemma ReplaceHere(o: Text, n: Text, inside: Text, rest: Text, t: Text, i: nat, body: Text)
    requires NoMarker(inside) && i + |o| + |BlockText(n, inside)| + |rest| == |t|
    requires Sits(o + (BlockText(n, inside) + rest), t, i)
    ensures ReplaceFrom(t, i + |o|, n, body) == (t[..i] + (o + (BlockText(n, Framed(body)) + rest)), true)
  {
    DelimitedBlock(o, n, inside, rest, t, i);
    ReplaceFound(o, BeginMarker(n), inside, EndMarker(n), rest, t, i, body);
  }

  /** Where the parts of a block stand, in the text and in its skeleton. */
  lemma PartsFound(o: Text, n: Text, inside: Text, rest: Text, t: Text, i: nat)
    requires i + |o| + |BlockText(n, inside)| + |rest| == |t| && Sits(o + (BlockText(n, inside) + rest), t, i)
    ensures
      var j := i + |o|;
      && Sits(o, t, i) && AngleAt(Skeleton(t), j)
      && Sits(BeginMarker(n), t, j) && BlockAt(Skeleton(t), j, Skeleton(n), Skeleton(inside))
      && |BlockText(n, inside)| == BlockSize(|n|, |inside|)
  {
    SkeletonStands(o + (BlockText(n, inside) + rest), t, i);
    PiecesStand(o, n, inside, rest, Skeleton(t), i);
    BeginStands(o, n, inside, rest, t, i);
    SitsFirst(Lead(BEGIN), Skeleton(t), i + |o|);
  }

  lemma ReplacePastText(o: Text, t: Text, i: nat, name: Text, body: Text)
    requires NoMarker(o) && Sits(o, t, i) && AngleAt(Skeleton(t), i + |o|)
    ensures ReplaceFrom(t, i, name, body) == ReplaceFrom(t, i + |o|, name, body)
  {
    hide BeginMarker;
    FindPastText(o, t, i, name);
    SameFind(t, i, i + |o|, BeginMarker(name), EndMarker(name), body);
  }

  lemma ThisBlock(o: Text, n: Text, inside: Text, rest: Text, t: Text, i: nat, body: Text)
    requires NoMarker(o) && NoMarker(inside)
    requires i + |o| + |BlockText(n, inside)| + |rest| == |t| && Sits(o + (BlockText(n, inside) + rest), t, i)
    ensures ReplaceFrom(t, i, n, body) == (t[..i] + (o + (BlockText(n, Framed(body)) + rest)), true)
  {
    PartsFound(o, n, inside, rest, t, i);
    ReplacePastText(o, t, i, n, body);
    ReplaceHere(o, n, inside, rest, t, i, body);
  }

  lemma FindToBlock(o: Text, n: Text, inside: Text, rest: Text, t: Text, i: nat, name: Text)
    requires NoMarker(o)
    requires i + |o| + |BlockText(n, inside)| + |rest| == |t| && Sits(o + (BlockText(n, inside) + rest), t, i)
    ensures Find(t, BeginMarker(name), i) == Find(t, BeginMarker(name), i + |o|)
  {
    PartsFound(o, n, inside, rest, t, i);
    FindPastText(o, t, i, name);
  }

  /** No other block's begin marker stands in a block. */
  lemma QuietPosition(o: Text, n: Text, inside: Text, rest: Text, t: Text, i: nat, name: Text, k: nat)
    requires PlainName(n) && NoMarker(inside) && PlainName(name) && n != name
    requires i + |o| + |BlockText(n, inside)| + |rest| == |t| && Sits(o + (BlockText(n, inside) + rest), t, i)
    requires i + |o| <= k < i + |o| + |BlockText(n, inside)|
    ensures !Sits(BeginMarker(name), t, k)
  {
    hide BeginMarker;
    PartsFound(o, n, inside, rest, t, i);
    NoOtherBegin(n, inside, t, i + |o|, name, k);
  }

  lemma FindToEnd(o: Text, n: Text, inside: Text, rest: Text, t: Text, i: nat, name: Text)
    requires PlainName(n) && NoMarker(inside) && PlainName(name) && n != name
    requires i + |o| + |BlockText(n, inside)| + |rest| == |t| && Sits(o + (BlockText(n, inside) + rest), t, i)
    ensures Find(t, BeginMarker(name), i + |o|) == Find(t, BeginMarker(name), i + |o| + |BlockText(n, inside)|)
  {
    hide Find;
    forall k: nat | i + |o| <= k < i + |o| + |BlockText(n, inside)| ensures !Sits(BeginMarker(name), t, k) {
      QuietPosition(o, n, inside, rest, t, i, name, k);
    }
    FindSkips(t, BeginMarker(name), i + |o|, i + |o| + |BlockText(n, inside)|);
  }

  lemma OtherBlock(o: Text, n: Text, inside: Text, rest: Text, t: Text, i: nat, name: Text, body: Text)
    requires NoMarker(o) && PlainName(n) && NoMarker(inside) && PlainName(name) && n != name
    requires i + |o| + |BlockText(n, inside)| + |rest| == |t| && Sits(o + (BlockText(n, inside) + rest), t, i)
    ensures ReplaceFrom(t, i, name, body) == ReplaceFrom(t, i + |o| + |BlockText(n, inside)|, name, body)
  {
    FindToBlock(o, n, inside, rest, t, i, name);
    FindToEnd(o, n, inside, rest, t, i, name);
    SameFind(t, i, i + |o| + |BlockText(n, inside)|, BeginMarker(name), EndMarker(name), body);
  }

  lemma BehindBlock(o: Text, b: Text, rest: Text, t: Text, i: nat, after: Text)
    requires Sits(o + (b + rest), t, i)
    ensures t[..i + |o| + |b|] + after == t[..i] + (o + (b + after))
  {
    TextSplit(o, b + rest, t, i);
    TextSplit(b, rest, t, i + |o|);
    Prefixed(o, b, t, i, after);
  }

  lemma NothingToReplace(o: Text, t: Text, i: nat, name: Text, body: Text)
    requires NoMarker(o) && i + |o| == |t| && Sits(o, t, i)
    ensures ReplaceFrom(t, i, name, body) == (t, false)
  {
    FindPastText(o, t, i, name);
    NotBehindTheEnd(name, t);
  }

  /** The result of a replacement in the part of `t` from `i` on. */
  ghost predicate Replaced(r: (Text, bool), before: Doc, after: Doc, t: Text, i: nat, name: Text)
    requires i <= |t|
  {
    r.1 == HasBlock(before, name) && r.0 == if r.1 then t[..i] + Render(after) else t
  }

  lemma RestStands(o: Text, b: Text, rest: Text, t: Text, i: nat)
    requires Sits(o + (b + rest), t, i)
    ensures Sits(rest, t, i + |o| + |b|)
  {
    TextSplit(o, b + rest, t, i);
    TextSplit(b, rest, t, i + |o|);
  }

  /** Exactly the inside of the first block of this name is replaced. */
  lemma {:induction false} ReplaceInDoc(d: Doc, t: Text, i: nat, name: Text, body: Text)
    requires WellFormed(d) && PlainName(name) && i + |Render(d)| == |t| && Sits(Render(d), t, i)
    ensures Replaced(ReplaceFrom(t, i, name, body), d, SetInside(d, name, Framed(body)), t, i, name)
  {
    hide ReplaceFrom;
    match d
    case Last(o) =>
      NothingToReplace(o, t, i, name, body);
    case Block(o, n, inside, rest) =>
      if n == name {
        ThisBlock(o, n, inside, Render(rest), t, i, body);
      } else {
        var end := i + |o| + |BlockText(n, inside)|;
        RestStands(o, BlockText(n, inside), Render(rest), t, i);
        ReplaceInDoc(rest, t, end, name, body);
        OtherBlock(o, n, inside, Render(rest), t, i, name, body);
        ReplacedBehind(ReplaceFrom(t, end, name, body), o, n, inside, rest, SetInside(rest, name, Framed(body)), t, i, name);
      }
  }

  lemma ReplacedBehind(r: (Text, bool), o: Text, n: Text, inside: Text, rest: Doc, after: Doc, t: Text, i: nat, name: Text)
    requires n != name && i + |o| + |BlockText(n, inside)| <= |t| && Sits(o + (BlockText(n, inside) + Render(rest)), t, i)
    requires Replaced(r, rest, after, t, i + |o| + |BlockText(n, inside)|, name)
    ensures Replaced(r, Block(o, n, inside, rest), Block(o, n, inside, after), t, i, name)
  {
    BehindBlock(o, BlockText(n, inside), Render(rest), t, i, Render(after));
  }

  lemma Spliced(o: Text, begin: Text, inside: Text, end: Text, rest: Text, t: Text, i: nat, body: Text)
    requires i + |o| + |begin| + |inside| + |end| + |rest| == |t|
    requires Sits(o, t, i) && Sits(begin, t, i + |o|) && Sits(end, t, i + |o| + |begin| + |inside|)
    requires Sits(rest, t, i + |o| + |begin| + |inside| + |end|)
    ensures
      var a := i + |o| + |begin|;
      t[..a] + body + t[a + |inside|..] == t[..i] + (o + ((begin + body + end) + rest))
  {
    hide Sits;
    var a := i + |o| + |begin|;
    Taken(o, begin, t, i);
    TakeWindow(end, t, a + |inside|);
    TakeWindow(rest, t, a + |inside| + |end|);
    Remainder(end, rest, t, a + |inside|);
  }

  lemma Taken(a: Text, b: Text, t: Text, i: nat)
    requires Sits(a, t, i) && Sits(b, t, i + |a|)
    ensures t[..i + |a| + |b|] == t[..i] + a + b
  {
    TakeWindow(a, t, i);
    TakeWindow(b, t, i + |a|);
  }

  lemma Remainder(a: Text, b: Text, t: Text, i: nat)
    requires Sits(a, t, i) && Sits(b, t, i + |a|) && i + |a| + |b| == |t|
    ensures t[i..] == a + b
  {
    TakeWindow(a, t, i);
    TakeWindow(b, t, i + |a|);
  }

  lemma TakeWindow(a: Text, t: Text, i: nat)
    requires Sits(a, t, i)
    ensures t[i..i + |a|] == a
  {
  }

  lemma Prefixed(o: Text, b: Text, t: Text, i: nat, rest: Text)
    requires Sits(o, t, i) && Sits(b, t, i + |o|)
    ensures t[..i + |o| + |b|] + rest == t[..i] + (o + (b + rest))
  {
    Taken(o, b, t, i);
  }

  // ---- the whole rewriters on documents ----------------------------------------------------------------

  /** The blocks of two documents agree byte for byte. */
  predicate SameBlocks(a: Doc, b: Doc) {
    a.Block? == b.Block? && (a.Block? ==> a.name == b.name && a.inside == b.inside && SameBlocks(a.rest, b.rest))
  }

  /** Everything outside the blocks agrees byte for byte, and so do the blocks' names. */
  predicate SameOutside(a: Doc, b: Doc) {
    && a.outside == b.outside && a.Block? == b.Block?
    && (a.Block? ==> a.name == b.name && SameOutside(a.rest, b.rest))
  }

  predicate AllPlain(entries: seq<Entry>) {
    forall e | e in entries && e.active :: Plain(e.pattern)
  }

  ghost predicate Writable(blocks: seq<NamedBody>) {
    forall b | b in blocks :: PlainName(b.name) && NoMarker(Framed(b.body))
  }

  lemma {:induction false} RunKeepsForm(d: Doc, p: Pattern)
    requires WellFormed(d)
    ensures WellFormed(RunOutside(d, p)) && SameBlocks(d, RunOutside(d, p))
  {
    SurfaceSync.PassOverlays(d.outside, Repeat(false, |d.outside|), false, p);
    assert Skeleton(Run(d.outside, false, p)) == Skeleton(d.outside);
    if d.Block? { RunKeepsForm(d.rest, p); }
  }

  lemma {:induction false} SameBlocksTransitive(a: Doc, b: Doc, c: Doc)
    requires SameBlocks(a, b) && SameBlocks(b, c)
    ensures SameBlocks(a, c)
  {
    if a.Block? { SameBlocksTransitive(a.rest, b.rest, c.rest); }
  }

  lemma {:induction false} SameBlocksReflexive(a: Doc)
    ensures SameBlocks(a, a)
  {
    if a.Block? { SameBlocksReflexive(a.rest); }
  }

  /** The free-form rewriter changes the text outside the blocks only. */
  lemma {:induction false} SyncLeavesBlocks(d: Doc, entries: seq<Entry>)
    requires WellFormed(d) && AllPlain(entries)
    ensures Sync(Render(d), entries) == Render(SyncOutside(d, entries))
    ensures WellFormed(SyncOutside(d, entries)) && SameBlocks(d, SyncOutside(d, entries))
    decreases |entries|
  {
    if entries == [] {
      SameBlocksReflexive(d);
    } else {
      var init, last := entries[..|entries| - 1], entries[|entries| - 1];
      var before := SyncOutside(d, init);
      SyncLeavesBlocks(d, init);
      if last.active {
        MaskOfDoc(before);
        PassOfDoc(before, last.pattern);
        RunKeepsForm(before, last.pattern);
        SameBlocksTransitive(d, before, RunOutside(before, last.pattern));
      }
    }
  }

  lemma {:induction false} SetKeepsForm(d: Doc, name: Text, inside: Text)
    requires WellFormed(d) && NoMarker(inside)
    ensures WellFormed(SetInside(d, name, inside)) && SameOutside(d, SetInside(d, name, inside))
  {
    if d.Block? {
      if d.name == name { SameOutsideReflexive(d.rest); } else { SetKeepsForm(d.rest, name, inside); }
    }
  }

  lemma {:induction false} SameOutsideReflexive(a: Doc)
    ensures SameOutside(a, a)
  {
    if a.Block? { SameOutsideReflexive(a.rest); }
  }

  lemma {:induction false} SameOutsideTransitive(a: Doc, b: Doc, c: Doc)
    requires SameOutside(a, b) && SameOutside(b, c)
    ensures SameOutside(a, c)
  {
    if a.Block? { SameOutsideTransitive(a.rest, b.rest, c.rest); }
  }

  lemma NothingBefore(t: Text, x: Text)
    ensures t[..0] + x == x && Sits(t, t, 0)
  {
  }

  lemma ReplaceOfDoc(d: Doc, name: Text, body: Text)
    requires WellFormed(d) && PlainName(name)
    ensures ReplaceBlock(Render(d), name, body) == (Render(SetInside(d, name, Framed(body))), HasBlock(d, name))
  {
    var after := SetInside(d, name, Framed(body));
    NothingBefore(Render(d), Render(after));
    ReplaceInDoc(d, Render(d), 0, name, body);
    if !HasBlock(d, name) { NothingToSet(d, name, Framed(body)); }
    ReplacedFromStart(ReplaceBlock(Render(d), name, body), d, after, Render(d), name);
  }

  lemma ReplacedFromStart(r: (Text, bool), before: Doc, after: Doc, t: Text, name: Text)
    requires Replaced(r, before, after, t, 0, name) && t[..0] + Render(after) == Render(after)
    requires HasBlock(before, name) || t == Render(after)
    ensures r == (Render(after), HasBlock(before, name))
  {
  }

  lemma {:induction false} NothingToSet(d: Doc, name: Text, inside: Text)
    requires !HasBlock(d, name)
    ensures SetInside(d, name, inside) == d
  {
    if d.Block? { NothingToSet(d.rest, name, inside); }
  }

  /** The block rewriter changes the insides of its blocks only. */
  lemma {:induction false} BuildLeavesOutside(d: Doc, blocks: seq<NamedBody>)
    requires WellFormed(d) && Writable(blocks)
    ensures Build(Render(d), blocks) == Render(SetBlocks(d, blocks))
    ensures WellFormed(SetBlocks(d, blocks)) && SameOutside(d, SetBlocks(d, blocks))
    decreases |blocks|
  {
    if blocks == [] {
      SameOutsideReflexive(d);
    } else {
      var init, last := blocks[..|blocks| - 1], blocks[|blocks| - 1];
      var before := SetBlocks(d, init);
      BuildLeavesOutside(d, init);
      ReplaceOfDoc(before, last.name, last.body);
      SetKeepsForm(before, last.name, Framed(last.body));
      SameOutsideTransitive(d, before, SetInside(before, last.name, Framed(last.body)));
    }
  }

  // ---- either order, and a joint fixed point ---------------------------------------------------------------

  lemma {:induction false} SetThenRun(d: Doc, name: Text, inside: Text, p: Pattern)
    ensures RunOutside(SetInside(d, name, inside), p) == SetInside(RunOutside(d, p), name, inside)
  {
    if d.Block? { SetThenRun(d.rest, name, inside, p); }
  }

  lemma {:induction false} SetThenSync(d: Doc, name: Text, inside: Text, entries: seq<Entry>)
    ensures SyncOutside(SetInside(d, name, inside), entries) == SetInside(SyncOutside(d, entries), name, inside)
    decreases |entries|
  {
    if entries != [] {
      var init, last := entries[..|entries| - 1], entries[|entries| - 1];
      SetThenSync(d, name, inside, init);
      SetThenRun(SyncOutside(d, init), name, inside, last.pattern);
    }
  }

  lemma {:induction false} SyncThenSet(d: Doc, entries: seq<Entry>, blocks: seq<NamedBody>)
    ensures SyncOutside(SetBlocks(d, blocks), entries) == SetBlocks(SyncOutside(d, entries), blocks)
    decreases |blocks|
  {
    if blocks != [] {
      var init, last := blocks[..|blocks| - 1], blocks[|blocks| - 1];
      SyncThenSet(d, entries, init);
      SetThenSync(SetBlocks(d, init), last.name, Framed(last.body), entries);
    }
  }

  /** Either order gives one result. */
  lemma RewritersCommute(d: Doc, entries: seq<Entry>, blocks: seq<NamedBody>)
    requires WellFormed(d) && AllPlain(entries) && Writable(blocks)
    ensures Sync(Build(Render(d), blocks), entries) == Build(Sync(Render(d), entries), blocks)
  {
    BuildLeavesOutside(d, blocks);
    SyncLeavesBlocks(SetBlocks(d, blocks), entries);
    SyncLeavesBlocks(d, entries);
    BuildLeavesOutside(SyncOutside(d, entries), blocks);
    SyncThenSet(d, entries, blocks);
  }

  /** The inside of the first block of this name. */
  function InsideOf(d: Doc, name: Text): Option<Text> {
    match d
    case Last(_) => None
    case Block(_, n, inside, rest) => if n == name then Some(inside) else InsideOf(rest, name)
  }

  lemma {:induction false} InsideAfterSet(d: Doc, name: Text, inside: Text, other: Text)
    ensures InsideOf(SetInside(d, name, inside), other) ==
            if name == other && InsideOf(d, other).Some? then Some(inside) else InsideOf(d, other)
  {
    if d.Block? { InsideAfterSet(d.rest, name, inside, other); }
  }

  lemma {:induction false} SetAgain(d: Doc, name: Text, inside: Text)
    requires InsideOf(d, name) == None || InsideOf(d, name) == Some(inside)
    ensures SetInside(d, name, inside) == d
  {
    if d.Block? && d.name != name { SetAgain(d.rest, name, inside); }
  }

  /** The keys of a Python dict. */
  predicate Distinct(blocks: seq<NamedBody>) {
    forall i, j | 0 <= i < j < |blocks| :: blocks[i].name != blocks[j].name
  }

  /** Every block already has its body. */
  ghost predicate Built(d: Doc, blocks: seq<NamedBody>) {
    forall b | b in blocks :: InsideOf(d, b.name) == None || InsideOf(d, b.name) == Some(Framed(b.body))
  }

  lemma {:induction false} BuildBuilds(d: Doc, blocks: seq<NamedBody>)
    requires Distinct(blocks)
    ensures Built(SetBlocks(d, blocks), blocks)
    decreases |blocks|
  {
    if blocks != [] {
      var init, last := blocks[..|blocks| - 1], blocks[|blocks| - 1];
      BuildBuilds(d, init);
      forall b | b in blocks
        ensures var r := InsideOf(SetBlocks(d, blocks), b.name); r == None || r == Some(Framed(b.body))
      {
        InsideAfterSet(SetBlocks(d, init), last.name, Framed(last.body), b.name);
      }
    }
  }

  lemma {:induction false} BuiltStays(d: Doc, blocks: seq<NamedBody>)
    requires Built(d, blocks)
    ensures SetBlocks(d, blocks) == d
    decreases |blocks|
  {
    if blocks != [] {
      var init, last := blocks[..|blocks| - 1], blocks[|blocks| - 1];
      assert last in blocks;
      BuiltStays(d, init);
      SetAgain(d, last.name, Framed(last.body));
    }
  }

  /** After both have run, neither changes anything: the two never fight over a byte. */
  lemma RewritersSettle(d: Doc, entries: seq<Entry>, blocks: seq<NamedBody>)
    requires WellFormed(d) && AllPlain(entries) && Writable(blocks) && Distinct(blocks)
    ensures
      var settled := Sync(Build(Render(d), blocks), entries);
      Build(settled, blocks) == settled && Sync(settled, entries) == settled
  {
    var settled := Sync(Build(Render(d), blocks), entries);
    SurfaceSync.SyncSettles(Build(Render(d), blocks), entries);
    var synced := SyncOutside(d, entries);
    SyncLeavesBlocks(d, entries);
    BuildLeavesOutside(synced, blocks);
    RewritersCommute(d, entries, blocks);
    BuildBuilds(synced, blocks);
    BuiltStays(SetBlocks(synced, blocks), blocks);
    BuildLeavesOutside(SetBlocks(synced, blocks), blocks);
  }
}
