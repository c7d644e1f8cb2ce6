/** `splice_into_template`: when splicing the changelog a second time changes nothing. */
module ChangelogSplice {
  import opened ChangelogInline
  import ChangelogRender
  import opened Search
  import opened Wrappers

  /** The comments around the generated block. */
  datatype Markers = Markers(begin: string, end: string)

  const MARKERS := Markers("<!-- BEGIN auto-changelog -->", "<!-- END auto-changelog -->")

  function NewBlock(m: Markers, body: string): string {
    m.begin + ("\n" + body + m.end)
  }

  /** Where the new block goes: what is kept before it and behind it. */
  function Cut(m: Markers, template: string): Option<(string, string)> {
    match (Find(template, m.begin, 0), Find(template, m.end, 0))
    case (Some(i), Some(j)) => Some((template[..i], template[j + |m.end|..]))
    case _ =>
      match (Find(template, "<article>", 0), Find(template, "</article>", 0))
      case (Some(i), Some(j)) => Some((template[..i + 9] + "\n", "\n  " + template[j..]))
      case _ => None
  }

  /** Nothing when the template has neither both markers nor the article tags. */
  function Splice(m: Markers, template: string, block: string): Option<string> {
    match Cut(m, template)
    case Some((before, behind)) => Some(before + (block + behind))
    case None => None
  }

  predicate HasMarker(m: Markers, s: string) {
    Find(s, m.begin, 0).Some? || Find(s, m.end, 0).Some?
  }

  // ---- where the markers stand after a splice --------------------------------------------------------

  predicate AngleFirstOnly(w: string) {
    |w| > 5 && w[0] == '<' && w[1] == '!' && forall k | 1 <= k < |w| :: w[k] != '<'
  }

  predicate Shaped(m: Markers) {
    && AngleFirstOnly(m.begin) && AngleFirstOnly(m.end) && m.begin[5] != m.end[5]
    && m.begin[|m.begin| - 1] != '\n' && m.end[|m.end| - 1] != '\n'
  }

  lemma BeginIsShaped()
    ensures AngleFirstOnly(MARKERS.begin) && MARKERS.begin[5] == 'B' && MARKERS.begin[|MARKERS.begin| - 1] == '>'
  {
    var w := MARKERS.begin;
    assert |w| == 29 && w[5] == 'B';
  }

  lemma EndIsShaped()
    ensures AngleFirstOnly(MARKERS.end) && MARKERS.end[5] == 'E' && MARKERS.end[|MARKERS.end| - 1] == '>'
  {
    var w := MARKERS.end;
    assert |w| == 27 && w[5] == 'E';
  }

  /** All that is used of the script's markers. */
  lemma MarkersAreShaped()
    ensures Shaped(MARKERS)
  {
    hide AngleFirstOnly, MARKERS;
    BeginIsShaped();
    EndIsShaped();
  }

  /** A marker does not reach across the angle bracket that follows `p`. */
  lemma {:induction false} FirstInFront(w: string, p: string, rest: string, i: nat)
    requires AngleFirstOnly(w) && rest != "" && rest[0] == '<' && i <= |p|
    ensures Find(p + rest, w, i) == if Find(p, w, i).Some? then Find(p, w, i) else Find(p + rest, w, |p|)
    decreases |p| - i
  {
    assert (p + rest)[|p|] == '<';
    if i < |p| {
      SameWindow(w, p, rest, i);
      FirstInFront(w, p, rest, i + 1);
    }
  }

  lemma SameWindow(w: string, p: string, rest: string, i: nat)
    requires AngleFirstOnly(w) && rest != "" && rest[0] == '<' && i < |p|
    ensures Sits(w, p + rest, i) == Sits(w, p, i)
  {
    var r := p + rest;
    if i + |w| > |p| {
      assert r[i + (|p| - i)] == '<' && (|p| - i < |w| ==> w[|p| - i] != '<');
    }
    assert forall k | 0 <= k < |p| :: r[k] == p[k];
  }

  /** What is found in the middle part is found there in the whole. */
  lemma FirstInMiddle(w: string, p: string, b: string, q: string, n: nat)
    requires Find(b, w, 0) == Some(n)
    ensures Find(p + (b + q), w, |p|) == Some(|p| + n)
  {
    var r := p + (b + q);
    FindMeans(b, w, 0);
    forall k: nat | |p| <= k < |p| + n ensures !Sits(w, r, k) {
      NotInMiddle(w, p, b, q, k - |p|);
    }
    FindSkips(r, w, |p|, |p| + n);
    SitsInside(w, p, b, q, n);
  }

  lemma NotInMiddle(w: string, p: string, b: string, q: string, k: nat)
    requires k + |w| <= |b| && !Sits(w, b, k)
    ensures !Sits(w, p + (b + q), |p| + k)
  {
    var d: nat :| d < |w| && b[k + d] != w[d];
    InTheMiddle(p, b, q, k + d);
    NotSits(w, p + (b + q), |p| + k, d);
  }

  /** In the new block the end marker stands only at its end. */
  lemma {:induction false} EndOnlyLast(m: Markers, body: string, b: string, k: nat)
    requires Shaped(m) && OnlyTags(body) && b == NewBlock(m, body) && k <= |m.begin| + 1 + |body| <= |b|
    ensures Find(b, m.end, k) == Some(|m.begin| + 1 + |body|)
    decreases |m.begin| + 1 + |body| - k
  {
    if k < |m.begin| + 1 + |body| {
      EndDiffersAt(m, body, k);
      EndOnlyLast(m, body, b, k + 1);
    } else {
      EndSits(m, body);
    }
  }

  lemma EndDiffersAt(m: Markers, body: string, k: nat)
    requires Shaped(m) && OnlyTags(body) && k < |m.begin| + 1 + |body|
    ensures !Sits(m.end, NewBlock(m, body), k)
  {
    var d := EndDiffers(m, body, k);
    NotSits(m.end, NewBlock(m, body), k, d);
  }

  lemma EndSits(m: Markers, body: string)
    requires Shaped(m)
    ensures Sits(m.end, NewBlock(m, body), |m.begin| + 1 + |body|)
  {
    var n := |m.begin| + 1 + |body|;
    assert NewBlock(m, body)[n..] == m.end;
    forall k | 0 <= k < |m.end| ensures NewBlock(m, body)[n + k] == m.end[k] {
      assert NewBlock(m, body)[n..][k] == m.end[k];
    }
  }

  lemma SitsInside(w: string, p: string, b: string, q: string, n: nat)
    requires Sits(w, b, n)
    ensures Sits(w, p + (b + q), |p| + n)
  {
    forall k | 0 <= k < |w| ensures (p + (b + q))[|p| + n + k] == w[k] {
      InTheMiddle(p, b, q, n + k);
    }
  }

  lemma InTheMiddle(p: string, b: string, q: string, k: nat)
    requires k < |b|
    ensures (p + (b + q))[|p| + k] == b[k]
  {
  }

  lemma NotSits(w: string, s: string, i: nat, d: nat)
    requires d < |w| && (i + d < |s| ==> s[i + d] != w[d])
    ensures !Sits(w, s, i)
  {
  }

  /** No `<!` inside the body, and the begin marker differs from the end marker in its sixth character. */
  lemma EndDiffers(m: Markers, body: string, k: nat) returns (d: nat)
    requires Shaped(m) && OnlyTags(body) && k < |m.begin| + 1 + |body|
    ensures d < |m.end| && k + d < |NewBlock(m, body)| && NewBlock(m, body)[k + d] != m.end[d]
  {
    var b, n := NewBlock(m, body), |m.begin|;
    if k < n {
      d := if k == 0 then 5 else 0;
      assert b[k + d] == m.begin[k + d];
    } else if k == n {
      d := 0;
    } else if body[k - n - 1] != '<' {
      d := 0;
      assert b[k] == body[k - n - 1];
    } else {
      d := 1;
      assert b[k + 1] == body[k - n];
    }
  }

  /** The block `b` starts with marker `x`, and marker `y` stands only at its end. */
  predicate Framed(x: string, y: string, b: string) {
    && AngleFirstOnly(x) && AngleFirstOnly(y) && b != "" && b[0] == '<'
    && Sits(x, b, 0) && |y| <= |b| && Find(b, y, 0) == Some(|b| - |y|)
  }

  lemma MarkersAround(x: string, y: string, p: string, b: string, q: string)
    requires Framed(x, y, b)
    ensures Find(p + (b + q), x, 0) == (if Find(p, x, 0).Some? then Find(p, x, 0) else Some(|p|))
    ensures Find(p + (b + q), y, 0) == (if Find(p, y, 0).Some? then Find(p, y, 0) else Some(|p| + |b| - |y|))
  {
    assert (b + q)[0] == '<';
    FirstInFront(x, p, b + q, 0);
    FirstInFront(y, p, b + q, 0);
    FirstInMiddle(y, p, b, q, |b| - |y|);
    SitsInside(x, p, b, q, 0);
  }

  // ---- main results ----------------------------------------------------------------------------------

  /** Splicing into an already spliced text, whose front does not hold both markers. */
  lemma SpliceAgain(m: Markers, p: string, b: string, q: string)
    requires Framed(m.begin, m.end, b) && (Find(p, m.begin, 0).None? || Find(p, m.end, 0).None?)
    ensures Splice(m, p + (b + q), b) == Some(p + (b + q)) <==> !HasMarker(m, p)
  {
    var r := p + (b + q);
    MarkersAround(m.begin, m.end, p, b, q);
    var i, j := Find(r, m.begin, 0).value, Find(r, m.end, 0).value;
    Parts(p, b, q);
    if HasMarker(m, p) {
      assert i + |b| + (|r| - j - |m.end|) != |r|;
      assert |Splice(m, r, b).value| == i + |b| + (|r| - j - |m.end|);
    }
  }

  lemma Parts(p: string, b: string, q: string)
    ensures (p + (b + q))[..|p|] == p && (p + (b + q))[|p| + |b|..] == q
  {
  }

  lemma BlockIsFramed(m: Markers, body: string, b: string)
    requires Shaped(m) && OnlyTags(body) && b == NewBlock(m, body)
    ensures Framed(m.begin, m.end, b)
  {
    assert b[0] == m.begin[0];
    BeginSits(m, body);
    EndOnlyLast(m, body, b, 0);
  }

  lemma BeginSits(m: Markers, body: string)
    requires Shaped(m)
    ensures Sits(m.begin, NewBlock(m, body), 0) && |NewBlock(m, body)| == |m.begin| + 1 + |body| + |m.end|
  {
    forall k | 0 <= k < |m.begin| ensures NewBlock(m, body)[0 + k] == m.begin[k] {}
  }

  /** The page body between the markers, as the script splices it in. */
  function Block(m: Markers, lines: seq<string>): string {
    NewBlock(m, ChangelogRender.Body(lines))
  }

  lemma BlockOfPage(m: Markers, lines: seq<string>)
    requires Shaped(m)
    ensures Framed(m.begin, m.end, Block(m, lines))
  {
    ChangelogRender.BodyHasOnlyTags(lines);
    BlockIsFramed(m, ChangelogRender.Body(lines), Block(m, lines));
  }

  /**
   A second splice changes nothing exactly if no marker stands in the part of the template that is kept
   before the block. With both markers present that is: the begin marker comes before every end marker.
   */
  lemma SpliceSettlesExactlyWhen(m: Markers, template: string, lines: seq<string>)
    requires Shaped(m) && Cut(m, template).Some?
    ensures
      var once := Splice(m, template, Block(m, lines)).value;
      Splice(m, once, Block(m, lines)) == Some(once) <==> !HasMarker(m, Cut(m, template).value.0)
  {
    var (before, behind) := Cut(m, template).value;
    BlockOfPage(m, lines);
    FrontHasAtMostOne(m, template);
    SpliceAgain(m, before, Block(m, lines), behind);
  }

  lemma PrefixSits(w: string, t: string, n: nat, i: nat)
    requires n <= |t| && Sits(w, t[..n], i)
    ensures Sits(w, t, i) && i + |w| <= n
  {
    forall k | 0 <= k < |w| ensures t[i + k] == w[k] {
      assert t[..n][i + k] == w[k];
    }
  }

  lemma NotInPrefix(w: string, t: string, n: nat)
    requires n <= |t| && |w| > 0 && (Find(t, w, 0).None? || n <= Find(t, w, 0).value)
    ensures Find(t[..n], w, 0).None?
  {
    FindMeans(t, w, 0);
    FindMeans(t[..n], w, 0);
    if Find(t[..n], w, 0).Some? { PrefixSits(w, t, n, Find(t[..n], w, 0).value); }
  }

  lemma NotAcrossNewline(w: string, t: string)
    requires |w| > 0 && w[|w| - 1] != '\n' && Find(t, w, 0).None?
    ensures Find(t + "\n", w, 0).None?
  {
    FindMeans(t, w, 0);
    FindMeans(t + "\n", w, 0);
    if Find(t + "\n", w, 0).Some? { LastIsNoNewline(w, t, Find(t + "\n", w, 0).value); }
  }

  lemma LastIsNoNewline(w: string, t: string, k: nat)
    requires |w| > 0 && w[|w| - 1] != '\n' && Sits(w, t + "\n", k)
    ensures Sits(w, t, k)
  {
    var r, last := t + "\n", |w| - 1;
    assert r[k + last] == w[last];
    assert forall j | 0 <= j < |t| :: r[j] == t[j];
  }

  /** What is kept before the block never holds both markers. */
  lemma FrontHasAtMostOne(m: Markers, template: string)
    requires Shaped(m) && Cut(m, template).Some?
    ensures
      var before := Cut(m, template).value.0;
      Find(before, m.begin, 0).None? || Find(before, m.end, 0).None?
  {
    var b, e := Find(template, m.begin, 0), Find(template, m.end, 0);
    if b.Some? && e.Some? {
      NotInPrefix(m.begin, template, b.value);
    } else {
      var n := Find(template, "<article>", 0).value + 9;
      var w := if b.None? then m.begin else m.end;
      NotInPrefix(w, template, n);
      NotAcrossNewline(w, template[..n]);
    }
  }

  /** In an already marked template: the begin marker must come before every end marker. */
  lemma MarkedTemplateSettles(m: Markers, template: string)
    requires Shaped(m) && Find(template, m.begin, 0).Some? && Find(template, m.end, 0).Some?
    ensures HasMarker(m, Cut(m, template).value.0) <==> Find(template, m.end, 0).value < Find(template, m.begin, 0).value
  {
    var i, j := Find(template, m.begin, 0).value, Find(template, m.end, 0).value;
    FindMeans(template, m.begin, 0);
    NotInPrefix(m.begin, template, i);
    var front, rest := template[..i], template[i..];
    assert template == front + rest;
    var zero := 0;
    assert rest[0] == template[i + zero] == m.begin[zero];
    FirstInFront(m.end, front, rest, 0);
    if j < i { FindMeans(template, m.end, 0); FindAtOrAfter(template, m.end, i); }
  }

  lemma FindAtOrAfter(s: string, w: string, i: nat)
    ensures Find(s, w, i).Some? ==> i <= Find(s, w, i).value
  {
  }

  // ---- templates that a splice does not settle ----------------------------------------------------------

  /** The text after `n` runs of the script. */
  function Runs(m: Markers, template: string, block: string, n: nat): Option<string>
    decreases n
  {
    if n == 0 then Some(template)
    else match Splice(m, template, block)
      case Some(next) => Runs(m, next, block, n - 1)
      case None => None
  }

  /** What lies behind the end marker is kept behind the new block, the old block included. */
  lemma SpliceGrows(m: Markers, p: string, b: string, q: string)
    requires Framed(m.begin, m.end, b) && Find(p, m.begin, 0).None? && Find(p, m.end, 0).Some?
    ensures
      var r := p + (b + q);
      Splice(m, r, b) == Some(p + (b + r[Find(p, m.end, 0).value + |m.end|..]))
  {
    MarkersAround(m.begin, m.end, p, b, q);
    Parts(p, b, q);
  }

  /** By how much: the block, and what stands between the end marker and the block. */
  function Growth(m: Markers, p: string, b: string): (n: nat)
    requires Find(p, m.end, 0).Some?
    ensures |b| <= n
  {
    |b| + (|p| - Find(p, m.end, 0).value - |m.end|)
  }

  lemma {:induction false} RunsGrow(m: Markers, p: string, b: string, q: string, n: nat)
    requires Framed(m.begin, m.end, b) && Find(p, m.begin, 0).None? && Find(p, m.end, 0).Some?
    ensures
      var end := Runs(m, p + (b + q), b, n);
      end.Some? && |end.value| == |p + (b + q)| + n * Growth(m, p, b)
    decreases n
  {
    if n != 0 {
      var r := p + (b + q);
      SpliceGrows(m, p, b, q);
      RunsGrow(m, p, b, r[Find(p, m.end, 0).value + |m.end|..], n - 1);
      OneMore(n, Growth(m, p, b));
    }
  }

  lemma OneMore(n: nat, k: nat)
    requires n > 0
    ensures n * k == k + (n - 1) * k
  {
  }

  /**
   With an end marker in the part kept before the block, every further run makes the page longer, by
   the whole block and whatever stands between that marker and the block.
   */
  lemma EveryRunGrows(m: Markers, template: string, lines: seq<string>, n: nat)
    requires Shaped(m) && Cut(m, template).Some? && Find(Cut(m, template).value.0, m.end, 0).Some?
    ensures
      var once := Splice(m, template, Block(m, lines)).value;
      var end := Runs(m, once, Block(m, lines), n);
      && end.Some?
      && |end.value| == |once| + n * Growth(m, Cut(m, template).value.0, Block(m, lines))
  {
    var (before, behind) := Cut(m, template).value;
    BlockOfPage(m, lines);
    FrontHasAtMostOne(m, template);
    RunsGrow(m, before, Block(m, lines), behind, n);
  }

  /** With a begin marker there instead, the second run drops what follows it and the third changes nothing. */
  lemma SecondRunSettles(m: Markers, template: string, lines: seq<string>)
    requires Shaped(m) && Cut(m, template).Some? && Find(Cut(m, template).value.0, m.begin, 0).Some?
    ensures
      var b := Block(m, lines);
      var once := Splice(m, template, b).value;
      && Splice(m, once, b).Some? && Splice(m, once, b) != Some(once)
      && Splice(m, Splice(m, once, b).value, b) == Splice(m, once, b)
  {
    var (before, behind) := Cut(m, template).value;
    BlockOfPage(m, lines);
    FrontHasAtMostOne(m, template);
    SpliceAgain(m, before, Block(m, lines), behind);
    SpliceDrops(m, before, Block(m, lines), behind);
  }

  lemma SpliceDrops(m: Markers, p: string, b: string, q: string)
    requires Framed(m.begin, m.end, b) && Find(p, m.begin, 0).Some? && Find(p, m.end, 0).None?
    ensures Splice(m, p + (b + q), b).Some?
    ensures Splice(m, Splice(m, p + (b + q), b).value, b) == Splice(m, p + (b + q), b)
  {
    var front := p[..Find(p, m.begin, 0).value];
    DropsToFront(m, p, b, q);
    CleanFront(m, p);
    SpliceAgain(m, front, b, q);
  }

  lemma DropsToFront(m: Markers, p: string, b: string, q: string)
    requires Framed(m.begin, m.end, b) && Find(p, m.begin, 0).Some? && Find(p, m.end, 0).None?
    ensures Splice(m, p + (b + q), b) == Some(p[..Find(p, m.begin, 0).value] + (b + q))
  {
    MarkersAround(m.begin, m.end, p, b, q);
    Parts(p, b, q);
    KeepsUpTo(p, b + q, Find(p, m.begin, 0).value);
  }

  lemma CleanFront(m: Markers, p: string)
    requires |m.begin| > 0 && |m.end| > 0 && Find(p, m.begin, 0).Some? && Find(p, m.end, 0).None?
    ensures !HasMarker(m, p[..Find(p, m.begin, 0).value])
  {
    NotInPrefix(m.begin, p, Find(p, m.begin, 0).value);
    NotInPrefix(m.end, p, Find(p, m.begin, 0).value);
  }

  lemma KeepsUpTo(p: string, rest: string, i: nat)
    requires i <= |p|
    ensures (p + rest)[..i] == p[..i]
  {
  }
}
