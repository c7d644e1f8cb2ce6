/**
 Both rewriters on strings do, token by token, what the rewriters on tokens do: running one on the
 string that a canonical text spells gives the string that the rewritten text spells.
 */
module MarkerRefinement {
  import opened MarkerText
  import opened MarkerTokens
  import opened MarkerStrings
  import opened MarkerMatching
  import opened MarkerScan
  import opened SurfaceSync
  import opened Wrappers

  // ---- texts stay canonical ---------------------------------------------------------------------------

  /** Numbers stay numbers, and the new ones are proper. */
  lemma SameShapeCanonical(a: Text, b: Text)
    requires Canonical(a) && SameShape(a, b) && forall k | 0 <= k < |b| && b[k].Num? :: Decimal(b[k].digits)
    ensures Canonical(b)
  {
    forall k | 0 <= k < |b| ensures ValidToken(b[k]) { assert ValidToken(a[k]); }
    forall k | 0 < k < |b| ensures Parted(b, k) { assert Parted(a, k); }
  }

  predicate RegularEntries(entries: seq<Entry>) {
    forall e | e in entries && e.active :: Regular(e.pattern)
  }

  ghost predicate DecimalCover(c: Cover) {
    forall i | 0 <= i < |c| && c[i].Some? :: Decimal(c[i].value)
  }

  lemma HeadCoverIsDecimal(t: Text, inBlock: bool, before: bool, p: Pattern)
    requires t != [] && Regular(p)
    ensures DecimalCover(HeadCover(t, inBlock, before, p))
  {
    forall k | 0 <= k < |p.items| && p.items[k].Put? ensures Decimal(p.items[k].digits) {
      assert ValidItem(p.items[k]);
    }
  }

  lemma {:induction false} CoveredIsDecimal(t: Text, mask: seq<bool>, before: bool, p: Pattern)
    requires |mask| == |t| && Regular(p)
    ensures DecimalCover(Covered(t, mask, before, p))
    decreases |t|
  {
    if t != [] {
      var n := Width(t, before, p);
      HeadCoverIsDecimal(t, mask[0], before, p);
      CoveredIsDecimal(t[n..], mask[n..], Word(t[n - 1]), p);
      DecimalJoin(HeadCover(t, mask[0], before, p), Covered(t[n..], mask[n..], Word(t[n - 1]), p));
    }
  }

  lemma DecimalJoin(a: Cover, b: Cover)
    requires DecimalCover(a) && DecimalCover(b)
    ensures DecimalCover(a + b)
  {
    forall i | 0 <= i < |a + b| && (a + b)[i].Some? ensures Decimal((a + b)[i].value) {
      if i >= |a| { assert (a + b)[i] == b[i - |a|]; }
    }
  }

  lemma ApplyStaysCanonical(t: Text, e: Entry)
    requires Canonical(t) && (e.active ==> Regular(e.pattern))
    ensures Canonical(Apply(t, e))
  {
    ApplyOverlays(t, e);
    if e.active {
      CoveredIsDecimal(t, Mask(t), false, e.pattern);
      var c, r := EntryCover(t, e), Apply(t, e);
      forall k | 0 <= k < |r| && r[k].Num? ensures Decimal(r[k].digits) {
        if c[k].None? { assert ValidToken(t[k]); }
      }
      SameShapeCanonical(t, r);
    }
  }

  lemma SliceIsCanonical(t: Text, i: nat, j: nat)
    requires Canonical(t) && i <= j <= |t|
    ensures Canonical(t[i..j])
  {
    var u := t[i..j];
    forall k | 0 <= k < |u| ensures ValidToken(u[k]) { assert ValidToken(t[i + k]); }
    forall k | 0 < k < |u| ensures Parted(u, k) { assert Parted(t, i + k); }
  }

  lemma WrittenIsCanonical(items: seq<Item>, t: Text)
    requires Canonical(t) && |items| == |t|
    requires forall k | 0 <= k < |t| :: ValidItem(items[k]) && Accepts(items[k], t[k])
    ensures Canonical(Written(items, t))
  {
    var w := Written(items, t);
    forall k | 0 <= k < |w| && w[k].Num? ensures Decimal(w[k].digits) {
      assert ValidItem(items[k]) && ValidToken(t[k]);
    }
    assert SameShape(t, w) by {
      forall k | 0 <= k < |t| ensures t[k] == w[k] || (t[k].Num? && w[k].Num?) { assert Accepts(items[k], t[k]); }
    }
    SameShapeCanonical(t, w);
  }

  lemma SameStringSameText(a: Text, b: Text)
    requires Canonical(a) && Canonical(b)
    ensures Flatten(a) == Flatten(b) <==> a == b
  {
    TokensOfFlatten(a);
    TokensOfFlatten(b);
  }

  // ---- one step of the scan --------------------------------------------------------------------------------

  lemma SliceOfFlatten(t: Text, i: nat, j: nat)
    requires i <= j <= |t|
    ensures Off(t, i) <= Off(t, j) <= |Flatten(t)| && Flatten(t)[Off(t, i)..Off(t, j)] == Flatten(t[i..j])
  {
    hide Flatten;
    var s := Flatten(t);
    FlattenSplit(t, i);
    FlattenSplit(t, j);
    assert t[..j] == t[..i] + t[i..j];
    FlattenAppend(t[..i], t[i..j]);
    OffIsLength(t, i);
    OffIsLength(t, j);
    var a, b := Flatten(t[..i]), Flatten(t[i..j]);
    assert s[..Off(t, j)][Off(t, i)..] == s[Off(t, i)..Off(t, j)];
    assert (a + b)[|a|..] == b;
  }

  lemma RewriteUnfolds(s: string, i: nat, p: Pattern)
    requires i < |s|
    ensures RewriteFrom(s, i, p) == Piece(s, i, p) + RewriteFrom(s, Next(s, i, p), p)
    ensures HitsFrom(s, i, p) == Reported(s, i, p) + HitsFrom(s, Next(s, i, p), p)
  {
  }

  lemma EmptyFront(s: string, i: nat, rest: string)
    requires i <= |s|
    ensures s[i..i] + rest == rest
  {
  }

  lemma OneCharacter(s: string, i: nat, end: nat, rest: string)
    requires i < end <= |s|
    ensures [s[i]] + (s[i + 1..end] + rest) == s[i..end] + rest && [s[i]] == s[i..i + 1]
  {
    assert [s[i]] + s[i + 1..end] == s[i..end];
  }

  lemma NothingReported(hits: seq<(string, string)>)
    ensures [] + hits == hits
  {
  }

  lemma CopyOne(s: string, i: nat, end: nat, p: Pattern)
    requires i < end <= |s| && MatchString(s, i, p).None?
    requires RewriteFrom(s, i + 1, p) == s[i + 1..end] + RewriteFrom(s, end, p)
    requires HitsFrom(s, i + 1, p) == HitsFrom(s, end, p)
    ensures RewriteFrom(s, i, p) == s[i..end] + RewriteFrom(s, end, p)
    ensures HitsFrom(s, i, p) == HitsFrom(s, end, p)
  {
    RewriteUnfolds(s, i, p);
    OneCharacter(s, i, end, RewriteFrom(s, end, p));
    NothingReported(HitsFrom(s, end, p));
  }

  /** Where no match starts, the string is copied, and nothing is reported. */
  lemma {:induction false} Copies(s: string, i: nat, end: nat, p: Pattern)
    requires i <= end <= |s| && forall x | i <= x < end :: MatchString(s, x, p).None?
    ensures RewriteFrom(s, i, p) == s[i..end] + RewriteFrom(s, end, p)
    ensures HitsFrom(s, i, p) == HitsFrom(s, end, p)
    decreases end - i
  {
    hide RewriteFrom, HitsFrom;
    if i < end {
      Copies(s, i + 1, end, p);
      CopyOne(s, i, end, p);
    } else {
      EmptyFront(s, end, RewriteFrom(s, end, p));
    }
  }

  lemma NoMatchInToken(s: string, t: Text, k: nat, i: nat, p: Pattern)
    requires Spelled(s, t) && k < |t| && Off(t, k) <= i < Off(t, k + 1) <= |s| && Regular(p)
    requires MatchString(s, Off(t, k), p).None?
    ensures MatchString(s, i, p).None?
  {
    if Off(t, k) < i {
      NextIsInside(s, t, k, i);
      NothingInside(s, t, k, i, p);
    }
  }

  lemma NoMatches(s: string, t: Text, k: nat, p: Pattern)
    requires Spelled(s, t) && k < |t| && Off(t, k) < Off(t, k + 1) <= |s| && Regular(p) && MatchString(s, Off(t, k), p).None?
    ensures forall x | Off(t, k) <= x < Off(t, k + 1) :: MatchString(s, x, p).None?
  {
    forall x | Off(t, k) <= x < Off(t, k + 1) ensures MatchString(s, x, p).None? {
      NoMatchInToken(s, t, k, x, p);
    }
  }

  /** Where no pattern matches, the token is copied, and nothing is reported. */
  lemma TokenCopied(s: string, t: Text, k: nat, p: Pattern)
    requires Canonical(t) && s == Flatten(t) && k < |t| && Regular(p) && !MatchesAt(t[k..], Before(t, k), p)
    ensures Off(t, k) <= Off(t, k + 1) <= |s|
    ensures RewriteFrom(s, Off(t, k), p) == Flatten(t[k..k + 1]) + RewriteFrom(s, Off(t, k + 1), p)
    ensures HitsFrom(s, Off(t, k), p) == HitsFrom(s, Off(t, k + 1), p)
  {
    FlattenSpells(t);
    NextStart(s, t, k);
    MatchStringIs(s, t, k, p);
    SliceOfFlatten(t, k, k + 1);
    NoMatches(s, t, k, p);
    Copies(s, Off(t, k), Off(t, k + 1), p);
  }

  lemma MatchedItems(t: Text, k: nat, p: Pattern)
    requires Canonical(t) && k < |t| && Regular(p) && MatchesAt(t[k..], Before(t, k), p)
    ensures
      var n := |p.items|;
      k + n <= |t| && Canonical(t[k..k + n]) && Canonical(Written(p.items, t[k..k + n]))
  {
    var n := |p.items|;
    SliceIsCanonical(t, k, k + n);
    forall x | 0 <= x < n ensures ValidItem(p.items[x]) && Accepts(p.items[x], t[k..k + n][x]) {
      assert t[k..k + n][x] == t[k..][x];
    }
    WrittenIsCanonical(p.items, t[k..k + n]);
  }

  /** The match at a token up to token `next`: it has found `kept`, and writes `written`. */
  ghost predicate Matched(s: string, t: Text, k: nat, next: nat, p: Pattern, kept: Text, written: Text) {
    && k < next <= |t| && Off(t, k) < Off(t, next) <= |s| && |written| == |kept| == next - k
    && MatchString(s, Off(t, k), p) == Some(Match(Off(t, next), Flatten(written)))
    && s[Off(t, k)..Off(t, next)] == Flatten(kept)
    && Canonical(kept) && Canonical(written)
  }

  lemma MatchIsMatched(s: string, t: Text, k: nat, next: nat, p: Pattern, kept: Text)
    requires Canonical(t) && s == Flatten(t) && k < next == k + |p.items| <= |t| && Regular(p)
    requires MatchesAt(t[k..], Before(t, k), p) && kept == t[k..next]
    ensures Matched(s, t, k, next, p, kept, Written(p.items, kept))
  {
    hide Flatten, MatchesAt;
    MatchedItems(t, k, p);
    StringMatched(t, k, p);
    SliceOfFlatten(t, k, next);
    OffGrows(t, k, next);
  }

  lemma StringMatched(t: Text, k: nat, p: Pattern)
    requires Canonical(t) && k < |t| && Regular(p) && MatchesAt(t[k..], Before(t, k), p)
    ensures
      var n := |p.items|;
      && k + n <= |t| && Off(t, k) < |Flatten(t)|
      && MatchString(Flatten(t), Off(t, k), p) == Some(Match(Off(t, k + n), Flatten(Written(p.items, t[k..k + n]))))
  {
    FlattenSpells(t);
    OffInside(Flatten(t), t, k);
    MatchStringIs(Flatten(t), t, k, p);
  }

  /** A match in the string, when `kept` is what it has found and `written` what it writes. */
  lemma MatchedPiece(s: string, i: nat, e: nat, p: Pattern, kept: Text, written: Text)
    requires i < e <= |s| && MatchString(s, i, p) == Some(Match(e, Flatten(written))) && s[i..e] == Flatten(kept)
    requires Canonical(kept) && Canonical(written)
    ensures
      var head := if InBlock(s, 0, i) then kept else written;
      Next(s, i, p) == e && Piece(s, i, p) == Flatten(head) && (Reported(s, i, p) == [] <==> head == kept)
  {
    SameStringSameText(written, kept);
  }

  // ---- one pattern --------------------------------------------------------------------------------------------

  lemma MaskIs(t: Text, k: nat)
    requires Canonical(t) && k < |t|
    ensures InBlock(Flatten(t), 0, Off(t, k)) == Mask(t)[k]
  {
    FlattenSpells(t);
    InBlockScans(Flatten(t), t, 0, k);
  }

  /** Equal in front and behind. */
  lemma SplitEqual(t: Text, k: nat, head: Text, rest: Text)
    requires k + |head| <= |t| && |rest| == |t| - k - |head|
    ensures head + rest == t[k..] <==> head == t[k..k + |head|] && rest == t[k + |head|..]
  {
    assert t[k..k + |head|] + t[k + |head|..] == t[k..];
    if head + rest == t[k..] {
      assert head == t[k..][..|head|] && rest == t[k..][|head|..];
    }
  }

  /** From position `i` on the string is rewritten to what `result` spells; `clean` if nothing is reported. */
  ghost predicate Rewrites(s: string, i: nat, p: Pattern, result: Text, clean: bool) {
    i <= |s| && RewriteFrom(s, i, p) == Flatten(result) && (HitsFrom(s, i, p) == [] <==> clean)
  }

  lemma CopiedStep(s: string, t: Text, k: nat, p: Pattern, rest: Text, clean: bool)
    requires Canonical(t) && s == Flatten(t) && k < |t| && Regular(p) && !MatchesAt(t[k..], Before(t, k), p)
    requires Rewrites(s, Off(t, k + 1), p, rest, clean)
    ensures Rewrites(s, Off(t, k), p, t[k..k + 1] + rest, clean)
  {
    TokenCopied(s, t, k, p);
    FlattenAppend(t[k..k + 1], rest);
  }

  lemma MatchedStep(s: string, i: nat, e: nat, p: Pattern, kept: Text, written: Text, head: Text, rest: Text, clean: bool)
    requires i < e <= |s| && MatchString(s, i, p) == Some(Match(e, Flatten(written))) && s[i..e] == Flatten(kept)
    requires Canonical(kept) && Canonical(written) && Rewrites(s, e, p, rest, clean)
    requires head == if InBlock(s, 0, i) then kept else written
    ensures Rewrites(s, i, p, head + rest, head == kept && clean)
  {
    MatchedPiece(s, i, e, p, kept, written);
    RewriteUnfolds(s, i, p);
    FlattenAppend(head, rest);
  }

  lemma HeadOfMatch(t: Text, k: nat, inBlock: bool, p: Pattern)
    requires k < |t| && MatchesAt(t[k..], Before(t, k), p)
    ensures
      var n := |p.items|;
      && 0 < n && k + n <= |t| && Width(t[k..], Before(t, k), p) == n
      && Head(t[k..], inBlock, Before(t, k), p) == if inBlock then t[k..k + n] else Written(p.items, t[k..k + n])
  {
    assert t[k..][..|p.items|] == t[k..k + |p.items|];
  }

  lemma HeadOfNoMatch(t: Text, k: nat, inBlock: bool, p: Pattern)
    requires k < |t| && !MatchesAt(t[k..], Before(t, k), p)
    ensures Width(t[k..], Before(t, k), p) == 1 && Head(t[k..], inBlock, Before(t, k), p) == t[k..k + 1]
  {
    assert t[k..][..1] == t[k..k + 1];
  }

  /** One step of the pass, when the rest is done. */
  ghost predicate StepDone(s: string, t: Text, k: nat, next: nat, p: Pattern, rest: Text) {
    && Canonical(t) && s == Flatten(t) && k < next <= |t| && Regular(p) && |rest| == |t| - next
    && Rewrites(s, Off(t, next), p, rest, rest == t[next..])
  }

  lemma MatchRewrites(s: string, t: Text, k: nat, next: nat, p: Pattern, rest: Text, kept: Text, written: Text, head: Text)
    requires StepDone(s, t, k, next, p, rest) && Matched(s, t, k, next, p, kept, written) && kept == t[k..next]
    requires head == if InBlock(s, 0, Off(t, k)) then kept else written
    ensures Rewrites(s, Off(t, k), p, head + rest, head + rest == t[k..])
  {
    hide Flatten, InBlock;
    SplitEqual(t, k, head, rest);
    MatchedStep(s, Off(t, k), Off(t, next), p, kept, written, head, rest, rest == t[next..]);
  }

  lemma NoMatchRewrites(s: string, t: Text, k: nat, next: nat, p: Pattern, rest: Text)
    requires StepDone(s, t, k, next, p, rest) && next == k + 1 && !MatchesAt(t[k..], Before(t, k), p)
    ensures Rewrites(s, Off(t, k), p, t[k..next] + rest, t[k..next] + rest == t[k..])
  {
    SplitEqual(t, k, t[k..next], rest);
    CopiedStep(s, t, k, p, rest, rest == t[next..]);
  }

  lemma MatchStep(s: string, t: Text, k: nat, next: nat, p: Pattern, inBlock: bool, rest: Text)
    requires StepDone(s, t, k, next, p, rest) && next == k + |p.items| && MatchesAt(t[k..], Before(t, k), p)
    requires inBlock == InBlock(s, 0, Off(t, k))
    ensures
      var head := Head(t[k..], inBlock, Before(t, k), p);
      Rewrites(s, Off(t, k), p, head + rest, head + rest == t[k..])
  {
    hide MatchesAt, Head, Flatten;
    HeadOfMatch(t, k, inBlock, p);
    var kept := t[k..next];
    MatchIsMatched(s, t, k, next, p, kept);
    MatchRewrites(s, t, k, next, p, rest, kept, Written(p.items, kept), Head(t[k..], inBlock, Before(t, k), p));
  }

  lemma NoMatchStep(s: string, t: Text, k: nat, next: nat, p: Pattern, inBlock: bool, rest: Text)
    requires StepDone(s, t, k, next, p, rest) && next == k + 1 && !MatchesAt(t[k..], Before(t, k), p)
    ensures
      var head := Head(t[k..], inBlock, Before(t, k), p);
      Rewrites(s, Off(t, k), p, head + rest, head + rest == t[k..])
  {
    HeadOfNoMatch(t, k, inBlock, p);
    NoMatchRewrites(s, t, k, next, p, rest);
  }

  lemma WidthIs(t: Text, k: nat, p: Pattern)
    requires k < |t|
    ensures Width(t[k..], Before(t, k), p) == if MatchesAt(t[k..], Before(t, k), p) then |p.items| else 1
  {
  }

  lemma StepRewrites(s: string, t: Text, k: nat, next: nat, p: Pattern, inBlock: bool, rest: Text)
    requires StepDone(s, t, k, next, p, rest) && next == k + Width(t[k..], Before(t, k), p)
    requires inBlock == InBlock(s, 0, Off(t, k))
    ensures
      var head := Head(t[k..], inBlock, Before(t, k), p);
      Rewrites(s, Off(t, k), p, head + rest, head + rest == t[k..])
  {
    WidthIs(t, k, p);
    if MatchesAt(t[k..], Before(t, k), p) {
      MatchStep(s, t, k, next, p, inBlock, rest);
    } else {
      NoMatchStep(s, t, k, next, p, inBlock, rest);
    }
  }

  lemma RewriteStep(s: string, t: Text, k: nat, next: nat, p: Pattern)
    requires Canonical(t) && s == Flatten(t) && k < |t| && next == k + Width(t[k..], Before(t, k), p) && Regular(p)
    requires Rewrites(s, Off(t, next), p, PassFrom(t, Mask(t), next, p), PassFrom(t, Mask(t), next, p) == t[next..])
    ensures Rewrites(s, Off(t, k), p, PassFrom(t, Mask(t), k, p), PassFrom(t, Mask(t), k, p) == t[k..])
  {
    PassFromStep(t, Mask(t), k, p, next);
    MaskIs(t, k);
    StepRewrites(s, t, k, next, p, Mask(t)[k], PassFrom(t, Mask(t), next, p));
  }

  /** From the place of token `k` on, the string is rewritten as the tokens are. */
  lemma {:induction false} RewriteRefines(s: string, t: Text, k: nat, p: Pattern)
    requires Canonical(t) && s == Flatten(t) && k <= |t| && Regular(p)
    ensures Rewrites(s, Off(t, k), p, PassFrom(t, Mask(t), k, p), PassFrom(t, Mask(t), k, p) == t[k..])
    decreases |t| - k
  {
    if k == |t| {
      FlattenSpells(t);
      OffInside(s, t, k);
    } else {
      var next := k + Width(t[k..], Before(t, k), p);
      RewriteRefines(s, t, next, p);
      RewriteStep(s, t, k, next, p);
    }
  }
}
