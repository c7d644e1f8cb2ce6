/** Why the free-form rewriter settles after one run: on any text it writes numbers where numbers are. */
module SurfaceSync {
  import opened MarkerText
  import opened Wrappers

  // ---- one pass, position by position ----------------------------------------------------------------

  predicate Before(t: Text, i: nat)
    requires i <= |t|
  {
    i > 0 && Word(t[i - 1])
  }

  /** What is left to rewrite from position `i` on. */
  function PassFrom(t: Text, mask: seq<bool>, i: nat, p: Pattern): Text
    requires |mask| == |t| && i <= |t|
  {
    Pass(t[i..], mask[i..], Before(t, i), p)
  }

  lemma Slices<T>(t: seq<T>, i: nat, n: nat)
    requires i + n <= |t|
    ensures t[i..][n..] == t[i + n..] && t[i..][..n] == t[i..i + n]
  {
  }

  lemma PassFromStep(t: Text, mask: seq<bool>, i: nat, p: Pattern, next: nat)
    requires |mask| == |t| && i < |t| && next == i + Width(t[i..], Before(t, i), p)
    ensures i < next <= |t|
    ensures PassFrom(t, mask, i, p) == Head(t[i..], mask[i], Before(t, i), p) + PassFrom(t, mask, next, p)
  {
    PassStep(t[i..], mask[i..], Before(t, i), p, next - i);
    SamePass(t, mask, i, p, next, t[i..], mask[i..]);
  }

  lemma SamePass(t: Text, mask: seq<bool>, i: nat, p: Pattern, next: nat, u: Text, m: seq<bool>)
    requires |mask| == |t| && i < next <= |t| && u == t[i..] && m == mask[i..]
    ensures m[0] == mask[i]
    ensures Pass(u[next - i..], m[next - i..], Word(u[next - i - 1]), p) == PassFrom(t, mask, next, p)
  {
    Slices(t, i, next - i);
    Slices(mask, i, next - i);
    assert u[next - i - 1] == t[next - 1];
  }

  lemma PassStep(t: Text, mask: seq<bool>, before: bool, p: Pattern, n: nat)
    requires t != [] && |mask| == |t| && n == Width(t, before, p)
    ensures Pass(t, mask, before, p) == Head(t, mask[0], before, p) + Pass(t[n..], mask[n..], Word(t[n - 1]), p)
  {
  }

  // ---- only numbers change -------------------------------------------------------------------------

  ghost predicate SameShape(a: Text, b: Text) {
    |a| == |b| && forall i | 0 <= i < |a| :: a[i] == b[i] || (a[i].Num? && b[i].Num?)
  }

  lemma SameSuffix(a: Text, b: Text, n: nat)
    requires SameShape(a, b) && n <= |a|
    ensures SameShape(a[n..], b[n..])
  {
  }

  lemma SameShapeSameMask(a: Text, b: Text)
    requires SameShape(a, b)
    ensures Mask(a) == Mask(b)
  {
    assert Skeleton(a) == Skeleton(b);
  }

  // ---- which position gets which number ----------------------------------------------------------------

  type Cover = seq<Option<string>>

  /** The numbers one pattern writes, position by position. */
  function Covered(t: Text, mask: seq<bool>, before: bool, p: Pattern): (c: Cover)
    requires |mask| == |t|
    ensures |c| == |t|
    decreases |t|
  {
    if t == [] then []
    else
      var n := Width(t, before, p);
      HeadCover(t, mask[0], before, p) + Covered(t[n..], mask[n..], Word(t[n - 1]), p)
  }

  function HeadCover(t: Text, inBlock: bool, before: bool, p: Pattern): (c: Cover)
    requires t != []
    ensures |c| == Width(t, before, p)
  {
    if MatchesAt(t, before, p) && !inBlock then Puts(p.items) else seq(Width(t, before, p), _ => None)
  }

  function Puts(items: seq<Item>): Cover {
    seq(|items|, k requires 0 <= k < |items| => if items[k].Put? then Some(items[k].digits) else None)
  }

  /** The text with these numbers written into it. */
  function Overlay(t: Text, c: Cover): (r: Text)
    requires |c| == |t|
    ensures |r| == |t| && forall i | 0 <= i < |t| :: r[i] == if c[i].Some? then Num(c[i].value) else t[i]
  {
    seq(|t|, i requires 0 <= i < |t| => if c[i].Some? then Num(c[i].value) else t[i])
  }

  ghost predicate OnNumbers(t: Text, c: Cover) {
    |c| == |t| && forall i | 0 <= i < |t| && c[i].Some? :: t[i].Num?
  }

  lemma OverlayJoin(t: Text, n: nat, c1: Cover, c2: Cover)
    requires n <= |t| && |c1| == n && |c2| == |t| - n
    ensures Overlay(t, c1 + c2) == Overlay(t[..n], c1) + Overlay(t[n..], c2)
  {
    var whole, parts := Overlay(t, c1 + c2), Overlay(t[..n], c1) + Overlay(t[n..], c2);
    forall i | 0 <= i < |t| ensures whole[i] == parts[i] {
      assert (c1 + c2)[i] == if i < n then c1[i] else c2[i - n];
    }
  }

  lemma NumbersJoin(t: Text, n: nat, c1: Cover, c2: Cover)
    requires n <= |t| && OnNumbers(t[..n], c1) && OnNumbers(t[n..], c2)
    ensures OnNumbers(t, c1 + c2)
  {
    forall i | 0 <= i < |t| && (c1 + c2)[i].Some? ensures t[i].Num? {
      if i < n {
        assert t[..n][i] == t[i];
      } else {
        assert t[n..][i - n] == t[i] && c2[i - n].Some?;
      }
    }
  }

  lemma HeadOverlays(t: Text, inBlock: bool, before: bool, p: Pattern)
    requires t != []
    ensures
      var head, c := t[..Width(t, before, p)], HeadCover(t, inBlock, before, p);
      OnNumbers(head, c) && Overlay(head, c) == Head(t, inBlock, before, p)
  {
    if MatchesAt(t, before, p) {
      assert forall k | 0 <= k < |p.items| :: Accepts(p.items[k], t[k]);
    }
  }

  /** A pass writes its cover, and a cover lies on numbers only. */
  lemma {:induction false} PassOverlays(t: Text, mask: seq<bool>, before: bool, p: Pattern)
    requires |mask| == |t|
    ensures OnNumbers(t, Covered(t, mask, before, p))
    ensures Pass(t, mask, before, p) == Overlay(t, Covered(t, mask, before, p))
    decreases |t|
  {
    if t != [] {
      var n := Width(t, before, p);
      var first, rest := HeadCover(t, mask[0], before, p), Covered(t[n..], mask[n..], Word(t[n - 1]), p);
      PassOverlays(t[n..], mask[n..], Word(t[n - 1]), p);
      HeadOverlays(t, mask[0], before, p);
      OverlayJoin(t, n, first, rest);
      NumbersJoin(t, n, first, rest);
    }
  }

  lemma ShapeMatchesAt(a: Text, b: Text, before: bool, p: Pattern)
    requires SameShape(a, b)
    ensures MatchesAt(a, before, p) == MatchesAt(b, before, p)
  {
    if |p.items| <= |a| {
      assert forall k | 0 <= k < |p.items| :: Accepts(p.items[k], a[k]) == Accepts(p.items[k], b[k]);
    }
  }

  lemma ShapeHead(a: Text, b: Text, inBlock: bool, before: bool, p: Pattern)
    requires SameShape(a, b) && a != []
    ensures Width(a, before, p) == Width(b, before, p)
    ensures HeadCover(a, inBlock, before, p) == HeadCover(b, inBlock, before, p)
    ensures Word(a[Width(a, before, p) - 1]) == Word(b[Width(a, before, p) - 1])
  {
    ShapeMatchesAt(a, b, before, p);
  }

  /** Which numbers a pattern writes does not depend on the numbers that are there. */
  lemma {:induction false} ShapeCovered(a: Text, b: Text, mask: seq<bool>, before: bool, p: Pattern)
    requires SameShape(a, b) && |mask| == |a|
    ensures Covered(a, mask, before, p) == Covered(b, mask, before, p)
    decreases |a|
  {
    if a != [] {
      var n := Width(a, before, p);
      ShapeHead(a, b, mask[0], before, p);
      SameSuffix(a, b, n);
      ShapeCovered(a[n..], b[n..], mask[n..], Word(a[n - 1]), p);
    }
  }

  /** The numbers one entry writes. */
  function EntryCover(t: Text, e: Entry): (c: Cover)
    ensures |c| == |t|
  {
    if e.active then Covered(t, Mask(t), false, e.pattern) else seq(|t|, _ => None)
  }

  lemma ApplyOverlays(t: Text, e: Entry)
    ensures OnNumbers(t, EntryCover(t, e)) && Apply(t, e) == Overlay(t, EntryCover(t, e))
    ensures SameShape(t, Apply(t, e))
  {
    if e.active { PassOverlays(t, Mask(t), false, e.pattern); }
  }

  lemma ShapeEntryCover(a: Text, b: Text, e: Entry)
    requires SameShape(a, b)
    ensures EntryCover(a, e) == EntryCover(b, e)
  {
    SameShapeSameMask(a, b);
    if e.active { ShapeCovered(a, b, Mask(a), false, e.pattern); }
  }

  /** The last entry that writes a position decides it. */
  function SyncCover(t: Text, entries: seq<Entry>): (c: Cover)
    ensures |c| == |t|
  {
    if entries == [] then seq(|t|, _ => None)
    else
      var before, last := SyncCover(t, entries[..|entries| - 1]), EntryCover(t, entries[|entries| - 1]);
      seq(|t|, i requires 0 <= i < |t| => if last[i].Some? then last[i] else before[i])
  }

  lemma {:induction false} SyncOverlays(t: Text, entries: seq<Entry>)
    ensures SameShape(t, Sync(t, entries))
    ensures Sync(t, entries) == Overlay(t, SyncCover(t, entries))
    decreases |entries|
  {
    if entries != [] {
      var init, last := entries[..|entries| - 1], entries[|entries| - 1];
      var so := Sync(t, init);
      SyncOverlays(t, init);
      ApplyOverlays(so, last);
      ShapeEntryCover(t, so, last);
    }
  }

  lemma {:induction false} ShapeSyncCover(a: Text, b: Text, entries: seq<Entry>)
    requires SameShape(a, b)
    ensures SyncCover(a, entries) == SyncCover(b, entries)
    decreases |entries|
  {
    if entries != [] {
      ShapeSyncCover(a, b, entries[..|entries| - 1]);
      ShapeEntryCover(a, b, entries[|entries| - 1]);
    }
  }

  /**
   One run settles every text: a second run changes nothing. The text need not be well formed, and
   entries may overlap or even disagree about a number.
   */
  lemma SyncSettles(t: Text, entries: seq<Entry>)
    ensures Sync(Sync(t, entries), entries) == Sync(t, entries)
  {
    var once := Sync(t, entries);
    SyncOverlays(t, entries);
    SyncOverlays(once, entries);
    ShapeSyncCover(t, once, entries);
  }

  /** No two entries write different numbers at one place. */
  ghost predicate Agree(t: Text, entries: seq<Entry>) {
    forall d, e, i | d in entries && e in entries && 0 <= i < |t| ::
      EntryCover(t, d)[i].Some? && EntryCover(t, e)[i].Some? ==> EntryCover(t, d)[i] == EntryCover(t, e)[i]
  }

  lemma {:induction false} LastWriter(t: Text, entries: seq<Entry>, i: nat, e: Entry) returns (d: Entry)
    requires i < |t| && e in entries && EntryCover(t, e)[i].Some?
    ensures d in entries && EntryCover(t, d)[i].Some? && SyncCover(t, entries)[i] == EntryCover(t, d)[i]
    decreases |entries|
  {
    var init, last := entries[..|entries| - 1], entries[|entries| - 1];
    if EntryCover(t, last)[i].Some? {
      d := last;
    } else {
      d := LastWriter(t, init, i, e);
    }
  }

  /** A dry run after a write finds nothing to report, entry by entry, exactly if the entries agree. */
  lemma DryRunIsCleanExactlyWhen(t: Text, entries: seq<Entry>)
    ensures (forall e | e in entries :: Apply(Sync(t, entries), e) == Sync(t, entries)) <==> Agree(t, entries)
  {
    var once := Sync(t, entries);
    if Agree(t, entries) {
      forall e | e in entries ensures Apply(once, e) == once { AgreementIsClean(t, entries, e); }
    }
    if forall e | e in entries :: Apply(once, e) == once {
      forall d, e, i | d in entries && e in entries && 0 <= i < |t| && EntryCover(t, d)[i].Some? && EntryCover(t, e)[i].Some?
        ensures EntryCover(t, d)[i] == EntryCover(t, e)[i]
      {
        CleanWrites(t, entries, d, i);
        CleanWrites(t, entries, e, i);
      }
    }
  }

  lemma AgreementIsClean(t: Text, entries: seq<Entry>, e: Entry)
    requires Agree(t, entries) && e in entries
    ensures Apply(Sync(t, entries), e) == Sync(t, entries)
  {
    var once := Sync(t, entries);
    SyncOverlays(t, entries);
    ApplyOverlays(once, e);
    ShapeEntryCover(t, once, e);
    forall i | 0 <= i < |t| && EntryCover(t, e)[i].Some? ensures once[i] == Num(EntryCover(t, e)[i].value) {
      var d := LastWriter(t, entries, i, e);
    }
  }

  lemma CleanWrites(t: Text, entries: seq<Entry>, e: Entry, i: nat)
    requires e in entries && Apply(Sync(t, entries), e) == Sync(t, entries)
    requires i < |t| && EntryCover(t, e)[i].Some?
    ensures Sync(t, entries)[i] == Num(EntryCover(t, e)[i].value)
  {
    var once := Sync(t, entries);
    SyncOverlays(t, entries);
    ApplyOverlays(once, e);
    ShapeEntryCover(t, once, e);
  }
}
