/**
 The marker scan and the search for a literal marker see a string as its tokens: no marker part
 contains a digit, so nothing is found inside a number and everything else token by token.
 */
module MarkerScan {
  import opened MarkerText
  import opened MarkerTokens
  import opened MarkerMatching
  import opened Search
  import opened Strings
  import opened Wrappers

  /** A position of the text as a position of the string. */
  function Place(t: Text, r: Option<nat>): Option<nat>
    requires r.Some? ==> r.value <= |t|
  {
    match r
    case Some(k) => Some(Off(t, k))
    case None => None
  }

  // ---- words without digits ------------------------------------------------------------------------------

  predicate DigitFree(w: string) {
    forall j | 0 <= j < |w| :: !IsDigit(w[j])
  }

  lemma SkeletonChar(s: string, t: Text, k: nat)
    requires Spelled(s, t) && k < |t| 
    ensures Off(t, k) < |s|
    ensures t[k].Ch? ==> s[Off(t, k)] == Skeleton(t)[k] && Off(t, k + 1) == Off(t, k) + 1
    ensures t[k].Num? ==> IsDigit(s[Off(t, k)]) && Skeleton(t)[k] == '0'
  {
    if t[k].Ch? { CharAt(s, t, k); } else { DigitsAt(s, t, k); }
  }

  /** The rest of the word `w` from its character `j` on stands at the same place in both. */
  predicate RestSits(w: string, s: string, i: nat, j: nat) {
    j <= |w| && i + (|w| - j) <= |s| && forall x | j <= x < |w| :: s[i + (x - j)] == w[x]
  }

  lemma {:induction false} WordSits(w: string, s: string, t: Text, k: nat, j: nat)
    requires Spelled(s, t) && DigitFree(w) && k <= |t| && j <= |w|
    ensures RestSits(w, s, Off(t, k), j) <==> RestSits(w, Skeleton(t), k, j)
    ensures RestSits(w, s, Off(t, k), j) ==> Off(t, k + (|w| - j)) == Off(t, k) + (|w| - j)
    decreases |w| - j
  {
    hide Skeleton, Off;
    OffInside(s, t, k);
    if j < |w| {
      if k < |t| {
        SkeletonChar(s, t, k);
        if t[k] == Ch(w[j]) {
          WordSits(w, s, t, k + 1, j + 1);
          RestOne(w, s, Off(t, k), j);
          RestOne(w, Skeleton(t), k, j);
        } else {
          NotHere(w, s, Off(t, k), j);
          NotHere(w, Skeleton(t), k, j);
        }
      }
    }
  }

  lemma RestOne(w: string, s: string, i: nat, j: nat)
    requires j < |w| && i < |s| && s[i] == w[j]
    ensures RestSits(w, s, i, j) <==> RestSits(w, s, i + 1, j + 1)
  {
    if RestSits(w, s, i + 1, j + 1) {
      forall x | j <= x < |w| ensures s[i + (x - j)] == w[x] {
        if x > j { assert s[i + 1 + (x - (j + 1))] == w[x]; }
      }
    }
    if RestSits(w, s, i, j) {
      forall x | j + 1 <= x < |w| ensures s[i + 1 + (x - (j + 1))] == w[x] {
        assert s[i + (x - j)] == w[x];
      }
    }
  }

  lemma NotHere(w: string, s: string, i: nat, j: nat)
    requires j < |w| && i < |s| && s[i] != w[j]
    ensures !RestSits(w, s, i, j)
  {
    if RestSits(w, s, i, j) {
      Differs(w, s, i, j);
    }
  }

  lemma Differs(w: string, s: string, i: nat, j: nat)
    requires j < |w| && RestSits(w, s, i, j)
    ensures s[i] == w[j]
  {
    assert s[i + (j - j)] == w[j];
  }

  lemma RestIsSits(w: string, s: string, i: nat)
    ensures RestSits(w, s, i, 0) <==> Sits(w, s, i)
  {
    if Sits(w, s, i) {
      forall x | 0 <= x < |w| ensures s[i + (x - 0)] == w[x] { assert s[i + x] == w[x]; }
    }
    if RestSits(w, s, i, 0) {
      forall x | 0 <= x < |w| ensures s[i + x] == w[x] { assert s[i + (x - 0)] == w[x]; }
    }
  }

  /** A word without digits stands at a token of the string exactly if it stands there in the skeleton. */
  lemma WordAt(w: string, s: string, t: Text, k: nat)
    requires Spelled(s, t) && DigitFree(w) && k <= |t|
    ensures Sits(w, s, Off(t, k)) <==> Sits(w, Skeleton(t), k)
    ensures Sits(w, s, Off(t, k)) ==> Off(t, k + |w|) == Off(t, k) + |w|
  {
    WordSits(w, s, t, k, 0);
    RestIsSits(w, s, Off(t, k));
    RestIsSits(w, Skeleton(t), k);
  }

  // ---- the parts of a marker ----------------------------------------------------------------------------

  const COMMENT := "<!--"
  const CLOSE := "-->"

  lemma PartsAreDigitFree(side: Side)
    ensures DigitFree(Keyword(side)) && DigitFree(COMMENT) && DigitFree(CLOSE)
  {
  }

  lemma CommentSits(s: string, i: nat)
    ensures AtComment(s, i) <==> Sits(COMMENT, s, i)
    ensures AtClose(s, i) <==> Sits(CLOSE, s, i)
  {
    var zero, one, two, three := 0, 1, 2, 3;
    if Sits(COMMENT, s, i) {
      assert s[i + zero] == COMMENT[zero] && s[i + one] == COMMENT[one] && s[i + two] == COMMENT[two]
             && s[i + three] == COMMENT[three];
    }
    if Sits(CLOSE, s, i) {
      assert s[i + zero] == CLOSE[zero] && s[i + one] == CLOSE[one] && s[i + two] == CLOSE[two];
    }
  }

  lemma KeywordAt(s: string, t: Text, k: nat, side: Side)
    requires Spelled(s, t) && k <= |t|
    ensures Sits(Keyword(side), s, Off(t, k)) <==> Sits(Keyword(side), Skeleton(t), k)
    ensures Sits(Keyword(side), s, Off(t, k)) ==> Off(t, k + |Keyword(side)|) == Off(t, k) + |Keyword(side)|
  {
    PartsAreDigitFree(side);
    WordAt(Keyword(side), s, t, k);
  }

  lemma SpaceScans(s: string, t: Text, k: nat)
    requires Spelled(s, t) && k <= |t|
    ensures Off(t, k) < |s| && IsSpace(s[Off(t, k)]) <==> k < |t| && IsSpace(Skeleton(t)[k])
    ensures k < |t| && IsSpace(Skeleton(t)[k]) ==> Off(t, k + 1) == Off(t, k) + 1
  {
    OffInside(s, t, k);
    if k < |t| { SkeletonChar(s, t, k); }
  }

  lemma KeywordStep(s: string, i: nat, side: Side)
    requires i < |s| && IsSpace(s[i])
    ensures KeywordEnd(s, i, side) == KeywordEnd(s, i + 1, side)
  {
  }

  lemma KeywordHere(s: string, i: nat, side: Side)
    requires !(i < |s| && IsSpace(s[i]))
    ensures KeywordEnd(s, i, side) == if Sits(Keyword(side), s, i) then Some(i + |Keyword(side)|) else None
  {
  }

  lemma {:induction false} KeywordScans(s: string, t: Text, k: nat, side: Side)
    requires Spelled(s, t) && k <= |t|
    ensures KeywordEnd(s, Off(t, k), side) == Place(t, KeywordEnd(Skeleton(t), k, side))
    decreases |t| - k
  {
    hide KeywordEnd, Keyword, IsSpace;
    SpaceScans(s, t, k);
    if k < |t| && IsSpace(Skeleton(t)[k]) {
      KeywordScans(s, t, k + 1, side);
      KeywordStep(s, Off(t, k), side);
      KeywordStep(Skeleton(t), k, side);
    } else {
      KeywordAt(s, t, k, side);
      KeywordHere(s, Off(t, k), side);
      KeywordHere(Skeleton(t), k, side);
    }
  }

  lemma CommentScans(s: string, t: Text, k: nat)
    requires Spelled(s, t) && k <= |t|
    ensures AtComment(s, Off(t, k)) <==> AtComment(Skeleton(t), k)
    ensures AtComment(s, Off(t, k)) ==> Off(t, k + 4) == Off(t, k) + 4
  {
    PartsAreDigitFree(BEGIN);
    WordAt(COMMENT, s, t, k);
    CommentSits(s, Off(t, k));
    CommentSits(Skeleton(t), k);
  }

  lemma CloseScans(s: string, t: Text, k: nat)
    requires Spelled(s, t) && k <= |t|
    ensures AtClose(s, Off(t, k)) <==> AtClose(Skeleton(t), k)
    ensures AtClose(s, Off(t, k)) ==> Off(t, k + 3) == Off(t, k) + 3
  {
    PartsAreDigitFree(BEGIN);
    WordAt(CLOSE, s, t, k);
    CommentSits(s, Off(t, k));
    CommentSits(Skeleton(t), k);
  }

  lemma OpenScans(s: string, t: Text, k: nat, side: Side)
    requires Spelled(s, t) && k <= |t|
    ensures OpenEnd(s, Off(t, k), side) == Place(t, OpenEnd(Skeleton(t), k, side))
  {
    hide KeywordEnd;
    CommentScans(s, t, k);
    if AtComment(Skeleton(t), k) { KeywordScans(s, t, k + 4, side); }
  }

  // ---- what does not start at a token ------------------------------------------------------------------

  lemma NothingOpensInside(s: string, t: Text, k: nat, i: nat, side: Side)
    requires Inside(s, t, k, i)
    ensures i < |s| && OpenEnd(s, i, side).None? && !AtClose(s, i) && BlockEnd(s, i).None?
  {
    NoBoundaryInside(s, t, k, i);
  }

  lemma NextIsInside(s: string, t: Text, k: nat, i: nat)
    requires Spelled(s, t) && k < |t| && Off(t, k) < i < Off(t, k + 1)
    ensures Inside(s, t, k, i)
  {
    if t[k].Ch? { CharAt(s, t, k); }
  }

  lemma {:induction false} FindOpenSkips(s: string, t: Text, k: nat, i: nat, side: Side)
    requires Spelled(s, t) && k < |t| && Off(t, k) < i <= Off(t, k + 1) <= |s|
    ensures FindOpen(s, i, side) == FindOpen(s, Off(t, k + 1), side)
    decreases Off(t, k + 1) - i
  {
    if i < Off(t, k + 1) {
      NextIsInside(s, t, k, i);
      NothingOpensInside(s, t, k, i, side);
      FindOpenSkips(s, t, k, i + 1, side);
    }
  }

  lemma {:induction false} FindCloseSkips(s: string, t: Text, k: nat, i: nat)
    requires Spelled(s, t) && k < |t| && Off(t, k) < i <= Off(t, k + 1) <= |s|
    ensures FindClose(s, i) == FindClose(s, Off(t, k + 1))
    decreases Off(t, k + 1) - i
  {
    if i < Off(t, k + 1) {
      NextIsInside(s, t, k, i);
      NothingOpensInside(s, t, k, i, BEGIN);
      FindCloseSkips(s, t, k, i + 1);
    }
  }

  lemma NextStart(s: string, t: Text, k: nat)
    requires Spelled(s, t) && k < |t|
    ensures Off(t, k) < Off(t, k + 1) <= |s|
  {
    OffInside(s, t, k + 1);
    OffGrows(t, k, k + 1);
  }

  lemma {:induction false} FindOpenScans(s: string, t: Text, k: nat, side: Side)
    requires Spelled(s, t) && k <= |t|
    ensures FindOpen(s, Off(t, k), side) == Place(t, FindOpen(Skeleton(t), k, side))
    decreases |t| - k
  {
    OffInside(s, t, k);
    OpenScans(s, t, k, side);
    if k < |t| && OpenEnd(Skeleton(t), k, side).None? {
      NextStart(s, t, k);
      FindOpenScans(s, t, k + 1, side);
      FindOpenSkips(s, t, k, Off(t, k) + 1, side);
    }
  }

  lemma {:induction false} FindCloseScans(s: string, t: Text, k: nat)
    requires Spelled(s, t) && k <= |t|
    ensures FindClose(s, Off(t, k)) == Place(t, FindClose(Skeleton(t), k))
    decreases |t| - k
  {
    hide Off;
    OffInside(s, t, k);
    CloseScans(s, t, k);
    if k < |t| && !AtClose(Skeleton(t), k) {
      NextStart(s, t, k);
      FindCloseScans(s, t, k + 1);
      FindCloseSkips(s, t, k, Off(t, k) + 1);
    }
  }

  lemma BlockScans(s: string, t: Text, k: nat)
    requires Spelled(s, t) && k <= |t|
    ensures BlockEnd(s, Off(t, k)) == Place(t, BlockEnd(Skeleton(t), k))
  {
    hide OpenEnd;
    var u := Skeleton(t);
    OpenScans(s, t, k, BEGIN);
    if OpenEnd(u, k, BEGIN).Some? {
      var named := OpenEnd(u, k, BEGIN).value;
      FindCloseScans(s, t, named);
      if FindClose(u, named).Some? {
        var inside := FindClose(u, named).value;
        FindOpenScans(s, t, inside, END);
        if FindOpen(u, inside, END).Some? { FindCloseScans(s, t, FindOpen(u, inside, END).value); }
      }
    }
  }

  lemma {:induction false} InBlockSkips(s: string, t: Text, k: nat, i: nat, y: nat)
    requires Spelled(s, t) && k < |t| && Off(t, k) < i <= Off(t, k + 1) <= |s| && Off(t, k + 1) <= y
    ensures InBlock(s, i, y) == InBlock(s, Off(t, k + 1), y)
    decreases Off(t, k + 1) - i
  {
    if i < Off(t, k + 1) {
      NextIsInside(s, t, k, i);
      NothingOpensInside(s, t, k, i, BEGIN);
      InBlockSkips(s, t, k, i + 1, y);
    }
  }

  lemma OffOrders(t: Text, x: nat, e: nat)
    requires Canonical(t) && x <= |t| && e <= |t|
    ensures Off(t, x) < Off(t, e) <==> x < e
  {
    if x < e { OffGrows(t, x, e); } else { OffGrows(t, e, x); }
  }

  lemma InBlockNext(s: string, t: Text, k: nat, x: nat)
    requires Spelled(s, t) && k <= x < |t| && Off(t, k) < Off(t, k + 1) <= |s|
    ensures InBlock(s, Off(t, k) + 1, Off(t, x)) == InBlock(s, Off(t, k + 1), Off(t, x))
  {
    hide InBlock;
    if k < x {
      OffGrows(t, k + 1, x);
      InBlockSkips(s, t, k, Off(t, k) + 1, Off(t, x));
    } else {
      PastIsOutside(s, Off(t, k) + 1, Off(t, k));
      PastIsOutside(s, Off(t, k + 1), Off(t, k));
    }
  }

  lemma PastIsOutside(s: string, i: nat, y: nat)
    requires y < i <= |s|
    ensures !InBlock(s, i, y)
  {
  }

  lemma InBlockStep(s: string, i: nat, y: nat)
    requires i < |s| && i <= y
    ensures InBlock(s, i, y) == match BlockEnd(s, i)
                                case Some(end) => y < end || InBlock(s, end, y)
                                case None => InBlock(s, i + 1, y)
  {
  }

  /** At a block: what lies before its end is inside it. */
  lemma InBlockBehind(s: string, t: Text, k: nat, x: nat, end: nat)
    requires Spelled(s, t) && k <= x < |t| && Off(t, k) < |s| && Off(t, k) <= Off(t, x)
    requires BlockEnd(Skeleton(t), k) == Some(end) && Off(t, end) <= |s|
    requires InBlock(s, Off(t, end), Off(t, x)) == InBlock(Skeleton(t), end, x)
    ensures InBlock(s, Off(t, k), Off(t, x)) == InBlock(Skeleton(t), k, x)
  {
    BlockScans(s, t, k);
    OffOrders(t, x, end);
    InBlockStep(s, Off(t, k), Off(t, x));
    InBlockStep(Skeleton(t), k, x);
  }

  /** Outside a block the scan goes on behind the token. */
  lemma InBlockAhead(s: string, u: string, i: nat, next: nat, y: nat, k: nat, x: nat)
    requires i < next <= |s| && i <= y && BlockEnd(s, i).None? && InBlock(s, i + 1, y) == InBlock(s, next, y)
    requires k <= x && k < |u| && BlockEnd(u, k).None? && InBlock(s, next, y) == InBlock(u, k + 1, x)
    ensures InBlock(s, i, y) == InBlock(u, k, x)
  {
    OutsideStep(s, i, y);
    OutsideStep(u, k, x);
  }

  lemma OutsideStep(s: string, i: nat, y: nat)
    requires i < |s| && i <= y && BlockEnd(s, i).None?
    ensures InBlock(s, i, y) == InBlock(s, i + 1, y)
  {
  }

  /** `_in_marker` says the same of a token and of the position where it is shown. */
  lemma {:induction false} InBlockScans(s: string, t: Text, k: nat, x: nat)
    requires Spelled(s, t) && k <= |t| && x < |t| && Off(t, k) <= |s|
    ensures InBlock(s, Off(t, k), Off(t, x)) == InBlock(Skeleton(t), k, x)
    decreases |t| - k
  {
    hide InBlock, BlockEnd;
    OffOrders(t, x, k);
    if x < k {
      PastIsOutside(s, Off(t, k), Off(t, x));
      PastIsOutside(Skeleton(t), k, x);
    } else {
      NextStart(s, t, k);
      match BlockEnd(Skeleton(t), k)
      case Some(end) =>
        OffInside(s, t, end);
        InBlockScans(s, t, end, x);
        InBlockBehind(s, t, k, x, end);
      case None =>
        InBlockScans(s, t, k + 1, x);
        BlockScans(s, t, k);
        InBlockNext(s, t, k, x);
        InBlockAhead(s, Skeleton(t), Off(t, k), Off(t, k + 1), Off(t, x), k, x);
    }
  }
}
