/**
 The backtracking matcher sees a text as its tokens: on what it accepts, where it ends and what it
 writes it agrees with matching items against tokens, and it finds nothing inside a number.
 */
module MarkerMatching {
  import opened MarkerText
  import opened MarkerTokens
  import opened MarkerStrings
  import opened SurfaceSync
  import opened Wrappers

  predicate ValidItem(item: Item) {
    match item
    case Lit(c) => !IsDigit(c)
    case Keep => true
    case Put(digits) => Decimal(digits)
  }

  /** One of two neighbours is literal. */
  predicate Separated(items: seq<Item>, j: nat)
    requires 0 < j < |items|
  {
    items[j - 1].Lit? || items[j].Lit?
  }

  /** Literal text without digits around numbers, and proper numbers to write. */
  predicate Regular(p: Pattern) {
    && p.items != []
    && (forall j {:trigger ValidItem(p.items[j])} | 0 <= j < |p.items| :: ValidItem(p.items[j]))
    && (forall j {:trigger Separated(p.items, j)} | 0 < j < |p.items| :: Separated(p.items, j))
  }

  // ---- matching items against tokens -----------------------------------------------------------------

  predicate TokenBoundary(t: Text, k: nat)
    requires k <= |t|
  {
    Before(t, k) != (k < |t| && Word(t[k]))
  }

  function WrittenToken(item: Item, token: Token): Token {
    if item.Put? then Num(item.digits) else token
  }

  /** Where the items from `j` on end in the text, and what is written. */
  function MatchTokens(t: Text, k: nat, p: Pattern, j: nat): (r: Option<(nat, Text)>)
    requires k <= |t| && j <= |p.items|
    ensures r.Some? ==> k <= r.value.0 <= |t| && r.value.0 == k + (|p.items| - j)
    decreases |p.items| - j
  {
    if j == |p.items| then
      if p.rightEdge && !TokenBoundary(t, k) then None else Some((k, []))
    else if k < |t| && Accepts(p.items[j], t[k]) then
      match MatchTokens(t, k + 1, p, j + 1)
      case Some((end, written)) => Some((end, [WrittenToken(p.items[j], t[k])] + written))
      case None => None
    else None
  }

  /** The same match in the string. */
  function Placed(t: Text, m: Option<(nat, Text)>): Option<Match>
    requires m.Some? ==> m.value.0 <= |t|
  {
    match m
    case Some((end, written)) => Some(Match(Off(t, end), Flatten(written)))
    case None => None
  }

  ghost predicate Spelled(s: string, t: Text) {
    Spells(s, t) && Canonical(t)
  }

  // ---- word boundaries -----------------------------------------------------------------------------------

  lemma BoundaryAt(s: string, t: Text, k: nat)
    requires Spelled(s, t) && k <= |t|
    ensures Off(t, k) <= |s| && Boundary(s, Off(t, k)) == TokenBoundary(t, k)
  {
    OffInside(s, t, k);
    if k > 0 { LastCharacter(s, t, k - 1); }
    if k < |t| { FirstCharacter(s, t, k); }
  }

  lemma LastCharacter(s: string, t: Text, k: nat)
    requires Spelled(s, t) && k < |t|
    ensures 0 < Off(t, k + 1) <= |s| && WordChar(s[Off(t, k + 1) - 1]) == Word(t[k])
  {
    if t[k].Ch? { CharAt(s, t, k); } else { DigitsAt(s, t, k); }
  }

  lemma FirstCharacter(s: string, t: Text, k: nat)
    requires Spelled(s, t) && k < |t|
    ensures Off(t, k) < |s| && WordChar(s[Off(t, k)]) == Word(t[k]) && IsDigit(s[Off(t, k)]) == t[k].Num?
  {
    if t[k].Ch? { CharAt(s, t, k); } else { DigitsAt(s, t, k); }
  }

  /** A position inside a number. */
  ghost predicate Inside(s: string, t: Text, k: nat, i: nat) {
    Spelled(s, t) && k < |t| && t[k].Num? && Off(t, k) < i < Off(t, k + 1)
  }

  lemma NoBoundaryInside(s: string, t: Text, k: nat, i: nat)
    requires Inside(s, t, k, i)
    ensures i < |s| && IsDigit(s[i]) && !Boundary(s, i)
  {
    DigitsAt(s, t, k);
  }

  // ---- the matcher -----------------------------------------------------------------------------------------

  lemma NoShorterNumber(s: string, t: Text, k: nat, e: nat, p: Pattern, j: nat)
    requires Inside(s, t, k, e) && Regular(p) && j < |p.items| && !p.items[j].Lit?
    requires Off(t, k + 1) <= |s| && MatchItems(s, Off(t, k + 1), p, j + 1).None?
    ensures e <= |s| && MatchItems(s, e, p, j + 1).None?
  {
    NoBoundaryInside(s, t, k, e);
    if j + 1 < |p.items| {
      assert Separated(p.items, j + 1);
      assert ValidItem(p.items[j + 1]);
    }
  }

  /** If the rest does not match behind a whole number, it matches behind no part of it. */
  lemma {:induction false} ShorterFails(s: string, t: Text, k: nat, i: nat, e: nat, p: Pattern, j: nat)
    requires Spelled(s, t) && k < |t| && t[k].Num? && Off(t, k) <= i <= e < Off(t, k + 1) <= |s|
    requires Regular(p) && j < |p.items| && !p.items[j].Lit?
    requires MatchItems(s, Off(t, k + 1), p, j + 1).None?
    ensures MatchDigits(s, i, e, p, j).None?
    decreases e - i
  {
    if i < e {
      NoShorterNumber(s, t, k, e, p, j);
      ShorterFails(s, t, k, i, e - 1, p, j);
    }
  }

  lemma FlattenCons(token: Token, rest: Text)
    ensures Flatten([token] + rest) == Show(token) + Flatten(rest)
  {
    assert ([token] + rest)[1..] == rest;
  }

  /** One more token in front. */
  function Ahead(token: Token, m: Option<(nat, Text)>): Option<(nat, Text)> {
    match m
    case Some((end, written)) => Some((end, [token] + written))
    case None => None
  }

  lemma TokenStep(t: Text, k: nat, p: Pattern, j: nat)
    requires k < |t| && j < |p.items| && Accepts(p.items[j], t[k])
    ensures MatchTokens(t, k, p, j) == Ahead(WrittenToken(p.items[j], t[k]), MatchTokens(t, k + 1, p, j + 1))
  {
  }

  lemma PlacedBehind(t: Text, token: Token, m: Option<(nat, Text)>)
    requires m.Some? ==> m.value.0 <= |t|
    ensures Behind(Show(token), Placed(t, m)) == Placed(t, Ahead(token, m))
  {
    if m.Some? { FlattenCons(token, m.value.1); }
  }

  lemma LiteralStep(s: string, t: Text, k: nat, p: Pattern, j: nat)
    requires Spelled(s, t) && k < |t| && Off(t, k + 1) <= |s| && j < |p.items| && t[k].Ch? && p.items[j] == Lit(t[k].c)
    requires MatchItems(s, Off(t, k + 1), p, j + 1) == Placed(t, MatchTokens(t, k + 1, p, j + 1))
    ensures Off(t, k) <= |s| && MatchItems(s, Off(t, k), p, j) == Placed(t, MatchTokens(t, k, p, j))
  {
    CharAt(s, t, k);
    PlacedBehind(t, t[k], MatchTokens(t, k + 1, p, j + 1));
    TokenStep(t, k, p, j);
  }

  lemma WholeNumberFirst(s: string, i: nat, e: nat, p: Pattern, j: nat)
    requires i < e <= |s| && RunEnd(s, i) == e && j < |p.items| && !p.items[j].Lit?
    ensures
      var m := Behind(Expanded(p.items[j], s[i..e]), MatchItems(s, e, p, j + 1));
      MatchItems(s, i, p, j) == if m.Some? then m else MatchDigits(s, i, e - 1, p, j)
  {
    assert MatchItems(s, i, p, j) == MatchDigits(s, i, e, p, j);
  }

  lemma NumberShown(s: string, t: Text, k: nat)
    requires Spelled(s, t) && k < |t| && t[k].Num?
    ensures Off(t, k) < Off(t, k + 1) <= |s| && RunEnd(s, Off(t, k)) == Off(t, k + 1)
    ensures s[Off(t, k)..Off(t, k + 1)] == t[k].digits
  {
    DigitsAt(s, t, k);
    RunOfNumber(s, t, k, Off(t, k));
  }

  lemma NumberExpands(item: Item, token: Token, digits: string)
    requires token == Num(digits)
    ensures Expanded(item, digits) == Show(WrittenToken(item, token))
  {
  }

  lemma NumberStep(s: string, t: Text, k: nat, p: Pattern, j: nat)
    requires Spelled(s, t) && Regular(p) && k < |t| && Off(t, k + 1) <= |s| && j < |p.items| && !p.items[j].Lit? && t[k].Num?
    requires MatchItems(s, Off(t, k + 1), p, j + 1) == Placed(t, MatchTokens(t, k + 1, p, j + 1))
    ensures Off(t, k) <= |s| && MatchItems(s, Off(t, k), p, j) == Placed(t, MatchTokens(t, k, p, j))
  {
    hide MatchItems, MatchDigits, MatchTokens, Flatten, Off;
    NumberShown(s, t, k);
    NoPartOfNumber(s, t, k, p, j);
    NumberPlaced(s, Off(t, k), Off(t, k + 1), t, k, p, j, MatchTokens(t, k + 1, p, j + 1));
    TokenStep(t, k, p, j);
  }

  lemma NoPartOfNumber(s: string, t: Text, k: nat, p: Pattern, j: nat)
    requires Spelled(s, t) && Regular(p) && k < |t| && t[k].Num? && Off(t, k) < Off(t, k + 1) <= |s|
    requires j < |p.items| && !p.items[j].Lit?
    ensures MatchItems(s, Off(t, k + 1), p, j + 1).None? ==> MatchDigits(s, Off(t, k), Off(t, k + 1) - 1, p, j).None?
  {
    hide MatchItems, MatchDigits;
    if MatchItems(s, Off(t, k + 1), p, j + 1).None? {
      ShorterFails(s, t, k, Off(t, k), Off(t, k + 1) - 1, p, j);
    }
  }

  lemma NumberPlaced(s: string, i: nat, e: nat, t: Text, k: nat, p: Pattern, j: nat, m: Option<(nat, Text)>)
    requires i < e <= |s| && RunEnd(s, i) == e && j < |p.items| && !p.items[j].Lit? && k < |t| && t[k] == Num(s[i..e])
    requires (m.Some? ==> m.value.0 <= |t|) && MatchItems(s, e, p, j + 1) == Placed(t, m)
    requires MatchItems(s, e, p, j + 1).None? ==> MatchDigits(s, i, e - 1, p, j).None?
    ensures MatchItems(s, i, p, j) == Placed(t, Ahead(WrittenToken(p.items[j], t[k]), m))
  {
    WholeNumberFirst(s, i, e, p, j);
    NumberExpands(p.items[j], t[k], s[i..e]);
    PlacedBehind(t, WrittenToken(p.items[j], t[k]), m);
  }

  lemma NoStep(s: string, t: Text, k: nat, p: Pattern, j: nat)
    requires Spelled(s, t) && Regular(p) && k <= |t| && j < |p.items| && Off(t, k) <= |s|
    requires k < |t| ==> !Accepts(p.items[j], t[k])
    ensures MatchItems(s, Off(t, k), p, j).None?
  {
    OffInside(s, t, k);
    assert ValidItem(p.items[j]);
    if k < |t| {
      FirstCharacter(s, t, k);
      if t[k].Ch? { CharAt(s, t, k); }
    }
  }

  /** At the start of a token the matcher does what matching tokens does. */
  lemma {:induction false} MatchesTokens(s: string, t: Text, k: nat, p: Pattern, j: nat)
    requires Spelled(s, t) && Regular(p) && k <= |t| && j <= |p.items|
    ensures Off(t, k) <= |s| && MatchItems(s, Off(t, k), p, j) == Placed(t, MatchTokens(t, k, p, j))
    decreases |p.items| - j
  {
    hide Off;
    OffInside(s, t, k);
    if j == |p.items| {
      BoundaryAt(s, t, k);
    } else if k < |t| && Accepts(p.items[j], t[k]) {
      MatchesTokens(s, t, k + 1, p, j + 1);
      if p.items[j].Lit? { LiteralStep(s, t, k, p, j); } else { NumberStep(s, t, k, p, j); }
    } else {
      NoStep(s, t, k, p, j);
    }
  }

  /** Inside a number nothing is found that is not found at its start. */
  lemma NothingInside(s: string, t: Text, k: nat, i: nat, p: Pattern)
    requires Inside(s, t, k, i) && Regular(p) && Off(t, k) <= |s| && MatchString(s, Off(t, k), p).None? && i <= |s|
    ensures MatchString(s, i, p).None?
  {
    hide Shown, Off, Show, Expanded;
    NoBoundaryInside(s, t, k, i);
    assert ValidItem(p.items[0]);
    if !p.leftEdge && !p.items[0].Lit? {
      var whole := Off(t, k + 1);
      RunOfNumber(s, t, k, Off(t, k));
      RunOfNumber(s, t, k, i);
      WholeNumberFails(s, Off(t, k), whole, p, 0);
      ShorterFails(s, t, k, i, whole - 1, p, 0);
      assert MatchDigits(s, i, whole, p, 0) == MatchDigits(s, i, whole - 1, p, 0);
      assert MatchItems(s, i, p, 0) == MatchDigits(s, i, whole, p, 0);
    }
  }

  lemma WholeNumberFails(s: string, i: nat, e: nat, p: Pattern, j: nat)
    requires i < e <= |s| && RunEnd(s, i) == e && j < |p.items| && !p.items[j].Lit? && MatchItems(s, i, p, j).None?
    ensures MatchItems(s, e, p, j + 1).None?
  {
    assert MatchDigits(s, i, e, p, j).None?;
  }

  // ---- items matched one by one, and all at once ---------------------------------------------------------

  /** The items from `j` on accept the tokens from `k` on. */
  ghost predicate AllAccept(t: Text, k: nat, p: Pattern, j: nat) {
    && j <= |p.items| && k + (|p.items| - j) <= |t|
    && forall x | j <= x < |p.items| :: Accepts(p.items[x], t[k + (x - j)])
  }

  lemma {:induction false} MatchTokensMeans(t: Text, k: nat, p: Pattern, j: nat)
    requires k <= |t| && j <= |p.items|
    ensures
      var n := |p.items| - j;
      MatchTokens(t, k, p, j) ==
        if AllAccept(t, k, p, j) && (p.rightEdge ==> TokenBoundary(t, k + n))
        then Some((k + n, Written(p.items[j..], t[k..k + n]))) else None
    decreases |p.items| - j
  {
    if j == |p.items| {
      assert Written(p.items[j..], t[k..k]) == [];
    } else if k < |t| && Accepts(p.items[j], t[k]) {
      MatchTokensMeans(t, k + 1, p, j + 1);
      AcceptsOne(t, k, p, j);
      if AllAccept(t, k, p, j) { WrittenOne(t, k, p, j); }
    } else {
      if AllAccept(t, k, p, j) { FirstAccepted(t, k, p, j); }
    }
  }

  lemma FirstAccepted(t: Text, k: nat, p: Pattern, j: nat)
    requires j < |p.items| && AllAccept(t, k, p, j)
    ensures k < |t| && Accepts(p.items[j], t[k])
  {
    assert Accepts(p.items[j], t[k + (j - j)]);
  }

  lemma AcceptsOne(t: Text, k: nat, p: Pattern, j: nat)
    requires k < |t| && j < |p.items| && Accepts(p.items[j], t[k])
    ensures AllAccept(t, k, p, j) <==> AllAccept(t, k + 1, p, j + 1)
  {
    if AllAccept(t, k + 1, p, j + 1) {
      forall x | j <= x < |p.items| ensures Accepts(p.items[x], t[k + (x - j)]) {
        if x > j { assert Accepts(p.items[x], t[k + 1 + (x - (j + 1))]); }
      }
    }
    if AllAccept(t, k, p, j) {
      forall x | j + 1 <= x < |p.items| ensures Accepts(p.items[x], t[k + 1 + (x - (j + 1))]) {
        assert Accepts(p.items[x], t[k + (x - j)]);
      }
    }
  }

  lemma WrittenOne(t: Text, k: nat, p: Pattern, j: nat)
    requires k < |t| && j < |p.items| && k + (|p.items| - j) <= |t|
    ensures
      var n := |p.items| - j;
      Written(p.items[j..], t[k..k + n]) ==
        [WrittenToken(p.items[j], t[k])] + Written(p.items[j + 1..], t[k + 1..k + n])
  {
  }

  lemma MatchTokensIs(t: Text, k: nat, p: Pattern)
    requires k < |t| && p.items != [] && (p.leftEdge ==> TokenBoundary(t, k))
    ensures
      var n := |p.items|;
      MatchTokens(t, k, p, 0) ==
        if MatchesAt(t[k..], Before(t, k), p) then Some((k + n, Written(p.items, t[k..k + n]))) else None
  {
    MatchTokensMeans(t, k, p, 0);
    MatchesAtMeans(t, k, p);
    assert p.items[0..] == p.items;
  }

  /** The whole match at a token, as the token rewriter states it. */
  lemma MatchStringIs(s: string, t: Text, k: nat, p: Pattern)
    requires Spelled(s, t) && Regular(p) && k < |t| && Off(t, k) <= |s|
    ensures
      var n := |p.items|;
      MatchString(s, Off(t, k), p) ==
        if MatchesAt(t[k..], Before(t, k), p)
        then Some(Match(Off(t, k + n), Flatten(Written(p.items, t[k..k + n])))) else None
  {
    BoundaryAt(s, t, k);
    if p.leftEdge && !TokenBoundary(t, k) {
      MatchesAtMeans(t, k, p);
    } else {
      MatchesTokens(s, t, k, p, 0);
      MatchTokensIs(t, k, p);
    }
  }

  lemma MatchesAtMeans(t: Text, k: nat, p: Pattern)
    requires k < |t| && p.items != []
    ensures MatchesAt(t[k..], Before(t, k), p) <==>
              && AllAccept(t, k, p, 0) && (p.leftEdge ==> TokenBoundary(t, k))
              && (p.rightEdge ==> TokenBoundary(t, k + |p.items|))
  {
    var u, n := t[k..], |p.items|;
    if MatchesAt(u, Before(t, k), p) {
      forall x | 0 <= x < n ensures Accepts(p.items[x], t[k + (x - 0)]) { assert Accepts(p.items[x], u[x]); }
    }
    if AllAccept(t, k, p, 0) {
      forall x | 0 <= x < n ensures Accepts(p.items[x], u[x]) { assert Accepts(p.items[x], t[k + (x - 0)]); }
      assert u[n - 1] == t[k + n - 1];
      assert n < |u| ==> u[n] == t[k + n];
    }
  }
}
