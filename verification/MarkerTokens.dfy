/**
 Strings and their tokens: cutting a string into characters and whole digit runs loses nothing, and
 every canonical token text comes back from the string it spells.
 */
module MarkerTokens {
  import opened MarkerText
  import opened Search

  // ---- cutting a string, and spelling tokens ----------------------------------------------------------

  /** The end of the digits from position `i` on. */
  function RunEnd(s: string, i: nat): (r: nat)
    requires i <= |s|
    ensures i <= r <= |s|
    ensures r < |s| ==> !IsDigit(s[r])
    ensures forall k | i <= k < r :: IsDigit(s[k])
    decreases |s| - i
  {
    if i < |s| && IsDigit(s[i]) then RunEnd(s, i + 1) else i
  }

  /** The tokens from position `i` on. */
  function TokensFrom(s: string, i: nat): Text
    requires i <= |s|
    decreases |s| - i
  {
    if i == |s| then []
    else if IsDigit(s[i]) then [Num(s[i..RunEnd(s, i)])] + TokensFrom(s, RunEnd(s, i))
    else [Ch(s[i])] + TokensFrom(s, i + 1)
  }

  function Tokens(s: string): Text {
    TokensFrom(s, 0)
  }

  function Show(token: Token): string {
    match token
    case Ch(c) => [c]
    case Num(digits) => digits
  }

  function Flatten(t: Text): string {
    if t == [] then "" else Show(t[0]) + Flatten(t[1..])
  }

  predicate ValidToken(token: Token) {
    match token
    case Ch(c) => !IsDigit(c)
    case Num(digits) => Decimal(digits)
  }

  /** One of two neighbours is a character. */
  predicate Parted(t: Text, k: nat)
    requires 0 < k < |t|
  {
    t[k - 1].Ch? || t[k].Ch?
  }

  /** What a string is cut into: proper tokens, and never two numbers side by side. */
  predicate Canonical(t: Text) {
    && (forall k {:trigger ValidToken(t[k])} | 0 <= k < |t| :: ValidToken(t[k]))
    && (forall k {:trigger Parted(t, k)} | 0 < k < |t| :: Parted(t, k))
  }

  /** Where the first `k` tokens end. */
  function Off(t: Text, k: nat): (n: nat)
    requires k <= |t|
  {
    if k == 0 then 0 else Off(t, k - 1) + |Show(t[k - 1])|
  }

  /** The string shows this token in its place. */
  predicate Shown(s: string, t: Text, k: nat)
    requires k < |t|
  {
    Sits(Show(t[k]), s, Off(t, k))
  }

  ghost predicate Spells(s: string, t: Text) {
    |s| == Off(t, |t|) && forall k {:trigger Shown(s, t, k)} | 0 <= k < |t| :: Shown(s, t, k)
  }

  // ---- spelling ---------------------------------------------------------------------------------------

  lemma {:induction false} OffOfTail(t: Text, k: nat)
    requires t != [] && k < |t|
    ensures Off(t, k + 1) == |Show(t[0])| + Off(t[1..], k)
    decreases k
  {
    if k != 0 { OffOfTail(t, k - 1); }
  }

  lemma SitsBehind(w: string, a: string, s: string, i: nat)
    requires Sits(w, s, i)
    ensures Sits(w, a + s, |a| + i)
  {
    forall k | 0 <= k < |w| ensures (a + s)[|a| + i + k] == w[k] {
      assert (a + s)[|a| + (i + k)] == s[i + k];
    }
  }

  lemma SitsInFront(w: string, s: string)
    ensures Sits(w, w + s, 0)
  {
  }

  /** One token of the text that `Flatten` spells, behind the string `head` of its first token. */
  lemma ShownBehind(head: string, s: string, t: Text, k: nat)
    requires t != [] && head == Show(t[0]) && 0 < k < |t| && Sits(Show(t[1..][k - 1]), s, Off(t[1..], k - 1))
    ensures Sits(Show(t[k]), head + s, Off(t, k))
  {
    OffOfTail(t, k - 1);
    SitsBehind(Show(t[k]), head, s, Off(t[1..], k - 1));
  }

  lemma {:induction false} ShownAt(t: Text, k: nat)
    requires k < |t|
    ensures Sits(Show(t[k]), Flatten(t), Off(t, k))
    decreases |t|
  {
    if k == 0 {
      SitsInFront(Show(t[0]), Flatten(t[1..]));
    } else {
      ShownAt(t[1..], k - 1);
      ShownBehind(Show(t[0]), Flatten(t[1..]), t, k);
    }
  }

  lemma FlattenSpells(t: Text)
    ensures Spells(Flatten(t), t)
  {
    OffIsLength(t, |t|);
    assert t[..|t|] == t;
    forall k | 0 <= k < |t| ensures Shown(Flatten(t), t, k) {
      ShownAt(t, k);
    }
  }

  lemma {:induction false} OffGrows(t: Text, i: nat, k: nat)
    requires Canonical(t) && i <= k <= |t|
    ensures Off(t, i) + (k - i) <= Off(t, k)
    decreases k
  {
    if i < k {
      assert ValidToken(t[k - 1]);
      OffGrows(t, i, k - 1);
    }
  }

  lemma {:induction false} FlattenAppend(a: Text, b: Text)
    ensures Flatten(a + b) == Flatten(a) + Flatten(b)
    decreases |a|
  {
    if a == [] {
      assert a + b == b;
    } else {
      assert (a + b)[1..] == a[1..] + b;
      FlattenAppend(a[1..], b);
      Associate(Show(a[0]), Flatten(a[1..]), Flatten(b));
    }
  }

  lemma {:induction false} OffIsLength(t: Text, k: nat)
    requires k <= |t|
    ensures Off(t, k) == |Flatten(t[..k])|
    decreases k
  {
    if k != 0 {
      OffIsLength(t, k - 1);
      assert t[..k] == t[..k - 1] + [t[k - 1]];
      FlattenAppend(t[..k - 1], [t[k - 1]]);
      FlattenOne(t[k - 1]);
    }
  }

  lemma FlattenOne(token: Token)
    ensures Flatten([token]) == Show(token)
  {
    assert [token][1..] == [];
  }

  /** A string that spells a text is cut where the tokens are. */
  lemma FlattenSplit(t: Text, k: nat)
    requires k <= |t|
    ensures Off(t, k) <= |Flatten(t)|
    ensures Flatten(t)[..Off(t, k)] == Flatten(t[..k]) && Flatten(t)[Off(t, k)..] == Flatten(t[k..])
  {
    assert t == t[..k] + t[k..];
    FlattenAppend(t[..k], t[k..]);
    OffIsLength(t, k);
  }

  lemma {:induction false} FlattenChars(w: string)
    ensures Flatten(Chars(w)) == w
    decreases |w|
  {
    if w != "" {
      assert Chars(w)[1..] == Chars(w[1..]);
      FlattenChars(w[1..]);
    }
  }

  // ---- what stands at a token's place --------------------------------------------------------------------

  lemma CharAt(s: string, t: Text, k: nat)
    requires Spells(s, t) && Canonical(t) && k < |t| && t[k].Ch?
    ensures Off(t, k) < |s| && s[Off(t, k)] == t[k].c && !IsDigit(s[Off(t, k)]) && Off(t, k + 1) == Off(t, k) + 1
  {
    assert Shown(s, t, k);
    var zero := 0;
    assert s[Off(t, k) + zero] == Show(t[k])[zero];
    assert ValidToken(t[k]);
  }

  lemma DigitsAt(s: string, t: Text, k: nat)
    requires Spells(s, t) && Canonical(t) && k < |t| && t[k].Num?
    ensures Off(t, k) < Off(t, k + 1) <= |s| && s[Off(t, k)..Off(t, k + 1)] == t[k].digits
    ensures forall i | Off(t, k) <= i < Off(t, k + 1) :: IsDigit(s[i])
  {
    var d := t[k].digits;
    assert Shown(s, t, k) && ValidToken(t[k]);
    forall i | Off(t, k) <= i < Off(t, k + 1) ensures IsDigit(s[i]) && s[i] == d[i - Off(t, k)] {
      assert s[Off(t, k) + (i - Off(t, k))] == Show(t[k])[i - Off(t, k)];
    }
  }

  lemma {:induction false} RunEndIs(s: string, i: nat, j: nat)
    requires i <= j <= |s| && (forall k | i <= k < j :: IsDigit(s[k])) && (j < |s| ==> !IsDigit(s[j]))
    ensures RunEnd(s, i) == j
    decreases j - i
  {
    if i < j { RunEndIs(s, i + 1, j); }
  }

  lemma OffInside(s: string, t: Text, k: nat)
    requires Spells(s, t) && Canonical(t) && k <= |t|
    ensures Off(t, k) <= |s| && (k < |t| ==> Off(t, k) < |s|) && (k == |t| ==> Off(t, k) == |s|)
  {
    OffGrows(t, k, |t|);
  }

  /** From anywhere inside a number, the digits end where the number does. */
  lemma RunOfNumber(s: string, t: Text, k: nat, i: nat)
    requires Spells(s, t) && Canonical(t) && k < |t| && t[k].Num? && Off(t, k) <= i < Off(t, k + 1)
    ensures Off(t, k + 1) <= |s| && RunEnd(s, i) == Off(t, k + 1)
  {
    DigitsAt(s, t, k);
    OffInside(s, t, k + 1);
    if k + 1 < |t| {
      assert Parted(t, k + 1);
      CharAt(s, t, k + 1);
    }
    RunEndIs(s, i, Off(t, k + 1));
  }

  // ---- the round trips --------------------------------------------------------------------------------------

  /** The first token from position `i` on, and what is left. */
  lemma FirstToken(s: string, i: nat) returns (j: nat)
    requires i < |s|
    ensures i < j <= |s| && TokensFrom(s, i) != [] && TokensFrom(s, i)[1..] == TokensFrom(s, j)
    ensures Show(TokensFrom(s, i)[0]) == s[i..j] && ValidToken(TokensFrom(s, i)[0])
    ensures TokensFrom(s, i)[0].Num? <==> IsDigit(s[i])
    ensures TokensFrom(s, i)[0].Num? && j < |s| ==> !IsDigit(s[j])
  {
    j := if IsDigit(s[i]) then RunEnd(s, i) else i + 1;
    assert TokensFrom(s, i)[1..] == TokensFrom(s, j);
  }

  lemma CanonicalCons(t: Text)
    requires t != [] && ValidToken(t[0]) && Canonical(t[1..]) && (|t| > 1 ==> t[0].Ch? || t[1].Ch?)
    ensures Canonical(t)
  {
    var rest := t[1..];
    forall k | 0 <= k < |t| ensures ValidToken(t[k]) {
      if k > 0 { assert ValidToken(rest[k - 1]); }
    }
    forall k | 0 < k < |t| ensures Parted(t, k) {
      if k > 1 { assert Parted(rest, k - 1); }
    }
  }

  lemma {:induction false} TokensFromSpell(s: string, i: nat)
    requires i <= |s|
    ensures Flatten(TokensFrom(s, i)) == s[i..]
    decreases |s| - i
  {
    if i < |s| {
      var j := FirstToken(s, i);
      TokensFromSpell(s, j);
      SpelledBehind(s, i, j, TokensFrom(s, i));
    }
  }

  lemma SpelledBehind(s: string, i: nat, j: nat, t: Text)
    requires i <= j <= |s| && t != [] && Show(t[0]) == s[i..j] && Flatten(t[1..]) == s[j..]
    ensures Flatten(t) == s[i..]
  {
    assert s[i..j] + s[j..] == s[i..];
  }

  lemma {:induction false} TokensFromAreCanonical(s: string, i: nat)
    requires i <= |s|
    ensures Canonical(TokensFrom(s, i))
    decreases |s| - i
  {
    if i < |s| {
      var j := FirstToken(s, i);
      TokensFromAreCanonical(s, j);
      if j < |s| { var next := FirstToken(s, j); }
      CanonicalCons(TokensFrom(s, i));
    }
  }

  /** Cutting and spelling gives the string back, and what it is cut into is canonical. */
  lemma FlattenOfTokens(s: string)
    ensures Flatten(Tokens(s)) == s && Canonical(Tokens(s))
  {
    TokensFromSpell(s, 0);
    TokensFromAreCanonical(s, 0);
  }

  lemma NextToken(s: string, t: Text, k: nat)
    requires Spells(s, t) && Canonical(t) && k < |t|
    ensures Off(t, k) < Off(t, k + 1) <= |s|
    ensures TokensFrom(s, Off(t, k)) == [t[k]] + TokensFrom(s, Off(t, k + 1))
  {
    OffInside(s, t, k);
    OffInside(s, t, k + 1);
    if t[k].Ch? {
      CharAt(s, t, k);
    } else {
      DigitsAt(s, t, k);
      RunOfNumber(s, t, k, Off(t, k));
    }
  }

  lemma {:induction false} TokensFromOff(s: string, t: Text, k: nat)
    requires Spells(s, t) && Canonical(t) && k <= |t| && Off(t, k) <= |s|
    ensures TokensFrom(s, Off(t, k)) == t[k..]
    decreases |t| - k
  {
    if k < |t| {
      NextToken(s, t, k);
      TokensFromOff(s, t, k + 1);
      assert t[k..] == [t[k]] + t[k + 1..];
    }
  }

  /** A canonical text is what the string it spells is cut into. */
  lemma TokensOfFlatten(t: Text)
    requires Canonical(t)
    ensures Tokens(Flatten(t)) == t
  {
    FlattenSpells(t);
    TokensFromOff(Flatten(t), t, 0);
  }
}
