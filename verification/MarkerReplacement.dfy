/**
 Searching a string for a literal marker finds it where the tokens of the marker stand, numbers in its
 name included, and replacing a block in the string replaces it in the tokens.
 */
module MarkerReplacement {
  import opened MarkerText
  import opened MarkerTokens
  import opened MarkerStrings
  import opened MarkerMatching
  import opened MarkerScan
  import opened Search
  import opened Wrappers

  // ---- where a marker stands --------------------------------------------------------------------------

  /** The rest of the text `w` from its token `j` on. */
  predicate RestOfText(w: Text, t: Text, k: nat, j: nat) {
    j <= |w| && k + (|w| - j) <= |t| && forall x | j <= x < |w| :: t[k + (x - j)] == w[x]
  }

  /** Proper tokens, the first and the last of which are characters. */
  predicate Bounded(w: Text) {
    Canonical(w) && w != [] && w[0].Ch? && w[|w| - 1].Ch?
  }

  lemma RestOfOne(w: Text, t: Text, k: nat, j: nat)
    requires j < |w| && k < |t|
    ensures RestOfText(w, t, k, j) <==> t[k] == w[j] && RestOfText(w, t, k + 1, j + 1)
  {
    if RestOfText(w, t, k, j) {
      assert t[k + (j - j)] == w[j];
      forall x | j + 1 <= x < |w| ensures t[k + 1 + (x - (j + 1))] == w[x] { assert t[k + (x - j)] == w[x]; }
    }
    if t[k] == w[j] && RestOfText(w, t, k + 1, j + 1) {
      forall x | j <= x < |w| ensures t[k + (x - j)] == w[x] {
        if x > j { assert t[k + 1 + (x - (j + 1))] == w[x]; }
      }
    }
  }

  lemma RestOfMany(w: string, s: string, i: nat, o: nat, n: nat)
    requires o + n <= |w| && i + n <= |s| && s[i..i + n] == w[o..o + n]
    ensures RestSits(w, s, i, o) <==> RestSits(w, s, i + n, o + n)
  {
    forall x | o <= x < o + n ensures s[i + (x - o)] == w[x] {
      assert s[i..i + n][x - o] == w[o..o + n][x - o];
    }
    if RestSits(w, s, i + n, o + n) {
      forall x | o <= x < |w| ensures s[i + (x - o)] == w[x] {
        if x >= o + n { assert s[i + n + (x - (o + n))] == w[x]; }
      }
    }
    if RestSits(w, s, i, o) {
      forall x | o + n <= x < |w| ensures s[i + n + (x - (o + n))] == w[x] { assert s[i + (x - o)] == w[x]; }
    }
  }

  /** Digits that stand in the string up to a character that is none are a whole number there. */
  lemma WholeRun(w: string, s: string, i: nat, o: nat, n: nat)
    requires RestSits(w, s, i, o) && o + n < |w| && !IsDigit(w[o + n])
    requires forall x | o <= x < o + n :: IsDigit(w[x])
    ensures i + n < |s| && RunEnd(s, i) == i + n && s[i..i + n] == w[o..o + n]
  {
    assert s[i + (o + n - o)] == w[o + n];
    forall x | i <= x < i + n ensures IsDigit(s[x]) && s[x] == w[o + (x - i)] { assert s[i + (o + (x - i) - o)] == w[o + (x - i)]; }
    RunEndIs(s, i, i + n);
  }

  /** The token texts `w` and `t`, spelled by `ws` and `s`, from their tokens `j` and `k` on. */
  ghost predicate Aligned(ws: string, w: Text, s: string, t: Text, k: nat, j: nat)
    requires k <= |t| && j <= |w|
  {
    && (RestSits(ws, s, Off(t, k), Off(w, j)) <==> RestOfText(w, t, k, j))
    && (RestOfText(w, t, k, j) ==> Off(t, k + (|w| - j)) == Off(t, k) + (|ws| - Off(w, j)))
  }

  lemma DifferentTokens(ws: string, w: Text, s: string, t: Text, k: nat, j: nat)
    requires Spelled(ws, w) && Bounded(w) && Spelled(s, t) && k < |t| && j < |w| && t[k] != w[j]
    ensures !RestSits(ws, s, Off(t, k), Off(w, j))
  {
    FirstCharacter(s, t, k);
    FirstCharacter(ws, w, j);
    if t[k].Num? && w[j].Num? {
      if RestSits(ws, s, Off(t, k), Off(w, j)) { SameNumber(ws, w, s, t, k, j); }
    } else {
      if t[k].Ch? { CharAt(s, t, k); }
      if w[j].Ch? { CharAt(ws, w, j); }
      NotHere(ws, s, Off(t, k), Off(w, j));
    }
  }

  lemma SameNumber(ws: string, w: Text, s: string, t: Text, k: nat, j: nat)
    requires Spelled(ws, w) && Bounded(w) && Spelled(s, t) && k < |t| && j < |w| && t[k].Num? && w[j].Num?
    requires RestSits(ws, s, Off(t, k), Off(w, j))
    ensures t[k] == w[j]
  {
    NumberEnds(ws, w, j);
    NumberShown(s, t, k);
    SameRun(ws, s, Off(t, k), Off(t, k + 1), Off(w, j), Off(w, j + 1));
  }

  lemma SameRun(ws: string, s: string, i: nat, e: nat, o: nat, f: nat)
    requires RestSits(ws, s, i, o) && o < f < |ws| && !IsDigit(ws[f]) && (forall x | o <= x < f :: IsDigit(ws[x]))
    requires i < e <= |s| && RunEnd(s, i) == e
    ensures s[i..e] == ws[o..f]
  {
    WholeRun(ws, s, i, o, f - o);
  }

  /** Inside a marker a number is followed by a character. */
  lemma NumberEnds(s: string, w: Text, j: nat)
    requires Spelled(s, w) && Bounded(w) && j < |w| && w[j].Num?
    ensures Off(w, j) < Off(w, j + 1) < |s| && !IsDigit(s[Off(w, j + 1)])
    ensures s[Off(w, j)..Off(w, j + 1)] == w[j].digits
    ensures forall x | Off(w, j) <= x < Off(w, j + 1) :: IsDigit(s[x])
  {
    assert j + 1 < |w|;
    assert Parted(w, j + 1);
    DigitsAt(s, w, j);
    CharAt(s, w, j + 1);
  }

  lemma TokenShown(s: string, t: Text, k: nat)
    requires Spelled(s, t) && k < |t|
    ensures Off(t, k) < Off(t, k + 1) <= |s| && s[Off(t, k)..Off(t, k + 1)] == Show(t[k])
  {
    if t[k].Ch? { CharAt(s, t, k); } else { DigitsAt(s, t, k); }
  }

  lemma SameTokens(ws: string, w: Text, s: string, t: Text, k: nat, j: nat)
    requires Spelled(ws, w) && Spelled(s, t) && k < |t| && j < |w| && t[k] == w[j]
    requires Aligned(ws, w, s, t, k + 1, j + 1)
    ensures Aligned(ws, w, s, t, k, j)
  {
    hide RestSits;
    TokenShown(s, t, k);
    TokenShown(ws, w, j);
    RestOfOne(w, t, k, j);
    RestOfMany(ws, s, Off(t, k), Off(w, j), |Show(t[k])|);
  }

  lemma {:induction false} TextAligned(ws: string, w: Text, s: string, t: Text, k: nat, j: nat)
    requires Spelled(ws, w) && Bounded(w) && Spelled(s, t) && k <= |t| && j <= |w|
    ensures Aligned(ws, w, s, t, k, j)
    decreases |w| - j
  {
    OffInside(s, t, k);
    OffInside(ws, w, j);
    if j < |w| && k < |t| {
      if t[k] == w[j] {
        TextAligned(ws, w, s, t, k + 1, j + 1);
        SameTokens(ws, w, s, t, k, j);
      } else {
        DifferentTokens(ws, w, s, t, k, j);
        RestOfOne(w, t, k, j);
      }
    }
  }

  lemma RestIsText(w: Text, t: Text, k: nat)
    ensures RestOfText(w, t, k, 0) <==> Sits(w, t, k)
  {
    if Sits(w, t, k) {
      forall x | 0 <= x < |w| ensures t[k + (x - 0)] == w[x] { assert t[k + x] == w[x]; }
    }
    if RestOfText(w, t, k, 0) {
      forall x | 0 <= x < |w| ensures t[k + x] == w[x] { assert t[k + (x - 0)] == w[x]; }
    }
  }

  /** A marker stands at a token of the string exactly if its tokens stand there. */
  lemma TextAt(ws: string, w: Text, s: string, t: Text, k: nat)
    requires Spelled(ws, w) && Bounded(w) && Spelled(s, t) && k <= |t|
    ensures Sits(ws, s, Off(t, k)) <==> Sits(w, t, k)
    ensures Sits(w, t, k) ==> Off(t, k + |w|) == Off(t, k) + |ws|
  {
    TextAligned(ws, w, s, t, k, 0);
    RestIsSits(ws, s, Off(t, k));
    RestIsText(w, t, k);
  }

  // ---- finding it --------------------------------------------------------------------------------------

  lemma NotInsideNumber(ws: string, w: Text, s: string, t: Text, k: nat, i: nat)
    requires Spelled(ws, w) && Bounded(w) && Inside(s, t, k, i)
    ensures !Sits(ws, s, i)
  {
    NoBoundaryInside(s, t, k, i);
    CharAt(ws, w, 0);
    if Sits(ws, s, i) { SitsStarts(ws, s, i); }
  }

  lemma SitsStarts(w: string, s: string, i: nat)
    requires Sits(w, s, i) && w != ""
    ensures i < |s| && s[i] == w[0]
  {
    var zero := 0;
    assert s[i + zero] == w[zero];
  }

  lemma {:induction false} FindFromInside(ws: string, w: Text, s: string, t: Text, k: nat, i: nat)
    requires Spelled(ws, w) && Bounded(w) && Spelled(s, t) && k < |t| && Off(t, k) < i <= Off(t, k + 1) <= |s|
    ensures Find(s, ws, i) == Find(s, ws, Off(t, k + 1))
    decreases Off(t, k + 1) - i
  {
    if i < Off(t, k + 1) {
      NextIsInside(s, t, k, i);
      NotInsideNumber(ws, w, s, t, k, i);
      FindFromInside(ws, w, s, t, k, i + 1);
    }
  }

  lemma FindMovesOn(ws: string, w: Text, s: string, t: Text, k: nat)
    requires Spelled(ws, w) && Bounded(w) && Spelled(s, t) && k < |t| && !Sits(w, t, k) && !Sits(ws, s, Off(t, k))
    ensures Find(s, ws, Off(t, k)) == Find(s, ws, Off(t, k + 1)) && Find(t, w, k) == Find(t, w, k + 1)
  {
    NextStart(s, t, k);
    NotFoundHere(s, ws, Off(t, k));
    NotFoundHere(t, w, k);
    FindFromInside(ws, w, s, t, k, Off(t, k) + 1);
  }

  /** The first place in the string is the place of the first place in the text. */
  lemma {:induction false} FindRefines(ws: string, w: Text, s: string, t: Text, k: nat)
    requires Spelled(ws, w) && Bounded(w) && Spelled(s, t) && k <= |t|
    ensures Find(s, ws, Off(t, k)) == Place(t, Find(t, w, k))
    ensures Find(t, w, k).Some? ==> Off(t, Find(t, w, k).value + |w|) == Off(t, Find(t, w, k).value) + |ws|
    decreases |t| - k
  {
    hide Find, Off;
    TextAt(ws, w, s, t, k);
    if Sits(w, t, k) {
      FoundHere(s, ws, Off(t, k));
      FoundHere(t, w, k);
    } else if k < |t| {
      FindRefines(ws, w, s, t, k + 1);
      FindMovesOn(ws, w, s, t, k);
    } else {
      OffInside(s, t, k);
      NotFoundHere(s, ws, Off(t, k));
      NotFoundHere(t, w, k);
    }
  }

  lemma FoundHere<T>(s: seq<T>, w: seq<T>, i: nat)
    requires Sits(w, s, i)
    ensures Find(s, w, i) == Some(i)
  {
  }

  lemma NotFoundHere<T>(s: seq<T>, w: seq<T>, i: nat)
    requires i <= |s| && !Sits(w, s, i)
    ensures Find(s, w, i) == if i < |s| then Find(s, w, i + 1) else None
  {
  }

  // ---- replacing a block --------------------------------------------------------------------------------

  lemma CanonicalAppend(a: Text, b: Text)
    requires Canonical(a) && Canonical(b) && (a == [] || b == [] || a[|a| - 1].Ch? || b[0].Ch?)
    ensures Canonical(a + b)
  {
    var c := a + b;
    forall k | 0 <= k < |c| ensures ValidToken(c[k]) {
      if k < |a| { assert ValidToken(a[k]); } else { assert ValidToken(b[k - |a|]); }
    }
    forall k | 0 < k < |c| ensures Parted(c, k) {
      if k < |a| {
        assert Parted(a, k);
      } else if k > |a| {
        assert Parted(b, k - |a|);
      }
    }
  }

  lemma CharsAreCanonical(w: string)
    requires DigitFree(w)
    ensures Canonical(Chars(w)) && Flatten(Chars(w)) == w
  {
    FlattenChars(w);
  }

  /** A literal around a name. */
  lemma MarkerSpelled(lead: string, name: Text, close: string)
    requires DigitFree(lead) && DigitFree(close) && lead != "" && close != "" && Canonical(name)
    ensures
      var marker := Chars(lead) + name + Chars(close);
      Bounded(marker) && Flatten(marker) == lead + Flatten(name) + close
  {
    CharsAreCanonical(lead);
    CharsAreCanonical(close);
    CanonicalAppend(Chars(lead), name);
    CanonicalAppend(Chars(lead) + name, Chars(close));
    FlattenAppend(Chars(lead), name);
    FlattenAppend(Chars(lead) + name, Chars(close));
  }

  lemma LeadsAreDigitFree()
    ensures DigitFree("<!-- BEGIN auto-count:") && DigitFree("<!-- END auto-count:") && DigitFree(" -->")
  {
  }

  lemma BeginSpelled(name: string)
    ensures Bounded(BeginMarker(Tokens(name))) && Flatten(BeginMarker(Tokens(name))) == BeginString(name)
  {
    FlattenOfTokens(name);
    LeadsAreDigitFree();
    MarkerSpelled("<!-- BEGIN auto-count:", Tokens(name), " -->");
  }

  lemma EndSpelled(name: string)
    ensures Bounded(EndMarker(Tokens(name))) && Flatten(EndMarker(Tokens(name))) == EndString(name)
  {
    FlattenOfTokens(name);
    LeadsAreDigitFree();
    MarkerSpelled("<!-- END auto-count:", Tokens(name), " -->");
  }

  lemma FramedSpelled(body: Text)
    requires Canonical(body)
    ensures Bounded(Framed(body)) && Flatten(Framed(body)) == "\n" + Flatten(body) + "\n"
  {
    MarkerSpelled("\n", body, "\n");
    assert Chars("\n") == [Ch('\n')];
  }

  lemma TakeIsCanonical(t: Text, k: nat)
    requires Canonical(t) && k <= |t|
    ensures Canonical(t[..k]) && Canonical(t[k..])
  {
    var u := t[k..];
    forall x | 0 <= x < |u| ensures ValidToken(u[x]) { assert ValidToken(t[k + x]); }
    forall x | 0 < x < |u| ensures Parted(u, x) { assert Parted(t, k + x); }
    var v := t[..k];
    forall x | 0 <= x < |v| ensures ValidToken(v[x]) { assert ValidToken(t[x]); }
    forall x | 0 < x < |v| ensures Parted(v, x) { assert Parted(t, x); }
  }

  /** The text with `middle` between two of its places. */
  lemma SplicedSpelled(t: Text, a: nat, c: nat, middle: Text)
    requires Canonical(t) && a <= |t| && c <= |t| && Bounded(middle)
    ensures Off(t, a) <= |Flatten(t)| && Off(t, c) <= |Flatten(t)|
    ensures Canonical(t[..a] + middle + t[c..])
    ensures Flatten(t[..a] + middle + t[c..]) == Flatten(t)[..Off(t, a)] + Flatten(middle) + Flatten(t)[Off(t, c)..]
  {
    TakeIsCanonical(t, a);
    TakeIsCanonical(t, c);
    CanonicalAppend(t[..a], middle);
    CanonicalAppend(t[..a] + middle, t[c..]);
    FlattenAppend(t[..a], middle);
    FlattenAppend(t[..a] + middle, t[c..]);
    FlattenSplit(t, a);
    FlattenSplit(t, c);
  }

  lemma FindInFlatten(t: Text, w: Text, ws: string, k: nat)
    requires Canonical(t) && Bounded(w) && Flatten(w) == ws && k <= |t|
    ensures Find(Flatten(t), ws, Off(t, k)) == Place(t, Find(t, w, k))
    ensures Find(t, w, k).Some? ==> Off(t, Find(t, w, k).value + |w|) == Off(t, Find(t, w, k).value) + |ws|
  {
    FlattenSpells(t);
    FlattenSpells(w);
    FindRefines(ws, w, Flatten(t), t, k);
  }

  /** A stretch of the text as a stretch of the string. */
  function Stretch(t: Text, place: Option<(nat, nat)>): Option<(nat, nat)>
    requires place.Some? ==> place.value.0 <= place.value.1 <= |t|
  {
    match place
    case None => None
    case Some((from, to)) => Some((Off(t, from), Off(t, to)))
  }

  /** Behind the begin marker that stands at token `found`, the end markers are found together. */
  ghost predicate EndsTogether(t: Text, begin: Text, bs: string, end: Text, es: string, found: nat) {
    && found + |begin| <= |t| && Off(t, found + |begin|) == Off(t, found) + |bs|
    && Find(Flatten(t), es, Off(t, found) + |bs|) == Place(t, Find(t, end, found + |begin|))
  }

  lemma EndsFound(t: Text, begin: Text, bs: string, end: Text, es: string, found: nat)
    requires Canonical(t) && Bounded(end) && Flatten(end) == es
    requires found + |begin| <= |t| && Off(t, found + |begin|) == Off(t, found) + |bs|
    ensures EndsTogether(t, begin, bs, end, es, found)
  {
    hide Sits;
    EndInFlatten(t, end, es, found + |begin|);
  }

  lemma EndInFlatten(t: Text, w: Text, ws: string, k: nat)
    requires Canonical(t) && Bounded(w) && Flatten(w) == ws && k <= |t|
    ensures Find(Flatten(t), ws, Off(t, k)) == Place(t, Find(t, w, k))
  {
    FindInFlatten(t, w, ws, k);
  }

  lemma EnclosedTogether(t: Text, begin: Text, bs: string, end: Text, es: string, found: nat)
    requires Find(t, begin, 0) == Some(found) && Find(Flatten(t), bs, 0) == Some(Off(t, found))
    requires EndsTogether(t, begin, bs, end, es, found)
    ensures Enclosed(Flatten(t), 0, bs, es) == Stretch(t, Enclosed(t, 0, begin, end))
  {
    hide Find, Off;
  }

  lemma EnclosedNowhere(t: Text, begin: Text, bs: string, end: Text, es: string)
    requires Find(t, begin, 0) == None && Find(Flatten(t), bs, 0) == None
    ensures Enclosed(Flatten(t), 0, bs, es) == Stretch(t, Enclosed(t, 0, begin, end))
  {
  }

  lemma EnclosedRefines(t: Text, begin: Text, bs: string, end: Text, es: string)
    requires Canonical(t) && Bounded(begin) && Flatten(begin) == bs && Bounded(end) && Flatten(end) == es
    ensures Enclosed(Flatten(t), 0, bs, es) == Stretch(t, Enclosed(t, 0, begin, end))
  {
    FindInFlatten(t, begin, bs, 0);
    match Find(t, begin, 0)
    case None =>
      EnclosedNowhere(t, begin, bs, end, es);
    case Some(found) =>
      EndsFound(t, begin, bs, end, es, found);
      EnclosedTogether(t, begin, bs, end, es, found);
  }

  /** The text and the string after the replacement. */
  ghost predicate SameReplacement(r: (Text, bool), u: (string, bool)) {
    Canonical(r.0) && u == (Flatten(r.0), r.1)
  }

  lemma RefilledRefines(t: Text, place: Option<(nat, nat)>, body: Text)
    requires Canonical(t) && Canonical(body) && (place.Some? ==> place.value.0 <= place.value.1 <= |t|)
    ensures Stretch(t, place).Some? ==>
              Stretch(t, place).value.0 <= Stretch(t, place).value.1 <= |Flatten(t)|
    ensures SameReplacement(Refilled(t, place, Framed(body)),
                            Refilled(Flatten(t), Stretch(t, place), "\n" + Flatten(body) + "\n"))
  {
    if place.Some? {
      FramedSpelled(body);
      OffGrows(t, place.value.0, place.value.1);
      SplicedSpelled(t, place.value.0, place.value.1, Framed(body));
    }
  }

  // ---- all blocks -------------------------------------------------------------------------------------------

  function TokenBlock(b: Body): NamedBody {
    NamedBody(Tokens(b.name), Tokens(b.text))
  }

  function TokenBlocks(blocks: seq<Body>): (r: seq<NamedBody>)
    ensures |r| == |blocks| && forall k | 0 <= k < |r| :: r[k] == TokenBlock(blocks[k])
  {
    seq(|blocks|, k requires 0 <= k < |blocks| => TokenBlock(blocks[k]))
  }

  lemma ReplaceBlockRefines(t: Text, b: Body)
    requires Canonical(t)
    ensures SameReplacement(ReplaceBlock(t, Tokens(b.name), Tokens(b.text)), ReplaceBlockString(Flatten(t), b))
  {
    BeginSpelled(b.name);
    EndSpelled(b.name);
    FlattenOfTokens(b.text);
    var begin, end := BeginMarker(Tokens(b.name)), EndMarker(Tokens(b.name));
    EnclosedRefines(t, begin, BeginString(b.name), end, EndString(b.name));
    RefilledRefines(t, Enclosed(t, 0, begin, end), Tokens(b.text));
  }

  lemma {:induction false} BuildRefines(t: Text, blocks: seq<Body>)
    requires Canonical(t)
    ensures Canonical(Build(t, TokenBlocks(blocks)))
    ensures BuildString(Flatten(t), blocks) == Flatten(Build(t, TokenBlocks(blocks)))
    decreases |blocks|
  {
    if blocks != [] {
      var init, last := blocks[..|blocks| - 1], blocks[|blocks| - 1];
      BuildRefines(t, init);
      assert TokenBlocks(blocks)[..|blocks| - 1] == TokenBlocks(init);
      ReplaceBlockRefines(Build(t, TokenBlocks(init)), last);
    }
  }
}
