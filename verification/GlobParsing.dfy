/**
 The emitted text parses back to exactly the emitted fragments: every literal stands for itself,
 and no fragment's first character is taken for a quantifier of the fragment before it.
 */
module GlobParsing {
  import opened Wrappers
  import opened GlobMatch

  /** What a token means as a regular expression. */
  function Item(t: Token): Regex {
    match t
    case Question => NotIn({'/'})
    case Star => Repeat(NotIn({'/'}))
    case Deep => Repeat(Any)
    case Slashed => Optional(Group([OneOrMore(Any), Char('/')]))
    case Literal(c) => Char(c)
  }

  function Items(ts: seq<Token>): seq<Regex> {
    if ts == [] then [] else [Item(ts[0])] + Items(ts[1..])
  }

  /** The characters that the compiler's first branch takes never reach `Literal`. */
  predicate Printable(t: Token) {
    t.Literal? ==> t.c != '\\' && t.c != '*' && t.c != '?'
  }

  lemma {:induction false} TokensPrintable(pat: string)
    requires '\\' !in pat
    ensures forall t | t in Tokens(pat) :: Printable(t)
    decreases |pat|
  {
    if pat != "" {
      TokensPrintable(pat[TokenLength(NextToken(pat))..]);
    }
  }

  lemma FragmentIsNoQuantifier(t: Token)
    requires Printable(t)
    ensures Fragment(t) != "" && !IsQuantifier(Fragment(t)[0]) && Fragment(t)[0] != ')'
  {
  }

  predicate Unquantified(rest: string) {
    rest == "" || !IsQuantifier(rest[0])
  }

  lemma PrintIsUnquantified(ts: seq<Token>)
    requires forall t | t in ts :: Printable(t)
    ensures Unquantified(Print(ts) + "$")
  {
    if ts != [] {
      FragmentIsNoQuantifier(ts[0]);
    }
  }

  lemma ParseClassFragment(rest: string)
    ensures ParseAtom("[^/]" + rest) == Some(Atom(NotIn({'/'}), rest))
  {
    var s := "[^/]" + rest;
    assert s[2..] == "/]" + rest;
    assert ("/]" + rest)[1..] == "]" + rest;
    assert ("]" + rest)[1..] == rest;
    assert {} + {'/'} == {'/'};
    assert ParseClass("/]" + rest, {}) == ParseClass("]" + rest, {'/'});
  }

  /** A character that is neither a metacharacter nor quantified stands for itself. */
  lemma ParsePlain(c: char, rest: string)
    requires !IsMeta(c) && c != '\\' && !IsQuantifier(c) && Unquantified(rest)
    ensures ParseItems([c] + rest) ==
              match ParseItems(rest)
              case Some(p) => Some(Parsed([Char(c)] + p.items, p.rest))
              case None => None
  {
    assert ([c] + rest)[1..] == rest;
  }

  lemma ParseDotPlus(rest: string)
    requires Unquantified(rest)
    ensures ParseItems(".+" + rest) ==
              match ParseItems(rest)
              case Some(p) => Some(Parsed([OneOrMore(Any)] + p.items, p.rest))
              case None => None
  {
    assert (".+" + rest)[1..] == "+" + rest;
    assert ("+" + rest)[1..] == rest;
  }

  lemma ParseGroupBody(rest: string)
    ensures ParseItems(".+/)" + rest) == Some(Parsed([OneOrMore(Any), Char('/')], ")" + rest))
  {
    assert "/)" + rest == ['/'] + (")" + rest);
    assert ".+/)" + rest == ".+" + ("/)" + rest);
    assert ParseItems(")" + rest) == Some(Parsed([], ")" + rest));
    ParsePlain('/', ")" + rest);
    ParseDotPlus("/)" + rest);
    assert [OneOrMore(Any)] + ([Char('/')] + []) == [OneOrMore(Any), Char('/')];
  }

  lemma ParseSlashedFragment(rest: string)
    ensures ParseAtom("(?:.+/)?" + rest) == Some(Atom(Group([OneOrMore(Any), Char('/')]), "?" + rest))
  {
    var s := "(?:.+/)?" + rest;
    ParseGroupBody("?" + rest);
    assert s[3..] == ".+/)" + ("?" + rest);
    assert (")" + ("?" + rest))[1..] == "?" + rest;
  }

  /** One atom with its quantifier at the start of `s`. */
  predicate ParsesAs(s: string, item: Regex, rest: string) {
    s != "" && ParseAtom(s).Some? &&
    ParseQuantifier(ParseAtom(s).value.item, ParseAtom(s).value.rest) == Some(Atom(item, rest))
  }

  lemma ParseStarFragment(rest: string)
    requires Unquantified(rest)
    ensures ParsesAs("[^/]*" + rest, Item(Star), rest)
  {
    ParseClassFragment("*" + rest);
    assert "[^/]*" + rest == "[^/]" + ("*" + rest);
    assert ("*" + rest)[1..] == rest;
  }

  lemma ParseLiteralFragment(c: char, rest: string)
    requires Printable(Literal(c)) && Unquantified(rest)
    ensures ParsesAs(Fragment(Literal(c)) + rest, Char(c), rest)
  {
    if IsMeta(c) { assert (['\\', c] + rest)[2..] == rest; } else { assert ([c] + rest)[1..] == rest; }
  }

  /** One fragment, followed by anything that does not start with a quantifier. */
  lemma ParseFragment(t: Token, rest: string)
    requires Printable(t) && Unquantified(rest)
    ensures Fragment(t) + rest != "" && (Fragment(t) + rest)[0] != ')'
    ensures ParsesAs(Fragment(t) + rest, Item(t), rest)
  {
    match t
    case Question => ParseClassFragment(rest);
    case Star => ParseStarFragment(rest);
    case Slashed =>
      ParseSlashedFragment(rest);
      assert ("?" + rest)[1..] == rest;
    case Deep =>
      assert (".*" + rest)[1..] == "*" + rest;
      assert ("*" + rest)[1..] == rest;
    case Literal(c) => ParseLiteralFragment(c, rest);
  }

  lemma ParseEnd()
    ensures ParseItems("$") == Some(Parsed([AtEnd], ""))
  {
    assert "$"[1..] == "";
    assert ParseAtom("$") == Some(Atom(AtEnd, ""));
    assert ParseItems("") == Some(Parsed([], ""));
    assert [AtEnd] + [] == [AtEnd];
  }

  lemma {:induction false} ParsePrinted(ts: seq<Token>)
    requires forall t | t in ts :: Printable(t)
    ensures ParseItems(Print(ts) + "$") == Some(Parsed(Items(ts) + [AtEnd], ""))
  {
    if ts == [] {
      ParseEnd();
      assert Print(ts) + "$" == "$";
      assert Items(ts) + [AtEnd] == [AtEnd];
    } else {
      var rest := Print(ts[1..]) + "$";
      PrintIsUnquantified(ts[1..]);
      ParseFragment(ts[0], rest);
      ParsePrinted(ts[1..]);
      assert Print(ts) + "$" == Fragment(ts[0]) + rest;
      assert [Item(ts[0])] + (Items(ts[1..]) + [AtEnd]) == Items(ts) + [AtEnd];
    }
  }

  lemma ParseStart(rest: string)
    requires Unquantified(rest) && ParseItems(rest).Some?
    ensures ParseItems("^" + rest) == Some(Parsed([AtStart] + ParseItems(rest).value.items, ParseItems(rest).value.rest))
  {
    assert ("^" + rest)[1..] == rest;
    assert ParseAtom("^" + rest) == Some(Atom(AtStart, rest));
  }

  /** Round trip: compile, print, parse. */
  lemma CompiledTextParsesBack(pat: string)
    requires '\\' !in pat
    ensures ParseItems("^" + Print(Tokens(pat)) + "$") == Some(Parsed([AtStart] + Items(Tokens(pat)) + [AtEnd], ""))
  {
    hide Items, Print, Tokens, ParseItems, Unquantified, Printable;
    var ts := Tokens(pat);
    TokensPrintable(pat);
    ParsePrinted(ts);
    PrintIsUnquantified(ts);
    ParseStart(Print(ts) + "$");
    assert "^" + (Print(ts) + "$") == "^" + Print(ts) + "$";
    assert [AtStart] + (Items(ts) + [AtEnd]) == [AtStart] + Items(ts) + [AtEnd];
  }
}
