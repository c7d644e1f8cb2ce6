/** `parse_param_names`: the parameter splitter and what survives printing and parsing. */
module SignatureParams {
  import opened Search
  import opened Strings
  import opened Wrappers

  predicate Opens(c: char) {
    c == '(' || c == '[' || c == '{' || c == '<'
  }

  predicate Closes(c: char) {
    c == ')' || c == ']' || c == '}' || c == '>'
  }

  function Delta(c: char): int {
    if Opens(c) then 1 else if Closes(c) then -1 else 0
  }

  /** The raw fields: `s` still to be read at bracket depth `depth`, `current` read since the last cut. */
  function Split(s: string, depth: int, current: string): seq<string>
    decreases |s|
  {
    if s == "" then if current == "" then [] else [current]
    else if s[0] == ',' && depth == 0 then [current] + Split(s[1..], 0, "")
    else Split(s[1..], depth + Delta(s[0]), current + [s[0]])
  }

  /** The text before the first `c`. */
  function Before(s: string, c: char): string {
    if s == "" || s[0] == c then "" else [s[0]] + Before(s[1..], c)
  }

  function DropStars(s: string): string {
    if s != "" && s[0] == '*' then DropStars(s[1..]) else s
  }

  function NameOf(part: string): string {
    Strip(Before(Before(DropStars(part), ':'), '='))
  }

  predicate Ignored(name: string) {
    name == "" || name == "_" || name == "self" || name == "cls" || name == "this"
  }

  function Reported(parts: seq<string>): seq<string> {
    if parts == [] then []
    else
      var init, name := Reported(parts[..|parts| - 1]), NameOf(parts[|parts| - 1]);
      if Ignored(name) then init else init + [name]
  }

  /** What stands between the first opening parenthesis and the first closing one behind it. */
  function ParamsText(signature: string): Option<string> {
    match Find(signature, "(", 0)
    case None => None
    case Some(i) =>
      match Find(signature, ")", i + 1)
      case None => None
      case Some(j) => Some(Strip(signature[i + 1..j]))
  }

  function Names(signature: string): seq<string> {
    match ParamsText(signature)
    case None => []
    case Some(params) => Reported(Stripped(Split(params, 0, "")))
  }

  // ---- the loops -----------------------------------------------------------------------------------

  lemma StrippedAppend(a: seq<string>, b: seq<string>)
    ensures Stripped(a + b) == Stripped(a) + Stripped(b)
  {
  }

  method SplitParams(params: string) returns (parts: seq<string>)
    ensures parts == Stripped(Split(params, 0, ""))
  {
    hide Strip;
    var depth: int, current: string, i := 0, "", 0;
    parts := [];
    assert params[0..] == params;
    while i < |params|
      invariant i <= |params|
      invariant parts + Stripped(Split(params[i..], depth, current)) == Stripped(Split(params, 0, ""))
    {
      var ch := params[i];
      assert params[i..][1..] == params[i + 1..] && params[i..][0] == ch;
      if Opens(ch) {
        depth := depth + 1;
        current := current + [ch];
      } else if Closes(ch) {
        depth := depth - 1;
        current := current + [ch];
      } else if ch == ',' && depth == 0 {
        StrippedAppend([current], Split(params[i + 1..], 0, ""));
        parts := parts + [Strip(current)];
        current := "";
      } else {
        current := current + [ch];
      }
      i := i + 1;
    }
    if current != "" {
      parts := parts + [Strip(current)];
    }
  }

  method NameOfPart(part: string) returns (token: string)
    ensures token == NameOf(part)
  {
    token := part;
    while token != "" && token[0] == '*'
      invariant DropStars(token) == DropStars(part)
      decreases |token|
    {
      token := token[1..];
    }
    token := Strip(Before(Before(token, ':'), '='));
  }

  method ParseParamNames(signature: string) returns (names: seq<string>)
    ensures names == Names(signature)
  {
    names := [];
    match ParamsText(signature) {
      case None =>
      case Some(params) =>
        var parts := SplitParams(params);
        for k := 0 to |parts|
          invariant names == Reported(parts[..k])
        {
          assert parts[..k + 1][..k] == parts[..k];
          var token := NameOfPart(parts[k]);
          if !Ignored(token) {
            names := names + [token];
          }
        }
        assert parts[..|parts|] == parts;
    }
  }

  // ---- cuts exactly at the commas of depth zero -----------------------------------------------------------

  function Net(s: string): int {
    if s == "" then 0 else Delta(s[0]) + Net(s[1..])
  }

  /** No comma of `s` is at depth zero, when it starts at this depth. */
  predicate NoCut(s: string, depth: int) {
    s == "" || (!(s[0] == ',' && depth == 0) && NoCut(s[1..], depth + Delta(s[0])))
  }

  predicate EndsInCut(s: string, depth: int) {
    s != "" && s[|s| - 1] == ',' && depth + Net(s) == 0
  }

  lemma {:induction false} NetAppend(a: string, b: string)
    ensures Net(a + b) == Net(a) + Net(b)
  {
    if a == "" {
      assert a + b == b;
    } else {
      assert (a + b)[1..] == a[1..] + b;
      NetAppend(a[1..], b);
    }
  }

  lemma {:induction false} NoCutAppend(a: string, b: string, depth: int)
    ensures NoCut(a + b, depth) <==> NoCut(a, depth) && NoCut(b, depth + Net(a))
  {
    if a == "" {
      assert a + b == b;
    } else {
      assert (a + b)[1..] == a[1..] + b;
      NoCutAppend(a[1..], b, depth + Delta(a[0]));
    }
  }

  /** Joining the raw fields with commas gives the text back, except for a final separator. */
  lemma {:induction false} FieldsRejoin(s: string, depth: int, current: string)
    ensures Join(Split(s, depth, current), ",") == current + s[..|s| - (if EndsInCut(s, depth) then 1 else 0)]
    decreases |s|
  {
    if s == "" {
      assert current + s == current;
    } else if s[0] == ',' && depth == 0 {
      FieldsRejoin(s[1..], 0, "");
      RejoinAtCut(s, current);
    } else {
      FieldsRejoin(s[1..], depth + Delta(s[0]), current + [s[0]]);
      if |s| > 1 { assert s[1..][|s| - 2] == s[|s| - 1]; }
      MoveFirst(current, s, if EndsInCut(s, depth) then 1 else 0);
    }
  }

  lemma RejoinAtCut(s: string, current: string)
    requires s != "" && s[0] == ','
    requires Join(Split(s[1..], 0, ""), ",") == "" + s[1..][..|s| - 1 - (if EndsInCut(s[1..], 0) then 1 else 0)]
    ensures Join(Split(s, 0, current), ",") == current + s[..|s| - (if EndsInCut(s, 0) then 1 else 0)]
  {
    var rest := s[1..];
    var fields := Split(rest, 0, "");
    JoinFirst(current, fields);
    if rest == "" {
      assert fields == [] && Net(rest) == 0;
      assert current + s[..0] == current;
    } else {
      SplitNotEmpty(rest, 0, "");
      assert rest[|rest| - 1] == s[|s| - 1];
      CutAtFront(current, s, if EndsInCut(rest, 0) then 1 else 0);
    }
  }

  lemma CutAtFront(current: string, s: string, n: nat)
    requires |s| > n && s[0] == ','
    ensures current + "," + s[1..][..|s| - 1 - n] == current + s[..|s| - n]
  {
    assert s[..|s| - n] == [s[0]] + s[1..][..|s| - 1 - n];
  }

  lemma MoveFirst(current: string, s: string, n: nat)
    requires |s| > n
    ensures current + [s[0]] + s[1..][..|s| - 1 - n] == current + s[..|s| - n]
  {
    assert s[..|s| - n] == [s[0]] + s[1..][..|s| - 1 - n];
  }

  lemma SplitNotEmpty(s: string, depth: int, current: string)
    requires s != "" || current != ""
    ensures Split(s, depth, current) != []
    decreases |s|
  {
  }

  lemma {:induction false} JoinFirst(first: string, rest: seq<string>)
    ensures Join([first] + rest, ",") == if rest == [] then first else first + "," + Join(rest, ",")
    decreases |rest|
  {
    if |rest| > 1 {
      var init, last := rest[..|rest| - 1], rest[|rest| - 1];
      JoinFirst(first, init);
      assert ([first] + rest)[..|rest|] == [first] + init;
      AssociateJoin(first, Join(init, ","), last);
    } else if |rest| == 1 {
      assert ([first] + rest)[..1] == [first];
    }
  }

  lemma AssociateJoin(first: string, middle: string, last: string)
    ensures first + "," + middle + "," + last == first + "," + (middle + "," + last)
  {
  }

  /** No field holds a comma of depth zero, and every field before the last is closed. */
  lemma {:induction false} FieldsAreWhole(s: string, depth: int, current: string, k: nat)
    requires NoCut(current, 0) && depth == Net(current) && k < |Split(s, depth, current)|
    ensures NoCut(Split(s, depth, current)[k], 0)
    ensures k + 1 < |Split(s, depth, current)| ==> Net(Split(s, depth, current)[k]) == 0
    decreases |s|
  {
    if s != "" {
      if s[0] == ',' && depth == 0 {
        if k > 0 { FieldsAreWhole(s[1..], 0, "", k - 1); }
      } else {
        NoCutAppend(current, [s[0]], 0);
        NetAppend(current, [s[0]]);
        FieldsAreWhole(s[1..], depth + Delta(s[0]), current + [s[0]], k);
      }
    }
  }

  // ---- printing and parsing -----------------------------------------------------------------------------

  /** One printed parameter: stars, name, annotation, default. */
  datatype Param = Param(stars: nat, name: string, annotation: Option<string>, default: Option<string>)

  function Stars(n: nat): string {
    if n == 0 then "" else "*" + Stars(n - 1)
  }

  function Tail(p: Param): string {
    (if p.annotation.Some? then ": " + p.annotation.value else "") + (if p.default.Some? then "=" + p.default.value else "")
  }

  function Print(p: Param): string {
    Stars(p.stars) + (p.name + Tail(p))
  }

  function PrintParams(params: seq<Param>): string {
    if params == [] then ""
    else if |params| == 1 then Print(params[0])
    else Print(params[0]) + ("," + (" " + PrintParams(params[1..])))
  }

  predicate NameChar(c: char) {
    !IsSpace(c) && Delta(c) == 0 && c != ',' && c != ':' && c != '=' && c != '*'
  }

  /** Brackets of any kind balance out, no comma outside them, and no closing parenthesis at all. */
  predicate Balanced(s: string) {
    NoCut(s, 0) && Net(s) == 0 && ')' !in s
  }

  /** A name or a lone star. */
  predicate Printable(p: Param) {
    && (forall c | c in p.name :: NameChar(c))
    && (p.name != "" || (p.stars > 0 && p.annotation == None && p.default == None))
    && (p.annotation.Some? ==> Balanced(p.annotation.value))
    && (p.default.Some? ==> Balanced(p.default.value))
  }

  function NamesOf(params: seq<Param>): seq<string> {
    if params == [] then []
    else NameIfReported(params[0]) + NamesOf(params[1..])
  }

  /** The text starts with a character that is no white space. */
  predicate Solid(s: string) {
    s != "" && !IsSpace(s[0])
  }

  lemma {:induction false} PlainCharsAreWhole(s: string)
    requires forall c | c in s :: Delta(c) == 0 && c != ',' && c != ')'
    ensures Balanced(s)
  {
    if s != "" {
      assert s[0] in s && forall c | c in s[1..] :: c in s;
      PlainCharsAreWhole(s[1..]);
    }
  }

  lemma BalancedAppend(a: string, b: string)
    requires Balanced(a) && Balanced(b)
    ensures Balanced(a + b)
  {
    NoCutAppend(a, b, 0);
    NetAppend(a, b);
  }

  lemma {:induction false} StarsArePlain(n: nat)
    ensures forall c | c in Stars(n) :: c == '*'
  {
    if n > 0 { StarsArePlain(n - 1); }
  }

  lemma TailIsBalanced(p: Param)
    requires Printable(p)
    ensures Balanced(Tail(p)) && (Tail(p) == "" || Tail(p)[0] == ':' || Tail(p)[0] == '=')
  {
    PlainCharsAreWhole(": ");
    PlainCharsAreWhole("=");
    PlainCharsAreWhole("");
    var a := if p.annotation.Some? then ": " + p.annotation.value else "";
    var d := if p.default.Some? then "=" + p.default.value else "";
    if p.annotation.Some? { BalancedAppend(": ", p.annotation.value); }
    if p.default.Some? { BalancedAppend("=", p.default.value); }
    BalancedAppend(a, d);
  }

  lemma PrintIsBalanced(p: Param)
    requires Printable(p)
    ensures Balanced(Print(p)) && Solid(Print(p))
  {
    StarsArePlain(p.stars);
    PlainCharsAreWhole(Stars(p.stars));
    PlainCharsAreWhole(p.name);
    TailIsBalanced(p);
    BalancedAppend(p.name, Tail(p));
    BalancedAppend(Stars(p.stars), p.name + Tail(p));
    if p.stars > 0 {
      assert Print(p)[0] == '*';
    } else {
      assert Print(p)[0] == p.name[0] && p.name[0] in p.name;
    }
  }

  // ---- stripping -----------------------------------------------------------------------------------------

  /** Trailing white space goes, as far as it reaches into the last part. */
  lemma {:induction false} RStripAppend(a: string, b: string)
    ensures RStrip(a + b) == if RStrip(b) == "" then RStrip(a) else a + RStrip(b)
    decreases |b|
  {
    if b == "" {
      assert a + b == a;
    } else if IsSpace(b[|b| - 1]) {
      assert (a + b)[..|a + b| - 1] == a + b[..|b| - 1];
      RStripAppend(a, b[..|b| - 1]);
    }
  }

  lemma {:induction false} RStripIsPrefix(s: string)
    ensures RStrip(s) == s[..|RStrip(s)|]
    ensures s != "" && !IsSpace(s[0]) ==> RStrip(s) != ""
  {
    if s != "" && IsSpace(s[|s| - 1]) { RStripIsPrefix(s[..|s| - 1]); }
  }

  lemma {:induction false} RStripNames(s: string)
    requires forall c | c in s :: !IsSpace(c)
    ensures RStrip(s) == s
  {
  }

  lemma SpaceBefore(s: string)
    requires Solid(s)
    ensures Strip(" " + s) == RStrip(s) && Strip(s) == RStrip(s)
  {
    assert LStrip(s) == s;
    assert (" " + s)[0] == ' ' && (" " + s)[1..] == s;
  }

  /** Stripping a printed parameter can only shorten its annotation or default. */
  lemma StripPrinted(p: Param)
    requires Printable(p)
    ensures RStrip(Print(p)) == Stars(p.stars) + (p.name + RStrip(Tail(p)))
    ensures RStrip(Tail(p)) == "" || RStrip(Tail(p))[0] == ':' || RStrip(Tail(p))[0] == '='
  {
    StarsArePlain(p.stars);
    RStripNames(Stars(p.stars));
    RStripNames(p.name);
    RStripAppend(p.name, Tail(p));
    RStripAppend(Stars(p.stars), p.name + Tail(p));
    RStripIsPrefix(Tail(p));
    TailIsBalanced(p);
    assert Stars(p.stars) + "" == Stars(p.stars) && p.name + "" == p.name;
  }

  lemma OneStarDrops(s: string)
    ensures DropStars("*" + s) == DropStars(s)
  {
    assert ("*" + s)[1..] == s;
  }

  lemma {:induction false} StarsDrop(n: nat, s: string)
    requires s == "" || s[0] != '*'
    ensures DropStars(Stars(n) + s) == s
  {
    if n == 0 {
      assert Stars(n) + s == s;
    } else {
      var rest := Stars(n - 1) + s;
      assert Stars(n) + s == "*" + rest;
      StarsDrop(n - 1, s);
      OneStarDrops(rest);
    }
  }

  lemma {:induction false} BeforeName(name: string, tail: string, c: char)
    requires c !in name
    ensures Before(name + tail, c) == name + Before(tail, c)
  {
    if name == "" {
      assert name + tail == tail;
    } else {
      assert (name + tail)[1..] == name[1..] + tail;
      BeforeName(name[1..], tail, c);
    }
  }

  lemma NameComesBack(p: Param, tail: string)
    requires Printable(p) && (tail == "" || tail[0] == ':' || tail[0] == '=')
    ensures NameOf(Stars(p.stars) + (p.name + tail)) == p.name
  {
    var body := p.name + tail;
    if p.name != "" {
      assert body[0] == p.name[0] && p.name[0] in p.name;
    } else if tail != "" {
      assert body[0] == tail[0];
    }
    StarsDrop(p.stars, body);
    BeforeName(p.name, tail, ':');
    BeforeName(p.name, Before(tail, ':'), '=');
    assert Before(Before(tail, ':'), '=') == "";
    assert p.name + "" == p.name;
    RStripNames(p.name);
    if p.name != "" { assert LStrip(p.name) == p.name; }
  }

  /** A stripped field that a printed parameter stands in gives its name back. */
  lemma FieldName(p: Param)
    requires Printable(p)
    ensures NameOf(Strip(Print(p))) == p.name && NameOf(Strip(" " + Print(p))) == p.name
    ensures NameOf(Strip(RStrip(Print(p)))) == p.name && NameOf(Strip(" " + RStrip(Print(p)))) == p.name
  {
    PrintIsBalanced(p);
    StripPrinted(p);
    NameComesBack(p, RStrip(Tail(p)));
    SpaceBefore(Print(p));
    RStripIsPrefix(Print(p));
    SpaceBefore(RStrip(Print(p)));
    RStripTwice(Print(p));
  }

  lemma {:induction false} RStripTwice(s: string)
    ensures RStrip(RStrip(s)) == RStrip(s)
  {
    if s != "" && IsSpace(s[|s| - 1]) { RStripTwice(s[..|s| - 1]); }
  }

  // ---- the fields of a printed list --------------------------------------------------------------------

  lemma {:induction false} ConsumeField(field: string, rest: string, depth: int, current: string)
    requires NoCut(field, depth)
    ensures Split(field + rest, depth, current) == Split(rest, depth + Net(field), current + field)
    decreases |field|
  {
    if field == "" {
      assert field + rest == rest && current + field == current;
    } else {
      assert (field + rest)[1..] == field[1..] + rest;
      ConsumeField(field[1..], rest, depth + Delta(field[0]), current + [field[0]]);
      assert current + [field[0]] + field[1..] == current + field;
    }
  }

  /** The names of the fields of a printed list, with the blank that precedes all but the first. */
  lemma {:induction false} PrintedNames(params: seq<Param>, lead: string)
    requires params != [] && (forall p | p in params :: Printable(p)) && (lead == "" || lead == " ")
    ensures Reported(Stripped(Split(lead + RStrip(PrintParams(params)), 0, ""))) == NamesOf(params)
    decreases |params|
  {
    if |params| == 1 {
      LastName(params[0], lead);
      assert params[1..] == [];
    } else {
      SolidList(params[1..]);
      FirstName(params[0], lead, PrintParams(params[1..]));
      PrintedNames(params[1..], " ");
    }
  }

  function NameIfReported(p: Param): seq<string> {
    if Ignored(p.name) then [] else [p.name]
  }

  lemma LastName(p: Param, lead: string)
    requires Printable(p) && (lead == "" || lead == " ")
    ensures Reported(Stripped(Split(lead + RStrip(Print(p)), 0, ""))) == NameIfReported(p)
  {
    hide Print;
    PrintIsBalanced(p);
    FieldName(p);
    PlainCharsAreWhole(lead);
    LastField(lead, Print(p));
    OneName(lead + RStrip(Print(p)), []);
    assert "" + RStrip(Print(p)) == RStrip(Print(p));
    assert [lead + RStrip(Print(p))] + [] == [lead + RStrip(Print(p))];
    assert Reported(Stripped([])) == [];
  }

  lemma FirstName(p: Param, lead: string, rest: string)
    requires Printable(p) && (lead == "" || lead == " ") && Solid(rest)
    ensures Reported(Stripped(Split(lead + RStrip(Print(p) + ("," + (" " + rest))), 0, ""))) ==
            NameIfReported(p) + Reported(Stripped(Split(" " + RStrip(rest), 0, "")))
  {
    StripsAtTheEnd(Print(p), rest);
    Associate(lead, Print(p), "," + (" " + RStrip(rest)));
    FieldIsReported(p, lead);
    FieldThenRest(lead + Print(p), " " + RStrip(rest));
  }

  lemma FieldIsReported(p: Param, lead: string)
    requires Printable(p) && (lead == "" || lead == " ")
    ensures Balanced(lead + Print(p)) && NameOf(Strip(lead + Print(p))) == p.name
  {
    LeadIsBalanced(p, lead);
    FieldName(p);
    EmptyLead(Print(p));
  }

  lemma EmptyLead(s: string)
    ensures "" + s == s
  {
  }

  lemma LeadIsBalanced(p: Param, lead: string)
    requires Printable(p) && (lead == "" || lead == " ")
    ensures Balanced(lead + Print(p))
  {
    PrintIsBalanced(p);
    PlainCharsAreWhole(lead);
    BalancedAppend(lead, Print(p));
  }

  lemma FieldThenRest(field: string, rest: string)
    requires Balanced(field)
    ensures Reported(Stripped(Split(field + ("," + rest), 0, ""))) ==
            (if Ignored(NameOf(Strip(field))) then [] else [NameOf(Strip(field))]) + Reported(Stripped(Split(rest, 0, "")))
  {
    FirstField(field, rest);
    OneName(field, Split(rest, 0, ""));
  }

  lemma StripsAtTheEnd(first: string, rest: string)
    requires Solid(rest)
    ensures RStrip(first + ("," + (" " + rest))) == first + ("," + (" " + RStrip(rest)))
  {
    RStripIsPrefix(rest);
    RStripAppend(" ", rest);
    RStripAppend(",", " " + rest);
    RStripAppend(first, "," + (" " + rest));
  }

  lemma SolidList(params: seq<Param>)
    requires params != [] && forall p | p in params :: Printable(p)
    ensures Solid(PrintParams(params))
  {
    PrintIsBalanced(params[0]);
  }

  lemma FirstField(field: string, rest: string)
    requires Balanced(field)
    ensures Split(field + ("," + rest), 0, "") == [field] + Split(rest, 0, "")
  {
    ConsumeField(field, "," + rest, 0, "");
    assert ("," + rest)[1..] == rest && "" + field == field;
  }

  lemma LastField(lead: string, printed: string)
    requires Balanced(lead) && Balanced(printed) && Solid(printed)
    ensures Split(lead + RStrip(printed), 0, "") == [lead + RStrip(printed)]
  {
    RStripIsPrefix(printed);
    var n := |RStrip(printed)|;
    assert printed == printed[..n] + printed[n..];
    NoCutAppend(printed[..n], printed[n..], 0);
    NoCutAppend(lead, printed[..n], 0);
    var field := lead + RStrip(printed);
    ConsumeField(field, "", 0, "");
    assert field + "" == field && "" + field == field;
  }

  lemma {:induction false} OneName(field: string, rest: seq<string>)
    ensures Reported(Stripped([field] + rest)) ==
            (if Ignored(NameOf(Strip(field))) then [] else [NameOf(Strip(field))]) + Reported(Stripped(rest))
    decreases |rest|
  {
    hide Ignored, Stripped, LStrip, Strip;
    var all := Stripped([field] + rest);
    if rest == [] {
      assert all == [Strip(field)] && all[..0] == [];
      assert Reported(all[..0]) == [];
    } else {
      OneName(field, rest[..|rest| - 1]);
      assert all[..|rest|] == Stripped([field] + rest[..|rest| - 1]);
      assert Stripped(rest)[..|rest| - 1] == Stripped(rest[..|rest| - 1]);
    }
  }

  // ---- main result -------------------------------------------------------------------------------------

  function PrintSignature(prefix: string, params: seq<Param>, suffix: string): string {
    prefix + ("(" + (PrintParams(params) + (")" + suffix)))
  }

  lemma {:induction false} NoParenthesis(params: seq<Param>)
    requires forall p | p in params :: Printable(p)
    ensures ')' !in PrintParams(params)
    decreases |params|
  {
    if params != [] {
      PrintIsBalanced(params[0]);
      NoParenthesis(params[1..]);
    }
  }

  lemma {:induction false} FirstOf(a: string, c: char, b: string, i: nat)
    requires c !in a && i <= |a|
    ensures Find(a + ([c] + b), [c], i) == Some(|a|)
    decreases |a| - i
  {
    var s := a + ([c] + b);
    assert s[|a|] == c;
    if i < |a| {
      assert s[i] == a[i];
      var zero := 0;
      assert [c][zero] == c && s[i + zero] != c;
      FirstOf(a, c, b, i + 1);
    }
  }

  /** Parsing a printed signature reports exactly its names, without the ignored ones, in order. */
  lemma PrintThenParse(prefix: string, params: seq<Param>, suffix: string)
    requires '(' !in prefix && forall p | p in params :: Printable(p)
    ensures Names(PrintSignature(prefix, params, suffix)) == NamesOf(params)
  {
    var text := PrintParams(params);
    var s := PrintSignature(prefix, params, suffix);
    NoParenthesis(params);
    FirstOf(prefix, '(', text + (")" + suffix), 0);
    ParamsBetween(prefix, text, suffix);
    if params == [] {
      assert Strip(text) == "" && Split("", 0, "") == [];
    } else {
      SolidList(params);
      assert Strip(text) == RStrip(text);
      PrintedNames(params, "");
      assert "" + RStrip(text) == RStrip(text);
    }
  }

  lemma ParamsBetween(prefix: string, text: string, suffix: string)
    requires '(' !in prefix && ')' !in text
    ensures ParamsText(prefix + ("(" + (text + (")" + suffix)))) == Some(Strip(text))
  {
    var s := prefix + ("(" + (text + (")" + suffix)));
    FirstOf(prefix, '(', text + (")" + suffix), 0);
    var front := prefix + "(";
    assert s == (front + text) + (")" + suffix);
    CloseAfter(front, text, suffix);
    assert s[|front|..|front| + |text|] == text;
  }

  lemma {:induction false} CloseAfter(front: string, text: string, suffix: string)
    requires ')' !in text
    ensures Find((front + text) + (")" + suffix), ")", |front|) == Some(|front| + |text|)
  {
    var s := (front + text) + (")" + suffix);
    forall k: nat | |front| <= k < |front| + |text| ensures !Sits(")", s, k) {
      assert s[k] == text[k - |front|];
      var zero := 0;
      assert ")"[zero] == ')' && s[k + zero] != ')';
    }
    FindSkips(s, ")", |front|, |front| + |text|);
    assert s[|front| + |text|] == ')';
  }

  /** The parameters proper: Python's marker for positional-only parameters is none. */
  function Proper(params: seq<Param>): seq<Param> {
    if params == [] then []
    else (if params[0].name == "/" then [] else [params[0]]) + Proper(params[1..])
  }

  lemma {:induction false} MarkersLengthen(params: seq<Param>)
    ensures |NamesOf(Proper(params))| <= |NamesOf(params)|
    ensures NamesOf(Proper(params)) == NamesOf(params) <==> forall p | p in params :: p.name != "/"
  {
    if params != [] {
      var rest := params[1..];
      MarkersLengthen(rest);
      AllOf(params);
      if params[0].name == "/" {
        assert Proper(params) == Proper(rest);
      } else {
        assert Proper(params)[1..] == Proper(rest);
        SameBehind(NameIfReported(params[0]), NamesOf(Proper(rest)), NamesOf(rest));
      }
    }
  }

  lemma AllOf(params: seq<Param>)
    requires params != []
    ensures (forall p | p in params :: p.name != "/") <==>
              params[0].name != "/" && forall p | p in params[1..] :: p.name != "/"
  {
    assert params == [params[0]] + params[1..];
  }

  lemma SameBehind(a: seq<string>, b: seq<string>, c: seq<string>)
    ensures a + b == a + c <==> b == c
  {
    if a + b == a + c {
      assert b == (a + b)[|a|..] && c == (a + c)[|a|..];
    }
  }

  /**
   The documentation promises the names of the parameters. The positional-only marker is reported as if
   it were one, so the promise is kept exactly for the signatures without it.
   */
  lemma ReportsParametersExactlyWhen(prefix: string, params: seq<Param>, suffix: string)
    requires '(' !in prefix && forall p | p in params :: Printable(p)
    ensures Names(PrintSignature(prefix, params, suffix)) == NamesOf(Proper(params)) <==>
              forall p | p in params :: p.name != "/"
  {
    PrintThenParse(prefix, params, suffix);
    MarkersLengthen(params);
  }
}
