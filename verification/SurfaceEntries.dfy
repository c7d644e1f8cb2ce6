/**
 The marker-aware entries of `scripts/sync_surface_counts.py`: every one of them is a pattern of the
 kind that the theorems are about.
 */
module SurfaceEntries {
  import opened MarkerText
  import opened MarkerMatching
  import opened MarkerRefinement
  import opened MarkerDocs
  import RewriterTheorems

  /** The live counts, in decimal. */
  datatype Counts = Counts(commands: string, canonical: string, aliases: string, tools: string, core: string)

  predicate Proper(c: Counts) {
    Decimal(c.commands) && Decimal(c.canonical) && Decimal(c.aliases) && Decimal(c.tools) && Decimal(c.core)
  }

  /** A part of a pattern: literal text, a number to write, or a number that stays. */
  datatype Part = Text(text: string) | Write(digits: string) | Stay

  function ItemsOf(part: Part): seq<Item> {
    match part
    case Text(text) => seq(|text|, k requires 0 <= k < |text| => Lit(text[k]))
    case Write(digits) => [Put(digits)]
    case Stay => [Keep]
  }

  function Items(parts: seq<Part>): seq<Item> {
    if parts == [] then [] else ItemsOf(parts[0]) + Items(parts[1..])
  }

  predicate PlainText(text: string) {
    text != "" && forall k | 0 <= k < |text| :: !IsDigit(text[k]) && text[k] != '<' && text[k] != '>'
  }

  predicate ProperPart(part: Part) {
    match part
    case Text(text) => PlainText(text)
    case Write(digits) => Decimal(digits)
    case Stay => true
  }

  /** Text without digits and angle brackets, proper numbers, and text between any two numbers. */
  predicate ProperParts(parts: seq<Part>) {
    && (forall k | 0 <= k < |parts| :: ProperPart(parts[k]))
    && (forall k | 0 < k < |parts| :: parts[k - 1].Text? || parts[k].Text?)
  }

  predicate Sound(items: seq<Item>) {
    && (forall k | 0 <= k < |items| :: ValidItem(items[k]) && items[k] != Lit('<') && items[k] != Lit('>'))
    && (forall k {:trigger Separated(items, k)} | 0 < k < |items| :: Separated(items, k))
  }

  lemma SoundAppend(a: seq<Item>, b: seq<Item>)
    requires Sound(a) && Sound(b) && a != [] && (b == [] || a[|a| - 1].Lit? || b[0].Lit?)
    ensures Sound(a + b)
  {
    var c := a + b;
    forall k | 0 < k < |c| ensures Separated(c, k) {
      if k < |a| {
        assert Separated(a, k);
      } else if k > |a| {
        assert Separated(b, k - |a|);
      }
    }
  }

  lemma {:induction false} PartsAreSound(parts: seq<Part>)
    requires ProperParts(parts)
    ensures Sound(Items(parts)) && (parts != [] ==> Items(parts) != [] && (parts[0].Text? ==> Items(parts)[0].Lit?))
  {
    if parts != [] {
      var first, rest := ItemsOf(parts[0]), Items(parts[1..]);
      assert ProperPart(parts[0]);
      PartsAreSound(parts[1..]);
      if |parts| > 1 { assert parts[0].Text? || parts[1].Text?; }
      SoundAppend(first, rest);
    }
  }

  function Active(left: bool, parts: seq<Part>, right: bool): Entry {
    Entry(Pattern(left, Items(parts), right), true)
  }

  predicate Fit(e: Entry) {
    Regular(e.pattern) && Plain(e.pattern)
  }

  lemma ProperPartsFit(left: bool, parts: seq<Part>, right: bool)
    requires parts != [] && ProperParts(parts)
    ensures Fit(Active(left, parts, right))
  {
    PartsAreSound(parts);
  }

  // ---- the entries ------------------------------------------------------------------------------------------

  function Resources(c: Counts): seq<Part> {
    [Write(c.tools), Text(" tools, "), Stay, Text(" resources, and "), Stay, Text(" prompts are available")]
  }

  function TreeServer(c: Counts): seq<Part> {
    [Text("MCP server ("), Write(c.tools), Text(" tools, "), Stay, Text(" resources, "), Stay, Text(" prompts)")]
  }

  function TreeCli(c: Counts): seq<Part> {
    [Text("Click CLI ("), Write(c.canonical), Text(" canonical + "), Write(c.aliases), Text(" aliases)")]
  }

  function Names(c: Counts): seq<Part> {
    [Write(c.commands), Text(" command names ("), Write(c.canonical), Text(" canonical + "), Write(c.aliases), Text(" aliases)")]
  }

  function ClaudeServer(c: Counts): seq<Part> {
    [Text("FastMCP server ("), Write(c.core), Text(" tools in core preset; up to "), Write(c.tools), Text(" in `full`)")]
  }

  function AgentsServer(c: Counts): seq<Part> {
    [Text("FastMCP server ("), Write(c.core), Text(" tools in core preset; "), Write(c.tools), Text(" in `full`)")]
  }

  function AllNames(c: Counts): seq<Part> {
    [Text("for all "), Write(c.commands), Text(" command names")]
  }

  function ReadmeEntries(c: Counts): seq<Entry> {
    [Active(true, Resources(c), false), Active(false, TreeServer(c), false), Active(false, TreeCli(c), false)]
  }

  function ClaudeEntries(c: Counts): seq<Entry> {
    [Active(true, Names(c), false), Active(false, ClaudeServer(c), false), Active(true, AllNames(c), true)]
  }

  function AgentsEntries(c: Counts): seq<Entry> {
    [Active(true, Names(c), false), Active(false, AgentsServer(c), false), Active(true, AllNames(c), true)]
  }

  lemma ResourcesFit(c: Counts)
    requires Proper(c)
    ensures Fit(Active(true, Resources(c), false))
  {
    assert PlainText(" tools, ") && PlainText(" resources, and ") && PlainText(" prompts are available");
    ProperPartsFit(true, Resources(c), false);
  }

  lemma TreeServerFits(c: Counts)
    requires Proper(c)
    ensures Fit(Active(false, TreeServer(c), false))
  {
    assert PlainText("MCP server (") && PlainText(" tools, ") && PlainText(" resources, ") && PlainText(" prompts)");
    ProperPartsFit(false, TreeServer(c), false);
  }

  lemma TreeCliFits(c: Counts)
    requires Proper(c)
    ensures Fit(Active(false, TreeCli(c), false))
  {
    assert PlainText("Click CLI (") && PlainText(" canonical + ") && PlainText(" aliases)");
    ProperPartsFit(false, TreeCli(c), false);
  }

  lemma NamesFit(c: Counts)
    requires Proper(c)
    ensures Fit(Active(true, Names(c), false)) && Fit(Active(true, AllNames(c), true))
  {
    hide Items, ItemsOf, Regular;
    assert PlainText(" command names (") && PlainText(" canonical + ") && PlainText(" aliases)");
    ProperPartsFit(true, Names(c), false);
    assert PlainText("for all ") && PlainText(" command names");
    ProperPartsFit(true, AllNames(c), true);
  }

  lemma ClaudeServerFits(c: Counts)
    requires Proper(c)
    ensures Fit(Active(false, ClaudeServer(c), false))
  {
    assert PlainText("FastMCP server (") && PlainText(" tools in core preset; up to ") && PlainText(" in `full`)");
    ProperPartsFit(false, ClaudeServer(c), false);
  }

  lemma AgentsServerFits(c: Counts)
    requires Proper(c)
    ensures Fit(Active(false, AgentsServer(c), false))
  {
    assert PlainText("FastMCP server (") && PlainText(" tools in core preset; ") && PlainText(" in `full`)");
    ProperPartsFit(false, AgentsServer(c), false);
  }

  /** Every marker-aware entry has digit-free text between its numbers and matches no angle bracket. */
  lemma EntriesFit(c: Counts)
    requires Proper(c)
    ensures RegularEntries(ReadmeEntries(c)) && RewriterTheorems.AllPlain(ReadmeEntries(c))
    ensures RegularEntries(ClaudeEntries(c)) && RewriterTheorems.AllPlain(ClaudeEntries(c))
    ensures RegularEntries(AgentsEntries(c)) && RewriterTheorems.AllPlain(AgentsEntries(c))
  {
    ResourcesFit(c);
    TreeServerFits(c);
    TreeCliFits(c);
    NamesFit(c);
    ClaudeServerFits(c);
    AgentsServerFits(c);
  }
}
