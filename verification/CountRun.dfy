/**
 `run` in `dev/build_readme_counts.py`: the blocks of the Markdown files are rebuilt, two copies of the
 card are updated, the mirrors are copied from the public one, and the hash pin follows the bundled
 one, in this order.
 */
module CountRun {
  import opened MarkerStrings
  import opened Strings
  import opened Wrappers
  import RewriterStrings
  import RewriterTheorems

  /** The file that pins the card's hash: the text before and behind the digest, or no pin at all. */
  datatype PinFile = Pinned(head: string, digest: string, tail: string) | NoPin(text: string)

  /** What is on disk; a missing file is `None`. */
  datatype Cards = Cards(public: Option<string>, bundled: Option<string>, mirrors: seq<Option<string>>, pin: Option<PinFile>)

  /** What is on disk. */
  datatype Files = Files(pages: seq<Option<string>>, cards: Cards)

  /** A Markdown file of the run: the blocks built for it, and whether it may be absent. */
  datatype Target = Target(blocks: seq<Body>, optional: bool)

  /** `update` may raise; `digest` normalizes line ends and hashes. */
  datatype Tools = Tools(update: string -> Option<string>, digest: string -> string)

  datatype Report = Raised | Report(changed: bool, missing: bool)

  // ---- what a run leaves behind --------------------------------------------------------------------

  function UpdatedMirrors(public: Option<string>, mirrors: seq<Option<string>>): (r: seq<Option<string>>)
    ensures |r| == |mirrors|
    ensures forall i | 0 <= i < |r| :: r[i] == if public.Some? && mirrors[i].Some? then public else mirrors[i]
  {
    seq(|mirrors|, i requires 0 <= i < |mirrors| => if public.Some? && mirrors[i].Some? then public else mirrors[i])
  }

  function UpdatedPin(tools: Tools, bundled: Option<string>, pin: Option<PinFile>): Option<PinFile> {
    match (bundled, pin)
    case (Some(card), Some(Pinned(head, _, tail))) => Some(Pinned(head, tools.digest(card), tail))
    case _ => pin
  }

  /** A file that only imports another one is left alone. */
  predicate OnlyImports(text: string) {
    Starts(LStrip(text), "@AGENTS.md")
  }

  function UpdatedPage(page: Option<string>, target: Target): Option<string> {
    match page
    case None => None
    case Some(text) => if OnlyImports(text) then page else Some(BuildString(text, target.blocks))
  }

  function UpdatedPages(pages: seq<Option<string>>, targets: seq<Target>): (r: seq<Option<string>>)
    requires |pages| == |targets|
    ensures |r| == |pages| && forall i | 0 <= i < |r| :: r[i] == UpdatedPage(pages[i], targets[i])
  {
    seq(|pages|, i requires 0 <= i < |pages| => UpdatedPage(pages[i], targets[i]))
  }

  /** A file that must be there is not, or a block of it has no place. */
  predicate PageIncomplete(page: Option<string>, target: Target) {
    match page
    case None => !target.optional
    case Some(text) => !OnlyImports(text) && NotFound(text, target.blocks) != []
  }

  predicate PagesIncomplete(pages: seq<Option<string>>, targets: seq<Target>)
    requires |pages| == |targets|
  {
    exists i | 0 <= i < |pages| :: PageIncomplete(pages[i], targets[i])
  }

  /** The update of a card that may be missing; `None` when it raises. */
  function Updated(tools: Tools, card: Option<string>): Option<Option<string>> {
    match card
    case None => Some(None)
    case Some(text) =>
      match tools.update(text)
      case None => None
      case Some(new_) => Some(Some(new_))
  }

  /** The state after a run that writes, or nothing when an update raises. */
  function Final(tools: Tools, rotate: bool, c: Cards): Option<Cards> {
    match (Updated(tools, c.public), Updated(tools, c.bundled))
    case (Some(public), Some(bundled)) =>
      Some(Cards(public, bundled, UpdatedMirrors(public, c.mirrors),
                 if rotate then UpdatedPin(tools, bundled, c.pin) else c.pin))
    case _ => None
  }

  /** The whole run that writes. */
  function FinalFiles(tools: Tools, targets: seq<Target>, rotate: bool, f: Files): Option<Files>
    requires |f.pages| == |targets|
  {
    match Final(tools, rotate, f.cards)
    case Some(cards) => Some(Files(UpdatedPages(f.pages, targets), cards))
    case None => None
  }

  /** The exit code: drift, missing parts, or nothing to say. Applying never fails with one of them. */
  function ExitCode(r: Report, write: bool): int
    requires r.Report?
  {
    if write then 0 else if r.changed then 1 else if r.missing then 2 else 0
  }

  /** What a run that raises has written by then: nothing, or the public card if its own update went through. */
  function Abandoned(tools: Tools, c: Cards): Cards {
    match Updated(tools, c.public)
    case None => c
    case Some(public) => c.(public := public)
  }

  /** Something that the run owns is not there; only the bundled card may be absent, if no pin follows it. */
  predicate Incomplete(c: Cards, rotate: bool) {
    || c.public.None? || None in c.mirrors
    || (rotate && (c.bundled.None? || c.pin.None? || c.pin.value.NoPin?))
  }

  lemma NextEntry(before: seq<Option<string>>, after: seq<Option<string>>, i: nat)
    requires i < |before| == |after|
    ensures before[..i + 1] == before[..i] + [before[i]] && after[..i + 1] == after[..i] + [after[i]]
    ensures after[..i + 1] == before[..i + 1] <==> after[..i] == before[..i] && after[i] == before[i]
    ensures (after[..i] + before[i..])[i := after[i]] == after[..i + 1] + before[i + 1..]
    ensures after[i] == before[i] ==> after[..i] + before[i..] == after[..i + 1] + before[i + 1..]
  {
    if after[..i + 1] == before[..i + 1] {
      assert after[..i] == after[..i + 1][..i] && after[i] == after[..i + 1][i];
    }
  }

  // ---- the run ------------------------------------------------------------------------------------------

  lemma NextPage(before: seq<Option<string>>, targets: seq<Target>, i: nat)
    requires i < |before| == |targets|
    ensures PagesIncomplete(before[..i + 1], targets[..i + 1]) <==>
              PagesIncomplete(before[..i], targets[..i]) || PageIncomplete(before[i], targets[i])
  {
    if PagesIncomplete(before[..i], targets[..i]) {
      var k :| 0 <= k < i && PageIncomplete(before[..i][k], targets[..i][k]);
      assert PageIncomplete(before[..i + 1][k], targets[..i + 1][k]);
    }
    if PageIncomplete(before[i], targets[i]) {
      assert PageIncomplete(before[..i + 1][i], targets[..i + 1][i]);
    }
  }

  class Tree {
    var pages: seq<Option<string>>
    var public: Option<string>
    var bundled: Option<string>
    var mirrors: seq<Option<string>>
    var pin: Option<PinFile>

    constructor (f: Files)
      ensures State() == f
    {
      pages := f.pages;
      public, bundled, mirrors, pin := f.cards.public, f.cards.bundled, f.cards.mirrors, f.cards.pin;
    }

    ghost function State(): Files
      reads this
    {
      Files(pages, Cards(public, bundled, mirrors, pin))
    }

    /** `_apply_markdown` of one file. */
    method ApplyPage(i: nat, target: Target, write: bool) returns (changed: bool, missing: bool)
      requires i < |pages|
      modifies this`pages
      ensures pages == if write then old(pages)[i := UpdatedPage(old(pages)[i], target)] else old(pages)
      ensures changed <==> UpdatedPage(old(pages)[i], target) != old(pages)[i]
      ensures missing <==> PageIncomplete(old(pages)[i], target)
    {
      changed, missing := false, false;
      match pages[i] {
        case None =>
          missing := !target.optional;
        case Some(text) =>
          if !OnlyImports(text) {
            var newText, absent := ApplyMarkdown(text, target.blocks);
            changed, missing := newText != text, absent != [];
            if write { pages := pages[i := Some(newText)]; }
          }
      }
    }

    /** The loop over the Markdown files. */
    method ApplyPages(targets: seq<Target>, write: bool) returns (changed: bool, missing: bool)
      requires |pages| == |targets|
      modifies this`pages
      ensures pages == if write then UpdatedPages(old(pages), targets) else old(pages)
      ensures changed <==> UpdatedPages(old(pages), targets) != old(pages)
      ensures missing <==> PagesIncomplete(old(pages), targets)
    {
      changed, missing := false, false;
      ghost var before, after := pages, UpdatedPages(pages, targets);
      for i := 0 to |targets|
        invariant |pages| == |before|
        invariant pages == if write then after[..i] + before[i..] else before
        invariant changed <==> after[..i] != before[..i]
        invariant missing <==> PagesIncomplete(before[..i], targets[..i])
      {
        NextEntry(before, after, i);
        NextPage(before, targets, i);
        assert pages[i] == before[i];
        var pageChanged, pageMissing := ApplyPage(i, targets[i], write);
        changed, missing := changed || pageChanged, missing || pageMissing;
      }
      assert after[..|before|] + before[|before|..] == after && before[..|before|] == before && targets[..|before|] == targets;
    }

    /** `_sync_well_known_mirror` for every mirror, against the public card as it is on disk now. */
    method SyncMirrors(write: bool) returns (changed: bool, missing: bool)
      modifies this`mirrors
      ensures mirrors == if write then UpdatedMirrors(public, old(mirrors)) else old(mirrors)
      ensures changed <==> UpdatedMirrors(public, old(mirrors)) != old(mirrors)
      ensures missing <==> None in old(mirrors) || (public.None? && old(mirrors) != [])
    {
      changed, missing := false, false;
      ghost var before, after := mirrors, UpdatedMirrors(public, mirrors);
      for i := 0 to |mirrors|
        invariant |mirrors| == |before|
        invariant mirrors == if write then after[..i] + before[i..] else before
        invariant changed <==> after[..i] != before[..i]
        invariant missing <==> None in before[..i] || (public.None? && i > 0)
      {
        NextEntry(before, after, i);
        assert mirrors[i] == before[i];
        if public.None? || mirrors[i].None? {
          missing := true;
        } else if public != mirrors[i] {
          changed := true;
          if write { mirrors := mirrors[i := public]; }
        }
      }
      assert after[..|before|] + before[|before|..] == after && before[..|before|] == before;
    }

    /** The cards, the mirrors and the pin, in the order of `run`. */
    method ApplyCards(tools: Tools, rotate: bool, write: bool) returns (r: Report)
      modifies this`public, this`bundled, this`mirrors, this`pin
      ensures r.Raised? <==> Final(tools, rotate, old(State()).cards).None?
      ensures r.Report? && write ==> Some(State().cards) == Final(tools, rotate, old(State()).cards)
      ensures r.Raised? && write ==> State().cards == Abandoned(tools, old(State()).cards)
      ensures !write ==> State() == old(State())
      ensures r.Report? ==> (r.changed <==> Final(tools, rotate, old(State()).cards) != Some(old(State()).cards))
      ensures r.Report? ==> (r.missing <==> Incomplete(old(State()).cards, rotate))
    {
      var changed, missing := false, public.None?;
      var newPublic := Updated(tools, public);
      if newPublic.None? {
        return Raised;
      }
      changed := newPublic.value != public;
      if write { public := newPublic.value; }
      var newBundled := Updated(tools, bundled);
      if newBundled.None? {
        return Raised;
      }
      changed := changed || newBundled.value != bundled;
      if write { bundled := newBundled.value; }
      var mirrored, lost := SyncMirrors(write);
      changed, missing := changed || mirrored, missing || lost;
      if rotate {
        var newPin := UpdatedPin(tools, bundled, pin);
        missing := missing || bundled.None? || pin.None? || pin.value.NoPin?;
        changed := changed || newPin != pin;
        if write { pin := newPin; }
      }
      r := Report(changed, missing);
    }

    /** The whole run; the pages come first, and stay written when a card then raises. */
    method Run(tools: Tools, targets: seq<Target>, rotate: bool, write: bool) returns (r: Report)
      requires |pages| == |targets|
      modifies this
      ensures |pages| == |targets|
      ensures r.Raised? <==> FinalFiles(tools, targets, rotate, old(State())).None?
      ensures r.Report? && write ==> Some(State()) == FinalFiles(tools, targets, rotate, old(State()))
      ensures r.Raised? && write ==>
                State() == Files(UpdatedPages(old(pages), targets), Abandoned(tools, old(State()).cards))
      ensures !write ==> State() == old(State())
      ensures r.Report? ==> (r.changed <==> FinalFiles(tools, targets, rotate, old(State())) != Some(old(State())))
      ensures r.Report? ==> (r.missing <==> PagesIncomplete(old(pages), targets) || Incomplete(old(State()).cards, rotate))
    {
      var changed, missing := ApplyPages(targets, write);
      r := ApplyCards(tools, rotate, write);
      if r.Report? {
        r := Report(changed || r.changed, missing || r.missing);
      }
    }
  }

  // ---- main results ------------------------------------------------------------------------------------

  ghost predicate UpdateSettles(tools: Tools) {
    forall t :: tools.update(t).Some? ==> tools.update(tools.update(t).value) == tools.update(t)
  }

  /**
   The cards are settled by one run. That the mirrors are copied and the pin is rotated after both
   updates is what makes a single run enough.
   */
  lemma CardsSettle(tools: Tools, rotate: bool, c: Cards)
    requires UpdateSettles(tools) && Final(tools, rotate, c).Some?
    ensures Final(tools, rotate, Final(tools, rotate, c).value) == Final(tools, rotate, c)
  {
    var once := Final(tools, rotate, c).value;
    assert UpdatedMirrors(once.public, once.mirrors) == once.mirrors;
  }

  /** The page has well-formed markers, and the blocks built for it can be written into it. */
  ghost predicate Buildable(page: Option<string>, target: Target) {
    page.Some? && !OnlyImports(page.value) ==>
      && (exists d :: RewriterStrings.WellMarked(d) && RewriterStrings.PageText(d) == page.value)
      && RewriterStrings.WritableBodies(target.blocks) && RewriterStrings.DistinctBodies(target.blocks)
  }

  lemma PageSettles(page: Option<string>, target: Target)
    requires Buildable(page, target)
    ensures UpdatedPage(UpdatedPage(page, target), target) == UpdatedPage(page, target)
  {
    if page.Some? && !OnlyImports(page.value) {
      var d :| RewriterStrings.WellMarked(d) && RewriterStrings.PageText(d) == page.value;
      RewriterStrings.RewritersSettle(d, [], target.blocks);
    }
  }

  /** One run settles everything: after it, a second one changes no file. */
  lemma OneRunSettles(tools: Tools, targets: seq<Target>, rotate: bool, f: Files)
    requires UpdateSettles(tools) && |f.pages| == |targets|
    requires forall i | 0 <= i < |targets| :: Buildable(f.pages[i], targets[i])
    requires FinalFiles(tools, targets, rotate, f).Some?
    ensures
      var once := FinalFiles(tools, targets, rotate, f);
      FinalFiles(tools, targets, rotate, once.value) == once
  {
    var once := FinalFiles(tools, targets, rotate, f).value;
    CardsSettle(tools, rotate, f.cards);
    forall i | 0 <= i < |targets| ensures UpdatedPages(once.pages, targets)[i] == once.pages[i] {
      PageSettles(f.pages[i], targets[i]);
    }
    assert UpdatedPages(once.pages, targets) == once.pages;
  }

  /** So the check that follows a run reports no drift: it exits with 2 if something is missing, else with 0. */
  method CheckAfterApply(tree: Tree, tools: Tools, targets: seq<Target>, rotate: bool) returns (applied: Report, code: int)
    requires UpdateSettles(tools) && |tree.pages| == |targets|
    requires forall i | 0 <= i < |targets| :: Buildable(tree.pages[i], targets[i])
    modifies tree
    ensures |tree.pages| == |targets|
    ensures applied.Report? ==>
              code == if PagesIncomplete(tree.pages, targets) || Incomplete(tree.State().cards, rotate) then 2 else 0
  {
    ghost var f := tree.State();
    applied := tree.Run(tools, targets, rotate, true);
    code := 0;
    if applied.Report? {
      OneRunSettles(tools, targets, rotate, f);
      var checked := tree.Run(tools, targets, rotate, false);
      code := ExitCode(checked, false);
    }
  }
}
