# roam-code: verified models of the installer, the release chain and the text tools

This project models the parts of roam-code where one mistake loses a user's file, publishes the wrong
artifact or makes two maintenance scripts fight, and proves what those parts are for. `dafny verify
dfyconfig.toml` checks all of it. Nothing here executes the original program.

## What is modelled

**The conditional installer** (`src/roam/atomic_io.py`). `FileSystem.dfy` holds directory entries bound
to objects, objects with content, times and link count, and what other processes may do between any two
system calls. `AtomicInstall.dfy` is the writer: one total function per system call of
`atomic_write_bytes` and `conditional_install_file`, for the POSIX and for the Windows back end, with
short reads and writes, random names and failures chosen from outside. `AtomicRuns.dfy` interleaves any
number of such runs with each other and with everybody else. SHA-256 is injective. POSIX needs two
assumptions: nobody touches the source between its last check and the rename, and every change of an
object moves its change time forward. `AtomicLimits.dfy` gives for each a whole execution, from the start
of a run, that breaks only this assumption and publishes somebody else's bytes, and says without any
assumption when the payload is what is published. The exclusive Windows handle needs neither.
`AtomicProgress.dfy` shows that the safety theorems are not about runs that never publish: on both
platforms a run that nobody disturbs succeeds.

**The release chain** (`scripts/release_artifacts.py`). The canonical sdist, the SBOM binding, the
prepare/verify pair, the recovery planner, and the recovery job over whole runs with crashes
(`Sdist*.dfy`, `Sbom*.dfy`, `Release*.dfy`, `Pypi*.dfy`). `FileLoops.dfy` holds the read and write loops
underneath, in a world that may change before every system call.

**The glob compiler** (`src/roam/_glob_match.py`). The tokenizer loop, the printed expression, a parser
for that fragment of Python's expression syntax, the semantics of what is parsed, and a direct matcher
that never mentions regular expressions (`Glob*.dfy`).

**The PNG stripper** (`scripts/strip_metadata.py`). Scan and strip are separate loops over
length-prefixed chunks, laid out as in section 5.3 of the PNG Specification (`PngStrip.dfy`, `PngTheorems.dfy`).

**The two count rewriters** (`scripts/sync_surface_counts.py`, `dev/build_readme_counts.py`).
`MarkerStrings.dfy` is both scripts on strings: a pattern matcher that takes the longest run of digits
first and backtracks, the marker scan, and the block replacement. `MarkerTokens.dfy` cuts a string into
characters and whole digit runs and back; `MarkerMatching.dfy`, `MarkerScan.dfy`, `MarkerRefinement.dfy`
and `MarkerReplacement.dfy` prove that the scripts do token by token what the token rewriters of
`MarkerText.dfy` do. On tokens (`SurfaceSync.dfy`, `MarkerDocs.dfy`, `RewriterTheorems.dfy`) settling and
commuting are theorems about all texts; `RewriterStrings.dfy` states them for strings. The patterns are
literal text without digits around numbers that are kept or written, which `SurfaceEntries.dfy` shows of
every marker-aware entry. `CountRun.dfy` is the whole `run` of the second script: the Markdown files, the
cards, the mirrors and the hash pin, with the exit codes.

**The changelog page, the signature splitter, the dependency closure**
(`scripts/build_changelog_html.py`, `src/roam/_signature_utils.py`, `dev/env_doctor.py`) in
`Changelog*.dfy`, `SignatureParams.dfy` and `DependencyClosure.dfy`.

## Where the code differs from what is written about it

The models follow the code.

* The glob documentation says that `**` matches zero or more components. After a plain segment a final
  `**` needs at least one: `src/` followed by `**` rejects `src`. `GlobSegments.DocumentedExactlyWhen`
  gives the exact patterns.
* The emitted `.` does not match a newline and `$` also stands before a final one, so the matcher is right
  for every pattern exactly on paths without a newline (`GlobTheorems.RightForEveryPatternExactlyWhen`).
* `prepare` does not look at the distributions' own file names while it binds the SBOM and writes the
  manifest, but `verify` does, and `prepare` calls it last. So with an unsafe name the manifest is written
  and the script's own `prepare` then ends in a refusal: `ReleaseManifest.UnsafeNameIsPrepared` for every
  such release, `CheckedPrepareSucceedsExactlyWhen` for the exact condition, and
  `ReleaseWitness.SomeReleaseIsPreparedAndRefused` for a concrete one with a library that is faithful.
* The changelog splice is settled by one run only if no marker stands before the block
  (`ChangelogSplice.SpliceSettlesExactlyWhen`). With an end marker there every further run makes the page
  longer by at least the block (`EveryRunGrows`); with a begin marker the second run settles it
  (`SecondRunSettles`). The theorems are about all markers of the script's shape (`MarkersAreShaped`).
* The renderer's comment asks for two blanks before a continued bullet line; the code accepts any white
  space. The two differ exactly on lines that start with white space but not with two blanks
  (`ChangelogRender.BulletRuleDiffersExactlyWhen`); `" b"` is one (`OneBlankIsAbsorbed`). A title line under
  a bullet stays in it, instead of being dropped, exactly if it is indented (`TitleAbsorbedExactlyWhen`).
* The signature parser reports Python's positional-only marker as a parameter
  (`SignatureParams.ReportsParametersExactlyWhen`).
* The PNG stripper drops up to eight bytes at the end that are too few for a chunk: it gives a file back
  exactly if nothing is reported and the chunks reach its end (`PngTheorems.StripIsIdentityExactlyWhen`);
  `ShortTailIsDropped` is a clean file that changes.
* The two rewriters settle because a written number stands where a number stood. An entry that writes
  more, such as one from `\d+x` to `1xx`, would grow the text in every run
  (`RewriterStrings.NumbersMustStayNumbers`); no entry does.

## Model

| member | source | states |
|---|---|---|
| AtomicRuns.ExactPublication | src/roam/atomic_io.py:720-778 | over every interleaving, a run that publishes gave its target an object whose bytes are exactly its payload; returning normally implies having published; a run that saw no destination overwrote nothing; a run that replaced one found, at its last check, the generation captured before the validator ran |
| AtomicRuns.PublicationStep | src/roam/atomic_io.py:436-467 | publication happens only in the rename step; it binds the target to that object, moves no other name but the source and changes no content |
| AtomicFrame.NoRollback | src/roam/atomic_io.py:673-717 | on POSIX, whatever happens after the rename, the run itself binds and removes no name, changes no object and keeps its record, over the rest of any execution |
| AtomicRuns.WindowsCommitProof | src/roam/atomic_io.py:608-638 | while the exclusive handle is open after publication the object is held and carries the payload; at release the target leads to a re-proved object, or the object sits under a quarantine name, or quarantine failed, and the last two raise |
| AtomicRuns.QuarantineStep | src/roam/atomic_io.py:587-605 | quarantine gives the object a name nobody had, unbinds the consumer name and moves nothing else |
| AtomicRuns.ExecutionKeepsInv | src/roam/atomic_io.py:1010-1103 | the installer's invariant holds for every run after every allowed interleaving, and no run reaches a step whose locals are unset |
| AtomicPublication.InterferenceKeepsInv | src/roam/atomic_io.py:831-875 | everything others may do between two steps keeps the invariant: a tracked object is untouched or its change time tells |
| AtomicExclusion.AtMostOneWinner | src/roam/atomic_io.py:1311-1326 | of any number of concurrent create-only writers to a name nobody deletes, at most one stands under it, even if others rebind the name; if nobody rebinds it (`exact`), its object stays in place whatever the losers do |
| AtomicExclusion.ReturningMeansWinning | src/roam/atomic_io.py:685-701 | a create-only run that returns normally is the standing winner, and no other run stands under the same entry; every other one raises |
| AtomicFrame.StepFrame | src/roam/atomic_io.py:917-951 | a step that does not publish changes no name but the run's own temp and no object but the temp; it removes a name only on Windows, and only if it still leads to the object this run created |
| AtomicFrame.UnpublishedRunTouchesOnlyItsTemp | src/roam/atomic_io.py:1329-1333 | over any execution, a run that never published has touched no name but its own temp's, and with a pinned parent none outside the directory it opened |
| AtomicFrame.PinnedParent | src/roam/atomic_io.py:1028-1095 | a run with a pinned parent takes the same course from beginning to end along any two sequences of worlds that agree inside the opened directory and, at the explicit checks, on the parent; no step changes anything in another directory |
| AtomicFrame.PosixRun | src/roam/atomic_io.py:673-717 | over any execution, a POSIX run touches only its tempfile name and the target, with a pinned parent only in the directory it opened, changes no object but its tempfile (none when it installs a given source), and touches nothing once it has published |
| AtomicWindowsFrame.WindowsRun | src/roam/atomic_io.py:587-670 | over any execution, a Windows run touches only the name of its tempfile (or of the source it installs), the target and at most one further name, under which it then has the object in quarantine, and changes no object but its tempfile |
| AtomicProgress.UndisturbedRunSucceeds | src/roam/atomic_io.py:1221-1333 | on both platforms, for both tasks: if the target is free or a regular file that may be replaced and the source to install is what its generation says, a run that nobody disturbs ends normally within 26 steps and three per byte, however short its reads and writes are, with the payload under the target |
| AtomicLimits.WindowIsNeeded | src/roam/atomic_io.py:710-717 | an execution from the start of a run in which only the quiet window is broken, by a properly stamped swap of the source name, ends with somebody else's bytes under the target |
| AtomicLimits.StampsAreNeeded | src/roam/atomic_io.py:336-346 | an execution from the start of a run in which only a change time stays put, during a rewrite in the middle of the capture, passes every later check and publishes the rewritten bytes |
| AtomicLimits.PayloadIsPublishedExactlyWhen | src/roam/atomic_io.py:700-717 | on POSIX, with nothing assumed of anybody, what a run publishes is its payload exactly if at the moment of the rename the source name leads to an object that holds it |
| FileLoops.CaptureFileGeneration | src/roam/atomic_io.py:831-875 | under any interference and short reads: a result is the generation and digest of the object's whole content at the end; the offset is restored on every path; no byte past limit + 1 is asked for and never zero bytes; an undisturbed file succeeds exactly if regular, single-link and within the limit |
| FileLoops.ReadBoundedRegularFile | scripts/release_artifacts.py:158-201 | a result is the whole content of the object the path leads to at the end, regular, single-link, within the limit; no byte past limit + 1 is asked for; an undisturbed acceptable file succeeds |
| FileLoops.ReadToEnd | scripts/release_artifacts.py:182-191 | the read loop ends, stays within limit + 1 and has the whole content if the object was not touched |
| FileLoops.WriteAll | scripts/release_artifacts.py:106-112 | success writes exactly the payload once and in order, failure a proper prefix; it succeeds if every write makes progress |
| GlobMatch.RegexPreservingDoubleStarSegments | src/roam/_glob_match.py:62-70 | the loop emits the printed fragments of the pattern's tokens |
| GlobParsing.CompiledTextParsesBack | src/roam/_glob_match.py:45-60 | the printed expression parses back to exactly the emitted fragments: none is read as a quantifier of the one before, and every literal stands for itself |
| GlobTheorems.CompilationPreservesMeaning | src/roam/_glob_match.py:69-84 | for every pattern and every path the compiled expression accepts exactly what the direct matcher accepts, newline behaviour included |
| GlobTheorems.MatchesGlobIsGlob | src/roam/_glob_match.py:73-84 | on newline-free paths, in either slash style, the matcher is the documented character-wise glob |
| GlobTheorems.RightForEveryPatternExactlyWhen | src/roam/_glob_match.py:83-84 | the matcher decides a path as documented for every `**` pattern exactly if the path has no newline |
| GlobTheorems.DoubledWildcard | src/roam/_glob_match.py:57-58 | a second directory wildcard in a row changes nothing |
| GlobSegments.MatchesGlobIsSegmentwise | src/roam/_glob_match.py:49-59 | segment by segment: `*` and `?` never cross a slash, and a directory wildcard drops whole segments |
| GlobSegments.DocumentedExactlyWhen | src/roam/_glob_match.py:18-20 | the documented reading of `**` is right for all paths exactly unless a plain segment is followed by a final `**` |
| PngStrip.ScanPng | scripts/strip_metadata.py:135-164 | the scan loop reports the text keywords and times of the chunk walk |
| PngStrip.StripPng | scripts/strip_metadata.py:167-209 | the strip loop returns the signature and the pieces of the other chunks |
| PngTheorems.StripRemovesExactlyTheLeaks | scripts/strip_metadata.py:135-195 | for every byte string with the signature, truncated ones included: the stripped file's chunks are exactly the other chunks in order, scanning it reports nothing, stripping it again changes nothing |
| PngTheorems.ScanAndStripAgree | scripts/strip_metadata.py:144-193 | the scan reports nothing exactly if stripping only shortens the file by at most eight bytes at its end |
| PngTheorems.StripIsIdentityExactlyWhen | scripts/strip_metadata.py:174-195 | stripping gives a file back unchanged exactly if the scan reports nothing and the chunks cover the file to its end |
| PngTheorems.ShortTailIsDropped | scripts/strip_metadata.py:174-195 | a file of a signature and one to eight further bytes is clean and still changed |
| PngTheorems.StripWellFormedFile | scripts/strip_metadata.py:174-195 | a well-formed file is stripped to the encoding of its other chunks, bytes and CRCs untouched |
| Sdist.NormalizeMembers | scripts/release_artifacts.py:553-598 | the member loop accepts exactly what the scan specification accepts and builds its entries |
| Sdist.CanonicalizeSdist | scripts/release_artifacts.py:538-635 | an archive is accepted exactly if epoch, member count, names, kinds, sizes, root and output size are in order, and the output is the sorted normalised entries |
| Sdist.Verdict | scripts/release_artifacts.py:553-609 | the running checks of the loop amount to a condition on the members that does not mention their order |
| Sdist.LogicalNames | scripts/release_artifacts.py:527-535 | an accepted name and its logical name have the same parts and are safe together |
| SdistTheorems.OutputIsStrictlySorted | scripts/release_artifacts.py:604-617 | output names are strictly increasing and hold every normalised member exactly once |
| SdistTheorems.DependsOnlyOnViews | scripts/release_artifacts.py:553-617 | verdict and output depend only on the multiset of logical name, kind, any-exec bit and content, and on the epoch |
| SdistTheorems.CanonicalizingIsIdempotent | scripts/release_artifacts.py:538-635 | canonicalising an accepted archive's output, read back in any order, gives the same output |
| SbomProgram.BindSbom | scripts/release_artifacts.py:375-421 | the steps succeed exactly on documents with a matching component and parts of the right shape (`Bindable`); the result passes the binding check and keeps everything else (`Kept`), with the new entries last |
| SbomTheorems.BindThenVerify | scripts/release_artifacts.py:973-1005 | every document that binding succeeds on passes the binding check |
| SbomTheorems.BindIsIdempotent | scripts/release_artifacts.py:375-421 | binding a bound document changes nothing |
| SbomTheorems.BindKeepsTheRest | scripts/release_artifacts.py:350-421 | all other fields, components (the one inside the metadata included), hashes, metadata and unowned properties stay, in order; a bound component changes only in its SHA-256 entry |
| SbomTheorems.BindSucceedsExactlyWhen | scripts/release_artifacts.py:350-399 | a document is refused exactly if it has no matching component, a matching component whose hashes are no array, metadata that is no object, or properties that are no array of usable objects |
| ReleaseManifest.OwnedNamesAreDistinct | scripts/release_artifacts.py:401-415 | the eleven owned property names differ from each other |
| ReleaseManifest.PrepareThenVerify | scripts/release_artifacts.py:638-678 | what `prepare` writes passes `verify` exactly if every distribution has a safe file name |
| ReleaseManifest.PrepareSucceedsExactlyWhen | scripts/release_artifacts.py:638-669 | the manifest is written exactly if tag and commit are valid, the directory holds one wheel and one sdist whose metadata agree, the SBOM is readable, bindable, safely named and small enough before and after; the distributions' names do not matter |
| ReleaseManifest.CheckedPrepareSucceedsExactlyWhen | scripts/release_artifacts.py:638-678 | `prepare` to its end, its own `verify` included, succeeds exactly if besides every distribution has a safe file name |
| ReleaseManifest.UnsafeNameIsPrepared | scripts/release_artifacts.py:670-677 | whatever the faithful library, for every release that can be prepared but has an unsafe distribution name the manifest is written and then refused by `verify`, in which the script's own `prepare` therefore ends |
| ReleaseWitness.SomeReleaseIsPreparedAndRefused | scripts/release_artifacts.py:34-37 | there is such a release: a faithful library, with JSON that reads back and digests that differ, and the tag `v1.0` |
| ReleaseManifest.VerifyPinsTheRelease | scripts/release_artifacts.py:1008-1035 | with a collision-free digest, two releases that pass with one manifest have the same distributions and SBOM byte for byte |
| PypiRecovery.RecoveryPlan | scripts/release_artifacts.py:763-827 | the planner accepts a response exactly if it shows a byte-identical part of the manifest, and splits the manifest into sorted existing and missing names |
| PypiRecovery.ListingIsCollected | scripts/release_artifacts.py:788-818 | every listing of a part of the manifest is read as that part, whatever its order |
| PypiRecovery.ShownOnce | scripts/release_artifacts.py:769-819 | a response shows at most one set of files |
| PypiRecovery.SortNames | scripts/release_artifacts.py:819-820 | the name lists are strictly increasing and complete |
| PypiRuns.PublishedIsAlwaysExact | scripts/release_artifacts.py:921-970 | over all runs with crashes, any responses and any directory contents, without colliding digests the index holds only files of the release, byte for byte |
| PypiRuns.PublishedMatchesTheManifest | scripts/release_artifacts.py:921-970 | over all such runs every published file has a name of the manifest with its digest and size, and each name is uploaded at most once |
| PypiRuns.CopiedMatches | scripts/release_artifacts.py:861-878 | whatever the source directory holds when it is read, what is copied has exactly the wanted names, digests and sizes |
| PypiRuns.PublishedStays | scripts/release_artifacts.py:921-970 | published files and the upload log only grow |
| PypiRuns.EveryAnswerIsAccepted | scripts/release_artifacts.py:763-827 | every answer about any part of a reachable index, in any order, even an outdated one, is accepted, and what is copied is exactly the rest of the release |
| PypiRuns.NothingIsUploadedTwice | scripts/release_artifacts.py:947-952 | with up-to-date answers no upload is ever refused |
| PypiRuns.UploadShrinksMissing | scripts/release_artifacts.py:947-952 | every accepted upload removes exactly its file from the missing set |
| PypiRuns.OneCleanRecoveryCompletes | scripts/release_artifacts.py:921-970 | from every reachable state one undisturbed recovery followed by the uploads, in any order, makes the index list exactly the manifest and uploads only what was missing; without colliding digests the index is the release |
| PypiRuns.ExpectedIsTheDistributions | scripts/release_artifacts.py:742-760 | verified distributions are exactly what the manifest's records describe, with well-formed names, digests and sizes |
| MarkerStrings.ApplyMarkerAware | scripts/sync_surface_counts.py:489-522 | the loop over patterns and matches computes the rewritten string and reports exactly the matches outside marker blocks that change |
| RewriterStrings.SyncSettles | scripts/sync_surface_counts.py:489-522 | one run settles every string, well formed or not: a second run changes nothing |
| RewriterStrings.SyncRefines | scripts/sync_surface_counts.py:489-522 | the backtracking rewriter on a string does exactly what the token rewriter does on its tokens, and the tokens of its result are the rewritten tokens |
| RewriterStrings.HitsMeanChange | scripts/sync_surface_counts.py:514-518 | nothing is reported exactly if no entry would change the string |
| RewriterStrings.NumbersMustStayNumbers | scripts/sync_surface_counts.py:506-521 | an entry that writes more than a number need not settle |
| RewriterStrings.DryRunIsCleanExactlyWhen | scripts/sync_surface_counts.py:540-560 | a dry run after a write reports nothing exactly if no two entries write different numbers at one place |
| MarkerStrings.ApplyMarkdown | dev/build_readme_counts.py:593-600 | the loop over the blocks computes the rebuilt string and the list of names not found |
| RewriterStrings.NotFoundIsAbsent | dev/build_readme_counts.py:593-600 | on a page with well-formed markers that list names, in order, exactly the blocks asked for that the page had no markers for before the run |
| MarkerDocs.MaskOfDoc | scripts/sync_surface_counts.py:478-486 | on a text with well-formed markers the marker scan covers exactly the blocks |
| MarkerTokens.FlattenOfTokens | scripts/sync_surface_counts.py:506-521 | cutting a string into characters and digit runs loses nothing and never leaves two numbers side by side |
| MarkerTokens.TokensOfFlatten | scripts/sync_surface_counts.py:506-521 | every such token text is what the string it spells is cut into |
| MarkerMatching.MatchStringIs | scripts/sync_surface_counts.py:510-515 | at the start of a token the backtracking matcher accepts, ends and expands as matching items against tokens does |
| MarkerMatching.NothingInside | scripts/sync_surface_counts.py:510-515 | inside a number the matcher finds nothing that it does not find at its start |
| MarkerScan.InBlockScans | scripts/sync_surface_counts.py:484-501 | the marker scan of the string and that of the tokens agree at every token |
| MarkerReplacement.BuildRefines | dev/build_readme_counts.py:194-211 | replacing blocks in the string is replacing them in its tokens, numbers in names and bodies included |
| SurfaceEntries.EntriesFit | scripts/sync_surface_counts.py:133-219 | for any counts in decimal every marker-aware entry is a pattern of the kind the theorems need |
| RewriterTheorems.ReplaceOfDoc | dev/build_readme_counts.py:193-211 | block replacement changes exactly the inside of the first block of that name, and reports whether there is one |
| RewriterStrings.SyncLeavesBlocks | scripts/sync_surface_counts.py:489-522 | the free-form rewriter leaves every block of the string byte-identical |
| RewriterStrings.BuildLeavesOutside | dev/build_readme_counts.py:580-603 | the block rewriter leaves everything outside the blocks of the string byte-identical |
| RewriterStrings.RewritersCommute | scripts/sync_surface_counts.py:24-30 | either order of the two rewriters gives one string |
| RewriterStrings.RewritersSettle | scripts/sync_surface_counts.py:24-30 | after both have run on a string, neither changes a character |
| CountRun.Tree.ApplyPages | dev/build_readme_counts.py:677-690 | the loop over the Markdown files writes exactly the rebuilt pages and leaves files that only import another one alone; it reports exactly whether a page would change, and whether a file that must be there or a block is missing |
| CountRun.Tree.Run | dev/build_readme_counts.py:666-747 | the whole run, pages, cards, mirrors and pin: it reports a change exactly if writing would change something and a missing part exactly if there is one, writes exactly the specified files, leaves on an update that raises the pages and the public card as far as they were written, and in check mode writes nothing |
| CountRun.OneRunSettles | dev/build_readme_counts.py:680-709 | with an idempotent card update and well-formed pages one run reaches a fixed point of all files |
| CountRun.CheckAfterApply | dev/build_readme_counts.py:733-747 | the check that follows a run that writes never reports drift: it exits with 2 if something is missing and with 0 otherwise |
| ChangelogInline.EscapedHasNoAngles | scripts/build_changelog_html.py:57-58 | escaping leaves no angle bracket of the source text |
| ChangelogInline.InlineHasOnlyTags | scripts/build_changelog_html.py:61-73 | after all four substitutions every opening angle bracket starts a tag of the renderer |
| ChangelogRender.RenderMarkdown | scripts/build_changelog_html.py:76-163 | the loops end and compute the page of the pieces that the lines are cut into |
| ChangelogRender.EveryLineOnce | scripts/build_changelog_html.py:90-160 | the pieces are the stripped lines, each once and in order; only single blank lines and single title lines are dropped |
| ChangelogRender.AbsorbedExactlyWhen | scripts/build_changelog_html.py:120-139 | the line after a bullet joins it exactly if it is no bullet itself, is not blank and starts with white space |
| ChangelogRender.BulletRuleDiffersExactlyWhen | scripts/build_changelog_html.py:120-139 | the code and its comment differ exactly on lines that start with white space but not with two blanks |
| ChangelogRender.TitleAbsorbedExactlyWhen | scripts/build_changelog_html.py:102-106 | a title line under a bullet is kept in it exactly if it is indented |
| ChangelogRender.PageIsGrammatical | scripts/build_changelog_html.py:76-163 | the output is always headings, paragraphs and lists of at least one item |
| ChangelogRender.BodyHasOnlyTags | scripts/build_changelog_html.py:57-163 | the body opens no comment, so no splice marker can occur in it |
| ChangelogSplice.SpliceSettlesExactlyWhen | scripts/build_changelog_html.py:171-195 | splicing twice equals splicing once exactly if no marker stands in what is kept before the block, for the script's markers and all of their shape |
| ChangelogSplice.MarkedTemplateSettles | scripts/build_changelog_html.py:180-183 | in a template with both markers that is: the first end marker does not come before the begin marker |
| ChangelogSplice.EveryRunGrows | scripts/build_changelog_html.py:180-189 | with an end marker before the block, after n more runs the page is longer by n times the block and what stands between |
| ChangelogSplice.SecondRunSettles | scripts/build_changelog_html.py:180-189 | with a begin marker before the block, the second run changes the page and the third does not |
| SignatureParams.ParseParamNames | src/roam/_signature_utils.py:27-72 | both loops compute the specified names |
| SignatureParams.FieldsRejoin | src/roam/_signature_utils.py:46-61 | joining the raw fields with commas gives the parameter text back, except for a final separator |
| SignatureParams.FieldsAreWhole | src/roam/_signature_utils.py:49-61 | no field holds a comma at bracket depth zero and every field but the last ends at depth zero |
| SignatureParams.PrintThenParse | src/roam/_signature_utils.py:27-72 | parsing a printed signature gives exactly its non-ignored names in order |
| SignatureParams.ReportsParametersExactlyWhen | src/roam/_signature_utils.py:27-35 | only parameters are reported exactly if the signature has no positional-only marker |
| DependencyClosure.RelevantPackages | dev/env_doctor.py:98-123 | the work list ends with the least closed set: it has the installed roots, is closed under installed requirements, is contained in every such set, and everything in it is reachable |

## Left out

- ctypes bindings, handle flags, access control lists and real flushing; they appear as steps that may fail.
- The tempfile name search is bounded by 128 tries, as the quarantine search is; Python's own bound differs by platform.
- `_same_file_state` on Windows leaves the change time out; `FileLoops.ReadBoundedRegularFile` models the POSIX comparison.
- A descriptor that cannot be sought or read is not modelled in `FileLoops.CaptureFileGeneration`; the state machine has failing reads.
- AtomicRuns.ExactPublication: on POSIX it assumes the quiet window before the rename and moving change times, because without either it is false (`AtomicLimits`).
- AtomicExclusion.AtMostOneWinner: assumes that nobody else deletes the name, because exclusive creation promises nothing about a name that somebody removes.
- SbomProgram.BindSbom: edits a JSON tree as a value, because trees have no shared parts; it does not capture Python's update in place of aliased lists.
- ReleaseManifest.VerifyPinsTheRelease: assumes that the contents at hand do not collide under the digest.
- ReleaseManifest.PrepareThenVerify: assumes that written JSON reads back as the same tree and that nothing empty is a distribution.
- A component whose `version` is a JSON number counts as no match in the SBOM model; the code compares its printed form.
- Real SHA-256, gzip, tar and zip encodings, package metadata parsing and JSON text are functions of a `Library` parameter; JSON numbers with a fraction are not modelled.
- Archive names that differ only in path spelling (`a//b` and `a/b`) are different names, as in the code.
- PypiRuns.NothingIsUploadedTwice: assumes that each answer shows the index as it is at that moment, because an outdated answer does lead to a refused upload.
- PypiRuns.PublishedMatchesTheManifest: the second reading of the output directory after the copy is not modelled; nobody else writes to the fresh directory.
- The recovery job's upload step belongs to the release workflow; it is modelled as one file at a time, a refusal ending the job. Several jobs at once are not modelled.
- GlobTheorems.MatchesGlobIsGlob: patterns without `**` go to the standard library's `fnmatch`, which is a parameter.
- Python's expression engine beyond the emitted fragment.
- The PDF and SVG strippers, which are library calls and substitutions.
- RewriterStrings.SyncLeavesBlocks: needs well-formed, unnested blocks and patterns without angle brackets; word characters and digits are the ASCII ones and white space is that of Latin-1.
- Entries of the free-form rewriter that are not marker-aware, and entries whose replacement changes more than numbers.
- The expressions inside `_update_mcp_card_text` and line-end translation while reading; `CountRun.OneRunSettles` assumes that the update is idempotent.
- The block builders that compute the counts.
- ChangelogRender.RenderMarkdown: starts from the lines, because `splitlines` is a library call; white space is that of Latin-1.
- SignatureParams.PrintThenParse: annotations and defaults must not contain a closing parenthesis, because the code stops at the first one.
- DependencyClosure.RelevantPackages: reading the project file and normalising names happen before it.
- Agent comparison, scoring, telemetry, link checks, network checks and command classification: reporting code with single branches.
