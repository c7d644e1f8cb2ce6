/**
 The recovery job over whole runs: it asks the index what is there, materializes what is missing,
 uploads, and may die at any point and be started again. The directory it copies from may hold
 anything at any moment, and the index may answer anything; it takes a file name only once, and a
 refused upload ends the job.
 */
module PypiRuns {
  import opened Wrappers
  import opened ReleaseJson
  import opened PypiRecovery
  import opened ReleaseManifest

  type Contents = map<string, PypiRecovery.Bytes>

  datatype Release = Release(lib: Library, manifest: Manifest)

  datatype State = State(index: Contents, ready: Contents, uploads: seq<string>, refused: nat)

  /** `dist` is the directory when it is compared with the manifest, `found` when it is copied. */
  datatype Event =
    | Recover(dist: Contents, status: int, response: Option<Json>, found: Contents)
    | Upload(name: string)
    | Crash

  const START := State(map[], map[], [], 0)

  // ---- the release --------------------------------------------------------------------------------

  /** `_verified_manifest_distributions`, which every recovery passes first. */
  ghost predicate VerifiedDistributions(r: Release, dist: Contents) {
    && ValidatedIdentity(r.lib, r.manifest.tag, r.manifest.commit) == Some(r.manifest.version)
    && ValidShape(r.manifest)
    && Collect(r.lib, dist, r.manifest.version) == Some(r.manifest.artifacts)
  }

  /** Some artifacts by file name. */
  function ByName(artifacts: seq<Artifact>): map<string, File> {
    if artifacts == [] then map[]
    else
      var last := artifacts[|artifacts| - 1];
      ByName(artifacts[..|artifacts| - 1])[last.filename := File(last.sha256, last.size)]
  }

  /** The manifest's distributions by file name. */
  function Expected(r: Release): map<string, File> {
    ByName(r.manifest.artifacts)
  }

  /** What the index says about the files it holds. */
  ghost function Listing(lib: Library, index: Contents): map<string, File> {
    map name | name in index :: File(lib.hex(index[name]), |index[name]|)
  }

  ghost predicate PartOf(a: Contents, b: Contents) {
    forall name | name in a :: name in b && b[name] == a[name]
  }

  lemma ExpectedIsTheDistributions(r: Release, dist: Contents)
    requires VerifiedDistributions(r, dist)
    ensures Expected(r) == Listing(r.lib, dist)
  {
    var a := r.manifest.artifacts;
    NamesAreCollected(r.lib, dist, r.manifest.version);
    RecordsDescribeTheirFiles(r.lib, dist, r.manifest.version);
    TwoByName(a);
  }

  lemma TwoByName(a: seq<Artifact>)
    requires |a| == 2
    ensures ByName(a) == map[a[0].filename := File(a[0].sha256, a[0].size)][a[1].filename := File(a[1].sha256, a[1].size)]
  {
    assert a[..1][..0] == [] && a[..|a| - 1] == a[..1];
    assert ByName(a[..0]) == map[];
  }

  lemma RecordsDescribeTheirFiles(lib: Library, dist: Contents, version: string)
    requires Collect(lib, dist, version).Some?
    ensures
      var a := Collect(lib, dist, version).value;
      && |a| == 2
      && forall i | 0 <= i < 2 :: a[i].filename in dist && a[i].sha256 == lib.hex(dist[a[i].filename])
                                  && a[i].size == |dist[a[i].filename]|
  {
  }

  predicate WellFormed(r: Record) {
    SafeFilename(r.name) && HexDigits(r.file.sha256, 64) && r.file.size > 0
  }

  /** Everything that a valid manifest lists is well formed. */
  lemma ExpectedIsWellFormed(r: Release, name: string)
    requires ValidShape(r.manifest) && name in Expected(r)
    ensures WellFormed(Record(name, Expected(r)[name]))
  {
    TwoByName(r.manifest.artifacts);
  }

  // ---- one step -----------------------------------------------------------------------------------

  /** `_copy_distribution_exact` of one file: what was read has the manifest's digest and size. */
  ghost predicate Exact(lib: Library, found: Contents, name: string, wanted: File) {
    name in found && File(lib.hex(found[name]), |found[name]|) == wanted
  }

  /** The fresh output directory; nothing when one file is not there or differs. */
  ghost function Copied(lib: Library, found: Contents, expected: map<string, File>, missing: set<string>): Contents
    requires missing <= expected.Keys
  {
    if forall name | name in missing :: Exact(lib, found, name, expected[name])
    then map name | name in missing :: found[name] else map[]
  }

  /** What `recover` leaves for the upload: the missing files, unless it refuses something. */
  ghost function Materialized(r: Release, dist: Contents, status: int, response: Option<Json>, found: Contents): Contents {
    if VerifiedDistributions(r, dist) && exists files :: Accepted(Expected(r), r.manifest.version, status, response, files) then
      var files :| Accepted(Expected(r), r.manifest.version, status, response, files);
      Copied(r.lib, found, Expected(r), Expected(r).Keys - files.Keys)
    else map[]
  }

  ghost function Step(r: Release, s: State, e: Event): State {
    match e
    case Recover(dist, status, response, found) => s.(ready := Materialized(r, dist, status, response, found))
    case Crash => s.(ready := map[])
    case Upload(name) => AfterUpload(s, name)
  }

  /** Only prepared files are uploaded, and a name that is already there is refused. */
  ghost function AfterUpload(s: State, name: string): State {
    if name !in s.ready then s
    else if name in s.index then s.(ready := map[], refused := s.refused + 1)
    else State(s.index[name := s.ready[name]], s.ready - {name}, s.uploads + [name], s.refused)
  }

  ghost function Run(r: Release, s: State, events: seq<Event>): State {
    if events == [] then s else Step(r, Run(r, s, events[..|events| - 1]), events[|events| - 1])
  }

  // ---- safety, whatever the index answers and the directory holds --------------------------------------

  ghost predicate Inv(r: Release, s: State) {
    && Subset(Listing(r.lib, s.index), Expected(r)) && Subset(Listing(r.lib, s.ready), Expected(r))
    && (forall i, j | 0 <= i < j < |s.uploads| :: s.uploads[i] != s.uploads[j])
    && (forall name :: name in s.uploads <==> name in s.index)
  }

  /** The digest comparison is what keeps anything else out. */
  lemma CopiedMatches(lib: Library, found: Contents, expected: map<string, File>, missing: set<string>)
    requires missing <= expected.Keys
    ensures Subset(Listing(lib, Copied(lib, found, expected, missing)), expected)
    ensures Copied(lib, found, expected, missing).Keys <= missing
  {
    var copied := Copied(lib, found, expected, missing);
    forall name | name in copied ensures Listing(lib, copied)[name] == expected[name] {
      assert Exact(lib, found, name, expected[name]);
    }
  }

  lemma MaterializedMatches(r: Release, dist: Contents, status: int, response: Option<Json>, found: Contents)
    ensures Subset(Listing(r.lib, Materialized(r, dist, status, response, found)), Expected(r))
  {
    hide VerifiedDistributions, Collect, Accepted;
    if VerifiedDistributions(r, dist) && exists files :: Accepted(Expected(r), r.manifest.version, status, response, files) {
      var files :| Accepted(Expected(r), r.manifest.version, status, response, files)
        && Materialized(r, dist, status, response, found) == Copied(r.lib, found, Expected(r), Expected(r).Keys - files.Keys);
      CopiedMatches(r.lib, found, Expected(r), Expected(r).Keys - files.Keys);
    }
  }

  lemma StepKeepsInv(r: Release, s: State, e: Event)
    requires Inv(r, s)
    ensures Inv(r, Step(r, s, e)) && PartOf(s.index, Step(r, s, e).index) && s.uploads <= Step(r, s, e).uploads
  {
    match e
    case Recover(dist, status, response, found) => MaterializedMatches(r, dist, status, response, found);
    case Crash =>
    case Upload(name) => UploadKeepsInv(r, s, name);
  }

  lemma UploadKeepsInv(r: Release, s: State, name: string)
    requires Inv(r, s)
    ensures Inv(r, AfterUpload(s, name)) && PartOf(s.index, AfterUpload(s, name).index)
    ensures s.uploads <= AfterUpload(s, name).uploads
  {
    if name in s.ready && name !in s.index {
      assert forall x :: x in s.uploads + [name] <==> x in s.uploads || x == name;
      assert Listing(r.lib, s.ready)[name] == Expected(r)[name];
    }
  }

  /**
   Whatever responses the job sees, whatever the directory holds when it copies and wherever it dies:
   everything the index holds has a name, a digest and a size that the manifest lists, and every name
   was uploaded at most once.
   */
  lemma {:induction false} PublishedMatchesTheManifest(r: Release, events: seq<Event>)
    ensures Inv(r, Run(r, START, events))
    decreases |events|
  {
    if events != [] {
      var init := events[..|events| - 1];
      PublishedMatchesTheManifest(r, init);
      StepKeepsInv(r, Run(r, START, init), events[|events| - 1]);
    }
  }

  /** Files with one listing are the same files, unless two of their contents collide. */
  lemma SameListing(lib: Library, a: Contents, b: Contents)
    requires Subset(Listing(lib, a), Listing(lib, b)) && CollisionFree(lib.hex, a.Values + b.Values)
    ensures PartOf(a, b)
  {
    forall name | name in a ensures name in b && b[name] == a[name] {
      assert name in Listing(lib, a);
      assert a[name] in a.Values && b[name] in b.Values;
    }
  }

  /** So every published file is, byte for byte, the one in any directory that the manifest verifies. */
  lemma PublishedIsAlwaysExact(r: Release, events: seq<Event>, dist: Contents)
    requires VerifiedDistributions(r, dist)
    requires CollisionFree(r.lib.hex, Run(r, START, events).index.Values + dist.Values)
    ensures PartOf(Run(r, START, events).index, dist)
  {
    PublishedMatchesTheManifest(r, events);
    ExpectedIsTheDistributions(r, dist);
    SameListing(r.lib, Run(r, START, events).index, dist);
  }

  /** What is published stays. */
  lemma {:induction false} PublishedStays(r: Release, events: seq<Event>, i: nat)
    requires i <= |events|
    ensures PartOf(Run(r, START, events[..i]).index, Run(r, START, events).index)
    ensures Run(r, START, events[..i]).uploads <= Run(r, START, events).uploads
    decreases |events|
  {
    if i == |events| {
      assert events[..i] == events;
    } else {
      var init := events[..|events| - 1];
      assert init[..i] == events[..i];
      PublishedStays(r, init, i);
      PublishedMatchesTheManifest(r, init);
      StepKeepsInv(r, Run(r, START, init), events[|events| - 1]);
    }
  }

  // ---- the planner accepts every honest answer ---------------------------------------------------------

  /** The index's JSON answer that lists these files in this order. */
  function Answer(version: string, records: seq<Record>): Json {
    Obj(map["info" := Obj(map["version" := Str(version)]), "urls" := Arr(AnswerUrls(records))])
  }

  function AnswerUrl(r: Record): Json {
    Obj(map["filename" := Str(r.name), "digests" := Obj(map["sha256" := Str(r.file.sha256)]), "size" := Int(r.file.size)])
  }

  function AnswerUrls(records: seq<Record>): seq<Json> {
    if records == [] then []
    else AnswerUrls(records[..|records| - 1]) + [AnswerUrl(records[|records| - 1])]
  }

  lemma UrlReadsBack(r: Record)
    requires WellFormed(r)
    ensures ReadRecord(AnswerUrl(r)) == Some(r)
  {
    var fields := AnswerUrl(r).fields;
    assert Get(fields, "filename", Null) == Str(r.name);
    assert Get(fields, "digests", Null) == Obj(map["sha256" := Str(r.file.sha256)]);
    assert Get(fields, "size", Null) == Int(r.file.size);
  }

  lemma {:induction false} UrlsReadBack(records: seq<Record>)
    requires forall r | r in records :: WellFormed(r)
    ensures ReadAll(AnswerUrls(records)) == Some(records)
    decreases |records|
  {
    hide WellFormed;
    if records != [] {
      var init, last := records[..|records| - 1], records[|records| - 1];
      UrlsReadBack(init);
      UrlReadsBack(last);
      ReadOneMore(AnswerUrls(init), AnswerUrl(last), init, last);
      assert init + [last] == records;
    }
  }

  lemma ReadOneMore(urls: seq<Json>, url: Json, records: seq<Record>, record: Record)
    requires ReadAll(urls) == Some(records) && ReadRecord(url) == Some(record)
    ensures ReadAll(urls + [url]) == Some(records + [record])
  {
    assert (urls + [url])[..|urls|] == urls;
  }

  /** An answer reads back as the files it lists. */
  lemma AnswerReadsBack(version: string, records: seq<Record>)
    requires forall r | r in records :: WellFormed(r)
    ensures ReadResponse(Answer(version, records), version) == Ok(records)
  {
    UrlsReadBack(records);
    var fields := Answer(version, records).fields;
    assert Get(fields, "info", Null) == Obj(map["version" := Str(version)]);
    assert Get(fields, "urls", Null) == Arr(AnswerUrls(records));
    assert Get(map["version" := Str(version)], "version", Null) == Str(version);
  }

  lemma SeenIsExpected(r: Release, index: Contents, seen: Contents)
    requires Subset(Listing(r.lib, index), Expected(r)) && PartOf(seen, index)
    ensures Subset(Listing(r.lib, seen), Expected(r))
  {
    forall name | name in seen ensures name in Expected(r) && Expected(r)[name] == Listing(r.lib, seen)[name] {
      assert name in Listing(r.lib, index);
    }
  }

  lemma MaterializedFrom(r: Release, dist: Contents, status: int, response: Option<Json>, found: Contents,
                         files: map<string, File>)
    requires VerifiedDistributions(r, dist) && Accepted(Expected(r), r.manifest.version, status, response, files)
    ensures Materialized(r, dist, status, response, found) ==
            Copied(r.lib, found, Expected(r), Expected(r).Keys - files.Keys)
  {
    forall f | Accepted(Expected(r), r.manifest.version, status, response, f) ensures f == files {
      ShownOnce(Expected(r), r.manifest.version, status, response, f, files);
    }
  }

  /** Exactly what the response does not show is copied. */
  lemma MaterializedIs(r: Release, dist: Contents, status: int, response: Option<Json>, found: Contents, seen: Contents)
    requires VerifiedDistributions(r, dist) && Subset(Listing(r.lib, seen), Expected(r))
    requires Shows(status, response, r.manifest.version, Listing(r.lib, seen))
    ensures Materialized(r, dist, status, response, found) ==
            Copied(r.lib, found, Expected(r), Expected(r).Keys - seen.Keys)
  {
    MaterializedFrom(r, dist, status, response, found, Listing(r.lib, seen));
    assert Listing(r.lib, seen).Keys == seen.Keys;
  }

  lemma CopiedIs(lib: Library, dist: Contents, seen: Contents)
    ensures Copied(lib, dist, Listing(lib, dist), dist.Keys - seen.Keys) == dist - seen.Keys
  {
    assert forall name | name in dist.Keys - seen.Keys :: Exact(lib, dist, name, Listing(lib, dist)[name]);
  }

  /**
   What the response does not show is copied, each file compared with the manifest; from an undisturbed
   directory that is the rest of the directory.
   */
  ghost predicate CopiesTheRest(r: Release, status: int, response: Option<Json>, seen: Contents) {
    && (forall dist, found | VerifiedDistributions(r, dist) ::
          Materialized(r, dist, status, response, found) == Copied(r.lib, found, Expected(r), Expected(r).Keys - seen.Keys))
    && (forall dist | VerifiedDistributions(r, dist) :: Materialized(r, dist, status, response, dist) == dist - seen.Keys)
  }

  lemma RestIsCopied(r: Release, status: int, response: Option<Json>, seen: Contents)
    requires Subset(Listing(r.lib, seen), Expected(r)) && Shows(status, response, r.manifest.version, Listing(r.lib, seen))
    ensures CopiesTheRest(r, status, response, seen)
  {
    forall dist, found | VerifiedDistributions(r, dist) {
      MaterializedIs(r, dist, status, response, found, seen);
    }
    forall dist | VerifiedDistributions(r, dist) ensures Materialized(r, dist, status, response, dist) == dist - seen.Keys {
      ExpectedIsTheDistributions(r, dist);
      CopiedIs(r.lib, dist, seen);
    }
  }

  /**
   No reachable index is refused: whatever part of it a response shows, even an outdated one, and in
   whatever order, the planner takes it as it is, and exactly the rest of the release is copied.
   */
  lemma EveryAnswerIsAccepted(r: Release, events: seq<Event>, seen: Contents, records: seq<Record>)
    requires ValidShape(r.manifest)
    requires PartOf(seen, Run(r, START, events).index) && Lists(records, Listing(r.lib, seen))
    ensures
      var response := Some(Answer(r.manifest.version, records));
      && Accepted(Expected(r), r.manifest.version, 200, response, Listing(r.lib, seen))
      && CopiesTheRest(r, 200, response, seen)
  {
    PublishedMatchesTheManifest(r, events);
    SeenIsExpected(r, Run(r, START, events).index, seen);
    forall record | record in records ensures WellFormed(record) {
      var i :| 0 <= i < |records| && records[i] == record;
      ExpectedIsWellFormed(r, record.name);
    }
    AnswerReadsBack(r.manifest.version, records);
    RestIsCopied(r, 200, Some(Answer(r.manifest.version, records)), seen);
  }

  // ---- progress ------------------------------------------------------------------------------------------

  ghost function Missing(r: Release, s: State): set<string> {
    Expected(r).Keys - s.index.Keys
  }

  /** Every answer in the run showed the index as it was at that moment. */
  ghost predicate UpToDate(r: Release, events: seq<Event>) {
    forall i | 0 <= i < |events| && events[i].Recover? ::
      Shows(events[i].status, events[i].response, r.manifest.version, Listing(r.lib, Run(r, START, events[..i]).index))
  }

  ghost predicate Unrefused(r: Release, s: State) {
    s.refused == 0 && s.ready.Keys <= Missing(r, s)
  }

  lemma StepStaysUnrefused(r: Release, s: State, e: Event)
    requires Inv(r, s) && Unrefused(r, s)
    requires e.Recover? ==> Shows(e.status, e.response, r.manifest.version, Listing(r.lib, s.index))
    ensures Unrefused(r, Step(r, s, e))
  {
    if e.Recover? && VerifiedDistributions(r, e.dist) {
      MaterializedIs(r, e.dist, e.status, e.response, e.found, s.index);
      CopiedMatches(r.lib, e.found, Expected(r), Expected(r).Keys - s.index.Keys);
    }
  }

  /** With up-to-date answers, nothing is uploaded that the index would refuse. */
  lemma {:induction false} NothingIsUploadedTwice(r: Release, events: seq<Event>)
    requires UpToDate(r, events)
    ensures Unrefused(r, Run(r, START, events))
    decreases |events|
  {
    if events != [] {
      var init, e := events[..|events| - 1], events[|events| - 1];
      forall i | 0 <= i < |init| ensures init[i] == events[i] && init[..i] == events[..i] {}
      NothingIsUploadedTwice(r, init);
      PublishedMatchesTheManifest(r, init);
      StepStaysUnrefused(r, Run(r, START, init), e);
    }
  }

  /** Every upload of a prepared, not yet published file shrinks the missing set by that file. */
  lemma UploadShrinksMissing(r: Release, events: seq<Event>, name: string)
    requires name in Run(r, START, events).ready && name !in Run(r, START, events).index
    ensures
      var s := Run(r, START, events);
      name in Missing(r, s) && Missing(r, Step(r, s, Upload(name))) == Missing(r, s) - {name}
  {
    PublishedMatchesTheManifest(r, events);
    assert name in Listing(r.lib, Run(r, START, events).ready);
  }

  ghost predicate ListOnce(names: seq<string>, all: set<string>) {
    && (forall x :: x in names <==> x in all)
    && (forall i, j | 0 <= i < j < |names| :: names[i] != names[j])
  }

  function Uploads(names: seq<string>): seq<Event> {
    seq(|names|, i requires 0 <= i < |names| => Upload(names[i]))
  }

  lemma {:induction false} RunAppend(r: Release, s: State, a: seq<Event>, b: seq<Event>)
    ensures Run(r, s, a + b) == Run(r, Run(r, s, a), b)
    decreases |b|
  {
    if b == [] {
      assert a + b == a;
    } else {
      assert (a + b)[..|a + b| - 1] == a + b[..|b| - 1];
      RunAppend(r, s, a, b[..|b| - 1]);
    }
  }

  /** What is left to do, in this order: exactly the missing files of `dist` are prepared. */
  ghost predicate Remaining(dist: Contents, s: State, names: seq<string>) {
    s.ready == dist - s.index.Keys && ListOnce(names, s.ready.Keys)
  }

  lemma UploadOne(dist: Contents, s: State, names: seq<string>)
    requires Remaining(dist, s, names) && names != []
    ensures
      var next := AfterUpload(s, names[0]);
      && Remaining(dist, next, names[1..]) && next.index == s.index[names[0] := dist[names[0]]]
      && next.refused == s.refused && next.uploads == s.uploads + [names[0]]
  {
    RestOnce(names, s.ready.Keys);
    PublishOne(s.index, dist, names[0]);
  }

  lemma PublishOne(index: Contents, dist: Contents, name: string)
    requires name in dist && name !in index
    ensures dist - index.Keys - {name} == dist - index[name := dist[name]].Keys
    ensures (dist - index.Keys - {name}).Keys == (dist - index.Keys).Keys - {name}
  {
  }

  lemma RestOnce(names: seq<string>, all: set<string>)
    requires ListOnce(names, all) && names != []
    ensures names[0] in all && ListOnce(names[1..], all - {names[0]})
  {
    assert names == [names[0]] + names[1..];
  }

  lemma AppendFirst(a: seq<string>, b: seq<string>)
    ensures if b == [] then a + b == a else a + [b[0]] + b[1..] == a + b
  {
  }

  lemma FirstUpload(r: Release, s: State, names: seq<string>)
    requires names != []
    ensures Run(r, s, Uploads(names)) == Run(r, AfterUpload(s, names[0]), Uploads(names[1..]))
  {
    assert Uploads(names) == [Upload(names[0])] + Uploads(names[1..]);
    RunAppend(r, s, [Upload(names[0])], Uploads(names[1..]));
    assert [Upload(names[0])][..0] == [];
  }

  /** The index after everything prepared has been uploaded: what was there, and the rest of `dist`. */
  ghost predicate Completed(dist: Contents, before: State, end: State, names: seq<string>) {
    && end.index.Keys == before.index.Keys + dist.Keys && end.ready.Keys == {}
    && (forall x | x in end.index :: end.index[x] == if x in before.index then before.index[x] else dist[x])
    && end.refused == before.refused && end.uploads == before.uploads + names
  }

  lemma NothingRemains(dist: Contents, s: State)
    requires Remaining(dist, s, [])
    ensures Completed(dist, s, s, [])
  {
    assert forall x | x in dist :: x !in s.index ==> x in s.ready.Keys;
    AppendFirst(s.uploads, []);
  }

  lemma OneMoreCompleted(dist: Contents, s: State, next: State, end: State, names: seq<string>)
    requires names != [] && names[0] in dist && names[0] !in s.index && next.index == s.index[names[0] := dist[names[0]]]
    requires next.refused == s.refused && next.uploads == s.uploads + [names[0]]
    requires Completed(dist, next, end, names[1..])
    ensures Completed(dist, s, end, names)
  {
    AppendFirst(s.uploads, names);
  }

  lemma {:induction false} UploadingThePlan(r: Release, dist: Contents, s: State, names: seq<string>)
    requires Remaining(dist, s, names)
    ensures Completed(dist, s, Run(r, s, Uploads(names)), names)
    decreases |names|
  {
    if names == [] {
      NothingRemains(dist, s);
    } else {
      var next := AfterUpload(s, names[0]);
      UploadOne(dist, s, names);
      RestOnce(names, s.ready.Keys);
      UploadingThePlan(r, dist, next, names[1..]);
      FirstUpload(r, s, names);
      OneMoreCompleted(dist, s, next, Run(r, s, Uploads(names)), names);
    }
  }

  ghost predicate Completes(r: Release, s: State, end: State, names: seq<string>) {
    Listing(r.lib, end.index) == Expected(r) && end.refused == s.refused && end.uploads == s.uploads + names
  }

  lemma RunOneMore(r: Release, events: seq<Event>, e: Event)
    ensures Run(r, START, events + [e]) == Step(r, Run(r, START, events), e)
  {
    hide Step;
    assert (events + [e])[..|events + [e]| - 1] == events;
  }

  lemma MaterializedRest(r: Release, dist: Contents, status: int, response: Option<Json>, seen: Contents)
    requires VerifiedDistributions(r, dist) && Subset(Listing(r.lib, seen), Expected(r))
    requires Shows(status, response, r.manifest.version, Listing(r.lib, seen))
    ensures Materialized(r, dist, status, response, dist) == dist - seen.Keys
  {
    hide VerifiedDistributions, Shows, Materialized, Copied, Subset, Listing;
    ExpectedIsTheDistributions(r, dist);
    MaterializedIs(r, dist, status, response, dist, seen);
    CopiedIs(r.lib, dist, seen);
    assert Expected(r).Keys == dist.Keys by { ListingKeys(r.lib, dist); }
  }

  lemma ListingKeys(lib: Library, a: Contents)
    ensures Listing(lib, a).Keys == a.Keys
  {
  }

  /** An undisturbed recovery makes ready what is missing. */
  lemma Replanned(r: Release, events: seq<Event>, dist: Contents, status: int, response: Option<Json>)
    requires VerifiedDistributions(r, dist)
    requires Shows(status, response, r.manifest.version, Listing(r.lib, Run(r, START, events).index))
    ensures
      var s := Run(r, START, events);
      Run(r, START, events + [Recover(dist, status, response, dist)]) == s.(ready := dist - s.index.Keys)
  {
    hide VerifiedDistributions, Shows, Materialized, Listing, Run;
    PublishedMatchesTheManifest(r, events);
    MaterializedRest(r, dist, status, response, Run(r, START, events).index);
    RunOneMore(r, events, Recover(dist, status, response, dist));
  }

  lemma CleanRecovery(r: Release, events: seq<Event>, dist: Contents, status: int, response: Option<Json>,
                      names: seq<string>)
    requires VerifiedDistributions(r, dist)
    requires Shows(status, response, r.manifest.version, Listing(r.lib, Run(r, START, events).index))
    requires ListOnce(names, Missing(r, Run(r, START, events)))
    ensures Completes(r, Run(r, START, events),
                      Run(r, START, events + [Recover(dist, status, response, dist)] + Uploads(names)), names)
  {
    var s, e := Run(r, START, events), Recover(dist, status, response, dist);
    PublishedMatchesTheManifest(r, events);
    ExpectedIsTheDistributions(r, dist);
    Replanned(r, events, dist, status, response);
    var replanned := Run(r, START, events + [e]);
    UploadingThePlan(r, dist, replanned, names);
    RunAppend(r, START, events + [e], Uploads(names));
    CompletedListing(r.lib, dist, replanned, Run(r, replanned, Uploads(names)), names);
  }

  /**
   From any state that crashes, restarts and disturbed copies can leave behind, one undisturbed recovery
   finishes the release: it uploads exactly what is missing, in any order, and the index then lists
   exactly the manifest; without colliding contents it is the release, byte for byte.
   */
  lemma OneCleanRecoveryCompletes(r: Release, events: seq<Event>, dist: Contents, status: int, response: Option<Json>,
                                  names: seq<string>)
    requires VerifiedDistributions(r, dist)
    requires Shows(status, response, r.manifest.version, Listing(r.lib, Run(r, START, events).index))
    requires ListOnce(names, Missing(r, Run(r, START, events)))
    ensures
      var end := Run(r, START, events + [Recover(dist, status, response, dist)] + Uploads(names));
      && Completes(r, Run(r, START, events), end, names)
      && (CollisionFree(r.lib.hex, end.index.Values + dist.Values) ==> end.index == dist)
  {
    CleanRecovery(r, events, dist, status, response, names);
    ExpectedIsTheDistributions(r, dist);
    SameListingSameFiles(r.lib, Run(r, START, events + [Recover(dist, status, response, dist)] + Uploads(names)).index, dist);
  }

  lemma SameListingSameFiles(lib: Library, a: Contents, b: Contents)
    requires Listing(lib, a) == Listing(lib, b)
    ensures CollisionFree(lib.hex, a.Values + b.Values) ==> a == b
  {
    assert a.Keys == Listing(lib, a).Keys == b.Keys;
    if CollisionFree(lib.hex, a.Values + b.Values) { SameListing(lib, a, b); }
  }

  lemma CompletedListing(lib: Library, dist: Contents, before: State, end: State, names: seq<string>)
    requires Completed(dist, before, end, names) && Subset(Listing(lib, before.index), Listing(lib, dist))
    ensures Listing(lib, end.index) == Listing(lib, dist)
  {
    forall x | x in end.index ensures x in dist && Listing(lib, end.index)[x] == Listing(lib, dist)[x] {
      if x in before.index { assert x in Listing(lib, before.index); }
    }
  }
}
