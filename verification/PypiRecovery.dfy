/**
 `_pypi_recovery_plan` and the recovery job around it: publish only what is missing, restart after
 any crash. The index accepts a file name once and lists its files in any order.
 */
module PypiRecovery {
  import opened Wrappers
  import opened ReleaseJson
  import Sdist
  import SdistTheorems
  import ReleaseManifest

  type Bytes = ReleaseManifest.Bytes

  /** What the manifest and the index say about one file. */
  datatype File = File(sha256: string, size: int)

  datatype Record = Record(name: string, file: File)

  datatype Plan = Plan(existing: seq<string>, missing: seq<string>, publishRequired: bool, version: string)

  datatype Error =
    | UnexpectedBody | NoObject | WrongVersion | NoFiles | BadRecord | DuplicateFile | UnmanifestedFile
    | Mismatch | BadStatus

  // ---- the response -------------------------------------------------------------------------------

  /** One entry of `urls`, if its file name, digest and size are well formed. */
  function ReadRecord(item: Json): Option<Record> {
    match item
    case Obj(fields) =>
      (match (Get(fields, "filename", Null), Get(fields, "digests", Null), Get(fields, "size", Null))
       case (Str(name), Obj(digests), Int(size)) =>
         (match Get(digests, "sha256", Null)
          case Str(digest) =>
            if ReleaseManifest.SafeFilename(name) && ReleaseManifest.HexDigits(digest, 64) && size > 0
            then Some(Record(name, File(digest, size))) else None
          case _ => None)
       case _ => None)
    case _ => None
  }

  function ReadAll(urls: seq<Json>): Option<seq<Record>> {
    if urls == [] then Some([])
    else match (ReadAll(urls[..|urls| - 1]), ReadRecord(urls[|urls| - 1]))
      case (Some(records), Some(record)) => Some(records + [record])
      case _ => None
  }

  /** The files of a 200 response for this version, in its order. */
  function ReadResponse(response: Json, version: string): Result<seq<Record>, Error> {
    if !response.Obj? then Err(NoObject)
    else
      var info, urls := Get(response.fields, "info", Null), Get(response.fields, "urls", Null);
      if !info.Obj? || Get(info.fields, "version", Null) != Str(version) then Err(WrongVersion)
      else if !urls.Arr? then Err(NoFiles)
      else match ReadAll(urls.items)
        case Some(records) => Ok(records)
        case None => Err(BadRecord)
  }

  /** `records` lists exactly `files`, each once, in some order. */
  ghost predicate Lists(records: seq<Record>, files: map<string, File>) {
    && (forall i | 0 <= i < |records| :: records[i].name in files && files[records[i].name] == records[i].file)
    && (forall i, j | 0 <= i < j < |records| :: records[i].name != records[j].name)
    && (forall name | name in files :: exists i | 0 <= i < |records| :: records[i].name == name)
  }

  ghost predicate Subset(a: map<string, File>, b: map<string, File>) {
    forall name | name in a :: name in b && b[name] == a[name]
  }

  /** The files a response shows: none after 404, the listed ones after 200. */
  ghost predicate Shows(status: int, response: Option<Json>, version: string, files: map<string, File>) {
    if status == 404 then response == None && files == map[]
    else
      && status == 200 && response.Some? && ReadResponse(response.value, version).Ok?
      && Lists(ReadResponse(response.value, version).value, files)
  }

  // ---- reading the records one by one ---------------------------------------------------------------

  /** The files collected from these records, or nothing once one of them is refused. */
  function Collected(records: seq<Record>, expected: map<string, File>): Option<map<string, File>> {
    if records == [] then Some(map[])
    else match Collected(records[..|records| - 1], expected)
      case None => None
      case Some(existing) =>
        var r := records[|records| - 1];
        if r.name !in existing && r.name in expected && expected[r.name] == r.file
        then Some(existing[r.name := r.file]) else None
  }

  lemma CollectOneMore(records: seq<Record>, r: Record, expected: map<string, File>)
    requires Collected(records, expected).Some?
    ensures
      var existing := Collected(records, expected).value;
      Collected(records + [r], expected) ==
        if r.name !in existing && r.name in expected && expected[r.name] == r.file
        then Some(existing[r.name := r.file]) else None
  {
    assert (records + [r])[..|records|] == records;
  }

  lemma {:induction false} CollectedMeans(records: seq<Record>, expected: map<string, File>)
    requires Collected(records, expected).Some?
    ensures Lists(records, Collected(records, expected).value)
    ensures Subset(Collected(records, expected).value, expected)
    decreases |records|
  {
    if records != [] {
      var init, last := records[..|records| - 1], records[|records| - 1];
      assert records == init + [last];
      CollectedMeans(init, expected);
      CollectOneMore(init, last, expected);
      ListsOneMore(init, last, Collected(init, expected).value);
    }
  }

  lemma ListsOneMore(init: seq<Record>, last: Record, before: map<string, File>)
    requires Lists(init, before) && last.name !in before
    ensures Lists(init + [last], before[last.name := last.file])
  {
    var records, files := init + [last], before[last.name := last.file];
    forall n | n in files ensures exists i | 0 <= i < |records| :: records[i].name == n {
      if n == last.name {
        assert records[|init|].name == n;
      } else {
        var i :| 0 <= i < |init| && init[i].name == n;
        assert records[i].name == n;
      }
    }
  }

  lemma ListsOneLess(init: seq<Record>, last: Record, files: map<string, File>)
    requires Lists(init + [last], files)
    ensures last.name in files && files[last.name] == last.file && Lists(init, files - {last.name})
  {
    var records, before := init + [last], files - {last.name};
    assert records[|init|] == last;
    forall n | n in before ensures exists i | 0 <= i < |init| :: init[i].name == n {
      var i :| 0 <= i < |records| && records[i].name == n;
      assert init[i].name == n;
    }
    assert forall i | 0 <= i < |init| :: records[i] == init[i];
    assert forall i | 0 <= i < |init| :: init[i].name != last.name;
  }

  lemma NothingListed(files: map<string, File>)
    requires Lists([], files)
    ensures files == map[]
  {
  }

  /** A file taken out and put back. */
  lemma PutBack(files: map<string, File>, name: string)
    requires name in files
    ensures (files - {name})[name := files[name]] == files
  {
  }

  lemma SubsetOneLess(files: map<string, File>, expected: map<string, File>, name: string)
    requires Subset(files, expected) && name in files
    ensures Subset(files - {name}, expected) && name in expected && expected[name] == files[name]
  {
  }

  /** A listing of a part of what is expected is accepted, in whatever order, and read as it is. */
  lemma {:induction false} ListingIsCollected(records: seq<Record>, files: map<string, File>, expected: map<string, File>)
    requires Lists(records, files) && Subset(files, expected)
    ensures Collected(records, expected) == Some(files)
    decreases |records|
  {
    hide Lists, Subset;
    if records == [] {
      NothingListed(files);
    } else {
      var init, last := records[..|records| - 1], records[|records| - 1];
      assert records == init + [last];
      ListsOneLess(init, last, files);
      SubsetOneLess(files, expected, last.name);
      ListingIsCollected(init, files - {last.name}, expected);
      CollectOneMore(init, last, expected);
      PutBack(files, last.name);
    }
  }

  // ---- sorted name lists ----------------------------------------------------------------------------

  predicate Sorted(names: seq<string>) {
    forall i, j | 0 <= i < j < |names| :: Sdist.Before(names[i], names[j])
  }

  ghost predicate SortedListOf(list: seq<string>, names: set<string>) {
    Sorted(list) && forall x :: x in list <==> x in names
  }

  /** `sorted(names)`: the library's sort, one insertion at a time. */
  method SortNames(names: set<string>) returns (list: seq<string>)
    ensures SortedListOf(list, names)
  {
    list := [];
    var rest := names;
    while rest != {}
      invariant rest <= names
      invariant SortedListOf(list, names - rest)
      decreases |rest|
    {
      var name :| name in rest;
      var i := 0;
      while i < |list| && Sdist.Before(list[i], name)
        invariant 0 <= i <= |list|
        invariant forall k | 0 <= k < i :: Sdist.Before(list[k], name)
      {
        i := i + 1;
      }
      InsertAt(list, names - rest, i, name);
      list := list[..i] + [name] + list[i..];
      rest := rest - {name};
      assert names - rest == names - (rest + {name}) + {name};
    }
    assert names - rest == names;
  }

  lemma InsertAt(list: seq<string>, names: set<string>, i: nat, name: string)
    requires SortedListOf(list, names) && name !in names && i <= |list|
    requires forall k | 0 <= k < i :: Sdist.Before(list[k], name)
    requires i < |list| ==> !Sdist.Before(list[i], name)
    ensures SortedListOf(list[..i] + [name] + list[i..], names + {name})
  {
    var after := list[..i] + [name] + list[i..];
    if i < |list| {
      assert list[i] in list;
      SdistTheorems.BeforeIsTotal(list[i], name);
      forall k | i < k < |list| ensures Sdist.Before(name, list[k]) {
        SdistTheorems.BeforeIsTransitive(name, list[i], list[k]);
      }
    }
    forall x ensures x in after <==> x in names + {name} {
      assert list == list[..i] + list[i..];
    }
  }

  // ---- the planner ------------------------------------------------------------------------------------

  method ReadExisting(urls: seq<Json>, expected: map<string, File>) returns (r: Result<map<string, File>, Error>)
    ensures r.Ok? <==> ReadAll(urls).Some? && Collected(ReadAll(urls).value, expected).Some?
    ensures r.Ok? ==> Collected(ReadAll(urls).value, expected) == Some(r.value)
  {
    var existing: map<string, File> := map[];
    ghost var records: seq<Record> := [];
    for i := 0 to |urls|
      invariant ReadAll(urls[..i]) == Some(records) && Collected(records, expected) == Some(existing)
    {
      ReadOneMore(urls, i);
      var item := ReadRecord(urls[i]);
      if item.None? {
        UnreadableRecord(urls, i + 1);
        return Err(BadRecord);
      }
      var record := item.value;
      CollectOneMore(records, record, expected);
      if record.name in existing {
        RefusedRecord(urls, i + 1, expected);
        return Err(DuplicateFile);
      }
      if record.name !in expected {
        RefusedRecord(urls, i + 1, expected);
        return Err(UnmanifestedFile);
      }
      if record.file != expected[record.name] {
        RefusedRecord(urls, i + 1, expected);
        return Err(Mismatch);
      }
      existing := existing[record.name := record.file];
      records := records + [record];
    }
    assert urls[..|urls|] == urls;
    r := Ok(existing);
  }

  lemma ReadOneMore(urls: seq<Json>, i: nat)
    requires i < |urls|
    ensures ReadAll(urls[..i + 1]) ==
            if ReadAll(urls[..i]).Some? && ReadRecord(urls[i]).Some?
            then Some(ReadAll(urls[..i]).value + [ReadRecord(urls[i]).value]) else None
  {
    assert urls[..i + 1][..i] == urls[..i];
  }

  lemma {:induction false} UnreadableRecord(urls: seq<Json>, i: nat)
    requires i <= |urls| && ReadAll(urls[..i]).None?
    ensures ReadAll(urls).None?
    decreases |urls| - i
  {
    if i < |urls| {
      ReadOneMore(urls, i);
      UnreadableRecord(urls, i + 1);
    } else {
      assert urls[..i] == urls;
    }
  }

  lemma {:induction false} RefusedRecord(urls: seq<Json>, i: nat, expected: map<string, File>)
    requires i <= |urls| && ReadAll(urls[..i]).Some? && Collected(ReadAll(urls[..i]).value, expected).None?
    ensures ReadAll(urls).Some? ==> Collected(ReadAll(urls).value, expected).None?
    decreases |urls| - i
  {
    if i < |urls| {
      ReadOneMore(urls, i);
      if ReadRecord(urls[i]).Some? {
        var records := ReadAll(urls[..i]).value;
        assert (records + [ReadRecord(urls[i]).value])[..|records|] == records;
        RefusedRecord(urls, i + 1, expected);
      } else {
        UnreadableRecord(urls, i + 1);
      }
    } else {
      assert urls[..i] == urls;
    }
  }

  /**
   A response definitively shows a part of the manifest that matches it, and which part. `existing`
   and `missing` of the plan follow from it.
   */
  ghost predicate Accepted(expected: map<string, File>, version: string, status: int, response: Option<Json>,
                           files: map<string, File>)
  {
    Shows(status, response, version, files) && Subset(files, expected)
  }

  /** What the code computes and what a response shows are the same thing. */
  lemma AcceptedMeans(expected: map<string, File>, version: string, response: Json, files: map<string, File>)
    ensures Accepted(expected, version, 200, Some(response), files) <==>
              ReadResponse(response, version).Ok? && Collected(ReadResponse(response, version).value, expected) == Some(files)
  {
    if ReadResponse(response, version).Ok? {
      var records := ReadResponse(response, version).value;
      if Collected(records, expected).Some? { CollectedMeans(records, expected); }
      if Lists(records, files) && Subset(files, expected) { ListingIsCollected(records, files, expected); }
    }
  }

  /** A response shows at most one set of files. */
  lemma ShownOnce(expected: map<string, File>, version: string, status: int, response: Option<Json>,
                  f1: map<string, File>, f2: map<string, File>)
    requires Accepted(expected, version, status, response, f1) && Accepted(expected, version, status, response, f2)
    ensures f1 == f2
  {
    if status == 200 {
      AcceptedMeans(expected, version, response.value, f1);
      AcceptedMeans(expected, version, response.value, f2);
    }
  }

  /** The files already published, according to the response. */
  method Published(expected: map<string, File>, version: string, status: int, response: Option<Json>)
      returns (r: Result<map<string, File>, Error>)
    ensures r.Ok? ==> Accepted(expected, version, status, response, r.value)
    ensures r.Err? ==> forall files :: !Accepted(expected, version, status, response, files)
  {
    if status == 404 {
      return if response != None then Err(UnexpectedBody) else Ok(map[]);
    }
    if status != 200 {
      return Err(BadStatus);
    }
    if response.None? || !response.value.Obj? {
      return Err(NoObject);
    }
    var body := response.value;
    var info, urls := Get(body.fields, "info", Null), Get(body.fields, "urls", Null);
    if !info.Obj? || Get(info.fields, "version", Null) != Str(version) {
      return Err(WrongVersion);
    }
    if !urls.Arr? {
      return Err(NoFiles);
    }
    r := ReadExisting(urls.items, expected);
    forall files {
      AcceptedMeans(expected, version, body, files);
    }
  }

  /**
   The planner accepts a response exactly if it definitively shows a byte-identical part of the
   manifest, and then splits the manifest into what is there and what is missing.
   */
  method RecoveryPlan(expected: map<string, File>, version: string, status: int, response: Option<Json>)
      returns (r: Result<Plan, Error>)
    ensures r.Ok? <==> exists files :: Accepted(expected, version, status, response, files)
    ensures r.Ok? ==> forall files | Accepted(expected, version, status, response, files) ::
              && SortedListOf(r.value.existing, files.Keys)
              && SortedListOf(r.value.missing, expected.Keys - files.Keys)
              && (r.value.publishRequired <==> expected.Keys != files.Keys)
              && r.value.version == version
  {
    var existing :- Published(expected, version, status, response);
    var existingNames := SortNames(existing.Keys);
    var missingNames := SortNames(expected.Keys - existing.Keys);
    EmptyListOf(missingNames, expected.Keys - existing.Keys);
    assert existing.Keys <= expected.Keys;
    assert expected.Keys - existing.Keys == {} <==> expected.Keys == existing.Keys by {
      assert expected.Keys == (expected.Keys - existing.Keys) + existing.Keys;
    }
    forall files | Accepted(expected, version, status, response, files) {
      ShownOnce(expected, version, status, response, existing, files);
    }
    r := Ok(Plan(existingNames, missingNames, missingNames != [], version));
  }

  lemma EmptyListOf(list: seq<string>, names: set<string>)
    requires SortedListOf(list, names)
    ensures list == [] <==> names == {}
  {
    if list != [] { assert list[0] in list; }
    if names != {} {
      var x :| x in names;
      assert x in list;
    }
  }
}
