/**
 A library as the theorems about `prepare` and `verify` want it exists, and in it a release that
 `prepare` writes a manifest for and then refuses. JSON text is any encoding that can be read back; the
 one here lists the fields of an object in the order in which a choice function picks them.
 */
module ReleaseWitness {
  import opened Wrappers
  import opened ReleaseJson
  import opened SbomBinding
  import opened ReleaseManifest
  import opened Search
  import FileSystem
  import SbomTheorems

  // ---- an encoding that can be read back ----------------------------------------------------------------

  function EncodeNat(n: nat): (b: Bytes)
    ensures b != []
  {
    if n == 0 then [0] else [1] + EncodeNat(n - 1)
  }

  function EncodeString(s: string): (b: Bytes)
    ensures b != []
    decreases |s|
  {
    if s == "" then [0] else [1] + (EncodeNat(s[0] as int) + EncodeString(s[1..]))
  }

  ghost function First(keys: set<string>): (key: string)
    requires keys != {}
    ensures key in keys
  {
    var key :| key in keys;
    key
  }

  ghost function Encode(j: Json): (b: Bytes)
    ensures b != []
    decreases j
  {
    match j
    case Null => [0]
    case Bool(b) => [1, if b then 1 else 0]
    case Int(n) => if n >= 0 then [2] + EncodeNat(n) else [3] + EncodeNat(-n)
    case Str(s) => [4] + EncodeString(s)
    case Arr(items) => [5] + EncodeItems(items)
    case Obj(fields) => [6] + EncodeFields(j, fields.Keys)
  }

  ghost function EncodeItems(items: seq<Json>): (b: Bytes)
    ensures b != []
    decreases items
  {
    if items == [] then [0] else [1] + (Encode(items[0]) + EncodeItems(items[1..]))
  }

  ghost function EncodeFields(o: Json, keys: set<string>): (b: Bytes)
    requires o.Obj? && keys <= o.fields.Keys
    ensures b != []
    decreases o, |keys|
  {
    if keys == {} then [0]
    else
      var key := First(keys);
      [1] + (EncodeString(key) + (Encode(o.fields[key]) + EncodeFields(o, keys - {key})))
  }

  // ---- it can be read back --------------------------------------------------------------------------------

  lemma Uncons(a: FileSystem.Byte, u: Bytes, x: Bytes, b: FileSystem.Byte, v: Bytes, y: Bytes)
    requires [a] + u + x == [b] + v + y
    ensures a == b && u + x == v + y
  {
    var l, r := [a] + u + x, [b] + v + y;
    assert l[0] == a && r[0] == b && l[1..] == u + x && r[1..] == v + y;
  }

  lemma Unpair(a: FileSystem.Byte, u: Bytes, u2: Bytes, x: Bytes, b: FileSystem.Byte, v: Bytes, v2: Bytes, y: Bytes)
    requires [a] + (u + u2) + x == [b] + (v + v2) + y
    ensures a == b && u + (u2 + x) == v + (v2 + y)
  {
    Uncons(a, u + u2, x, b, v + v2, y);
    Associate(u, u2, x);
    Associate(v, v2, y);
  }

  lemma OneByte(a: FileSystem.Byte, x: Bytes, b: FileSystem.Byte, y: Bytes)
    requires [a] + x == [b] + y
    ensures a == b && x == y
  {
    assert ([a] + x)[0] == a && ([b] + y)[0] == b && ([a] + x)[1..] == x && ([b] + y)[1..] == y;
  }

  lemma {:induction false} NatReadsBack(m: nat, n: nat, x: Bytes, y: Bytes)
    requires EncodeNat(m) + x == EncodeNat(n) + y
    ensures m == n && x == y
    decreases m
  {
    Heads(EncodeNat(m), x, EncodeNat(n), y);
    if m == 0 && n == 0 {
      OneByte(0, x, 0, y);
    } else if m > 0 && n > 0 {
      Uncons(1, EncodeNat(m - 1), x, 1, EncodeNat(n - 1), y);
      NatReadsBack(m - 1, n - 1, x, y);
    }
  }

  lemma Heads(a: Bytes, x: Bytes, b: Bytes, y: Bytes)
    requires a != [] && b != [] && a + x == b + y
    ensures a[0] == b[0]
  {
    assert (a + x)[0] == a[0] && (b + y)[0] == b[0];
  }

  lemma {:induction false} StringReadsBack(s: string, t: string, x: Bytes, y: Bytes)
    requires EncodeString(s) + x == EncodeString(t) + y
    ensures s == t && x == y
    decreases |s|
  {
    Heads(EncodeString(s), x, EncodeString(t), y);
    if s == "" && t == "" {
      OneByte(0, x, 0, y);
    } else if s != "" && t != "" {
      Unpair(1, EncodeNat(s[0] as int), EncodeString(s[1..]), x, 1, EncodeNat(t[0] as int), EncodeString(t[1..]), y);
      NatReadsBack(s[0] as int, t[0] as int, EncodeString(s[1..]) + x, EncodeString(t[1..]) + y);
      StringReadsBack(s[1..], t[1..], x, y);
      assert s == [s[0]] + s[1..] && t == [t[0]] + t[1..];
    }
  }

  lemma {:induction false} ItemsReadBack(a: seq<Json>, b: seq<Json>, x: Bytes, y: Bytes)
    requires EncodeItems(a) + x == EncodeItems(b) + y
    ensures a == b && x == y
    decreases a
  {
    Heads(EncodeItems(a), x, EncodeItems(b), y);
    if a == [] && b == [] {
      OneByte(0, x, 0, y);
    } else if a != [] && b != [] {
      Unpair(1, Encode(a[0]), EncodeItems(a[1..]), x, 1, Encode(b[0]), EncodeItems(b[1..]), y);
      JsonReadsBack(a[0], b[0], EncodeItems(a[1..]) + x, EncodeItems(b[1..]) + y);
      ItemsReadBack(a[1..], b[1..], x, y);
      assert a == [a[0]] + a[1..] && b == [b[0]] + b[1..];
    }
  }

  lemma {:induction false} FieldsReadBack(o: Json, keys: set<string>, p: Json, others: set<string>, x: Bytes, y: Bytes)
    requires o.Obj? && keys <= o.fields.Keys && p.Obj? && others <= p.fields.Keys
    requires EncodeFields(o, keys) + x == EncodeFields(p, others) + y
    ensures keys == others && x == y && forall key | key in keys :: o.fields[key] == p.fields[key]
    decreases o, |keys|
  {
    Heads(EncodeFields(o, keys), x, EncodeFields(p, others), y);
    if keys == {} && others == {} {
      OneByte(0, x, 0, y);
    } else if keys != {} && others != {} {
      var k, l := First(keys), First(others);
      var u, v := Encode(o.fields[k]) + EncodeFields(o, keys - {k}), Encode(p.fields[l]) + EncodeFields(p, others - {l});
      Unpair(1, EncodeString(k), u, x, 1, EncodeString(l), v, y);
      StringReadsBack(k, l, u + x, v + y);
      Associate(Encode(o.fields[k]), EncodeFields(o, keys - {k}), x);
      Associate(Encode(p.fields[l]), EncodeFields(p, others - {l}), y);
      JsonReadsBack(o.fields[k], p.fields[l], EncodeFields(o, keys - {k}) + x, EncodeFields(p, others - {l}) + y);
      FieldsReadBack(o, keys - {k}, p, others - {l}, x, y);
      assert keys == keys - {k} + {k} && others == others - {l} + {l};
    }
  }

  lemma {:induction false} JsonReadsBack(a: Json, b: Json, x: Bytes, y: Bytes)
    requires Encode(a) + x == Encode(b) + y
    ensures a == b && x == y
    decreases a
  {
    Heads(Encode(a), x, Encode(b), y);
    match (a, b)
    case (Null, Null) => OneByte(0, x, 0, y);
    case (Bool(c), Bool(d)) =>
      assert [1, if c then 1 else 0] == [1] + [if c then 1 else 0] && [1, if d then 1 else 0] == [1] + [if d then 1 else 0];
      Uncons(1, [if c then 1 else 0], x, 1, [if d then 1 else 0], y);
      OneByte(if c then 1 else 0, x, if d then 1 else 0, y);
    case (Int(m), Int(n)) =>
      Uncons(if m >= 0 then 2 else 3, EncodeNat(Size(m)), x, if n >= 0 then 2 else 3, EncodeNat(Size(n)), y);
      NatReadsBack(Size(m), Size(n), x, y);
    case (Str(s), Str(t)) =>
      Uncons(4, EncodeString(s), x, 4, EncodeString(t), y);
      StringReadsBack(s, t, x, y);
    case (Arr(items), Arr(others)) =>
      Uncons(5, EncodeItems(items), x, 5, EncodeItems(others), y);
      ItemsReadBack(items, others, x, y);
    case (Obj(fields), Obj(others)) =>
      Uncons(6, EncodeFields(a, fields.Keys), x, 6, EncodeFields(b, others.Keys), y);
      FieldsReadBack(a, fields.Keys, b, others.Keys, x, y);
      assert fields == others;
    case _ =>
  }

  function Size(n: int): nat {
    if n >= 0 then n else -n
  }

  // ---- digests and metadata ------------------------------------------------------------------------------

  function Zeros(n: nat): (s: string)
    ensures |s| == n && forall i | 0 <= i < n :: s[i] == '0'
  {
    if n == 0 then "" else "0" + Zeros(n - 1)
  }

  const TAG := "v1.0"
  const VERSION := "1.0"

  function HexOf(b: Bytes): string {
    Zeros(64)
  }

  /** Every file that is not empty is a distribution of the project. */
  function MetadataOf(kind: ArtifactKind, payload: Bytes): Option<(string, string)> {
    if payload == [] then None else Some((PROJECT, VERSION))
  }

  predicate IsRelease(version: string) {
    version == VERSION
  }

  // ---- the release -------------------------------------------------------------------------------------------

  const DIST: map<string, Bytes> := map["~.whl" := [1], "~.tar.gz" := [1]]
  const COMPONENT := Obj(map["name" := Str(PROJECT), "version" := Str(VERSION)])
  const DOCUMENT: Object := map["components" := Arr([COMPONENT])]

  predicate CanonicalAt(s: string, i: nat)
    requires i < |s|
  {
    if IsSeparator(s[i]) then s[i] == '-' && (i + 1 < |s| ==> !IsSeparator(s[i + 1])) else Lower(s[i]) == s[i]
  }

  lemma {:induction false} CanonicalStays(s: string)
    requires forall i | 0 <= i < |s| :: CanonicalAt(s, i)
    ensures CanonicalProjectName(s) == s
    decreases |s|
  {
    if s != "" {
      var rest := s[1..];
      forall i | 0 <= i < |rest| ensures CanonicalAt(rest, i) {
        assert CanonicalAt(s, i + 1);
      }
      CanonicalStays(rest);
      assert CanonicalAt(s, 0) && s == [s[0]] + rest;
    }
  }

  lemma ProjectIsCanonical()
    ensures CanonicalProjectName(PROJECT) == PROJECT
  {
    hide CanonicalProjectName;
    var s := PROJECT;
    assert |s| == 9 && s[4] == '-' && s[5] == 'c';
    forall i | 0 <= i < |s| ensures CanonicalAt(s, i) {}
    CanonicalStays(s);
  }

  lemma FilesAreRecordable(lib: Library, kind: ArtifactKind)
    requires lib.metadata == MetadataOf
    ensures Recordable(lib, kind, [1], VERSION)
  {
    ProjectIsCanonical();
  }

  lemma DistIsPair()
    ensures Pair(DIST, "~.whl", "~.tar.gz") && !SafeFilename("~.whl")
  {
    assert "~.whl"[1..] == ".whl" && "~.tar.gz"[1..] == ".tar.gz" && !Alphanumeric("~.whl"[0]);
  }

  lemma DistIsCollectable(lib: Library)
    requires lib.metadata == MetadataOf
    ensures Collectable(lib, DIST, VERSION)
  {
    hide EndsWith, Recordable;
    DistIsPair();
    FilesAreRecordable(lib, Wheel);
    FilesAreRecordable(lib, Sdist);
  }

  lemma DocumentIsBindable(b: Binding)
    requires b.version == VERSION
    ensures SbomTheorems.Bindable(DOCUMENT, b)
  {
    ComponentMatches(b);
    assert ComponentsOf(DOCUMENT) == [COMPONENT];
  }

  lemma ComponentMatches(b: Binding)
    requires b.version == VERSION
    ensures IsMatch(COMPONENT, b) && "hashes" !in COMPONENT.fields
  {
    ProjectIsCanonical();
  }

  lemma IdentityIsValid(lib: Library)
    requires lib.isRelease == IsRelease
    ensures ValidatedIdentity(lib, TAG, Zeros(40)) == Some(VERSION)
  {
    assert TAG[1..] == VERSION;
  }

  function NoLoads(b: Bytes): Option<Object> {
    None
  }

  function NoDumps(d: Object): Bytes {
    []
  }

  /** All that collecting looks at. */
  ghost function Draft(): Library {
    Library(HexOf, MetadataOf, NoLoads, NoDumps, IsRelease)
  }

  /** What binding makes of the document. */
  ghost function BoundDocument(): Object
    requires Collect(Draft(), DIST, VERSION).Some?
  {
    match Bind(DOCUMENT, BindingFor(Draft(), DIST, TAG, Zeros(40), VERSION))
    case Some(bound) => bound
    case None => DOCUMENT
  }

  lemma DraftIsCollected()
    ensures Collect(Draft(), DIST, VERSION).Some?
    ensures Bind(DOCUMENT, BindingFor(Draft(), DIST, TAG, Zeros(40), VERSION)) == Some(BoundDocument())
  {
    DistIsCollectable(Draft());
    CollectedExactlyWhen(Draft(), DIST, VERSION);
    var b := BindingFor(Draft(), DIST, TAG, Zeros(40), VERSION);
    DocumentIsBindable(b);
    SbomTheorems.BindSucceedsExactlyWhen(DOCUMENT, b);
  }

  // ---- the library -----------------------------------------------------------------------------------------

  /** Two documents have short texts; every other one is encoded. */
  ghost function Dumps(d: Object): (b: Bytes)
    ensures b != []
  {
    DraftIsCollected();
    if d == BoundDocument() then [0] else if d == DOCUMENT then [1] else [2] + Encode(Obj(d))
  }

  ghost predicate Writes(d: Object, b: Bytes) {
    Dumps(d) == b
  }

  ghost function Loads(b: Bytes): Option<Object> {
    if exists d :: Writes(d, b) then
      var d :| Writes(d, b);
      Some(d)
    else None
  }

  lemma DumpsDiffer(d: Object, e: Object)
    requires Dumps(d) == Dumps(e)
    ensures d == e
  {
    hide Collect;
    DraftIsCollected();
    var b, c := Dumps(d), Dumps(e);
    assert b[0] == c[0];
    if b[0] == 2 {
      assert b[1..] == Encode(Obj(d)) && c[1..] == Encode(Obj(e));
      assert Encode(Obj(d)) + [] == Encode(Obj(e)) + [];
      JsonReadsBack(Obj(d), Obj(e), [], []);
    }
  }

  ghost function Witness(): Library {
    Library(HexOf, MetadataOf, Loads, Dumps, IsRelease)
  }

  lemma DumpedIsLoaded(d: Object)
    ensures Loads(Dumps(d)) == Some(d)
  {
    hide Dumps;
    assert Writes(d, Dumps(d));
    DumpsDiffer(d, Loads(Dumps(d)).value);
  }

  lemma HexIsHex(b: Bytes)
    ensures HexDigits(HexOf(b), 64)
  {
  }

  lemma WitnessIsFaithful()
    ensures Faithful(Witness())
  {
    hide Dumps, Loads, HexOf, HexDigits, Encode;
    forall b ensures HexDigits(HexOf(b), 64) { HexIsHex(b); }
    forall d ensures Loads(Dumps(d)) == Some(d) { DumpedIsLoaded(d); }
  }

  /** Collecting does not look at JSON. */
  lemma SameCollection(l: Library, m: Library)
    requires l.hex == m.hex && l.metadata == m.metadata
    ensures Collect(l, DIST, VERSION) == Collect(m, DIST, VERSION)
  {
    forall name, kind: ArtifactKind, payload
      ensures ArtifactRecord(l, name, kind, payload, VERSION) == ArtifactRecord(m, name, kind, payload, VERSION) {}
  }

  /**
   The theorems are about something, and so is the difference they describe: in a faithful library
   there is a release, under a well-formed tag, that `prepare` writes and then refuses.
   */
  lemma SomeReleaseIsPreparedAndRefused()
    ensures Faithful(Witness())
    ensures Preparable(Witness(), DIST, "sbom.json", Dumps(DOCUMENT), TAG, Zeros(40))
    ensures "~.whl" in DIST && !SafeFilename("~.whl")
    ensures Prepare(Witness(), DIST, "sbom.json", Dumps(DOCUMENT), TAG, Zeros(40)).Some?
    ensures CheckedPrepare(Witness(), DIST, "sbom.json", Dumps(DOCUMENT), TAG, Zeros(40)).None?
  {
    WitnessIsFaithful();
    WitnessIsPreparable();
    DistIsPair();
    UnsafeNameIsPrepared(Witness(), DIST, "sbom.json", Dumps(DOCUMENT), TAG, Zeros(40));
  }

  lemma WitnessIsPreparable()
    ensures Preparable(Witness(), DIST, "sbom.json", Dumps(DOCUMENT), TAG, Zeros(40))
  {
    hide Dumps, Loads, Collect, Collectable, ValidatedIdentity, SafeFilename, BindingFor, BoundDocument, Bind;
    WitnessIsCollected();
    IdentityIsValid(Witness());
    SbomNameIsSafe();
    DumpedIsLoaded(DOCUMENT);
    ShortTexts();
    var b := BindingFor(Witness(), DIST, TAG, Zeros(40), VERSION);
    DocumentIsBindable(b);
    PreparableWhen(Witness(), DIST, "sbom.json", Dumps(DOCUMENT), TAG, Zeros(40), VERSION, DOCUMENT, b, BoundDocument());
  }

  lemma SbomNameIsSafe()
    ensures SafeFilename("sbom.json")
  {
  }

  lemma ShortTexts()
    ensures Collect(Draft(), DIST, VERSION).Some? && |Dumps(DOCUMENT)| == |Dumps(BoundDocument())| == 1
  {
    hide Collect, BoundDocument, Bind;
    DraftIsCollected();
  }

  lemma WitnessIsCollected()
    ensures Collectable(Witness(), DIST, VERSION) && Collect(Draft(), DIST, VERSION).Some?
    ensures Collect(Witness(), DIST, VERSION) == Collect(Draft(), DIST, VERSION)
    ensures BindingFor(Witness(), DIST, TAG, Zeros(40), VERSION).version == VERSION
    ensures Bind(DOCUMENT, BindingFor(Witness(), DIST, TAG, Zeros(40), VERSION)) == Some(BoundDocument())
  {
    hide Collect, Collectable, Bind, BoundDocument;
    DistIsCollectable(Witness());
    SameCollection(Draft(), Witness());
    DraftIsCollected();
  }
}
