/**
 `prepare` and `verify` of `scripts/release_artifacts.py`: the manifest that one job writes and the
 other checks before it publishes.
 */
module ReleaseManifest {
  import opened Wrappers
  import FileSystem
  import Sdist
  import opened ReleaseJson
  import opened SbomBinding
  import SbomTheorems

  type Bytes = FileSystem.Bytes

  const MAX_SBOM_BYTES: nat := 64 * 1024 * 1024
  const MAX_DISTRIBUTION_BYTES: nat := 100 * 1024 * 1024

  /**
   What the standard library contributes: the hexadecimal SHA-256, the name and version inside a
   distribution, and reading and writing JSON text; and the shape of a PEP 440 release.
   */
  datatype Library = Library(
    hex: Bytes -> string,
    metadata: (ArtifactKind, Bytes) -> Option<(string, string)>,
    loads: Bytes -> Option<Object>,
    dumps: Object -> Bytes,
    isRelease: string -> bool)

  predicate HexDigits(s: string, n: nat) {
    |s| == n && forall i | 0 <= i < n :: '0' <= s[i] <= '9' || 'a' <= s[i] <= 'f'
  }

  /** Digests are 64 hexadecimal digits, JSON survives a round trip, nothing empty is a distribution. */
  ghost predicate Faithful(lib: Library) {
    && (forall b :: HexDigits(lib.hex(b), 64))
    && (forall d :: lib.loads(lib.dumps(d)) == Some(d) && lib.dumps(d) != [])
    && (forall k :: lib.metadata(k, []) == None)
  }

  /** No two of these contents share a digest. */
  ghost predicate CollisionFree(hex: Bytes -> string, contents: set<Bytes>) {
    forall a, b | a in contents && b in contents :: hex(a) == hex(b) ==> a == b
  }

  predicate Alphanumeric(c: char) {
    'A' <= c <= 'Z' || 'a' <= c <= 'z' || '0' <= c <= '9'
  }

  predicate SafeFilename(name: string) {
    && name != "" && Alphanumeric(name[0])
    && forall c | c in name :: Alphanumeric(c) || c == '.' || c == '_' || c == '+' || c == '-'
  }

  predicate EndsWith(s: string, suffix: string) {
    |suffix| <= |s| && s[|s| - |suffix|..] == suffix
  }

  datatype Manifest = Manifest(
    artifacts: seq<Artifact>, commit: string, sbomName: string, sbomSha256: string, sbomSize: int,
    tag: string, version: string)

  // ---- the release identity and its two files -------------------------------------------------------

  function ValidatedIdentity(lib: Library, tag: string, commit: string): Option<string> {
    if tag == "" || tag[0] != 'v' || !lib.isRelease(tag[1..]) || !HexDigits(commit, 40) then None else Some(tag[1..])
  }

  function ArtifactRecord(lib: Library, name: string, kind: ArtifactKind, payload: Bytes, version: string): Option<Artifact> {
    if |payload| > MAX_DISTRIBUTION_BYTES then None
    else match lib.metadata(kind, payload)
      case None => None
      case Some((project, found)) =>
        if CanonicalProjectName(project) != PROJECT || found != version then None
        else Some(Artifact(name, kind, "https://pypi.org/integrity/" + PROJECT + "/" + version + "/" + name + "/provenance",
                           lib.hex(payload), |payload|))
  }

  function Named(dist: map<string, Bytes>, suffix: string): set<string> {
    set name | name in dist && EndsWith(name, suffix)
  }

  ghost function Only(names: set<string>): (name: string)
    requires |names| == 1
    ensures names == {name}
  {
    var name :| name in names;
    assert |names - {name}| == 0;
    name
  }

  /** `_collect_distributions`: exactly one wheel and one sdist, listed by file name. */
  ghost function Collect(lib: Library, dist: map<string, Bytes>, version: string): Option<seq<Artifact>> {
    var wheels, sdists := Named(dist, ".whl"), Named(dist, ".tar.gz");
    if dist.Keys != wheels + sdists || |wheels| != 1 || |sdists| != 1 then None
    else
      var wheel, sdist := Only(wheels), Only(sdists);
      match (ArtifactRecord(lib, wheel, Wheel, dist[wheel], version), ArtifactRecord(lib, sdist, Sdist, dist[sdist], version))
      case (Some(w), Some(s)) => Some(if Sdist.Before(sdist, wheel) then [s, w] else [w, s])
      case _ => None
  }

  function OfKind(artifacts: seq<Artifact>, kind: ArtifactKind): Option<Artifact> {
    var matches := Filter(artifacts, (a: Artifact) => a.kind == kind);
    if |matches| == 1 then Some(matches[0]) else None
  }

  /** The eleven owned properties, sorted by name. */
  function BindingOf(wheel: Artifact, sdist: Artifact, tag: string, commit: string, version: string): Binding {
    Binding(version, wheel.sha256, [
      ("roam:published_wheel_filename", wheel.filename),
      ("roam:published_wheel_sha256", wheel.sha256),
      ("roam:release_commit", commit),
      ("roam:release_manifest_schema", SCHEMA),
      ("roam:release_sdist_filename", sdist.filename),
      ("roam:release_sdist_provenance", sdist.provenance),
      ("roam:release_sdist_sha256", sdist.sha256),
      ("roam:release_tag", tag),
      ("roam:release_wheel_filename", wheel.filename),
      ("roam:release_wheel_provenance", wheel.provenance),
      ("roam:release_wheel_sha256", wheel.sha256)])
  }

  // ---- prepare and verify -----------------------------------------------------------------------------

  predicate ValidArtifact(a: Artifact) {
    SafeFilename(a.filename) && HexDigits(a.sha256, 64) && 0 < a.size <= MAX_DISTRIBUTION_BYTES
  }

  predicate ValidShape(m: Manifest) {
    && |m.artifacts| == 2 && ValidArtifact(m.artifacts[0]) && ValidArtifact(m.artifacts[1])
    && SafeFilename(m.sbomName) && HexDigits(m.sbomSha256, 64) && 0 < m.sbomSize <= MAX_SBOM_BYTES
  }

  ghost predicate Verify(lib: Library, dist: map<string, Bytes>, sbomName: string, sbom: Bytes, m: Manifest,
                         tag: string, commit: string)
  {
    match ValidatedIdentity(lib, tag, commit)
    case None => false
    case Some(version) =>
      && ValidShape(m)
      && m.tag == tag && m.commit == commit && m.version == version
      && Collect(lib, dist, version) == Some(m.artifacts)
      && SafeFilename(sbomName) && |sbom| <= MAX_SBOM_BYTES
      && m.sbomName == sbomName && m.sbomSha256 == lib.hex(sbom) && m.sbomSize == |sbom|
      && SbomAccepted(lib, sbom, m)
  }

  /** The SBOM parses and carries the binding of the manifest's distributions. */
  predicate SbomAccepted(lib: Library, sbom: Bytes, m: Manifest) {
    match (lib.loads(sbom), OfKind(m.artifacts, Wheel), OfKind(m.artifacts, Sdist))
    case (Some(document), Some(wheel), Some(sdist)) =>
      Verified(document, BindingOf(wheel, sdist, m.tag, m.commit, m.version))
    case _ => false
  }

  datatype Prepared = Prepared(sbom: Bytes, manifest: Manifest)

  /** `prepare` up to its own call of `verify`: the bound SBOM and the manifest it writes. */
  ghost function Prepare(lib: Library, dist: map<string, Bytes>, sbomName: string, sbom: Bytes, tag: string,
                         commit: string): Option<Prepared>
  {
    match ValidatedIdentity(lib, tag, commit)
    case None => None
    case Some(version) =>
      if !SafeFilename(sbomName) || |sbom| > MAX_SBOM_BYTES then None
      else match (Collect(lib, dist, version), lib.loads(sbom))
        case (Some(artifacts), Some(document)) =>
          (match (OfKind(artifacts, Wheel), OfKind(artifacts, Sdist))
           case (Some(wheel), Some(sdist)) =>
             (match Bind(document, BindingOf(wheel, sdist, tag, commit, version))
              case Some(bound) =>
                var text := lib.dumps(bound);
                if |text| > MAX_SBOM_BYTES then None
                else Some(Prepared(text, Manifest(artifacts, commit, sbomName, lib.hex(text), |text|, tag, version)))
              case None => None)
           case _ => None)
        case _ => None
  }

  // ---- main results -------------------------------------------------------------------------------------

  /** Two directories with the same records hold the same files, byte for byte. */
  lemma RecordsPinFiles(lib: Library, d1: map<string, Bytes>, d2: map<string, Bytes>, version: string)
    requires CollisionFree(lib.hex, d1.Values + d2.Values)
    requires Collect(lib, d1, version).Some? && Collect(lib, d1, version) == Collect(lib, d2, version)
    ensures d1 == d2
  {
    var w1, s1 := Only(Named(d1, ".whl")), Only(Named(d1, ".tar.gz"));
    var w2, s2 := Only(Named(d2, ".whl")), Only(Named(d2, ".tar.gz"));
    assert w1 in Named(d1, ".whl") && s1 in Named(d1, ".tar.gz") && w2 in Named(d2, ".whl") && s2 in Named(d2, ".tar.gz");
    var rw1 := ArtifactRecord(lib, w1, Wheel, d1[w1], version).value;
    var rs1 := ArtifactRecord(lib, s1, Sdist, d1[s1], version).value;
    var rw2 := ArtifactRecord(lib, w2, Wheel, d2[w2], version).value;
    var rs2 := ArtifactRecord(lib, s2, Sdist, d2[s2], version).value;
    var a := Collect(lib, d1, version).value;
    assert a[0] == rw1 || a[0] == rs1;
    assert rw1 == rw2 && rs1 == rs2;
  }

  /** What tells the owned names apart: the length and the fourteenth character. */
  predicate Mark(name: string, length: nat, c: char) {
    |name| == length && 13 < length && name[13] == c
  }

  lemma OwnedMarks(wheel: Artifact, sdist: Artifact, tag: string, commit: string, version: string)
    ensures
      var ps := BindingOf(wheel, sdist, tag, commit, version).properties;
      && |ps| == 11
      && Mark(ps[0].0, 29, 'd') && Mark(ps[1].0, 27, 'd') && Mark(ps[2].0, 19, 'c') && Mark(ps[3].0, 28, 'm')
      && Mark(ps[4].0, 27, 's') && Mark(ps[5].0, 29, 's') && Mark(ps[6].0, 25, 's') && Mark(ps[7].0, 16, 't')
      && Mark(ps[8].0, 27, 'w') && Mark(ps[9].0, 29, 'w') && Mark(ps[10].0, 25, 'w')
  {
    hide SCHEMA;
  }

  lemma OwnedNamesAreDistinct(wheel: Artifact, sdist: Artifact, tag: string, commit: string, version: string)
    ensures DistinctNames(BindingOf(wheel, sdist, tag, commit, version).properties)
  {
    hide BindingOf;
    OwnedMarks(wheel, sdist, tag, commit, version);
  }

  /**
   `verify` pins the release: two sets of files that pass it with one manifest are the same files
   with the same bytes, and the SBOM carries the binding of exactly these distributions.
   */
  lemma VerifyPinsTheRelease(lib: Library, m: Manifest, tag: string, commit: string,
                             d1: map<string, Bytes>, name1: string, sbom1: Bytes,
                             d2: map<string, Bytes>, name2: string, sbom2: Bytes)
    requires Verify(lib, d1, name1, sbom1, m, tag, commit) && Verify(lib, d2, name2, sbom2, m, tag, commit)
    requires CollisionFree(lib.hex, d1.Values + d2.Values + {sbom1, sbom2})
    ensures d1 == d2 && name1 == name2 && sbom1 == sbom2
  {
    RecordsPinFiles(lib, d1, d2, m.version);
  }

  lemma FilterTwo<T>(xs: seq<T>, p: T -> bool)
    requires |xs| == 2 && p(xs[0]) != p(xs[1])
    ensures |Filter(xs, p)| == 1
  {
    assert xs[1..] == [xs[1]] && xs[1..][1..] == [];
    assert Filter(xs[1..], p) == (if p(xs[1]) then [xs[1]] else []) + Filter([], p);
  }

  lemma CollectedRecords(lib: Library, dist: map<string, Bytes>, version: string)
    requires Faithful(lib) && Collect(lib, dist, version).Some?
    ensures
      var a := Collect(lib, dist, version).value;
      && |a| == 2 && OfKind(a, Wheel).Some? && OfKind(a, Sdist).Some?
      && (forall r | r in a :: HexDigits(r.sha256, 64) && 0 < r.size <= MAX_DISTRIBUTION_BYTES)
  {
    var a := Collect(lib, dist, version).value;
    FilterTwo(a, (r: Artifact) => r.kind == Wheel);
    FilterTwo(a, (r: Artifact) => r.kind == Sdist);
  }

  /** Everything `verify` looks at, except the distributions' own file names. */
  ghost predicate OwnCheckApplies(lib: Library, dist: map<string, Bytes>, sbomName: string, m: Manifest, bound: Object) {
    && ValidatedIdentity(lib, m.tag, m.commit) == Some(m.version)
    && Collect(lib, dist, m.version) == Some(m.artifacts) && |m.artifacts| == 2
    && (forall r | r in m.artifacts :: HexDigits(r.sha256, 64) && 0 < r.size <= MAX_DISTRIBUTION_BYTES)
    && SafeFilename(sbomName) && m.sbomName == sbomName
    && HexDigits(m.sbomSha256, 64) && m.sbomSha256 == lib.hex(lib.dumps(bound))
    && 0 < m.sbomSize <= MAX_SBOM_BYTES && m.sbomSize == |lib.dumps(bound)|
    && SbomAccepted(lib, lib.dumps(bound), m)
  }

  lemma OwnCheck(lib: Library, dist: map<string, Bytes>, sbomName: string, m: Manifest, bound: Object)
    requires OwnCheckApplies(lib, dist, sbomName, m, bound)
    ensures Verify(lib, dist, sbomName, lib.dumps(bound), m, m.tag, m.commit) <==>
              SafeFilename(m.artifacts[0].filename) && SafeFilename(m.artifacts[1].filename)
  {
    ShapeOf(m);
  }

  lemma ShapeOf(m: Manifest)
    requires |m.artifacts| == 2 && forall r | r in m.artifacts :: HexDigits(r.sha256, 64) && 0 < r.size <= MAX_DISTRIBUTION_BYTES
    requires SafeFilename(m.sbomName) && HexDigits(m.sbomSha256, 64) && 0 < m.sbomSize <= MAX_SBOM_BYTES
    ensures ValidShape(m) <==> SafeFilename(m.artifacts[0].filename) && SafeFilename(m.artifacts[1].filename)
  {
    assert m.artifacts[0] in m.artifacts && m.artifacts[1] in m.artifacts;
  }

  /**
   The manifest that `prepare` writes passes `verify` on the files it was made from, unless a
   distribution's own file name is not a safe one: collecting the files does not look at it.
   */
  lemma PrepareThenVerify(lib: Library, dist: map<string, Bytes>, sbomName: string, sbom: Bytes, tag: string, commit: string)
    requires Faithful(lib) && Prepare(lib, dist, sbomName, sbom, tag, commit).Some?
    ensures
      var p := Prepare(lib, dist, sbomName, sbom, tag, commit).value;
      Verify(lib, dist, sbomName, p.sbom, p.manifest, tag, commit) <==> forall name | name in dist :: SafeFilename(name)
  {
    hide Prepare, Verify, Faithful, Collect, SafeFilename;
    var p := Prepare(lib, dist, sbomName, sbom, tag, commit).value;
    var bound := PreparedParts(lib, dist, sbomName, sbom, tag, commit, p);
    NamesAreCollected(lib, dist, p.manifest.version);
    OwnCheck(lib, dist, sbomName, p.manifest, bound);
  }

  /** What a prepared release is made of. */
  lemma PreparedParts(lib: Library, dist: map<string, Bytes>, sbomName: string, sbom: Bytes, tag: string, commit: string,
                      p: Prepared) returns (bound: Object)
    requires Faithful(lib) && Prepare(lib, dist, sbomName, sbom, tag, commit) == Some(p)
    ensures p.sbom == lib.dumps(bound) && OwnCheckApplies(lib, dist, sbomName, p.manifest, bound)
    ensures p.manifest.tag == tag && p.manifest.commit == commit
  {
    var m := p.manifest;
    CollectedRecords(lib, dist, m.version);
    var wheel, sdist := OfKind(m.artifacts, Wheel).value, OfKind(m.artifacts, Sdist).value;
    var binding := BindingOf(wheel, sdist, tag, commit, m.version);
    OwnedNamesAreDistinct(wheel, sdist, tag, commit, m.version);
    var document := lib.loads(sbom).value;
    bound := Bind(document, binding).value;
    SbomTheorems.BindThenVerify(document, binding);
  }

  lemma NamesAreCollected(lib: Library, dist: map<string, Bytes>, version: string)
    requires Collect(lib, dist, version).Some?
    ensures
      var a := Collect(lib, dist, version).value;
      |a| == 2 && dist.Keys == {a[0].filename, a[1].filename}
  {
  }

  // ---- exactly when a release is prepared, and when it is accepted ----------------------------------------

  /** The file is a distribution of this project and version; its name is not looked at. */
  predicate Recordable(lib: Library, kind: ArtifactKind, payload: Bytes, version: string) {
    && |payload| <= MAX_DISTRIBUTION_BYTES
    && lib.metadata(kind, payload).Some?
    && CanonicalProjectName(lib.metadata(kind, payload).value.0) == PROJECT
    && lib.metadata(kind, payload).value.1 == version
  }

  /** One wheel, one sdist and nothing else. */
  ghost predicate Pair(dist: map<string, Bytes>, wheel: string, sdist: string) {
    dist.Keys == {wheel, sdist} && EndsWith(wheel, ".whl") && EndsWith(sdist, ".tar.gz")
  }

  ghost predicate Collectable(lib: Library, dist: map<string, Bytes>, version: string) {
    exists wheel, sdist | Pair(dist, wheel, sdist) ::
      Recordable(lib, Wheel, dist[wheel], version) && Recordable(lib, Sdist, dist[sdist], version)
  }

  lemma SuffixesDiffer(name: string)
    ensures !(EndsWith(name, ".whl") && EndsWith(name, ".tar.gz"))
  {
    LastCharacter(name, ".whl");
    LastCharacter(name, ".tar.gz");
  }

  lemma LastCharacter(name: string, suffix: string)
    requires suffix != ""
    ensures EndsWith(name, suffix) ==> name != "" && name[|name| - 1] == suffix[|suffix| - 1]
  {
    if EndsWith(name, suffix) {
      assert name[|name| - |suffix|..][|suffix| - 1] == name[|name| - 1];
    }
  }

  lemma PairIsNamed(dist: map<string, Bytes>, wheel: string, sdist: string)
    requires Pair(dist, wheel, sdist)
    ensures Named(dist, ".whl") == {wheel} && Named(dist, ".tar.gz") == {sdist}
  {
    SuffixesDiffer(wheel);
    SuffixesDiffer(sdist);
  }

  lemma RecordedExactlyWhen(lib: Library, name: string, kind: ArtifactKind, payload: Bytes, version: string)
    ensures ArtifactRecord(lib, name, kind, payload, version).Some? <==> Recordable(lib, kind, payload, version)
  {
  }

  /** Collecting looks at what is in the files and at the ends of their names. */
  lemma CollectedExactlyWhen(lib: Library, dist: map<string, Bytes>, version: string)
    ensures Collect(lib, dist, version).Some? <==> Collectable(lib, dist, version)
  {
    hide ArtifactRecord, Recordable, EndsWith;
    if Collectable(lib, dist, version) {
      var wheel, sdist :| Pair(dist, wheel, sdist) && Recordable(lib, Wheel, dist[wheel], version)
                          && Recordable(lib, Sdist, dist[sdist], version);
      PairIsNamed(dist, wheel, sdist);
      RecordedExactlyWhen(lib, wheel, Wheel, dist[wheel], version);
      RecordedExactlyWhen(lib, sdist, Sdist, dist[sdist], version);
    }
    if Collect(lib, dist, version).Some? {
      var wheel, sdist := Only(Named(dist, ".whl")), Only(Named(dist, ".tar.gz"));
      assert wheel in Named(dist, ".whl") && sdist in Named(dist, ".tar.gz");
      RecordedExactlyWhen(lib, wheel, Wheel, dist[wheel], version);
      RecordedExactlyWhen(lib, sdist, Sdist, dist[sdist], version);
      assert Pair(dist, wheel, sdist);
    }
  }

  lemma KindsAreCollected(lib: Library, dist: map<string, Bytes>, version: string)
    requires Collect(lib, dist, version).Some?
    ensures
      var a := Collect(lib, dist, version).value;
      OfKind(a, Wheel).Some? && OfKind(a, Sdist).Some?
  {
    var a := Collect(lib, dist, version).value;
    FilterTwo(a, (r: Artifact) => r.kind == Wheel);
    FilterTwo(a, (r: Artifact) => r.kind == Sdist);
  }

  /** What the collected distributions write into an SBOM. */
  ghost function BindingFor(lib: Library, dist: map<string, Bytes>, tag: string, commit: string, version: string): Binding
    requires Collect(lib, dist, version).Some?
  {
    KindsAreCollected(lib, dist, version);
    var a := Collect(lib, dist, version).value;
    BindingOf(OfKind(a, Wheel).value, OfKind(a, Sdist).value, tag, commit, version)
  }

  /** What `prepare` needs before its own call of `verify`. */
  ghost predicate Preparable(lib: Library, dist: map<string, Bytes>, sbomName: string, sbom: Bytes, tag: string, commit: string) {
    match ValidatedIdentity(lib, tag, commit)
    case None => false
    case Some(version) =>
      && Collectable(lib, dist, version)
      && SafeFilename(sbomName) && |sbom| <= MAX_SBOM_BYTES && lib.loads(sbom).Some?
      && (CollectedExactlyWhen(lib, dist, version);
          var binding := BindingFor(lib, dist, tag, commit, version);
          && SbomTheorems.Bindable(lib.loads(sbom).value, binding)
          && (SbomTheorems.BindSucceedsExactlyWhen(lib.loads(sbom).value, binding);
              |lib.dumps(Bind(lib.loads(sbom).value, binding).value)| <= MAX_SBOM_BYTES))
  }

  lemma PreparableWhen(lib: Library, dist: map<string, Bytes>, sbomName: string, sbom: Bytes, tag: string, commit: string,
                       version: string, document: Object, binding: Binding, bound: Object)
    requires ValidatedIdentity(lib, tag, commit) == Some(version) && Collectable(lib, dist, version)
    requires SafeFilename(sbomName) && |sbom| <= MAX_SBOM_BYTES && lib.loads(sbom) == Some(document)
    requires Collect(lib, dist, version).Some? && binding == BindingFor(lib, dist, tag, commit, version)
    requires SbomTheorems.Bindable(document, binding)
    requires Bind(document, binding) == Some(bound) && |lib.dumps(bound)| <= MAX_SBOM_BYTES
    ensures Preparable(lib, dist, sbomName, sbom, tag, commit)
  {
    hide Collect, Collectable, ValidatedIdentity, SafeFilename, BindingFor, Bind;
  }

  /** The manifest is written exactly in these cases; the distributions' file names do not matter. */
  lemma PrepareSucceedsExactlyWhen(lib: Library, dist: map<string, Bytes>, sbomName: string, sbom: Bytes, tag: string,
                                   commit: string)
    ensures Prepare(lib, dist, sbomName, sbom, tag, commit).Some? <==> Preparable(lib, dist, sbomName, sbom, tag, commit)
  {
    match ValidatedIdentity(lib, tag, commit)
    case None =>
    case Some(version) =>
      CollectedExactlyWhen(lib, dist, version);
      if Collect(lib, dist, version).Some? && lib.loads(sbom).Some? {
        KindsAreCollected(lib, dist, version);
        SbomTheorems.BindSucceedsExactlyWhen(lib.loads(sbom).value, BindingFor(lib, dist, tag, commit, version));
      }
  }

  /** `prepare` to its end: it calls `verify` on what it has written, and fails where that fails. */
  ghost function CheckedPrepare(lib: Library, dist: map<string, Bytes>, sbomName: string, sbom: Bytes, tag: string,
                                commit: string): Option<Manifest>
  {
    match Prepare(lib, dist, sbomName, sbom, tag, commit)
    case None => None
    case Some(p) => if Verify(lib, dist, sbomName, p.sbom, p.manifest, tag, commit) then Some(p.manifest) else None
  }

  /** So the script's `prepare` succeeds exactly if, besides, every distribution has a safe file name. */
  lemma CheckedPrepareSucceedsExactlyWhen(lib: Library, dist: map<string, Bytes>, sbomName: string, sbom: Bytes, tag: string,
                                          commit: string)
    requires Faithful(lib)
    ensures CheckedPrepare(lib, dist, sbomName, sbom, tag, commit).Some? <==>
              Preparable(lib, dist, sbomName, sbom, tag, commit) && forall name | name in dist :: SafeFilename(name)
  {
    PrepareSucceedsExactlyWhen(lib, dist, sbomName, sbom, tag, commit);
    if Prepare(lib, dist, sbomName, sbom, tag, commit).Some? {
      PrepareThenVerify(lib, dist, sbomName, sbom, tag, commit);
    }
  }

  /** With an unsafe name the manifest is written, and refused by the check that follows. */
  lemma UnsafeNameIsPrepared(lib: Library, dist: map<string, Bytes>, sbomName: string, sbom: Bytes, tag: string, commit: string)
    requires Faithful(lib) && Preparable(lib, dist, sbomName, sbom, tag, commit)
    requires exists name | name in dist :: !SafeFilename(name)
    ensures
      var p := Prepare(lib, dist, sbomName, sbom, tag, commit);
      && p.Some? && !Verify(lib, dist, sbomName, p.value.sbom, p.value.manifest, tag, commit)
      && CheckedPrepare(lib, dist, sbomName, sbom, tag, commit).None?
  {
    PrepareSucceedsExactlyWhen(lib, dist, sbomName, sbom, tag, commit);
    PrepareThenVerify(lib, dist, sbomName, sbom, tag, commit);
  }
}
