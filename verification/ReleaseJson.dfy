/** JSON trees as the release scripts handle them, and the identity of one release. */
module ReleaseJson {

  /** Numbers with a fraction are not part of this model. */
  datatype Json =
    | Null
    | Bool(b: bool)
    | Int(n: int)
    | Str(s: string)
    | Arr(items: seq<Json>)
    | Obj(fields: map<string, Json>)

  const PROJECT := "roam-code"
  const SCHEMA := "roam.release-artifacts/v1"

  datatype ArtifactKind = Wheel | Sdist

  /** One distribution record; `sha256` is the hexadecimal digest. */
  datatype Artifact = Artifact(filename: string, kind: ArtifactKind, provenance: string, sha256: string, size: int)

  function Get(o: map<string, Json>, key: string, default: Json): Json {
    if key in o then o[key] else default
  }

  predicate IsSeparator(c: char) {
    c == '-' || c == '_' || c == '.'
  }

  function Lower(c: char): char {
    if 'A' <= c <= 'Z' then c - 'A' + 'a' else c
  }

  /** `_canonical_project_name`: runs of separators become one dash, letters become lower case. */
  function CanonicalProjectName(s: string): string {
    if s == "" then ""
    else if !IsSeparator(s[0]) then [Lower(s[0])] + CanonicalProjectName(s[1..])
    else if |s| > 1 && IsSeparator(s[1]) then CanonicalProjectName(s[1..])
    else "-" + CanonicalProjectName(s[1..])
  }
}
