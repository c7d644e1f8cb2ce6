/**
 `_bind_sbom` and `_verify_sbom_bindings` of `scripts/release_artifacts.py`: the first writes the
 wheel digest into every matching component and eleven properties into the metadata, the second
 checks them.
 */
module SbomBinding {
  import opened Wrappers
  import opened ReleaseJson

  /** What one release writes into its SBOM: the wheel digest and the owned properties. */
  datatype Binding = Binding(version: string, digest: string, properties: seq<(string, string)>)

  predicate DistinctNames(ps: seq<(string, string)>) {
    forall i, j | 0 <= i < j < |ps| :: ps[i].0 != ps[j].0
  }

  type Object = map<string, Json>

  // ---- components ---------------------------------------------------------------------------------

  predicate IsMatch(component: Json, b: Binding) {
    && component.Obj?
    && Get(component.fields, "name", Str("")).Str?
    && CanonicalProjectName(Get(component.fields, "name", Str("")).s) == PROJECT
    && Get(component.fields, "version", Str("")) == Str(b.version)
  }

  function Sha256Entry(b: Binding): Json {
    Obj(map["alg" := Str("SHA-256"), "content" := Str(b.digest)])
  }

  predicate IsSha256(item: Json) {
    item.Obj? && Get(item.fields, "alg", Null) == Str("SHA-256")
  }

  function Filter<T>(xs: seq<T>, p: T -> bool): (r: seq<T>)
    ensures forall x | x in r :: x in xs && p(x)
  {
    if xs == [] then [] else (if p(xs[0]) then [xs[0]] else []) + Filter(xs[1..], p)
  }

  function OtherHashes(items: seq<Json>): seq<Json> {
    Filter(items, item => !IsSha256(item))
  }

  function Sha256Hashes(items: seq<Json>): seq<Json> {
    Filter(items, IsSha256)
  }

  /** A component after binding; `None` if its hashes are not an array. */
  function BindComponent(component: Json, b: Binding): Option<Json> {
    if !IsMatch(component, b) then Some(component)
    else match Get(component.fields, "hashes", Arr([]))
      case Arr(items) => Some(Obj(component.fields["hashes" := Arr(OtherHashes(items) + [Sha256Entry(b)])]))
      case _ => None
  }

  function BindComponents(components: seq<Json>, b: Binding): Option<seq<Json>> {
    if components == [] then Some([])
    else match (BindComponents(components[..|components| - 1], b), BindComponent(components[|components| - 1], b))
      case (Some(init), Some(last)) => Some(init + [last])
      case _ => None
  }

  /** The array of components, or nothing if there is no such array. */
  function ComponentsOf(document: Object): seq<Json> {
    match Get(document, "components", Arr([]))
    case Arr(items) => items
    case _ => []
  }

  /** `metadata.component`, if there is one. */
  function MetadataComponent(document: Object): Option<Json> {
    match Get(document, "metadata", Null)
    case Obj(metadata) => if Get(metadata, "component", Null) != Null then Some(metadata["component"]) else None
    case _ => None
  }

  predicate HasMatch(document: Object, b: Binding) {
    || (exists c | c in ComponentsOf(document) :: IsMatch(c, b))
    || (MetadataComponent(document).Some? && IsMatch(MetadataComponent(document).value, b))
  }

  // ---- properties ---------------------------------------------------------------------------------

  predicate Owned(name: Json, b: Binding) {
    name.Str? && exists p | p in b.properties :: p.0 == name.s
  }

  predicate IsForeign(item: Json, b: Binding) {
    item.Obj? ==> !Owned(Get(item.fields, "name", Null), b)
  }

  function Foreign(items: seq<Json>, b: Binding): seq<Json> {
    Filter(items, item => IsForeign(item, b))
  }

  function Property(p: (string, string)): Json {
    Obj(map["name" := Str(p.0), "value" := Str(p.1)])
  }

  function Properties(ps: seq<(string, string)>): (r: seq<Json>)
    ensures |r| == |ps| && forall i | 0 <= i < |ps| :: r[i] == Property(ps[i])
  {
    seq(|ps|, i requires 0 <= i < |ps| => Property(ps[i]))
  }

  /** Objects whose name can be looked up in a set: an array or object as a name is a type error. */
  predicate AllProperties(items: seq<Json>) {
    forall item | item in items ::
      item.Obj? && !Get(item.fields, "name", Null).Arr? && !Get(item.fields, "name", Null).Obj?
  }

  /** The metadata after binding; `None` if `properties` is not an array of properties. */
  function BindProperties(metadata: Object, b: Binding): Option<Object> {
    match Get(metadata, "properties", Arr([]))
    case Arr(items) =>
      if AllProperties(items)
      then Some(metadata["properties" := Arr(Foreign(items, b) + Properties(b.properties))])
      else None
    case _ => None
  }

  // ---- the two documents ----------------------------------------------------------------------------

  function BindMetadataComponent(document: Object, b: Binding): Option<Object> {
    match MetadataComponent(document)
    case None => Some(document)
    case Some(component) =>
      match BindComponent(component, b)
      case Some(bound) => Some(document["metadata" := Obj(document["metadata"].fields["component" := bound])])
      case None => None
  }

  /** `_bind_sbom` on the parsed document; `None` is a refusal. */
  function Bind(document: Object, b: Binding): Option<Object> {
    if !HasMatch(document, b) then None
    else match BindComponents(ComponentsOf(document), b)
      case None => None
      case Some(components) =>
        var d1 := if "components" in document && document["components"].Arr?
                  then document["components" := Arr(components)] else document;
        match BindMetadataComponent(d1, b)
        case None => None
        case Some(d2) =>
          match Get(d2, "metadata", Obj(map[]))
          case Obj(metadata) =>
            (match BindProperties(metadata, b)
             case Some(bound) => Some(d2["metadata" := Obj(bound)])
             case None => None)
          case _ => None
  }

  predicate ComponentVerified(component: Json, b: Binding) {
    IsMatch(component, b) ==>
      && Get(component.fields, "hashes", Arr([])).Arr?
      && Sha256Hashes(Get(component.fields, "hashes", Arr([])).items) == [Sha256Entry(b)]
  }

  /** The values of the properties called `name`, in order. */
  function ValuesOf(items: seq<Json>, name: string): seq<Json> {
    if items == [] then []
    else (if items[0].Obj? && Get(items[0].fields, "name", Null) == Str(name)
          then [Get(items[0].fields, "value", Null)] else [])
         + ValuesOf(items[1..], name)
  }

  /** `_verify_sbom_bindings` accepts the document. */
  predicate Verified(document: Object, b: Binding) {
    && HasMatch(document, b)
    && (forall c | c in ComponentsOf(document) :: ComponentVerified(c, b))
    && (MetadataComponent(document).Some? ==> ComponentVerified(MetadataComponent(document).value, b))
    && Get(document, "metadata", Null).Obj?
    && Get(document["metadata"].fields, "properties", Null).Arr?
    && forall p | p in b.properties ::
         ValuesOf(document["metadata"].fields["properties"].items, p.0) == [Str(p.1)]
  }
}
