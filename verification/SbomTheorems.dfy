/** Binding an SBOM satisfies the verifier, changes nothing it does not own, and is idempotent. */
module SbomTheorems {
  import opened Wrappers
  import opened ReleaseJson
  import opened SbomBinding
  import opened Search

  // ---- filtering ------------------------------------------------------------------------------------

  lemma {:induction false} FilterAppend<T>(xs: seq<T>, ys: seq<T>, p: T -> bool)
    ensures Filter(xs + ys, p) == Filter(xs, p) + Filter(ys, p)
  {
    if xs == [] {
      assert xs + ys == ys;
    } else {
      var rest := xs[1..];
      FilterAppend(rest, ys, p);
      assert (xs + ys)[0] == xs[0] && (xs + ys)[1..] == rest + ys;
      Associate(if p(xs[0]) then [xs[0]] else [], Filter(rest, p), Filter(ys, p));
    }
  }

  lemma {:induction false} FilterAll<T>(xs: seq<T>, p: T -> bool)
    requires forall x | x in xs :: p(x)
    ensures Filter(xs, p) == xs
  {
    if xs != [] { FilterAll(xs[1..], p); }
  }

  lemma {:induction false} FilterNone<T>(xs: seq<T>, p: T -> bool)
    requires forall x | x in xs :: !p(x)
    ensures Filter(xs, p) == []
  {
    if xs != [] { FilterNone(xs[1..], p); }
  }

  // ---- hashes ---------------------------------------------------------------------------------------

  lemma BoundHashes(items: seq<Json>, b: Binding)
    ensures Sha256Hashes(OtherHashes(items) + [Sha256Entry(b)]) == [Sha256Entry(b)]
    ensures OtherHashes(OtherHashes(items) + [Sha256Entry(b)]) == OtherHashes(items)
  {
    var others, entry := OtherHashes(items), Sha256Entry(b);
    var foreign := (item: Json) => !IsSha256(item);
    assert IsSha256(entry);
    FilterAppend(others, [entry], IsSha256);
    FilterNone(others, IsSha256);
    FilterAll([entry], IsSha256);
    FilterAppend(others, [entry], foreign);
    FilterAll(others, foreign);
    FilterNone([entry], foreign);
    assert OtherHashes(others + [entry]) == Filter(others + [entry], foreign);
  }

  // ---- components -----------------------------------------------------------------------------------

  /** Same object but for its hashes, and there only the SHA-256 entries differ. */
  ghost predicate SameButSha256(before: Json, after: Json) {
    && before.Obj? && after.Obj?
    && after.fields - {"hashes"} == before.fields - {"hashes"}
    && Get(before.fields, "hashes", Arr([])).Arr? && Get(after.fields, "hashes", Null).Arr?
    && OtherHashes(after.fields["hashes"].items) == OtherHashes(Get(before.fields, "hashes", Arr([])).items)
  }

  lemma BoundComponent(c: Json, b: Binding)
    requires BindComponent(c, b).Some?
    ensures
      var r := BindComponent(c, b).value;
      && (IsMatch(r, b) <==> IsMatch(c, b))
      && ComponentVerified(r, b)
      && BindComponent(r, b) == Some(r)
      && (if IsMatch(c, b) then SameButSha256(c, r) else r == c)
  {
    if IsMatch(c, b) {
      var items := Get(c.fields, "hashes", Arr([])).items;
      BoundHashes(items, b);
      var r := BindComponent(c, b).value;
      assert r.fields["hashes"] == Arr(OtherHashes(items) + [Sha256Entry(b)]);
      assert r.fields["hashes" := r.fields["hashes"]] == r.fields;
    }
  }

  lemma {:induction false} BoundComponents(cs: seq<Json>, b: Binding)
    requires BindComponents(cs, b).Some?
    ensures
      var rs := BindComponents(cs, b).value;
      && |rs| == |cs|
      && forall i | 0 <= i < |cs| :: BindComponent(cs[i], b) == Some(rs[i])
    decreases |cs|
  {
    if cs != [] { BoundComponents(cs[..|cs| - 1], b); }
  }

  lemma {:induction false} BoundComponentsAreFixed(rs: seq<Json>, b: Binding)
    requires forall i | 0 <= i < |rs| :: BindComponent(rs[i], b) == Some(rs[i])
    ensures BindComponents(rs, b) == Some(rs)
    decreases |rs|
  {
    if rs != [] {
      BoundComponentsAreFixed(rs[..|rs| - 1], b);
      assert rs == rs[..|rs| - 1] + [rs[|rs| - 1]];
    }
  }

  // ---- properties -------------------------------------------------------------------------------------

  lemma {:induction false} ValuesAppend(xs: seq<Json>, ys: seq<Json>, name: string)
    ensures ValuesOf(xs + ys, name) == ValuesOf(xs, name) + ValuesOf(ys, name)
  {
    if xs == [] {
      assert xs + ys == ys;
    } else {
      ValuesAppend(xs[1..], ys, name);
      assert (xs + ys)[1..] == xs[1..] + ys;
      ValuesCons(xs, name);
      ValuesCons(xs + ys, name);
    }
  }

  lemma ValuesCons(xs: seq<Json>, name: string)
    requires xs != []
    ensures ValuesOf(xs, name) == ValuesOf([xs[0]], name) + ValuesOf(xs[1..], name)
  {
    assert [xs[0]][1..] == [];
  }

  lemma {:induction false} NoValues(items: seq<Json>, name: string)
    requires forall item | item in items :: item.Obj? ==> Get(item.fields, "name", Null) != Str(name)
    ensures ValuesOf(items, name) == []
  {
    if items != [] { NoValues(items[1..], name); }
  }

  lemma {:induction false} OneValue(ps: seq<(string, string)>, k: nat)
    requires DistinctNames(ps) && k < |ps|
    ensures ValuesOf(Properties(ps), ps[k].0) == [Str(ps[k].1)]
  {
    var items := Properties(ps);
    var before, after := items[..k], items[k + 1..];
    assert items == before + [Property(ps[k])] + after;
    ValuesAppend(before + [Property(ps[k])], after, ps[k].0);
    ValuesAppend(before, [Property(ps[k])], ps[k].0);
    forall i | 0 <= i < |ps| && i != k ensures ps[i].0 != ps[k].0 {
      if i < k { assert ps[i].0 != ps[k].0; } else { assert ps[k].0 != ps[i].0; }
    }
    NoValues(before, ps[k].0);
    NoValues(after, ps[k].0);
    assert ValuesOf([Property(ps[k])], ps[k].0) == [Str(ps[k].1)] + ValuesOf([], ps[k].0);
  }

  lemma OwnedValues(foreign: seq<Json>, b: Binding, p: (string, string))
    requires DistinctNames(b.properties) && p in b.properties && forall item | item in foreign :: IsForeign(item, b)
    ensures ValuesOf(foreign + Properties(b.properties), p.0) == [Str(p.1)]
  {
    var k :| 0 <= k < |b.properties| && b.properties[k] == p;
    ValuesAppend(foreign, Properties(b.properties), p.0);
    NoValues(foreign, p.0);
    OneValue(b.properties, k);
  }

  lemma BoundPropertiesAreProperties(metadata: Object, b: Binding)
    requires BindProperties(metadata, b).Some?
    ensures AllProperties(BindProperties(metadata, b).value["properties"].items)
  {
  }

  lemma PropertiesKept(metadata: Object, b: Binding)
    requires BindProperties(metadata, b).Some?
    ensures
      var r := BindProperties(metadata, b).value;
      && r - {"properties"} == metadata - {"properties"}
      && Get(r, "properties", Null).Arr?
      && Foreign(r["properties"].items, b) == Foreign(Get(metadata, "properties", Arr([])).items, b)
      && r["properties"].items == Foreign(r["properties"].items, b) + Properties(b.properties)
      && AllProperties(r["properties"].items)
  {
    BoundPropertiesAreProperties(metadata, b);
    var items := Get(metadata, "properties", Arr([])).items;
    assert BindProperties(metadata, b).value["properties"] == Arr(Foreign(items, b) + Properties(b.properties));
    RebindProperties(items, b);
  }

  lemma BoundProperties(metadata: Object, b: Binding)
    requires DistinctNames(b.properties) && BindProperties(metadata, b).Some?
    ensures
      var r := BindProperties(metadata, b).value;
      && Get(r, "properties", Null).Arr?
      && (forall p | p in b.properties :: ValuesOf(r["properties"].items, p.0) == [Str(p.1)])
  {
    var foreign := Foreign(Get(metadata, "properties", Arr([])).items, b);
    assert BindProperties(metadata, b).value["properties"] == Arr(foreign + Properties(b.properties));
    forall p | p in b.properties { OwnedValues(foreign, b, p); }
  }

  /** Binding properties that are already bound changes nothing. */
  lemma BoundPropertiesAreFixed(r: Object, items: seq<Json>, b: Binding)
    requires AllProperties(items) && Get(r, "properties", Null) == Arr(Foreign(items, b) + Properties(b.properties))
    requires AllProperties(r["properties"].items)
    ensures BindProperties(r, b) == Some(r)
  {
    RebindProperties(items, b);
    assert r["properties" := r["properties"]] == r;
  }

  lemma RebindProperties(items: seq<Json>, b: Binding)
    ensures Foreign(Foreign(items, b) + Properties(b.properties), b) == Foreign(items, b)
  {
    var foreign, owned := Foreign(items, b), Properties(b.properties);
    var p := (item: Json) => IsForeign(item, b);
    forall item | item in owned ensures !IsForeign(item, b) {
      var i :| 0 <= i < |owned| && owned[i] == item;
      assert b.properties[i] in b.properties;
    }
    FilterAppend(foreign, owned, p);
    FilterAll(foreign, p);
    FilterNone(owned, p);
    assert Foreign(foreign + owned, b) == Filter(foreign + owned, p);
  }

  // ---- the whole document -------------------------------------------------------------------------------

  /** The metadata that binding starts from. */
  function MetadataOf(d: Object): Json {
    Get(d, "metadata", Obj(map[]))
  }

  /** Everything that binding leaves alone, and how it changes the rest. */
  ghost predicate BoundFrom(d: Object, r: Object, b: Binding) {
    && (forall k | k != "components" && k != "metadata" :: (k in r <==> k in d) && (k in d ==> r[k] == d[k]))
    && ("components" in r <==> "components" in d)
    && ("components" in d && !d["components"].Arr? ==> r["components"] == d["components"])
    && ComponentsBoundFrom(ComponentsOf(d), ComponentsOf(r), b)
    && MetadataOf(d).Obj? && "metadata" in r && r["metadata"].Obj?
    && MetadataBoundFrom(MetadataOf(d).fields, r["metadata"].fields, b)
    && MetadataComponentBoundFrom(d, r, b)
  }

  ghost predicate ComponentsBoundFrom(cs: seq<Json>, rs: seq<Json>, b: Binding) {
    |rs| == |cs| && forall i | 0 <= i < |cs| :: BindComponent(cs[i], b) == Some(rs[i])
  }

  ghost predicate MetadataComponentBoundFrom(d: Object, r: Object, b: Binding) {
    match MetadataComponent(d)
    case Some(c) => MetadataComponent(r).Some? && BindComponent(c, b) == Some(MetadataComponent(r).value)
    case None => MetadataComponent(r).None?
  }

  ghost predicate MetadataBoundFrom(before: Object, after: Object, b: Binding) {
    && after - {"component", "properties"} == before - {"component", "properties"}
    && BindProperties(before, b).Some?
    && Get(after, "properties", Null) == BindProperties(before, b).value["properties"]
  }

  lemma MetadataShape(d1: Object, b: Binding, d2: Object, bound: Object)
    requires BindMetadataComponent(d1, b) == Some(d2) && MetadataOf(d2).Obj?
    requires BindProperties(MetadataOf(d2).fields, b) == Some(bound)
    ensures
      var r := d2["metadata" := Obj(bound)];
      && MetadataOf(d1).Obj?
      && MetadataBoundFrom(MetadataOf(d1).fields, bound, b)
      && MetadataComponentBoundFrom(d1, r, b)
  {
    var before, between := MetadataOf(d1).fields, MetadataOf(d2).fields;
    assert between - {"component"} == before - {"component"};
    assert Get(between, "properties", Arr([])) == Get(before, "properties", Arr([]));
  }

  function WithComponents(d: Object, components: seq<Json>): Object {
    if "components" in d && d["components"].Arr? then d["components" := Arr(components)] else d
  }

  /** The three steps of a successful binding. */
  lemma BindSteps(d: Object, b: Binding) returns (components: seq<Json>, d2: Object, bound: Object)
    requires Bind(d, b).Some?
    ensures BindComponents(ComponentsOf(d), b) == Some(components)
    ensures BindMetadataComponent(WithComponents(d, components), b) == Some(d2) && MetadataOf(d2).Obj?
    ensures BindProperties(MetadataOf(d2).fields, b) == Some(bound)
    ensures Bind(d, b) == Some(d2["metadata" := Obj(bound)])
  {
    hide HasMatch, BindComponents, BindMetadataComponent, BindProperties;
    components := BindComponents(ComponentsOf(d), b).value;
    d2 := BindMetadataComponent(WithComponents(d, components), b).value;
    bound := BindProperties(MetadataOf(d2).fields, b).value;
  }

  /** What the steps leave of the outermost object. */
  lemma OuterShape(d: Object, components: seq<Json>, b: Binding, d2: Object, bound: Object)
    requires BindMetadataComponent(WithComponents(d, components), b) == Some(d2) && |components| == |ComponentsOf(d)|
    ensures
      var r := d2["metadata" := Obj(bound)];
      && (forall k | k != "components" && k != "metadata" :: (k in r <==> k in d) && (k in d ==> r[k] == d[k]))
      && ("components" in r <==> "components" in d)
      && ("components" in d && !d["components"].Arr? ==> r["components"] == d["components"])
      && ComponentsOf(r) == components
      && MetadataOf(WithComponents(d, components)) == MetadataOf(d)
      && MetadataComponent(WithComponents(d, components)) == MetadataComponent(d)
  {
    hide BindComponent;
  }

  lemma BindShape(d: Object, b: Binding)
    requires Bind(d, b).Some?
    ensures BoundFrom(d, Bind(d, b).value, b)
  {
    hide Bind, BindComponents, BindComponent, BindMetadataComponent, BindProperties, ComponentsOf, MetadataOf, MetadataComponent;
    var components, d2, bound := BindSteps(d, b);
    BoundComponents(ComponentsOf(d), b);
    MetadataShape(WithComponents(d, components), b, d2, bound);
    OuterShape(d, components, b, d2, bound);
  }

  lemma MatchesSurvive(d: Object, r: Object, b: Binding)
    requires BoundFrom(d, r, b) && HasMatch(d, b)
    ensures HasMatch(r, b)
  {
    var cs, rs := ComponentsOf(d), ComponentsOf(r);
    if c :| c in cs && IsMatch(c, b) {
      var i :| 0 <= i < |cs| && cs[i] == c;
      BoundComponent(cs[i], b);
      assert rs[i] in rs;
    } else {
      BoundComponent(MetadataComponent(d).value, b);
    }
  }

  /** Main result: whatever document binding accepts, the verifier accepts its result. */
  lemma BindThenVerify(d: Object, b: Binding)
    requires DistinctNames(b.properties) && Bind(d, b).Some?
    ensures Verified(Bind(d, b).value, b)
  {
    var r := Bind(d, b).value;
    BindShape(d, b);
    MatchesSurvive(d, r, b);
    forall c | c in ComponentsOf(r) ensures ComponentVerified(c, b) {
      var i :| 0 <= i < |ComponentsOf(r)| && ComponentsOf(r)[i] == c;
      BoundComponent(ComponentsOf(d)[i], b);
    }
    if MetadataComponent(d).Some? { BoundComponent(MetadataComponent(d).value, b); }
    BoundProperties(MetadataOf(d).fields, b);
  }

  lemma SameEntry(m: Object, key: string)
    requires key in m
    ensures m[key := m[key]] == m
  {
  }

  lemma FixedDocument(r: Object, b: Binding)
    requires HasMatch(r, b) && BindComponents(ComponentsOf(r), b) == Some(ComponentsOf(r))
    requires BindMetadataComponent(r, b) == Some(r)
    requires MetadataOf(r).Obj? && "metadata" in r && BindProperties(MetadataOf(r).fields, b) == Some(MetadataOf(r).fields)
    ensures Bind(r, b) == Some(r)
  {
    SameEntry(r, "metadata");
    if "components" in r { SameEntry(r, "components"); }
  }

  lemma FixedMetadataComponent(r: Object, b: Binding)
    requires MetadataComponent(r).Some? ==>
               BindComponent(MetadataComponent(r).value, b) == Some(MetadataComponent(r).value)
    ensures BindMetadataComponent(r, b) == Some(r)
  {
    if MetadataComponent(r).Some? {
      var metadata := r["metadata"].fields;
      assert metadata["component" := metadata["component"]] == metadata;
      assert r["metadata" := r["metadata"]] == r;
    }
  }

  lemma BoundComponentsOf(d: Object, r: Object, b: Binding)
    requires BoundFrom(d, r, b)
    ensures BindComponents(ComponentsOf(r), b) == Some(ComponentsOf(r))
    ensures MetadataComponent(r).Some? ==>
              BindComponent(MetadataComponent(r).value, b) == Some(MetadataComponent(r).value)
  {
    var rs := ComponentsOf(r);
    forall i | 0 <= i < |rs| ensures BindComponent(rs[i], b) == Some(rs[i]) {
      BoundComponent(ComponentsOf(d)[i], b);
    }
    BoundComponentsAreFixed(rs, b);
    if MetadataComponent(d).Some? { BoundComponent(MetadataComponent(d).value, b); }
  }

  /** Binding a bound document changes nothing. */
  lemma BindIsIdempotent(d: Object, b: Binding)
    requires Bind(d, b).Some?
    ensures Bind(Bind(d, b).value, b) == Bind(d, b)
  {
    var r := Bind(d, b).value;
    BindShape(d, b);
    MatchesSurvive(d, r, b);
    BoundComponentsOf(d, r, b);
    FixedMetadataComponent(r, b);
    var before := MetadataOf(d).fields;
    PropertiesKept(before, b);
    BoundPropertiesAreFixed(MetadataOf(r).fields, Get(before, "properties", Arr([])).items, b);
    FixedDocument(r, b);
  }

  // ---- what is kept, and what is refused -----------------------------------------------------------------

  /** A component after binding: only a match changes, and there only the SHA-256 entry, now the last. */
  ghost predicate ComponentKept(before: Json, after: Json, b: Binding) {
    if IsMatch(before, b) then
      && SameButSha256(before, after)
      && after.fields["hashes"].items == OtherHashes(after.fields["hashes"].items) + [Sha256Entry(b)]
    else after == before
  }

  ghost predicate ComponentsKept(d: Object, r: Object, b: Binding) {
    && ("components" in r <==> "components" in d)
    && ("components" in d && !d["components"].Arr? ==> r["components"] == d["components"])
    && |ComponentsOf(r)| == |ComponentsOf(d)|
    && (forall i | 0 <= i < |ComponentsOf(d)| :: ComponentKept(ComponentsOf(d)[i], ComponentsOf(r)[i], b))
    && (MetadataComponent(r).Some? <==> MetadataComponent(d).Some?)
    && (MetadataComponent(d).Some? ==> ComponentKept(MetadataComponent(d).value, MetadataComponent(r).value, b))
  }

  /** Foreign properties stay, in order and before the owned ones; other metadata stays as it was. */
  ghost predicate MetadataKept(before: Json, after: Json, b: Binding) {
    && before.Obj? && after.Obj?
    && after.fields - {"component", "properties"} == before.fields - {"component", "properties"}
    && Get(before.fields, "properties", Arr([])).Arr? && Get(after.fields, "properties", Null).Arr?
    && Foreign(after.fields["properties"].items, b) == Foreign(Get(before.fields, "properties", Arr([])).items, b)
    && after.fields["properties"].items == Foreign(after.fields["properties"].items, b) + Properties(b.properties)
  }

  ghost predicate Kept(d: Object, r: Object, b: Binding) {
    && (forall k | k != "components" && k != "metadata" :: (k in r <==> k in d) && (k in d ==> r[k] == d[k]))
    && ComponentsKept(d, r, b)
    && "metadata" in r && MetadataKept(MetadataOf(d), r["metadata"], b)
  }

  lemma KeptComponent(c: Json, b: Binding)
    requires BindComponent(c, b).Some?
    ensures ComponentKept(c, BindComponent(c, b).value, b)
  {
    BoundComponent(c, b);
    if IsMatch(c, b) {
      BoundHashes(Get(c.fields, "hashes", Arr([])).items, b);
    }
  }

  lemma ComponentsAreKept(d: Object, r: Object, b: Binding)
    requires BoundFrom(d, r, b)
    ensures ComponentsKept(d, r, b)
  {
    forall i | 0 <= i < |ComponentsOf(d)| ensures ComponentKept(ComponentsOf(d)[i], ComponentsOf(r)[i], b) {
      KeptComponent(ComponentsOf(d)[i], b);
    }
    if MetadataComponent(d).Some? { KeptComponent(MetadataComponent(d).value, b); }
  }

  /**
   Binding keeps what it does not own: every other field, every other component, every field of a
   bound component but its hashes, its other hashes, the foreign properties in order and all other
   metadata. That includes the component inside the metadata.
   */
  lemma BindKeepsTheRest(d: Object, b: Binding)
    requires Bind(d, b).Some?
    ensures Kept(d, Bind(d, b).value, b)
  {
    hide Bind;
    BindShape(d, b);
    ComponentsAreKept(d, Bind(d, b).value, b);
    PropertiesKept(MetadataOf(d).fields, b);
  }

  predicate ArrayOrAbsent(o: Object, key: string) {
    key in o ==> o[key].Arr?
  }

  predicate Hashable(component: Json, b: Binding) {
    IsMatch(component, b) ==> ArrayOrAbsent(component.fields, "hashes")
  }

  /** What the document must be like: a match, and every part that binding writes to of the right shape. */
  predicate Bindable(d: Object, b: Binding) {
    && HasMatch(d, b)
    && (forall c | c in ComponentsOf(d) :: Hashable(c, b))
    && (MetadataComponent(d).Some? ==> Hashable(MetadataComponent(d).value, b))
    && ("metadata" in d ==> d["metadata"].Obj?)
    && ArrayOrAbsent(MetadataOf(d).fields, "properties")
    && AllProperties(Get(MetadataOf(d).fields, "properties", Arr([])).items)
  }

  lemma {:induction false} ComponentsBindExactlyWhen(cs: seq<Json>, b: Binding)
    ensures BindComponents(cs, b).Some? <==> forall c | c in cs :: Hashable(c, b)
    decreases |cs|
  {
    if cs != [] {
      var init, last := cs[..|cs| - 1], cs[|cs| - 1];
      ComponentsBindExactlyWhen(init, b);
      assert BindComponent(last, b).Some? <==> Hashable(last, b);
      assert forall c :: c in cs <==> c in init || c == last by { assert cs == init + [last]; }
    }
  }

  lemma MetadataComponentKeepsProperties(d1: Object, b: Binding)
    requires BindMetadataComponent(d1, b).Some?
    ensures
      var d2 := BindMetadataComponent(d1, b).value;
      && (MetadataOf(d2).Obj? <==> MetadataOf(d1).Obj?)
      && (MetadataOf(d1).Obj? ==>
            (BindProperties(MetadataOf(d2).fields, b).Some? <==> BindProperties(MetadataOf(d1).fields, b).Some?))
  {
    if MetadataOf(d1).Obj? {
      var before, between := MetadataOf(d1).fields, MetadataOf(BindMetadataComponent(d1, b).value).fields;
      assert Get(between, "properties", Arr([])) == Get(before, "properties", Arr([]));
    }
  }

  /** Exactly these documents are bound; every other one is refused. */
  lemma BindSucceedsExactlyWhen(d: Object, b: Binding)
    ensures Bind(d, b).Some? <==> Bindable(d, b)
  {
    hide PROJECT, OtherHashes, AllProperties, IsForeign, Filter;
    ComponentsBindExactlyWhen(ComponentsOf(d), b);
    if HasMatch(d, b) && BindComponents(ComponentsOf(d), b).Some? {
      var components := BindComponents(ComponentsOf(d), b).value;
      var d1 := if "components" in d && d["components"].Arr? then d["components" := Arr(components)] else d;
      assert MetadataComponent(d1) == MetadataComponent(d) && MetadataOf(d1) == MetadataOf(d);
      if BindMetadataComponent(d1, b).Some? {
        MetadataComponentKeepsProperties(d1, b);
      }
    }
  }
}
