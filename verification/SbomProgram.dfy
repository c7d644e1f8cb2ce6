/**
 `_bind_sbom` step by step: it refuses exactly the documents that have no matching component or a
 part of the wrong shape, and what it returns passes the verifier and keeps the rest.
 */
module SbomProgram {
  import opened Wrappers
  import opened ReleaseJson
  import opened SbomBinding
  import opened SbomTheorems

  lemma {:induction false} RefusedComponent(components: seq<Json>, i: nat, b: Binding)
    requires i <= |components| && BindComponents(components[..i], b).None?
    ensures BindComponents(components, b).None?
    decreases |components|
  {
    if i < |components| {
      assert components[..|components| - 1][..i] == components[..i];
      RefusedComponent(components[..|components| - 1], i, b);
    } else {
      assert components[..i] == components;
    }
  }

  /** The loop over the matching components. */
  method BindEach(components: seq<Json>, b: Binding) returns (bound: Option<seq<Json>>)
    ensures bound == BindComponents(components, b)
  {
    var done: seq<Json> := [];
    for i := 0 to |components|
      invariant BindComponents(components[..i], b) == Some(done)
    {
      var upTo := components[..i + 1];
      assert upTo[..|upTo| - 1] == components[..i];
      match BindComponent(components[i], b) {
        case Some(component) => done := done + [component];
        case None =>
          RefusedComponent(components, i + 1, b);
          return None;
      }
    }
    assert components[..|components|] == components;
    bound := Some(done);
  }

  method BindSbom(document: Object, b: Binding) returns (bound: Option<Object>)
    ensures bound.Some? <==> Bindable(document, b)
    ensures bound.Some? ==> Kept(document, bound.value, b)
    ensures bound.Some? && DistinctNames(b.properties) ==> Verified(bound.value, b)
    ensures bound == Bind(document, b)
  {
    BindSucceedsExactlyWhen(document, b);
    if Bind(document, b).Some? {
      BindKeepsTheRest(document, b);
      if DistinctNames(b.properties) {
        BindThenVerify(document, b);
      }
    }
    if !HasMatch(document, b) {
      return None;
    }
    var components := BindEach(ComponentsOf(document), b);
    if components.None? {
      return None;
    }
    var d := document;
    if "components" in d && d["components"].Arr? {
      d := d["components" := Arr(components.value)];
    }
    var d2 := BindMetadataComponent(d, b);
    if d2.None? {
      return None;
    }
    match Get(d2.value, "metadata", Obj(map[])) {
      case Obj(metadata) =>
        var properties := BindProperties(metadata, b);
        if properties.None? {
          return None;
        }
        bound := Some(d2.value["metadata" := Obj(properties.value)]);
      case _ =>
        bound := None;
    }
  }
}
