/**
 The mutating webhook for new StatefulSets (rust/operator-binary/src/webhooks/restarter_mutate_sts.rs): it compiles the
 annotation map into a JSON Patch.
 */
module RestarterWebhook {
  import opened Wrappers
  import opened Kubernetes
  import opened JsonPatch
  import opened KeyOrder
  import opened RestartFingerprint
  import DI = DelayedInit

  datatype Response = Invalid | Allowed(patch: seq<Operation>)

  const EMPTY_OBJECT := Obj(map[])

  const SPEC_PATH := "/spec"

  const METADATA_PATH := "/spec/template/metadata"

  const ANNOTATIONS_PATH := "/spec/template/metadata/annotations"

  function PathsToBeCreated(sts: StatefulSet): seq<string> {
    var metadata := Template(sts).metadata;
    (if sts.spec.None? then [SPEC_PATH] else [])
    + (if metadata.None? then [METADATA_PATH] else [])
    + (if metadata.None? || metadata.value.annotations.None? then [ANNOTATIONS_PATH] else [])
  }

  function CreateOperations(paths: seq<string>): seq<Operation> {
    if paths == [] then [] else [Add(paths[0], EMPTY_OBJECT)] + CreateOperations(paths[1..])
  }

  function AnnotationOperations(keys: seq<string>, annotations: Annotations): seq<Operation>
    requires forall key :: key in keys ==> key in annotations
  {
    if keys == [] then []
    else [Add(FromTokens(["spec", "template", "metadata", "annotations", keys[0]]), Str(annotations[keys[0]]))]
         + AnnotationOperations(keys[1..], annotations)
  }

  /** `patch` is what the handler answers with: the missing objects first, then the annotations by ascending key. */
  ghost predicate HandlerPatch(sts: StatefulSet, annotations: Annotations, patch: seq<Operation>) {
    exists keys: seq<string> ::
      && Ascending(keys) && (forall key :: key in keys <==> key in annotations)
      && patch == CreateOperations(PathsToBeCreated(sts)) + AnnotationOperations(keys, annotations)
  }

  lemma {:induction false} CreateOperationsAppend(paths: seq<string>, path: string)
    ensures CreateOperations(paths + [path]) == CreateOperations(paths) + [Add(path, EMPTY_OBJECT)]
  {
    if paths != [] {
      assert (paths + [path])[1..] == paths[1..] + [path];
      CreateOperationsAppend(paths[1..], path);
    }
  }

  lemma {:induction false} AnnotationOperationsAppend(keys: seq<string>, key: string, annotations: Annotations)
    requires key in annotations && forall k :: k in keys ==> k in annotations
    ensures AnnotationOperations(keys + [key], annotations)
            == AnnotationOperations(keys, annotations) + AnnotationOperations([key], annotations)
  {
    if keys == [] {
      assert keys + [key] == [key];
    } else {
      assert (keys + [key])[1..] == keys[1..] + [key];
      AnnotationOperationsAppend(keys[1..], key, annotations);
    }
  }

  method CollectPaths(sts: StatefulSet) returns (paths: seq<string>)
    ensures paths == PathsToBeCreated(sts)
  {
    paths := [];
    if sts.spec.None? {
      paths := paths + [SPEC_PATH];
    }
    var metadata := if sts.spec.Some? then sts.spec.value.template.metadata else None;
    if metadata.None? {
      paths := paths + [METADATA_PATH];
    }
    var existing := if metadata.Some? then metadata.value.annotations else None;
    if existing.None? {
      paths := paths + [ANNOTATIONS_PATH];
    }
  }

  method CreatePaths(paths: seq<string>) returns (patch: seq<Operation>)
    ensures patch == CreateOperations(paths)
  {
    patch := [];
    for i := 0 to |paths|
      invariant patch == CreateOperations(paths[..i])
    {
      CreateOperationsAppend(paths[..i], paths[i]);
      assert paths[..i + 1] == paths[..i] + [paths[i]];
      patch := patch + [Add(paths[i], EMPTY_OBJECT)];
    }
    assert paths[..|paths|] == paths;
  }

  method AddAnnotations(annotations: Annotations) returns (patch: seq<Operation>, ghost keys: seq<string>)
    ensures Ascending(keys) && forall key :: key in keys <==> key in annotations
    ensures |patch| == |keys| && patch == AnnotationOperations(keys, annotations)
  {
    patch, keys := [], [];
    var remaining := annotations.Keys;
    while remaining != {}
      invariant remaining <= annotations.Keys && |patch| == |keys|
      invariant forall key :: key in keys <==> key in annotations && key !in remaining
      invariant Ascending(keys) && forall key, later :: key in keys && later in remaining ==> Below(key, later)
      invariant patch == AnnotationOperations(keys, annotations)
      decreases remaining
    {
      LeastExists(remaining);
      var key :| key in remaining && forall later :: later in remaining && later != key ==> Below(key, later);
      AscendingAppend(keys, key);
      AnnotationOperationsAppend(keys, key, annotations);
      var path := FromTokens(["spec", "template", "metadata", "annotations", key]);
      assert AnnotationOperations([key], annotations) == [Add(path, Str(annotations[key]))];
      patch := patch + [Add(path, Str(annotations[key]))];
      keys := keys + [key];
      remaining := remaining - {key};
    }
  }

  method AddStsRestarterAnnotationsHandler(
    submitted: Option<StatefulSet>,
    cms: Result<Store, DI.InitDropped>,
    secrets: Result<Store, DI.InitDropped>) returns (response: Response)
    requires submitted.Some? ==> submitted.value.metadata.namespace.Some?
    ensures response.Invalid? <==> submitted.None? || cms.Err? || secrets.Err?
    ensures response.Allowed? ==>
              HandlerPatch(
                submitted.value, RestarterAnnotations(submitted.value, cms.value, secrets.value), response.patch)
  {
    hide CreateOperations, AnnotationOperations, PathsToBeCreated, RestarterAnnotations;
    if submitted.None? {
      return Invalid;
    }
    var paths := CollectPaths(submitted.value);
    var createPaths := CreatePaths(paths);
    var annotations := GetUpdatedRestarterAnnotations(submitted.value, cms, secrets);
    if annotations.Err? {
      return Invalid;
    }
    var addAnnotations, keys := AddAnnotations(annotations.value);
    response := Allowed(createPaths + addAnnotations);
  }

  /** The computed annotations determine the answer. */
  lemma OnePatchOnly(sts: StatefulSet, annotations: Annotations, patch: seq<Operation>, patch': seq<Operation>)
    requires HandlerPatch(sts, annotations, patch) && HandlerPatch(sts, annotations, patch')
    ensures patch == patch'
  {
    var keys :|
      && Ascending(keys) && (forall key :: key in keys <==> key in annotations)
      && patch == CreateOperations(PathsToBeCreated(sts)) + AnnotationOperations(keys, annotations);
    var keys' :|
      && Ascending(keys') && (forall key :: key in keys' <==> key in annotations)
      && patch' == CreateOperations(PathsToBeCreated(sts)) + AnnotationOperations(keys', annotations);
    AscendingOnce(keys, keys');
  }
}
