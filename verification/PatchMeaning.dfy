/**
 What the webhook's patch means (rust/operator-binary/src/webhooks/restarter_mutate_sts.rs): applied by the API server
 to the submitted document, it overlays the computed annotations on the Pod template's.
 */
module PatchMeaning {
  import opened Wrappers
  import opened Kubernetes
  import opened JsonPatch
  import opened KeyOrder
  import opened RestartFingerprint
  import opened RestarterWebhook
  import opened StatefulSetDecoding

  function MembersAt(m: Members, key: string): Members {
    if key in m && m[key].Obj? then m[key].members else map[]
  }

  /** The document has an object at `/spec/template`. */
  predicate HasTemplate(doc: Json) {
    doc.Obj? && "spec" in doc.members && doc.members["spec"].Obj?
    && "template" in doc.members["spec"].members && doc.members["spec"].members["template"].Obj?
  }

  function WithTemplate(doc: Json, template: Json): Json
    requires HasTemplate(doc)
  {
    var spec := doc.members["spec"].members;
    Obj(doc.members["spec" := Obj(spec["template" := template])])
  }

  function TemplateOf(doc: Json): Members
    requires HasTemplate(doc)
  {
    doc.members["spec"].members["template"].members
  }

  function AsJson(annotations: Annotations): Members {
    map key | key in annotations :: Str(annotations[key])
  }

  /** The template with its annotations overlaid and everything else as it was. */
  function OverlayTemplate(template: Members, annotations: Annotations): Members {
    var metadata := MembersAt(template, "metadata");
    var overlaid := MembersAt(metadata, "annotations") + AsJson(annotations);
    template["metadata" := Obj(metadata["annotations" := Obj(overlaid)])]
  }

  function OverlayDocument(doc: Json, annotations: Annotations): Json
    requires HasTemplate(doc)
  {
    WithTemplate(doc, Obj(OverlayTemplate(TemplateOf(doc), annotations)))
  }

  /** The same overlay on the typed object. */
  function Overlay(sts: StatefulSet, annotations: Annotations): StatefulSet {
    WithTemplateAnnotations(sts, TemplateAnnotations(sts) + annotations)
  }

  predicate Plain(token: string) {
    '/' !in token && '~' !in token
  }

  lemma ParseThree(a: string, b: string, c: string)
    requires Plain(a) && Plain(b) && Plain(c)
    ensures Parse("/" + a + "/" + (b + "/" + c)) == Some([a, b, c])
  {
    ParsePlain(c, "");
    ParsePlain(b, c);
    assert "/" + b + "/" + c == "/" + (b + "/" + c);
    assert [b] + [c] == [b, c];
    ParsePlain(a, b + "/" + c);
    assert [a] + [b, c] == [a, b, c];
  }

  lemma ParseFour(a: string, b: string, c: string, d: string)
    requires Plain(a) && Plain(b) && Plain(c) && Plain(d)
    ensures Parse("/" + a + "/" + (b + "/" + (c + "/" + d))) == Some([a, b, c, d])
  {
    ParseThree(b, c, d);
    var rest := b + "/" + (c + "/" + d);
    assert "/" + b + "/" + (c + "/" + d) == "/" + rest;
    ParsePlain(a, rest);
    assert [a] + [b, c, d] == [a, b, c, d];
  }

  lemma SpecPath()
    ensures Parse(SPEC_PATH) == Some(["spec"])
  {
    ParsePlain("spec", "");
    assert "/" + "spec" == SPEC_PATH;
  }

  lemma MetadataPath()
    ensures Parse(METADATA_PATH) == Some(["spec", "template", "metadata"])
  {
    ParseThree("spec", "template", "metadata");
    MetadataLiteral();
  }

  lemma MetadataLiteral()
    ensures "/" + "spec" + "/" + ("template" + "/" + "metadata") == METADATA_PATH
  {
    assert "/" + "spec" + "/" == "/spec/";
    assert "template" + "/" + "metadata" == "template/metadata";
    assert "/spec/" + "template/metadata" == METADATA_PATH;
  }

  lemma AnnotationsPath()
    ensures Parse(ANNOTATIONS_PATH) == Some(["spec", "template", "metadata", "annotations"])
  {
    ParseFour("spec", "template", "metadata", "annotations");
    AnnotationsLiteral();
  }

  lemma AnnotationsLiteral()
    ensures "/" + "spec" + "/" + ("template" + "/" + ("metadata" + "/" + "annotations")) == ANNOTATIONS_PATH
  {
    assert "/" + "metadata" + "/" + "annotations" == "/metadata/annotations";
    assert "/" + "spec" + "/" + "template" == "/spec/template";
    assert "/spec/template" + "/metadata/annotations" == ANNOTATIONS_PATH;
    Reassociate("/", "spec", "template", "metadata", "annotations");
  }

  lemma Reassociate(slash: string, a: string, b: string, c: string, d: string)
    ensures slash + a + slash + (b + slash + (c + slash + d)) == (slash + a + slash + b) + (slash + c + slash + d)
  {
  }

  // ---------------------------------------------------------------- the operations answered with

  /** What the typed object lacks on the way to its template annotations, outermost first. */
  function Missing(sts: StatefulSet): seq<string> {
    if sts.spec.None? then ["/spec", "/spec/template/metadata", "/spec/template/metadata/annotations"]
    else if sts.spec.value.template.metadata.None?
    then ["/spec/template/metadata", "/spec/template/metadata/annotations"]
    else if sts.spec.value.template.metadata.value.annotations.None? then ["/spec/template/metadata/annotations"]
    else []
  }

  lemma PlainFirst(token: string, rest: seq<string>)
    requires Plain(token)
    ensures FromTokens([token] + rest) == "/" + token + FromTokens(rest)
  {
    EscapePlain(token);
    assert ([token] + rest)[1..] == rest;
  }

  lemma LastToken(key: string)
    ensures FromTokens([key]) == "/" + Escape(key)
  {
    assert [key][1..] == [];
  }

  lemma FiveTokens(a: string, b: string, c: string, d: string, key: string)
    requires Plain(a) && Plain(b) && Plain(c) && Plain(d)
    ensures FromTokens([a, b, c, d, key])
            == "/" + a + "/" + (b + "/" + (c + "/" + d)) + "/" + Escape(key)
  {
    hide *;
    LastToken(key);
    PlainFirst(d, [key]);
    PlainFirst(c, [d, key]);
    PlainFirst(b, [c, d, key]);
    PlainFirst(a, [b, c, d, key]);
    assert [d] + [key] == [d, key] && [c] + [d, key] == [c, d, key];
    assert [b] + [c, d, key] == [b, c, d, key] && [a] + [b, c, d, key] == [a, b, c, d, key];
  }

  lemma AnnotationPath(key: string)
    ensures FromTokens(["spec", "template", "metadata", "annotations", key])
            == "/spec/template/metadata/annotations/" + Escape(key)
  {
    FiveTokens("spec", "template", "metadata", "annotations", key);
    hide FromTokens, Escape;
    AnnotationsLiteral();
    SlashLiteral();
  }

  lemma SlashLiteral()
    ensures ANNOTATIONS_PATH + "/" == "/spec/template/metadata/annotations/"
  {
  }

  lemma {:induction false} Created(paths: seq<string>)
    ensures |CreateOperations(paths)| == |paths|
    ensures forall i :: 0 <= i < |paths| ==> CreateOperations(paths)[i] == Add(paths[i], Obj(map[]))
  {
    if paths != [] {
      Created(paths[1..]);
    }
  }

  ghost predicate AnnotationsAt(prefix: string) {
    forall key :: FromTokens(["spec", "template", "metadata", "annotations", key]) == prefix + Escape(key)
  }

  lemma AllAnnotationPaths()
    ensures AnnotationsAt("/spec/template/metadata/annotations/")
  {
    hide FromTokens, Escape;
    forall key
      ensures FromTokens(["spec", "template", "metadata", "annotations", key])
              == "/spec/template/metadata/annotations/" + Escape(key)
    {
      AnnotationPath(key);
    }
  }

  lemma {:induction false} Annotated(keys: seq<string>, annotations: Annotations, prefix: string)
    requires (forall key :: key in keys ==> key in annotations) && AnnotationsAt(prefix)
    ensures |AnnotationOperations(keys, annotations)| == |keys|
    ensures forall i :: 0 <= i < |keys| ==>
              AnnotationOperations(keys, annotations)[i] == Add(prefix + Escape(keys[i]), Str(annotations[keys[i]]))
  {
    hide FromTokens, Escape;
    if keys != [] {
      Annotated(keys[1..], annotations, prefix);
    }
  }

  /** Adding empty objects at `paths` and then, below `prefix`, the annotations in the order of `keys`. */
  predicate Adds(
    patch: seq<Operation>, paths: seq<string>, prefix: string, keys: seq<string>, annotations: Annotations)
    requires forall key :: key in keys ==> key in annotations
  {
    var n := |paths|;
    && |patch| == n + |keys|
    && (forall i :: 0 <= i < n ==> patch[i] == Add(paths[i], Obj(map[])))
    && (forall i :: 0 <= i < |keys| ==> patch[n + i] == Add(prefix + Escape(keys[i]), Str(annotations[keys[i]])))
  }

  lemma AddsAll(paths: seq<string>, prefix: string, keys: seq<string>, annotations: Annotations)
    requires (forall key :: key in keys ==> key in annotations) && AnnotationsAt(prefix)
    ensures Adds(
              CreateOperations(paths) + AnnotationOperations(keys, annotations), paths, prefix, keys, annotations)
  {
    hide Escape, FromTokens, CreateOperations, AnnotationOperations, AnnotationsAt;
    var create, annotate := CreateOperations(paths), AnnotationOperations(keys, annotations);
    Created(paths);
    Annotated(keys, annotations, prefix);
    assert forall i :: 0 <= i < |create| ==> (create + annotate)[i] == create[i];
    assert forall i :: 0 <= i < |annotate| ==> (create + annotate)[|create| + i] == annotate[i];
  }

  /** The operations of the answer, one by one. */
  lemma AnsweredOperations(sts: StatefulSet, annotations: Annotations, patch: seq<Operation>)
    returns (keys: seq<string>)
    requires HandlerPatch(sts, annotations, patch)
    ensures Ascending(keys) && forall key :: key in keys <==> key in annotations
    ensures Adds(patch, Missing(sts), "/spec/template/metadata/annotations/", keys, annotations)
  {
    keys :|
      && Ascending(keys) && (forall key :: key in keys <==> key in annotations)
      && patch == CreateOperations(PathsToBeCreated(sts)) + AnnotationOperations(keys, annotations);
    assert PathsToBeCreated(sts) == Missing(sts);
    hide *;
    AllAnnotationPaths();
    AddsAll(Missing(sts), "/spec/template/metadata/annotations/", keys, annotations);
  }

  // ---------------------------------------------------------------- one operation at a time

  /** The two levels every path shares. */
  lemma UnderTemplate(doc: Json, rest: seq<string>, value: Json)
    requires HasTemplate(doc) && rest != []
    ensures AddAt(doc, ["spec", "template"] + rest, value)
            == match AddAt(Obj(TemplateOf(doc)), rest, value)
               case Ok(template) => Ok(WithTemplate(doc, template))
               case Err(e) => Err(e)
  {
    var path := ["spec", "template"] + rest;
    assert path[1..] == ["template"] + rest;
    assert path[1..][1..] == rest;
    var spec := doc.members["spec"].members;
    assert AddAt(Obj(spec), path[1..], value)
           == match AddAt(spec["template"], rest, value)
              case Ok(template) => Ok(Obj(spec["template" := template]))
              case Err(e) => Err(e);
  }

  /** Without an object at `/spec/template` nothing can be added below it. */
  lemma NoTemplateNoAdd(doc: Json, rest: seq<string>, value: Json)
    requires doc.Obj? && ("spec" in doc.members ==> doc.members["spec"].Obj? || doc.members["spec"].Null?)
    requires "spec" in doc.members && doc.members["spec"].Obj? && "template" in doc.members["spec"].members ==>
               doc.members["spec"].members["template"].Obj? || doc.members["spec"].members["template"].Null?
    requires !HasTemplate(doc) && rest != []
    ensures AddAt(doc, ["spec", "template"] + rest, value).Err?
  {
    var path := ["spec", "template"] + rest;
    assert path[1..] == ["template"] + rest;
    assert path[1..][1..] == rest;
    if "spec" in doc.members && doc.members["spec"].Obj? {
      assert AddAt(doc.members["spec"], path[1..], value).Err?;
    }
  }

  lemma AddMetadata(doc: Json, path: string)
    requires HasTemplate(doc) && Parse(path) == Some(["spec", "template", "metadata"])
    ensures ApplyOperation(doc, Add(path, EMPTY_OBJECT))
            == Ok(WithTemplate(doc, Obj(TemplateOf(doc)["metadata" := EMPTY_OBJECT])))
  {
    assert ["spec", "template"] + ["metadata"] == ["spec", "template", "metadata"];
    UnderTemplate(doc, ["metadata"], EMPTY_OBJECT);
  }

  function WithMetadata(doc: Json, metadata: Members): Json
    requires HasTemplate(doc)
  {
    WithTemplate(doc, Obj(TemplateOf(doc)["metadata" := Obj(metadata)]))
  }

  predicate HasMetadata(doc: Json) {
    HasTemplate(doc) && "metadata" in TemplateOf(doc) && TemplateOf(doc)["metadata"].Obj?
  }

  function MetadataOf(doc: Json): Members
    requires HasMetadata(doc)
  {
    TemplateOf(doc)["metadata"].members
  }

  lemma UnderMetadata(doc: Json, rest: seq<string>, value: Json)
    requires HasMetadata(doc) && rest != []
    ensures AddAt(doc, ["spec", "template", "metadata"] + rest, value)
            == match AddAt(Obj(MetadataOf(doc)), rest, value)
               case Ok(metadata) => Ok(WithTemplate(doc, Obj(TemplateOf(doc)["metadata" := metadata])))
               case Err(e) => Err(e)
  {
    assert ["spec", "template", "metadata"] + rest == ["spec", "template"] + (["metadata"] + rest);
    assert (["metadata"] + rest)[1..] == rest;
    UnderTemplate(doc, ["metadata"] + rest, value);
  }

  lemma AddAnnotationsObject(doc: Json, path: string)
    requires HasMetadata(doc) && Parse(path) == Some(["spec", "template", "metadata", "annotations"])
    ensures ApplyOperation(doc, Add(path, EMPTY_OBJECT))
            == Ok(WithMetadata(doc, MetadataOf(doc)["annotations" := EMPTY_OBJECT]))
  {
    assert ["spec", "template", "metadata"] + ["annotations"] == ["spec", "template", "metadata", "annotations"];
    UnderMetadata(doc, ["annotations"], EMPTY_OBJECT);
  }

  predicate HasAnnotations(doc: Json) {
    HasMetadata(doc) && "annotations" in MetadataOf(doc) && MetadataOf(doc)["annotations"].Obj?
  }

  function AnnotationsOf(doc: Json): Members
    requires HasAnnotations(doc)
  {
    MetadataOf(doc)["annotations"].members
  }

  function WithAnnotations(doc: Json, annotations: Members): Json
    requires HasMetadata(doc)
  {
    WithMetadata(doc, MetadataOf(doc)["annotations" := Obj(annotations)])
  }

  /** One annotation operation sets one member, however many slashes its key has. */
  lemma AddOneAnnotation(doc: Json, key: string, value: Json)
    requires HasAnnotations(doc)
    ensures ApplyOperation(doc, Add(FromTokens(["spec", "template", "metadata", "annotations", key]), value))
            == Ok(WithAnnotations(doc, AnnotationsOf(doc)[key := value]))
  {
    var tokens := ["spec", "template", "metadata", "annotations", key];
    ParseFromTokens(tokens);
    assert tokens == ["spec", "template", "metadata"] + ["annotations", key];
    assert ["annotations", key][1..] == [key];
    UnderMetadata(doc, ["annotations", key], value);
    assert AddAt(Obj(AnnotationsOf(doc)), [key], value) == Ok(Obj(AnnotationsOf(doc)[key := value]));
  }

  lemma Rewrite(doc: Json, annotations: Members, annotations': Members)
    requires HasAnnotations(doc)
    ensures HasAnnotations(WithAnnotations(doc, annotations))
    ensures AnnotationsOf(WithAnnotations(doc, annotations)) == annotations
    ensures WithAnnotations(WithAnnotations(doc, annotations), annotations') == WithAnnotations(doc, annotations')
  {
    var doc' := WithAnnotations(doc, annotations);
    var metadata, metadata' := MetadataOf(doc), MetadataOf(doc');
    assert metadata'["annotations" := Obj(annotations')] == metadata["annotations" := Obj(annotations')];
    var template, template' := TemplateOf(doc), TemplateOf(doc');
    var final := Obj(metadata["annotations" := Obj(annotations')]);
    assert template'["metadata" := final] == template["metadata" := final];
    var spec, spec' := doc.members["spec"].members, doc'.members["spec"].members;
    assert spec'["template" := Obj(template["metadata" := final])]
           == spec["template" := Obj(template["metadata" := final])];
  }

  lemma RewriteSame(doc: Json)
    requires HasAnnotations(doc)
    ensures WithAnnotations(doc, AnnotationsOf(doc)) == doc
  {
    var metadata, template, spec := MetadataOf(doc), TemplateOf(doc), doc.members["spec"].members;
    assert metadata["annotations" := Obj(AnnotationsOf(doc))] == metadata;
    assert template["metadata" := Obj(metadata)] == template;
    assert spec["template" := Obj(template)] == spec;
    assert doc.members["spec" := Obj(spec)] == doc.members;
  }

  function Selected(keys: seq<string>, annotations: Annotations): Members
    requires forall key :: key in keys ==> key in annotations
  {
    map key | key in keys :: Str(annotations[key])
  }

  lemma SelectedStep(base: Members, keys: seq<string>, annotations: Annotations)
    requires keys != [] && forall key :: key in keys ==> key in annotations
    ensures base[keys[0] := Str(annotations[keys[0]])] + Selected(keys[1..], annotations)
            == base + Selected(keys, annotations)
  {
    assert forall key :: key in keys <==> key == keys[0] || key in keys[1..];
  }

  lemma {:induction false} AddAllAnnotations(doc: Json, keys: seq<string>, annotations: Annotations)
    requires HasAnnotations(doc) && forall key :: key in keys ==> key in annotations
    ensures ApplyPatch(doc, AnnotationOperations(keys, annotations))
            == Ok(WithAnnotations(doc, AnnotationsOf(doc) + Selected(keys, annotations)))
    decreases |keys|
  {
    if keys == [] {
      assert AnnotationsOf(doc) + Selected(keys, annotations) == AnnotationsOf(doc);
      RewriteSame(doc);
    } else {
      AddFirstOfAll(doc, keys, annotations);
      var base := AnnotationsOf(doc)[keys[0] := Str(annotations[keys[0]])];
      Rewrite(doc, base, base + Selected(keys[1..], annotations));
      AddAllAnnotations(WithAnnotations(doc, base), keys[1..], annotations);
      SelectedStep(AnnotationsOf(doc), keys, annotations);
    }
  }

  lemma AddFirstOfAll(doc: Json, keys: seq<string>, annotations: Annotations)
    requires HasAnnotations(doc) && keys != [] && forall key :: key in keys ==> key in annotations
    ensures ApplyPatch(doc, AnnotationOperations(keys, annotations))
            == ApplyPatch(
                 WithAnnotations(doc, AnnotationsOf(doc)[keys[0] := Str(annotations[keys[0]])]),
                 AnnotationOperations(keys[1..], annotations))
  {
    AddOneAnnotation(doc, keys[0], Str(annotations[keys[0]]));
    ApplyFirst(
      doc, Add(FromTokens(["spec", "template", "metadata", "annotations", keys[0]]), Str(annotations[keys[0]])),
      AnnotationOperations(keys[1..], annotations));
  }

  // ---------------------------------------------------------------- the whole patch

  /** What the typed view says about the document's shape. */
  lemma DecodedShape(doc: Json)
    requires Decode(doc).Value?
    ensures var sts := Decode(doc).value;
            && doc.Obj?
            && (sts.spec.Some? <==> "spec" in doc.members && doc.members["spec"].Obj?)
            && ("spec" in doc.members ==> doc.members["spec"].Obj? || doc.members["spec"].Null?)
            && (HasTemplate(doc) ==>
                  && sts.spec.Some?
                  && (Template(sts).metadata.Some? <==> HasMetadata(doc))
                  && (HasMetadata(doc) ==> (Template(sts).metadata.value.annotations.Some? <==> HasAnnotations(doc))))
            && (sts.spec.Some? && "template" in doc.members["spec"].members ==>
                  doc.members["spec"].members["template"].Obj? || doc.members["spec"].members["template"].Null?)
            && (Template(sts).metadata.Some? ==> HasTemplate(doc))
  {
  }

  /** Which paths the handler creates, read off the document. */
  lemma PathsOfDocument(doc: Json)
    requires Decode(doc).Value? && HasTemplate(doc)
    ensures PathsToBeCreated(Decode(doc).value)
            == if !HasMetadata(doc) then [METADATA_PATH, ANNOTATIONS_PATH]
               else if !HasAnnotations(doc) then [ANNOTATIONS_PATH]
               else []
  {
    DecodedShape(doc);
  }

  lemma CreateBoth(doc: Json, metadataPath: string, annotationsPath: string)
    requires HasTemplate(doc) && !HasMetadata(doc)
    requires Parse(metadataPath) == Some(["spec", "template", "metadata"])
    requires Parse(annotationsPath) == Some(["spec", "template", "metadata", "annotations"])
    ensures ApplyPatch(doc, CreateOperations([metadataPath, annotationsPath])) == Ok(OverlayDocument(doc, map[]))
  {
    var withMetadata := WithMetadata(doc, map[]);
    AddMetadata(doc, metadataPath);
    AddAnnotationsObject(withMetadata, annotationsPath);
    CreateTwo(metadataPath, annotationsPath);
    ApplyFirst(doc, Add(metadataPath, EMPTY_OBJECT), [Add(annotationsPath, EMPTY_OBJECT)]);
    ApplyFirst(withMetadata, Add(annotationsPath, EMPTY_OBJECT), []);
    EmptyOverlay(doc);
  }

  lemma CreateAnnotationsOnly(doc: Json)
    requires HasMetadata(doc) && !HasAnnotations(doc)
    ensures ApplyPatch(doc, CreateOperations([ANNOTATIONS_PATH])) == Ok(OverlayDocument(doc, map[]))
  {
    AnnotationsPath();
    AddAnnotationsObject(doc, ANNOTATIONS_PATH);
    CreateOne(ANNOTATIONS_PATH);
    ApplyFirst(doc, Add(ANNOTATIONS_PATH, EMPTY_OBJECT), []);
    EmptyOverlay(doc);
  }

  /** The created objects are exactly the missing ones: the template as an empty overlay leaves it. */
  lemma CreatedObjects(doc: Json, paths: seq<string>)
    requires HasTemplate(doc)
    requires paths == if !HasMetadata(doc) then [METADATA_PATH, ANNOTATIONS_PATH]
                      else if !HasAnnotations(doc) then [ANNOTATIONS_PATH]
                      else []
    ensures ApplyPatch(doc, CreateOperations(paths)) == Ok(OverlayDocument(doc, map[]))
  {
    if !HasMetadata(doc) {
      MetadataPath();
      AnnotationsPath();
      CreateBoth(doc, METADATA_PATH, ANNOTATIONS_PATH);
    } else if !HasAnnotations(doc) {
      CreateAnnotationsOnly(doc);
    } else {
      EmptyOverlay(doc);
    }
  }

  lemma CreateOne(path: string)
    ensures CreateOperations([path]) == [Add(path, EMPTY_OBJECT)] + []
  {
    assert [path][1..] == [];
  }

  lemma CreateTwo(path: string, path': string)
    ensures CreateOperations([path, path']) == [Add(path, EMPTY_OBJECT)] + [Add(path', EMPTY_OBJECT)]
    ensures [Add(path', EMPTY_OBJECT)] == [Add(path', EMPTY_OBJECT)] + []
  {
    assert [path, path'][1..] == [path'];
    CreateOne(path');
  }

  lemma EmptyOverlay(doc: Json)
    requires HasTemplate(doc)
    ensures HasAnnotations(OverlayDocument(doc, map[]))
    ensures !HasMetadata(doc) ==>
              OverlayDocument(doc, map[]) == WithMetadata(WithMetadata(doc, map[]), map["annotations" := EMPTY_OBJECT])
    ensures HasMetadata(doc) && !HasAnnotations(doc) ==>
              OverlayDocument(doc, map[]) == WithMetadata(doc, MetadataOf(doc)["annotations" := EMPTY_OBJECT])
    ensures HasAnnotations(doc) ==> OverlayDocument(doc, map[]) == doc
  {
    var metadata := MembersAt(TemplateOf(doc), "metadata");
    var annotations := MembersAt(metadata, "annotations");
    assert AsJson(map[]) == map[] && annotations + map[] == annotations;
    if !HasMetadata(doc) {
      var spec, template := doc.members["spec"].members, TemplateOf(doc);
      var final := Obj(map["annotations" := EMPTY_OBJECT]);
      assert template["metadata" := EMPTY_OBJECT]["metadata" := final] == template["metadata" := final];
      var created, complete := Obj(template["metadata" := EMPTY_OBJECT]), Obj(template["metadata" := final]);
      assert spec["template" := created]["template" := complete] == spec["template" := complete];
      assert map["annotations" := EMPTY_OBJECT] == metadata["annotations" := Obj(annotations)];
    } else if HasAnnotations(doc) {
      RewriteSame(doc);
    }
  }

  /** Adding the annotations to an overlaid document overlays them. */
  lemma OverlayOfOverlay(doc: Json, annotations: Annotations)
    requires HasTemplate(doc)
    ensures HasAnnotations(OverlayDocument(doc, map[]))
    ensures WithAnnotations(
              OverlayDocument(doc, map[]), AnnotationsOf(OverlayDocument(doc, map[])) + AsJson(annotations))
            == OverlayDocument(doc, annotations)
  {
    var metadata := MembersAt(TemplateOf(doc), "metadata");
    var existing := MembersAt(metadata, "annotations");
    var doc' := OverlayDocument(doc, map[]);
    assert AsJson(map[]) == map[] && existing + map[] == existing;
    var final := Obj(existing + AsJson(annotations));
    assert metadata["annotations" := Obj(existing)]["annotations" := final] == metadata["annotations" := final];
    var spec, template := doc.members["spec"].members, TemplateOf(doc);
    var finalMetadata := Obj(metadata["annotations" := final]);
    assert TemplateOf(doc')["metadata" := finalMetadata] == template["metadata" := finalMetadata];
    var finalTemplate := Obj(template["metadata" := finalMetadata]);
    assert doc'.members["spec"].members["template" := finalTemplate] == spec["template" := finalTemplate];
  }

  lemma AnnotateCreated(doc: Json, create: seq<Operation>, keys: seq<string>, annotations: Annotations)
    requires HasTemplate(doc) && ApplyPatch(doc, create) == Ok(OverlayDocument(doc, map[]))
    requires forall key :: key in keys <==> key in annotations
    ensures ApplyPatch(doc, create + AnnotationOperations(keys, annotations)) == Ok(OverlayDocument(doc, annotations))
  {
    OverlayOfOverlay(doc, annotations);
    ApplyPatchConcat(doc, create, AnnotationOperations(keys, annotations));
    AddAllAnnotations(OverlayDocument(doc, map[]), keys, annotations);
    assert Selected(keys, annotations) == AsJson(annotations);
  }

  lemma PatchWithTemplate(doc: Json, annotations: Annotations, patch: seq<Operation>)
    requires Decode(doc).Value? && HandlerPatch(Decode(doc).value, annotations, patch)
    requires HasTemplate(doc)
    ensures ApplyPatch(doc, patch) == Ok(OverlayDocument(doc, annotations))
  {
    var paths := PathsToBeCreated(Decode(doc).value);
    var keys: seq<string> :|
      && Ascending(keys) && (forall key :: key in keys <==> key in annotations)
      && patch == CreateOperations(paths) + AnnotationOperations(keys, annotations);
    PathsOfDocument(doc);
    CreatedObjects(doc, paths);
    AnnotateCreated(doc, CreateOperations(paths), keys, annotations);
  }

  lemma MetadataFirst(doc: Json, path: string, more: seq<Operation>)
    requires doc.Obj? && ("spec" in doc.members ==> doc.members["spec"].Obj? || doc.members["spec"].Null?)
    requires "spec" in doc.members && doc.members["spec"].Obj? && "template" in doc.members["spec"].members ==>
               doc.members["spec"].members["template"].Obj? || doc.members["spec"].members["template"].Null?
    requires !HasTemplate(doc) && Parse(path) == Some(["spec", "template", "metadata"])
    ensures ApplyPatch(doc, [Add(path, EMPTY_OBJECT)] + more).Err?
  {
    assert ["spec", "template"] + ["metadata"] == ["spec", "template", "metadata"];
    NoTemplateNoAdd(doc, ["metadata"], EMPTY_OBJECT);
    ApplyFirst(doc, Add(path, EMPTY_OBJECT), more);
  }

  lemma CreateFirst(paths: seq<string>, rest: seq<Operation>)
    requires paths != []
    ensures CreateOperations(paths) + rest == [Add(paths[0], EMPTY_OBJECT)] + (CreateOperations(paths[1..]) + rest)
  {
  }

  lemma SpecFirst(doc: Json, specPath: string, metadataPath: string, more: seq<Operation>)
    requires doc.Obj? && Parse(specPath) == Some(["spec"])
    requires Parse(metadataPath) == Some(["spec", "template", "metadata"])
    ensures ApplyPatch(doc, [Add(specPath, EMPTY_OBJECT)] + ([Add(metadataPath, EMPTY_OBJECT)] + more)).Err?
  {
    ApplyFirst(doc, Add(specPath, EMPTY_OBJECT), [Add(metadataPath, EMPTY_OBJECT)] + more);
    MetadataFirst(Obj(doc.members["spec" := EMPTY_OBJECT]), metadataPath, more);
  }

  /** The webhook creates `/spec` when it is missing, but nothing creates `/spec/template`. */
  lemma PatchWithoutTemplate(doc: Json, annotations: Annotations, patch: seq<Operation>)
    requires Decode(doc).Value? && HandlerPatch(Decode(doc).value, annotations, patch)
    requires !HasTemplate(doc)
    ensures ApplyPatch(doc, patch).Err?
  {
    var sts := Decode(doc).value;
    var paths := PathsToBeCreated(sts);
    var keys: seq<string> :|
      && Ascending(keys) && (forall key :: key in keys <==> key in annotations)
      && patch == CreateOperations(paths) + AnnotationOperations(keys, annotations);
    DecodedShape(doc);
    MetadataPath();
    if sts.spec.None? {
      SpecPath();
      CreateFirst(paths, AnnotationOperations(keys, annotations));
      CreateFirst(paths[1..], AnnotationOperations(keys, annotations));
      SpecFirst(
        doc, SPEC_PATH, METADATA_PATH, CreateOperations(paths[1..][1..]) + AnnotationOperations(keys, annotations));
    } else {
      CreateFirst(paths, AnnotationOperations(keys, annotations));
      MetadataFirst(doc, METADATA_PATH, CreateOperations(paths[1..]) + AnnotationOperations(keys, annotations));
    }
  }

  /** Decoding the overlaid document gives the overlaid object: only the template's annotations differ. */
  lemma DecodeOverlay(doc: Json, annotations: Annotations)
    requires Decode(doc).Value? && HasTemplate(doc)
    ensures Decode(OverlayDocument(doc, annotations)) == Value(Overlay(Decode(doc).value, annotations))
  {
    var doc' := OverlayDocument(doc, annotations);
    var template, template' := TemplateOf(doc), TemplateOf(doc');
    DecodeOverlaidMeta(template, annotations);
    assert Member(template', "spec") == Member(template, "spec");
    assert Member(doc'.members, "metadata") == Member(doc.members, "metadata");
  }

  lemma DecodeOverlaidMeta(template: Members, annotations: Annotations)
    requires DecodeTemplateMeta(Member(template, "metadata")).Value?
    ensures var before := DecodeTemplateMeta(Member(template, "metadata")).value;
            var existing := if before.Some? then before.value.annotations.GetOr(map[]) else map[];
            DecodeTemplateMeta(Member(OverlayTemplate(template, annotations), "metadata"))
            == Value(Some(TemplateMeta(Some(existing + annotations))))
  {
    var metadata := MembersAt(template, "metadata");
    var members := MembersAt(metadata, "annotations");
    var before := DecodeTemplateMeta(Member(template, "metadata")).value;
    var existing := if before.Some? then before.value.annotations.GetOr(map[]) else map[];
    assert forall key :: key in members ==> members[key].Str?;
    var overlaid := members + AsJson(annotations);
    assert OptStringMap(Obj(overlaid)) == Value(Some(map key | key in overlaid :: overlaid[key].s));
    assert (map key | key in overlaid :: overlaid[key].s) == existing + annotations;
  }

  /**
   For every document that decodes: the handler's patch applies if and only if the document has an object
   at `/spec/template`. Then no prefix of it fails, and the result is the document with the computed
   annotations overlaid on the template's, as JSON and as the typed object, with nothing else changed.
   */
  lemma PatchMeansOverlay(doc: Json, annotations: Annotations, patch: seq<Operation>)
    requires Decode(doc).Value? && HandlerPatch(Decode(doc).value, annotations, patch)
    ensures ApplyPatch(doc, patch).Ok? <==> HasTemplate(doc)
    ensures HasTemplate(doc) ==>
              && (forall n: nat :: n <= |patch| ==> ApplyPatch(doc, patch[..n]).Ok?)
              && ApplyPatch(doc, patch) == Ok(OverlayDocument(doc, annotations))
              && Decode(OverlayDocument(doc, annotations)) == Value(Overlay(Decode(doc).value, annotations))
  {
    if HasTemplate(doc) {
      PatchWithTemplate(doc, annotations, patch);
      DecodeOverlay(doc, annotations);
      forall n: nat | n <= |patch| ensures ApplyPatch(doc, patch[..n]).Ok? {
        PrefixesSucceed(doc, patch, n);
      }
    } else {
      PatchWithoutTemplate(doc, annotations, patch);
    }
  }

  /** A labelled, addressable StatefulSet without a spec. */
  function SpeclessMetadata(name: string, namespace: string, labels: Annotations): Members {
    map["name" := Str(name), "namespace" := Str(namespace), "labels" := Obj(AsJson(labels))]
  }

  function SpeclessDocument(name: string, namespace: string): Json {
    Obj(map["metadata" := Obj(SpeclessMetadata(name, namespace, map["restarter.stackable.tech/enabled" := "true"]))])
  }

  lemma LabelsDecode(labels: Annotations)
    ensures OptStringMap(Obj(AsJson(labels))) == Value(Some(labels))
  {
    assert (map key | key in AsJson(labels) :: AsJson(labels)[key].s) == labels;
  }

  lemma SpeclessMetadataDecodes(name: string, namespace: string, labels: Annotations)
    ensures DecodeMetadata(Obj(SpeclessMetadata(name, namespace, labels)))
            == Value(ObjectMeta(name, Some(namespace), None, labels, None))
  {
    LabelsDecode(labels);
    hide AsJson;
  }

  lemma SpeclessDecodes(name: string, namespace: string)
    ensures Decode(SpeclessDocument(name, namespace)) ==
              Value(StatefulSet(
                ObjectMeta(name, Some(namespace), None, map["restarter.stackable.tech/enabled" := "true"], None), None))
    ensures !HasTemplate(SpeclessDocument(name, namespace))
  {
    SpeclessMetadataDecodes(name, namespace, map["restarter.stackable.tech/enabled" := "true"]);
    hide DecodeMetadata, SpeclessMetadata;
  }

  /** Such a document reaches the handler, and whatever the stores hold, the patch it answers with cannot be applied. */
  lemma MissingSpecFails(name: string, namespace: string, cms: Store, secrets: Store, patch: seq<Operation>)
    requires var sts := Decode(SpeclessDocument(name, namespace)).value;
             HandlerPatch(sts, RestarterAnnotations(sts, cms, secrets), patch)
    ensures Decode(SpeclessDocument(name, namespace)).Value?
    ensures Decode(SpeclessDocument(name, namespace)).value.metadata.namespace == Some(namespace)
    ensures ApplyPatch(SpeclessDocument(name, namespace), patch).Err?
  {
    var doc := SpeclessDocument(name, namespace);
    SpeclessDecodes(name, namespace);
    var sts := Decode(doc).value;
    PatchWithoutTemplate(doc, RestarterAnnotations(sts, cms, secrets), patch);
  }
}
