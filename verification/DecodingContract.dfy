/**
 What the typed StatefulSet says about the submitted document, member by member
 (rust/operator-binary/src/webhooks/restarter_mutate_sts.rs, restart_controller/statefulset.rs): the references of its
 Pod spec, the names it ignores, and its address.
 */
module DecodingContract {
  import opened Wrappers
  import opened Kubernetes
  import opened JsonPatch
  import opened StatefulSetDecoding
  import opened AnnotationContract

  function At(j: Json, key: string): Json {
    if j.Obj? && key in j.members then j.members[key] else Null
  }

  function Items(j: Json): seq<Json> {
    if j.Arr? then j.items else []
  }

  /** A reference by name; a missing name is the empty one. */
  predicate ByName(source: Json, name: string) {
    source.Obj? && (At(source, "name") == Str(name) || (At(source, "name") == Null && name == ""))
  }

  function PodAt(doc: Json): Json {
    At(At(At(doc, "spec"), "template"), "spec")
  }

  // How a volume, an environment variable or an `envFrom` of the document names an object.
  predicate VolumeNamesConfigMap(v: Json, name: string) { ByName(At(v, "configMap"), name) }

  predicate VolumeNamesSecret(v: Json, name: string) { At(At(v, "secret"), "secretName") == Str(name) }

  predicate VarNamesConfigMap(e: Json, name: string) { ByName(At(At(e, "valueFrom"), "configMapKeyRef"), name) }

  predicate VarNamesSecret(e: Json, name: string) { ByName(At(At(e, "valueFrom"), "secretKeyRef"), name) }

  predicate SourceNamesConfigMap(f: Json, name: string) { ByName(At(f, "configMapRef"), name) }

  predicate SourceNamesSecret(f: Json, name: string) { ByName(At(f, "secretRef"), name) }

  ghost predicate ContainerNamesConfigMap(c: Json, name: string) {
    || (exists e :: e in Items(At(c, "env")) && VarNamesConfigMap(e, name))
    || (exists f :: f in Items(At(c, "envFrom")) && SourceNamesConfigMap(f, name))
  }

  ghost predicate ContainerNamesSecret(c: Json, name: string) {
    || (exists e :: e in Items(At(c, "env")) && VarNamesSecret(e, name))
    || (exists f :: f in Items(At(c, "envFrom")) && SourceNamesSecret(f, name))
  }

  /** A volume, or an environment variable or `envFrom` of a container or init container, names the ConfigMap. */
  ghost predicate DocumentTakesConfigMap(doc: Json, name: string) {
    var pod := PodAt(doc);
    || (exists v :: v in Items(At(pod, "volumes")) && VolumeNamesConfigMap(v, name))
    || (exists c :: c in Items(At(pod, "containers")) && ContainerNamesConfigMap(c, name))
    || (exists c :: c in Items(At(pod, "initContainers")) && ContainerNamesConfigMap(c, name))
  }

  ghost predicate DocumentTakesSecret(doc: Json, name: string) {
    var pod := PodAt(doc);
    || (exists v :: v in Items(At(pod, "volumes")) && VolumeNamesSecret(v, name))
    || (exists c :: c in Items(At(pod, "containers")) && ContainerNamesSecret(c, name))
    || (exists c :: c in Items(At(pod, "initContainers")) && ContainerNamesSecret(c, name))
  }

  // ---------------------------------------------------------------- lists

  ghost predicate Decodes<T>(items: seq<Json>, values: seq<T>, decode: Json -> Decoded<T>) {
    |items| == |values| && forall i :: 0 <= i < |items| ==> decode(items[i]) == Value(values[i])
  }

  lemma {:induction false} AllDecode<T>(items: seq<Json>, decode: Json -> Decoded<T>)
    requires DecodeAll(items, decode).Value?
    ensures Decodes(items, DecodeAll(items, decode).value, decode)
  {
    if items != [] {
      AllDecode(items[1..], decode);
    }
  }

  function Elements<T>(list: Option<seq<T>>): seq<T> {
    if list.Some? then list.value else []
  }

  lemma ListDecodes<T>(j: Json, decode: Json -> Decoded<T>)
    requires OptArray(j, decode).Value?
    ensures Decodes(Items(j), Elements(OptArray(j, decode).value), decode)
  {
    if j.Arr? {
      AllDecode(j.items, decode);
    }
  }

  /** Some element is so if and only if some item decodes to one that is so. */
  lemma SomeElement<T(!new)>(
    items: seq<Json>, values: seq<T>, decode: Json -> Decoded<T>, p: T -> bool, q: Json -> bool)
    requires Decodes(items, values, decode)
    requires forall j, v :: decode(j) == Value(v) ==> p(v) == q(j)
    ensures (exists v :: v in values && p(v)) <==> (exists j :: j in items && q(j))
  {
    if v :| v in values && p(v) {
      var i :| 0 <= i < |values| && values[i] == v;
      assert items[i] in items && q(items[i]);
    }
    if j :| j in items && q(j) {
      var i :| 0 <= i < |items| && items[i] == j;
      assert values[i] in values && p(values[i]);
    }
  }

  // ---------------------------------------------------------------- single elements

  predicate ConfigMapVolume(v: Volume, name: string) { v.configMap == Some(name) }

  predicate SecretVolume(v: Volume, name: string) { v.secret == Some(Some(name)) }

  predicate ConfigMapVar(e: EnvVar, name: string) {
    e.valueFrom.Some? && e.valueFrom.value.configMapKeyRef == Some(name)
  }

  predicate SecretVar(e: EnvVar, name: string) {
    e.valueFrom.Some? && e.valueFrom.value.secretKeyRef == Some(name)
  }

  predicate ConfigMapSource(f: EnvFromSource, name: string) { f.configMapRef == Some(name) }

  predicate SecretSource(f: EnvFromSource, name: string) { f.secretRef == Some(name) }

  lemma NameDecodes(j: Json, name: string)
    requires OptNameOf(j).Value?
    ensures OptNameOf(j).value == Some(name) <==> ByName(j, name)
  {
  }

  lemma VolumeDecodes(j: Json, name: string)
    requires DecodeVolume(j).Value?
    ensures ConfigMapVolume(DecodeVolume(j).value, name) <==> VolumeNamesConfigMap(j, name)
    ensures SecretVolume(DecodeVolume(j).value, name) <==> VolumeNamesSecret(j, name)
  {
    NameDecodes(At(j, "configMap"), name);
  }

  lemma EnvVarDecodes(j: Json, name: string)
    requires DecodeEnvVar(j).Value?
    ensures ConfigMapVar(DecodeEnvVar(j).value, name) <==> VarNamesConfigMap(j, name)
    ensures SecretVar(DecodeEnvVar(j).value, name) <==> VarNamesSecret(j, name)
  {
    if At(j, "valueFrom") != Null {
      NameDecodes(At(At(j, "valueFrom"), "configMapKeyRef"), name);
      NameDecodes(At(At(j, "valueFrom"), "secretKeyRef"), name);
    }
  }

  lemma EnvFromDecodes(j: Json, name: string)
    requires DecodeEnvFrom(j).Value?
    ensures ConfigMapSource(DecodeEnvFrom(j).value, name) <==> SourceNamesConfigMap(j, name)
    ensures SecretSource(DecodeEnvFrom(j).value, name) <==> SourceNamesSecret(j, name)
  {
    NameDecodes(At(j, "configMapRef"), name);
    NameDecodes(At(j, "secretRef"), name);
  }

  lemma Volumes(j: Json, name: string)
    requires OptArray(j, DecodeVolume).Value?
    ensures var values := Elements(OptArray(j, DecodeVolume).value);
            && ((exists v :: v in values && ConfigMapVolume(v, name))
                <==> exists i :: i in Items(j) && VolumeNamesConfigMap(i, name))
            && ((exists v :: v in values && SecretVolume(v, name))
                <==> exists i :: i in Items(j) && VolumeNamesSecret(i, name))
  {
    var values := Elements(OptArray(j, DecodeVolume).value);
    ListDecodes(j, DecodeVolume);
    forall i, v
      ensures DecodeVolume(i) == Value(v) ==>
                && ConfigMapVolume(v, name) == VolumeNamesConfigMap(i, name)
                && SecretVolume(v, name) == VolumeNamesSecret(i, name)
    {
      if DecodeVolume(i) == Value(v) {
        VolumeDecodes(i, name);
      }
    }
    hide DecodeVolume, ConfigMapVolume, SecretVolume, VolumeNamesConfigMap, VolumeNamesSecret;
    SomeElement(Items(j), values, DecodeVolume, v => ConfigMapVolume(v, name), i => VolumeNamesConfigMap(i, name));
    SomeElement(Items(j), values, DecodeVolume, v => SecretVolume(v, name), i => VolumeNamesSecret(i, name));
  }

  lemma EnvVars(j: Json, name: string)
    requires OptArray(j, DecodeEnvVar).Value?
    ensures var values := Elements(OptArray(j, DecodeEnvVar).value);
            && ((exists v :: v in values && ConfigMapVar(v, name))
                <==> exists i :: i in Items(j) && VarNamesConfigMap(i, name))
            && ((exists v :: v in values && SecretVar(v, name))
                <==> exists i :: i in Items(j) && VarNamesSecret(i, name))
  {
    var values := Elements(OptArray(j, DecodeEnvVar).value);
    ListDecodes(j, DecodeEnvVar);
    forall i, v
      ensures DecodeEnvVar(i) == Value(v) ==>
                && ConfigMapVar(v, name) == VarNamesConfigMap(i, name)
                && SecretVar(v, name) == VarNamesSecret(i, name)
    {
      if DecodeEnvVar(i) == Value(v) {
        EnvVarDecodes(i, name);
      }
    }
    hide DecodeEnvVar, ConfigMapVar, SecretVar, VarNamesConfigMap, VarNamesSecret;
    SomeElement(Items(j), values, DecodeEnvVar, v => ConfigMapVar(v, name), i => VarNamesConfigMap(i, name));
    SomeElement(Items(j), values, DecodeEnvVar, v => SecretVar(v, name), i => VarNamesSecret(i, name));
  }

  lemma EnvFroms(j: Json, name: string)
    requires OptArray(j, DecodeEnvFrom).Value?
    ensures var values := Elements(OptArray(j, DecodeEnvFrom).value);
            && ((exists v :: v in values && ConfigMapSource(v, name))
                <==> exists i :: i in Items(j) && SourceNamesConfigMap(i, name))
            && ((exists v :: v in values && SecretSource(v, name))
                <==> exists i :: i in Items(j) && SourceNamesSecret(i, name))
  {
    var values := Elements(OptArray(j, DecodeEnvFrom).value);
    ListDecodes(j, DecodeEnvFrom);
    forall i, v
      ensures DecodeEnvFrom(i) == Value(v) ==>
                && ConfigMapSource(v, name) == SourceNamesConfigMap(i, name)
                && SecretSource(v, name) == SourceNamesSecret(i, name)
    {
      if DecodeEnvFrom(i) == Value(v) {
        EnvFromDecodes(i, name);
      }
    }
    hide DecodeEnvFrom, ConfigMapSource, SecretSource, SourceNamesConfigMap, SourceNamesSecret;
    SomeElement(Items(j), values, DecodeEnvFrom, v => ConfigMapSource(v, name), i => SourceNamesConfigMap(i, name));
    SomeElement(Items(j), values, DecodeEnvFrom, v => SecretSource(v, name), i => SourceNamesSecret(i, name));
  }

  // ---------------------------------------------------------------- containers

  lemma ContainerDecodes(j: Json, name: string)
    requires DecodeContainer(j).Value?
    ensures ContainerTakesConfigMap(DecodeContainer(j).value, name) <==> ContainerNamesConfigMap(j, name)
    ensures ContainerTakesSecret(DecodeContainer(j).value, name) <==> ContainerNamesSecret(j, name)
  {
    var c := DecodeContainer(j).value;
    EnvVars(At(j, "env"), name);
    EnvFroms(At(j, "envFrom"), name);
    ContainerTakes(c, name);
  }

  lemma ContainerTakes(c: Container, name: string)
    ensures ContainerTakesConfigMap(c, name) <==>
              || (exists e :: e in Elements(c.env) && ConfigMapVar(e, name))
              || (exists f :: f in Elements(c.envFrom) && ConfigMapSource(f, name))
    ensures ContainerTakesSecret(c, name) <==>
              || (exists e :: e in Elements(c.env) && SecretVar(e, name))
              || (exists f :: f in Elements(c.envFrom) && SecretSource(f, name))
  {
    assert forall e :: e in Elements(c.env) <==> c.env.Some? && e in c.env.value;
    assert forall f :: f in Elements(c.envFrom) <==> c.envFrom.Some? && f in c.envFrom.value;
  }

  lemma Containers(j: Json, name: string)
    requires OptArray(j, DecodeContainer).Value?
    ensures var values := Elements(OptArray(j, DecodeContainer).value);
            && ((exists v :: v in values && ContainerTakesConfigMap(v, name))
                <==> exists i :: i in Items(j) && ContainerNamesConfigMap(i, name))
            && ((exists v :: v in values && ContainerTakesSecret(v, name))
                <==> exists i :: i in Items(j) && ContainerNamesSecret(i, name))
  {
    var values := Elements(OptArray(j, DecodeContainer).value);
    ListDecodes(j, DecodeContainer);
    forall i, v
      ensures DecodeContainer(i) == Value(v) ==>
                && ContainerTakesConfigMap(v, name) == ContainerNamesConfigMap(i, name)
                && ContainerTakesSecret(v, name) == ContainerNamesSecret(i, name)
    {
      if DecodeContainer(i) == Value(v) {
        ContainerDecodes(i, name);
      }
    }
    hide DecodeContainer, ContainerTakesConfigMap, ContainerTakesSecret, ContainerNamesConfigMap, ContainerNamesSecret;
    SomeElement(
      Items(j), values, DecodeContainer, v => ContainerTakesConfigMap(v, name), i => ContainerNamesConfigMap(i, name));
    SomeElement(
      Items(j), values, DecodeContainer, v => ContainerTakesSecret(v, name), i => ContainerNamesSecret(i, name));
  }

  // ---------------------------------------------------------------- the document

  lemma PodTakes(pod: PodSpec, name: string)
    ensures TakesConfigMap(pod, name) <==>
              || (exists v :: v in Elements(pod.volumes) && ConfigMapVolume(v, name))
              || (exists c :: c in pod.containers && ContainerTakesConfigMap(c, name))
              || (exists c :: c in Elements(pod.initContainers) && ContainerTakesConfigMap(c, name))
    ensures TakesSecret(pod, name) <==>
              || (exists v :: v in Elements(pod.volumes) && SecretVolume(v, name))
              || (exists c :: c in pod.containers && ContainerTakesSecret(c, name))
              || (exists c :: c in Elements(pod.initContainers) && ContainerTakesSecret(c, name))
  {
    hide ContainerTakesConfigMap, ContainerTakesSecret;
    assert forall v :: v in Elements(pod.volumes) <==> pod.volumes.Some? && v in pod.volumes.value;
    assert forall c :: IsContainer(pod, c) <==> c in pod.containers || c in Elements(pod.initContainers);
  }

  lemma PodDecodes(j: Json)
    requires j.Obj? && DecodePodSpec(j).Value?
    ensures DecodePodSpec(j).value.Some?
    ensures var pod := DecodePodSpec(j).value.value;
            && OptArray(At(j, "volumes"), DecodeVolume).Value?
            && OptArray(At(j, "containers"), DecodeContainer).Value?
            && OptArray(At(j, "initContainers"), DecodeContainer).Value?
            && Elements(pod.volumes) == Elements(OptArray(At(j, "volumes"), DecodeVolume).value)
            && pod.containers == Elements(OptArray(At(j, "containers"), DecodeContainer).value)
            && Elements(pod.initContainers) == Elements(OptArray(At(j, "initContainers"), DecodeContainer).value)
  {
    hide OptArray, DecodeVolume, DecodeContainer;
  }

  lemma PodNames(j: Json, name: string)
    requires j.Obj? && DecodePodSpec(j).Value? && DecodePodSpec(j).value.Some?
    ensures var pod := DecodePodSpec(j).value.value;
            && (TakesConfigMap(pod, name) <==>
                  || (exists v :: v in Items(At(j, "volumes")) && VolumeNamesConfigMap(v, name))
                  || (exists c :: c in Items(At(j, "containers")) && ContainerNamesConfigMap(c, name))
                  || (exists c :: c in Items(At(j, "initContainers")) && ContainerNamesConfigMap(c, name)))
            && (TakesSecret(pod, name) <==>
                  || (exists v :: v in Items(At(j, "volumes")) && VolumeNamesSecret(v, name))
                  || (exists c :: c in Items(At(j, "containers")) && ContainerNamesSecret(c, name))
                  || (exists c :: c in Items(At(j, "initContainers")) && ContainerNamesSecret(c, name)))
  {
    PodDecodes(j);
    PodTakes(DecodePodSpec(j).value.value, name);
    hide *;
    Volumes(At(j, "volumes"), name);
    Containers(At(j, "containers"), name);
    Containers(At(j, "initContainers"), name);
  }

  lemma SpecDecodes(doc: Json)
    requires Decode(doc).Value?
    ensures var sts, pod := Decode(doc).value, PodAt(doc);
            && (pod.Obj? || pod.Null?)
            && (pod.Null? ==> sts.spec.None? || sts.spec.value.template.spec.None?)
            && (pod.Obj? ==>
                  && DecodePodSpec(pod).Value? && DecodePodSpec(pod).value.Some?
                  && sts.spec.Some? && sts.spec.value.template.spec == DecodePodSpec(pod).value)
  {
    hide OptArray, DecodeVolume, DecodeContainer, DecodeMetadata, DecodeTemplateMeta;
  }

  /** The decoded StatefulSet takes the objects that the document names, no others. */
  lemma DecodedReferences(doc: Json, name: string)
    requires Decode(doc).Value?
    ensures UsesConfigMap(Decode(doc).value, name) <==> DocumentTakesConfigMap(doc, name)
    ensures UsesSecret(Decode(doc).value, name) <==> DocumentTakesSecret(doc, name)
  {
    SpecDecodes(doc);
    hide Decode, DecodePodSpec, PodAt;
    if PodAt(doc).Obj? {
      PodNames(PodAt(doc), name);
    }
  }

  lemma MetadataDecodes(doc: Json)
    requires Decode(doc).Value?
    ensures var metadata, m := Decode(doc).value.metadata, At(doc, "metadata");
            && OptString(At(m, "name")).Value?
            && metadata.name == OptString(At(m, "name")).value.GetOr("")
            && OptString(At(m, "namespace")) == Value(metadata.namespace)
            && OptString(At(m, "uid")) == Value(metadata.uid)
            && OptStringMap(At(m, "annotations")) == Value(metadata.annotations)
            && OptStringMap(At(m, "labels")).Value?
            && metadata.labels == OptStringMap(At(m, "labels")).value.GetOr(map[])
  {
    hide OptString, OptStringMap, DecodeStsSpec;
  }

  /** It has the name, namespace, uid and labels and ignores the names that the document says. */
  lemma DecodedMetadata(doc: Json, prefix: string, text: string)
    requires Decode(doc).Value?
    ensures var sts, m := Decode(doc).value, At(doc, "metadata");
            && (sts.metadata.name == text <==> At(m, "name") == Str(text) || (At(m, "name") == Null && text == ""))
            && (sts.metadata.namespace == Some(text) <==> At(m, "namespace") == Str(text))
            && (sts.metadata.uid == Some(text) <==> At(m, "uid") == Str(text))
            && (NamedUnder(sts, prefix, text) <==>
                  exists key :: prefix <= key && At(At(m, "annotations"), key) == Str(text))
            && forall key :: key in sts.metadata.labels && sts.metadata.labels[key] == text
                             <==> At(At(m, "labels"), key) == Str(text)
  {
    MetadataDecodes(doc);
    hide Decode;
    var sts, m := Decode(doc).value, At(doc, "metadata");
    forall key ensures At(At(m, "annotations"), key) == Str(text) <==>
                         && sts.metadata.annotations.Some? && key in sts.metadata.annotations.value
                         && sts.metadata.annotations.value[key] == text
    {
    }
  }

  // ---------------------------------------------------------------- which documents decode

  predicate StringOrNull(j: Json) { j.Str? || j.Null? }

  predicate ObjectOrNull(j: Json) { j.Obj? || j.Null? }

  predicate StringsOrNull(j: Json) { j.Null? || (j.Obj? && forall key :: key in j.members ==> j.members[key].Str?) }

  predicate ListOf(j: Json, element: Json -> bool) { j.Null? || (j.Arr? && forall i :: i in j.items ==> element(i)) }

  predicate Reference(j: Json) { ObjectOrNull(j) && StringOrNull(At(j, "name")) }

  predicate WellFormedVolume(v: Json) {
    && v.Obj? && Reference(At(v, "configMap"))
    && ObjectOrNull(At(v, "secret")) && StringOrNull(At(At(v, "secret"), "secretName"))
  }

  predicate WellFormedVar(e: Json) {
    && e.Obj? && ObjectOrNull(At(e, "valueFrom"))
    && Reference(At(At(e, "valueFrom"), "configMapKeyRef")) && Reference(At(At(e, "valueFrom"), "secretKeyRef"))
  }

  predicate WellFormedSource(f: Json) {
    f.Obj? && Reference(At(f, "configMapRef")) && Reference(At(f, "secretRef"))
  }

  predicate WellFormedContainer(c: Json) {
    c.Obj? && ListOf(At(c, "env"), WellFormedVar) && ListOf(At(c, "envFrom"), WellFormedSource)
  }

  predicate WellFormedPod(pod: Json) {
    && ObjectOrNull(pod) && ListOf(At(pod, "volumes"), WellFormedVolume)
    && ListOf(At(pod, "containers"), WellFormedContainer) && ListOf(At(pod, "initContainers"), WellFormedContainer)
  }

  predicate WellFormedMetadata(m: Json) {
    && ObjectOrNull(m) && StringOrNull(At(m, "name")) && StringOrNull(At(m, "namespace")) && StringOrNull(At(m, "uid"))
    && StringsOrNull(At(m, "labels")) && StringsOrNull(At(m, "annotations"))
  }

  predicate WellFormed(doc: Json) {
    var template := At(At(doc, "spec"), "template");
    && doc.Obj? && WellFormedMetadata(At(doc, "metadata"))
    && ObjectOrNull(At(doc, "spec")) && ObjectOrNull(template)
    && ObjectOrNull(At(template, "metadata")) && StringsOrNull(At(At(template, "metadata"), "annotations"))
    && WellFormedPod(PodAt(doc))
  }

  lemma {:induction false} DecodesAll<T>(items: seq<Json>, decode: Json -> Decoded<T>)
    ensures DecodeAll(items, decode).Value? <==> forall i :: i in items ==> decode(i).Value?
  {
    if items != [] {
      DecodesAll(items[1..], decode);
      assert forall i :: i in items <==> i == items[0] || i in items[1..];
    }
  }

  lemma ListWellFormed<T>(j: Json, decode: Json -> Decoded<T>, element: Json -> bool)
    requires forall i :: decode(i).Value? == element(i)
    ensures OptArray(j, decode).Value? <==> ListOf(j, element)
  {
    if j.Arr? {
      DecodesAll(j.items, decode);
    }
  }

  lemma ContainerWellFormed(c: Json)
    ensures DecodeContainer(c).Value? <==> WellFormedContainer(c)
  {
    forall e ensures DecodeEnvVar(e).Value? == WellFormedVar(e) {
    }
    forall f ensures DecodeEnvFrom(f).Value? == WellFormedSource(f) {
    }
    hide DecodeEnvVar, DecodeEnvFrom, WellFormedVar, WellFormedSource;
    ListWellFormed(At(c, "env"), DecodeEnvVar, WellFormedVar);
    ListWellFormed(At(c, "envFrom"), DecodeEnvFrom, WellFormedSource);
    hide OptArray, ListOf;
  }

  lemma PodWellFormed(pod: Json)
    ensures DecodePodSpec(pod).Value? <==> WellFormedPod(pod)
  {
    forall v ensures DecodeVolume(v).Value? == WellFormedVolume(v) {
    }
    forall c ensures DecodeContainer(c).Value? == WellFormedContainer(c) {
      ContainerWellFormed(c);
    }
    hide DecodeVolume, DecodeContainer, WellFormedVolume, WellFormedContainer;
    ListWellFormed(At(pod, "volumes"), DecodeVolume, WellFormedVolume);
    ListWellFormed(At(pod, "containers"), DecodeContainer, WellFormedContainer);
    ListWellFormed(At(pod, "initContainers"), DecodeContainer, WellFormedContainer);
  }

  lemma MetadataWellFormed(m: Json)
    ensures DecodeMetadata(m).Value? <==> WellFormedMetadata(m)
  {
  }

  lemma SpecWellFormed(spec: Json)
    ensures DecodeStsSpec(spec).Value? <==>
              var template := At(spec, "template");
              && ObjectOrNull(spec) && ObjectOrNull(template)
              && ObjectOrNull(At(template, "metadata")) && StringsOrNull(At(At(template, "metadata"), "annotations"))
              && DecodePodSpec(At(template, "spec")).Value?
  {
    assert DecodePodSpec(Null) == Value(None);
    hide DecodePodSpec;
  }

  /** A document reaches the handler if and only if the fields it reads have their types or are absent. */
  lemma DecodesExactly(doc: Json)
    ensures Decode(doc).Value? <==> WellFormed(doc)
  {
    MetadataWellFormed(At(doc, "metadata"));
    SpecWellFormed(At(doc, "spec"));
    PodWellFormed(PodAt(doc));
    hide DecodeMetadata, WellFormedMetadata, DecodePodSpec, WellFormedPod, DecodeStsSpec;
  }
}
