/** Decoding a submitted document into the typed StatefulSet, as the webhook library does before the handler runs. */
module StatefulSetDecoding {
  import opened Wrappers
  import opened Kubernetes
  import opened JsonPatch

  /** Typed decoding either yields a value or rejects the request before the handler sees it. */
  datatype Decoded<+T> = Value(value: T) | Malformed {
    predicate IsFailure() {
      Malformed?
    }

    function PropagateFailure<U>(): Decoded<U>
      requires Malformed?
    {
      Malformed
    }

    function Extract(): T
      requires Value?
    {
      value
    }
  }

  type Members = map<string, Json>

  /** Absent members and nulls decode alike. */
  function Member(m: Members, key: string): Json {
    if key in m then m[key] else Null
  }

  function OptString(j: Json): Decoded<Option<string>> {
    match j
    case Null => Value(None)
    case Str(s) => Value(Some(s))
    case _ => Malformed
  }

  function OptObject(j: Json): Decoded<Option<Members>> {
    match j
    case Null => Value(None)
    case Obj(m) => Value(Some(m))
    case _ => Malformed
  }

  function Object(j: Json): Decoded<Members> {
    if j.Obj? then Value(j.members) else Malformed
  }

  function DecodeAll<T>(items: seq<Json>, decode: Json -> Decoded<T>): Decoded<seq<T>> {
    if items == [] then Value([])
    else
      var first :- decode(items[0]);
      var rest :- DecodeAll(items[1..], decode);
      Value([first] + rest)
  }

  function OptArray<T>(j: Json, decode: Json -> Decoded<T>): Decoded<Option<seq<T>>> {
    match j
    case Null => Value(None)
    case Arr(items) => var all :- DecodeAll(items, decode); Value(Some(all))
    case _ => Malformed
  }

  function OptStringMap(j: Json): Decoded<Option<map<string, string>>> {
    match j
    case Null => Value(None)
    case Obj(m) =>
      if forall key :: key in m ==> m[key].Str? then Value(Some(map key | key in m :: m[key].s)) else Malformed
    case _ => Malformed
  }

  /** The name inside a ConfigMap or Secret source; a source without a name has the empty one. */
  function OptNameOf(j: Json): Decoded<Option<string>> {
    var source :- OptObject(j);
    match source
    case None => Value(None)
    case Some(m) => var name :- OptString(Member(m, "name")); Value(Some(name.GetOr("")))
  }

  function DecodeVolume(j: Json): Decoded<Volume> {
    var m :- Object(j);
    var configMap :- OptNameOf(Member(m, "configMap"));
    var secret :- OptObject(Member(m, "secret"));
    match secret
    case None => Value(Volume(configMap, None))
    case Some(source) =>
      var secretName :- OptString(Member(source, "secretName"));
      Value(Volume(configMap, Some(secretName)))
  }

  function DecodeEnvVar(j: Json): Decoded<EnvVar> {
    var m :- Object(j);
    var valueFrom :- OptObject(Member(m, "valueFrom"));
    match valueFrom
    case None => Value(EnvVar(None))
    case Some(source) =>
      var configMap :- OptNameOf(Member(source, "configMapKeyRef"));
      var secret :- OptNameOf(Member(source, "secretKeyRef"));
      Value(EnvVar(Some(EnvVarSource(configMap, secret))))
  }

  function DecodeEnvFrom(j: Json): Decoded<EnvFromSource> {
    var m :- Object(j);
    var configMap :- OptNameOf(Member(m, "configMapRef"));
    var secret :- OptNameOf(Member(m, "secretRef"));
    Value(EnvFromSource(configMap, secret))
  }

  function DecodeContainer(j: Json): Decoded<Container> {
    var m :- Object(j);
    var env :- OptArray(Member(m, "env"), DecodeEnvVar);
    var envFrom :- OptArray(Member(m, "envFrom"), DecodeEnvFrom);
    Value(Container(env, envFrom))
  }

  function DecodePodSpec(j: Json): Decoded<Option<PodSpec>> {
    var pod :- OptObject(j);
    match pod
    case None => Value(None)
    case Some(m) =>
      var volumes :- OptArray(Member(m, "volumes"), DecodeVolume);
      var containers :- OptArray(Member(m, "containers"), DecodeContainer);
      var initContainers :- OptArray(Member(m, "initContainers"), DecodeContainer);
      Value(Some(PodSpec(volumes, containers.GetOr([]), initContainers)))
  }

  function DecodeMetadata(j: Json): Decoded<ObjectMeta> {
    var metadata :- OptObject(j);
    var m := metadata.GetOr(map[]);
    var name :- OptString(Member(m, "name"));
    var namespace :- OptString(Member(m, "namespace"));
    var uid :- OptString(Member(m, "uid"));
    var labels :- OptStringMap(Member(m, "labels"));
    var annotations :- OptStringMap(Member(m, "annotations"));
    Value(ObjectMeta(name.GetOr(""), namespace, uid, labels.GetOr(map[]), annotations))
  }

  function DecodeTemplateMeta(j: Json): Decoded<Option<TemplateMeta>> {
    var metadata :- OptObject(j);
    match metadata
    case None => Value(None)
    case Some(m) => var annotations :- OptStringMap(Member(m, "annotations")); Value(Some(TemplateMeta(annotations)))
  }

  /** A missing template decodes to the empty one. */
  function DecodeTemplate(j: Json): Decoded<PodTemplate> {
    var template :- OptObject(j);
    var m := template.GetOr(map[]);
    var metadata :- DecodeTemplateMeta(Member(m, "metadata"));
    var pod :- DecodePodSpec(Member(m, "spec"));
    Value(PodTemplate(metadata, pod))
  }

  function DecodeStsSpec(j: Json): Decoded<Option<StatefulSetSpec>> {
    var spec :- OptObject(j);
    match spec
    case None => Value(None)
    case Some(m) => var template :- DecodeTemplate(Member(m, "template")); Value(Some(StatefulSetSpec(template)))
  }

  function Decode(doc: Json): Decoded<StatefulSet> {
    var m :- Object(doc);
    var metadata :- DecodeMetadata(Member(m, "metadata"));
    var spec :- DecodeStsSpec(Member(m, "spec"));
    Value(StatefulSet(metadata, spec))
  }
}
