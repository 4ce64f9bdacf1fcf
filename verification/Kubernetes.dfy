/**
 The parts of the Kubernetes API objects that the restarter reads and writes.
 Field optionality follows the generated Rust types the operator is built against.
 */
module Kubernetes {
  import opened Wrappers

  type Annotations = map<string, string>

  /** An object's address: namespace and name. */
  datatype ObjectRef = ObjectRef(namespace: string, name: string)

  /** What a metadata-only watch keeps of a ConfigMap or a Secret. */
  datatype PartialMeta = PartialMeta(uid: Option<string>, resourceVersion: Option<string>)

  /** A reflector's local cache of ConfigMaps or Secrets. */
  type Store = map<ObjectRef, PartialMeta>

  datatype ObjectMeta = ObjectMeta(
    name: string,
    namespace: Option<string>,
    uid: Option<string>,
    labels: map<string, string>,
    annotations: Option<Annotations>)

  /** `secret` is the Secret source; its `secretName` is itself optional. */
  datatype Volume = Volume(configMap: Option<string>, secret: Option<Option<string>>)

  datatype EnvVarSource = EnvVarSource(configMapKeyRef: Option<string>, secretKeyRef: Option<string>)

  datatype EnvVar = EnvVar(valueFrom: Option<EnvVarSource>)

  datatype EnvFromSource = EnvFromSource(configMapRef: Option<string>, secretRef: Option<string>)

  datatype Container = Container(env: Option<seq<EnvVar>>, envFrom: Option<seq<EnvFromSource>>)

  datatype PodSpec = PodSpec(
    volumes: Option<seq<Volume>>,
    containers: seq<Container>,
    initContainers: Option<seq<Container>>)

  datatype TemplateMeta = TemplateMeta(annotations: Option<Annotations>)

  datatype PodTemplate = PodTemplate(metadata: Option<TemplateMeta>, spec: Option<PodSpec>)

  datatype StatefulSetSpec = StatefulSetSpec(template: PodTemplate)

  datatype StatefulSet = StatefulSet(metadata: ObjectMeta, spec: Option<StatefulSetSpec>)

  /** The Pod template of a StatefulSet without a spec is empty. */
  function Template(sts: StatefulSet): PodTemplate {
    match sts.spec
    case Some(spec) => spec.template
    case None => PodTemplate(None, None)
  }

  /** The Pod template's annotations; changing them is what restarts the Pods. */
  function TemplateAnnotations(sts: StatefulSet): Annotations {
    match Template(sts).metadata
    case Some(meta) => meta.annotations.GetOr(map[])
    case None => map[]
  }

  function WithTemplateAnnotations(sts: StatefulSet, annotations: Annotations): (r: StatefulSet)
    ensures TemplateAnnotations(r) == annotations
    ensures r.metadata == sts.metadata && Template(r).spec == Template(sts).spec
  {
    sts.(spec := Some(StatefulSetSpec(Template(sts).(metadata := Some(TemplateMeta(Some(annotations)))))))
  }
}
