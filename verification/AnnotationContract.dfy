/**
 The restarter's annotation map in the terms of the API objects themselves: which fields of a Pod spec are read, which
 keys are written and what they say (rust/operator-binary/src/restart_controller/statefulset.rs).
 */
module AnnotationContract {
  import opened Wrappers
  import opened Kubernetes
  import opened RestartFingerprint

  ghost predicate IsContainer(pod: PodSpec, c: Container) {
    c in pod.containers || (pod.initContainers.Some? && c in pod.initContainers.value)
  }

  ghost predicate ContainerTakesConfigMap(c: Container, name: string) {
    || (exists e :: c.env.Some? && e in c.env.value
          && e.valueFrom.Some? && e.valueFrom.value.configMapKeyRef == Some(name))
    || (exists f :: c.envFrom.Some? && f in c.envFrom.value && f.configMapRef == Some(name))
  }

  ghost predicate ContainerTakesSecret(c: Container, name: string) {
    || (exists e :: c.env.Some? && e in c.env.value
          && e.valueFrom.Some? && e.valueFrom.value.secretKeyRef == Some(name))
    || (exists f :: c.envFrom.Some? && f in c.envFrom.value && f.secretRef == Some(name))
  }

  /** A volume, or an environment variable or `envFrom` of a container or init container, takes the ConfigMap. */
  ghost predicate TakesConfigMap(pod: PodSpec, name: string) {
    || (exists v :: pod.volumes.Some? && v in pod.volumes.value && v.configMap == Some(name))
    || (exists c :: IsContainer(pod, c) && ContainerTakesConfigMap(c, name))
  }

  ghost predicate TakesSecret(pod: PodSpec, name: string) {
    || (exists v :: pod.volumes.Some? && v in pod.volumes.value && v.secret == Some(Some(name)))
    || (exists c :: IsContainer(pod, c) && ContainerTakesSecret(c, name))
  }

  ghost predicate UsesConfigMap(sts: StatefulSet, name: string) {
    sts.spec.Some? && sts.spec.value.template.spec.Some? && TakesConfigMap(sts.spec.value.template.spec.value, name)
  }

  ghost predicate UsesSecret(sts: StatefulSet, name: string) {
    sts.spec.Some? && sts.spec.value.template.spec.Some? && TakesSecret(sts.spec.value.template.spec.value, name)
  }

  /** An annotation of the StatefulSet whose key starts with `prefix` has the object's name as its value. */
  ghost predicate NamedUnder(sts: StatefulSet, prefix: string, name: string) {
    sts.metadata.annotations.Some? &&
    exists key :: key in sts.metadata.annotations.value && prefix <= key && sts.metadata.annotations.value[key] == name
  }

  ghost predicate IgnoresConfigMap(sts: StatefulSet, name: string) {
    NamedUnder(sts, "restarter.stackable.tech/ignore-configmap.", name)
  }

  ghost predicate IgnoresSecret(sts: StatefulSet, name: string) {
    NamedUnder(sts, "restarter.stackable.tech/ignore-secret.", name)
  }

  /** What an annotation says about an object that is cached as `meta`, if it is cached. */
  ghost predicate Says(value: string, meta: Option<PartialMeta>, ignored: bool) {
    if meta.Some? && meta.value.uid.Some? && meta.value.resourceVersion.Some? && !ignored
    then value == meta.value.uid.value + "/" + meta.value.resourceVersion.value
    else value == "changes-ignored"
  }

  ghost predicate CachedAs(store: Store, namespace: string, name: string, meta: Option<PartialMeta>) {
    var ref := ObjectRef(namespace, name);
    if meta.Some? then ref in store && store[ref] == meta.value else ref !in store
  }

  lemma ContainerConfigMap(c: Container, name: string)
    ensures ContainerTakesConfigMap(c, name) <==>
              || (exists e :: e in c.env.GetOr([]) && EnvVarRef(ConfigMaps, e) == Some(name))
              || (exists f :: f in c.envFrom.GetOr([]) && EnvFromRef(ConfigMaps, f) == Some(name))
  {
    forall e
      ensures e in c.env.GetOr([]) && EnvVarRef(ConfigMaps, e) == Some(name)
              <==> c.env.Some? && e in c.env.value
                   && e.valueFrom.Some? && e.valueFrom.value.configMapKeyRef == Some(name)
    {
    }
    forall f
      ensures f in c.envFrom.GetOr([]) && EnvFromRef(ConfigMaps, f) == Some(name)
              <==> c.envFrom.Some? && f in c.envFrom.value && f.configMapRef == Some(name)
    {
    }
  }

  lemma NamesConfigMap(pod: PodSpec, name: string)
    ensures Names(pod, ConfigMaps, name) <==> TakesConfigMap(pod, name)
  {
    forall v
      ensures v in pod.volumes.GetOr([]) && VolumeRef(ConfigMaps, v) == Some(name)
              <==> pod.volumes.Some? && v in pod.volumes.value && v.configMap == Some(name)
    {
    }
    forall c
      ensures c in AllContainers(pod) <==> IsContainer(pod, c)
      ensures ContainerTakesConfigMap(c, name) <==>
                || (exists e :: e in c.env.GetOr([]) && EnvVarRef(ConfigMaps, e) == Some(name))
                || (exists f :: f in c.envFrom.GetOr([]) && EnvFromRef(ConfigMaps, f) == Some(name))
    {
      ContainerConfigMap(c, name);
    }
    hide AllContainers, IsContainer, EnvVarRef, EnvFromRef, VolumeRef, ContainerTakesConfigMap;
    if c :| IsContainer(pod, c) && ContainerTakesConfigMap(c, name) {
      if e :| e in c.env.GetOr([]) && EnvVarRef(ConfigMaps, e) == Some(name) {
        assert c in AllContainers(pod) && e in c.env.GetOr([]);
      } else {
        var f :| f in c.envFrom.GetOr([]) && EnvFromRef(ConfigMaps, f) == Some(name);
        assert c in AllContainers(pod) && f in c.envFrom.GetOr([]);
      }
    }
  }

  lemma ReferencesConfigMap(sts: StatefulSet, name: string)
    ensures References(sts, ConfigMaps, name) <==> UsesConfigMap(sts, name)
  {
    if sts.spec.Some? && sts.spec.value.template.spec.Some? {
      NamesConfigMap(sts.spec.value.template.spec.value, name);
    }
  }

  lemma ContainerSecret(c: Container, name: string)
    ensures ContainerTakesSecret(c, name) <==>
              || (exists e :: e in c.env.GetOr([]) && EnvVarRef(Secrets, e) == Some(name))
              || (exists f :: f in c.envFrom.GetOr([]) && EnvFromRef(Secrets, f) == Some(name))
  {
    forall e
      ensures e in c.env.GetOr([]) && EnvVarRef(Secrets, e) == Some(name)
              <==> c.env.Some? && e in c.env.value
                   && e.valueFrom.Some? && e.valueFrom.value.secretKeyRef == Some(name)
    {
    }
    forall f
      ensures f in c.envFrom.GetOr([]) && EnvFromRef(Secrets, f) == Some(name)
              <==> c.envFrom.Some? && f in c.envFrom.value && f.secretRef == Some(name)
    {
    }
  }

  lemma NamesSecret(pod: PodSpec, name: string)
    ensures Names(pod, Secrets, name) <==> TakesSecret(pod, name)
  {
    forall v
      ensures v in pod.volumes.GetOr([]) && VolumeRef(Secrets, v) == Some(name)
              <==> pod.volumes.Some? && v in pod.volumes.value && v.secret == Some(Some(name))
    {
    }
    forall c
      ensures c in AllContainers(pod) <==> IsContainer(pod, c)
      ensures ContainerTakesSecret(c, name) <==>
                || (exists e :: e in c.env.GetOr([]) && EnvVarRef(Secrets, e) == Some(name))
                || (exists f :: f in c.envFrom.GetOr([]) && EnvFromRef(Secrets, f) == Some(name))
    {
      ContainerSecret(c, name);
    }
    hide AllContainers, IsContainer, EnvVarRef, EnvFromRef, VolumeRef, ContainerTakesSecret;
    if c :| IsContainer(pod, c) && ContainerTakesSecret(c, name) {
      if e :| e in c.env.GetOr([]) && EnvVarRef(Secrets, e) == Some(name) {
        assert c in AllContainers(pod) && e in c.env.GetOr([]);
      } else {
        var f :| f in c.envFrom.GetOr([]) && EnvFromRef(Secrets, f) == Some(name);
        assert c in AllContainers(pod) && f in c.envFrom.GetOr([]);
      }
    }
  }

  lemma ReferencesSecret(sts: StatefulSet, name: string)
    ensures References(sts, Secrets, name) <==> UsesSecret(sts, name)
  {
    if sts.spec.Some? && sts.spec.value.template.spec.Some? {
      NamesSecret(sts.spec.value.template.spec.value, name);
    }
  }

  lemma IgnoredExactly(sts: StatefulSet, kind: Kind, name: string)
    ensures name in IgnoredNames(sts, kind) <==> NamedUnder(sts, IgnorePrefix(kind), name)
  {
  }

  lemma TokenSays(
    sts: StatefulSet, kind: Kind, store: Store, namespace: string, name: string, meta: Option<PartialMeta>)
    requires sts.metadata.namespace == Some(namespace) && CachedAs(store, namespace, name, meta)
    ensures Says(TokenFor(sts, kind, store, name), meta, NamedUnder(sts, IgnorePrefix(kind), name))
  {
    IgnoredExactly(sts, kind, name);
  }

  /**
   A ConfigMap's annotation is there if and only if the Pod spec takes the ConfigMap, and says its revision unless the
   StatefulSet ignores it or the store does not know it.
   */
  lemma ConfigMapAnnotation(
    sts: StatefulSet, cms: Store, secrets: Store, namespace: string, name: string, meta: Option<PartialMeta>)
    requires sts.metadata.namespace == Some(namespace) && CachedAs(cms, namespace, name, meta)
    ensures var m, key := RestarterAnnotations(sts, cms, secrets), "configmap.restarter.stackable.tech/" + name;
            && (key in m <==> UsesConfigMap(sts, name))
            && (key in m ==> Says(m[key], meta, IgnoresConfigMap(sts, name)))
  {
    AnnotationAt(sts, cms, secrets, ConfigMaps, name);
    ReferencesConfigMap(sts, name);
    TokenSays(sts, ConfigMaps, cms, namespace, name, meta);
  }

  lemma SecretAnnotation(
    sts: StatefulSet, cms: Store, secrets: Store, namespace: string, name: string, meta: Option<PartialMeta>)
    requires sts.metadata.namespace == Some(namespace) && CachedAs(secrets, namespace, name, meta)
    ensures var m, key := RestarterAnnotations(sts, cms, secrets), "secret.restarter.stackable.tech/" + name;
            && (key in m <==> UsesSecret(sts, name))
            && (key in m ==> Says(m[key], meta, IgnoresSecret(sts, name)))
  {
    AnnotationAt(sts, cms, secrets, Secrets, name);
    ReferencesSecret(sts, name);
    TokenSays(sts, Secrets, secrets, namespace, name, meta);
  }

  /** There are no other annotations. */
  lemma NoOtherAnnotation(sts: StatefulSet, cms: Store, secrets: Store, key: string) returns (name: string)
    requires key in RestarterAnnotations(sts, cms, secrets)
    ensures || (key == "configmap.restarter.stackable.tech/" + name && UsesConfigMap(sts, name))
            || (key == "secret.restarter.stackable.tech/" + name && UsesSecret(sts, name))
  {
    var kind: Kind;
    kind, name := AnnotationKey(sts, cms, secrets, key);
    if kind == ConfigMaps {
      ReferencesConfigMap(sts, name);
    } else {
      ReferencesSecret(sts, name);
    }
  }
}
