/**
 What the restarter leaves on the server when nothing is left to do, in the terms of the API objects themselves
 (rust/operator-binary/src/restart_controller/statefulset.rs): the annotations of every enabled StatefulSet, and who
 owns them.
 */
module QuietContract {
  import opened Wrappers
  import opened Kubernetes
  import opened RestartFingerprint
  import opened ServerSideApply
  import opened RestartController
  import opened RestartConvergence
  import opened AnnotationContract

  predicate Labelled(labels: map<string, string>, key: string, value: string) {
    key in labels && labels[key] == value
  }

  predicate NothingLeft(s: State) {
    && s.stsEvents == [] && s.cms.events == [] && s.secrets.events == []
    && s.triggers == [] && s.pending == {} && s.inFlight == map[]
  }

  /** An enabled StatefulSet that the operator can read. */
  predicate Managed(s: State, ref: ObjectRef) {
    && ref in s.stses && s.stses[ref].decodable
    && Labelled(s.stses[ref].sts.metadata.labels, "restarter.stackable.tech/enabled", "true")
  }

  /** An object on the server as the watches see it: not at all if it is labelled to be ignored. */
  function SeenAs(server: map<ObjectRef, ConfigObject>, ref: ObjectRef): Option<PartialMeta> {
    if ref in server && !Labelled(server[ref].labels, "restarter.stackable.tech/ignore", "true")
    then Some(server[ref].meta) else None
  }

  predicate TemplateCarries(sts: StatefulSet, key: string, value: string) {
    && sts.spec.Some? && sts.spec.value.template.metadata.Some?
    && sts.spec.value.template.metadata.value.annotations.Some?
    && key in sts.spec.value.template.metadata.value.annotations.value
    && sts.spec.value.template.metadata.value.annotations.value[key] == value
  }

  lemma Carried(sts: StatefulSet, key: string, value: string)
    ensures Lookup(TemplateAnnotations(sts), key) == Some(value) <==> TemplateCarries(sts, key, value)
  {
  }

  lemma ServerTokenSays(s: State, sts: StatefulSet, kind: Kind, namespace: string, name: string)
    requires sts.metadata.namespace == Some(namespace)
    ensures Says(ServerToken(s, sts, kind, name),
                 SeenAs(if kind == ConfigMaps then s.cms.server else s.secrets.server, ObjectRef(namespace, name)),
                 NamedUnder(sts, IgnorePrefix(kind), name))
  {
    IgnoredExactly(sts, kind, name);
  }

  lemma ManagedConverges(s: State, steps: seq<Step>, ref: ObjectRef)
    requires Init(s) && CanRun(s, steps) && NothingLeft(Run(s, steps)) && Managed(Run(s, steps), ref)
    ensures Converged(Run(s, steps), ref)
    ensures Enabled(Run(s, steps).stses[ref])
  {
    Convergence(s, steps, ref);
  }

  /**
   When nothing is left to do, a ConfigMap taken by an enabled StatefulSet has its annotation on the Pod template: the
   revision on the server, or that changes are ignored if the object is absent, without identity, or ignored by its
   label or by name.
   */
  lemma QuietConfigMapAnnotation(s: State, steps: seq<Step>, ref: ObjectRef, namespace: string, name: string)
    returns (value: string)
    requires Init(s) && CanRun(s, steps) && NothingLeft(Run(s, steps)) && Managed(Run(s, steps), ref)
    requires Run(s, steps).stses[ref].sts.metadata.namespace == Some(namespace)
    requires UsesConfigMap(Run(s, steps).stses[ref].sts, name)
    ensures var s' := Run(s, steps);
            var sts := s'.stses[ref].sts;
            && TemplateCarries(sts, "configmap.restarter.stackable.tech/" + name, value)
            && Says(value, SeenAs(s'.cms.server, ObjectRef(namespace, name)), IgnoresConfigMap(sts, name))
  {
    var s' := Run(s, steps);
    var sts := s'.stses[ref].sts;
    ManagedConverges(s, steps, ref);
    ReferencesConfigMap(sts, name);
    value := ServerToken(s', sts, ConfigMaps, name);
    ServerTokenSays(s', sts, ConfigMaps, namespace, name);
    Carried(sts, KeyPrefix(ConfigMaps) + name, value);
  }

  lemma QuietSecretAnnotation(s: State, steps: seq<Step>, ref: ObjectRef, namespace: string, name: string)
    returns (value: string)
    requires Init(s) && CanRun(s, steps) && NothingLeft(Run(s, steps)) && Managed(Run(s, steps), ref)
    requires Run(s, steps).stses[ref].sts.metadata.namespace == Some(namespace)
    requires UsesSecret(Run(s, steps).stses[ref].sts, name)
    ensures var s' := Run(s, steps);
            var sts := s'.stses[ref].sts;
            && TemplateCarries(sts, "secret.restarter.stackable.tech/" + name, value)
            && Says(value, SeenAs(s'.secrets.server, ObjectRef(namespace, name)), IgnoresSecret(sts, name))
  {
    var s' := Run(s, steps);
    var sts := s'.stses[ref].sts;
    ManagedConverges(s, steps, ref);
    ReferencesSecret(sts, name);
    value := ServerToken(s', sts, Secrets, name);
    ServerTokenSays(s', sts, Secrets, namespace, name);
    Carried(sts, KeyPrefix(Secrets) + name, value);
  }

  /**
   Then the restarter owns the annotations of exactly the objects taken, so that those of objects no longer taken are
   gone unless someone else holds them.
   */
  lemma QuietOwnership(s: State, steps: seq<Step>, ref: ObjectRef, key: string)
    requires Init(s) && CanRun(s, steps) && NothingLeft(Run(s, steps)) && Managed(Run(s, steps), ref)
    ensures var o := Run(s, steps).stses[ref];
            key in o.owners && Restarter in o.owners[key]
            <==> || (exists name :: key == "configmap.restarter.stackable.tech/" + name && UsesConfigMap(o.sts, name))
                 || (exists name :: key == "secret.restarter.stackable.tech/" + name && UsesSecret(o.sts, name))
  {
    var o := Run(s, steps).stses[ref];
    ManagedConverges(s, steps, ref);
    OwnsReferenced(o, key);
    assert key in Owned(o, Restarter)
           <==> exists kind, name :: References(o.sts, kind, name) && key == KeyPrefix(kind) + name;
  }

  lemma OwnsReferenced(o: ManagedSts, key: string)
    ensures key in Owned(o, Restarter) <==> key in o.owners && Restarter in o.owners[key]
    ensures (exists kind, name :: References(o.sts, kind, name) && key == KeyPrefix(kind) + name)
            <==> || (exists name :: key == "configmap.restarter.stackable.tech/" + name && UsesConfigMap(o.sts, name))
                 || (exists name :: key == "secret.restarter.stackable.tech/" + name && UsesSecret(o.sts, name))
  {
    forall kind, name ensures References(o.sts, kind, name) <==>
                                if kind == ConfigMaps then UsesConfigMap(o.sts, name) else UsesSecret(o.sts, name)
    {
      ReferencesConfigMap(o.sts, name);
      ReferencesSecret(o.sts, name);
    }
    hide References, UsesConfigMap, UsesSecret;
    if name :| key == KeyPrefix(ConfigMaps) + name && UsesConfigMap(o.sts, name) {
      assert References(o.sts, ConfigMaps, name);
    }
    if name :| key == KeyPrefix(Secrets) + name && UsesSecret(o.sts, name) {
      assert References(o.sts, Secrets, name);
    }
  }
}
