/**
 The restart fingerprint: one Pod-template annotation per referenced ConfigMap or Secret
 (rust/operator-binary/src/restart_controller/statefulset.rs).

 `GetUpdatedRestarterAnnotations` follows the source: it walks the Pod spec and extends a map twice.
 `RestarterAnnotations` is what it computes, stated as a map comprehension over the set of referenced
 names, so that order, repetition and placement of references play no part.
 */
module RestartFingerprint {
  import opened Wrappers
  import opened Kubernetes
  import DI = DelayedInit

  datatype Kind = ConfigMaps | Secrets

  datatype Error = ConfigMapsUninitialized | SecretsUninitialized

  const CHANGES_IGNORED := "changes-ignored"

  function KeyPrefix(kind: Kind): string {
    match kind
    case ConfigMaps => "configmap.restarter.stackable.tech/"
    case Secrets => "secret.restarter.stackable.tech/"
  }

  function IgnorePrefix(kind: Kind): string {
    match kind
    case ConfigMaps => "restarter.stackable.tech/ignore-configmap."
    case Secrets => "restarter.stackable.tech/ignore-secret."
  }

  // ---------------------------------------------------------------- references

  function VolumeRef(kind: Kind, volume: Volume): Option<string> {
    match kind
    case ConfigMaps => volume.configMap
    case Secrets => if volume.secret.Some? then volume.secret.value else None
  }

  function EnvVarRef(kind: Kind, envVar: EnvVar): Option<string> {
    match envVar.valueFrom
    case None => None
    case Some(source) => if kind.ConfigMaps? then source.configMapKeyRef else source.secretKeyRef
  }

  function EnvFromRef(kind: Kind, envFrom: EnvFromSource): Option<string> {
    if kind.ConfigMaps? then envFrom.configMapRef else envFrom.secretRef
  }

  function AllContainers(pod: PodSpec): seq<Container> {
    pod.containers + pod.initContainers.GetOr([])
  }

  function FilterMap<A>(items: seq<A>, f: A -> Option<string>): seq<string> {
    if items == [] then []
    else (if f(items[0]).Some? then [f(items[0]).value] else []) + FilterMap(items[1..], f)
  }

  function Flatten<A, B>(items: seq<A>, f: A -> Option<seq<B>>): seq<B> {
    if items == [] then [] else f(items[0]).GetOr([]) + Flatten(items[1..], f)
  }

  function EnvOf(c: Container): Option<seq<EnvVar>> { c.env }

  function EnvFromOf(c: Container): Option<seq<EnvFromSource>> { c.envFrom }

  function FindPodRefs(
    pod: PodSpec,
    volumeRef: Volume -> Option<string>,
    envVarRef: EnvVar -> Option<string>,
    envFromRef: EnvFromSource -> Option<string>): seq<string>
  {
    var containers := AllContainers(pod);
    FilterMap(pod.volumes.GetOr([]), volumeRef)
    + FilterMap(Flatten(containers, EnvOf), envVarRef)
    + FilterMap(Flatten(containers, EnvFromOf), envFromRef)
  }

  // The three closures the source passes for each kind.
  function VolumeRefOf(kind: Kind): Volume -> Option<string> { v => VolumeRef(kind, v) }

  function EnvVarRefOf(kind: Kind): EnvVar -> Option<string> { e => EnvVarRef(kind, e) }

  function EnvFromRefOf(kind: Kind): EnvFromSource -> Option<string> { f => EnvFromRef(kind, f) }

  function PodRefs(pod: PodSpec, kind: Kind): seq<string> {
    FindPodRefs(pod, VolumeRefOf(kind), EnvVarRefOf(kind), EnvFromRefOf(kind))
  }

  /** The references a StatefulSet's Pod spec makes, in source order. */
  function ObjectRefs(sts: StatefulSet, kind: Kind): seq<string> {
    match Template(sts).spec
    case Some(pod) => PodRefs(pod, kind)
    case None => []
  }

  /** Some volume, environment variable or `envFrom` of some container names the object. */
  ghost predicate Names(pod: PodSpec, kind: Kind, name: string) {
    || (exists v :: v in pod.volumes.GetOr([]) && VolumeRef(kind, v) == Some(name))
    || (exists c, e :: c in AllContainers(pod) && e in c.env.GetOr([]) && EnvVarRef(kind, e) == Some(name))
    || (exists c, f :: c in AllContainers(pod) && f in c.envFrom.GetOr([]) && EnvFromRef(kind, f) == Some(name))
  }

  ghost predicate References(sts: StatefulSet, kind: Kind, name: string) {
    Template(sts).spec.Some? && Names(Template(sts).spec.value, kind, name)
  }

  lemma {:induction false} FilterMapExact<A>(items: seq<A>, f: A -> Option<string>, name: string)
    ensures name in FilterMap(items, f) <==> exists a :: a in items && f(a) == Some(name)
  {
    if items != [] {
      FilterMapExact(items[1..], f, name);
      assert forall a :: a in items <==> a == items[0] || a in items[1..];
    }
  }

  lemma {:induction false} FlattenExact<A, B>(items: seq<A>, f: A -> Option<seq<B>>, b: B)
    ensures b in Flatten(items, f) <==> exists a :: a in items && b in f(a).GetOr([])
  {
    if items != [] {
      FlattenExact(items[1..], f, b);
      assert forall a :: a in items <==> a == items[0] || a in items[1..];
    }
  }

  /** The iterator chain finds a name exactly when the Pod spec mentions it. */
  lemma PodRefsExact(pod: PodSpec, kind: Kind, name: string)
    ensures name in PodRefs(pod, kind) <==> Names(pod, kind, name)
  {
    var containers := AllContainers(pod);
    var env, envFrom := Flatten(containers, EnvOf), Flatten(containers, EnvFromOf);
    FilterMapExact(pod.volumes.GetOr([]), VolumeRefOf(kind), name);
    FilterMapExact(env, EnvVarRefOf(kind), name);
    FilterMapExact(envFrom, EnvFromRefOf(kind), name);
    forall e ensures e in env <==> exists c :: c in containers && e in c.env.GetOr([]) {
      FlattenExact(containers, EnvOf, e);
      assert forall c :: c in containers && e in EnvOf(c).GetOr([]) ==> e in c.env.GetOr([]);
      assert forall c :: c in containers && e in c.env.GetOr([]) ==> e in EnvOf(c).GetOr([]);
    }
    forall f ensures f in envFrom <==> exists c :: c in containers && f in c.envFrom.GetOr([]) {
      FlattenExact(containers, EnvFromOf, f);
      assert forall c :: c in containers && f in EnvFromOf(c).GetOr([]) ==> f in c.envFrom.GetOr([]);
      assert forall c :: c in containers && f in c.envFrom.GetOr([]) ==> f in EnvFromOf(c).GetOr([]);
    }
    assert forall v :: VolumeRefOf(kind)(v) == VolumeRef(kind, v);
    assert forall e :: EnvVarRefOf(kind)(e) == EnvVarRef(kind, e);
    assert forall f :: EnvFromRefOf(kind)(f) == EnvFromRef(kind, f);
  }

  // --------------------------------------------------------------- the annotation map

  /** The namespace references are resolved in; API objects always carry one. */
  function NamespaceOf(sts: StatefulSet): string {
    sts.metadata.namespace.GetOr("")
  }

  function IgnoredNames(sts: StatefulSet, kind: Kind): set<string> {
    var annotations := sts.metadata.annotations.GetOr(map[]);
    set key | key in annotations && IgnorePrefix(kind) <= key :: annotations[key]
  }

  function Token(entry: Option<PartialMeta>, ignored: bool): string {
    match entry
    case Some(PartialMeta(Some(uid), Some(version))) =>
      if ignored then CHANGES_IGNORED else uid + "/" + version
    case _ => CHANGES_IGNORED
  }

  function TokenFor(sts: StatefulSet, kind: Kind, store: Store, name: string): string {
    Token(Lookup(store, ObjectRef(NamespaceOf(sts), name)), name in IgnoredNames(sts, kind))
  }

  function ReferencedNames(sts: StatefulSet, kind: Kind): set<string> {
    set name | name in ObjectRefs(sts, kind)
  }

  /** One annotation per name, in terms of what the source has at hand when it extends the map. */
  function AnnotationsFor(
    namespace: string, ignored: set<string>, prefix: string, store: Store, names: set<string>): Annotations
  {
    map key | key in (set name | name in names :: prefix + name)
      :: var name := key[|prefix|..]; Token(Lookup(store, ObjectRef(namespace, name)), name in ignored)
  }

  function KindAnnotations(sts: StatefulSet, kind: Kind, store: Store): Annotations {
    AnnotationsFor(NamespaceOf(sts), IgnoredNames(sts, kind), KeyPrefix(kind), store, ReferencedNames(sts, kind))
  }

  function RestarterAnnotations(sts: StatefulSet, cms: Store, secrets: Store): Annotations {
    KindAnnotations(sts, ConfigMaps, cms) + KindAnnotations(sts, Secrets, secrets)
  }

  // --------------------------------------------------------------- what the map means

  /** Keys of the two kinds never meet, and a key determines the name it was built from. */
  lemma KeysSeparate(kind: Kind, name: string, kind': Kind, name': string)
    ensures KeyPrefix(kind) + name == KeyPrefix(kind') + name' <==> kind == kind' && name == name'
  {
    var key, key' := KeyPrefix(kind) + name, KeyPrefix(kind') + name';
    if key == key' {
      assert key[0] == KeyPrefix(kind)[0] && key'[0] == KeyPrefix(kind')[0];
      assert key[|KeyPrefix(kind)|..] == name && key'[|KeyPrefix(kind)|..] == name';
    }
  }

  lemma KindAnnotationsAt(sts: StatefulSet, kind: Kind, store: Store, name: string)
    ensures var key := KeyPrefix(kind) + name;
            && (key in KindAnnotations(sts, kind, store) <==> name in ObjectRefs(sts, kind))
            && (name in ObjectRefs(sts, kind) ==>
                  KindAnnotations(sts, kind, store)[key] == TokenFor(sts, kind, store, name))
  {
    var key := KeyPrefix(kind) + name;
    assert key[|KeyPrefix(kind)|..] == name;
    if key in KindAnnotations(sts, kind, store) {
      var name' :| name' in ReferencedNames(sts, kind) && key == KeyPrefix(kind) + name';
      KeysSeparate(kind, name, kind, name');
    }
    if name in ObjectRefs(sts, kind) {
      assert name in ReferencedNames(sts, kind);
    }
  }

  lemma ReferencesExact(sts: StatefulSet, kind: Kind, name: string)
    ensures name in ObjectRefs(sts, kind) <==> References(sts, kind, name)
  {
    if Template(sts).spec.Some? {
      PodRefsExact(Template(sts).spec.value, kind, name);
    }
  }

  function StoreOf(kind: Kind, cms: Store, secrets: Store): Store {
    if kind == ConfigMaps then cms else secrets
  }

  /** A referenced object has its entry, with the token of that object's cache entry; others have none. */
  lemma AnnotationAt(sts: StatefulSet, cms: Store, secrets: Store, kind: Kind, name: string)
    ensures var m, key := RestarterAnnotations(sts, cms, secrets), KeyPrefix(kind) + name;
            && (key in m <==> References(sts, kind, name))
            && (key in m ==> m[key] == TokenFor(sts, kind, StoreOf(kind, cms, secrets), name))
  {
    var key := KeyPrefix(kind) + name;
    KindAnnotationsAt(sts, kind, StoreOf(kind, cms, secrets), name);
    ReferencesExact(sts, kind, name);
    var other := if kind == ConfigMaps then Secrets else ConfigMaps;
    if key in KindAnnotations(sts, other, StoreOf(other, cms, secrets)) {
      var name' :| name' in ReferencedNames(sts, other) && key == KeyPrefix(other) + name';
      KeysSeparate(kind, name, other, name');
    }
  }

  /** Every entry is some referenced object's. */
  lemma AnnotationKey(sts: StatefulSet, cms: Store, secrets: Store, key: string) returns (kind: Kind, name: string)
    requires key in RestarterAnnotations(sts, cms, secrets)
    ensures References(sts, kind, name) && key == KeyPrefix(kind) + name
  {
    kind := if key in KindAnnotations(sts, ConfigMaps, cms) then ConfigMaps else Secrets;
    name :| name in ReferencedNames(sts, kind) && key == KeyPrefix(kind) + name;
    ReferencesExact(sts, kind, name);
  }

  /** Two Pod specs that reference the same objects are annotated alike, however they arrange the references. */
  lemma ArrangementIrrelevant(sts: StatefulSet, sts': StatefulSet, cms: Store, secrets: Store)
    requires sts.metadata == sts'.metadata
    ensures (forall kind, name :: References(sts, kind, name) <==> References(sts', kind, name))
            <==> RestarterAnnotations(sts, cms, secrets).Keys == RestarterAnnotations(sts', cms, secrets).Keys
    ensures RestarterAnnotations(sts, cms, secrets).Keys == RestarterAnnotations(sts', cms, secrets).Keys ==>
              RestarterAnnotations(sts, cms, secrets) == RestarterAnnotations(sts', cms, secrets)
  {
    var m, m' := RestarterAnnotations(sts, cms, secrets), RestarterAnnotations(sts', cms, secrets);
    forall kind, name
      ensures KeyPrefix(kind) + name in m <==> References(sts, kind, name)
      ensures KeyPrefix(kind) + name in m' <==> References(sts', kind, name)
    {
      AnnotationAt(sts, cms, secrets, kind, name);
      AnnotationAt(sts', cms, secrets, kind, name);
    }
    if m.Keys == m'.Keys {
      forall kind, name ensures References(sts, kind, name) <==> References(sts', kind, name) {
        assert KeyPrefix(kind) + name in m.Keys <==> KeyPrefix(kind) + name in m'.Keys;
      }
      forall key | key in m ensures m[key] == m'[key] {
        var kind, name := AnnotationKey(sts, cms, secrets, key);
        AnnotationAt(sts, cms, secrets, kind, name);
        AnnotationAt(sts', cms, secrets, kind, name);
      }
    } else if forall kind, name :: References(sts, kind, name) <==> References(sts', kind, name) {
      forall key ensures key in m <==> key in m' {
        if key in m {
          var _, _ := AnnotationKey(sts, cms, secrets, key);
        }
        if key in m' {
          var _, _ := AnnotationKey(sts', cms, secrets, key);
        }
      }
      assert false;
    }
  }

  // --------------------------------------------------------------- the computation

  lemma OneMoreName(
    namespace: string, ignored: set<string>, prefix: string, store: Store, names: set<string>, name: string)
    ensures AnnotationsFor(namespace, ignored, prefix, store, names + {name})
            == AnnotationsFor(namespace, ignored, prefix, store, names)
               [prefix + name := Token(Lookup(store, ObjectRef(namespace, name)), name in ignored)]
  {
    var m := AnnotationsFor(namespace, ignored, prefix, store, names);
    var m' := AnnotationsFor(namespace, ignored, prefix, store, names + {name});
    assert (prefix + name)[|prefix|..] == name;
    assert (set n | n in names + {name} :: prefix + n) == (set n | n in names :: prefix + n) + {prefix + name};
    assert m'.Keys == m.Keys + {prefix + name};
  }

  lemma UnionThenUpdate(start: Annotations, m: Annotations, key: string, value: string)
    ensures (start + m)[key := value] == start + m[key := value]
  {
  }

  /** One of the two `extend` calls: inserts a token under every reference's key, in order. */
  method ExtendWith(
    start: Annotations, refs: seq<string>, namespace: string, ignored: set<string>, prefix: string, store: Store)
    returns (annotations: Annotations)
    ensures annotations == start + AnnotationsFor(namespace, ignored, prefix, store, set name | name in refs)
  {
    annotations := start;
    ghost var seen: set<string> := {};
    for i := 0 to |refs|
      invariant seen == set name | name in refs[..i]
      invariant annotations == start + AnnotationsFor(namespace, ignored, prefix, store, seen)
    {
      var entry := Lookup(store, ObjectRef(namespace, refs[i]));
      var token := Token(entry, refs[i] in ignored);
      OneMoreName(namespace, ignored, prefix, store, seen, refs[i]);
      UnionThenUpdate(start, AnnotationsFor(namespace, ignored, prefix, store, seen), prefix + refs[i], token);
      annotations := annotations[prefix + refs[i] := token];
      seen := seen + {refs[i]};
    }
    assert refs[..|refs|] == refs;
  }

  method GetUpdatedRestarterAnnotations(
    sts: StatefulSet,
    cms: Result<Store, DI.InitDropped>,
    secrets: Result<Store, DI.InitDropped>) returns (r: Result<Annotations, Error>)
    requires sts.metadata.namespace.Some?
    ensures cms.Err? ==> r == Err(ConfigMapsUninitialized)
    ensures cms.Ok? && secrets.Err? ==> r == Err(SecretsUninitialized)
    ensures cms.Ok? && secrets.Ok? ==> r == Ok(RestarterAnnotations(sts, cms.value, secrets.value))
  {
    if cms.Err? {
      return Err(ConfigMapsUninitialized);
    }
    var annotations := ExtendWith(
      map[], ObjectRefs(sts, ConfigMaps), NamespaceOf(sts), IgnoredNames(sts, ConfigMaps), KeyPrefix(ConfigMaps),
      cms.value);
    assert annotations == KindAnnotations(sts, ConfigMaps, cms.value);
    if secrets.Err? {
      return Err(SecretsUninitialized);
    }
    annotations := ExtendWith(
      annotations, ObjectRefs(sts, Secrets), NamespaceOf(sts), IgnoredNames(sts, Secrets), KeyPrefix(Secrets),
      secrets.value);
    r := Ok(annotations);
  }

  // --------------------------------------------------------------- restart exactly on relevant change

  /** What the restarter distinguishes about an object: absent (or without identity), or one revision. */
  datatype Fingerprint = Missing | Revision(uid: string, version: string)

  function FingerprintOf(entry: Option<PartialMeta>): Fingerprint {
    match entry
    case Some(PartialMeta(Some(uid), Some(version))) => Revision(uid, version)
    case _ => Missing
  }

  /** `uid` continues the other uid past a slash, and the other version makes up for it. */
  predicate Overlaps(longer: Fingerprint, shorter: Fingerprint) {
    && longer.Revision? && shorter.Revision?
    && shorter.uid + "/" <= longer.uid
    && shorter.version == longer.uid[|shorter.uid| + 1..] + "/" + longer.version
  }

  /**
   Two objects print alike exactly when they are the same revision or their uids overlap at a slash.
   Kubernetes uids hold no slash, so for them the annotation value is a faithful fingerprint.
   */
  lemma TokenExact(a: Option<PartialMeta>, b: Option<PartialMeta>)
    ensures Token(a, false) == Token(b, false) <==>
              || FingerprintOf(a) == FingerprintOf(b)
              || Overlaps(FingerprintOf(a), FingerprintOf(b))
              || Overlaps(FingerprintOf(b), FingerprintOf(a))
  {
    var f, g := FingerprintOf(a), FingerprintOf(b);
    if f.Revision? && g.Revision? {
      if |f.uid| >= |g.uid| {
        PairExact(f, g);
      } else {
        PairExact(g, f);
      }
    } else if f.Revision? {
      SlashSeparates(f);
    } else if g.Revision? {
      SlashSeparates(g);
    }
  }

  lemma OverlapNeedsSlash(longer: Fingerprint, shorter: Fingerprint)
    ensures Overlaps(longer, shorter) ==> '/' in longer.uid
  {
    if Overlaps(longer, shorter) {
      assert longer.uid[|shorter.uid|] == (shorter.uid + "/")[|shorter.uid|];
    }
  }

  lemma SlashSeparates(f: Fingerprint)
    requires f.Revision?
    ensures f.uid + "/" + f.version != CHANGES_IGNORED
  {
    assert (f.uid + "/" + f.version)[|f.uid|] == '/';
    assert '/' !in CHANGES_IGNORED;
  }

  lemma PairExact(f: Fingerprint, g: Fingerprint)
    requires f.Revision? && g.Revision? && |f.uid| >= |g.uid|
    ensures f.uid + "/" + f.version == g.uid + "/" + g.version <==> f == g || Overlaps(f, g) || Overlaps(g, f)
  {
    var s, t := f.uid + "/" + f.version, g.uid + "/" + g.version;
    if s == t {
      assert g.uid == t[..|g.uid|] == s[..|g.uid|] == f.uid[..|g.uid|];
      if |f.uid| == |g.uid| {
        assert f.version == s[|f.uid| + 1..] == t[|f.uid| + 1..] == g.version;
      } else {
        assert f.uid[|g.uid|] == s[|g.uid|] == t[|g.uid|] == '/';
        assert f.uid[..|g.uid| + 1] == g.uid + "/";
        assert g.version == t[|g.uid| + 1..] == s[|g.uid| + 1..] == f.uid[|g.uid| + 1..] + "/" + f.version;
      }
    }
    if Overlaps(f, g) {
      assert f.uid == g.uid + "/" + f.uid[|g.uid| + 1..];
    }
  }

  /** Distinct revisions that print alike need a uid with a slash in it. */
  lemma CollidingUids()
    ensures var a := Some(PartialMeta(Some("a/b"), Some("c")));
            var b := Some(PartialMeta(Some("a"), Some("b/c")));
            FingerprintOf(a) != FingerprintOf(b) && Token(a, false) == Token(b, false)
  {
    assert "a/b" + "/" + "c" == "a" + "/" + "b/c";
  }

  /** Uids as Kubernetes issues them. */
  ghost predicate SlashFree(store: Store) {
    forall r :: r in store && store[r].uid.Some? ==> '/' !in store[r].uid.value
  }

  /** A change of this object is meant to restart the StatefulSet's Pods. */
  ghost predicate Relevant(sts: StatefulSet, kind: Kind, name: string) {
    References(sts, kind, name) && name !in IgnoredNames(sts, kind)
  }

  ghost predicate SameRelevantRevisions(sts: StatefulSet, kind: Kind, store: Store, store': Store) {
    forall name :: Relevant(sts, kind, name) ==>
      var r := ObjectRef(NamespaceOf(sts), name);
      FingerprintOf(Lookup(store, r)) == FingerprintOf(Lookup(store', r))
  }

  /** Two objects with slash-free uids are told apart unless the StatefulSet ignores the name. */
  lemma TokenChangesExactly(sts: StatefulSet, kind: Kind, store: Store, store': Store, name: string)
    requires SlashFree(store) && SlashFree(store')
    ensures var r := ObjectRef(NamespaceOf(sts), name);
            TokenFor(sts, kind, store, name) == TokenFor(sts, kind, store', name)
            <==> name in IgnoredNames(sts, kind)
                 || FingerprintOf(Lookup(store, r)) == FingerprintOf(Lookup(store', r))
  {
    var r := ObjectRef(NamespaceOf(sts), name);
    var f, g := FingerprintOf(Lookup(store, r)), FingerprintOf(Lookup(store', r));
    TokenExact(Lookup(store, r), Lookup(store', r));
    if f.Revision? && g.Revision? {
      assert '/' !in f.uid && '/' !in g.uid;
      OverlapNeedsSlash(f, g);
      OverlapNeedsSlash(g, f);
    }
  }

  /**
   Two states of the local stores give the same annotations, and hence no restart, if and only if every
   referenced object that is not ignored is at the same revision in both.
   */
  lemma RestartExactlyOnRelevantChange(sts: StatefulSet, cms: Store, secrets: Store, cms': Store, secrets': Store)
    requires SlashFree(cms) && SlashFree(secrets) && SlashFree(cms') && SlashFree(secrets')
    ensures RestarterAnnotations(sts, cms, secrets) == RestarterAnnotations(sts, cms', secrets')
            <==> && SameRelevantRevisions(sts, ConfigMaps, cms, cms')
                 && SameRelevantRevisions(sts, Secrets, secrets, secrets')
  {
    if RestarterAnnotations(sts, cms, secrets) == RestarterAnnotations(sts, cms', secrets') {
      forall name | Relevant(sts, ConfigMaps, name)
        ensures var r := ObjectRef(NamespaceOf(sts), name);
                FingerprintOf(Lookup(cms, r)) == FingerprintOf(Lookup(cms', r))
      {
        SameEntryExactly(sts, cms, secrets, cms', secrets', ConfigMaps, name);
      }
      forall name | Relevant(sts, Secrets, name)
        ensures var r := ObjectRef(NamespaceOf(sts), name);
                FingerprintOf(Lookup(secrets, r)) == FingerprintOf(Lookup(secrets', r))
      {
        SameEntryExactly(sts, cms, secrets, cms', secrets', Secrets, name);
      }
    }
    if SameRelevantRevisions(sts, ConfigMaps, cms, cms') && SameRelevantRevisions(sts, Secrets, secrets, secrets') {
      SameRevisionsSameAnnotations(sts, cms, secrets, cms', secrets');
    }
  }

  lemma SameEntryExactly(
    sts: StatefulSet, cms: Store, secrets: Store, cms': Store, secrets': Store, kind: Kind, name: string)
    requires SlashFree(cms) && SlashFree(secrets) && SlashFree(cms') && SlashFree(secrets')
    ensures var m, m' := RestarterAnnotations(sts, cms, secrets), RestarterAnnotations(sts, cms', secrets');
            var key, r := KeyPrefix(kind) + name, ObjectRef(NamespaceOf(sts), name);
            var store, store' := StoreOf(kind, cms, secrets), StoreOf(kind, cms', secrets');
            Lookup(m, key) == Lookup(m', key)
            <==> (Relevant(sts, kind, name) ==> FingerprintOf(Lookup(store, r)) == FingerprintOf(Lookup(store', r)))
  {
    AnnotationAt(sts, cms, secrets, kind, name);
    AnnotationAt(sts, cms', secrets', kind, name);
    TokenChangesExactly(sts, kind, StoreOf(kind, cms, secrets), StoreOf(kind, cms', secrets'), name);
  }

  lemma SameRevisionsSameAnnotations(sts: StatefulSet, cms: Store, secrets: Store, cms': Store, secrets': Store)
    requires SlashFree(cms) && SlashFree(secrets) && SlashFree(cms') && SlashFree(secrets')
    requires SameRelevantRevisions(sts, ConfigMaps, cms, cms') && SameRelevantRevisions(sts, Secrets, secrets, secrets')
    ensures RestarterAnnotations(sts, cms, secrets) == RestarterAnnotations(sts, cms', secrets')
  {
    forall key
      ensures Lookup(RestarterAnnotations(sts, cms, secrets), key)
              == Lookup(RestarterAnnotations(sts, cms', secrets'), key)
    {
      SameRevisionsSameEntry(sts, cms, secrets, cms', secrets', key);
    }
    SameLookups(RestarterAnnotations(sts, cms, secrets), RestarterAnnotations(sts, cms', secrets'));
  }

  lemma SameRevisionsSameEntry(
    sts: StatefulSet, cms: Store, secrets: Store, cms': Store, secrets': Store, key: string)
    requires SlashFree(cms) && SlashFree(secrets) && SlashFree(cms') && SlashFree(secrets')
    requires SameRelevantRevisions(sts, ConfigMaps, cms, cms') && SameRelevantRevisions(sts, Secrets, secrets, secrets')
    ensures Lookup(RestarterAnnotations(sts, cms, secrets), key)
            == Lookup(RestarterAnnotations(sts, cms', secrets'), key)
  {
    if key in RestarterAnnotations(sts, cms, secrets) {
      var kind, name := AnnotationKey(sts, cms, secrets, key);
      SameEntryExactly(sts, cms, secrets, cms', secrets', kind, name);
    } else if key in RestarterAnnotations(sts, cms', secrets') {
      var kind, name := AnnotationKey(sts, cms', secrets', key);
      SameEntryExactly(sts, cms, secrets, cms', secrets', kind, name);
    }
  }

  /** Entries of other objects never matter, whatever their uids look like. */
  lemma OnlyRelevantEntriesMatter(sts: StatefulSet, kind: Kind, store: Store, store': Store)
    requires forall name :: Relevant(sts, kind, name) ==>
               var r := ObjectRef(NamespaceOf(sts), name); Lookup(store, r) == Lookup(store', r)
    ensures KindAnnotations(sts, kind, store) == KindAnnotations(sts, kind, store')
  {
    var m, m' := KindAnnotations(sts, kind, store), KindAnnotations(sts, kind, store');
    forall key | key in m ensures m[key] == m'[key] {
      var name :| name in ReferencedNames(sts, kind) && key == KeyPrefix(kind) + name;
      ReferencesExact(sts, kind, name);
      KindAnnotationsAt(sts, kind, store, name);
      KindAnnotationsAt(sts, kind, store', name);
    }
  }

  /** Only namespace, annotations and Pod spec are read: rewriting template annotations changes nothing. */
  lemma TemplateAnnotationsNotRead(sts: StatefulSet, sts': StatefulSet, kind: Kind, store: Store)
    requires sts.metadata.namespace == sts'.metadata.namespace && sts.metadata.annotations == sts'.metadata.annotations
    requires Template(sts).spec == Template(sts').spec
    ensures KindAnnotations(sts, kind, store) == KindAnnotations(sts', kind, store)
    ensures forall name :: Relevant(sts, kind, name) <==> Relevant(sts', kind, name)
  {
  }
}
