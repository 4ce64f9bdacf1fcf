/**
 The StatefulSet restarter as a distributed controller
 (rust/operator-binary/src/restart_controller/statefulset.rs, `start`, `trigger_all`, `reconcile`,
 `error_policy`): API server, in-order watch streams, local stores, triggers, a deduplicated queue, and
 reconciles that read the stores first and patch the server later. Any step may follow any other.
 */
module RestartController {
  import opened Wrappers
  import opened Kubernetes
  import opened RestartFingerprint
  import opened ServerSideApply

  // ---------------------------------------------------------------- watch streams

  datatype Event<V> = Applied(key: ObjectRef, value: V) | Deleted(key: ObjectRef)

  function EffectOn<V>(e: Event<V>): Option<V> {
    if e.Applied? then Some(e.value) else None
  }

  function ApplyEvent<V>(store: map<ObjectRef, V>, e: Event<V>): map<ObjectRef, V> {
    match e
    case Applied(key, value) => store[key := value]
    case Deleted(key) => store - {key}
  }

  function Replay<V>(store: map<ObjectRef, V>, events: seq<Event<V>>): map<ObjectRef, V>
    decreases |events|
  {
    if events == [] then store else Replay(ApplyEvent(store, events[0]), events[1..])
  }

  predicate Undelivered<V>(events: seq<Event<V>>, key: ObjectRef) {
    exists i :: 0 <= i < |events| && events[i].key == key
  }

  /** What a label-filtered watch reports when the visible entry at `key` becomes `now`. */
  function Report<V>(before: map<ObjectRef, V>, key: ObjectRef, now: Option<V>): seq<Event<V>> {
    match now
    case Some(value) => [Applied(key, value)]
    case None => if key in before then [Deleted(key)] else []
  }

  // ---------------------------------------------------------------- state

  /** A ConfigMap or Secret on the server. */
  datatype ConfigObject = ConfigObject(meta: PartialMeta, labels: map<string, string>)

  /** One metadata watch: server contents, undelivered events, the reflector's store, and whether `get` resolves. */
  datatype Watch = Watch(
    server: map<ObjectRef, ConfigObject>,
    events: seq<Event<PartialMeta>>,
    store: Store,
    ready: bool)

  /** A running reconcile and what it has read so far. */
  datatype Reconcile =
    | Fetched(sts: StatefulSet)
    | ConfigMapsRead(sts: StatefulSet, annotations: Annotations)
    | Computed(sts: StatefulSet, annotations: Annotations)

  datatype State = State(
    stses: map<ObjectRef, ManagedSts>,
    stsEvents: seq<Event<ManagedSts>>,
    stsStore: map<ObjectRef, ManagedSts>,
    cms: Watch,
    secrets: Watch,
    triggers: seq<ObjectRef>,
    pending: set<ObjectRef>,
    inFlight: map<ObjectRef, Reconcile>)

  function WatchOf(s: State, kind: Kind): Watch {
    if kind == ConfigMaps then s.cms else s.secrets
  }

  function WithWatch(s: State, kind: Kind, w: Watch): State {
    if kind == ConfigMaps then s.(cms := w) else s.(secrets := w)
  }

  predicate Enabled(o: ManagedSts) {
    Lookup(o.sts.metadata.labels, "restarter.stackable.tech/enabled") == Some("true")
  }

  predicate IgnoredByLabel(o: ConfigObject) {
    Lookup(o.labels, "restarter.stackable.tech/ignore") == Some("true")
  }

  function StsView(stses: map<ObjectRef, ManagedSts>): map<ObjectRef, ManagedSts> {
    map r | r in stses && Enabled(stses[r]) :: stses[r]
  }

  function ConfigView(server: map<ObjectRef, ConfigObject>): Store {
    map r | r in server && !IgnoredByLabel(server[r]) :: server[r].meta
  }

  function Put<V>(m: map<ObjectRef, V>, key: ObjectRef, value: Option<V>): map<ObjectRef, V> {
    if value.Some? then m[key := value.value] else m - {key}
  }

  // ---------------------------------------------------------------- steps

  datatype Step =
    // The world outside: any object is created, changed or deleted.
    | EditStatefulSet(ref: ObjectRef, sts: Option<ManagedSts>)
    | EditObject(kind: Kind, ref: ObjectRef, config: Option<ConfigObject>)
    // The watch streams and the applier.
    | FirstItem(kind: Kind)
    | DeliverStatefulSet
    | DeliverObject(kind: Kind, order: seq<ObjectRef>)
    | Schedule(index: nat)
    | Start(ref: ObjectRef)
    | Read(ref: ObjectRef)
    | SendPatch(ref: ObjectRef, acknowledged: bool)
    | Fail(ref: ObjectRef)

  predicate CanStep(s: State, step: Step) {
    match step
    case EditStatefulSet(_, _) => true
    case EditObject(_, _, _) => true
    case FirstItem(_) => true
    case DeliverStatefulSet => s.stsEvents != []
    case DeliverObject(kind, order) =>
      && WatchOf(s, kind).events != []
      && (set r | r in order) == s.stsStore.Keys
    case Schedule(index) => index < |s.triggers|
    case Start(ref) => ref in s.pending && ref !in s.inFlight
    case Read(ref) =>
      && ref in s.inFlight
      && (match s.inFlight[ref]
          case Fetched(_) => s.cms.ready
          case ConfigMapsRead(_, _) => s.secrets.ready
          case Computed(_, _) => false)
    case SendPatch(ref, _) => ref in s.inFlight && s.inFlight[ref].Computed?
    case Fail(ref) => ref in s.inFlight
  }

  function DoEditStatefulSet(s: State, ref: ObjectRef, sts: Option<ManagedSts>): State {
    var now := if sts.Some? && Enabled(sts.value) then sts else None;
    s.(stses := Put(s.stses, ref, sts), stsEvents := s.stsEvents + Report(StsView(s.stses), ref, now))
  }

  function DoEditObject(w: Watch, ref: ObjectRef, config: Option<ConfigObject>): Watch {
    var now := if config.Some? && !IgnoredByLabel(config.value) then Some(config.value.meta) else None;
    w.(server := Put(w.server, ref, config), events := w.events + Report(ConfigView(w.server), ref, now))
  }

  /** A StatefulSet event updates the store; only an applied object triggers, and only itself. */
  function DoDeliverStatefulSet(s: State): State
    requires s.stsEvents != []
  {
    var e := s.stsEvents[0];
    s.(stsEvents := s.stsEvents[1..],
       stsStore := ApplyEvent(s.stsStore, e),
       triggers := if e.Applied? then s.triggers + [e.key] else s.triggers)
  }

  /** A ConfigMap or Secret event, of either sort, triggers every stored StatefulSet. */
  function DoDeliverObject(s: State, kind: Kind, order: seq<ObjectRef>): State
    requires WatchOf(s, kind).events != []
  {
    var w := WatchOf(s, kind);
    WithWatch(s, kind, w.(events := w.events[1..], store := ApplyEvent(w.store, w.events[0]), ready := true))
    .(triggers := s.triggers + order)
  }

  function DoFirstItem(s: State, kind: Kind): State {
    WithWatch(s, kind, WatchOf(s, kind).(ready := true))
  }

  function DoSchedule(s: State, index: nat): State
    requires index < |s.triggers|
  {
    s.(triggers := s.triggers[..index] + s.triggers[index + 1..], pending := s.pending + {s.triggers[index]})
  }

  /** A scheduled reconcile takes its object from the store; missing and undecodable objects end it at once. */
  function DoStart(s: State, ref: ObjectRef): State {
    var s' := s.(pending := s.pending - {ref});
    if ref in s.stsStore && s.stsStore[ref].decodable
    then s'.(inFlight := s.inFlight[ref := Fetched(s.stsStore[ref].sts)])
    else s'
  }

  function ReadNext(s: State, r: Reconcile): Reconcile {
    match r
    case Fetched(sts) => ConfigMapsRead(sts, KindAnnotations(sts, ConfigMaps, s.cms.store))
    case ConfigMapsRead(sts, annotations) =>
      Computed(sts, annotations + KindAnnotations(sts, Secrets, s.secrets.store))
    case Computed(_, _) => r
  }

  function DoRead(s: State, ref: ObjectRef): State
    requires ref in s.inFlight
  {
    s.(inFlight := s.inFlight[ref := ReadNext(s, s.inFlight[ref])])
  }

  /** Retriable errors are requeued by `error_policy`. */
  function Requeue(s: State, ref: ObjectRef): State {
    s.(inFlight := s.inFlight - {ref}, pending := s.pending + {ref})
  }

  function DoSendPatch(s: State, ref: ObjectRef, acknowledged: bool): State
    requires ref in s.inFlight && s.inFlight[ref].Computed?
  {
    var Computed(sts, annotations) := s.inFlight[ref];
    match Patch(Lookup(s.stses, ref), sts.metadata.uid, annotations)
    case Err(_) => Requeue(s, ref)
    case Ok(o) =>
      var landed := s.(
        stses := s.stses[ref := o],
        stsEvents := s.stsEvents + if o != s.stses[ref] && Enabled(o) then [Applied(ref, o)] else []);
      if acknowledged then landed.(inFlight := s.inFlight - {ref}) else Requeue(landed, ref)
  }

  function Do(s: State, step: Step): State
    requires CanStep(s, step)
  {
    match step
    case EditStatefulSet(ref, sts) => DoEditStatefulSet(s, ref, sts)
    case EditObject(kind, ref, config) => WithWatch(s, kind, DoEditObject(WatchOf(s, kind), ref, config))
    case FirstItem(kind) => DoFirstItem(s, kind)
    case DeliverStatefulSet => DoDeliverStatefulSet(s)
    case DeliverObject(kind, order) => DoDeliverObject(s, kind, order)
    case Schedule(index) => DoSchedule(s, index)
    case Start(ref) => DoStart(s, ref)
    case Read(ref) => DoRead(s, ref)
    case SendPatch(ref, acknowledged) => DoSendPatch(s, ref, acknowledged)
    case Fail(ref) => Requeue(s, ref)
  }

  /**
   What makes a StatefulSet be reconciled: news that it was created or changed, not that it was deleted; and any news
   of a ConfigMap or Secret, for every StatefulSet in the store.
   */
  lemma TriggeredExactly(s: State, step: Step, ref: ObjectRef)
    requires CanStep(s, step)
    ensures multiset(Do(s, step).triggers)[ref] > multiset(s.triggers)[ref] <==>
              || (step.DeliverStatefulSet? && s.stsEvents[0].Applied? && s.stsEvents[0].key == ref)
              || (step.DeliverObject? && ref in s.stsStore)
  {
    match step
    case DeliverObject(_, order) =>
      assert ref in s.stsStore <==> ref in order;
      assert multiset(s.triggers + order)[ref] == multiset(s.triggers)[ref] + multiset(order)[ref];
    case Schedule(index) =>
      assert s.triggers == s.triggers[..index] + [s.triggers[index]] + s.triggers[index + 1..];
    case _ =>
  }

  predicate CanRun(s: State, steps: seq<Step>)
    decreases |steps|
  {
    steps == [] || (CanStep(s, steps[0]) && CanRun(Do(s, steps[0]), steps[1..]))
  }

  function Run(s: State, steps: seq<Step>): State
    requires CanRun(s, steps)
    decreases |steps|
  {
    if steps == [] then s else Run(Do(s, steps[0]), steps[1..])
  }

  /** Startup: nothing is stored, and the streams are about to list what is visible on the server. */
  ghost predicate Init(s: State) {
    && s.stsStore == map[] && Replay(map[], s.stsEvents) == StsView(s.stses)
    && s.cms.store == map[] && Replay(map[], s.cms.events) == ConfigView(s.cms.server)
    && s.secrets.store == map[] && Replay(map[], s.secrets.events) == ConfigView(s.secrets.server)
    && s.triggers == [] && s.pending == {} && s.inFlight == map[]
  }

  // ---------------------------------------------------------------- the invariant

  function Target(s: State, sts: StatefulSet): Annotations {
    RestarterAnnotations(sts, s.cms.store, s.secrets.store)
  }

  /** Nothing still on its way would make this StatefulSet be reconciled again. */
  predicate Untriggered(s: State, ref: ObjectRef) {
    !Undelivered(s.stsEvents, ref) && ref !in s.triggers && ref !in s.pending
  }

  /** A reconcile whose reads all agree with the present stores. */
  predicate Current(s: State, r: Reconcile, sts: StatefulSet) {
    && r.sts == sts
    && match r
       case Fetched(_) => true
       case ConfigMapsRead(_, annotations) => annotations == KindAnnotations(sts, ConfigMaps, s.cms.store)
       case Computed(_, annotations) => annotations == Target(s, sts)
  }

  /**
   An enabled, readable StatefulSet that nothing will trigger is either settled on the server, or in the
   hands of a reconcile that is about to settle it.
   */
  predicate Accounted(s: State, ref: ObjectRef) {
    ref in s.stses && Enabled(s.stses[ref]) && s.stses[ref].decodable && Untriggered(s, ref) ==>
      if ref in s.inFlight then Current(s, s.inFlight[ref], s.stses[ref].sts)
      else Settled(s.stses[ref], Target(s, s.stses[ref].sts))
  }

  ghost predicate Mirrored(s: State) {
    && Replay(s.stsStore, s.stsEvents) == StsView(s.stses)
    && Replay(s.cms.store, s.cms.events) == ConfigView(s.cms.server)
    && Replay(s.secrets.store, s.secrets.events) == ConfigView(s.secrets.server)
  }

  ghost predicate Inv(s: State) {
    Mirrored(s) && forall ref :: Accounted(s, ref)
  }

  // ---------------------------------------------------------------- replaying streams

  lemma UndeliveredSplit<V>(events: seq<Event<V>>, key: ObjectRef)
    requires events != []
    ensures Undelivered(events, key) <==> events[0].key == key || Undelivered(events[1..], key)
  {
    if Undelivered(events[1..], key) {
      var i :| 0 <= i < |events[1..]| && events[1..][i].key == key;
      assert events[i + 1].key == key;
    }
    if Undelivered(events, key) {
      var i :| 0 <= i < |events| && events[i].key == key;
      assert i > 0 ==> events[1..][i - 1].key == key;
    }
  }

  lemma UndeliveredAppend<V>(events: seq<Event<V>>, e: Event<V>, key: ObjectRef)
    ensures Undelivered(events + [e], key) <==> Undelivered(events, key) || e.key == key
  {
    assert (events + [e])[|events|] == e;
    if Undelivered(events, key) {
      var i :| 0 <= i < |events| && events[i].key == key;
      assert (events + [e])[i].key == key;
    }
  }

  lemma RemoveAt<T>(items: seq<T>, index: nat, x: T)
    requires index < |items|
    ensures x in items <==> x == items[index] || x in items[..index] + items[index + 1..]
  {
    assert items == items[..index] + [items[index]] + items[index + 1..];
  }

  lemma {:induction false} ReplayAppend<V>(store: map<ObjectRef, V>, events: seq<Event<V>>, e: Event<V>)
    ensures Replay(store, events + [e]) == ApplyEvent(Replay(store, events), e)
    decreases |events|
  {
    if events != [] {
      assert (events + [e])[1..] == events[1..] + [e];
      ReplayAppend(ApplyEvent(store, events[0]), events[1..], e);
    }
  }

  lemma {:induction false} ReplayUntouched<V>(store: map<ObjectRef, V>, events: seq<Event<V>>, key: ObjectRef)
    requires !Undelivered(events, key)
    ensures Lookup(Replay(store, events), key) == Lookup(store, key)
    decreases |events|
  {
    if events != [] {
      UndeliveredSplit(events, key);
      ReplayUntouched(ApplyEvent(store, events[0]), events[1..], key);
    }
  }

  lemma ReplayReport<V>(store: map<ObjectRef, V>, events: seq<Event<V>>, key: ObjectRef, now: Option<V>)
    ensures var view := Replay(store, events);
            Replay(store, events + Report(view, key, now)) == Put(view, key, now)
  {
    var view := Replay(store, events);
    var report := Report(view, key, now);
    if report == [] {
      assert events + report == events;
      assert Put(view, key, now) == view;
    } else {
      ReplayAppend(store, events, report[0]);
    }
  }

  lemma StsViewPut(stses: map<ObjectRef, ManagedSts>, ref: ObjectRef, sts: Option<ManagedSts>)
    ensures StsView(Put(stses, ref, sts))
            == Put(StsView(stses), ref, if sts.Some? && Enabled(sts.value) then sts else None)
  {
  }

  lemma ConfigViewPut(server: map<ObjectRef, ConfigObject>, ref: ObjectRef, config: Option<ConfigObject>)
    ensures ConfigView(Put(server, ref, config))
            == Put(ConfigView(server), ref,
                   if config.Some? && !IgnoredByLabel(config.value) then Some(config.value.meta) else None)
  {
  }

  /** With nothing undelivered about it, a StatefulSet's store entry is its server object. */
  lemma StoreAgrees(s: State, ref: ObjectRef)
    requires Mirrored(s) && !Undelivered(s.stsEvents, ref)
    ensures Lookup(s.stsStore, ref) == Lookup(StsView(s.stses), ref)
  {
    ReplayUntouched(s.stsStore, s.stsEvents, ref);
  }

  // ---------------------------------------------------------------- preservation

  lemma MirroredPatch(s: State, ref: ObjectRef, o: ManagedSts)
    requires Mirrored(s) && ref in s.stses && Enabled(o) == Enabled(s.stses[ref])
    ensures var events := s.stsEvents + if o != s.stses[ref] && Enabled(o) then [Applied(ref, o)] else [];
            Replay(s.stsStore, events) == StsView(s.stses[ref := o])
  {
    StsViewPut(s.stses, ref, Some(o));
    var view := StsView(s.stses);
    if o != s.stses[ref] && Enabled(o) {
      ReplayAppend(s.stsStore, s.stsEvents, Applied(ref, o));
    } else if Enabled(o) {
      assert s.stses[ref := o] == s.stses;
      assert s.stsEvents + [] == s.stsEvents;
    } else {
      assert view - {ref} == view;
      assert s.stsEvents + [] == s.stsEvents;
    }
  }

  lemma PatchKeepsLabels(o: ManagedSts, applied: Annotations)
    ensures Enabled(Apply(o, applied)) == Enabled(o)
    ensures Apply(o, applied).decodable == o.decodable
  {
    AppliedAnnotations(o, applied);
  }

  lemma EditStatefulSetKeepsMirrored(s: State, ref: ObjectRef, sts: Option<ManagedSts>)
    requires Mirrored(s)
    ensures Mirrored(DoEditStatefulSet(s, ref, sts))
  {
    StsViewPut(s.stses, ref, sts);
    ReplayReport(s.stsStore, s.stsEvents, ref, if sts.Some? && Enabled(sts.value) then sts else None);
  }

  lemma EditObjectKeepsMirrored(s: State, kind: Kind, ref: ObjectRef, config: Option<ConfigObject>)
    requires Mirrored(s)
    ensures Mirrored(WithWatch(s, kind, DoEditObject(WatchOf(s, kind), ref, config)))
  {
    var w := WatchOf(s, kind);
    ConfigViewPut(w.server, ref, config);
    ReplayReport(w.store, w.events, ref,
                 if config.Some? && !IgnoredByLabel(config.value) then Some(config.value.meta) else None);
  }

  lemma SendPatchKeepsMirrored(s: State, ref: ObjectRef, acknowledged: bool)
    requires Mirrored(s) && ref in s.inFlight && s.inFlight[ref].Computed?
    ensures Mirrored(DoSendPatch(s, ref, acknowledged))
  {
    var Computed(sts, annotations) := s.inFlight[ref];
    var patched := Patch(Lookup(s.stses, ref), sts.metadata.uid, annotations);
    if patched.Ok? {
      PatchKeepsLabels(s.stses[ref], annotations);
      MirroredPatch(s, ref, patched.value);
    }
  }

  lemma DeliverStatefulSetKeepsMirrored(s: State)
    requires Mirrored(s) && s.stsEvents != []
    ensures Mirrored(DoDeliverStatefulSet(s))
  {
  }

  lemma DeliverObjectKeepsMirrored(s: State, kind: Kind, order: seq<ObjectRef>)
    requires Mirrored(s) && WatchOf(s, kind).events != []
    ensures Mirrored(DoDeliverObject(s, kind, order))
  {
  }

  /** Steps of the queue and of reconciles touch neither server, streams nor stores. */
  lemma SameMirrors(s: State, s': State)
    requires Mirrored(s)
    requires s'.stses == s.stses && s'.stsEvents == s.stsEvents && s'.stsStore == s.stsStore
    requires s'.cms.(ready := true) == s.cms.(ready := true) && s'.secrets.(ready := true) == s.secrets.(ready := true)
    ensures Mirrored(s')
  {
  }

  lemma FirstItemKeepsMirrored(s: State, kind: Kind)
    requires Mirrored(s)
    ensures Mirrored(DoFirstItem(s, kind))
  {
    SameMirrors(s, DoFirstItem(s, kind));
  }

  lemma ReconcileStepsKeepMirrored(s: State, ref: ObjectRef)
    requires Mirrored(s)
    ensures Mirrored(DoStart(s, ref)) && Mirrored(Requeue(s, ref))
    ensures ref in s.inFlight ==> Mirrored(DoRead(s, ref))
  {
    SameMirrors(s, DoStart(s, ref));
    SameMirrors(s, Requeue(s, ref));
    if ref in s.inFlight {
      SameMirrors(s, DoRead(s, ref));
    }
  }

  lemma StepKeepsMirrored(s: State, step: Step)
    requires Mirrored(s) && CanStep(s, step)
    ensures Mirrored(Do(s, step))
  {
    match step
    case EditStatefulSet(ref, sts) => EditStatefulSetKeepsMirrored(s, ref, sts);
    case EditObject(kind, ref, config) => EditObjectKeepsMirrored(s, kind, ref, config);
    case DeliverStatefulSet => DeliverStatefulSetKeepsMirrored(s);
    case DeliverObject(kind, order) => DeliverObjectKeepsMirrored(s, kind, order);
    case SendPatch(ref, acknowledged) => SendPatchKeepsMirrored(s, ref, acknowledged);
    case FirstItem(kind) => FirstItemKeepsMirrored(s, kind);
    case Schedule(index) => SameMirrors(s, DoSchedule(s, index));
    case Start(ref) => ReconcileStepsKeepMirrored(s, ref);
    case Read(ref) => ReconcileStepsKeepMirrored(s, ref);
    case Fail(ref) => ReconcileStepsKeepMirrored(s, ref);
  }

  /** An object event leaves every stored StatefulSet triggered, so none of them is claimed to be settled. */
  lemma DeliverObjectKeepsAccounted(s: State, kind: Kind, order: seq<ObjectRef>, ref: ObjectRef)
    requires Mirrored(s) && CanStep(s, DeliverObject(kind, order))
    ensures Accounted(DoDeliverObject(s, kind, order), ref)
  {
    if !Undelivered(s.stsEvents, ref) {
      StoreAgrees(s, ref);
      assert ref in StsView(s.stses) ==> ref in s.stsStore.Keys;
      assert ref in StsView(s.stses) ==> ref in order;
    }
  }

  lemma DeliverStatefulSetKeepsAccounted(s: State, ref: ObjectRef)
    requires Mirrored(s) && Accounted(s, ref) && s.stsEvents != []
    ensures Accounted(DoDeliverStatefulSet(s), ref)
  {
    var s' := DoDeliverStatefulSet(s);
    DeliverStatefulSetKeepsMirrored(s);
    UndeliveredSplit(s.stsEvents, ref);
    if !Undelivered(s'.stsEvents, ref) {
      StoreAgrees(s', ref);
    }
  }

  lemma StartKeepsAccounted(s: State, started: ObjectRef, ref: ObjectRef)
    requires Mirrored(s) && Accounted(s, ref) && started !in s.inFlight
    ensures Accounted(DoStart(s, started), ref)
  {
    hide Replay, StsView, ConfigView, Settled, RestarterAnnotations, KindAnnotations;
    if ref == started {
      if && !Undelivered(s.stsEvents, ref)
         && ref in s.stses && Enabled(s.stses[ref]) && s.stses[ref].decodable
      {
        StartedFromServer(s, ref);
      }
    } else {
      StartKeepsOthers(s, started, ref);
    }
  }

  lemma StartKeepsOthers(s: State, started: ObjectRef, ref: ObjectRef)
    requires Accounted(s, ref) && ref != started
    ensures Accounted(DoStart(s, started), ref)
  {
  }

  /** A reconcile started with no news outstanding takes the server's object. */
  lemma StartedFromServer(s: State, ref: ObjectRef)
    requires Mirrored(s) && !Undelivered(s.stsEvents, ref)
    requires ref in s.stses && Enabled(s.stses[ref]) && s.stses[ref].decodable
    ensures DoStart(s, ref).inFlight == s.inFlight[ref := Fetched(s.stses[ref].sts)]
  {
    StoreAgrees(s, ref);
  }

  lemma ScheduleKeepsAccounted(s: State, index: nat, ref: ObjectRef)
    requires Accounted(s, ref) && index < |s.triggers|
    ensures Accounted(DoSchedule(s, index), ref)
  {
    RemoveAt(s.triggers, index, ref);
  }

  lemma SendPatchKeepsAccounted(s: State, patched: ObjectRef, acknowledged: bool, ref: ObjectRef)
    requires Accounted(s, ref) && patched in s.inFlight && s.inFlight[patched].Computed?
    ensures Accounted(DoSendPatch(s, patched, acknowledged), ref)
  {
    hide RestarterAnnotations, KindAnnotations;
    var Computed(sts, annotations) := s.inFlight[patched];
    var result := Patch(Lookup(s.stses, patched), sts.metadata.uid, annotations);
    if result.Ok? {
      PatchKeepsLabels(s.stses[patched], annotations);
      UndeliveredAppend(s.stsEvents, Applied(patched, result.value), ref);
      assert s.stsEvents + [] == s.stsEvents;
    }
  }

  lemma EditKeepsAccounted(s: State, edited: ObjectRef, sts: Option<ManagedSts>, ref: ObjectRef)
    requires Accounted(s, ref)
    ensures Accounted(DoEditStatefulSet(s, edited, sts), ref)
  {
    hide RestarterAnnotations, KindAnnotations;
    var now := if sts.Some? && Enabled(sts.value) then sts else None;
    var report := Report(StsView(s.stses), edited, now);
    if report == [] {
      assert s.stsEvents + report == s.stsEvents;
    } else {
      UndeliveredAppend(s.stsEvents, report[0], ref);
    }
  }

  lemma EditObjectKeepsAccounted(s: State, kind: Kind, edited: ObjectRef, config: Option<ConfigObject>, ref: ObjectRef)
    requires Accounted(s, ref)
    ensures Accounted(WithWatch(s, kind, DoEditObject(WatchOf(s, kind), edited, config)), ref)
  {
  }

  lemma ReadKeepsAccounted(s: State, reader: ObjectRef, ref: ObjectRef)
    requires Accounted(s, ref) && CanStep(s, Read(reader))
    ensures Accounted(DoRead(s, reader), ref)
  {
  }

  lemma FailKeepsAccounted(s: State, failed: ObjectRef, ref: ObjectRef)
    requires Accounted(s, ref)
    ensures Accounted(Requeue(s, failed), ref)
  {
  }

  lemma FirstItemKeepsAccounted(s: State, kind: Kind, ref: ObjectRef)
    requires Accounted(s, ref)
    ensures Accounted(DoFirstItem(s, kind), ref)
  {
  }

  lemma StepKeepsAccounted(s: State, step: Step, ref: ObjectRef)
    requires Inv(s) && CanStep(s, step)
    ensures Accounted(Do(s, step), ref)
  {
    assert Accounted(s, ref);
    match step
    case DeliverStatefulSet => DeliverStatefulSetKeepsAccounted(s, ref);
    case DeliverObject(kind, order) => DeliverObjectKeepsAccounted(s, kind, order, ref);
    case Schedule(index) => ScheduleKeepsAccounted(s, index, ref);
    case Start(started) => StartKeepsAccounted(s, started, ref);
    case SendPatch(patched, acknowledged) => SendPatchKeepsAccounted(s, patched, acknowledged, ref);
    case EditStatefulSet(edited, sts) => EditKeepsAccounted(s, edited, sts, ref);
    case EditObject(kind, edited, config) => EditObjectKeepsAccounted(s, kind, edited, config, ref);
    case Read(reader) => ReadKeepsAccounted(s, reader, ref);
    case Fail(failed) => FailKeepsAccounted(s, failed, ref);
    case FirstItem(kind) => FirstItemKeepsAccounted(s, kind, ref);
  }

  /** The convergence invariant survives every step, whatever its interleaving with reads and writes. */
  lemma StepKeepsInv(s: State, step: Step)
    requires Inv(s) && CanStep(s, step)
    ensures Inv(Do(s, step))
  {
    StepKeepsMirrored(s, step);
    forall ref ensures Accounted(Do(s, step), ref) {
      StepKeepsAccounted(s, step, ref);
    }
  }

  lemma InitInv(s: State)
    requires Init(s)
    ensures Inv(s)
  {
    forall ref ensures Accounted(s, ref) {
      if !Undelivered(s.stsEvents, ref) {
        StoreAgrees(s, ref);
      }
    }
  }

  lemma {:induction false} RunKeepsInv(s: State, steps: seq<Step>)
    requires Inv(s) && CanRun(s, steps)
    ensures Inv(Run(s, steps))
    decreases |steps|
  {
    if steps != [] {
      StepKeepsInv(s, steps[0]);
      RunKeepsInv(Do(s, steps[0]), steps[1..]);
    }
  }

  // ---------------------------------------------------------------- waiting for the stores

  /** A reconcile holds annotations of only those stores that could be read. */
  predicate ReadOnlyReady(s: State, r: Reconcile) {
    match r
    case Fetched(_) => true
    case ConfigMapsRead(_, _) => s.cms.ready
    case Computed(_, _) => s.cms.ready && s.secrets.ready
  }

  predicate Waited(s: State) {
    forall ref :: ref in s.inFlight ==> ReadOnlyReady(s, s.inFlight[ref])
  }

  lemma StepKeepsWaited(s: State, step: Step)
    requires Waited(s) && CanStep(s, step)
    ensures Waited(Do(s, step))
  {
    hide KindAnnotations, Patch, ApplyEvent, Report, Enabled, StsView, ConfigView;
  }

  lemma {:induction false} RunKeepsWaited(s: State, steps: seq<Step>)
    requires Waited(s) && CanRun(s, steps)
    ensures Waited(Run(s, steps))
    decreases |steps|
  {
    hide Do, CanStep, Waited;
    if steps != [] {
      StepKeepsWaited(s, steps[0]);
      RunKeepsWaited(Do(s, steps[0]), steps[1..]);
    }
  }

  /** Nothing is patched before both stores can be read. */
  lemma PatchesWaitForStores(s: State, steps: seq<Step>, ref: ObjectRef, acknowledged: bool)
    requires Init(s) && CanRun(s, steps) && CanStep(Run(s, steps), SendPatch(ref, acknowledged))
    ensures Run(s, steps).cms.ready && Run(s, steps).secrets.ready
  {
    RunKeepsWaited(s, steps);
    assert ReadOnlyReady(Run(s, steps), Run(s, steps).inFlight[ref]);
  }
}
