/**
 Where the restarter ends up: settled exactly on what the server says, and never restarting Pods for
 anything else (rust/operator-binary/src/restart_controller/statefulset.rs).
 */
module RestartConvergence {
  import opened Wrappers
  import opened Kubernetes
  import opened RestartFingerprint
  import opened ServerSideApply
  import opened RestartController

  // ---------------------------------------------------------------- convergence

  predicate Quiescent(s: State) {
    && s.stsEvents == [] && s.cms.events == [] && s.secrets.events == []
    && s.triggers == [] && s.pending == {} && s.inFlight == map[]
  }

  /** The token a reader of the server alone would expect, allowing for both ways of ignoring an object. */
  function ServerToken(s: State, sts: StatefulSet, kind: Kind, name: string): string {
    var server, ref := WatchOf(s, kind).server, ObjectRef(NamespaceOf(sts), name);
    Token(
      if ref in server && !IgnoredByLabel(server[ref]) then Some(server[ref].meta) else None,
      name in IgnoredNames(sts, kind))
  }

  ghost predicate Converged(s: State, ref: ObjectRef) {
    ref in s.stses && Enabled(s.stses[ref]) && s.stses[ref].decodable ==>
      var o := s.stses[ref];
      && (forall kind, name :: References(o.sts, kind, name) ==>
            Lookup(TemplateAnnotations(o.sts), KeyPrefix(kind) + name) == Some(ServerToken(s, o.sts, kind, name)))
      && (forall key :: key in Owned(o, Restarter) <==>
            exists kind, name :: References(o.sts, kind, name) && key == KeyPrefix(kind) + name)
  }

  lemma SettledToken(s: State, o: ManagedSts, kind: Kind, name: string)
    requires Mirrored(s) && Quiescent(s) && Settled(o, Target(s, o.sts)) && References(o.sts, kind, name)
    ensures Lookup(TemplateAnnotations(o.sts), KeyPrefix(kind) + name) == Some(ServerToken(s, o.sts, kind, name))
  {
    OwnershipAfterApply(o, Target(s, o.sts));
    AnnotationAt(o.sts, s.cms.store, s.secrets.store, kind, name);
    assert StoreOf(kind, s.cms.store, s.secrets.store) == ConfigView(WatchOf(s, kind).server);
  }

  lemma SettledOwns(s: State, o: ManagedSts, key: string)
    requires Settled(o, Target(s, o.sts))
    ensures key in Owned(o, Restarter) <==>
              exists kind, name :: References(o.sts, kind, name) && key == KeyPrefix(kind) + name
  {
    OwnershipAfterApply(o, Target(s, o.sts));
    if key in Target(s, o.sts) {
      var kind, name := AnnotationKey(o.sts, s.cms.store, s.secrets.store, key);
      assert References(o.sts, kind, name) && key == KeyPrefix(kind) + name;
    }
    forall kind, name | References(o.sts, kind, name) && key == KeyPrefix(kind) + name ensures key in Target(s, o.sts) {
      AnnotationAt(o.sts, s.cms.store, s.secrets.store, kind, name);
    }
  }

  lemma SettledConverged(s: State, ref: ObjectRef)
    requires Inv(s) && Quiescent(s)
    ensures Converged(s, ref)
  {
    assert Accounted(s, ref);
    if ref in s.stses && Enabled(s.stses[ref]) && s.stses[ref].decodable {
      var o := s.stses[ref];
      forall kind, name | References(o.sts, kind, name)
        ensures Lookup(TemplateAnnotations(o.sts), KeyPrefix(kind) + name) == Some(ServerToken(s, o.sts, kind, name))
      {
        SettledToken(s, o, kind, name);
      }
      forall key
        ensures key in Owned(o, Restarter) <==>
                  exists kind, name :: References(o.sts, kind, name) && key == KeyPrefix(kind) + name
      {
        SettledOwns(s, o, key);
      }
    }
  }

  /**
   From startup, through any interleaving of outside edits, deliveries, partial reads, failures, lost
   acknowledgements and late patches: once everything is quiet, every enabled StatefulSet carries exactly
   the tokens of the server's real objects, and the restarter owns exactly those keys.
   */
  lemma Convergence(s: State, steps: seq<Step>, ref: ObjectRef)
    requires Init(s) && CanRun(s, steps) && Quiescent(Run(s, steps))
    ensures Converged(Run(s, steps), ref)
  {
    InitInv(s);
    RunKeepsInv(s, steps);
    SettledConverged(Run(s, steps), ref);
  }

  /**
   Between two quiet moments the restarter's part of an otherwise unchanged StatefulSet's Pod template
   differs, and so its Pods are restarted, if and only if some relevant object is at another revision.
   */
  lemma RestartedIffRelevantChange(s: State, s': State, ref: ObjectRef)
    requires Inv(s) && Quiescent(s) && Inv(s') && Quiescent(s')
    requires ref in s.stses && Enabled(s.stses[ref]) && s.stses[ref].decodable
    requires ref in s'.stses && Enabled(s'.stses[ref]) && s'.stses[ref].decodable
    requires s.stses[ref].sts.metadata == s'.stses[ref].sts.metadata
    requires Template(s.stses[ref].sts).spec == Template(s'.stses[ref].sts).spec
    requires SlashFree(s.cms.store) && SlashFree(s.secrets.store)
    requires SlashFree(s'.cms.store) && SlashFree(s'.secrets.store)
    ensures var o, o' := s.stses[ref], s'.stses[ref];
            (forall key :: key in Owned(o, Restarter) ==>
               Lookup(TemplateAnnotations(o.sts), key) == Lookup(TemplateAnnotations(o'.sts), key))
            <==> && SameRelevantRevisions(o.sts, ConfigMaps, ConfigView(s.cms.server), ConfigView(s'.cms.server))
                 && SameRelevantRevisions(o.sts, Secrets, ConfigView(s.secrets.server), ConfigView(s'.secrets.server))
  {
    var o, o' := s.stses[ref], s'.stses[ref];
    QuietIsSettled(s, ref, o.sts);
    QuietIsSettled(s', ref, o.sts);
    SameKeys(o.sts, s, s');
    SettledTemplatesAgree(o, Target(s, o.sts), o', Target(s', o.sts));
    RestartExactlyOnRelevantChange(o.sts, s.cms.store, s.secrets.store, s'.cms.store, s'.secrets.store);
  }

  lemma QuietIsSettled(s: State, ref: ObjectRef, sts: StatefulSet)
    requires Inv(s) && Quiescent(s)
    requires ref in s.stses && Enabled(s.stses[ref]) && s.stses[ref].decodable
    requires s.stses[ref].sts.metadata == sts.metadata && Template(s.stses[ref].sts).spec == Template(sts).spec
    ensures Settled(s.stses[ref], Target(s, sts))
  {
    assert Accounted(s, ref);
    TemplateAnnotationsNotRead(s.stses[ref].sts, sts, ConfigMaps, s.cms.store);
    TemplateAnnotationsNotRead(s.stses[ref].sts, sts, Secrets, s.secrets.store);
  }

  lemma SettledTemplatesAgree(o: ManagedSts, target: Annotations, o': ManagedSts, target': Annotations)
    requires Settled(o, target) && Settled(o', target') && target.Keys == target'.Keys
    ensures (forall key :: key in Owned(o, Restarter) ==>
               Lookup(TemplateAnnotations(o.sts), key) == Lookup(TemplateAnnotations(o'.sts), key))
            <==> target == target'
  {
    OwnershipAfterApply(o, target);
    OwnershipAfterApply(o', target');
    if forall key :: key in Owned(o, Restarter) ==>
         Lookup(TemplateAnnotations(o.sts), key) == Lookup(TemplateAnnotations(o'.sts), key)
    {
      forall key | key in target ensures target[key] == target'[key] {
        assert key in Owned(o, Restarter);
        assert Lookup(TemplateAnnotations(o.sts), key) == Some(target[key]);
        assert Lookup(TemplateAnnotations(o'.sts), key) == Some(target'[key]);
      }
    }
  }

  lemma SameKeys(sts: StatefulSet, s: State, s': State)
    ensures Target(s, sts).Keys == Target(s', sts).Keys
  {
    forall key ensures key in Target(s, sts) <==> key in Target(s', sts) {
      if key in Target(s, sts) {
        var kind, name := AnnotationKey(sts, s.cms.store, s.secrets.store, key);
        AnnotationAt(sts, s'.cms.store, s'.secrets.store, kind, name);
      }
      if key in Target(s', sts) {
        var kind, name := AnnotationKey(sts, s'.cms.store, s'.secrets.store, key);
        AnnotationAt(sts, s.cms.store, s.secrets.store, kind, name);
      }
    }
  }

  // ---------------------------------------------------------------- no unneeded restart

  /** The store entry at `ref` agrees with the server, and no event on its way would change it. */
  predicate Steady(w: Watch, ref: ObjectRef) {
    && Lookup(w.store, ref) == Lookup(ConfigView(w.server), ref)
    && forall i :: 0 <= i < |w.events| && w.events[i].key == ref ==> EffectOn(w.events[i]) == Lookup(w.store, ref)
  }

  ghost predicate RelevantSteady(s: State, sts: StatefulSet) {
    forall kind, name :: Relevant(sts, kind, name) ==> Steady(WatchOf(s, kind), ObjectRef(NamespaceOf(sts), name))
  }

  /** The template carries every applied value, and the restarter holds no other key. */
  predicate Covers(o: ManagedSts, applied: Annotations) {
    && (forall key :: key in applied ==> Lookup(TemplateAnnotations(o.sts), key) == Some(applied[key]))
    && Owned(o, Restarter) <= applied.Keys
  }

  /** `o`, or `o` after the restarter has taken ownership of its annotations. */
  predicate IsOrOwned(x: ManagedSts, o: ManagedSts, applied: Annotations) {
    x == o || x == Apply(o, applied)
  }

  /** Every copy of the StatefulSet, on the server, in the store or on its way, is `o` up to ownership. */
  predicate Copies(s: State, ref: ObjectRef, o: ManagedSts, target: Annotations) {
    && ref in s.stses && IsOrOwned(s.stses[ref], o, target)
    && (ref in s.stsStore ==> IsOrOwned(s.stsStore[ref], o, target))
    && (forall i :: 0 <= i < |s.stsEvents| && s.stsEvents[i].key == ref ==>
          s.stsEvents[i].Applied? && IsOrOwned(s.stsEvents[i].value, o, target))
  }

  ghost predicate Pinned(s: State, ref: ObjectRef, o: ManagedSts, target: Annotations) {
    && target == Target(s, o.sts)
    && Covers(o, target)
    && RelevantSteady(s, o.sts)
    && Copies(s, ref, o, target)
    && (ref in s.inFlight ==> Current(s, s.inFlight[ref], o.sts))
  }

  /** Whatever else the outside world does, it leaves this StatefulSet and its relevant objects alone. */
  ghost predicate Unrelated(s: State, step: Step, ref: ObjectRef, sts: StatefulSet) {
    match step
    case EditStatefulSet(r, now) => r == ref ==> now == Lookup(s.stses, ref)
    case EditObject(kind, r, now) =>
      forall name :: Relevant(sts, kind, name) && r == ObjectRef(NamespaceOf(sts), name) ==>
        Lookup(ConfigView(Put(WatchOf(s, kind).server, r, now)), r) == Lookup(ConfigView(WatchOf(s, kind).server), r)
    case _ => true
  }

  ghost predicate UnrelatedRun(s: State, steps: seq<Step>, ref: ObjectRef, sts: StatefulSet)
    decreases |steps|
  {
    steps == [] ||
    (CanStep(s, steps[0]) && Unrelated(s, steps[0], ref, sts) && UnrelatedRun(Do(s, steps[0]), steps[1..], ref, sts))
  }

  lemma SteadyKeepsTarget(s: State, s': State, sts: StatefulSet)
    requires forall kind, name :: Relevant(sts, kind, name) ==>
               var r := ObjectRef(NamespaceOf(sts), name);
               Lookup(WatchOf(s, kind).store, r) == Lookup(WatchOf(s', kind).store, r)
    ensures Target(s, sts) == Target(s', sts)
    ensures forall r :: Current(s, r, sts) ==> Current(s', r, sts)
  {
    OnlyRelevantEntriesMatter(sts, ConfigMaps, WatchOf(s, ConfigMaps).store, WatchOf(s', ConfigMaps).store);
    OnlyRelevantEntriesMatter(sts, Secrets, WatchOf(s, Secrets).store, WatchOf(s', Secrets).store);
  }

  lemma DeliveryKeepsSteady(w: Watch, ref: ObjectRef)
    requires Steady(w, ref) && w.events != []
    ensures var w' := w.(events := w.events[1..], store := ApplyEvent(w.store, w.events[0]), ready := true);
            Steady(w', ref) && Lookup(w'.store, ref) == Lookup(w.store, ref)
  {
    assert w.events[0].key == ref ==> EffectOn(w.events[0]) == Lookup(w.store, ref);
  }

  lemma EditKeepsSteady(w: Watch, edited: ObjectRef, config: Option<ConfigObject>, ref: ObjectRef)
    requires Steady(w, ref)
    requires edited == ref ==> Lookup(ConfigView(Put(w.server, ref, config)), ref) == Lookup(ConfigView(w.server), ref)
    ensures Steady(DoEditObject(w, edited, config), ref)
  {
    ConfigViewPut(w.server, edited, config);
  }

  /** What one step does to one watch. */
  lemma WatchAfter(s: State, step: Step, kind: Kind)
    requires CanStep(s, step)
    ensures var w, w' := WatchOf(s, kind), WatchOf(Do(s, step), kind);
            || w' == w
            || w' == w.(ready := true)
            || (&& w.events != []
               && w' == w.(events := w.events[1..], store := ApplyEvent(w.store, w.events[0]), ready := true))
            || (step.EditObject? && step.kind == kind && w' == DoEditObject(w, step.ref, step.config))
  {
  }

  lemma StepKeepsSteady(s: State, step: Step, ref: ObjectRef, sts: StatefulSet)
    requires RelevantSteady(s, sts) && CanStep(s, step) && Unrelated(s, step, ref, sts)
    ensures RelevantSteady(Do(s, step), sts)
    ensures Target(Do(s, step), sts) == Target(s, sts)
    ensures forall r :: Current(s, r, sts) ==> Current(Do(s, step), r, sts)
  {
    forall kind, name | Relevant(sts, kind, name)
      ensures var r := ObjectRef(NamespaceOf(sts), name);
              && Steady(WatchOf(Do(s, step), kind), r)
              && Lookup(WatchOf(Do(s, step), kind).store, r) == Lookup(WatchOf(s, kind).store, r)
    {
      OneStaysSteady(s, step, ref, sts, kind, name);
    }
    SteadyKeepsTarget(s, Do(s, step), sts);
  }

  lemma OneStaysSteady(s: State, step: Step, ref: ObjectRef, sts: StatefulSet, kind: Kind, name: string)
    requires Steady(WatchOf(s, kind), ObjectRef(NamespaceOf(sts), name)) && Relevant(sts, kind, name)
    requires CanStep(s, step) && Unrelated(s, step, ref, sts)
    ensures var r := ObjectRef(NamespaceOf(sts), name);
            && Steady(WatchOf(Do(s, step), kind), r)
            && Lookup(WatchOf(Do(s, step), kind).store, r) == Lookup(WatchOf(s, kind).store, r)
  {
    var w, r := WatchOf(s, kind), ObjectRef(NamespaceOf(sts), name);
    WatchAfter(s, step, kind);
    if w.events != [] {
      DeliveryKeepsSteady(w, r);
    }
    if step.EditObject? && step.kind == kind {
      EditKeepsSteady(w, step.ref, step.config, r);
    }
  }

  lemma ApplyToCopy(x: ManagedSts, o: ManagedSts, target: Annotations)
    requires Covers(o, target) && IsOrOwned(x, o, target)
    ensures x.sts == o.sts && Apply(x, target) == Apply(o, target)
  {
    ApplyIdempotent(o, target);
    CoveredTemplateUnchanged(o, target);
  }

  lemma PatchKeepsCopies(
    s: State, patched: ObjectRef, acknowledged: bool, ref: ObjectRef, o: ManagedSts, target: Annotations)
    requires Copies(s, ref, o, target) && CanStep(s, SendPatch(patched, acknowledged)) && Covers(o, target)
    requires patched == ref ==> s.inFlight[ref] == Computed(o.sts, target)
    ensures Copies(Do(s, SendPatch(patched, acknowledged)), ref, o, target)
  {
    if patched == ref {
      ApplyToCopy(s.stses[ref], o, target);
    }
  }

  lemma EditKeepsCopies(
    s: State, edited: ObjectRef, now: Option<ManagedSts>, ref: ObjectRef, o: ManagedSts, target: Annotations)
    requires Copies(s, ref, o, target) && Unrelated(s, EditStatefulSet(edited, now), ref, o.sts)
    ensures Copies(Do(s, EditStatefulSet(edited, now)), ref, o, target)
  {
    assert edited == ref && !Enabled(s.stses[ref]) ==> ref !in StsView(s.stses);
  }

  lemma DeliveryKeepsCopies(s: State, ref: ObjectRef, o: ManagedSts, target: Annotations)
    requires Copies(s, ref, o, target) && CanStep(s, DeliverStatefulSet)
    ensures Copies(Do(s, DeliverStatefulSet), ref, o, target)
  {
    assert forall i :: 0 <= i < |s.stsEvents[1..]| ==> s.stsEvents[1..][i] == s.stsEvents[i + 1];
  }

  lemma StepKeepsCopies(s: State, step: Step, ref: ObjectRef, o: ManagedSts, target: Annotations)
    requires Copies(s, ref, o, target) && Covers(o, target) && CanStep(s, step)
    requires ref in s.inFlight && s.inFlight[ref].Computed? ==> s.inFlight[ref] == Computed(o.sts, target)
    requires step.EditStatefulSet? ==> Unrelated(s, step, ref, o.sts)
    ensures Copies(Do(s, step), ref, o, target)
  {
    match step
    case EditStatefulSet(edited, now) => EditKeepsCopies(s, edited, now, ref, o, target);
    case SendPatch(patched, acknowledged) => PatchKeepsCopies(s, patched, acknowledged, ref, o, target);
    case DeliverStatefulSet => DeliveryKeepsCopies(s, ref, o, target);
    case _ =>
  }

  /** Reconciles that are started, advanced or left alone go on agreeing with the stores. */
  lemma StepKeepsCurrent(s: State, step: Step, ref: ObjectRef, o: ManagedSts, target: Annotations)
    requires Pinned(s, ref, o, target) && CanStep(s, step) && Unrelated(s, step, ref, o.sts)
    ensures ref in Do(s, step).inFlight ==> Current(Do(s, step), Do(s, step).inFlight[ref], o.sts)
  {
    hide KindAnnotations;
    StepKeepsSteady(s, step, ref, o.sts);
    if ref in s.stsStore {
      ApplyToCopy(s.stsStore[ref], o, target);
    }
  }

  lemma StepKeepsPinned(s: State, step: Step, ref: ObjectRef, o: ManagedSts, target: Annotations)
    requires Pinned(s, ref, o, target) && CanStep(s, step) && Unrelated(s, step, ref, o.sts)
    ensures Pinned(Do(s, step), ref, o, target)
  {
    StepKeepsSteady(s, step, ref, o.sts);
    StepKeepsCopies(s, step, ref, o, target);
    StepKeepsCurrent(s, step, ref, o, target);
  }

  lemma {:induction false} RunKeepsPinned(
    s: State, steps: seq<Step>, ref: ObjectRef, o: ManagedSts, target: Annotations)
    requires Pinned(s, ref, o, target) && UnrelatedRun(s, steps, ref, o.sts)
    ensures CanRun(s, steps)
    ensures Pinned(Run(s, steps), ref, o, target)
    decreases |steps|
  {
    if steps != [] {
      StepKeepsPinned(s, steps[0], ref, o, target);
      RunKeepsPinned(Do(s, steps[0]), steps[1..], ref, o, target);
    }
  }

  lemma QuietIsPinned(s: State, ref: ObjectRef)
    requires Inv(s) && Quiescent(s)
    requires ref in s.stses && Enabled(s.stses[ref]) && s.stses[ref].decodable
    ensures Pinned(s, ref, s.stses[ref], Target(s, s.stses[ref].sts))
  {
    hide RestarterAnnotations, KindAnnotations;
    assert Accounted(s, ref);
    OwnershipAfterApply(s.stses[ref], Target(s, s.stses[ref].sts));
  }

  /**
   From a quiet state, over every run in which the outside world touches any other objects it likes, the
   StatefulSet is left exactly as it was: its Pods are not restarted.
   */
  lemma NoUnneededRestart(s: State, steps: seq<Step>, ref: ObjectRef)
    requires Inv(s) && Quiescent(s)
    requires ref in s.stses && Enabled(s.stses[ref]) && s.stses[ref].decodable
    requires UnrelatedRun(s, steps, ref, s.stses[ref].sts)
    ensures CanRun(s, steps)
    ensures Lookup(Run(s, steps).stses, ref) == Lookup(s.stses, ref)
  {
    var o := s.stses[ref];
    assert Accounted(s, ref);
    QuietIsPinned(s, ref);
    RunKeepsPinned(s, steps, ref, o, Target(s, o.sts));
  }

  /**
   A StatefulSet created with its annotations already in place, as the webhook admits it, keeps its Pod
   template through the restarter's first patch and every later one; only field ownership may change.
   */
  lemma NoFirstRestart(s: State, ref: ObjectRef, o: ManagedSts, steps: seq<Step>)
    requires ref !in s.stses && ref !in s.stsStore && ref !in s.inFlight && !Undelivered(s.stsEvents, ref)
    requires RelevantSteady(s, o.sts) && Covers(o, Target(s, o.sts))
    requires UnrelatedRun(Do(s, EditStatefulSet(ref, Some(o))), steps, ref, o.sts)
    ensures CanRun(Do(s, EditStatefulSet(ref, Some(o))), steps)
    ensures var s' := Run(Do(s, EditStatefulSet(ref, Some(o))), steps);
            && ref in s'.stses && s'.stses[ref].sts == o.sts
            && (s'.stses[ref] == o || Owned(s'.stses[ref], Restarter) == Target(s, o.sts).Keys)
  {
    hide RestarterAnnotations, KindAnnotations;
    var created := Do(s, EditStatefulSet(ref, Some(o)));
    var target := Target(s, o.sts);
    assert RelevantSteady(created, o.sts);
    RunKeepsPinned(created, steps, ref, o, target);
    CoveredTemplateUnchanged(o, target);
    OwnershipAfterApply(o, target);
  }
}
