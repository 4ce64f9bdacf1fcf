/**
 The restarter does not chase its own tail: its patch makes the API server send an event that triggers it
 again (rust/operator-binary/src/restart_controller/statefulset.rs, the `trigger_self` stream), yet once
 the outside world is still and requests succeed, every run comes to rest, converged.
 */
module RestartTermination {
  import opened Wrappers
  import opened Kubernetes
  import opened RestartFingerprint
  import opened ServerSideApply
  import opened RestartController
  import opened RestartConvergence

  // ---------------------------------------------------------------- steps of the controller

  predicate PatchLands(s: State, ref: ObjectRef)
    requires ref in s.inFlight
  {
    ref in s.stses &&
    (s.inFlight[ref].sts.metadata.uid.Some? ==> s.stses[ref].sts.metadata.uid == s.inFlight[ref].sts.metadata.uid)
  }

  /** The controller's own steps, with every request answered: a patch lands or is refused. */
  predicate Answered(s: State, step: Step) {
    && CanStep(s, step)
    && match step
       case DeliverStatefulSet => true
       case DeliverObject(_, _) => true
       case Schedule(_) => true
       case Start(_) => true
       case Read(_) => true
       case SendPatch(_, acknowledged) => acknowledged
       case _ => false
  }

  // ---------------------------------------------------------------- what can still go wrong

  /** Everything about a StatefulSet that decides its annotations and its identity; patches never change it. */
  datatype Inputs = Inputs(metadata: ObjectMeta, pod: Option<PodSpec>, decodable: bool)

  function InputsOf(o: ManagedSts): Inputs {
    Inputs(o.sts.metadata, Template(o.sts).spec, o.decodable)
  }

  function InputView(stses: map<ObjectRef, ManagedSts>): map<ObjectRef, Inputs> {
    map r | r in stses && Enabled(stses[r]) :: InputsOf(stses[r])
  }

  predicate UpToDate(inputs: map<ObjectRef, Inputs>, ref: ObjectRef, o: ManagedSts) {
    Lookup(inputs, ref) == Some(InputsOf(o))
  }

  predicate StaleEvent(inputs: map<ObjectRef, Inputs>, e: Event<ManagedSts>) {
    e.Deleted? || !UpToDate(inputs, e.key, e.value)
  }

  function StaleEvents(inputs: map<ObjectRef, Inputs>, events: seq<Event<ManagedSts>>): nat {
    if events == [] then 0
    else (if StaleEvent(inputs, events[0]) then 1 else 0) + StaleEvents(inputs, events[1..])
  }

  function StaleEntries(inputs: map<ObjectRef, Inputs>, store: map<ObjectRef, ManagedSts>): set<ObjectRef> {
    set r | r in store && !UpToDate(inputs, r, store[r])
  }

  /**
   A patch aimed at a previous incarnation is refused. That makes progress unless the store is still to hear of the
   present one: then the next reconcile starts from the same stale entry.
   */
  predicate Smooth(s: State, step: Step) {
    && Answered(s, step)
    && (step.SendPatch? ==>
          PatchLands(s, step.ref) || step.ref !in StaleEntries(InputView(s.stses), s.stsStore))
  }

  function CountIn(refs: seq<ObjectRef>, among: set<ObjectRef>): nat {
    if refs == [] then 0 else (if refs[0] in among then 1 else 0) + CountIn(refs[1..], among)
  }

  /** Requests that would start a reconcile from a stale store entry. */
  function StaleRequests(s: State): nat {
    var stale := StaleEntries(InputView(s.stses), s.stsStore);
    CountIn(s.triggers, stale) + |s.pending * stale|
  }

  /** The reconcile is about to write what the present stores call for. */
  predicate Fresh(s: State, ref: ObjectRef, r: Reconcile) {
    && ref in s.stses && Enabled(s.stses[ref])
    && InputsOf(s.stses[ref]) == Inputs(r.sts.metadata, Template(r.sts).spec, true)
    && Current(s, r, r.sts)
  }

  function StaleReconciles(s: State): set<ObjectRef> {
    set r | r in s.inFlight && !Fresh(s, r, s.inFlight[r])
  }

  function UnsettledTemplates(s: State): set<ObjectRef> {
    set r | r in s.stses && Enabled(s.stses[r]) && !Settled(s.stses[r], Target(s, s.stses[r].sts))
  }

  function Unread(inFlight: map<ObjectRef, Reconcile>): set<ObjectRef> {
    set r | r in inFlight && inFlight[r].Fetched?
  }

  function Unfinished(inFlight: map<ObjectRef, Reconcile>): set<ObjectRef> {
    set r | r in inFlight && !inFlight[r].Computed?
  }

  /** Steps left in the running reconciles. */
  function Phases(inFlight: map<ObjectRef, Reconcile>): nat {
    |inFlight.Keys| + |Unread(inFlight)| + |Unfinished(inFlight)|
  }

  /** Weighted count of pending work, for steps that change nothing else. */
  function Work(s: State): nat {
    6 * |s.stsEvents| + 5 * |s.triggers| + 4 * |s.pending| + Phases(s.inFlight)
  }

  datatype Measure = Measure(
    objectEvents: nat, staleEvents: nat, staleRequests: nat, staleReconciles: nat, unsettled: nat, work: nat)

  function MeasureOf(s: State): Measure {
    Measure(
      |s.cms.events| + |s.secrets.events|,
      StaleEvents(InputView(s.stses), s.stsEvents),
      StaleRequests(s),
      |StaleReconciles(s)|,
      |UnsettledTemplates(s)|,
      Work(s))
  }

  predicate Below(m: Measure, n: Measure) {
    || m.objectEvents < n.objectEvents
    || (m.objectEvents == n.objectEvents && (m.staleEvents < n.staleEvents
    || (m.staleEvents == n.staleEvents && (m.staleRequests < n.staleRequests
    || (m.staleRequests == n.staleRequests && (m.staleReconciles < n.staleReconciles
    || (m.staleReconciles == n.staleReconciles && (m.unsettled < n.unsettled
    || (m.unsettled == n.unsettled && m.work < n.work)))))))))
  }

  // ---------------------------------------------------------------- counting

  lemma {:induction false} StaleEventsAppend(
    inputs: map<ObjectRef, Inputs>, events: seq<Event<ManagedSts>>, e: Event<ManagedSts>)
    ensures StaleEvents(inputs, events + [e])
            == StaleEvents(inputs, events) + if StaleEvent(inputs, e) then 1 else 0
  {
    if events != [] {
      assert (events + [e])[1..] == events[1..] + [e];
      StaleEventsAppend(inputs, events[1..], e);
    }
  }

  lemma {:induction false} CountInConcat(refs: seq<ObjectRef>, more: seq<ObjectRef>, among: set<ObjectRef>)
    ensures CountIn(refs + more, among) == CountIn(refs, among) + CountIn(more, among)
  {
    if refs == [] {
      assert refs + more == more;
    } else {
      assert (refs + more)[1..] == refs[1..] + more;
      CountInConcat(refs[1..], more, among);
    }
  }

  lemma CountInRemoved(refs: seq<ObjectRef>, index: nat, among: set<ObjectRef>)
    requires index < |refs|
    ensures CountIn(refs, among)
            == CountIn(refs[..index] + refs[index + 1..], among) + if refs[index] in among then 1 else 0
  {
    assert refs == refs[..index] + ([refs[index]] + refs[index + 1..]);
    CountInConcat(refs[..index], [refs[index]] + refs[index + 1..], among);
    CountInConcat([refs[index]], refs[index + 1..], among);
    CountInConcat(refs[..index], refs[index + 1..], among);
  }

  lemma {:induction false} CountInMonotone(refs: seq<ObjectRef>, fewer: set<ObjectRef>, among: set<ObjectRef>)
    requires fewer <= among
    ensures CountIn(refs, fewer) <= CountIn(refs, among)
  {
    if refs != [] {
      CountInMonotone(refs[1..], fewer, among);
    }
  }

  lemma SubsetSize<T>(fewer: set<T>, among: set<T>)
    requires fewer <= among
    ensures |fewer| <= |among|
    ensures fewer < among ==> |fewer| < |among|
  {
    assert among == fewer + (among - fewer);
    assert fewer < among ==> |among - fewer| > 0;
  }

  // ---------------------------------------------------------------- each smooth step goes down

  lemma DeliverObjectGoesDown(s: State, kind: Kind, order: seq<ObjectRef>)
    requires Smooth(s, DeliverObject(kind, order))
    ensures Below(MeasureOf(DoDeliverObject(s, kind, order)), MeasureOf(s))
  {
  }

  /** Steps that leave the server, the running reconciles and the object stores alone. */
  lemma SameClaims(s: State, s': State)
    requires s'.stses == s.stses && s'.inFlight == s.inFlight
    requires s'.cms.store == s.cms.store && s'.secrets.store == s.secrets.store
    ensures StaleReconciles(s') == StaleReconciles(s) && UnsettledTemplates(s') == UnsettledTemplates(s)
  {
  }

  lemma SameUnsettled(s: State, s': State)
    requires s'.stses == s.stses && s'.cms.store == s.cms.store && s'.secrets.store == s.secrets.store
    ensures UnsettledTemplates(s') == UnsettledTemplates(s)
  {
  }

  lemma NewsIsFresh(inputs: map<ObjectRef, Inputs>, store: map<ObjectRef, ManagedSts>, ref: ObjectRef, o: ManagedSts)
    requires UpToDate(inputs, ref, o)
    ensures StaleEntries(inputs, store[ref := o]) == StaleEntries(inputs, store) - {ref}
  {
  }

  lemma RequestsAfterNews(s: State, inputs: map<ObjectRef, Inputs>, ref: ObjectRef, o: ManagedSts)
    requires UpToDate(inputs, ref, o)
    ensures var stale, stale' := StaleEntries(inputs, s.stsStore), StaleEntries(inputs, s.stsStore[ref := o]);
            CountIn(s.triggers + [ref], stale') + |s.pending * stale'|
            <= CountIn(s.triggers, stale) + |s.pending * stale|
  {
    var stale, stale' := StaleEntries(inputs, s.stsStore), StaleEntries(inputs, s.stsStore[ref := o]);
    NewsIsFresh(inputs, s.stsStore, ref, o);
    hide StaleEntries, UpToDate, CountIn;
    CountInConcat(s.triggers, [ref], stale');
    assert CountIn([ref], stale') == 0 by {
      CountInOther(ref, stale');
    }
    CountInMonotone(s.triggers, stale', stale);
    SubsetSize(s.pending * stale', s.pending * stale);
  }

  lemma CountInOther(ref: ObjectRef, among: set<ObjectRef>)
    requires ref !in among
    ensures CountIn([ref], among) == 0
  {
    assert [ref][1..] == [];
  }

  lemma DeliverStatefulSetGoesDown(s: State)
    requires Smooth(s, DeliverStatefulSet)
    ensures Below(MeasureOf(DoDeliverStatefulSet(s)), MeasureOf(s))
  {
    var s' := DoDeliverStatefulSet(s);
    var inputs, e := InputView(s.stses), s.stsEvents[0];
    SameClaims(s, s');
    if !StaleEvent(inputs, e) {
      RequestsAfterNews(s, inputs, e.key, e.value);
    }
  }

  lemma ScheduledRequest(triggers: seq<ObjectRef>, pending: set<ObjectRef>, index: nat, stale: set<ObjectRef>)
    requires index < |triggers|
    ensures var triggers' := triggers[..index] + triggers[index + 1..];
            CountIn(triggers', stale) + |(pending + {triggers[index]}) * stale|
            <= CountIn(triggers, stale) + |pending * stale|
  {
    var ref := triggers[index];
    CountInRemoved(triggers, index, stale);
    assert (pending + {ref}) * stale == if ref in stale then pending * stale + {ref} else pending * stale;
  }

  lemma ScheduleGoesDown(s: State, index: nat)
    requires Smooth(s, Schedule(index))
    ensures Below(MeasureOf(DoSchedule(s, index)), MeasureOf(s))
  {
    ScheduledRequest(s.triggers, s.pending, index, StaleEntries(InputView(s.stses), s.stsStore));
    SameClaims(s, DoSchedule(s, index));
  }

  lemma StartedFresh(s: State, ref: ObjectRef)
    requires CanStep(s, Start(ref)) && ref !in StaleEntries(InputView(s.stses), s.stsStore)
    ensures StaleReconciles(DoStart(s, ref)) == StaleReconciles(s)
  {
    assert ref in s.stsStore ==> UpToDate(InputView(s.stses), ref, s.stsStore[ref]);
  }

  lemma StartedRequests(s: State, ref: ObjectRef)
    requires CanStep(s, Start(ref))
    ensures var stale := StaleEntries(InputView(s.stses), s.stsStore);
            StaleRequests(DoStart(s, ref)) == StaleRequests(s) - if ref in stale then 1 else 0
  {
    hide StaleEntries, InputView, CountIn;
    var stale := StaleEntries(InputView(s.stses), s.stsStore);
    assert (s.pending - {ref}) * stale == s.pending * stale - {ref};
    assert ref in stale ==> ref in s.pending * stale;
  }

  lemma StartedWork(s: State, ref: ObjectRef)
    requires CanStep(s, Start(ref))
    ensures Work(DoStart(s, ref)) < Work(s)
  {
    if ref in s.stsStore {
      StartedPhases(s.inFlight, ref, s.stsStore[ref].sts);
    }
  }

  lemma StartGoesDown(s: State, ref: ObjectRef)
    requires Smooth(s, Start(ref))
    ensures Below(MeasureOf(DoStart(s, ref)), MeasureOf(s))
  {
    hide StaleEntries, StaleEvents, InputView, StaleRequests, StaleReconciles, UnsettledTemplates, Work, CanStep;
    StartedRequests(s, ref);
    if ref !in StaleEntries(InputView(s.stses), s.stsStore) {
      StartedFresh(s, ref);
      SameUnsettled(s, DoStart(s, ref));
      StartedWork(s, ref);
    }
  }

  lemma Grows(refs: set<ObjectRef>, refs': set<ObjectRef>, ref: ObjectRef)
    requires ref !in refs && ref in refs'
    requires forall r :: r != ref ==> (r in refs <==> r in refs')
    ensures |refs'| == |refs| + 1
  {
    assert refs' == refs + {ref};
  }

  lemma StartedPhases(inFlight: map<ObjectRef, Reconcile>, ref: ObjectRef, sts: StatefulSet)
    requires ref !in inFlight
    ensures Phases(inFlight[ref := Fetched(sts)]) == Phases(inFlight) + 3
  {
    var inFlight' := inFlight[ref := Fetched(sts)];
    assert inFlight'[ref].Fetched?;
    assert forall r :: r in inFlight ==> inFlight'[r] == inFlight[r];
    Grows(inFlight.Keys, inFlight'.Keys, ref);
    Grows(Unread(inFlight), Unread(inFlight'), ref);
    Grows(Unfinished(inFlight), Unfinished(inFlight'), ref);
  }

  lemma ReadGoesDown(s: State, ref: ObjectRef)
    requires Smooth(s, Read(ref))
    ensures Below(MeasureOf(DoRead(s, ref)), MeasureOf(s))
  {
    var s' := DoRead(s, ref);
    assert Fresh(s, ref, s.inFlight[ref]) ==> Fresh(s', ref, s'.inFlight[ref]);
    assert StaleReconciles(s') <= StaleReconciles(s);
    SubsetSize(StaleReconciles(s'), StaleReconciles(s));
    SameUnsettled(s, s');
    ReadPhases(s.inFlight, ref, ReadNext(s, s.inFlight[ref]));
  }

  lemma ReadPhases(inFlight: map<ObjectRef, Reconcile>, ref: ObjectRef, read: Reconcile)
    requires ref in inFlight && !inFlight[ref].Computed?
    requires if inFlight[ref].Fetched? then read.ConfigMapsRead? else read.Computed?
    ensures Phases(inFlight[ref := read]) == Phases(inFlight) - 1
  {
    var inFlight' := inFlight[ref := read];
    assert inFlight'.Keys == inFlight.Keys;
    assert Unread(inFlight') == Unread(inFlight) - {ref};
    assert Unfinished(inFlight') == if read.Computed? then Unfinished(inFlight) - {ref} else Unfinished(inFlight);
  }

  lemma StoreUpToDate(s: State, ref: ObjectRef)
    requires Mirrored(s) && !Undelivered(s.stsEvents, ref)
    ensures ref !in StaleEntries(InputView(s.stses), s.stsStore)
  {
    StoreAgrees(s, ref);
  }

  lemma RefusedIsStale(s: State, ref: ObjectRef)
    requires ref in s.inFlight && s.inFlight[ref].Computed? && !PatchLands(s, ref)
    ensures ref in StaleReconciles(s)
    ensures DoSendPatch(s, ref, true) == Requeue(s, ref)
  {
  }

  lemma RequeueDrops(s: State, ref: ObjectRef)
    requires ref in StaleReconciles(s)
    ensures StaleReconciles(Requeue(s, ref)) == StaleReconciles(s) - {ref}
  {
  }

  /** A refused patch was for another incarnation, and the store already knows the present one. */
  lemma RefusedPatchGoesDown(s: State, ref: ObjectRef)
    requires Smooth(s, SendPatch(ref, true)) && !PatchLands(s, ref)
    ensures Below(MeasureOf(DoSendPatch(s, ref, true)), MeasureOf(s))
  {
    RefusedIsStale(s, ref);
    RequeueDrops(s, ref);
    var stale := StaleEntries(InputView(s.stses), s.stsStore);
    assert (s.pending + {ref}) * stale == s.pending * stale;
  }

  lemma PatchKeepsInputs(s: State, ref: ObjectRef, o: ManagedSts, applied: Annotations)
    requires ref in s.stses && o == Apply(s.stses[ref], applied)
    ensures InputView(s.stses[ref := o]) == InputView(s.stses)
  {
    AppliedAnnotations(s.stses[ref], applied);
  }

  lemma LandedPatch(s: State, ref: ObjectRef)
    requires Smooth(s, SendPatch(ref, true)) && PatchLands(s, ref)
    ensures var s' := DoSendPatch(s, ref, true);
            && s'.stses == s.stses[ref := Apply(s.stses[ref], s.inFlight[ref].annotations)]
            && s'.inFlight == s.inFlight - {ref} && s'.pending == s.pending && s'.triggers == s.triggers
            && s'.stsStore == s.stsStore && s'.cms == s.cms && s'.secrets == s.secrets
            && InputView(s'.stses) == InputView(s.stses)
            && StaleEvents(InputView(s'.stses), s'.stsEvents) == StaleEvents(InputView(s.stses), s.stsEvents)
            && StaleReconciles(s') == StaleReconciles(s) - {ref}
  {
    hide Apply, StaleEntries, CountIn;
    var s' := DoSendPatch(s, ref, true);
    var annotations := s.inFlight[ref].annotations;
    var o := Apply(s.stses[ref], annotations);
    PatchKeepsInputs(s, ref, o, annotations);
    AppliedAnnotations(s.stses[ref], annotations);
    if o != s.stses[ref] && Enabled(o) {
      StaleEventsAppend(InputView(s.stses), s.stsEvents, Applied(ref, o));
    } else {
      assert s'.stsEvents == s.stsEvents;
    }
    forall r | r in s'.inFlight ensures Fresh(s', r, s'.inFlight[r]) == Fresh(s, r, s.inFlight[r]) {
      assert Lookup(InputView(s'.stses), r) == Lookup(InputView(s.stses), r);
    }
  }

  /** A landed patch uses up a stale reconcile, settles an unsettled template, or changes nothing. */
  lemma LandedPatchGoesDown(s: State, ref: ObjectRef)
    requires Smooth(s, SendPatch(ref, true)) && PatchLands(s, ref)
    ensures Below(MeasureOf(DoSendPatch(s, ref, true)), MeasureOf(s))
  {
    hide StaleEntries, StaleEvents, InputView, UnsettledTemplates, Work, Fresh, Apply, CountIn;
    var s' := DoSendPatch(s, ref, true);
    LandedPatch(s, ref);
    if ref in StaleReconciles(s) {
      assert |StaleReconciles(s')| < |StaleReconciles(s)|;
    } else if s'.stses == s.stses {
      SameUnsettled(s, s');
      LandedWork(s, ref);
    } else {
      FreshPatchSettles(s, ref);
      SubsetSize(UnsettledTemplates(s'), UnsettledTemplates(s));
    }
  }

  lemma LandedWork(s: State, ref: ObjectRef)
    requires Smooth(s, SendPatch(ref, true)) && PatchLands(s, ref)
    requires DoSendPatch(s, ref, true).stses == s.stses
    ensures Work(DoSendPatch(s, ref, true)) < Work(s)
  {
    var s' := DoSendPatch(s, ref, true);
    LandedPatch(s, ref);
    assert s'.stses[ref] == s.stses[ref];
    assert s'.stsEvents == s.stsEvents;
    assert s'.inFlight.Keys == s.inFlight.Keys - {ref};
    assert Unread(s'.inFlight) == Unread(s.inFlight) && Unfinished(s'.inFlight) == Unfinished(s.inFlight);
  }

  lemma FreshTarget(s: State, ref: ObjectRef)
    requires ref in s.inFlight && s.inFlight[ref].Computed? && Fresh(s, ref, s.inFlight[ref])
    ensures Target(s, s.stses[ref].sts) == s.inFlight[ref].annotations
    ensures Target(s, Apply(s.stses[ref], s.inFlight[ref].annotations).sts) == s.inFlight[ref].annotations
  {
    var before, sts, annotations := s.stses[ref], s.inFlight[ref].sts, s.inFlight[ref].annotations;
    AppliedAnnotations(before, annotations);
    SameTarget(s, sts, before.sts);
    SameTarget(s, sts, Apply(before, annotations).sts);
  }

  lemma FreshPatchSettles(s: State, ref: ObjectRef)
    requires Smooth(s, SendPatch(ref, true)) && PatchLands(s, ref)
    requires Fresh(s, ref, s.inFlight[ref]) && DoSendPatch(s, ref, true).stses != s.stses
    ensures UnsettledTemplates(DoSendPatch(s, ref, true)) == UnsettledTemplates(s) - {ref}
    ensures ref in UnsettledTemplates(s)
  {
    LandedPatch(s, ref);
    FreshTarget(s, ref);
    var after := Apply(s.stses[ref], s.inFlight[ref].annotations);
    ApplyIdempotent(s.stses[ref], s.inFlight[ref].annotations);
    assert after == s.stses[ref] ==> s.stses[ref := after] == s.stses;
    SettledOne(s, DoSendPatch(s, ref, true), ref, after);
  }

  lemma SettledOne(s: State, s': State, ref: ObjectRef, after: ManagedSts)
    requires ref in s.stses && s'.stses == s.stses[ref := after]
    requires s'.cms == s.cms && s'.secrets == s.secrets
    requires Settled(after, Target(s, after.sts))
    ensures UnsettledTemplates(s') == UnsettledTemplates(s) - {ref}
  {
    forall r ensures r in UnsettledTemplates(s') <==> r in UnsettledTemplates(s) && r != ref {
      assert r != ref ==> Lookup(s'.stses, r) == Lookup(s.stses, r);
    }
  }

  lemma SameTarget(s: State, sts: StatefulSet, sts': StatefulSet)
    requires sts.metadata == sts'.metadata && Template(sts).spec == Template(sts').spec
    ensures Target(s, sts) == Target(s, sts')
  {
    TemplateAnnotationsNotRead(sts, sts', ConfigMaps, s.cms.store);
    TemplateAnnotationsNotRead(sts, sts', Secrets, s.secrets.store);
  }

  /** Every smooth step makes lexicographic progress, the restarter's self-triggering patch included. */
  lemma SmoothStepGoesDown(s: State, step: Step)
    requires Inv(s) && Smooth(s, step)
    ensures Below(MeasureOf(Do(s, step)), MeasureOf(s))
  {
    match step
    case DeliverStatefulSet => DeliverStatefulSetGoesDown(s);
    case DeliverObject(kind, order) => DeliverObjectGoesDown(s, kind, order);
    case Schedule(index) => ScheduleGoesDown(s, index);
    case Start(ref) => StartGoesDown(s, ref);
    case Read(ref) => ReadGoesDown(s, ref);
    case SendPatch(ref, _) =>
      if PatchLands(s, ref) {
        LandedPatchGoesDown(s, ref);
      } else {
        RefusedPatchGoesDown(s, ref);
      }
  }

  // ---------------------------------------------------------------- no deadlock, hence settling

  predicate Ready(s: State) {
    s.cms.ready && s.secrets.ready
  }

  lemma {:induction false} Enumerate(refs: set<ObjectRef>) returns (order: seq<ObjectRef>)
    ensures (set r | r in order) == refs
    decreases refs
  {
    if refs == {} {
      order := [];
      assert forall r :: r !in order;
    } else {
      var r :| r in refs;
      var rest := Enumerate(refs - {r});
      order := [r] + rest;
      assert (set x | x in order) == {r} + (set x | x in rest);
    }
  }

  /** Until it is quiet, the controller has something smooth to do. */
  lemma NeverStuck(s: State) returns (step: Step)
    requires Inv(s) && Ready(s) && !Quiescent(s)
    ensures Smooth(s, step)
  {
    if s.stsEvents != [] {
      step := DeliverStatefulSet;
    } else if s.cms.events != [] || s.secrets.events != [] {
      var order := Enumerate(s.stsStore.Keys);
      step := DeliverObject(if s.cms.events != [] then ConfigMaps else Secrets, order);
    } else if s.triggers != [] {
      step := Schedule(0);
    } else if s.inFlight != map[] {
      var ref :| ref in s.inFlight;
      step := if s.inFlight[ref].Computed? then SendPatch(ref, true) else Read(ref);
      StoreUpToDate(s, ref);
    } else {
      var ref :| ref in s.pending;
      step := Start(ref);
    }
  }

  ghost predicate Advances(s: State, s': State) {
    if Quiescent(s) then s' == s else exists step :: Smooth(s, step) && s' == Do(s, step)
  }

  lemma SmoothStepKeepsReady(s: State, step: Step)
    requires Ready(s) && Smooth(s, step)
    ensures Ready(Do(s, step))
  {
  }

  lemma AdvanceGoesDown(s: State, s': State)
    requires Inv(s) && Ready(s) && !Quiescent(s) && Advances(s, s')
    ensures Inv(s') && Ready(s') && Below(MeasureOf(s'), MeasureOf(s))
  {
    hide MeasureOf, Inv, Ready, Quiescent, Do, Below;
    var step :| Smooth(s, step) && s' == Do(s, step);
    SmoothStepGoesDown(s, step);
    StepKeepsInv(s, step);
    SmoothStepKeepsReady(s, step);
  }

  /**
   Whatever the scheduler chooses, a run of smooth steps reaches a quiet state, in which every enabled
   StatefulSet has converged.
   */
  lemma {:induction false} EveryRunSettles(run: nat -> State, i: nat) returns (n: nat)
    requires Inv(run(i)) && Ready(run(i))
    requires forall j: nat :: j >= i ==> Advances(run(j), run(j + 1))
    ensures n >= i && Quiescent(run(n)) && forall ref :: Converged(run(n), ref)
    decreases MeasureOf(run(i)).objectEvents, MeasureOf(run(i)).staleEvents,
              MeasureOf(run(i)).staleRequests, MeasureOf(run(i)).staleReconciles,
              MeasureOf(run(i)).unsettled, MeasureOf(run(i)).work
  {
    hide MeasureOf, Inv, Ready, Quiescent, Converged, Advances;
    if Quiescent(run(i)) {
      n := i;
      forall ref ensures Converged(run(n), ref) {
        SettledConverged(run(n), ref);
      }
    } else {
      AdvanceGoesDown(run(i), run(i + 1));
      n := EveryRunSettles(run, i + 1);
    }
  }
}
