/**
 The restarter's forced server-side apply of Pod-template annotations
 (rust/operator-binary/src/restart_controller/statefulset.rs, `reconcile`): what the API server does with
 the applied configuration, including field ownership of the annotation keys.
 */
module ServerSideApply {
  import opened Wrappers
  import opened Kubernetes

  /** `Restarter` is the field manager `restarter.stackable.tech/statefulset`. */
  datatype Manager = Restarter | Other(name: string)

  /**
   A StatefulSet on the API server: `owners` are the managers of each template annotation key, and
   `decodable` says whether the operator's typed client can read the object.
   */
  datatype ManagedSts = ManagedSts(sts: StatefulSet, owners: map<string, set<Manager>>, decodable: bool)

  datatype PatchError = NotFound | UidConflict | Incomplete

  function OwnersOf(o: ManagedSts, key: string): set<Manager> {
    if key in o.owners then o.owners[key] else {}
  }

  function Owned(o: ManagedSts, manager: Manager): set<string> {
    set key | key in o.owners && manager in o.owners[key]
  }

  /** Keys the manager gives up by no longer applying them, and which nobody else holds. */
  function Abandoned(o: ManagedSts, applied: Annotations): set<string> {
    set key | key in o.owners && o.owners[key] == {Restarter} && key !in applied
  }

  /** An applied key that already has its value is shared; otherwise force takes it over. */
  function OwnersAfter(o: ManagedSts, applied: Annotations, key: string): set<Manager> {
    if key !in applied then OwnersOf(o, key) - {Restarter}
    else if Lookup(TemplateAnnotations(o.sts), key) == Some(applied[key]) then OwnersOf(o, key) + {Restarter}
    else {Restarter}
  }

  function Apply(o: ManagedSts, applied: Annotations): ManagedSts {
    var annotations := TemplateAnnotations(o.sts) - Abandoned(o, applied) + applied;
    var owners := map key | key in o.owners.Keys + applied.Keys && OwnersAfter(o, applied, key) != {}
                    :: OwnersAfter(o, applied, key);
    ManagedSts(
      if annotations == TemplateAnnotations(o.sts) then o.sts else WithTemplateAnnotations(o.sts, annotations),
      owners,
      o.decodable)
  }

  /**
   A patch that names an incarnation by uid cannot hit another one. It never creates: with a uid there is no object to
   match, and without one the applied configuration lacks what a StatefulSet must have.
   */
  function Patch(current: Option<ManagedSts>, uid: Option<string>, applied: Annotations)
    : (r: Result<ManagedSts, PatchError>)
    ensures r.Ok? ==> current.Some? && r.value.sts.metadata == current.value.sts.metadata
    ensures r.Ok? && uid.Some? ==> r.value.sts.metadata.uid == uid
  {
    match current
    case None => Err(if uid.Some? then NotFound else Incomplete)
    case Some(o) =>
      if uid.Some? && o.sts.metadata.uid != uid then Err(UidConflict) else Ok(Apply(o, applied))
  }

  /** Applying would change nothing. */
  predicate Settled(o: ManagedSts, applied: Annotations) {
    Apply(o, applied) == o
  }

  lemma AppliedAnnotations(o: ManagedSts, applied: Annotations)
    ensures TemplateAnnotations(Apply(o, applied).sts)
            == TemplateAnnotations(o.sts) - Abandoned(o, applied) + applied
    ensures Apply(o, applied).sts.metadata == o.sts.metadata
    ensures Template(Apply(o, applied).sts).spec == Template(o.sts).spec
  {
  }

  lemma AppliedOwners(o: ManagedSts, applied: Annotations, key: string)
    ensures OwnersOf(Apply(o, applied), key) == OwnersAfter(o, applied, key)
  {
  }

  /**
   After a successful patch the restarter owns exactly the keys it applied and they carry its values; a key
   it alone held and no longer applies is gone; every other annotation, and every other manager's hold on
   it, is as before.
   */
  lemma OwnershipAfterApply(o: ManagedSts, applied: Annotations)
    ensures var o' := Apply(o, applied);
            var before, after := TemplateAnnotations(o.sts), TemplateAnnotations(o'.sts);
            && Owned(o', Restarter) == applied.Keys
            && (forall key :: key in applied ==> Lookup(after, key) == Some(applied[key]))
            && (forall key :: key in applied ==>
                  OwnersOf(o', key) == if Lookup(before, key) == Some(applied[key]) then OwnersOf(o, key) + {Restarter}
                                       else {Restarter})
            && (forall key :: key !in applied && OwnersOf(o, key) == {Restarter} ==> key !in after)
            && (forall key :: key !in applied && OwnersOf(o, key) != {Restarter} ==>
                  && Lookup(after, key) == Lookup(before, key)
                  && OwnersOf(o', key) == OwnersOf(o, key) - {Restarter})
  {
    var o' := Apply(o, applied);
    AppliedAnnotations(o, applied);
    forall key ensures OwnersOf(o', key) == OwnersAfter(o, applied, key) {
      AppliedOwners(o, applied, key);
    }
    forall key ensures key in Owned(o', Restarter) <==> key in applied {
      assert key in Owned(o', Restarter) <==> Restarter in OwnersOf(o', key);
    }
  }

  ghost predicate NoEmptyOwners(o: ManagedSts) {
    forall key :: key in o.owners ==> o.owners[key] != {}
  }

  /** An object that already carries the values keeps its template; at most ownership changes. */
  lemma CoveredTemplateUnchanged(o: ManagedSts, applied: Annotations)
    requires forall key :: key in applied ==> Lookup(TemplateAnnotations(o.sts), key) == Some(applied[key])
    requires Owned(o, Restarter) <= applied.Keys
    ensures Apply(o, applied).sts == o.sts
  {
    var annotations := TemplateAnnotations(o.sts);
    assert Abandoned(o, applied) <= Owned(o, Restarter) - applied.Keys;
    assert annotations - {} + applied == annotations;
  }

  /** A settled object carries every applied value and nothing else is the restarter's, and conversely. */
  lemma SettledExactly(o: ManagedSts, applied: Annotations)
    requires NoEmptyOwners(o)
    ensures Settled(o, applied)
            <==> && Owned(o, Restarter) == applied.Keys
                 && (forall key :: key in applied ==> Lookup(TemplateAnnotations(o.sts), key) == Some(applied[key]))
  {
    OwnershipAfterApply(o, applied);
    if && Owned(o, Restarter) == applied.Keys
       && (forall key :: key in applied ==> Lookup(TemplateAnnotations(o.sts), key) == Some(applied[key]))
    {
      CoveredTemplateUnchanged(o, applied);
      OwnersUnchanged(o, applied);
    }
  }

  lemma OwnersUnchanged(o: ManagedSts, applied: Annotations)
    requires NoEmptyOwners(o) && Owned(o, Restarter) == applied.Keys
    requires forall key :: key in applied ==> Lookup(TemplateAnnotations(o.sts), key) == Some(applied[key])
    ensures Apply(o, applied).owners == o.owners
  {
    var o' := Apply(o, applied);
    forall key ensures Lookup(o'.owners, key) == Lookup(o.owners, key) {
      AppliedOwners(o, applied, key);
      assert key in Owned(o, Restarter) <==> Restarter in OwnersOf(o, key);
      assert OwnersOf(o', key) == OwnersOf(o, key);
    }
    SameLookups(o'.owners, o.owners);
  }

  /** Applying the same configuration a second time changes nothing. */
  lemma ApplyIdempotent(o: ManagedSts, applied: Annotations)
    ensures Settled(Apply(o, applied), applied)
  {
    OwnershipAfterApply(o, applied);
    SettledExactly(Apply(o, applied), applied);
  }
}
