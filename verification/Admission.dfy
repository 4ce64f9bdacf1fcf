/**
 Admission through the webhook: running it again does no harm, and what it admits the restarter leaves alone
 (rust/operator-binary/src/webhooks/restarter_mutate_sts.rs and restart_controller/statefulset.rs).
 */
module Admission {
  import opened Wrappers
  import opened Kubernetes
  import opened JsonPatch
  import opened PatchMeaning
  import opened RestartFingerprint
  import opened RestarterWebhook
  import opened StatefulSetDecoding
  import SA = ServerSideApply
  import RC = RestartController
  import Conv = RestartConvergence

  /** Another webhook rewrites the Pod spec. */
  function SetPodSpec(doc: Json, pod: Json): Json
    requires HasTemplate(doc)
  {
    WithTemplate(doc, Obj(TemplateOf(doc)["spec" := pod]))
  }

  lemma WithTemplateTwice(doc: Json, template: Members, template': Members)
    requires HasTemplate(doc)
    ensures HasTemplate(WithTemplate(doc, Obj(template))) && TemplateOf(WithTemplate(doc, Obj(template))) == template
    ensures WithTemplate(WithTemplate(doc, Obj(template)), Obj(template')) == WithTemplate(doc, Obj(template'))
    ensures WithTemplate(doc, Obj(template)) == WithTemplate(doc, Obj(template')) <==> template == template'
  {
    var spec := doc.members["spec"].members;
    assert spec["template" := Obj(template)]["template" := Obj(template')] == spec["template" := Obj(template')];
    var members := doc.members["spec" := Obj(spec["template" := Obj(template)])];
    var members' := doc.members["spec" := Obj(spec["template" := Obj(template')])];
    assert members["spec" := members'["spec"]] == members';
    assert members == members' ==> members["spec"].members["template"] == members'["spec"].members["template"];
  }

  lemma OverlayTemplateTwice(template: Members, pod: Json, first: Annotations, second: Annotations)
    ensures var existing := MembersAt(MembersAt(template, "metadata"), "annotations");
            OverlayTemplate(OverlayTemplate(template, first)["spec" := pod], second)
            == OverlayTemplate(template["spec" := pod], second)
            <==> existing + AsJson(first) + AsJson(second) == existing + AsJson(second)
  {
    hide AsJson;
    var metadata := MembersAt(template, "metadata");
    var existing := MembersAt(metadata, "annotations");
    var twice := OverlayTemplate(OverlayTemplate(template, first)["spec" := pod], second);
    var once := OverlayTemplate(template["spec" := pod], second);
    var annotationsTwice := Obj(existing + AsJson(first) + AsJson(second));
    var annotationsOnce := Obj(existing + AsJson(second));
    assert metadata["annotations" := Obj(existing + AsJson(first))]["annotations" := annotationsTwice]
           == metadata["annotations" := annotationsTwice];
    assert twice == template["spec" := pod]["metadata" := Obj(metadata["annotations" := annotationsTwice])];
    assert once == template["spec" := pod]["metadata" := Obj(metadata["annotations" := annotationsOnce])];
    assert twice["metadata"].members["annotations"] == annotationsTwice;
    assert once["metadata"].members["annotations"] == annotationsOnce;
  }

  lemma OverlayAroundPodSpec(doc: Json, pod: Json, first: Annotations, second: Annotations)
    requires HasTemplate(doc)
    ensures var existing := MembersAt(MembersAt(TemplateOf(doc), "metadata"), "annotations");
            OverlayDocument(SetPodSpec(OverlayDocument(doc, first), pod), second)
            == OverlayDocument(SetPodSpec(doc, pod), second)
            <==> existing + AsJson(first) + AsJson(second) == existing + AsJson(second)
  {
    var template := TemplateOf(doc);
    var overlaid := OverlayTemplate(template, first);
    var twice, once := overlaid["spec" := pod], template["spec" := pod];
    OverlayTemplateTwice(template, pod, first, second);
    WithTemplateTwice(doc, overlaid, twice);
    WithTemplateTwice(doc, twice, OverlayTemplate(twice, second));
    WithTemplateTwice(doc, once, OverlayTemplate(once, second));
    WithTemplateTwice(doc, OverlayTemplate(twice, second), OverlayTemplate(once, second));
    hide OverlayTemplate, AsJson, HasTemplate, WithTemplate, TemplateOf;
  }

  /**
   Running the handler, letting another webhook rewrite the Pod spec so that it only adds references, and
   running the handler again gives what running it once on the rewritten object gives, even if the stores
   changed in between.
   */
  lemma ReinvocationHarmless(
    doc: Json, pod: Json, cms: Store, secrets: Store, cms': Store, secrets': Store,
    patch: seq<Operation>, again: seq<Operation>, once: seq<Operation>)
    requires Decode(doc).Value? && HasTemplate(doc) && Decode(SetPodSpec(doc, pod)).Value?
    requires HandlerPatch(Decode(doc).value, RestarterAnnotations(Decode(doc).value, cms, secrets), patch)
    requires forall kind, name ::
               References(Decode(doc).value, kind, name) ==> References(Decode(SetPodSpec(doc, pod)).value, kind, name)
    requires HandlerPatch(
               Decode(SetPodSpec(doc, pod)).value,
               RestarterAnnotations(Decode(SetPodSpec(doc, pod)).value, cms', secrets'), once)
    requires ApplyPatch(doc, patch).Ok? && HasTemplate(ApplyPatch(doc, patch).value) ==>
               var rewritten := SetPodSpec(ApplyPatch(doc, patch).value, pod);
               Decode(rewritten).Value? ==>
                 HandlerPatch(
                   Decode(rewritten).value, RestarterAnnotations(Decode(rewritten).value, cms', secrets'), again)
    ensures ApplyPatch(doc, patch).Ok? && HasTemplate(ApplyPatch(doc, patch).value)
    ensures ApplyPatch(SetPodSpec(ApplyPatch(doc, patch).value, pod), again)
            == ApplyPatch(SetPodSpec(doc, pod), once)
    ensures ApplyPatch(SetPodSpec(doc, pod), once).Ok?
  {
    var sts, sts' := Decode(doc).value, Decode(SetPodSpec(doc, pod)).value;
    var first, second := RestarterAnnotations(sts, cms, secrets), RestarterAnnotations(sts', cms', secrets');
    PatchWithTemplate(doc, first, patch);
    RewrittenDecodes(doc, pod, first);
    var rewritten := SetPodSpec(OverlayDocument(doc, first), pod);
    SameInputsSameAnnotations(Decode(rewritten).value, sts', cms', secrets');
    PatchWithTemplate(rewritten, second, again);
    PatchWithTemplate(SetPodSpec(doc, pod), second, once);
    KeysGrow(sts, cms, secrets, sts', cms', secrets');
    GrowingOverlays(doc, pod, first, second);
  }

  lemma GrowingOverlays(doc: Json, pod: Json, first: Annotations, second: Annotations)
    requires HasTemplate(doc) && first.Keys <= second.Keys
    ensures OverlayDocument(SetPodSpec(OverlayDocument(doc, first), pod), second)
            == OverlayDocument(SetPodSpec(doc, pod), second)
  {
    var existing := MembersAt(MembersAt(TemplateOf(doc), "metadata"), "annotations");
    assert AsJson(first).Keys <= AsJson(second).Keys;
    assert existing + AsJson(first) + AsJson(second) == existing + AsJson(second);
    OverlayAroundPodSpec(doc, pod, first, second);
  }

  lemma SameInputsSameAnnotations(sts: StatefulSet, sts': StatefulSet, cms: Store, secrets: Store)
    requires sts.metadata.namespace == sts'.metadata.namespace && sts.metadata.annotations == sts'.metadata.annotations
    requires Template(sts).spec == Template(sts').spec
    ensures RestarterAnnotations(sts, cms, secrets) == RestarterAnnotations(sts', cms, secrets)
  {
    TemplateAnnotationsNotRead(sts, sts', ConfigMaps, cms);
    TemplateAnnotationsNotRead(sts, sts', Secrets, secrets);
  }

  lemma DecodeWithTemplate(doc: Json, template: Members)
    requires HasTemplate(doc) && DecodeMetadata(Member(doc.members, "metadata")).Value?
    ensures var metadata := DecodeTemplateMeta(Member(template, "metadata"));
            var pod := DecodePodSpec(Member(template, "spec"));
            var decoded := Decode(WithTemplate(doc, Obj(template)));
            && (decoded.Value? <==> metadata.Value? && pod.Value?)
            && (decoded.Value? ==>
                  && decoded.value.metadata == DecodeMetadata(Member(doc.members, "metadata")).value
                  && Template(decoded.value) == PodTemplate(metadata.value, pod.value))
  {
    hide DecodeMetadata, DecodePodSpec, DecodeTemplateMeta;
    var result := WithTemplate(doc, Obj(template));
    assert Member(result.members, "metadata") == Member(doc.members, "metadata");
  }

  lemma RewrittenDecodes(doc: Json, pod: Json, annotations: Annotations)
    requires Decode(doc).Value? && HasTemplate(doc) && Decode(SetPodSpec(doc, pod)).Value?
    ensures var rewritten := Decode(SetPodSpec(OverlayDocument(doc, annotations), pod));
            && rewritten.Value?
            && rewritten.value.metadata == Decode(SetPodSpec(doc, pod)).value.metadata
            && Template(rewritten.value).spec == Template(Decode(SetPodSpec(doc, pod)).value).spec
  {
    var template := TemplateOf(doc);
    var overlaid := OverlayTemplate(template, annotations);
    DecodeOverlaidMeta(template, annotations);
    WithTemplateTwice(doc, overlaid, overlaid["spec" := pod]);
    WithTemplateTwice(doc, template["spec" := pod], template);
    var rewritten := SetPodSpec(OverlayDocument(doc, annotations), pod);
    assert rewritten == WithTemplate(doc, Obj(overlaid["spec" := pod]));
    DecodeWithTemplate(doc, overlaid["spec" := pod]);
    DecodeWithTemplate(doc, template["spec" := pod]);
  }

  lemma KeysGrow(sts: StatefulSet, cms: Store, secrets: Store, sts': StatefulSet, cms': Store, secrets': Store)
    requires forall kind, name :: References(sts, kind, name) ==> References(sts', kind, name)
    ensures RestarterAnnotations(sts, cms, secrets).Keys <= RestarterAnnotations(sts', cms', secrets').Keys
  {
    forall key | key in RestarterAnnotations(sts, cms, secrets)
      ensures key in RestarterAnnotations(sts', cms', secrets')
    {
      var kind, name := AnnotationKey(sts, cms, secrets, key);
      AnnotationAt(sts', cms', secrets', kind, name);
    }
  }

  // ---------------------------------------------------------------- joined to the controller

  /**
   A StatefulSet admitted through the webhook and then stored, under whatever uid, is never changed by the
   restarter until a relevant object or the StatefulSet itself changes: no restart of Pod 0.
   */
  lemma AdmittedIsNotRestarted(
    doc: Json, cms: Store, secrets: Store, patch: seq<Operation>,
    s: RC.State, ref: ObjectRef, o: SA.ManagedSts, steps: seq<RC.Step>)
    requires Decode(doc).Value? && HasTemplate(doc)
    requires HandlerPatch(Decode(doc).value, RestarterAnnotations(Decode(doc).value, cms, secrets), patch)
    requires ApplyPatch(doc, patch).Ok? && Decode(ApplyPatch(doc, patch).value).Value? ==>
               var admitted := Decode(ApplyPatch(doc, patch).value).value;
               o.sts == admitted.(metadata := admitted.metadata.(uid := o.sts.metadata.uid))
    requires SA.Owned(o, SA.Restarter) == {}
    requires SlashFree(cms) && SlashFree(secrets) && SlashFree(s.cms.store) && SlashFree(s.secrets.store)
    requires SameRelevantRevisions(Decode(doc).value, ConfigMaps, cms, s.cms.store)
    requires SameRelevantRevisions(Decode(doc).value, Secrets, secrets, s.secrets.store)
    requires ref !in s.stses && ref !in s.stsStore && ref !in s.inFlight && !RC.Undelivered(s.stsEvents, ref)
    requires Conv.RelevantSteady(s, o.sts)
    requires Conv.UnrelatedRun(RC.Do(s, RC.EditStatefulSet(ref, Some(o))), steps, ref, o.sts)
    ensures RC.CanRun(RC.Do(s, RC.EditStatefulSet(ref, Some(o))), steps)
    ensures var s' := RC.Run(RC.Do(s, RC.EditStatefulSet(ref, Some(o))), steps);
            ref in s'.stses && s'.stses[ref].sts == o.sts
  {
    var sts := Decode(doc).value;
    var annotations := RestarterAnnotations(sts, cms, secrets);
    PatchMeansOverlay(doc, annotations, patch);
    AdmittedCovers(sts, annotations, o, s, cms, secrets);
    Conv.NoFirstRestart(s, ref, o, steps);
  }

  lemma AdmittedCovers(
    sts: StatefulSet, annotations: Annotations, o: SA.ManagedSts, s: RC.State, cms: Store, secrets: Store)
    requires annotations == RestarterAnnotations(sts, cms, secrets)
    requires o.sts.metadata.namespace == sts.metadata.namespace
    requires o.sts.metadata.annotations == sts.metadata.annotations
    requires o.sts.spec == Overlay(sts, annotations).spec
    requires SA.Owned(o, SA.Restarter) == {}
    requires SlashFree(cms) && SlashFree(secrets) && SlashFree(s.cms.store) && SlashFree(s.secrets.store)
    requires SameRelevantRevisions(sts, ConfigMaps, cms, s.cms.store)
    requires SameRelevantRevisions(sts, Secrets, secrets, s.secrets.store)
    ensures Conv.Covers(o, RC.Target(s, o.sts))
  {
    assert Template(o.sts).spec == Template(sts).spec;
    SameInputsSameAnnotations(o.sts, sts, s.cms.store, s.secrets.store);
    SameRevisionsSameAnnotations(sts, cms, secrets, s.cms.store, s.secrets.store);
    assert TemplateAnnotations(o.sts) == TemplateAnnotations(sts) + annotations;
  }
}
