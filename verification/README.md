# Stackable commons operator: a verified model

The commons operator restarts Pods when the configuration they use changes and when their certificates expire. This
project models its restarter and two of its test-run scripts in Dafny 4.11 and proves what they guarantee over all
inputs and all runs. `dafny verify dfyconfig.toml` checks everything.

**The StatefulSet restarter** (`RestartFingerprint`, `AnnotationContract`, `ServerSideApply`, `RestartController`,
`RestartConvergence`, `QuietContract`, `RestartTermination`, `RestartFairness`). It watches enabled StatefulSets and
all ConfigMaps and Secrets that are not ignored, keeps local copies, and writes one annotation per referenced object
into the Pod template with server-side apply; a changed template makes Kubernetes restart the Pods. The annotation map
is a fingerprint of the referenced objects, and the controller is a state machine: API server contents, undelivered
watch events in order, local stores, triggers, a deduplicated queue, and reconciles that read the ConfigMap store, then
the Secret store, and patch later. Outside edits, deliveries, failures, lost acknowledgements and late patches
interleave freely. Proved: an invariant over every run, convergence to the server's real objects when all is quiet, a
measure that the controller's steps lower (so its own patches triggering it again come to an end), that every fair run
comes to rest, and that Pods are restarted exactly on relevant changes. `AnnotationContract` and `QuietContract` say
the results in the API objects' own fields, keys and labels.

**The admission webhook** (`JsonPatch`, `KeyOrder`, `StatefulSetDecoding`, `DecodingContract`, `RestarterWebhook`,
`PatchMeaning`, `Admission`). It compiles the same annotation map into a JSON Patch, so that a new StatefulSet starts
out with the annotations the restarter would write. Modelled: JSON Pointer (RFC 6901, sections 3 to 5), the `add`
operation (RFC 6902, section 4.1), decoding of the submitted document into the typed object, and the handler. Proved: what the patch means, and that an admitted StatefulSet is not restarted needlessly.

**Delayed initialisation** (`DelayedInit`). Getters share a value that one initializer sends through a one-shot
channel. The classes follow the source; a protocol interleaves the critical sections of any number of getters with the
initializer and refines a write-once register.

**Pod expiry** (`PodExpiry`). Pods with expiry annotations are evicted after the earliest of them. A timed state
machine has a monotone clock, watch events, one reconcile at a time that may take any time, and a scheduler that keeps
the sooner of two triggers.

**Retrying flaky integration tests** (`RetryEngine`, `RetryGuarantees`, `RuntimeHistories`). A parallel phase, a serial
phase, kept namespaces, summaries, an exit code, and the history of runtimes in memory and on file. What an attempt
comes to and which worker finishes next are functions given to the runner; a log of all attempts is what its results
are compared with.

**The release file** (`ReleaseFile`, `ReleaseDocuments`, `ReleaseVersions`). Two passes over its lines override operator
versions and drop operators. Proved: exactly when the lines they leave are the ones asked for, and that read back as a
map from products to versions they are the update of the original.

Findings along the way:

- A StatefulSet document without an object at `/spec/template` makes the webhook's own patch inapplicable: only `/spec`
  is created, nothing creates `/spec/template` (`PatchMeaning.PatchMeansOverlay` gives the exact condition,
  `PatchMeaning.MissingSpecFails` documents that reach the handler).
- Only the latest getter to wait is woken when the value arrives; the others sleep until something else polls them
  (`DelayedInit.OnlyTheLatestIsWoken`, `DelayedInit.EarlierGetterSleepsOn`).
- Two revisions print alike exactly when their uids overlap at a slash (`RestartFingerprint.TokenExact`), which
  Kubernetes uids never do.
- The namespace reported for a failed test may be one that is already deleted: it exists if and only if the last
  attempt's log names a namespace (`RetryGuarantees.ReportedNamespaceExists`); `RetryGuarantees.ReportedButGone` is a run
  in which it does not.
- The rerun script exits with 0 when the initial suite fails but its log names no failed test
  (`RetryEngine.Runner.Run`).
- The release file's rewriting matches names anywhere in a line, so an operator name inside another product's name
  patches or drops that product too. It does what was asked for if and only if each product's line brings the product
  what its own name brings (`ReleaseDocuments.RewritingExactly`, pass by pass `FirstPassExactly` and
  `SecondPassExactly`); `ReleaseDocuments.AmbiguousFile` is a file where it does not.

## Model

| member | source | states |
|---|---|---|
| RestartFingerprint.PodRefsExact | rust/operator-binary/src/restart_controller/statefulset.rs:222-245 | The iterator chain over volumes, environment variables and `envFrom` of containers and init containers finds a name if and only if some volume, variable or `envFrom` names it |
| RestartFingerprint.ExtendWith | rust/operator-binary/src/restart_controller/statefulset.rs:300-317 | One extension of the mutable map, reference by reference, equals the old map overlaid with the set-based map of all referenced names |
| RestartFingerprint.GetUpdatedRestarterAnnotations | rust/operator-binary/src/restart_controller/statefulset.rs:247-374 | Both extensions give the ConfigMap and Secret annotations of the StatefulSet; a cancelled ConfigMap initializer is reported before a Secret one |
| RestartFingerprint.AnnotationAt | rust/operator-binary/src/restart_controller/statefulset.rs:300-317 | A key is present if and only if the Pod spec references that object, and then carries the token of its cache entry |
| RestartFingerprint.AnnotationKey | rust/operator-binary/src/restart_controller/statefulset.rs:354-371 | Every key of the map is the key of some referenced object |
| RestartFingerprint.KeysSeparate | rust/operator-binary/src/restart_controller/statefulset.rs:305-359 | Keys of ConfigMaps and Secrets never meet and determine the object's name |
| RestartFingerprint.ArrangementIrrelevant | rust/operator-binary/src/restart_controller/statefulset.rs:222-245 | Order, repetition and the container a reference sits in do not matter: same referenced objects if and only if same keys, and then the same map |
| RestartFingerprint.TokenExact | rust/operator-binary/src/restart_controller/statefulset.rs:306-314 | Two cache entries print alike if and only if both are missing, both are the same uid and resourceVersion, or their uids overlap at a slash |
| RestartFingerprint.CollidingUids | rust/operator-binary/src/restart_controller/statefulset.rs:311 | Two different revisions with a slash in a uid that print alike |
| RestartFingerprint.TokenChangesExactly | rust/operator-binary/src/restart_controller/statefulset.rs:290-314 | With slash-free uids the token tells two cache entries apart if and only if the name is not ignored and the revisions differ |
| RestartFingerprint.RestartExactlyOnRelevantChange | rust/operator-binary/src/restart_controller/statefulset.rs:247-374 | Two states of the stores give the same annotations if and only if every referenced, non-ignored ConfigMap and Secret is at the same revision |
| RestartFingerprint.OnlyRelevantEntriesMatter | rust/operator-binary/src/restart_controller/statefulset.rs:290-317 | Entries of unreferenced or ignored objects never influence the map, whatever their uids |
| RestartFingerprint.TemplateAnnotationsNotRead | rust/operator-binary/src/restart_controller/statefulset.rs:247-374 | The map does not depend on the Pod template's annotations, which the restarter itself writes |
| AnnotationContract.ConfigMapAnnotation | rust/operator-binary/src/restart_controller/statefulset.rs:255-371 | The key `configmap.restarter.stackable.tech/<name>` is there if and only if a volume, or an environment variable or `envFrom` of a container or init container, takes that ConfigMap; its value is uid, slash and resourceVersion of the cached ConfigMap, or `changes-ignored` when it is not cached, lacks either, or is the value of a `restarter.stackable.tech/ignore-configmap.` annotation |
| AnnotationContract.SecretAnnotation | rust/operator-binary/src/restart_controller/statefulset.rs:255-371 | The same for Secrets, with their fields and prefixes |
| AnnotationContract.NoOtherAnnotation | rust/operator-binary/src/restart_controller/statefulset.rs:354-371 | The map has no other keys |
| ServerSideApply.Patch | rust/operator-binary/src/restart_controller/statefulset.rs:388-417 | A patch never creates a StatefulSet and never touches another object's metadata, and one carrying a uid never lands on another incarnation of the name |
| ServerSideApply.OwnershipAfterApply | rust/operator-binary/src/restart_controller/statefulset.rs:391-414 | After a patch the restarter owns exactly the applied keys with their values, together with the former owners where the value was the same and alone where it was forced; a key it alone owned and no longer applies is gone; all other annotations and owners stay |
| ServerSideApply.SettledExactly | rust/operator-binary/src/restart_controller/statefulset.rs:391-414 | An apply changes nothing if and only if the object carries the applied values and the restarter owns exactly those keys |
| ServerSideApply.ApplyIdempotent | rust/operator-binary/src/restart_controller/statefulset.rs:388-417 | Applying the same annotations a second time changes nothing |
| ServerSideApply.CoveredTemplateUnchanged | rust/operator-binary/src/restart_controller/statefulset.rs:388-417 | An object already carrying the values keeps its template; only ownership may change |
| RestartController.TriggeredExactly | rust/operator-binary/src/restart_controller/statefulset.rs:126-220 | Among all steps, a StatefulSet is triggered exactly by news that it was created or changed, not that it was deleted, and by any news of a ConfigMap or Secret while it is in the store |
| RestartController.InitInv | rust/operator-binary/src/restart_controller/statefulset.rs:100-125 | The invariant holds at startup |
| RestartController.StepKeepsInv | rust/operator-binary/src/restart_controller/statefulset.rs:126-220 | Every step keeps it: each store plus its undelivered events is the server's visible contents, and an enabled, readable StatefulSet that nothing will trigger is settled or in the hands of a reconcile whose reads agree with the stores |
| RestartController.RunKeepsInv | rust/operator-binary/src/restart_controller/statefulset.rs:376-431 | So does every run, across stale reads followed by late patches, failures and lost acknowledgements |
| RestartController.PatchesWaitForStores | rust/operator-binary/src/restart_controller/statefulset.rs:289-341 | In every run, a reconcile patches only after both the ConfigMap and the Secret store could be read |
| RestartConvergence.Convergence | rust/operator-binary/src/restart_controller/statefulset.rs:126-220 | From startup through any interleaving, when nothing is left to do, every enabled StatefulSet carries exactly the tokens of the server's own ConfigMaps and Secrets and the restarter owns exactly their keys |
| QuietContract.QuietConfigMapAnnotation | rust/operator-binary/src/restart_controller/statefulset.rs:126-220 | In every quiet state reached from startup, a ConfigMap taken by an enabled StatefulSet has its annotation on the Pod template: its uid and resourceVersion on the server, or `changes-ignored` if it is absent, lacks either, is labelled `restarter.stackable.tech/ignore: "true"` or is ignored by name |
| QuietContract.QuietSecretAnnotation | rust/operator-binary/src/restart_controller/statefulset.rs:126-220 | The same for Secrets |
| QuietContract.QuietOwnership | rust/operator-binary/src/restart_controller/statefulset.rs:388-417 | In such a state the restarter owns the annotations of exactly the ConfigMaps and Secrets that the StatefulSet takes |
| RestartConvergence.RestartedIffRelevantChange | rust/operator-binary/src/restart_controller/statefulset.rs:376-422 | Between two quiet states, the restarter's annotations of an otherwise unchanged StatefulSet differ if and only if a relevant object on the server is at another revision |
| RestartConvergence.NoUnneededRestart | rust/operator-binary/src/restart_controller/statefulset.rs:388-417 | From a quiet state, however the world touches other objects, the StatefulSet on the server stays exactly as it is |
| RestartConvergence.NoFirstRestart | rust/operator-binary/src/restart_controller/statefulset.rs:388-417 | A StatefulSet created with the right annotations keeps its template through the first patch and all later ones until a relevant change |
| RestartTermination.SmoothStepGoesDown | rust/operator-binary/src/restart_controller/statefulset.rs:174-184 | Every step of the controller lowers a lexicographic measure over events, stale events, stale requests, stale reconciles, unsettled templates and remaining work, the self-triggering patch included; only a patch refused while the store has yet to hear of the present incarnation does not |
| RestartTermination.NeverStuck | rust/operator-binary/src/restart_controller/statefulset.rs:126-189 | Once both stores can be read, a controller that is not quiet can take a step that lowers the measure |
| RestartTermination.EveryRunSettles | rust/operator-binary/src/restart_controller/statefulset.rs:388-421 | Whatever the scheduler chooses, an infinite run of steps that lower the measure reaches a quiet state in which every StatefulSet has converged |
| RestartFairness.EveryFairRunSettles | rust/operator-binary/src/restart_controller/statefulset.rs:388-421 | However often patches are refused, also before the news of a deletion or replacement arrives, a run of answered steps in which StatefulSet news on its way is eventually delivered reaches such a state |
| JsonPatch.UnescapeEscape | rust/operator-binary/src/webhooks/restarter_mutate_sts.rs:147-155 | Unescaping a pointer token (RFC 6901, section 4) undoes escaping it |
| JsonPatch.EscapeExactly | rust/operator-binary/src/webhooks/restarter_mutate_sts.rs:147-155 | In a pointer token a tilde is written `~0`, a slash `~1`, and text without either as it is (RFC 6901, section 3) |
| JsonPatch.ParseFromTokens | rust/operator-binary/src/webhooks/restarter_mutate_sts.rs:147-155 | A pointer built from raw tokens, whatever slashes and tildes they hold, parses back to those tokens |
| JsonPatch.AddExactly | rust/operator-binary/src/webhooks/restarter_mutate_sts.rs:129-134 | An `add` succeeds if and only if its pointer's parent is an object, or an array with that position; evaluating the pointer afterwards (RFC 6901, section 4) finds the parent with the member set or the element inserted |
| JsonPatch.OthersStay | rust/operator-binary/src/webhooks/restarter_mutate_sts.rs:129-158 | Whatever a pointer finds outside that parent is found unchanged after the `add` |
| JsonPatch.PrefixesSucceed | rust/operator-binary/src/webhooks/restarter_mutate_sts.rs:160-162 | A patch that applies has no failing prefix |
| DecodingContract.DecodesExactly | rust/operator-binary/src/webhooks/restarter_mutate_sts.rs:106-114 | A document decodes if and only if every field that is read is absent, null or of its type |
| DecodingContract.DecodedReferences | rust/operator-binary/src/webhooks/restarter_mutate_sts.rs:106-114 | The typed object takes a ConfigMap or Secret if and only if the document names it in a volume, or an environment variable or `envFrom` of `containers` or `initContainers` |
| DecodingContract.DecodedMetadata | rust/operator-binary/src/webhooks/restarter_mutate_sts.rs:106-114 | Its name, namespace, uid, labels and ignored names are those of the document's `metadata` |
| KeyOrder.BelowExactly | rust/operator-binary/src/webhooks/restarter_mutate_sts.rs:145 | The order of the computed annotations: a key comes before another if it is a proper prefix of it, or has the smaller character where they first differ |
| RestarterWebhook.CollectPaths | rust/operator-binary/src/webhooks/restarter_mutate_sts.rs:116-128 | The pushed paths are those of the missing spec, template metadata and annotations, outermost first |
| RestarterWebhook.CreatePaths | rust/operator-binary/src/webhooks/restarter_mutate_sts.rs:129-134 | One operation adding an empty object per missing path, in order |
| RestarterWebhook.AddAnnotations | rust/operator-binary/src/webhooks/restarter_mutate_sts.rs:145-158 | One operation per computed annotation, by ascending key, with the key escaped as a pointer token |
| RestarterWebhook.AddStsRestarterAnnotationsHandler | rust/operator-binary/src/webhooks/restarter_mutate_sts.rs:106-168 | The response is invalid if and only if the object is missing or an initializer was cancelled; otherwise it is the patch that creates the missing objects and then adds the computed annotations by ascending key |
| RestarterWebhook.OnePatchOnly | rust/operator-binary/src/webhooks/restarter_mutate_sts.rs:129-162 | The object and its computed annotations determine the patch |
| PatchMeaning.AnsweredOperations | rust/operator-binary/src/webhooks/restarter_mutate_sts.rs:116-158 | The answer, operation by operation: empty objects for what is missing of `/spec`, `/spec/template/metadata` and `/spec/template/metadata/annotations`, then one `add` per computed annotation below the last of these, its key escaped, by ascending key |
| PatchMeaning.PatchMeansOverlay | rust/operator-binary/src/webhooks/restarter_mutate_sts.rs:116-168 | For every document that decodes, the patch applies if and only if there is an object at `/spec/template`; then no prefix fails and the result is the document with the annotations overlaid, as JSON and as the typed object, and nothing else changed |
| PatchMeaning.MissingSpecFails | rust/operator-binary/src/webhooks/restarter_mutate_sts.rs:118-128 | A labelled StatefulSet with any name and namespace but no spec decodes and reaches the handler, and whatever the stores hold, the patch answered cannot be applied |
| PatchMeaning.DecodeOverlay | rust/operator-binary/src/webhooks/restarter_mutate_sts.rs:136-158 | Decoding the overlaid document gives the decoded object with only its template annotations overlaid |
| Admission.ReinvocationHarmless | rust/operator-binary/src/webhooks/restarter_mutate_sts.rs:91-93 | Running the handler, letting another webhook add references, and running it again equals running it once on the final object, even if the stores changed in between |
| Admission.AdmittedIsNotRestarted | rust/operator-binary/src/webhooks/restarter_mutate_sts.rs:136-158 | A StatefulSet admitted through the webhook keeps its template under the restarter as long as the relevant revisions stay the same |
| DelayedInit.Oneshot.Send | rust/operator-binary/src/utils/delayed_init.rs:14-18 | Stores the value, completes the channel and wakes the one registered waker |
| DelayedInit.Oneshot.PollOnce | rust/operator-binary/src/utils/delayed_init.rs:88-97 | A pending poll replaces the registered waker; a completed channel hands its value out and forgets it |
| DelayedInit.DelayedInit.WriteLocked | rust/operator-binary/src/utils/delayed_init.rs:83-105 | Under the write lock the state is checked again, and a result taken from the channel is memoized |
| DelayedInit.DelayedInit.PollGet | rust/operator-binary/src/utils/delayed_init.rs:71-107 | The fast and slow path of an undisturbed poll together act as the write section alone |
| DelayedInit.Linearizable | rust/operator-binary/src/utils/delayed_init.rs:52-107 | Every interleaving of getters and initializer, including between releasing the read lock and taking the write lock, is a run of a write-once register |
| DelayedInit.AllGetsAgree | rust/operator-binary/src/utils/delayed_init.rs:52-58 | All completed gets return one result, the value sent or the cancellation decided before |
| DelayedInit.ChannelHandsOutAtMostOnce | rust/operator-binary/src/utils/delayed_init.rs:88-97 | The channel yields its result at most once, so no getter sees a cancellation after a send |
| DelayedInit.MemoIsFinal | rust/operator-binary/src/utils/delayed_init.rs:92-104 | After memoization no step changes the shared state again |
| DelayedInit.CompletedNeverParks | rust/operator-binary/src/utils/delayed_init.rs:83-105 | Once the initializer has sent or gone, a getter in the write section finishes and the result is memoized |
| DelayedInit.PollFinishes | rust/operator-binary/src/utils/delayed_init.rs:71-107 | The same for a getter anywhere in a poll: each step of its own brings it closer, and a finished getter has the register's value |
| DelayedInit.LocksMoveOn | rust/operator-binary/src/utils/delayed_init.rs:75-84 | While a getter is in the middle of a poll, it or a holder of the lock can take a step |
| DelayedInit.WokenGetterFinishes | rust/operator-binary/src/utils/delayed_init.rs:71-107 | Once the initializer has sent or gone, a parked getter that is polled again never parks again, however other getters' steps fall between its own, and has the register's value after at most three of them |
| DelayedInit.OnlyTheLatestIsWoken | rust/operator-binary/src/utils/delayed_init.rs:90 | Sending wakes a getter if and only if it was the latest to park and is not woken already |
| DelayedInit.EarlierGetterSleepsOn | rust/operator-binary/src/utils/delayed_init.rs:90 | For any two getters and any value there is a run after which the value is set and the first getter is parked and not woken |
| PodExpiry.MinByKeyChooses | rust/operator-binary/src/restart_controller/pod.rs:126-139 | The minimum by key is the first unparsable annotation if there is one, and otherwise the least instant |
| PodExpiry.PodExpiresAtExact | rust/operator-binary/src/restart_controller/pod.rs:120-139 | Choosing fails if and only if some expiry annotation does not parse, gives nothing if and only if there is none, and otherwise gives the earliest instant |
| PodExpiry.BrokenReported | rust/operator-binary/src/restart_controller/pod.rs:126-139 | A Pod not being deleted fails its reconcile with the key and value of the first annotation, in key order, that starts with `restarter.stackable.tech/expires-at.` and does not parse |
| PodExpiry.LeftAloneOrRechecked | rust/operator-binary/src/restart_controller/pod.rs:110-160 | A Pod being deleted or without expiry annotations is left alone; a valid one is requeued for exactly the time that is left |
| PodExpiry.RequestedExactly | rust/operator-binary/src/restart_controller/pod.rs:110-191 | An eviction is requested if and only if the earliest expiry is strictly past, everything parses, the Pod is not being deleted and has a namespace and a name; what an expired Pod's reconcile returns in each case |
| PodExpiry.EvictedOnlyAfterExpiry | rust/operator-binary/src/restart_controller/pod.rs:146-180 | In every timed run each eviction request was sent after its Pod's earliest expiry, with all annotations parsing and the Pod not being deleted |
| PodExpiry.RecheckedAtExpiry | rust/operator-binary/src/restart_controller/pod.rs:157-190 | In every timed run the next reconcile of a valid Pod is due at its earliest expiry, later only by the time the last reconcile took; after an unparsable annotation or a failed eviction it is due five seconds later; otherwise none is due |
| PodExpiry.NeverForgotten | rust/operator-binary/src/restart_controller/pod.rs:243-245 | A Pod with an expiry always has a reconcile running or due, unless its eviction was accepted |
| RetryEngine.Runner.RunSingleTestSuite | scripts/auto-retry-tests.py:485-610 | One attempt leaves its namespace behind if and only if it ran with skip-delete and was not cleaned up after passing |
| RetryEngine.Runner.RetryTestsInParallel | scripts/auto-retry-tests.py:891-966 | Whatever order workers finish in, each test's list holds its logged results, and its attempts are a chain: numbered from 1, ended by the first success, else using the whole budget, only the last with skip-delete |
| RetryEngine.Runner.RetryTestSerially | scripts/auto-retry-tests.py:968-1012 | The same chain for one test, unless a worker raises; the counters of other tests are left alone |
| RetryEngine.Runner.ExecuteParallelRetries | scripts/auto-retry-tests.py:1126-1160 | In a fresh run every failed test gets its parallel chain, which keeps namespaces only if no serial phase follows |
| RetryEngine.Runner.ExecuteSerialRetries | scripts/auto-retry-tests.py:1162-1204 | Exactly the tests without a parallel success get a serial chain; an exception ends the phase |
| RetryEngine.Runner.CreateTestSummary | scripts/auto-retry-tests.py:1014-1048 | Status flaky if and only if some retry passed; a kept failed test reports the last namespace any of its retries logged |
| RetryEngine.Runner.ProcessAllTestResults | scripts/auto-retry-tests.py:1206-1231 | Exactly the failed tests are summarised, with parallel results before serial ones |
| RetryEngine.Runner.ExecuteTestRetries | scripts/auto-retry-tests.py:1233-1246 | A fresh run with distinct names accounts for every failed test; it stops early only for a serial exception |
| RetryEngine.Runner.Run | scripts/auto-retry-tests.py:1260-1274 | The exit code is 0 without retries when the suite passed or no failed test was found, and otherwise 1 if and only if some test is still failed, for any list of failed tests; no exit code only after a serial exception |
| RetryGuarantees.PlannedShape | scripts/auto-retry-tests.py:904-1012 | A test's attempts are failures with at most a final success, at most both budgets together, exactly that many without a success; skip-delete marks exactly the very last slot, and only in keep mode |
| RetryGuarantees.RetriesWithinBudget | scripts/auto-retry-tests.py:904-1048 | The recorded retries of a test likewise; a test that never passes and never raises uses both budgets up |
| RetryGuarantees.RetriesReportAttempts | scripts/auto-retry-tests.py:485-610 | A test's attempts are numbered from 1 in the parallel and again from 1 in the serial phase; every recorded retry reports test, number, type, success and logged namespace of one of them, and if no worker raised, the k-th retry reports the k-th attempt |
| RetryGuarantees.SurvivorsOfTest | scripts/auto-retry-tests.py:597-601 | What a test leaves behind is the namespace of the attempt in its very last slot, in keep mode and unless that attempt passed and was cleaned up; otherwise nothing |
| RetryGuarantees.NamespacesLeft | scripts/auto-retry-tests.py:918-987 | The surviving namespaces of a run are the sum over its tests of what each leaves behind, whatever logs and deletions come to |
| RetryGuarantees.NamespaceRetention | scripts/auto-retry-tests.py:918-987 | Given that deletions succeed, the surviving namespaces of a run are exactly those of the last attempts of the finally failed tests, and none in delete mode |
| RetryGuarantees.DeleteModeKeepsNothing | scripts/auto-retry-tests.py:920-924 | In delete mode no namespace survives, whatever the logs say |
| RetryGuarantees.ReportedIsLatest | scripts/auto-retry-tests.py:1028-1036 | A failed test in keep mode reports the namespace of its latest attempt that logged one, and none if and only if no attempt did |
| RetryGuarantees.ReportedNamespaceExists | scripts/auto-retry-tests.py:1028-1036 | A failed test's reported namespace survives if and only if its last attempt logged one, and is then that one |
| RetryGuarantees.ReportedButGone | scripts/auto-retry-tests.py:1028-1036 | A run with both budgets 1 whose report names a namespace that no longer exists |
| RetryGuarantees.ResultConservation | scripts/auto-retry-tests.py:946-1048 | Summaries cover exactly the failed tests, the flat result list is a permutation of all per-test lists, and its length is the sum of total attempts less one each |
| RetryGuarantees.ExitCodeMeans | scripts/auto-retry-tests.py:1248-1258 | The run is failed if and only if some failed test has no successful retry |
| RuntimeHistories.RuntimeHistory.AddRuntime | scripts/auto-retry-tests.py:54-62 | A duration of at least thirty seconds is appended and the list cut to its last fifty; a shorter one changes nothing |
| RuntimeHistories.StateManager.LoadRuntimeHistory | scripts/auto-retry-tests.py:159-185 | The file's entries with long runtimes replace those in memory, and the file is written back only if there were any |
| RuntimeHistories.StateManager.UpdateRuntimeHistory | scripts/auto-retry-tests.py:195-205 | One test's history grows, the others stay, and the whole history is saved |
| RuntimeHistories.LatestOfLatest | scripts/auto-retry-tests.py:60-62 | Cutting on every addition keeps what cutting once at the end would keep |
| RuntimeHistories.LoadHolds | scripts/auto-retry-tests.py:159-193 | Loading what was saved restores it except for tests without runtimes |
| RuntimeHistories.HistoryRefines | scripts/auto-retry-tests.py:159-205 | After any sequence of reports, restarts and failing or damaging saves, memory and file hold the last fifty long durations among the reports they still know of |
| RuntimeHistories.HistoryIsComplete | scripts/auto-retry-tests.py:54-205 | While saving works, a test's history is the last fifty durations of at least thirty seconds ever reported for it |
| RuntimeHistories.HistoryRecalls | scripts/auto-retry-tests.py:159-205 | Said without the cutting: after any such sequence a test's runtimes in memory and on file are the end of its reported durations of at least 30.0, fifty of them or all if there are fewer |
| RuntimeHistories.RecallsEverything | scripts/auto-retry-tests.py:54-205 | While saving works, of all reports ever made |
| RuntimeHistories.LoadedExactly | scripts/auto-retry-tests.py:159-185 | Loading keeps a test if and only if its entry holds a duration of at least 30.0, and those it keeps |
| ReleaseFile.WithVersionExactly | scripts/run-tests:228-230 | A version replaces everything after the leftmost colon; a line with no colon before its last character stays |
| ReleaseFile.FirstOperatorExactly | scripts/run-tests:231-235 | The operator chosen is the first on the command line whose name occurs in the line, and none if and only if none does |
| ReleaseFile.FirstSkippedExactly | scripts/run-tests:254-262 | The same for skipped operators |
| ReleaseFile.Patch | scripts/run-tests:219-278 | The two loops compute the two passes, and fail on operators not patched before operators not skipped |
| ReleaseDocuments.FirstPass | scripts/run-tests:223-236 | On a file whose operator names occur in product lines only, the first pass gives each section the version of the first operator occurring in its line, and records those operators |
| ReleaseDocuments.SecondPass | scripts/run-tests:246-262 | Likewise, the second pass drops each section in whose line a skipped name occurs |
| ReleaseDocuments.FirstPassExactly | scripts/run-tests:231-235 | The first pass overrides exactly by name if and only if, for every section, the first operator occurring in its line brings what the product's own name is given |
| ReleaseDocuments.SecondPassExactly | scripts/run-tests:254-262 | The second pass drops exactly the named sections if and only if a skipped name occurs in a product's line just when it is the product's own |
| ReleaseDocuments.PrintAlikeExactly | scripts/run-tests:223-262 | Two ways of rewriting a file, one of which leaves none of its marks behind, print the same lines if and only if they agree on every section |
| ReleaseDocuments.RewritingExactly | scripts/run-tests:219-278 | The whole rewriting gives the lines or the error asked for if and only if both passes meet the named operators and agree with the names section by section |
| ReleaseDocuments.RewritingIsAnUpdate | scripts/run-tests:219-278 | On an unambiguous file it always does: it fails if and only if a named operator has no section, naming those, and otherwise overrides and drops exactly the named sections |
| ReleaseDocuments.AccidentalNamePatchesToo | scripts/run-tests:231-235 | In any file, a name occurring in another product's line makes the first pass leave lines that were not asked for |
| ReleaseDocuments.AmbiguousFile | scripts/run-tests:231-235 | A file of two products on which that happens |
| ReleaseVersions.ReadsBack | scripts/run-tests:223-236 | Reading the lines of a laid-out file gives the versions of its sections |
| ReleaseVersions.VersionsUpdated | scripts/run-tests:219-278 | Overriding and dropping sections updates the map of versions: given non-empty versions replace old ones, skipped products are removed |
| ReleaseVersions.RewrittenFileReads | scripts/run-tests:219-278 | Rewriting an unambiguous, laid-out file succeeds if and only if every named operator is in the map read from its lines, and the map read from the resulting lines is then the update of it; otherwise the error names the operators to patch that are not in the map, or, if there are none, those to skip |
| ReleaseVersions.OtherLinesStay | scripts/run-tests:236-262 | All lines outside product sections stay, in order |

## Left out

- RestartController.StepKeepsInv: watch streams deliver single apply and delete events in order; relisting after a lost connection, back-off and the five-second requeue delay are not modelled, so requeued work is simply pending again.
- RestartConvergence.Convergence: speaks about quiet states; that a store already holds every object when `get` resolves is not claimed, because the first stream item of any kind resolves it.
- RestartFairness.EveryFairRunSettles: assumes that outside edits have stopped, that requests are answered, and that StatefulSet news on its way is eventually delivered; `RestartTermination.EveryRunSettles` needs no such fairness but leaves early refusals out.
- ServerSideApply.OwnershipAfterApply: covers the annotations of the Pod template, the only fields the restarter applies.
- RestartFingerprint.PodRefsExact: projected volumes, image pull secrets and other references the source does not look at are absent here too.
- RestarterWebhook.AddStsRestarterAnnotationsHandler: the wording of invalid responses is not modelled.
- PatchMeaning.PatchMeansOverlay: decoding reads the fields the operator reads; malformed fields elsewhere in the document do not matter to it.
- DelayedInit.Linearizable: the one-shot channel's own operations and the lock's are atomic; lock poisoning by a panicking getter is not modelled.
- RetryEngine.Runner.ExecuteTestRetries: fresh runs only. A resumed run starts its counters again and its budgets are not guaranteed; names occurring twice in the log are outside the per-test statements.
- RetryEngine.Runner.RetryTestsInParallel: the number of workers is not modelled, since workers may finish in any order; a non-positive worker count is rejected by the thread pool before anything runs.
- RetryGuarantees.NamespaceRetention: requires that a passed attempt's namespace is named in its log and can be deleted; `RetryGuarantees.NamespacesLeft` is the account without that.
- RuntimeHistories.HistoryRefines: updates by parallel workers are taken one after the other; averages and other statistics are easy functions of the lists.
- PodExpiry.RecheckedAtExpiry: one Pod at a time and a scheduler that is never early; parsing of RFC 3339 text is a given function.
- ReleaseFile.Patch: versions containing a backslash, which the regular expression's replacement would interpret, and the file's line ends are not modelled.
- ReleaseDocuments.RewritingExactly: files whose comments or version lines contain an operator name are outside it; there the line after such a line is patched or dropped as well.
- Log levels of failed evictions, report texts, duration formats, shortened names, subprocess and `kubectl` calls, Helm charts, configuration and command-line parsing.
- Conversion webhooks, custom resource definitions and process start-up, which configure libraries that are not part of this model.
