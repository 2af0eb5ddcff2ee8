# A verified model of the Coherence Operator's control loops

The Coherence Operator drives a Kubernetes cluster toward what Coherence resources ask for. This project
models the parts of it whose correctness is hard to see from the code, and proves what they keep over every
call, run and interleaving:

- **Probe, Scaling, RollingUpgrade**: the StatusHA gate, the scaling policies behind it, and the
  operator-managed upgrade that replaces one node's Pods at a time.
- **Conditions, Status, StatusRuns, ReadyActions**: the status of a resource (phase, conditions, the flag that
  decides whether anything is persisted) and the job action that runs once for each Ready transition.
- **Resources, Storage, Convergence**: the difference of two versions of a resource list, the two-version store
  kept in a Secret, and the passes that make the cluster hold exactly what is stored.
- **Locks**: the per-resource lock that all reconcilers share, as an interleaved protocol.
- **SecretIndex**: from a changed Secret to the resources to reconcile.
- **Expander, SchemaFix, SchemaTree**: the `$`-reference expander of the runner, and the rewriting of CRD schemas:
  its meaning on values, and the program that writes into the maps of a decoded document.

Code that changes state is a class or a method with the loops of the source, proved against a specification
function or predicate; the theorems are lemmas about those. The API server, the clock, the probe transports and
Go's map order are inputs of the model: a failing call, a probe answer or a chosen key can be anything.
`dafny verify dfyconfig.toml` checks the whole project.

## Where the code falls short of its promise

These are properties of the code as it stands; each has a lemma that says exactly when the promise holds.

- `Update` and `SetCondition` can change a status and answer "nothing changed" in states where the phase is
  Initialized but its condition is missing (`StatusRuns.UpdateFlagIsComplete`, `StatusRuns.SetToFlagIsComplete`), and
  `UpdateFromJob` can do so there and for every job that is already completed (`StatusRuns.JobFlagIsComplete`).
- A second `Update` from the same inputs is not always without effect (`StatusRuns.SecondUpdate`). A resource with no
  replicas whose StatefulSet is still there flaps between two phases at every update. The first status of every
  Coherence resource is the phase Initialized without its condition (controllers/coherence_controller.go:201,
  controllers/status/status_manager.go:38): if the first update moves it to another phase, the second one enters
  Initialized again. A completed status reports every phase it is asked to enter.
- A failed deletion of a secondary resource goes unnoticed. Each reconcile stores before its pass, so the retry no
  longer knows of the deletion, and the object stays unless its name is listed again (`Convergence.RetriesSettle`,
  `Convergence.UnlistedStay`).
- A pass compares hashes, not contents (`Convergence.ContentsConverge`). An object that someone has edited keeps its
  hash label and the edit (`Convergence.DriftStays`). While the phase is not Ready a generation's resources are built
  anew under the same hash (controllers/common.go:29): what has changed in them, by new defaults of the operator say,
  does not arrive in objects that are there already (`Convergence.RegeneratedStays`).
- A watch event is handled for the object that has the name of the Coherence resource. If that object has no owner
  reference to a Coherence resource it is deleted, even if it is a user's own and no version lists it
  (`Convergence.UsersObjectGoes`, `Convergence.UnlistedStay`).
- If the owner reference leads to a resource that is gone, the deletion that the comment at
  controllers/reconciler/base_controller.go:813 promises does not happen: the owner is a nil pointer in a non-nil
  interface, and Go panics on its first use (`Convergence.WatchAt`).
- The job controller does not try a generation again whose pass an error has cut short
  (`Convergence.JobsGetOneAttempt`).
- The stored form of a list that begins with a deletion and goes on with an object is not JSON
  (`Storage.RoundTrip`), and `Store` refuses such a list (`Storage.SecretStore.Store`). The operator never stores
  one: only `DiffForKind`, which nothing calls, builds entries without a spec.
- A global label named like the hash label makes memory and Secret disagree (`Storage.StoreAgrees`).
- A safe scaling policy is bypassed by a StatefulSet from version 3.4.3 or earlier (`Scaling.LegacyJump`). The
  comment in the scale-down half of that branch (controllers/statefulset/statefulset_controller.go:356) says the
  pass patches and is then requeued; the code goes on to scale in the same pass, even if the patch failed with an
  error that the common error handler absorbs (`Scaling.LegacyScaleDown`). The model follows the code.
- A job probe whose clock reading is not later than the recorded one is repeated (`ReadyActions.RecordedIffLater`),
  and so is one whose status write fails (`ReadyActions.DueAfterwards`).

## Model

| member | source | states |
|---|---|---|
| `Probe.IsPodReady` | pkg/probe/probe.go:366-377 | a Pod is ready iff it is not terminating, is Running and has some Ready condition that is True |
| `Probe.ProbeIsThePodsAnswer` | pkg/probe/probe.go:383-420 | a valid action is answered yes iff the Pod says yes, no iff it says no, and with an error iff the transport fails; an invalid one is an error, and one that the operator cannot execute a yes |
| `Probe.RefusedExactly` | pkg/probe/probe.go:307-336 | a Pod is refused iff its connection is malformed, invalid or missing although expected, or secure while the suspension is not the generated one; and which error that is |
| `Probe.ActiveHandlerIsConfined` | pkg/probe/probe.go:308-343 | a connection changes a probe only if it is secure and the action is the operator's own, only in scheme and credentials, never in kind, verb or path; and then the request is a trusted one |
| `Probe.OnlyTrustedAnswersCount` | pkg/probe/probe.go:301-363 | the outcome does not depend on what a Pod with a secure connection would say to anything but a trusted request: no suspension or generated health check rests on its plain HTTP answer |
| `Probe.AskPods` | pkg/probe/probe.go:301-363 | the Pods are asked in turn, and the first one that decides gives the outcome |
| `Probe.ExecuteProbeForPods` | pkg/probe/probe.go:264-363 | answers yes iff the StatefulSet has no Pods, or all are ready, as many as replicas, and some target said yes after targets that all left the matter open; which error it gives in every other case |
| `Probe.PassesMeans` | pkg/probe/probe.go:264-363 | a yes about a cluster with Pods means every Pod up, not terminating and with a True Ready condition, as many as replicas (one if none are given), and an asked Pod that said yes to the request it got, if there was one to send |
| `Probe.FirstVerdictDecides` | pkg/probe/probe.go:301-363 | the loop's first verdict is yes iff there is such a target |
| `Probe.FirstRunningAlone` | pkg/probe/probe.go:344-350 | for suspension and HTTP probes the first Running target alone decides, whatever Pods follow it |
| `Probe.ErrorsArePassedOver` | pkg/probe/probe.go:344-360 | under any other probe a Pod that is not Running, or whose probe ends in an error, leaves the decision to the next one |
| `Probe.SuspendServices` | pkg/probe/probe.go:153-203 | exactly when services are suspended, when the suspension fails, and so when it is skipped |
| `Probe.FirstPodSuspends` | pkg/probe/probe.go:264-363 | a cluster with Pods is suspended iff the action is valid, all Pods are ready, as many as expected, and the very first one says yes to its request |
| `Probe.IsStatusHA` | pkg/probe/probe.go:118-132 | without a StatefulSet spec the answer is yes; else the gate is open iff the configured HTTP action, if any, is a GET, the Pods can be listed, and they pass |
| `Probe.OpenGate` | pkg/probe/probe.go:114-132 | an open gate on n replicas means no Pods, or exactly n, all up and ready, one of which said yes to the request it got, if there was one to send |
| `Scaling.EffectivePolicy` | api/v1/coherenceresource_types.go:720-742 | an explicit policy wins; without one it is parallel iff storage is disabled and else parallel up, safe down; safe only if asked for or without a spec |
| `Scaling.ReconcileStatefulSet.ParallelScale` | controllers/statefulset/statefulset_controller.go:667-731 | on success the count is the target and the partition of a rolling update the smaller of both counts, all else as before; on failure nothing changes |
| `Scaling.ReconcileStatefulSet.SafeScale` | controllers/statefulset/statefulset_controller.go:621-664 | moves the count by one toward the goal behind the gate, or not at all; done exactly when it got there |
| `Scaling.ReconcileStatefulSet.Scale` | controllers/statefulset/statefulset_controller.go:583-610 | each policy, and each direction of the mixed one, scales in the way it promises |
| `Scaling.ReconcileStatefulSet.MaybePatch` | controllers/statefulset/statefulset_controller.go:386-569 | the patch reaches the cluster only if the hashes differ, it is valid and not empty, and the HA check passes; the count changes only where scaling is allowed; exactly when it ends in an error that the caller sees, and when it is deferred |
| `Scaling.ReconcileStatefulSet.UpdateStatefulSet` | controllers/statefulset/statefulset_controller.go:318-373 | one pass is the step function of the run theorems; a pass that finds another count is followed by another pass |
| `Scaling.SafePass` | controllers/statefulset/statefulset_controller.go:318-373 | a safe pass moves the count one step toward the goal or not at all; it moves it iff there is a step to take, the count is one or the cluster is StatusHA, the API accepts, and no error of the pre-3.4.3 patch surfaces; the next pass is safe too |
| `Scaling.ParallelPass` | controllers/statefulset/statefulset_controller.go:583-610 | under the parallel policy, or going up under the mixed one, a pass needs no gate: the count becomes the goal in one step, or nothing changes if the API refuses |
| `Scaling.TemplateChange` | controllers/statefulset/statefulset_controller.go:386-569 | the Pod template changes iff the pass does not scale or the StatefulSet is pre-3.4.3, the hash is outdated, the patch is valid, not empty and accepted, and, unless given up, all replicas are ready and the cluster is StatusHA; it becomes the stored one; a pass without scaling keeps the replicas of the cluster |
| `Scaling.MoveNeedsGate` | controllers/statefulset/statefulset_controller.go:629-631 | a safe move away from a count other than one needs no Pods, or exactly that many, all up and ready, one of which said yes to the request it got, if there was one to send |
| `Scaling.SafeRun` | controllers/statefulset/statefulset_controller.go:621-664 | over any run: no overshoot, and the goal is reached after exactly as many open passes as the count is away, then kept |
| `Scaling.LegacyJump` | controllers/statefulset/statefulset_controller.go:342-356 | a safe policy moves by more than one iff the pre-3.4.3 scale-up finds an accepted patch and, unless given up, all replicas ready and the cluster StatusHA |
| `Scaling.LegacyScaleUp` | controllers/statefulset/statefulset_controller.go:342-356 | a pre-3.4.3 scale-up, under every policy, gets the count and the partition at the old count with its patch, under the exact conditions of the patch, or changes nothing |
| `Scaling.LegacyScaleDown` | controllers/statefulset/statefulset_controller.go:357-369 | a pre-3.4.3 scale-down changes the count iff no patch error surfaces and the policy lets it, whatever became of the patch; by how much; and a patch alone holds the partition at the old count |
| `Scaling.ScalingHoldsPartition` | controllers/statefulset/statefulset_controller.go:698-717 | whatever the policy, a change of the count sets the partition of a rolling update to the smaller count; outside the pre-3.4.3 branch nothing but count and strategy changes, the Pod template least of all |
| `Scaling.ProtectedRun` | controllers/statefulset/statefulset_controller.go:698-715 | the partition protects every Pod below all counts of a run, under any interleaving with the StatefulSet controller |
| `Scaling.ScalingKeepsSurvivors` | controllers/statefulset/statefulset_controller.go:698-715 | from the first scaling step on, a Pod that survives all counts of the run is the very same Pod at the end: scaling never upgrades a survivor |
| `RollingUpgrade.GetUpgradeStrategy` | controllers/statefulset/upgrade_strategy.go:35-67 | the operator manages the upgrade iff a node strategy is named; by label iff a label is given, and by that label |
| `RollingUpgrade.PodNodeIdSupplier.GetNodeId` | controllers/statefulset/upgrade_strategy.go:145-174 | the answer is the node name, or the value of its label, empty if it has none, or a failure for a node that cannot be looked up; the cache never changes it, and each node is looked up successfully at most once |
| `RollingUpgrade.GroupPods` | controllers/statefulset/upgrade_strategy.go:303-329 | both maps are the groupings of all Pods and of the out-of-date ones by identifier, in list order, and it fails iff some lookup does |
| `RollingUpgrade.OutOfDateGroupIsFilter` | controllers/statefulset/upgrade_strategy.go:303-329 | each out-of-date group is the in-order filter of the full group |
| `RollingUpgrade.GroupsPartition` | controllers/statefulset/upgrade_strategy.go:303-329 | the groups together are a permutation of the Pods: each Pod is in its own group as often as in the list and in no other |
| `RollingUpgrade.GroupsKeepOrder` | controllers/statefulset/upgrade_strategy.go:303-329 | groups keep the order of the list |
| `RollingUpgrade.ChoosePods` | controllers/statefulset/upgrade_strategy.go:222-263 | picks a legal choice of Pods whatever the map order, and none only if there is none |
| `RollingUpgrade.PodApi.DeletePods` | controllers/statefulset/upgrade_strategy.go:290-300 | deletes exactly the Pods before the first one that cannot be deleted |
| `RollingUpgrade.PodApi.Upgrade` | controllers/statefulset/upgrade_strategy.go:180-287 | what a pass does in every case: nothing, an error, a deferral, or the deletion of the chosen Pods behind the probe, wherever that stops; Pods are picked only with the lookup enabled, two revisions, all replicas ready and as many Pods listed |
| `RollingUpgrade.PicksWhen` | controllers/statefulset/upgrade_strategy.go:180-263 | a pass picks Pods to replace iff the lookup is enabled, the revisions differ, the status counts every replica ready, as many Pods are listed, some Pod is out of date, and it is the only Pod or the Pods have two identifiers and every lookup succeeds |
| `RollingUpgrade.Picked` | controllers/statefulset/upgrade_strategy.go:222-263 | the Pods it picks are all the out-of-date ones of one identifier and no others, and of several Pods some are on another identifier |
| `RollingUpgrade.PassEnds` | controllers/statefulset/upgrade_strategy.go:180-300 | a pass is deferred iff it picked Pods whose probe did not pass; else they are deleted in order up to the first that cannot be, and it is done iff there is none; one that picked none fails iff the list or a lookup fails |
| `RollingUpgrade.MaybeUpgrade` | controllers/statefulset/statefulset_controller.go:389-423 | with equal hashes a pass of the upgrade takes place iff a node strategy is named, the revisions differ, and every replica is ready and accounted for; else no Pod is touched |
| `RollingUpgrade.DeletionNeedsGate` | controllers/statefulset/upgrade_strategy.go:180-281 | a pass deletes a Pod only if there are exactly as many Pods as replicas, all up and ready, and one of those it picked said yes to the request it got, if there was one to send |
| `RollingUpgrade.ChoiceIsConfined` | controllers/statefulset/upgrade_strategy.go:225-300 | wherever deletion stops, what is gone is out of date and on one identifier, and with several Pods another identifier keeps all of its own |
| `RollingUpgrade.WhenAPassCanAct` | controllers/statefulset/upgrade_strategy.go:225-263 | there is something to replace iff some Pod is out of date and it is the only Pod or there are two identifiers |
| `RollingUpgrade.DeletingPassReplaces` | controllers/statefulset/upgrade_strategy.go:225-300 | every deleting pass, once as many Pods have come back at the revision, is a step of the run theorems on one identifier, and a complete one if it reports no error |
| `RollingUpgrade.CompletePass` | controllers/statefulset/upgrade_strategy.go:250-287 | a complete pass takes exactly the chosen identifier off those with out-of-date Pods, wherever the new Pods land |
| `RollingUpgrade.PassCount` | controllers/statefulset/upgrade_strategy.go:180-287 | whatever identifiers are picked, the upgrade is finished after precisely as many passes as identifiers held out-of-date Pods |
| `RollingUpgrade.PartialRunsEnd` | controllers/statefulset/upgrade_strategy.go:265-300 | even if deletions keep stopping partway, no run has more deleting passes than out-of-date Pods |
| `RollingUpgrade.UpgradeFinishes` | controllers/statefulset/upgrade_strategy.go:180-287 | over any history of passes that are due, meet no error and have two identifiers (or the one Pod) while something is out of date: all Pods are at the revision after exactly as many passes as identifiers held out-of-date Pods, not before, and ever after |
| `Conditions.SetCondition` | api/v1/conditions.go:125-142 | replaces the first condition of the type in place or appends, and reports a change of status, reason or message |
| `Conditions.FindAfterSet` | api/v1/conditions.go:125-154 | setting a condition leaves every other type as it was |
| `Conditions.TransitionTime` | api/v1/conditions.go:125-142 | afterwards the type has the status, reason and message that were set, and its transition time is the old one iff there was such a condition with the same status, else the time of the call |
| `Conditions.ReportedChange` | api/v1/conditions.go:125-142 | a change is reported exactly when the list is different afterwards |
| `Conditions.SetKeepsUnique` | api/v1/conditions.go:125-142 | one condition a type stays one condition a type |
| `Conditions.NewConditions` | api/v1/conditions.go:78-84 | the result has each type of its argument exactly once: the last condition of the type |
| `Conditions.RemoveCondition` | api/v1/conditions.go:160-171 | removes the first condition of the type and says whether there was one; with unique types nothing else goes and the type is gone |
| `Status.CoherenceResourceStatus.SetPhase` | api/v1/coherenceresource_types.go:1040-1070 | the new status in full: the tracked phase that is left goes off, the entered one on, a completed phase stays |
| `StatusRuns.PhaseChange` | api/v1/coherenceresource_types.go:1040-1070 | a change of phase makes the condition of the new phase True and that of a left Ready, Scaling, RollingUpgrade, Waiting or Stopped phase False, and leaves every other; only a completed status does not take the new phase |
| `Status.CoherenceResourceStatus.EnsureInitialized` | api/v1/coherenceresource_types.go:1073-1124 | the new status and the answer in full, the overwritten flag included |
| `Status.CoherenceResourceStatus.SetCondition` | api/v1/coherenceresource_types.go:874-884 | starts from the persisted status; the new status and the answer in full |
| `StatusRuns.SetToPhase` | api/v1/coherenceresource_types.go:874-884 | a status that is not completed ends in the phase of the condition that is set, with that condition True, unless it was in that phase and initialised already |
| `Status.CoherenceResourceStatus.Update` | api/v1/coherenceresource_types.go:887-937 | the new status and the answer in full |
| `StatusRuns.UpdatedPhase` | api/v1/coherenceresource_types.go:887-937 | unless completed: no replicas gives Stopped, else two revisions give RollingUpgrade, else every replica current and ready gives Ready, else the phase stays, or is Initialized if that condition was missing |
| `StatusRuns.UpdatedFields` | api/v1/coherenceresource_types.go:887-937 | the owner's hash, replicas, cluster, role and type; a selector that is set once; the counts of the StatefulSet, or zeros without one |
| `StatusRuns.VersionRecorded` | api/v1/coherenceresource_types.go:1118-1132 | after any update the Versioned condition is True and carries the operator's version |
| `Status.CoherenceResourceStatus.UpdateFromJob` | api/v1/coherenceresource_types.go:940-1037 | the new status and the answer in full |
| `StatusRuns.JobUpdatedPhase` | api/v1/coherenceresource_types.go:940-1012 | a completed job gives Completed, for ever; else no replicas gives Stopped, else every replica current and ready gives Ready, else the phase stays, or is Initialized if that condition was missing |
| `StatusRuns.JobUpdatedFields` | api/v1/coherenceresource_types.go:940-1037 | active, succeeded and failed are the job's, current is active plus succeeded, ready the job's if it says so; all zero without a job; the first results are taken over as they are |
| `Status.MergeProbe` | api/v1/coherenceresource_types.go:1019-1033 | a result of a new Pod is appended; one of a known Pod takes the place of its first entry iff both have a probe time and it is the later one; the flag is set exactly when something changed |
| `Status.MergedOneAdvances` | api/v1/coherenceresource_types.go:1019-1033 | entries keep their places, and one that changes gets a later probe time |
| `StatusRuns.OpKeepsInv` | api/v1/coherenceresource_types.go:874-1070 | each of the three updates keeps the run invariant, the completed phase and the Initialized condition |
| `StatusRuns.ReachableInv` | api/v1/coherenceresource_types.go:874-1070 | in every reachable status condition types are unique and, until completion, the conditions of Ready, Scaling, RollingUpgrade, Waiting and Stopped are True exactly while they are the phase |
| `StatusRuns.CompletedForEver` | api/v1/coherenceresource_types.go:1063-1066 | no sequence of updates leaves the Completed phase, whatever else has been written to the status |
| `StatusRuns.UpdateFlagIsComplete` | api/v1/coherenceresource_types.go:887-937 | a false answer means an unchanged status, for all inputs, iff the state is not one that forgets |
| `StatusRuns.UpdateFlagIsSound` | api/v1/coherenceresource_types.go:887-937 | with replicas wanted and not completed, a true answer means the status is different |
| `StatusRuns.SetToFlagIsComplete` | api/v1/coherenceresource_types.go:874-884 | for setting a condition too, a false answer means an unchanged status, for all inputs, iff the state is not one that forgets |
| `StatusRuns.SetToFlagIsSound` | api/v1/coherenceresource_types.go:874-884 | and if the status is not completed, a true answer means that it is different |
| `StatusRuns.SecondUpdate` | api/v1/coherenceresource_types.go:887-937 | from any status, updating again from the same inputs at any later time reports a change iff the status is restless (flapping, bare or completed, each with its exact condition), and else changes nothing |
| `StatusRuns.JobFlagIsComplete` | api/v1/coherenceresource_types.go:940-1037 | from any status, a false answer means an unchanged status, for all inputs, iff the state is not one that forgets; a completed job always does |
| `StatusRuns.JobFlagIsSound` | api/v1/coherenceresource_types.go:940-1037 | with replicas wanted and not completed, a true answer of a job update means the status is different: what one merged result changes no later one undoes |
| `ReadyActions.FindPodReadyCondition` | controllers/job/job_controller.go:452-459 | the first Ready condition of the Pod, if any |
| `ReadyActions.MaybeExecuteProbe` | controllers/job/job_controller.go:374-450 | without an action or below the ready count nothing happens; a failed list is an error; else the attempts of the listed Pods |
| `ReadyActions.AttemptsFollowReadiness` | controllers/job/job_controller.go:423-469 | every attempt is on a listed Pod whose first Ready condition is True and since later than the recorded one, if one is recorded, and says what the probe answered, when, and for which transition; and every such Pod has its attempt |
| `ReadyActions.AttemptsInOrder` | controllers/job/job_controller.go:423-447 | the attempts come in the order of the list |
| `ReadyActions.AttemptsAreDue` | controllers/job/job_controller.go:423-447 | every attempt is on a listed Pod that was due, at most one a Pod |
| `ReadyActions.DueIsAttempted` | controllers/job/job_controller.go:423-447 | every due Pod of the list is attempted |
| `ReadyActions.MergedFinds` | api/v1/coherenceresource_types.go:1015-1034 | after the merge there is one entry a Pod: the new result where there is one, else the recorded one |
| `ReadyActions.MergedAdvances` | api/v1/coherenceresource_types.go:1019-1033 | recorded probe times never go backwards, whatever is merged |
| `ReadyActions.RunAdvances` | api/v1/coherenceresource_types.go:1015-1034 | over any run of reconciles, without any hypothesis, results keep their places and no probe time goes backwards |
| `ReadyActions.PersistedProbes` | api/v1/coherenceresource_types.go:1015-1037 | the persisted results are the merged ones unless the status write fails: the update's answer never keeps a result from being persisted |
| `ReadyActions.RoundKeepsInv` | controllers/job/job_controller.go:423-469 | a reconcile keeps, written or not: unique entries that cover every recorded attempt |
| `ReadyActions.AttemptedOnce` | controllers/job/job_controller.go:461-469 | over any run with advancing probe times no attempt follows a recorded one for the same Pod and Ready transition |
| `ReadyActions.AttemptedOnceFromTheStart` | controllers/job/job_controller.go:461-469 | the same for a job that starts without results; and at most one attempt at all if no status write fails |
| `ReadyActions.DueAfterwards` | controllers/job/job_controller.go:337-372 | after a reconcile a listed Pod is due for the same transition iff it was due before and the write of the status that records the attempt failed |
| `ReadyActions.RecordedIffLater` | api/v1/coherenceresource_types.go:1025-1031 | an attempt is due again exactly if its probe time is not later than the recorded one |
| `Resources.GetResource` | api/v1/coherence_types.go:3175-3182 | the first entry of that kind and name, or none if there is none |
| `Resources.GetResourcesOfKind` | api/v1/coherence_types.go:3184-3192 | the entries of the kind, in order |
| `Resources.OfKindInOrder` | api/v1/coherence_types.go:3184-3192 | the entries of the kind keep the order of the collection |
| `Resources.DiffForKind` | api/v1/coherence_types.go:3196-3224 | deletions for what is gone, then what is new or different, in order; and the previous count |
| `Resources.DiffIsEnough` | api/v1/coherence_types.go:3196-3224 | applying the difference to the previous version gives exactly the latest one |
| `Resources.DiffIsMinimal` | api/v1/coherence_types.go:3196-3224 | a difference is empty iff the versions agree, and holds no unchanged entry but deletions that the previous version had already |
| `Resources.DeletionsFirst` | api/v1/coherence_types.go:3196-3224 | the deletions of a difference come before everything else in it |
| `Storage.MarshalJSON` | api/v1/coherence_types.go:3099-3119 | the loop writes the stored form: a comma before every item that is not at index 0 |
| `Storage.RoundTrip` | api/v1/coherence_types.go:3099-3153 | reading back gives the version and the items that are not deletions; it works iff the first item is not a deletion or all are |
| `Storage.Marshal` | pkg/utils/storage.go:184-187 | the marshalling of a list fails iff it begins with a deletion and goes on with an object |
| `Storage.RoundTripExact` | api/v1/coherence_types.go:3099-3153 | the stored form is faithful iff there are no deletions |
| `Storage.SecretStore.LoadVersions` | pkg/utils/storage.go:250-281 | loads iff the read succeeds and both entries decode, and then memory is what the Secret says |
| `Storage.SecretStore.Store` | pkg/utils/storage.go:167-225 | succeeds iff the list marshals and no call fails; rotates memory and Secret alike, or leaves both as they were |
| `Storage.SecretAfterStore` | pkg/utils/storage.go:167-225 | the Secret after a store: each global label wins, then the hash label, every other label is kept, a new Secret is marked as a store; its latest entry reads as what is now in memory without the deletions, its previous one is the latest it had |
| `Storage.SecretStore.GetDeletions` | pkg/utils/storage.go:85-102 | the nested search finds the previous entries that the latest version lacks, in order |
| `Storage.DeletionMembers` | pkg/utils/storage.go:85-102 | an entry is a deletion iff it was in the previous version and its kind and name are not in the latest |
| `Storage.StoreAgrees` | pkg/utils/storage.go:167-225 | for a list that can be stored, reloading afterwards gives what is in memory iff nothing stored is a deletion and no global label overrides the hash |
| `Storage.StoredAfter` | pkg/utils/storage.go:167-281 | after n stores: the n-th items, the version n further on as a 32-bit integer, the one before as previous, the owner's hash, and a reload gives the same |
| `Convergence.ReconcileSecondaryResource.Create` | controllers/reconciler/base_controller.go:843-856 | creates the first stored entry of the name; refused for a taken name |
| `Convergence.ReconcileSecondaryResource.Delete` | controllers/reconciler/base_controller.go:859-872 | removes the object unless the call fails, which nobody gets to know |
| `Convergence.ReconcileSecondaryResource.Update` | controllers/reconciler/base_controller.go:875-894 | an object with the store's hash is not written; any other takes the stored value |
| `Convergence.ReconcileSecondaryResource.ReconcileSingleResource` | controllers/reconciler/base_controller.go:773-829 | exactly when it fails, and what it leaves, for an owned resource, one without an owner reference, one whose owner is gone, and failed lookups; a terminating object counts as absent, the store's own Secret is left alone |
| `Convergence.ReconcileSecondaryResource.Reconcile` | controllers/reconciler/simple_reconciler.go:62-78 | what the handling of a watch event leaves, and when it fails; only an object that is there has an owner |
| `Convergence.WatchAt` | controllers/reconciler/base_controller.go:773-829 | an event makes an object disappear iff it has no owner reference, is not terminating and can be read and deleted; it creates nothing, and writes at most what the owner's latest version wants |
| `Convergence.ReconcileSecondaryResource.ReconcileAllResourceOfKind` | controllers/reconciler/base_controller.go:725-762 | the state after a complete pass and after one that an error stops; which passes complete; a quiet cluster is not written to |
| `Convergence.PassAt` | controllers/reconciler/base_controller.go:725-762 | a complete pass, name by name: gone, as stored, or untouched; the Secret with the owner's name is left alone |
| `Convergence.SomeAt` | controllers/reconciler/base_controller.go:748-760 | an interrupted pass leaves each name where a complete one would, or where it was |
| `Convergence.FaultlessPassCompletes` | controllers/reconciler/base_controller.go:747-762 | without terminating objects a pass completes if no read, create or patch fails |
| `Convergence.PassLeaves` | controllers/reconciler/base_controller.go:725-762 | what a complete pass leaves: under a name of the latest version an object that is not terminating and carries the hash as it is, else the object wanted; under a name that only the previous version had nothing, if it can be read and deleted; else what was there |
| `Convergence.PassConverges` | controllers/reconciler/base_controller.go:725-762 | after a complete pass names and hashes match the latest version iff every deletion of an object that is there takes effect; the contents match too iff, besides, objects that carried the hash already were what it stands for |
| `Convergence.MatchIsQuiet` | controllers/reconciler/base_controller.go:875-880 | a pass writes nothing iff names and hashes match already, and then also after the same version has been stored again |
| `Convergence.RetriesSettle` | controllers/coherence_controller.go:287-306 | a generation whose first attempt was cut short is made good by further attempts, each of which stores first, the last one complete, iff every deletion that the first one missed has been made by a watch event |
| `Convergence.RetriesConverge` | controllers/coherence_controller.go:287-306 | the same for contents, where equal hashes mean equal contents |
| `Convergence.RunSettles` | controllers/coherence_controller.go:287-306 | over any run of attempts, each cut short anywhere, with any watch events between them, from any start, the last attempt complete: under all names of the run the cluster has exactly those of the last version, all with its hash, iff no deletion was missed |
| `Convergence.ContentsConverge` | controllers/coherence_controller.go:287-306 | the contents are the last version's as well iff, besides, every object that carried its hash before the last attempt was what this version wants |
| `Convergence.RunConverges` | controllers/coherence_controller.go:287-306 | so, where equal hashes mean equal contents at the start and in what the steps write, the run ends with exactly the last version's objects iff no deletion was missed |
| `Convergence.StraysWereMissed` | controllers/reconciler/base_controller.go:733-746 | at any point of a run a name that the latest version does not list is taken iff a pass failed to delete it, and since then no version has listed it and no event has removed it |
| `Convergence.SettledIsQuiet` | controllers/reconciler/base_controller.go:875-880 | after a settled run, reconciling the last version again writes nothing |
| `Convergence.OwnEventsAreQuiet` | controllers/reconciler/simple_reconciler.go:62-78 | nor does the handling of any event about the owner's objects |
| `Convergence.DriftStays` | controllers/reconciler/base_controller.go:765-770 | an input where an edited object that kept its hash label stays edited through a faultless attempt |
| `Convergence.RegeneratedStays` | controllers/common.go:28-41 | an input where a generation's resources, built anew with other contents, do not reach an object that is there already |
| `Convergence.JobsGetOneAttempt` | controllers/coherencejob_controller.go:177-180 | a generation of a job gets one attempt: later reconciles leave the cluster as that attempt did, complete or not |
| `Convergence.UnlistedStay` | controllers/reconciler/base_controller.go:733-829 | an object under a name that no version of the run lists, be it someone else's or one whose deletion was missed, stays iff no event that finds it without an owner reference deletes it, and stays as it is unless it is another Coherence resource's |
| `Convergence.UsersObjectGoes` | controllers/reconciler/base_controller.go:811-818 | an input where an event deletes a user's own object that no version lists |
| `Locks.CommonReconciler.Lock` | controllers/reconciler/base_controller.go:112-132 | succeeds iff the name is free, and then takes it; a refusal changes no entry |
| `Locks.CommonReconciler.Unlock` | controllers/reconciler/base_controller.go:135-143 | frees the name, or does nothing while the map is nil |
| `Locks.StepKeepsInv` | controllers/reconciler/base_controller.go:112-143 | every atomic step keeps: the map's keys are the names held, one call each |
| `Locks.RunsAreExclusive` | controllers/reconciler/simple_reconciler.go:62-78 | in every interleaving of any calls of any reconcilers a name has at most one call inside |
| `Locks.RefusalKeepsHolder` | controllers/reconciler/simple_reconciler.go:68-73 | a refused call returns at once, cannot unlock, and the holder stays in |
| `Locks.OwnerIsHolder` | controllers/reconciler/base_controller.go:112-143 | who holds a name can be read off the history alone: its last acquirer that has not left |
| `Locks.SectionsAlternate` | controllers/reconciler/base_controller.go:112-143 | a lock is granted iff nobody owns the name, and only the owner's own exit ends the ownership |
| `SecretIndex.Matches` | controllers/coherence_controller.go:510-517 | a connection matches iff the Secret is its user name, its password, its CA bundle or its server identity |
| `SecretIndex.CreatePodSelectorLabels` | api/v1/coherenceresourcespec_types.go:535-539 | exactly the labels of deployment, cluster, role and component, and of app and version if given, with their defaults; carrying them is being one of the resource's Pods |
| `SecretIndex.MatchesLabels` | controllers/coherence_controller.go:560-567 | true iff every required label reads as required, in any order of the keys |
| `SecretIndex.SecondPhase` | controllers/coherence_controller.go:529-550 | looking at one candidate a Pod, with entries deleted in the loop, keeps the maps split by who is affected |
| `SecretIndex.MapHealthSecretRequests` | controllers/coherence_controller.go:505-558 | finds what the naive search over the whole cluster finds; lists the Pods once, or not at all if the specs decide everything; what is left when a list call fails |
| `SecretIndex.RequestsExact` | controllers/coherence_controller.go:505-558 | the naive search gives exactly the affected resources, each once |
| `SecretIndex.WhoIsRequested` | controllers/coherence_controller.go:505-558 | a resource is requested iff it is in the Secret's namespace and its spec names the Secret or a Pod there carries all its labels and an annotation that names the Secret |
| `Expander.GetShellName` | pkg/runner/run_details/run_details.go:167-206 | the scan reads exactly the reference at the front, and never past the end |
| `Expander.Expand` | pkg/runner/run_details/run_details.go:131-162 | the loop over buffer and indices computes the recursive left-to-right meaning, with every slice in range |
| `Expander.MeaningOfToken` | pkg/runner/run_details/run_details.go:131-206 | a literal or any of the four ways to write a reference, in front of any text, contributes exactly its value; a bare name is letters, digits and underscores, ended by any other byte |
| `Expander.DollarStays` | pkg/runner/run_details/run_details.go:142-152 | a dollar at the end of the text, or in front of a byte that begins no reference, stays |
| `Expander.BadSyntaxVanishes` | pkg/runner/run_details/run_details.go:143-196 | an empty reference vanishes altogether, and of one that is never closed the dollar and the delimiter alone |
| `Expander.ExpandRendered` | pkg/runner/run_details/run_details.go:131-206 | expanding a rendered token list gives the concatenated values |
| `SchemaTree.IsRequired` | utils/crd-fixup/main.go:49-54 | the inner loop finds out whether the key is one of the required names |
| `SchemaTree.FixKey` | utils/crd-fixup/main.go:47-59 | one key makes at most one write, in a map three levels down, and leaves the tree with that key served and every map elsewhere as it was |
| `SchemaTree.FixKeys` | utils/crd-fixup/main.go:43-60 | the loop over the keys does the step of this node alone |
| `SchemaTree.Fix` | utils/crd-fixup/main.go:40-68 | the in-place recursion does the steps of all nodes at and below its own, whatever the map order, and touches no map elsewhere |
| `SchemaTree.FixSchema` | utils/crd-fixup/main.go:28-28 | the document in memory ends up as the meaning of the fix: every listed string property required or with a default, nothing but such defaults changed |
| `SchemaTree.FixFile` | utils/crd-fixup/main.go:24-33 | decoding into fresh maps, fixing them in place and encoding again gives exactly that meaning of the file |
| `SchemaFix.Compose` | utils/crd-fixup/main.go:40-68 | doing the steps of one set of nodes and then of another is doing those of the union |
| `SchemaFix.OneKey` | utils/crd-fixup/main.go:47-59 | serving one key gives the property of that name the empty default iff it is a map, not required, of type string and without a default or with a null one; and changes nothing else |
| `SchemaFix.RunIsOnePass` | utils/crd-fixup/main.go:40-68 | any sequence of steps is one simultaneous pass over the nodes it visits |
| `SchemaFix.EveryOrder` | utils/crd-fixup/main.go:61-67 | every visiting order gives the same tree: top-down, bottom-up and every mixture |
| `SchemaFix.Idempotent` | utils/crd-fixup/main.go:40-68 | a second application changes nothing |
| `SchemaFix.FixServes` | utils/crd-fixup/main.go:43-60 | in the fixed tree every listed string property, anywhere, is required or has a default that is not null |
| `SchemaFix.StepsOnlyAddDefaults` | utils/crd-fixup/main.go:56-58 | a step changes nothing but absent or null defaults of string properties |

## Left out

- SchemaTree.FixFile: lists of keys that hold lists or maps, on which Go panics, and files that are not maps are excluded by precondition.
- Conditions.SetCondition: the slice is passed and returned; the status that owns it reassigns its field. The several clock readings inside one status call are one reading.
- Storage.SecretStore.Store: annotations and the type information added to the stored objects are not modelled, nor is `ResetHash`.
- Scaling.SafeRun: the replica counts and Pod counts are unbounded integers; only the store's version wraps at 32 bits.
- StatusRuns.SecondUpdate: does not cover an empty rendered selector, which the code never produces.
- Convergence.RunSettles: an attempt is one step, so an event of another owner that is handled in the middle of a pass comes before or after it; an object is gone once its deletion succeeds; finalizers that delay it and cascaded deletion are not modelled, nor is the reset of the hash for resources of version 3.4.3 or earlier, which skips the pass.
- Patches: the contents of two-way and three-way patches are library code; a successful patch makes the object take the desired value, the blanked fields and finalizers included.
- Probes: transports, TLS, credentials and the validation of an action are inputs; error texts are not modelled beyond their kind.
- The API server: watches, caches, events, logging, retries and contexts.
- JSON and YAML: text is modelled as tokens; the codecs of the single objects are assumed to round-trip.
- Direct writes of the phase by the status manager, the error handler and the scaling code: the run invariant (`StatusRuns.ReachableInv`) is about the three update methods; `StatusRuns.UpdateFlagIsComplete`, `JobFlagIsComplete`, `SecondUpdate` and `CompletedForEver` hold for any status, also one that such a write has left.
- Error categories and backoff, start quorum, finalizers, actions after Ready, deletion of a StatefulSet at zero replicas: short sequences without a property that spans operations.
- Building Pod templates, Services, environment variables and JVM arguments: long, field by field, and easy.
- Command line, REST server, documentation generators and test helpers.
