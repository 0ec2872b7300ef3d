# A model of workload placement on edge devices

The operator places edge deployments on edge devices. A device records each placement
twice: as an entry in its status and as a `workload/<name>` label. Two controllers write
both records. One works from a deployment to its devices, the other from a device to its
deployments, which it finds through `selector/<key>` labels that the first one keeps on
the deployments. Heartbeats rewrite the entries, every write can fail, and a write that
succeeded can be reported as failed. The project models these protocols in Dafny and
proves what they keep, where they lead, and under which conditions the two controllers
agree.

| files | what they model |
|---|---|
| `Labels`, `Kube`, `Placement` | label keys, selectors, merge patches (section 2 of RFC 7396), the two calls that place or remove a deployment |
| `SelectorIndex` | the index and its agreement with direct selection |
| `DeploymentReconcile`, `DeviceReconcile` | the two reconciles as functions of the store and of the answers of the API server |
| `ApiServer`, `EdgeDeploymentController`, `EdgeDeviceLabelsController` | the repositories and controllers with their loops, proved against those functions |
| `Settling`, `Convergence` | which selectors settle, where failed and repeated reconciles lead |
| `Rivals`, `ExactPlacement`, `Confluence`, `Divergence` | exactly when the two controllers reach the same placement |
| `EventLoop`, `JointConvergence` | exactly when the label controller stops triggering itself; both controllers under failures |
| `Runs`, `RunProofs`, `Theorems` | runs of the whole system and what holds in every reachable state |
| `Results` | what a reconcile answers, and what holds when it does not fail |
| `FanOut` | splitting devices among goroutines, and every interleaving of their calls |
| `References`, `Fetching` | collecting references to secrets and config maps, and fetching them |
| `Heartbeat`, `Text` | status reports with retries; normalised hardware labels |
| `Lifecycle` | the two-finalizer handshake by which a device is disconnected |

Each method that changes state is proved equal to a function of the old state (`Reconcile`,
`ReconcileDevice`, `PlaceAll`, `AbsorbAll`, `ReportAll`, `Finish`); the properties are
lemmas about these functions. Answers of the API server are parameters, so that each
result holds for every pattern of failures. A write is accepted, rejected, or accepted
with its reply lost.

## What was found

These properties do not hold of the code without a condition. The members in brackets
prove the exact condition or give a case that fails.

- The index disagrees with direct selection exactly for a device that matches a selector
  while having none of its index keys (an empty selector, or `NotIn` over an absent
  key), and for one whose label `devicename` replaces its own name among the lookups
  (`IndexAgreement`, `EmptySelectorIsNeverFound`, `NotInAloneIsNotFound`,
  `DeviceNameLabelHidesTheDevice`).
- A selector on a key with a prefix, such as `kubernetes.io/arch`, would need a selector
  label with two slashes, which the server refuses. Such a deployment is never placed,
  whatever is answered: a live deployment can get as far as placing if and only if no key
  of its selector has a prefix (`PlacesIffStorable`, `NeverPlacing`).
- A device label with a prefix other than `workload/` makes the device's label reconcile
  fail, because the key built for the lookup is not a valid label key
  (`LookupsFailOnInvalidKeys`).
- A selector that asks for the absence of the deployment's own label (`DoesNotExist`)
  never settles on the devices that it selects without that label: every other pass
  places the deployment and the next one removes it (`SettlesUnlessExcluded`,
  `SwingsForEver`, `SelfExclusionNeverSettles`). On all others repeated and failed
  reconciles converge, if and only if (`CleanIsIdempotent`, `Convergence`). Any other
  requirement on a workload label, such as `NotIn` on the own one, has a prefixed key, so
  that its deployment never touches a device (`PlacingExcludesByAbsence`, `OtherwiseInert`).
- The two controllers disagree on a device exactly if it has rivals: a deployment that
  selects the device stripped of workload labels and asks for the absence of the label of
  an existing deployment, itself or another. Then the order of reconciles decides
  (`ConfluenceIffNoRivals`, `WorkloadSelectorsRace`).
- With rivals the label controller can also trigger itself again and again: one reconcile
  places a deployment, the next one takes it off, each with a label patch that triggers the
  other, for ever (`LoopsForEver`). Every write is followed by an idle reconcile, from every
  placement, if and only if the device has no rivals (`LoopStopsIffNoRivals`).
- A status may name a deployment that nobody keeps from disappearing. That happens exactly
  in two steps (`GuardedNext`, `GuardedUntilBroken`). One releases a deployment while some
  device has an entry that neither a label nor the selector leads to; a refused label
  patch and a label edit bring it about (`ALostLabelCanDangle`). The other places a
  deployment that was released but is kept by a finalizer of somebody else: the label
  controller does not look at deletion, and no write has to fail
  (`AReleasedDeploymentCanDangle`).
- The label controller never sends a refused label patch again: it compares names in the
  status only. What it wrote is made good by its next reconcile exactly if the first one
  wrote everything or nothing (`SecondLabelReconcileWritesNothing`, `RepairedIffWhole`).
  One clean reconcile of every deployment makes it good, whatever mixture of faulty
  reconciles came before (`FaultsAreForgotten`).
- Labels and status of a device come apart exactly in a step in which a body changes the
  status and then fails to get its label patch through (`InStepNext`, `InStepUntilTorn`).
- `createUpdatedDevice` drops the label of an entry it keeps exactly when the name occurs
  more than once (`DuplicateDropsTheLabel`). No run gets there, since names in a status
  stay unique (`EveryRunIsSound`).
- Reporting a heartbeat again changes nothing exactly when no workload is listed with two
  statuses (`RepeatableIffConsistent`); otherwise each retry moves the transition time.
- Events of a heartbeat are lost when the first read fails: later attempts do not send
  them (`Process`).
- Against a server that lets finalizers be added under deletion, a stale data poll can put
  the connection finalizer back (`StalePatchRestoresTheConnection`). Kubernetes refuses
  that, and then finalizers never grow (`FinalizersNeverGrow`).
- The first reconcile of a deployment replaces all finalizers it already had by the
  operator's own (`Preparing`).
- Extracting config maps dereferences `ValueFrom` of every variable before it is checked:
  it panics exactly when a container has a literal variable (`Fetch`).

## Model

| member | source | states |
|---|---|---|
| Labels.KeySpaces | internal/labels/labels.go:5-26 | `workload/` and `selector/` keys are injective in their names and never meet |
| Labels.WorkloadLabelsAreNamed | internal/labels/labels.go:12-18 | a key is a workload label exactly when it is the label of some deployment |
| Kube.OperatorLaws | vendor/k8s.io/apimachinery/pkg/labels/selector.go:200-244 | on any labels: `In` holds exactly if one of its values, as a match label, matches; `Exists` exactly if some value does; `NotIn` and `DoesNotExist` are their negations |
| Kube.MatchLabelsArePart | vendor/k8s.io/apimachinery/pkg/apis/meta/v1/helpers.go:34-49 | match labels alone match exactly the label maps that they are part of |
| Kube.SingleRequirement | vendor/k8s.io/apimachinery/pkg/apis/meta/v1/helpers.go:34-70 | a requirement alone is a selector that says just that, and the empty selector matches everything |
| Kube.JoinedSelectors | vendor/k8s.io/apimachinery/pkg/apis/meta/v1/helpers.go:34-70 | a selector is a conjunction: joined selectors match exactly if both do, and ones that disagree on a match label never match together |
| Kube.ValidSelectorLaws | vendor/k8s.io/apimachinery/pkg/labels/selector.go:142-178 | a selector is refused exactly for a key with two slashes, an unknown operator, a set operator without values or an existence operator with values |
| Kube.MatchesDependsOnKeys | vendor/k8s.io/apimachinery/pkg/labels/selector.go:200-244 | a selector looks at no label but those it names |
| Kube.DiffThenApply | internal/repository/edgedevice/edgedevice.go:46-49 | sending the difference of two label maps turns the first into the second |
| Kube.DisjointPatchesCommute | internal/repository/edgedevice/edgedevice.go:46-49 | patches of different keys commute on any target, both take effect, all other labels stay |
| Placement.PatchesOfFreshCopies | internal/repository/edgedevice/edgedevice.go:42-49 | a patch of a fresh copy stores the copy: the status call changes entries only, the metadata call labels only |
| Placement.StaleLabelPatchesCommute | controllers/edgedeployment_controller.go:182-185 | label patches of two deployments, made from copies however stale, both take effect in either order and leave hardware, user and other labels alone; a removal must have seen its label |
| Placement.PlaceFrame | controllers/edgedeployment_controller.go:168-191 | whatever the replies, a body changes the entry and label of its own deployment only, and keeps names unique |
| Placement.PlaceAchieves | controllers/edgedeployment_controller.go:221-257 | a body that recorded no error has placed, or removed, both entry and label |
| Placement.NoErrorsMeansAllOk | controllers/edgedeployment_controller.go:193-257 | the error list is empty exactly when both calls went through on every device |
| SelectorIndex.IndexLabelByLabel | controllers/edgedeployment_controller.go:403-437 | the derived labels one by one: the device name, or "true" for each match label and each requirement's key, `DoesNotExist` requirements sharing one label |
| SelectorIndex.IndexedIsAFixedPoint | controllers/edgedeployment_controller.go:390-437 | updating selector labels keeps all other labels, makes the `selector/` labels exactly the derived ones, and is idempotent |
| SelectorIndex.LookupsCharacterised | controllers/edgedevicelabels_controller.go:137-152 | for each key, whether the device looks it up and with which value, with `devicename` overwritten by a label of that name |
| SelectorIndex.LookupsFailOnInvalidKeys | controllers/edgedevicelabels_controller.go:85-96 | some lookup has an invalid key exactly when the device has a label with a prefix other than `workload/` |
| SelectorIndex.ListedByName | controllers/edgedeployment_controller.go:403-413 | a deployment naming a device is listed exactly for a device that looks up that name |
| SelectorIndex.ListedBySelector | controllers/edgedeployment_controller.go:414-437 | a deployment with a selector is listed exactly when the device reaches one of its index keys |
| SelectorIndex.IndexAgreement | controllers/edgedevicelabels_controller.go:85-152 | for every deployment and device, being listed and matching agrees with direct selection if and only if the device is neither blind to the index nor shadowed |
| SelectorIndex.IndexableSpecsAgree | controllers/edgedeployment_controller.go:259-275 | the same from conditions on the two objects separately |
| SelectorIndex.EmptySelectorIsNeverFound | controllers/edgedeployment_controller.go:414-437 | the empty selector selects every device and no device finds it |
| SelectorIndex.NotInAloneIsNotFound | controllers/edgedeployment_controller.go:424-434 | a `NotIn` over an absent key selects a device that does not find it |
| SelectorIndex.DeviceNameLabelHidesTheDevice | controllers/edgedevicelabels_controller.go:138-149 | a label called `devicename` hides a device from the deployment that names it |
| ApiServer.Server.PatchDeviceStatus | internal/repository/edgedevice/edgedevice.go:42-44 | new store: the status of the one device, unless refused |
| ApiServer.Server.PatchDevice | internal/repository/edgedevice/edgedevice.go:46-49 | new store: the label difference applied to the one device, unless refused |
| ApiServer.Server.UpdateLabels | internal/repository/edgedevice/edgedevice.go:88-127 | for every pattern of failed reads and writes and a first copy however stale: what the copy lacked is written by the first try, all labels by a retry, and success is reported exactly when a try was confirmed or had nothing left to write |
| ApiServer.Server.ListForSelector | internal/repository/edgedevice/edgedevice.go:51-67 | fails exactly when the call fails or the selector is invalid, else lists each matching device once |
| ApiServer.Server.ListByLabel | internal/repository/edgedeployment/edgedeployment.go:59-71 | fails exactly when the call fails or the key is invalid, else lists exactly the deployments with that label |
| ApiServer.Server.RemoveDeploymentFinalizer | internal/repository/edgedeployment/edgedeployment.go:40-57 | the stored object loses this finalizer and no other, unless refused, which nobody learns; it disappears with its last one under deletion |
| EdgeDeploymentController.UpdateSelectorLabels | controllers/edgedeployment_controller.go:403-437 | the label loops compute the fixed point of the index |
| EdgeDeploymentController.Merge | controllers/edgedeployment_controller.go:338-353 | the merged list has each device of either list once |
| EdgeDeploymentController.EdgeDeploymentReconciler.AddDeploymentToDevice | controllers/edgedeployment_controller.go:226-246 | one pass of the loop body over the store, under any replies |
| EdgeDeploymentController.EdgeDeploymentReconciler.RemoveDeploymentFromDevice | controllers/edgedeployment_controller.go:168-191 | one removal over the store, under any replies |
| EdgeDeploymentController.EdgeDeploymentReconciler.AddDeploymentsToDevices | controllers/edgedeployment_controller.go:221-257 | the loop places every listed device independently and returns the errors in order |
| EdgeDeploymentController.EdgeDeploymentReconciler.RemoveDeploymentFromDevices | controllers/edgedeployment_controller.go:193-219 | the loop removes from every listed device that is not spared, and returns the errors in order; copies of spared devices may be stale |
| EdgeDeploymentController.EdgeDeploymentReconciler.GetMatchingEdgeDevices | controllers/edgedeployment_controller.go:259-275 | the devices that the specification selects, the device name taking precedence over the selector |
| EdgeDeploymentController.EdgeDeploymentReconciler.GetLabelledEdgeDevices | controllers/edgedeployment_controller.go:277-280 | fails exactly when the call fails, else exactly the devices whose label for the deployment is "true" |
| EdgeDeploymentController.EdgeDeploymentReconciler.FinalizeRemoval | controllers/edgedeployment_controller.go:146-166 | removal from all devices, and the finalizer only if none failed |
| EdgeDeploymentController.EdgeDeploymentReconciler.Reconcile | controllers/edgedeployment_controller.go:71-144 | store and result are those of the reconcile function, for every answer of the server |
| EdgeDeploymentController.LabelledStayCurrent | controllers/edgedeployment_controller.go:107-143 | devices listed before the placement are still good for the removal, since what the placement wrote is spared |
| Settling.PlaceStages | controllers/edgedeployment_controller.go:168-257 | a body leaves a device untouched, half written (status only) or done |
| Settling.GoalFromAnywhere | controllers/edgedeployment_controller.go:168-257 | from wherever a body stopped, a repeated one has the same goal |
| Settling.SettlesAtMeansIdempotent | controllers/edgedeployment_controller.go:107-143 | a second pass over a device changes nothing if and only if placing does not deselect it and removing does not select it |
| Settling.SettlesUnlessExcluded | controllers/edgedeployment_controller.go:107-143 | that fails exactly if the selector excludes the deployment's own label, selects the device without it, and the label is absent or "true" |
| Settling.PlacedThenSettled | controllers/edgedeployment_controller.go:193-257 | wherever a body stopped under failures, the device still settles, and at the same state |
| Settling.Swings | controllers/edgedeployment_controller.go:107-143 | a device that does not settle gets the label by one pass and loses it by the next, and entry and label agree after each |
| Convergence.DeviceStep | controllers/edgedeployment_controller.go:107-155 | a reconcile treats a device by at most one body, and only a device that is selected or labelled |
| Results.ReconcileFailsIff | controllers/edgedeployment_controller.go:71-155 | a reconcile fails if and only if its read or a listing failed, the selector is invalid, or some call that it sends is not accepted, except the finalizer patch of a deletion |
| Results.RequeuesIff | controllers/edgedeployment_controller.go:71-144 | it asks to be called again if and only if it failed or just had to add the finalizer |
| Results.Preparing | controllers/edgedeployment_controller.go:84-105 | the preparing steps: the operator's finalizer replaces all others, the labels become up to date, nothing else changes |
| Results.NoFailureMeansPlaced | controllers/edgedeployment_controller.go:107-143 | a placing reconcile that does not fail leaves every selected device with entry and label, every labelled one that is not selected with neither, and touches no other |
| Results.LabelReconcileFailsIff | controllers/edgedevicelabels_controller.go:48-122 | a label reconcile fails, and asks to be called again, if and only if its read fails or, on a device not under deletion, a lookup is invalid or fails, a listed selector is invalid, or the names change and a patch is not accepted |
| Results.NoFailureMeansMatched | controllers/edgedevicelabels_controller.go:48-122 | one that does not fail leaves exactly the matched names, and labels in agreement if they were |
| Convergence.CleanPass | controllers/edgedeployment_controller.go:107-155 | the store after a pass without failures, device by device |
| Convergence.CleanIsIdempotent | controllers/edgedeployment_controller.go:71-144 | a second pass without failures finds nothing to do if and only if every device settles, or the deployment is under deletion |
| Convergence.TwoPassesPrepare | controllers/edgedeployment_controller.go:84-105 | from any state a live deployment whose selector labels the server takes needs at most two passes (finalizer, labels) before one that places |
| Convergence.NeverPlacing | controllers/edgedeployment_controller.go:390-401 | if the server refuses its selector labels, no run of reconciles, whatever is answered, ever touches a device |
| Convergence.PlacesIffStorable | controllers/edgedeployment_controller.go:390-437 | some run of reconciles gets a live deployment as far as placing if and only if no key of its selector has a prefix |
| Convergence.PlacingIsStorable | controllers/edgedeployment_controller.go:390-437 | where label keys are valid, as they are in every run, a deployment that is placing has a selector without prefixed keys |
| Convergence.FaultyPassIsForgotten | controllers/edgedeployment_controller.go:168-257 | where devices settle, one reconcile with any failures does not change where the deployment settles |
| Convergence.Convergence | controllers/edgedeployment_controller.go:71-257 | every run of reconciles with any failures, then passes without failures, ends in the state the latter alone would have reached, devices and deployments, if and only if every device settles (or reconciles do not reach the devices) |
| Convergence.OnePassSettles | controllers/edgedeployment_controller.go:107-143 | once a live deployment is placing, one pass without failures after any run ends where one pass from the start would have ended |
| Convergence.SwingsForEver | controllers/edgedeployment_controller.go:107-143 | where a device does not settle, every other pass places the deployment on it and the next one removes it, for ever |
| Convergence.SettledMeansSelected | controllers/edgedeployment_controller.go:107-143 | a settled device has entry and label if it is selected; it has the entry only then exactly if it was traceable; traces of other deployments are as before |
| Convergence.WriteOrderKeepsTraces | controllers/edgedeployment_controller.go:168-257 | under any failure, "in status" still implies "labelled or selected" |
| Convergence.SelfExclusionNeverSettles | controllers/edgedeployment_controller.go:107-143 | a deployment that is placing and whose selector asks for the absence of its own label: after 2i clean reconciles the device is without it, after 2i + 1 it carries entry and label |
| DeviceReconcile.ScanClosedForm | controllers/edgedevicelabels_controller.go:154-176 | the loop that consumes the matches keeps the matched entries in order, leaves the matches without entry, drops the labels of the rest |
| DeviceReconcile.UpdatedIsTheDifference | controllers/edgedevicelabels_controller.go:154-194 | nothing to update exactly when names equal matches; otherwise the names are exactly the matches, kept entries unchanged and in order, new ones deploying, and each label of the copy is determined |
| DeviceReconcile.UpdateKeepsInStep | controllers/edgedevicelabels_controller.go:154-194 | labels and status still agree after the update |
| DeviceReconcile.SecondUpdateIsEmpty | controllers/edgedevicelabels_controller.go:107-122 | once the status is written, a second update is empty, whatever became of the labels |
| DeviceReconcile.DuplicateDropsTheLabel | controllers/edgedevicelabels_controller.go:154-194 | for any list, a matched deployment with an entry keeps its label if and only if it has just one; more than one forces an update |
| EdgeDeviceLabelsController.CreateSelectorLabelsMap | controllers/edgedevicelabels_controller.go:137-152 | the loop builds the lookups of the index |
| EdgeDeviceLabelsController.CreateUpdatedDevice | controllers/edgedevicelabels_controller.go:154-194 | the copy is the update for some order of the new names, which the iteration over the map leaves open; with unique names it is nil exactly when nothing changes, and starts with the kept entries as they were |
| EdgeDeviceLabelsController.EdgeDeviceLabelsReconciler.SelectDeployments | controllers/edgedevicelabels_controller.go:81-105 | fails exactly when a list call fails or a listed selector is invalid; else finds exactly the listed deployments that match |
| EdgeDeviceLabelsController.EdgeDeviceLabelsReconciler.Reconcile | controllers/edgedevicelabels_controller.go:48-122 | store and result are those of the device reconcile function, for every answer of the server |
| Rivals.IndexFindsTheSelected | controllers/edgedevicelabels_controller.go:81-105 | for a calm device, with the index up to date and usable selectors, a device finds exactly the deployments that select it, whatever labels they look at |
| Rivals.LooksByAbsence | controllers/edgedeployment_controller.go:414-437 | a deployment that is placing looks at workload labels by `DoesNotExist` only |
| Rivals.PlacingExcludesByAbsence | controllers/edgedeployment_controller.go:424-434 | it excludes its own label exactly if it asks for its absence |
| Rivals.OtherwiseInert | controllers/edgedeployment_controller.go:390-401 | any other requirement on a workload label keeps every run of its reconciles away from all devices |
| Rivals.MarkedSelects | controllers/edgedeployment_controller.go:259-275 | a placement deselects a device exactly from the deployments that exclude the label of a placed one |
| ExactPlacement.ExactMeansSame | controllers/edgedevicelabels_controller.go:154-194 | two devices with exactly the same placements made from one device differ in the order of entries at most |
| Confluence.OneMoreLabelled | controllers/edgedevicelabels_controller.go:81-122 | without rivals, one label reconcile brings a device to its end, wherever the deployment controller had got to with it |
| Confluence.MixedRuns | controllers/edgedevicelabels_controller.go:48-122 | in any mixture of reconciles of both kinds, in any order and number, each device without rivals carries after each step exactly the selected deployments among the pairs covered so far, and what it had among the others |
| Confluence.PairIsRight | controllers/edgedeployment_controller.go:107-143 | without rivals a pair of a device and a deployment is right, in entry and label, as soon as either controller has covered it, and stays so |
| Confluence.CompleteRunsAgree | controllers/edgedeployment_controller.go:107-143 | any two such runs that cover every pair, deployment by deployment, device by device or mixed, give a device without rivals the same labels and entries: exactly those that select it, old entries kept |
| Divergence.FirstComeFirstServed | controllers/edgedeployment_controller.go:107-143 | of two rivals that both select the bare device, the one reconciled first stays; a deployment that is its own rival comes and goes |
| Divergence.LastGoesLate | controllers/edgedeployment_controller.go:107-143 | from a device that still carries a rival it should not, the order of the two reconciles decides too |
| Divergence.ConfluenceIffNoRivals | controllers/edgedeployment_controller.go:107-143 | all complete runs, from all placements, agree on a device if and only if no deployment that selects the bare device asks for the absence of the label of an existing one |
| EventLoop.UndisturbedIffNoRivals | controllers/edgedevicelabels_controller.go:81-105 | placements of known deployments leave what the index finds unchanged if and only if the device has no rivals |
| EventLoop.IgnoringIsUndisturbed | controllers/edgedevicelabels_controller.go:124-135 | selectors that name no workload label are left unchanged by any placement, whatever the state of the deployments |
| EventLoop.SecondLabelReconcileWritesNothing | controllers/edgedevicelabels_controller.go:107-122 | where placements do not disturb matching, a label reconcile that wrote anything is followed by one that writes nothing, under any replies |
| EventLoop.LoopStopsIffNoRivals | controllers/edgedevicelabels_controller.go:74-122 | from every placement and under any replies, every label reconcile that wrote is followed by an idle one, so the self-triggered loop stops, if and only if the device has no rivals |
| EventLoop.LoopsForEver | controllers/edgedevicelabels_controller.go:74-122 | a deployment that asks for the absence of its own label: runs of any length of clean label reconciles back and forth between two states whose labels differ, so that each triggers the next |
| EventLoop.RepairedIffWhole | controllers/edgedevicelabels_controller.go:107-122 | where placements do not disturb matching: after any replies and then a reconcile without faults, labels and status agree if and only if the first one wrote everything or nothing |
| Confluence.WorkloadSelectorsRace | controllers/edgedeployment_controller.go:107-143 | a witness: two orders of two clean reconciles that end differently |
| JointConvergence.FaultsAreForgotten | controllers/edgedeployment_controller.go:71-257 | from a calm cluster, any mixture of reconciles of both kinds under any failures, then one clean reconcile of every deployment: each device without rivals carries exactly the deployments that select it, entries and labels, old entries kept |
| RunProofs.SoundNext | controllers/edgedevicelabels_controller.go:154-194 | every step keeps unique names, "true" labels, valid label keys, and an index that leads to no live deployment without the finalizer |
| RunProofs.ReconcileKeepsGuards | controllers/edgedeployment_controller.go:146-155 | a reconcile takes the finalizer exactly from its own deployment under deletion, and when no call failed |
| RunProofs.ReleaseLeavesUntraceable | controllers/edgedeployment_controller.go:122-155 | that reconcile takes every label of the deployment off, and leaves exactly the entries that neither a label nor the selector leads to |
| RunProofs.LabelsBreak | controllers/edgedevicelabels_controller.go:81-122 | a label reconcile places a deployment that nobody guards if and only if it gets its status patch through and the index still leads it to a released one |
| RunProofs.GuardedNext | controllers/edgedeployment_controller.go:84-155 | for every step: some status then names an unguarded deployment if and only if the step releases one that cannot be traced to every device, or places a released one |
| RunProofs.AnchoredNext | controllers/edgedeployment_controller.go:84-155 | a sufficient condition: steps in which labels to be added arrive and no released deployment is placed keep each status name labelled and guarded |
| RunProofs.PlaceTears | controllers/edgedeployment_controller.go:168-257 | a body leaves entry and label apart if and only if it changed the status and then failed to get its label patch through |
| RunProofs.InStepNext | controllers/edgedevicelabels_controller.go:154-194 | for every step: labels and status agree on every device afterwards if and only if no body that ran did that, and no label reconcile was cut short after its status patch |
| Theorems.EveryRunIsSound | controllers/edgedeployment_controller.go:71-257 | in every run, whatever fails, status names are unique and workload labels say "true" |
| Theorems.GuardedUntilBroken | controllers/edgedeployment_controller.go:84-155 | up to any point of any run, every status name belongs to a deployment with the finalizer if and only if no step so far was one of the two that break it |
| Theorems.NoRunDangles | controllers/edgedeployment_controller.go:84-155 | a sufficient condition on the replies: in every run in which labels to be added arrive and no released deployment is placed, each status name is labelled and belongs to a deployment that carries the finalizer |
| Theorems.InStepUntilTorn | controllers/edgedevicelabels_controller.go:154-194 | up to any point of any run, a workload label is there exactly for each name in status, on every device, if and only if no step so far tore the two apart |
| Theorems.EveryWholeRunIsInStep | controllers/edgedevicelabels_controller.go:154-194 | a sufficient condition on the replies: in every run that leaves no device half written, labels and status agree |
| Theorems.FinalizerLeavesLast | controllers/edgedeployment_controller.go:122-155 | from any sound state: the finalizer leaves exactly by a reconcile under deletion that meets no error; the deployment goes if it has no other; no label of it remains, and exactly the entries of devices it could not be traced to |
| Theorems.FinalizingCleansTraceableDevices | controllers/edgedeployment_controller.go:146-155 | from any state, finalizing leaves no entry behind if and only if every entry is traceable |
| Theorems.ALostLabelCanDangle | controllers/edgedeployment_controller.go:221-257 | a run of four steps after which a device has an entry of a deployment that is gone |
| Theorems.AReleasedDeploymentCanDangle | controllers/edgedevicelabels_controller.go:81-122 | a run of five steps without failures to the same end, through a finalizer of another controller |
| Theorems.FromTheEmptyCluster | controllers/edgedeployment_controller.go:71-144 | runs that start from an empty cluster start with all invariants, and are sound throughout |
| FanOut.SplitEdgeDevices | controllers/edgedeployment_controller.go:367-388 | terminates; the chunks make up the input in order, min(length, size) of them, none empty, sizes differing by one at most, larger first |
| FanOut.StepKeepsPool | controllers/edgedeployment_controller.go:300-322 | whichever goroutine takes its turn, every device is as its own goroutine has left it |
| FanOut.ScheduleIndependence | controllers/edgedeployment_controller.go:282-322 | for every interleaving of the goroutines' calls, store and error list are those of the sequential call |
| FanOut.FairSchedulesFinish | controllers/edgedeployment_controller.go:310-321 | two turns per device for each goroutine are enough, so the wait ends |
| References.AbsorbAllIsJoin | internal/utils/utils.go:49-124 | the loops over references compute the join: a name maps to nothing but options or to the union of its mandatory keys |
| References.OrderDoesNotMatter | internal/utils/utils.go:49-124 | references with the same elements, in any order and number, give the same map |
| References.RefTable.ExtractInfoFrom | internal/utils/utils.go:49-95 | the loop over sources or volumes absorbs the references its callback answers |
| References.RefTable.ExtractInfoFromEnv | internal/utils/utils.go:97-124 | the loop over variables absorbs the keyed references its callback answers |
| References.RefTable.ExtractSecretsFromEnvFrom | internal/yggdrasil/yggdrasil.go:635-656 | the hand-written loop absorbs the secret references |
| References.RefTable.ExtractSecretsFromEnv | internal/yggdrasil/yggdrasil.go:658-684 | the hand-written loop absorbs the keyed secret references |
| References.DuplicatedCodeAgrees | internal/yggdrasil/yggdrasil.go:635-684 | the hand-written extractors absorb what the generic ones do with secret callbacks |
| Fetching.ReadAndValidate | internal/yggdrasil/yggdrasil.go:560-579 | missing, error or found, with every mandatory key present |
| Fetching.ReadingMeetsEveryNeed | internal/yggdrasil/yggdrasil.go:560-628 | reading each name once succeeds exactly when each single reference is satisfied |
| Fetching.SecretFields | internal/yggdrasil/yggdrasil.go:635-684 | the references of a container are those of the secret fields of its variables and sources, optional exactly where they say so |
| Fetching.PodsReferences | internal/yggdrasil/yggdrasil.go:605-633 | the references collected are exactly those of some variable or source of some init container or container |
| Fetching.CreateSecretList | internal/yggdrasil/yggdrasil.go:598-628 | in terms of the fields of init containers and containers: succeeds if and only if every secret and every key asked for can be read, and then returns exactly one entry for each secret asked for that exists |
| Fetching.RepeatedScanIsHarmless | internal/configmaps/configmaps.go:34-49 | scanning all volumes once per container gives the map of scanning them once |
| Fetching.ExtractConfigMaps | internal/configmaps/configmaps.go:34-49 | the scanning loop panics exactly on a literal variable, and else absorbs every container's references and, after each container, those of all volumes |
| Fetching.PodFields | internal/configmaps/configmaps.go:34-49 | the references of a pod are those of the config map fields of its containers and, if it has any, of its volumes |
| Fetching.Fetch | internal/configmaps/configmaps.go:31-106 | in terms of those fields: panics if and only if some variable is a literal; else succeeds if and only if every config map and key asked for can be read, with exactly one entry for each config map asked for that exists |
| Heartbeat.UpdateDeploymentStatuses | internal/heartbeat/updater.go:57-77 | the new list has each name once, in any order, with the entry that the reports make of it |
| Heartbeat.Transition | internal/heartbeat/updater.go:62-71 | the transition time moves exactly when some report differs from the phase; unreported entries stay |
| Heartbeat.LastReportDecides | internal/heartbeat/updater.go:62-71 | a reported entry ends with the phase and the upload time of the last report of it, whatever it was |
| Heartbeat.RepeatableIffConsistent | internal/heartbeat/updater.go:57-77 | reporting again later changes nothing if and only if no workload is listed with two statuses |
| Heartbeat.OnlyTheFirstCounts | internal/heartbeat/synchronous-handler.go:32-49 | with consistent reports, all attempts together do what the first written one did |
| Heartbeat.RetriedEntry | internal/heartbeat/synchronous-handler.go:32-78 | retries never add or drop a name; once an attempt was written, a reported entry says what its last report says and others are unchanged; with consistent reports a transition time moves at most once, and only for a differing phase |
| Heartbeat.SynchronousHandler.ProcessOnce | internal/heartbeat/synchronous-handler.go:51-78 | one attempt: it succeeds if and only if the read, the status patch and the label update get through, finds no device if and only if there is none, and is retried otherwise; its exact effect on the one device; events only before any retry |
| Heartbeat.SynchronousHandler.Process | internal/heartbeat/synchronous-handler.go:32-49 | for every pattern of failures: attempts go on exactly until one gets through or finds no device, at most four, and the verdict is that of the last; events at most once; no other device touched; the reports and labels of the attempts that were written are in place |
| Text.LowerCaseByLetter | internal/utils/utils.go:32 | each capital becomes its small letter, all else stays |
| Text.CharacterClasses | internal/utils/utils.go:35-43 | letters and digits, and the characters that may stay, one by one |
| Text.NormalForm | internal/utils/utils.go:29-47 | for ASCII names: fails exactly when there is no letter or digit; else the result is what is left of the lower-cased name at exactly the allowed characters from the first to the last letter or digit, and is its own normal form |
| Text.HardwareKeysArePlain | internal/hardware/hardware.go:94-134 | no hardware label is a workload or selector label or has a prefix |
| Text.LabelsOfFields | internal/hardware/hardware.go:94-134 | each label is the normal form of its own field, and missing if the field or the normal form is |
| Text.MapLabels | internal/hardware/hardware.go:94-134 | only the fixed `device.` keys are written |
| Lifecycle.Handshake | internal/yggdrasil/yggdrasil.go:115-140 | for every interleaving of polls whose patches may silently fail: the workload finalizer never without the connection finalizer, neither gone before deletion is requested, every disconnect command after the workload finalizer was removed |
| Lifecycle.StepKeepsInv | internal/yggdrasil/yggdrasil.go:183-190 | each read, patch, deletion and foreign change keeps the invariant behind this |
| Lifecycle.WorkloadFinalizerLeavesOnce | internal/yggdrasil/yggdrasil.go:183-190 | only a finishing data poll under deletion takes the workload finalizer, which never comes back |
| Lifecycle.FinalizersNeverGrow | internal/repository/edgedevice/edgedevice.go:69-86 | no step of the operator adds a finalizer, however stale its patch, if the server refuses that or no other finalizers are around |
| Lifecycle.TwoPollsRelease | internal/yggdrasil/yggdrasil.go:115-190 | from any state under deletion, a data and a control poll that get through remove both finalizers and send the command; the device goes exactly if no foreign finalizer is left |
| Lifecycle.StalePatchRestoresTheConnection | internal/repository/edgedevice/edgedevice.go:69-86 | without either condition a stale patch restores the connection finalizer |
| Lifecycle.PollDoes | internal/yggdrasil/yggdrasil.go:115-190 | a whole poll: no change unless the device is under deletion; a data poll takes exactly the workload finalizer off, a control poll after it exactly the connection finalizer, and the command goes out even if that patch is refused |
| Lifecycle.Handler.HandlePoll | internal/yggdrasil/yggdrasil.go:128-138 | the handlers do that to the store, with other polls under way |
| Lifecycle.Handler.RemoveFinalizer | internal/repository/edgedevice/edgedevice.go:69-86 | filters the list that was read and replaces the stored one, reporting no error |
| Lifecycle.Handler.EndPoll | internal/yggdrasil/yggdrasil.go:128-138 | the rest of a poll, which keeps the invariant |

## Left out

- In-memory copies: after a patch the local copy keeps the written values. How the client library refreshes it is not modelled; the second patch of the label controller relies on this.
- Interleaving of status writers: a reconcile or a heartbeat is one step of a run. `Status.Deployments` is overwritten as a whole without an optimistic lock, so two overlapping writers could undo each other. `FanOut` interleaves the goroutines of one reconcile, `Lifecycle` the reads and patches of polls.
- Namespaces: there is one. `ListByLabel` does not filter by namespace.
- List calls that answer NotFound, which the deployment controller tolerates; this takes a missing resource definition.
- Validity of label keys beyond the number of slashes, and of label values, on objects and in selectors. Object names have no slash.
- UpdateSelectorLabels: the variadic function is modelled for one deployment, on values, with a nil map as the empty one; aliasing of label maps is not modelled.
- SplitEdgeDevices: the conversion from `uint` to `int`. ExecuteConcurrent with concurrency 0 does nothing, and is not modelled beyond the empty split.
- NormalForm: is about ASCII names. The code looks for lower-case letters and digits of all Unicode, and so turns "é" into an empty label; Unicode is not modelled.
- Fetch: a panic is a result and ends the call; errors of encoding the fetched data are not modelled, nor is the aliasing of the append that joins init containers and containers.
- UpdateLabels: nobody else writes the device between the tries; the first copy may be stale.
- Runs assume that users write neither `workload/` nor `selector/` labels, that other controllers leave the operator's finalizer alone, and that nobody adds a finalizer under deletion, which the server refuses. Device finalizers in `Runs` are abstracted to a step that forgets a device under deletion; `Lifecycle` models them.
- A device registered again under its name while handlers of its former incarnation are in flight.
- Process: the other status fields of a heartbeat, nil workloads and events, sleeps; the wall clock is a parameter of each attempt.
- The webhook, the object bucket controller, image registries, metrics, storage, mTLS, HTTP and the mapping of hardware to status: field copying, or libraries that are not part of this model.
