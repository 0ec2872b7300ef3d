/** What one reconcile of a deployment does to the cluster, as a function of the
    cluster and of how the API server answers. */
module DeploymentReconcile {
  import opened Kube
  import opened Labels
  import opened Placement
  import opened SelectorIndex

  const DEVICE_REFERENCE_FINALIZER := "yggdrasil-device-reference-finalizer"

  datatype World = World(devices: Devices, deployments: Deployments)

  /** Objects are stored under their own names; names are not empty and have no slash. */
  ghost predicate WellKeyed(w: World) {
    && (forall k :: k in w.devices ==> k != "" && w.devices[k].name == k)
    && (forall n :: n in w.deployments ==> w.deployments[n].name == n && '/' !in n)
  }

  /** The answers met by one reconcile. `self` is the reply to the one patch it
      sends for the deployment itself. */
  datatype Answers = Answers(
    readFails: bool, labelledFails: bool, matchingFails: bool, self: Reply, faults: map<Name, Replies>)

  const NO_FAULTS := Answers(false, false, false, Accepted, map[])

  datatype Result = Result(requeue: bool, failed: bool)

  const DONE := Result(false, false)
  const REQUEUED := Result(true, false)
  const FAILED := Result(true, true)

  // ------------------------------------------------ writes of the deployment

  function WithoutFinalizer(finalizers: seq<string>, f: string): (rest: seq<string>)
    ensures forall x :: x in rest <==> x in finalizers && x != f
    ensures finalizers == [f] ==> rest == []
  {
    if finalizers == [] then []
    else
      var init, last := finalizers[..|finalizers| - 1], finalizers[|finalizers| - 1];
      assert finalizers == init + [last];
      WithoutFinalizer(init, f) + if last == f then [] else [last]
  }

  /** A metadata patch: label difference, and the finalizer list when it changed. */
  function PatchMetadata(stored: EdgeDeployment, base: EdgeDeployment, desired: EdgeDeployment): EdgeDeployment {
    stored.(
      labels := Apply(stored.labels, Diff(base.labels, desired.labels)),
      finalizers := if desired.finalizers == base.finalizers then stored.finalizers else desired.finalizers)
  }

  /** An object under deletion disappears with its last finalizer. */
  function Store(deployments: Deployments, d: EdgeDeployment): Deployments {
    if d.deleting && d.finalizers == [] then deployments - {d.name} else deployments[d.name := d]
  }

  /** The server refuses to store a label whose key has two slashes. */
  predicate AddsInvalidKey(base: LabelMap, wanted: LabelMap) {
    exists l :: l in wanted && l !in base && InvalidKey(l)
  }

  predicate ValidKeys(labels: LabelMap) {
    forall l :: l in labels ==> !InvalidKey(l)
  }

  /** The reply to a metadata patch, given what the network and the rest of the server
      would have answered. */
  function Validated(base: LabelMap, wanted: LabelMap, reply: Reply): Reply {
    if AddsInvalidKey(base, wanted) then Rejected else reply
  }

  function PatchSelf(w: World, desired: EdgeDeployment, reply: Reply): World
    requires desired.name in w.deployments
  {
    if Validated(w.deployments[desired.name].labels, desired.labels, reply) == Rejected then w
    else
      var dep := w.deployments[desired.name];
      w.(deployments := Store(w.deployments, PatchMetadata(dep, dep, desired)))
  }

  lemma PatchMetadataOfFreshCopy(dep: EdgeDeployment, desired: EdgeDeployment)
    requires desired == dep.(labels := desired.labels, finalizers := desired.finalizers)
    ensures PatchMetadata(dep, dep, desired) == desired
  {
    DiffThenApply(dep.labels, desired.labels);
  }

  // ------------------------------------------------------------- the reconcile

  /** How far a deployment has come. */
  datatype Stage = NeedsFinalizer | NeedsLabels | Placing | Finalizing | Released

  function StageOf(dep: EdgeDeployment): Stage {
    if dep.deleting then
      if DEVICE_REFERENCE_FINALIZER in dep.finalizers then Finalizing else Released
    else if DEVICE_REFERENCE_FINALIZER !in dep.finalizers then NeedsFinalizer
    else if Indexed(dep.labels, dep.spec) != dep.labels then NeedsLabels
    else Placing
  }

  function MatchingNames(devices: Devices, spec: Spec): set<Name> {
    set k | k in devices && Selects(spec, devices[k])
  }

  function LabelledNames(devices: Devices, name: Name): set<Name> {
    set k | k in devices && Labelled(devices[k], name)
  }

  predicate MatchingFails(spec: Spec, a: Answers) {
    SelectionFails(spec) || (a.matchingFails && (spec.device != "" || spec.selector.Some?))
  }

  /** `addDeploymentsToDevices`, then `removeDeploymentFromNonMatchingDevices`. */
  function PlacingPass(w: World, dep: EdgeDeployment, faults: map<Name, Replies>): (World, Result) {
    var matching := MatchingNames(w.devices, dep.spec);
    var labelled := LabelledNames(w.devices, dep.name);
    var added := PlaceAll(w.devices, Add(dep.name), matching, faults);
    if !PlaceAllOk(w.devices, Add(dep.name), matching, faults) then (w.(devices := added), FAILED)
    else
      var job := Remove(dep.name, matching);
      (w.(devices := PlaceAll(added, job, labelled, faults)),
       if PlaceAllOk(added, job, labelled, faults) then DONE else FAILED)
  }

  /** `finalizeRemoval`. A finalizer patch that fails is not reported. */
  function FinalizingPass(w: World, dep: EdgeDeployment, a: Answers): (World, Result)
    requires dep.name in w.deployments
  {
    var targets := MatchingNames(w.devices, dep.spec) + LabelledNames(w.devices, dep.name);
    var job := Remove(dep.name, {});
    var cleaned := w.(devices := PlaceAll(w.devices, job, targets, a.faults));
    if !PlaceAllOk(w.devices, job, targets, a.faults) then (cleaned, FAILED)
    else
      var rest := WithoutFinalizer(dep.finalizers, DEVICE_REFERENCE_FINALIZER);
      (PatchSelf(cleaned, dep.(finalizers := rest), a.self), DONE)
  }

  function Reconcile(w: World, n: Name, a: Answers): (World, Result)
    requires n in w.deployments ==> w.deployments[n].name == n
  {
    if a.readFails then (w, FAILED)
    else if n !in w.deployments then (w, DONE)
    else
      var dep := w.deployments[n];
      var stage := StageOf(dep);
      if stage == NeedsFinalizer then
        (PatchSelf(w, dep.(finalizers := [DEVICE_REFERENCE_FINALIZER]), a.self),
         if a.self == Accepted then REQUEUED else FAILED)
      else if stage == NeedsLabels then
        (PatchSelf(w, dep.(labels := Indexed(dep.labels, dep.spec)), a.self),
         if Validated(dep.labels, Indexed(dep.labels, dep.spec), a.self) == Accepted then DONE else FAILED)
      else if a.labelledFails || MatchingFails(dep.spec, a) then (w, FAILED)
      else if stage == Placing then PlacingPass(w, dep, a.faults)
      else if stage == Finalizing then FinalizingPass(w, dep, a)
      else (w, DONE)
  }
}
