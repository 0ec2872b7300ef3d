/** Runs of the whole system in one namespace: both controllers, heartbeats,
    registrations, user edits and deletions, in any order and under any failures. */
module Runs {
  import opened Kube
  import opened Labels
  import opened Placement
  import opened SelectorIndex
  import opened DeploymentReconcile
  import opened DeviceReconcile
  import opened Settling
  import Heartbeat
  import Text

  datatype Action =
    // the operator
    | ReconcileDeployment(n: Name, a: Answers)
    | ReconcileLabels(k: Name, da: DeviceAnswers, order: seq<Name>)
    | HeartbeatStatus(k: Name, workloads: seq<Heartbeat.WorkloadStatus>, now: nat, entries: seq<Entry>)
    | HardwareLabels(k: Name, hardware: Option<Text.HardwareInfo>)
    | Register(k: Name)
    // users and the API server
    | EditDeviceLabels(k: Name, labels: LabelMap)
    | DeleteDevice(k: Name)
    | ForgetDevice(k: Name)
    | CreateDeployment(dep: EdgeDeployment)
    | EditDeployment(n: Name, spec: Spec, labels: LabelMap)
    | DeleteDeployment(n: Name)
    // other controllers
    | AddFinalizer(n: Name, f: string)
    | DropFinalizer(n: Name, f: string)

  /** The server stores valid label keys only. Users and other controllers keep their
      hands off the operator's labels and finalizer, and nobody adds a finalizer to a
      deployment under deletion. */
  ghost predicate Legal(w: World, x: Action) {
    match x
    case ReconcileDeployment(n, a) => true
    case ReconcileLabels(k, da, order) =>
      k in w.devices ==> Orders(order, NewNames(w.devices[k], Matched(w.deployments, w.devices[k])))
    case HeartbeatStatus(k, workloads, now, entries) =>
      k in w.devices &&
      Heartbeat.Enumerates(entries, Heartbeat.ReportAll(Heartbeat.ByName(w.devices[k].deployments), workloads, now))
    case HardwareLabels(k, hardware) => k in w.devices
    case Register(k) => k !in w.devices && k != ""
    case EditDeviceLabels(k, labels) =>
      k in w.devices && forall l :: IsWorkloadLabel(l) ==> AgreeOn({l}, labels, w.devices[k].labels)
    case DeleteDevice(k) => k in w.devices
    case ForgetDevice(k) => k in w.devices && w.devices[k].deleting
    case CreateDeployment(dep) =>
      && dep.name !in w.deployments && '/' !in dep.name && !dep.deleting
      && DEVICE_REFERENCE_FINALIZER !in dep.finalizers
      && ValidKeys(dep.labels) && forall l :: l in dep.labels ==> !IsSelectorLabel(l)
    case EditDeployment(n, spec, labels) =>
      && n in w.deployments && ValidKeys(labels)
      && forall l :: IsSelectorLabel(l) ==> AgreeOn({l}, labels, w.deployments[n].labels)
    case DeleteDeployment(n) => n in w.deployments
    case AddFinalizer(n, f) =>
      n in w.deployments && !w.deployments[n].deleting && f != DEVICE_REFERENCE_FINALIZER
    case DropFinalizer(n, f) => n in w.deployments && f != DEVICE_REFERENCE_FINALIZER
  }

  function Next(w: World, x: Action): World
    requires WellKeyed(w) && Legal(w, x)
  {
    match x
    case ReconcileDeployment(n, a) => Reconcile(w, n, a).0
    case ReconcileLabels(k, da, order) => ReconcileDevice(w, k, da, order).0
    case HeartbeatStatus(k, _, _, entries) =>
      w.(devices := w.devices[k := w.devices[k].(deployments := entries)])
    case HardwareLabels(k, hardware) =>
      w.(devices := w.devices[k := w.devices[k].(labels := w.devices[k].labels + Text.MapLabels(hardware))])
    case Register(k) =>
      w.(devices := w.devices[k := EdgeDevice(k, map[], [], false,
        ["yggdrasil-connection-finalizer", "yggdrasil-workload-finalizer"])])
    case EditDeviceLabels(k, labels) =>
      w.(devices := w.devices[k := w.devices[k].(labels := labels)])
    case DeleteDevice(k) =>
      w.(devices := w.devices[k := w.devices[k].(deleting := true)])
    case ForgetDevice(k) => w.(devices := w.devices - {k})
    case CreateDeployment(dep) => w.(deployments := w.deployments[dep.name := dep])
    case EditDeployment(n, spec, labels) =>
      w.(deployments := w.deployments[n := w.deployments[n].(spec := spec, labels := labels)])
    case DeleteDeployment(n) =>
      w.(deployments := Store(w.deployments, w.deployments[n].(deleting := true)))
    case AddFinalizer(n, f) =>
      var dep := w.deployments[n];
      w.(deployments := w.deployments[n := dep.(finalizers := dep.finalizers + [f])])
    case DropFinalizer(n, f) =>
      var dep := w.deployments[n];
      w.(deployments := Store(w.deployments, dep.(finalizers := WithoutFinalizer(dep.finalizers, f))))
  }

  // -------------------------------------------------- under arbitrary failures

  /** The label keys are valid, and a live deployment can be found through the index only
      if it carries the finalizer. */
  ghost predicate SoundDeployment(dep: EdgeDeployment) {
    && ValidKeys(dep.labels)
    && ((exists l :: l in dep.labels && IsSelectorLabel(l)) ==>
      DEVICE_REFERENCE_FINALIZER in dep.finalizers || dep.deleting)
  }

  /** Status names are unique, and workload labels say "true". */
  ghost predicate SoundDevice(d: EdgeDevice) {
    && UniqueNames(d.deployments)
    && forall n :: HasLabelForDeployment(d, n) ==> Labelled(d, n)
  }

  ghost predicate Sound(w: World) {
    && WellKeyed(w)
    && (forall k :: k in w.devices ==> SoundDevice(w.devices[k]))
    && (forall n :: n in w.deployments ==> SoundDeployment(w.deployments[n]))
  }

  // ------------------------------------------------------------- no dangling names

  /** The deployment exists and cannot disappear before the operator lets it go. */
  ghost predicate Guarded(w: World, n: Name) {
    n in w.deployments && DEVICE_REFERENCE_FINALIZER in w.deployments[n].finalizers
  }

  ghost predicate NoDangling(w: World, d: EdgeDevice) {
    forall n :: HasDeployment(d, n) ==> Guarded(w, n)
  }

  ghost predicate AllGuarded(w: World) {
    Sound(w) && forall k :: k in w.devices ==> NoDangling(w, w.devices[k])
  }

  function Targets(w: World, n: Name): set<Name>
    requires n in w.deployments
  {
    MatchingNames(w.devices, w.deployments[n].spec) + LabelledNames(w.devices, n)
  }

  /** A reconcile under deletion that meets no error lets the deployment go. */
  ghost predicate Releases(w: World, n: Name, a: Answers) {
    && n in w.deployments && StageOf(w.deployments[n]).Finalizing?
    && !a.readFails && !a.labelledFails && !MatchingFails(w.deployments[n].spec, a)
    && PlaceAllOk(w.devices, Remove(n, {}), Targets(w, n), a.faults)
    && a.self != Rejected
  }

  /** A label reconcile that gets its status patch through, on a device that still finds
      a released deployment which a finalizer of somebody else keeps. */
  ghost predicate PlacesReleased(w: World, k: Name, da: DeviceAnswers) {
    && k in w.devices && !w.devices[k].deleting
    && !da.readFails && !da.listFails && !SelectionAborts(w.deployments, w.devices[k])
    && da.replies.status != Rejected
    && exists n :: n in Matched(w.deployments, w.devices[k]) && StageOf(w.deployments[n]).Released?
  }

  /** The two steps after which a device refers to a deployment nobody guards. */
  ghost predicate Breaks(w: World, x: Action) {
    match x
    case ReconcileDeployment(n, a) =>
      Releases(w, n, a) && exists k :: k in w.devices && !Traceable(w.deployments[n], w.devices[k])
    case ReconcileLabels(k, da, order) => PlacesReleased(w, k, da)
    case _ => false
  }

  // ------------------------------------------------------- without lost labels

  /** Every name in a status is labelled too. */
  ghost predicate EntriesLabelled(d: EdgeDevice) {
    forall n :: HasDeployment(d, n) ==> Labelled(d, n)
  }

  ghost predicate Anchored(w: World) {
    AllGuarded(w) && forall k :: k in w.devices ==> EntriesLabelled(w.devices[k])
  }

  /** Either nothing is written or both parts are. */
  predicate Whole(r: Replies) {
    r.status == Rejected || (r.status == Accepted && r.labels != Rejected)
  }

  /** No label patch that should add a label gets lost: the other writes may fail. */
  ghost predicate LabelsArrive(w: World, x: Action)
    requires WellKeyed(w)
  {
    match x
    case ReconcileDeployment(n, a) =>
      n in w.deployments && !w.deployments[n].deleting ==>
        forall k :: k in w.devices && Selects(w.deployments[n].spec, w.devices[k]) ==> Whole(ReplyFor(a.faults, k))
    case ReconcileLabels(k, da, order) => Whole(da.replies)
    case _ => true
  }

  // ----------------------------------------------------------- whole device writes

  ghost predicate InStepWorld(w: World) {
    Sound(w) && forall k :: k in w.devices ==> InStep(w.devices[k])
  }

  /** The reconcile gets as far as listing its devices. */
  predicate ReachesDevices(w: World, n: Name, a: Answers) {
    && n in w.deployments && (StageOf(w.deployments[n]).Placing? || StageOf(w.deployments[n]).Finalizing?)
    && !a.readFails && !a.labelledFails && !MatchingFails(w.deployments[n].spec, a)
  }

  /** The one body that a reconcile runs on a device, if it runs any: removals come only
      after all additions went through. */
  function BodyOf(w: World, n: Name, a: Answers, k: Name): Option<Job>
    requires k in w.devices
  {
    if !ReachesDevices(w, n, a) then None
    else
      var dep, d := w.deployments[n], w.devices[k];
      var matching := MatchingNames(w.devices, dep.spec);
      if dep.deleting then
        if Selects(dep.spec, d) || Labelled(d, n) then Some(Remove(n, {})) else None
      else if Selects(dep.spec, d) then Some(Add(n))
      else if Labelled(d, n) && PlaceAllOk(w.devices, Add(n), matching, a.faults) then Some(Remove(n, matching))
      else None
  }

  ghost predicate BodyTears(w: World, n: Name, a: Answers, k: Name)
    requires k in w.devices
  {
    && BodyOf(w, n, a, k).Some? && !Whole(ReplyFor(a.faults, k))
    && var job := BodyOf(w, n, a, k).value;
       HasDeployment(w.devices[k], n) <==> job.Remove?
  }

  ghost predicate LabelsTorn(w: World, k: Name, da: DeviceAnswers) {
    && k in w.devices && !w.devices[k].deleting
    && !da.readFails && !da.listFails && !SelectionAborts(w.deployments, w.devices[k])
    && Names(w.devices[k].deployments) != Matched(w.deployments, w.devices[k])
    && !Whole(da.replies)
  }

  /** A body that ran changed the status of a device and then failed to get its label
      patch through. */
  ghost predicate Tears(w: World, x: Action) {
    match x
    case ReconcileDeployment(n, a) => exists k :: k in w.devices && BodyTears(w, n, a, k)
    case ReconcileLabels(k, da, order) => LabelsTorn(w, k, da)
    case _ => false
  }

  ghost predicate WritesAreWhole(w: World, x: Action) {
    match x
    case ReconcileDeployment(n, a) => forall k :: k in w.devices ==> Whole(ReplyFor(a.faults, k))
    case ReconcileLabels(k, da, order) => Whole(da.replies)
    case _ => true
  }
}
