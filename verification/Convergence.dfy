/** Failed reconciles leave no trace: whatever writes were refused or lost on the
    way, the next passes without faults reach the state they would have reached
    from the start. */
module Convergence {
  import opened Kube
  import opened Labels
  import opened Placement
  import opened SelectorIndex
  import opened DeploymentReconcile
  import opened Settling

  // -------------------------------------------------------------- the cluster

  function Clean(w: World, n: Name): World
    requires WellKeyed(w)
  {
    Reconcile(w, n, NO_FAULTS).0
  }

  lemma ReconcileKeepsKeys(w: World, n: Name, a: Answers)
    requires WellKeyed(w)
    ensures WellKeyed(Reconcile(w, n, a).0)
  {
    var r := Reconcile(w, n, a).0;
    forall k | k in r.devices ensures k != "" && r.devices[k].name == k {
      DeviceStep(w, n, a, k);
      if r.devices[k] != w.devices[k] {
        var job :| r.devices[k] == Place(job, w.devices[k], ReplyFor(a.faults, k)).device;
        PlaceFrame(job, w.devices[k], ReplyFor(a.faults, k));
      }
    }
  }

  lemma PlacingStep(w: World, dep: EdgeDeployment, faults: map<Name, Replies>, k: Name)
    requires WellKeyed(w)
    ensures var r := PlacingPass(w, dep, faults).0.devices;
      && r.Keys == w.devices.Keys
      && (k in w.devices && r[k] != w.devices[k] ==>
            exists job :: r[k] == Place(job, w.devices[k], ReplyFor(faults, k)).device
              && IsPlacingJob(dep, w.devices[k], job))
  {
    var matching := MatchingNames(w.devices, dep.spec);
    if k in w.devices {
      var d, replies := w.devices[k], ReplyFor(faults, k);
      var add, remove := Add(dep.name), Remove(dep.name, matching);
      if Selects(dep.spec, d) {
        PlaceFrame(add, d, replies);
        var added := Place(add, d, replies).device;
        assert Place(remove, added, replies).device == added;
        assert IsPlacingJob(dep, d, add);
      } else {
        assert Labelled(d, dep.name) ==> IsPlacingJob(dep, d, remove);
      }
    }
  }

  lemma FinalizingStep(w: World, dep: EdgeDeployment, a: Answers, k: Name)
    requires WellKeyed(w) && dep.name in w.deployments
    ensures var r := FinalizingPass(w, dep, a).0.devices;
      && r.Keys == w.devices.Keys
      && (k in w.devices && r[k] != w.devices[k] ==>
            && r[k] == Place(Remove(dep.name, {}), w.devices[k], ReplyFor(a.faults, k)).device
            && (Selects(dep.spec, w.devices[k]) || Labelled(w.devices[k], dep.name)))
  {
  }

  /** Only the two passes touch devices. */
  lemma ReconcileShape(w: World, n: Name, a: Answers)
    requires WellKeyed(w)
    ensures var r := Reconcile(w, n, a);
      || r.0.devices == w.devices
      || (n in w.deployments && var dep := w.deployments[n];
          r == if dep.deleting then FinalizingPass(w, dep, a) else PlacingPass(w, dep, a.faults))
  {
  }

  /** A reconcile treats every device by at most one pass of one body. */
  lemma DeviceStep(w: World, n: Name, a: Answers, k: Name)
    requires WellKeyed(w)
    ensures var r := Reconcile(w, n, a).0;
      && r.devices.Keys == w.devices.Keys
      && (k in w.devices && r.devices[k] != w.devices[k] ==>
            n in w.deployments && exists job ::
              && r.devices[k] == Place(job, w.devices[k], ReplyFor(a.faults, k)).device
              && IsJobOf(w.deployments[n], w.devices[k], job))
  {
    ReconcileShape(w, n, a);
    var r := Reconcile(w, n, a).0;
    if r.devices != w.devices {
      var dep := w.deployments[n];
      if dep.deleting {
        FinalizingStep(w, dep, a, k);
        assert k in w.devices && r.devices[k] != w.devices[k] ==> IsJobOf(dep, w.devices[k], Remove(n, {}));
      } else {
        PlacingStep(w, dep, a.faults, k);
      }
    }
  }

  function SettledAll(devices: Devices, dep: EdgeDeployment): Devices {
    map k | k in devices :: if dep.deleting then Cleared(dep, devices[k]) else Settled(dep, devices[k])
  }

  /** The passes that reach the devices. */
  predicate Working(w: World, n: Name) {
    && n in w.deployments && !SelectionFails(w.deployments[n].spec)
    && (StageOf(w.deployments[n]).Placing? || StageOf(w.deployments[n]).Finalizing?)
  }

  function AfterWork(deployments: Deployments, dep: EdgeDeployment): Deployments {
    if dep.deleting
    then Store(deployments, dep.(finalizers := WithoutFinalizer(dep.finalizers, DEVICE_REFERENCE_FINALIZER)))
    else deployments
  }

  lemma AllAccepted(devices: Devices, job: Job, targets: set<Name>)
    ensures PlaceAllOk(devices, job, targets, map[])
    ensures PlaceAll(devices, job, targets, map[])
         == map k | k in devices :: if k in targets then Goal(job, devices[k]) else devices[k]
  {
    forall k | k in devices
      ensures Place(job, devices[k], ReplyFor(map[], k)) == Outcome(Goal(job, devices[k]), true)
    {
      PlaceStages(job, devices[k], ALL_ACCEPTED);
    }
  }

  lemma CleanPlacing(w: World, dep: EdgeDeployment)
    requires WellKeyed(w) && !dep.deleting
    ensures PlacingPass(w, dep, map[]).0 == w.(devices := SettledAll(w.devices, dep))
  {
    var matching, labelled := MatchingNames(w.devices, dep.spec), LabelledNames(w.devices, dep.name);
    var added := PlaceAll(w.devices, Add(dep.name), matching, map[]);
    AllAccepted(w.devices, Add(dep.name), matching);
    AllAccepted(added, Remove(dep.name, matching), labelled);
    forall k | k in w.devices
      ensures PlaceAll(added, Remove(dep.name, matching), labelled, map[])[k] == Settled(dep, w.devices[k])
    {
    }
  }

  lemma CleanFinalizing(w: World, dep: EdgeDeployment)
    requires WellKeyed(w) && dep.deleting && dep.name in w.deployments && w.deployments[dep.name] == dep
    ensures FinalizingPass(w, dep, NO_FAULTS).0
         == World(SettledAll(w.devices, dep), AfterWork(w.deployments, dep))
  {
    var job := Remove(dep.name, {});
    var targets := MatchingNames(w.devices, dep.spec) + LabelledNames(w.devices, dep.name);
    AllAccepted(w.devices, job, targets);
    var rest := WithoutFinalizer(dep.finalizers, DEVICE_REFERENCE_FINALIZER);
    PatchMetadataOfFreshCopy(dep, dep.(finalizers := rest));
    assert PlaceAll(w.devices, job, targets, map[]) == SettledAll(w.devices, dep);
  }

  lemma CleanPass(w: World, n: Name)
    requires WellKeyed(w) && Working(w, n)
    ensures var dep := w.deployments[n];
      Clean(w, n) == World(SettledAll(w.devices, dep), AfterWork(w.deployments, dep))
  {
    var dep := w.deployments[n];
    if dep.deleting {
      CleanFinalizing(w, dep);
    } else {
      CleanPlacing(w, dep);
    }
  }

  /** Every device settles, so far as passes reach the devices at all. */
  ghost predicate AllSettle(devices: Devices, dep: EdgeDeployment) {
    dep.deleting || forall k :: k in devices ==> SettlesAt(dep, devices[k])
  }

  lemma FaultyPass(w: World, n: Name, a: Answers)
    requires WellKeyed(w) && Working(w, n) && AllSettle(w.devices, w.deployments[n])
    ensures var r := Reconcile(w, n, a).0;
      && SettledAll(r.devices, w.deployments[n]) == SettledAll(w.devices, w.deployments[n])
      && AllSettle(r.devices, w.deployments[n])
      && (r.deployments == w.deployments || r == Clean(w, n))
  {
    var dep := w.deployments[n];
    var r := Reconcile(w, n, a).0;
    assert r.devices.Keys == w.devices.Keys by { DeviceStep(w, n, a, ""); }
    forall k | k in w.devices
      ensures SettledAll(r.devices, dep)[k] == SettledAll(w.devices, dep)[k]
      ensures dep.deleting || SettlesAt(dep, r.devices[k])
    {
      DeviceStep(w, n, a, k);
      var d := w.devices[k];
      if r.devices[k] != d {
        var replies := ReplyFor(a.faults, k);
        var job :| r.devices[k] == Place(job, d, replies).device && IsJobOf(dep, d, job);
        if dep.deleting {
          ClearedAgain(dep, d, replies);
        } else {
          PlacedThenSettled(dep, d, job, replies);
        }
      }
    }
    if r.deployments != w.deployments {
      FinishedPass(w, n, a);
    }
  }

  lemma SameWithoutErrors(devices: Devices, job: Job, targets: set<Name>, faults: map<Name, Replies>)
    requires PlaceAllOk(devices, job, targets, faults)
    ensures PlaceAll(devices, job, targets, faults) == PlaceAll(devices, job, targets, map[])
  {
    forall k | k in devices && k in targets
      ensures Place(job, devices[k], ReplyFor(faults, k)).device == Place(job, devices[k], ALL_ACCEPTED).device
    {
      PlaceStages(job, devices[k], ReplyFor(faults, k));
      PlaceStages(job, devices[k], ALL_ACCEPTED);
    }
  }

  lemma FinishedPass(w: World, n: Name, a: Answers)
    requires WellKeyed(w) && Working(w, n)
    requires Reconcile(w, n, a).0.deployments != w.deployments
    ensures Reconcile(w, n, a).0 == Clean(w, n)
  {
    var dep := w.deployments[n];
    var targets := MatchingNames(w.devices, dep.spec) + LabelledNames(w.devices, n);
    assert Reconcile(w, n, a).0 == FinalizingPass(w, dep, a).0;
    SameWithoutErrors(w.devices, Remove(n, {}), targets, a.faults);
    AllAccepted(w.devices, Remove(n, {}), targets);
  }

  /** A second clean pass finds nothing to do if and only if every device settles. */
  lemma CleanIsIdempotent(w: World, n: Name)
    requires WellKeyed(w) && Working(w, n)
    ensures WellKeyed(Clean(w, n))
    ensures Clean(Clean(w, n), n) == Clean(w, n) <==> AllSettle(w.devices, w.deployments[n])
  {
    var dep := w.deployments[n];
    ReconcileKeepsKeys(w, n, NO_FAULTS);
    CleanPass(w, n);
    if !dep.deleting {
      CleanPass(Clean(w, n), n);
      forall k | k in w.devices
        ensures SettledAll(SettledAll(w.devices, dep), dep)[k] == SettledAll(w.devices, dep)[k]
           <==> SettlesAt(dep, w.devices[k])
      {
        SettlesAtMeansIdempotent(dep, w.devices[k]);
      }
      if Clean(Clean(w, n), n) == Clean(w, n) {
        assert SettledAll(SettledAll(w.devices, dep), dep) == SettledAll(w.devices, dep);
      } else {
        assert SettledAll(SettledAll(w.devices, dep), dep) != SettledAll(w.devices, dep);
      }
    } else {
      ClearedTwice(w, n);
    }
  }

  lemma ClearedTwice(w: World, n: Name)
    requires WellKeyed(w) && Working(w, n) && w.deployments[n].deleting
    ensures WellKeyed(Clean(w, n)) && Clean(Clean(w, n), n) == Clean(w, n)
  {
    ReconcileKeepsKeys(w, n, NO_FAULTS);
    CleanPass(w, n);
  }

  // ----------------------------------------------------- on the way to placing

  function CleanTimes(w: World, n: Name, i: nat): (r: World)
    requires WellKeyed(w)
    ensures WellKeyed(r)
  {
    if i == 0 then w
    else
      var before := CleanTimes(w, n, i - 1);
      ReconcileKeepsKeys(before, n, NO_FAULTS);
      Clean(before, n)
  }

  lemma {:induction false} CleanFirst(w: World, n: Name, i: nat)
    requires WellKeyed(w) && WellKeyed(Clean(w, n))
    ensures CleanTimes(w, n, i + 1) == CleanTimes(Clean(w, n), n, i)
  {
    if i > 0 {
      CleanFirst(w, n, i - 1);
    } else {
      assert CleanTimes(w, n, 0) == w;
    }
  }

  /** Two preparatory passes and one that works. */
  function Settle(w: World, n: Name): (r: World)
    requires WellKeyed(w)
    ensures WellKeyed(r)
  {
    CleanTimes(w, n, 3)
  }

  /** The server takes the labels that the index wants, if they are not there yet. */
  predicate Placeable(dep: EdgeDeployment) {
    !AddsInvalidKey(dep.labels, Indexed(dep.labels, dep.spec))
  }

  /** No key of the selector has a prefix of its own. */
  predicate StorableIndex(spec: Spec) {
    spec.device != "" || spec.selector.None? ||
    forall k :: k in IndexKeys(spec.selector.value) ==> '/' !in k
  }

  lemma PlaceableIffStorable(dep: EdgeDeployment)
    requires ValidKeys(dep.labels)
    ensures Placeable(dep) <==> StorableIndex(dep.spec)
  {
    var index, r := IndexLabels(dep.spec), Indexed(dep.labels, dep.spec);
    InvalidSelectorKey(DEVICE_NAME_LABEL);
    assert '/' !in DEVICE_NAME_LABEL;
    if dep.spec.device == "" && dep.spec.selector.Some? {
      forall k | k in IndexKeys(dep.spec.selector.value)
        ensures CreateSelectorLabel(k) in index && (InvalidKey(CreateSelectorLabel(k)) <==> '/' in k)
      {
        InvalidSelectorKey(k);
      }
      if !StorableIndex(dep.spec) {
        var k :| k in IndexKeys(dep.spec.selector.value) && '/' in k;
        assert CreateSelectorLabel(k) in r && CreateSelectorLabel(k) !in dep.labels;
      }
    }
    assert forall l :: l in r && l !in dep.labels ==> l in index;
  }

  lemma LivePass(w: World, n: Name, a: Answers)
    requires WellKeyed(w) && n in w.deployments && !w.deployments[n].deleting
    ensures var r := Reconcile(w, n, a).0;
      && (!StageOf(w.deployments[n]).Placing? ==> r.devices == w.devices)
      && (StageOf(w.deployments[n]).Placing? ==> r.deployments == w.deployments)
  {
  }

  /** What any reconcile of a live deployment makes of the deployment. */
  lemma LiveStep(w: World, n: Name, a: Answers)
    requires WellKeyed(w) && n in w.deployments && !w.deployments[n].deleting
    ensures var dep, r := w.deployments[n], Reconcile(w, n, a).0;
      && n in r.deployments
      && r.deployments[n] == dep.(finalizers := r.deployments[n].finalizers, labels := r.deployments[n].labels)
      && (r.deployments[n].labels == dep.labels ||
            (Placeable(dep) && r.deployments[n].labels == Indexed(dep.labels, dep.spec)))
      && (!StageOf(dep).Placing? ==> r.devices == w.devices)
      && (StageOf(dep).Placing? ==> r.deployments == w.deployments)
  {
    var dep := w.deployments[n];
    LivePass(w, n, a);
    if StageOf(dep).NeedsFinalizer? {
      PatchMetadataOfFreshCopy(dep, dep.(finalizers := [DEVICE_REFERENCE_FINALIZER]));
    } else if StageOf(dep).NeedsLabels? {
      PatchMetadataOfFreshCopy(dep, dep.(labels := Indexed(dep.labels, dep.spec)));
    }
  }

  lemma PlaceableIsKept(dep: EdgeDeployment, later: EdgeDeployment)
    requires later.spec == dep.spec
    requires later.labels == dep.labels || (Placeable(dep) && later.labels == Indexed(dep.labels, dep.spec))
    ensures Placeable(later) <==> Placeable(dep)
  {
    IndexedIsAFixedPoint(dep.labels, dep.spec);
  }

  /** Where label keys are valid, a deployment that is placing has an index the server
      could store. */
  lemma PlacingIsStorable(dep: EdgeDeployment)
    requires ValidKeys(dep.labels) && StageOf(dep).Placing?
    ensures StorableIndex(dep.spec)
  {
    PlaceableIffStorable(dep);
  }

  lemma OnePassAdvances(w: World, n: Name)
    requires WellKeyed(w) && n in w.deployments && !w.deployments[n].deleting && Placeable(w.deployments[n])
    ensures var dep, r := w.deployments[n], Clean(w, n);
      && n in r.deployments && Placeable(r.deployments[n])
      && (StageOf(dep).NeedsFinalizer? ==> StageOf(r.deployments[n]) in {NeedsLabels, Placing})
      && (!StageOf(dep).NeedsFinalizer? ==> StageOf(r.deployments[n]).Placing?)
  {
    var dep := w.deployments[n];
    LiveStep(w, n, NO_FAULTS);
    PlaceableIsKept(dep, Clean(w, n).deployments[n]);
    if StageOf(dep).NeedsFinalizer? {
      PatchMetadataOfFreshCopy(dep, dep.(finalizers := [DEVICE_REFERENCE_FINALIZER]));
    } else if StageOf(dep).NeedsLabels? {
      PatchMetadataOfFreshCopy(dep, dep.(labels := Indexed(dep.labels, dep.spec)));
      IndexedIsAFixedPoint(dep.labels, dep.spec);
    }
  }

  /** A live deployment whose index the server can store is placing after at most two
      passes, wherever it started: one for the finalizer, one for the labels. */
  lemma TwoPassesPrepare(w: World, n: Name)
    requires WellKeyed(w) && n in w.deployments && !w.deployments[n].deleting && Placeable(w.deployments[n])
    ensures var r := CleanTimes(w, n, 2);
      && n in r.deployments && StageOf(r.deployments[n]) == Placing
      && r.deployments[n].spec == w.deployments[n].spec
  {
    var w1 := CleanTimes(w, n, 1);
    assert CleanTimes(w, n, 0) == w && CleanTimes(w, n, 2) == Clean(w1, n);
    LiveStep(w, n, NO_FAULTS);
    OnePassAdvances(w, n);
    LiveStep(w1, n, NO_FAULTS);
    OnePassAdvances(w1, n);
  }

  function FaultyRun(w: World, n: Name, run: seq<Answers>): World
    requires WellKeyed(w)
    decreases |run|
  {
    if run == [] then w
    else
      ReconcileKeepsKeys(w, n, run[0]);
      FaultyRun(Reconcile(w, n, run[0]).0, n, run[1..])
  }

  /** A deployment whose index cannot be stored is never placed, whatever is answered. */
  lemma {:induction false} NeverPlacing(w: World, n: Name, run: seq<Answers>)
    requires WellKeyed(w) && n in w.deployments && !w.deployments[n].deleting && !Placeable(w.deployments[n])
    ensures var r := FaultyRun(w, n, run);
      n in r.deployments && !StageOf(r.deployments[n]).Placing? && r.devices == w.devices
    decreases |run|
  {
    if run != [] {
      var r := Reconcile(w, n, run[0]).0;
      ReconcileKeepsKeys(w, n, run[0]);
      LiveStep(w, n, run[0]);
      PlaceableIsKept(w.deployments[n], r.deployments[n]);
      NeverPlacing(r, n, run[1..]);
    }
  }

  lemma OnePassRun(w: World, n: Name)
    requires WellKeyed(w)
    ensures FaultyRun(w, n, [NO_FAULTS]) == Clean(w, n)
  {
    ReconcileKeepsKeys(w, n, NO_FAULTS);
    assert FaultyRun(Clean(w, n), n, [NO_FAULTS][1..]) == Clean(w, n);
  }

  lemma TwoPassRun(w: World, n: Name)
    requires WellKeyed(w)
    ensures FaultyRun(w, n, [NO_FAULTS, NO_FAULTS]) == CleanTimes(w, n, 2)
  {
    ReconcileKeepsKeys(w, n, NO_FAULTS);
    OnePassRun(Clean(w, n), n);
    assert [NO_FAULTS, NO_FAULTS][1..] == [NO_FAULTS];
    FirstPasses(w, n);
  }

  lemma FirstPasses(w: World, n: Name)
    requires WellKeyed(w)
    ensures WellKeyed(Clean(w, n))
    ensures CleanTimes(w, n, 0) == w && CleanTimes(w, n, 1) == Clean(w, n)
    ensures CleanTimes(w, n, 2) == Clean(Clean(w, n), n)
  {
    assert CleanTimes(w, n, 0) == w;
    assert CleanTimes(w, n, 1) == Clean(w, n);
  }

  /** From a state whose labels the server accepted: a live deployment can ever get as
      far as placing if and only if no key of its selector has a prefix. */
  lemma PlacesIffStorable(w: World, n: Name)
    requires WellKeyed(w) && n in w.deployments && !w.deployments[n].deleting
    requires ValidKeys(w.deployments[n].labels)
    ensures StorableIndex(w.deployments[n].spec) <==>
      exists run :: var r := FaultyRun(w, n, run); n in r.deployments && StageOf(r.deployments[n]).Placing?
  {
    PlaceableIffStorable(w.deployments[n]);
    if Placeable(w.deployments[n]) {
      TwoPassesPrepare(w, n);
      TwoPassRun(w, n);
    } else {
      forall run
        ensures var r := FaultyRun(w, n, run); !(n in r.deployments && StageOf(r.deployments[n]).Placing?)
      {
        NeverPlacing(w, n, run);
      }
    }
  }

  // ------------------------------------------------------------- convergence

  /** What a caller can check beforehand: the deployment is under deletion, or its
      reconciles never reach the devices, or every device settles. */
  ghost predicate Settles(w: World, n: Name) {
    n in w.deployments ==>
      var dep := w.deployments[n];
      SelectionFails(dep.spec) || (!dep.deleting && !Placeable(dep)) || AllSettle(w.devices, dep)
  }

  /** No further preparatory pass is to come. */
  predicate Prepared(w: World, n: Name) {
    Live(w, n) ==>
      var dep := w.deployments[n];
      StageOf(dep).Placing? || (StageOf(dep).NeedsLabels? && !Placeable(dep))
  }

  lemma TwoPassesAreEnough(w: World, n: Name)
    requires WellKeyed(w)
    ensures Prepared(CleanTimes(w, n, 2), n)
  {
    FirstPasses(w, n);
    if !Live(w, n) {
      NotLiveStays(w, n, NO_FAULTS);
      NotLiveStays(Clean(w, n), n, NO_FAULTS);
    } else if Placeable(w.deployments[n]) {
      TwoPassesPrepare(w, n);
    } else {
      StuckAtLabels(w, n);
      StuckAtLabels(Clean(w, n), n);
    }
  }

  predicate Live(w: World, n: Name) {
    n in w.deployments && !w.deployments[n].deleting
  }

  lemma NotLiveStays(w: World, n: Name, a: Answers)
    requires WellKeyed(w) && !Live(w, n)
    ensures WellKeyed(Reconcile(w, n, a).0) && !Live(Reconcile(w, n, a).0, n)
  {
    ReconcileKeepsKeys(w, n, a);
  }

  lemma StuckAtLabels(w: World, n: Name)
    requires WellKeyed(w) && n in w.deployments && !w.deployments[n].deleting && !Placeable(w.deployments[n])
    ensures var r := Clean(w, n);
      && n in r.deployments && !r.deployments[n].deleting && !Placeable(r.deployments[n])
      && StageOf(r.deployments[n]).NeedsLabels?
      && (StageOf(w.deployments[n]).NeedsLabels? ==> r == w)
  {
    var dep := w.deployments[n];
    LiveStep(w, n, NO_FAULTS);
    PlaceableIsKept(dep, Clean(w, n).deployments[n]);
    PatchMetadataOfFreshCopy(dep, dep.(finalizers := [DEVICE_REFERENCE_FINALIZER]));
  }

  /** The condition outlives every reconcile, whatever is answered. */
  lemma SettlesIsKept(w: World, n: Name, a: Answers)
    requires WellKeyed(w) && Settles(w, n)
    ensures WellKeyed(Reconcile(w, n, a).0) && Settles(Reconcile(w, n, a).0, n)
  {
    ReconcileKeepsKeys(w, n, a);
    if !Live(w, n) {
      NotLiveStays(w, n, a);
    } else if Working(w, n) {
      WorkingPassKeepsSettling(w, n, a);
    } else {
      LiveStep(w, n, a);
      PlaceableIsKept(w.deployments[n], Reconcile(w, n, a).0.deployments[n]);
      IdlePassKeepsDevices(w, n, a);
    }
  }

  lemma IdlePassKeepsDevices(w: World, n: Name, a: Answers)
    requires WellKeyed(w) && !Working(w, n)
    ensures Reconcile(w, n, a).0.devices == w.devices
  {
  }

  lemma WorkingMeansAllSettle(w: World, n: Name)
    requires Settles(w, n) && Working(w, n)
    ensures AllSettle(w.devices, w.deployments[n])
  {
  }

  lemma WorkingPassKeepsSettling(w: World, n: Name, a: Answers)
    requires WellKeyed(w) && Settles(w, n) && Working(w, n)
    ensures WellKeyed(Reconcile(w, n, a).0) && Settles(Reconcile(w, n, a).0, n)
  {
    WorkingMeansAllSettle(w, n);
    ReconcileKeepsKeys(w, n, a);
    FaultyPass(w, n, a);
    if Live(w, n) {
      LiveStep(w, n, a);
    } else {
      NotLiveStays(w, n, a);
    }
  }

  lemma SettledWhenPrepared(w: World, n: Name)
    requires WellKeyed(w) && Settles(w, n) && Prepared(w, n)
    ensures WellKeyed(Clean(w, n)) && Clean(Clean(w, n), n) == Clean(w, n)
  {
    ReconcileKeepsKeys(w, n, NO_FAULTS);
    if Working(w, n) {
      WorkingMeansAllSettle(w, n);
      CleanIsIdempotent(w, n);
    } else if n in w.deployments && !w.deployments[n].deleting && !Placeable(w.deployments[n]) {
      StuckAtLabels(w, n);
    }
  }

  /** Once settled, always settled. */
  lemma SettledStays(w: World, n: Name)
    requires WellKeyed(w) && Settles(w, n)
    ensures WellKeyed(Clean(w, n))
    ensures Clean(Settle(w, n), n) == Settle(w, n)
    ensures Settle(Clean(w, n), n) == Settle(w, n)
  {
    var w1, w2 := CleanTimes(w, n, 1), CleanTimes(w, n, 2);
    assert CleanTimes(w, n, 0) == w;
    SettlesIsKept(w, n, NO_FAULTS);
    SettlesIsKept(w1, n, NO_FAULTS);
    TwoPassesAreEnough(w, n);
    SettledWhenPrepared(w2, n);
    CleanFirst(w, n, 3);
  }

  /** One faulty pass does not change where the deployment settles. */
  lemma FaultyPassIsForgotten(w: World, n: Name, a: Answers)
    requires WellKeyed(w) && Settles(w, n)
    ensures var r := Reconcile(w, n, a).0;
      WellKeyed(r) && Settles(r, n) && Settle(r, n) == Settle(w, n)
  {
    var r := Reconcile(w, n, a).0;
    SettlesIsKept(w, n, a);
    SettledStays(w, n);
    if r != w && r != Clean(w, n) {
      OnlyWorkHalfDone(w, n, a);
      WorkingMeansAllSettle(w, n);
      FaultyPass(w, n, a);
      CleanPass(w, n);
      CleanPass(r, n);
      assert Clean(r, n) == Clean(w, n);
      SettledStays(r, n);
    }
  }

  lemma OnlyWorkHalfDone(w: World, n: Name, a: Answers)
    requires WellKeyed(w) && Reconcile(w, n, a).0 != w && Reconcile(w, n, a).0 != Clean(w, n)
    ensures Working(w, n)
  {
  }

  lemma {:induction false} RunIsForgotten(w: World, n: Name, run: seq<Answers>)
    requires WellKeyed(w) && Settles(w, n)
    ensures WellKeyed(FaultyRun(w, n, run)) && Settle(FaultyRun(w, n, run), n) == Settle(w, n)
    decreases |run|
  {
    if run != [] {
      FaultyPassIsForgotten(w, n, run[0]);
      RunIsForgotten(Reconcile(w, n, run[0]).0, n, run[1..]);
    }
  }

  // ----------------------------------------------------- where nothing settles

  /** A live deployment whose reconciles reach the devices, and a device that swings. */
  ghost predicate Swinging(w: World, n: Name, k: Name) {
    && WellKeyed(w) && n in w.deployments && k in w.devices
    && !w.deployments[n].deleting && Placeable(w.deployments[n]) && !SelectionFails(w.deployments[n].spec)
    && !SettlesAt(w.deployments[n], w.devices[k])
  }

  lemma SwingingPass(w: World, n: Name, k: Name)
    requires Swinging(w, n, k)
    ensures var r := Clean(w, n);
      && Swinging(r, n, k)
      && (Working(w, n) ==> Working(r, n))
      && (Working(w, n) ==> (Labelled(r.devices[k], n) <==> !Labelled(w.devices[k], n)))
      && (Working(w, n) ==> (HasDeployment(r.devices[k], n) <==> Labelled(r.devices[k], n)))
  {
    var dep := w.deployments[n];
    ReconcileKeepsKeys(w, n, NO_FAULTS);
    LiveStep(w, n, NO_FAULTS);
    PlaceableIsKept(dep, Clean(w, n).deployments[n]);
    if Working(w, n) {
      CleanPass(w, n);
      Swings(dep, w.devices[k]);
    }
  }

  lemma {:induction false} StillSwinging(w: World, n: Name, k: Name, i: nat)
    requires Swinging(w, n, k) && Working(w, n)
    ensures Swinging(CleanTimes(w, n, i), n, k) && Working(CleanTimes(w, n, i), n)
  {
    if i > 0 {
      StillSwinging(w, n, k, i - 1);
      SwingingPass(CleanTimes(w, n, i - 1), n, k);
    }
  }

  /** Whether the device carries entry and label after so many passes. */
  ghost predicate CarriesAfter(w: World, n: Name, k: Name, i: nat)
    requires WellKeyed(w)
  {
    var r := CleanTimes(w, n, i);
    k in r.devices && HasDeployment(r.devices[k], n) && Labelled(r.devices[k], n)
  }

  ghost predicate BareAfter(w: World, n: Name, k: Name, i: nat)
    requires WellKeyed(w)
  {
    var r := CleanTimes(w, n, i);
    k in r.devices && !HasDeployment(r.devices[k], n) && !Labelled(r.devices[k], n)
  }

  lemma EveryOtherPass(w: World, n: Name, k: Name, i: nat)
    requires Swinging(w, n, k) && Working(w, n)
    ensures BareAfter(w, n, k, i) ==> CarriesAfter(w, n, k, i + 1)
    ensures CarriesAfter(w, n, k, i) ==> BareAfter(w, n, k, i + 1)
  {
    StillSwinging(w, n, k, i);
    SwingingPass(CleanTimes(w, n, i), n, k);
  }

  /** For ever: starting from a device without the deployment, every other pass puts it
      on, entry and label, and the next one takes both off. */
  lemma SwingsForEver(w: World, n: Name, k: Name, i: nat)
    requires Swinging(w, n, k) && Working(w, n) && BareAfter(w, n, k, 0)
    ensures BareAfter(w, n, k, 2 * i) && CarriesAfter(w, n, k, 2 * i + 1)
  {
    forall j: nat
      ensures BareAfter(w, n, k, j) ==> CarriesAfter(w, n, k, j + 1)
      ensures CarriesAfter(w, n, k, j) ==> BareAfter(w, n, k, j + 1)
    {
      EveryOtherPass(w, n, k, j);
    }
    Alternates(j requires j >= 0 => BareAfter(w, n, k, j), j requires j >= 0 => CarriesAfter(w, n, k, j), i);
  }

  lemma {:induction false} Alternates(off: int --> bool, on: int --> bool, i: nat)
    requires forall j: nat :: off.requires(j) && on.requires(j)
    requires off(0) && forall j: nat :: (off(j) ==> on(j + 1)) && (on(j) ==> off(j + 1))
    ensures off(2 * i) && on(2 * i + 1)
  {
    if i > 0 {
      Alternates(off, on, i - 1);
      assert on(2 * (i - 1) + 1) ==> off(2 * (i - 1) + 1 + 1);
    }
    assert off(2 * i) ==> on(2 * i + 1);
  }

  lemma OnePassMakesADifference(w: World, n: Name, k: Name)
    requires Swinging(w, n, k)
    ensures WellKeyed(Clean(w, n)) && Settle(Clean(w, n), n) != Settle(w, n)
  {
    var w1, w2, w3 := CleanTimes(w, n, 1), CleanTimes(w, n, 2), CleanTimes(w, n, 3);
    assert CleanTimes(w, n, 0) == w;
    SwingingPass(w, n, k);
    SwingingPass(w1, n, k);
    TwoPassesPrepare(w, n);
    SwingingPass(w2, n, k);
    SwingingPass(w3, n, k);
    CleanFirst(w, n, 3);
  }

  /** Convergence: any number of reconciles that met any failures, followed by passes
      without failures, end where the passes alone would have ended, with the same
      entries, labels and deployments. It holds of all runs if and only if no device
      makes the deployment swing. */
  lemma Convergence(w: World, n: Name)
    requires WellKeyed(w)
    ensures (forall run :: WellKeyed(FaultyRun(w, n, run)) && Settle(FaultyRun(w, n, run), n) == Settle(w, n))
       <==> Settles(w, n)
  {
    if Settles(w, n) {
      forall run
        ensures WellKeyed(FaultyRun(w, n, run)) && Settle(FaultyRun(w, n, run), n) == Settle(w, n)
      {
        RunIsForgotten(w, n, run);
      }
    } else {
      var k :| k in w.devices && !SettlesAt(w.deployments[n], w.devices[k]);
      OnePassMakesADifference(w, n, k);
      OnePassRun(w, n);
    }
  }

  /** Once a live deployment is placing, one pass without failures is enough. */
  lemma {:induction false} OnePassSettles(w: World, n: Name, run: seq<Answers>)
    requires WellKeyed(w) && Working(w, n) && !w.deployments[n].deleting && AllSettle(w.devices, w.deployments[n])
    ensures WellKeyed(FaultyRun(w, n, run)) && Clean(FaultyRun(w, n, run), n) == Clean(w, n) == Settle(w, n)
    decreases |run|
  {
    var w1 := Clean(w, n);
    CleanIsIdempotent(w, n);
    assert CleanTimes(w, n, 0) == w && CleanTimes(w, n, 1) == w1 && CleanTimes(w, n, 2) == w1;
    if run != [] {
      var r := Reconcile(w, n, run[0]).0;
      ReconcileKeepsKeys(w, n, run[0]);
      LiveStep(w, n, run[0]);
      FaultyPass(w, n, run[0]);
      CleanPass(w, n);
      CleanPass(r, n);
      OnePassSettles(r, n, run[1..]);
    }
  }

  // ------------------------------------------------- what the settled state is

  lemma SettledDevice(dep: EdgeDeployment, d: EdgeDevice)
    ensures var n, r := dep.name, Settled(dep, d);
      && (Selects(dep.spec, d) ==> HasDeployment(r, n) && HasLabelForDeployment(r, n))
      && (!Selects(dep.spec, d) ==> !Labelled(r, n) && (!HasDeployment(r, n) || r == d))
      && ((HasDeployment(r, n) <==> Selects(dep.spec, d)) <==> Traceable(dep, d))
  {
    WithoutAppended(d.deployments, Entry(dep.name, DEPLOYING, 0, 0));
  }

  /** A settled device carries entry and label if it is selected, and loses both if
      it was labelled. So entries are where they should be exactly on the devices
      that were traceable; everything of other deployments is untouched. */
  lemma SettledMeansSelected(w: World, n: Name, k: Name)
    requires WellKeyed(w) && Working(w, n) && !w.deployments[n].deleting && k in w.devices
    ensures k in Clean(w, n).devices
    ensures var dep, d, r := w.deployments[n], w.devices[k], Clean(w, n).devices[k];
      && (Selects(dep.spec, d) ==> HasDeployment(r, n) && HasLabelForDeployment(r, n))
      && (!Selects(dep.spec, d) ==> !Labelled(r, n) && (!HasDeployment(r, n) || r == d))
      && ((HasDeployment(r, n) <==> Selects(dep.spec, d)) <==> Traceable(dep, d))
      && Without(r.deployments, n) == Without(d.deployments, n)
      && r.labels - {WorkloadLabel(n)} == d.labels - {WorkloadLabel(n)}
  {
    CleanPass(w, n);
    SettledDevice(w.deployments[n], w.devices[k]);
    DeviceStep(w, n, NO_FAULTS, k);
    if Clean(w, n).devices[k] != w.devices[k] {
      var job :| Clean(w, n).devices[k] == Place(job, w.devices[k], ALL_ACCEPTED).device && job.name == n;
      PlaceFrame(job, w.devices[k], ALL_ACCEPTED);
    }
  }

  /** The order of the two writes keeps every device traceable under any failure. */
  lemma WriteOrderKeepsTraces(w: World, n: Name, a: Answers, k: Name)
    requires WellKeyed(w) && k in w.devices
    requires n in w.deployments
    requires Traceable(w.deployments[n], w.devices[k])
    ensures k in Reconcile(w, n, a).0.devices
    ensures Traceable(w.deployments[n], Reconcile(w, n, a).0.devices[k])
  {
    DeviceStep(w, n, a, k);
    var dep, d, p := w.deployments[n], w.devices[k], Reconcile(w, n, a).0.devices[k];
    if p != d {
      var replies := ReplyFor(a.faults, k);
      var job :| p == Place(job, d, replies).device && IsJobOf(dep, d, job);
      PlaceKeepsTraceable(dep, d, job, replies);
    }
  }

  function SelfExcluding(n: Name): EdgeDeployment {
    var spec := Spec("", Some(LabelSelector(map[], [Requirement(WorkloadLabel(n), DoesNotExist, [])])));
    EdgeDeployment(n, spec, Indexed(map[], spec), [DEVICE_REFERENCE_FINALIZER], false)
  }

  const BARE := EdgeDevice("edge-1", map[], [], false, [])

  /** A selector that asks for the absence of the deployment's own label: its reconciles
      place and remove the deployment for ever. */
  lemma SelfExclusionNeverSettles(n: Name, i: nat)
    requires '/' !in n
    ensures var w := World(map["edge-1" := BARE], map[n := SelfExcluding(n)]);
      && WellKeyed(w) && StageOf(w.deployments[n]).Placing?
      && BareAfter(w, n, "edge-1", 2 * i) && CarriesAfter(w, n, "edge-1", 2 * i + 1)
  {
    var dep := SelfExcluding(n);
    ValidWorkloadLabel(n);
    var w := World(map["edge-1" := BARE], map[n := dep]);
    var r := dep.spec.selector.value.matchExpressions[0];
    assert r in dep.spec.selector.value.matchExpressions && ExcludesLabel(r, WorkloadLabel(n));
    IndexedIsAFixedPoint(map[], dep.spec);
    assert BARE.labels - {WorkloadLabel(n)} == BARE.labels;
    SettlesUnlessExcluded(dep, BARE);
    assert CleanTimes(w, n, 0) == w;
    SwingsForEver(w, n, "edge-1", i);
  }
}
