/** What every step keeps, and so every run. */
module RunProofs {
  import opened Kube
  import opened Labels
  import opened Placement
  import opened SelectorIndex
  import opened DeploymentReconcile
  import opened DeviceReconcile
  import opened Settling
  import opened Convergence
  import opened Runs
  import Heartbeat
  import Text

  // ------------------------------------------------- deployments of a reconcile

  /** What a deployment looks like once the operator's finalizer is off. */
  function LetGo(dep: EdgeDeployment): EdgeDeployment {
    dep.(finalizers := WithoutFinalizer(dep.finalizers, DEVICE_REFERENCE_FINALIZER))
  }

  /** The finalizing pass takes the finalizer off exactly if it met no error. */
  lemma FinalizingStores(w: World, n: Name, a: Answers)
    requires WellKeyed(w) && n in w.deployments && StageOf(w.deployments[n]).Finalizing?
    requires !a.readFails && !a.labelledFails && !MatchingFails(w.deployments[n].spec, a)
    ensures var r := Reconcile(w, n, a).0;
      r.deployments == if Releases(w, n, a) then Store(w.deployments, LetGo(w.deployments[n])) else w.deployments
    ensures Reconcile(w, n, a).0.devices == PlaceAll(w.devices, Remove(n, {}), Targets(w, n), a.faults)
  {
    PatchMetadataOfFreshCopy(w.deployments[n], LetGo(w.deployments[n]));
  }

  /** A reconcile writes at most its own deployment, and takes the finalizer off only by
      releasing it. */
  lemma DeploymentStep(w: World, n: Name, a: Answers)
    requires WellKeyed(w)
    requires n in w.deployments ==> SoundDeployment(w.deployments[n])
    ensures var r := Reconcile(w, n, a).0;
      if Releases(w, n, a)
      then
        && r.deployments == Store(w.deployments, LetGo(w.deployments[n]))
        && r.devices == PlaceAll(w.devices, Remove(n, {}), Targets(w, n), a.faults)
      else
        || r.deployments == w.deployments
        || (n in w.deployments && n in r.deployments && r.deployments == w.deployments[n := r.deployments[n]]
            && r.deployments[n].name == n && DEVICE_REFERENCE_FINALIZER in r.deployments[n].finalizers
            && ValidKeys(r.deployments[n].labels))
  {
    if n in w.deployments && !a.readFails {
      var dep := w.deployments[n];
      var stage := StageOf(dep);
      if stage == NeedsFinalizer {
        PatchMetadataOfFreshCopy(dep, dep.(finalizers := [DEVICE_REFERENCE_FINALIZER]));
      } else if stage == NeedsLabels {
        PatchMetadataOfFreshCopy(dep, dep.(labels := Indexed(dep.labels, dep.spec)));
        assert Placeable(dep) ==> ValidKeys(Indexed(dep.labels, dep.spec));
      } else if stage == Finalizing && !a.labelledFails && !MatchingFails(dep.spec, a) {
        FinalizingStores(w, n, a);
      }
    }
  }

  // --------------------------------------------------- devices of a reconcile

  /** A body keeps a device sound, and touches no trace of another deployment. */
  lemma PlaceKeepsSound(job: Job, d: EdgeDevice, r: Replies)
    requires SoundDevice(d)
    ensures var p := Place(job, d, r).device;
      && SoundDevice(p)
      && (forall m :: m != job.name ==> (HasDeployment(p, m) <==> HasDeployment(d, m)))
      && (forall m :: m != job.name ==> (HasLabelForDeployment(p, m) <==> HasLabelForDeployment(d, m)))
  {
    var p := Place(job, d, r).device;
    PlaceFrame(job, d, r);
    PlaceStages(job, d, r);
    forall m
      ensures HasLabelForDeployment(p, m) ==> Labelled(p, m)
      ensures m != job.name ==> (HasDeployment(p, m) <==> HasDeployment(d, m))
      ensures m != job.name ==> (HasLabelForDeployment(p, m) <==> HasLabelForDeployment(d, m))
    {
      OtherNames(p, d, job.name, m);
      assert HasLabelForDeployment(d, m) ==> Labelled(d, m);
    }
  }

  lemma OtherNames(p: EdgeDevice, d: EdgeDevice, n: Name, m: Name)
    requires Names(p.deployments) - {n} == Names(d.deployments) - {n}
    requires p.labels - {WorkloadLabel(n)} == d.labels - {WorkloadLabel(n)}
    ensures m != n ==> (HasDeployment(p, m) <==> HasDeployment(d, m))
    ensures m != n ==> (HasLabelForDeployment(p, m) <==> HasLabelForDeployment(d, m))
    ensures m != n && HasLabelForDeployment(p, m) ==> p.labels[WorkloadLabel(m)] == d.labels[WorkloadLabel(m)]
  {
    if m != n {
      KeySpaces(m, n);
      assert m in Names(p.deployments) - {n} <==> m in Names(p.deployments);
      assert m in Names(d.deployments) - {n} <==> m in Names(d.deployments);
      assert WorkloadLabel(m) in p.labels - {WorkloadLabel(n)} <==> WorkloadLabel(m) in p.labels;
      assert WorkloadLabel(m) in d.labels - {WorkloadLabel(n)} <==> WorkloadLabel(m) in d.labels;
    }
  }

  /** An entry that a body leaves has a label: always if it removes, and if its two
      writes are whole if it adds. */
  lemma PlaceKeepsTrace(job: Job, d: EdgeDevice, r: Replies)
    requires SoundDevice(d)
    requires HasDeployment(d, job.name) ==> Labelled(d, job.name)
    requires job.Add? ==> Whole(r)
    ensures var p := Place(job, d, r).device;
      HasDeployment(p, job.name) ==> Labelled(p, job.name)
  {
    PlaceStages(job, d, r);
    PlaceKeepsSound(job, d, r);
    WithoutAppended(d.deployments, Entry(job.name, DEPLOYING, 0, 0));
  }

  /** The body adds an entry that is not there, or removes one that is. */
  predicate ChangesStatus(job: Job, d: EdgeDevice) {
    HasDeployment(d, job.name) <==> job.Remove?
  }

  /** A body tears entry and label apart exactly if it changed the status and then failed
      to get its label patch through. */
  lemma PlaceTears(job: Job, d: EdgeDevice, r: Replies)
    requires SoundDevice(d) && (job.Remove? ==> d.name !in job.spared)
    requires HasDeployment(d, job.name) <==> HasLabelForDeployment(d, job.name)
    ensures var p := Place(job, d, r).device;
      (HasDeployment(p, job.name) <==> HasLabelForDeployment(p, job.name)) <==> !ChangesStatus(job, d) || Whole(r)
  {
    PlaceStages(job, d, r);
    WithoutAppended(d.deployments, Entry(job.name, DEPLOYING, 0, 0));
    if d.labels == map[] {
      assert !HasLabelForDeployment(d, job.name);
    }
  }

  // ----------------------------------------------- invariants, step by step

  lemma ReconcileKeepsSound(w: World, n: Name, a: Answers)
    requires Sound(w)
    ensures Sound(Reconcile(w, n, a).0)
  {
    var r := Reconcile(w, n, a).0;
    ReconcileKeepsKeys(w, n, a);
    DeploymentStep(w, n, a);
    forall k | k in r.devices ensures SoundDevice(r.devices[k]) {
      DeviceStep(w, n, a, k);
      if r.devices[k] != w.devices[k] {
        var job :| r.devices[k] == Place(job, w.devices[k], ReplyFor(a.faults, k)).device;
        PlaceKeepsSound(job, w.devices[k], ReplyFor(a.faults, k));
      }
    }
  }

  /** What a label reconcile makes of its device. */
  lemma LabelsStep(w: World, k: Name, da: DeviceAnswers, order: seq<Name>)
    requires Sound(w) && Legal(w, ReconcileLabels(k, da, order))
    ensures var r := ReconcileDevice(w, k, da, order).0;
      r == w || (k in w.devices && r == w.(devices := w.devices[k := r.devices[k]]) &&
        var d := w.devices[k];
        var matched := Matched(w.deployments, d);
        && Updated(d, matched, order).Some? && Orders(order, Came(d, matched))
        && r.devices[k] == WriteUpdated(d, Updated(d, matched, order).value, da.replies).device)
  {
    if k in w.devices {
      ScanClosedForm(w.devices[k].deployments, Matched(w.deployments, w.devices[k]), w.devices[k].labels);
    }
  }

  /** The three states a label reconcile can leave its device in. */
  lemma WriteUpdatedStages(d: EdgeDevice, matched: set<Name>, order: seq<Name>, r: Replies)
    requires UniqueNames(d.deployments) && Orders(order, Came(d, matched)) && Updated(d, matched, order).Some?
    ensures var u := Updated(d, matched, order).value;
      var p := WriteUpdated(d, u, r).device;
      && (p == d || p == d.(deployments := u.deployments) || p == u)
      && (Whole(r) ==> p == d || p == u)
      && u == d.(deployments := u.deployments, labels := u.labels)
      && Names(u.deployments) == matched && UniqueNames(u.deployments)
  {
    UpdatedIsTheDifference(d, matched, order);
  }

  lemma UpdatedLabelsAreTrue(d: EdgeDevice, matched: set<Name>, order: seq<Name>, n: Name)
    requires SoundDevice(d) && Orders(order, Came(d, matched)) && Updated(d, matched, order).Some?
    ensures var u := Updated(d, matched, order).value;
      && (HasLabelForDeployment(u, n) ==> Labelled(u, n))
      && (n in matched && (HasDeployment(d, n) ==> Labelled(d, n)) ==> Labelled(u, n))
  {
    UpdatedIsTheDifference(d, matched, order);
    WorkloadLabelsKeys(Came(d, matched));
    WorkloadLabelsKeys(Went(d, matched));
    assert HasLabelForDeployment(d, n) ==> Labelled(d, n);
  }

  lemma UpdatedIsSound(d: EdgeDevice, matched: set<Name>, order: seq<Name>, r: Replies)
    requires SoundDevice(d) && Orders(order, Came(d, matched)) && Updated(d, matched, order).Some?
    ensures var p := WriteUpdated(d, Updated(d, matched, order).value, r).device;
      p.name == d.name && SoundDevice(p) && (Names(p.deployments) == matched || p == d)
  {
    WriteUpdatedStages(d, matched, order, r);
    var u := Updated(d, matched, order).value;
    var p := WriteUpdated(d, u, r).device;
    forall n ensures HasLabelForDeployment(p, n) ==> Labelled(p, n) {
      UpdatedLabelsAreTrue(d, matched, order, n);
      assert HasLabelForDeployment(d, n) ==> Labelled(d, n);
    }
  }

  lemma LabelsKeepSound(w: World, k: Name, da: DeviceAnswers, order: seq<Name>)
    requires Sound(w) && Legal(w, ReconcileLabels(k, da, order))
    ensures Sound(ReconcileDevice(w, k, da, order).0)
  {
    LabelsStep(w, k, da, order);
    if ReconcileDevice(w, k, da, order).0 != w {
      UpdatedIsSound(w.devices[k], Matched(w.deployments, w.devices[k]), order, da.replies);
    }
  }

  /** The remaining actions touch one device without its workload labels and names. */
  predicate SameTraces(p: EdgeDevice, d: EdgeDevice) {
    && p.name == d.name && Names(p.deployments) == Names(d.deployments)
    && forall l :: l in p.labels.Keys + d.labels.Keys && IsWorkloadLabel(l) ==> AgreeOn({l}, p.labels, d.labels)
  }

  lemma SameTracesSame(p: EdgeDevice, d: EdgeDevice, n: Name)
    requires SameTraces(p, d)
    ensures HasDeployment(p, n) <==> HasDeployment(d, n)
    ensures HasLabelForDeployment(p, n) <==> HasLabelForDeployment(d, n)
    ensures Labelled(p, n) <==> Labelled(d, n)
  {
  }

  lemma NewLabelsLeaveTraces(d: EdgeDevice, labels: LabelMap)
    requires forall l :: IsWorkloadLabel(l) ==> AgreeOn({l}, labels, d.labels)
    ensures SameTraces(d.(labels := labels), d)
  {
  }

  lemma HardwareLeavesTraces(d: EdgeDevice, hardware: Kube.Option<Text.HardwareInfo>)
    ensures SameTraces(d.(labels := d.labels + Text.MapLabels(hardware)), d)
  {
    var added := Text.MapLabels(hardware);
    forall l | l in added ensures !IsWorkloadLabel(l) {
      Text.HardwareKeysArePlain(l);
    }
    forall l | IsWorkloadLabel(l) ensures AgreeOn({l}, d.labels + added, d.labels) {
      assert l !in added;
    }
    NewLabelsLeaveTraces(d, d.labels + added);
  }

  lemma HeartbeatLeavesTraces(d: EdgeDevice, workloads: seq<Heartbeat.WorkloadStatus>, now: nat, entries: seq<Entry>)
    requires Heartbeat.Enumerates(entries, Heartbeat.ReportAll(Heartbeat.ByName(d.deployments), workloads, now))
    ensures SameTraces(d.(deployments := entries), d) && UniqueNames(entries)
  {
  }

  /** Everything but the two reconciles leaves the traces of every device alone, or
      adds a device without any. */
  lemma OtherActions(w: World, x: Action, k: Name)
    requires Sound(w) && Legal(w, x) && !x.ReconcileDeployment? && !x.ReconcileLabels?
    requires k in Next(w, x).devices
    ensures var p := Next(w, x).devices[k];
      && p.name == k && k != "" && UniqueNames(p.deployments)
      && (k in w.devices ==> SameTraces(p, w.devices[k]))
      && (k !in w.devices ==> p.labels == map[] && p.deployments == [])
  {
    match x
    case HeartbeatStatus(j, workloads, now, entries) => HeartbeatLeavesTraces(w.devices[j], workloads, now, entries);
    case HardwareLabels(j, hardware) => HardwareLeavesTraces(w.devices[j], hardware);
    case EditDeviceLabels(j, labels) => NewLabelsLeaveTraces(w.devices[j], labels);
    case _ =>
  }

  lemma OtherDeployments(w: World, x: Action)
    requires Sound(w) && Legal(w, x) && !x.ReconcileDeployment? && !x.ReconcileLabels?
    ensures var r := Next(w, x).deployments;
      && (forall n :: n in r ==> r[n].name == n && SoundDeployment(r[n]))
      && (forall n :: n in w.deployments && DEVICE_REFERENCE_FINALIZER in w.deployments[n].finalizers ==>
            n in r && DEVICE_REFERENCE_FINALIZER in r[n].finalizers)
  {
    match x
    case EditDeployment(n, spec, labels) =>
      if l :| l in labels && IsSelectorLabel(l) {
        assert AgreeOn({l}, labels, w.deployments[n].labels);
        assert l in {l};
      }
    case _ =>
  }

  lemma SoundNext(w: World, x: Action)
    requires Sound(w) && Legal(w, x)
    ensures Sound(Next(w, x))
  {
    match x
    case ReconcileDeployment(n, a) => ReconcileKeepsSound(w, n, a);
    case ReconcileLabels(k, da, order) => LabelsKeepSound(w, k, da, order);
    case _ => OtherActionsKeepSound(w, x);
  }

  lemma OtherActionsKeepSound(w: World, x: Action)
    requires Sound(w) && Legal(w, x) && !x.ReconcileDeployment? && !x.ReconcileLabels?
    ensures Sound(Next(w, x))
  {
    OtherDeployments(w, x);
    var r := Next(w, x);
    forall k | k in r.devices
      ensures k != "" && r.devices[k].name == k && SoundDevice(r.devices[k])
    {
      OtherActions(w, x, k);
      forall n ensures HasLabelForDeployment(r.devices[k], n) ==> Labelled(r.devices[k], n) {
        if k in w.devices {
          SameTracesSame(r.devices[k], w.devices[k], n);
        }
      }
    }
  }

  // ----------------------------------------------------------- no dangling names

  /** A reconcile leaves every guard in place but the one it releases. */
  lemma ReconcileKeepsGuards(w: World, n: Name, a: Answers, m: Name)
    requires Sound(w) && Guarded(w, m)
    ensures Guarded(Reconcile(w, n, a).0, m) <==> !(m == n && Releases(w, n, a))
  {
    DeploymentStep(w, n, a);
  }

  /** A reconcile that changes a device works for a guarded deployment. */
  lemma ChangedMeansGuarded(w: World, n: Name, a: Answers, k: Name)
    requires WellKeyed(w) && k in w.devices && k in Reconcile(w, n, a).0.devices
    requires Reconcile(w, n, a).0.devices[k] != w.devices[k]
    ensures Guarded(w, n)
  {
  }

  /** Names that a reconcile leaves in a status were there, or are its own. */
  lemma NamesOfReconcile(w: World, n: Name, a: Answers, k: Name, m: Name)
    requires Sound(w) && k in w.devices && k in Reconcile(w, n, a).0.devices
    requires HasDeployment(Reconcile(w, n, a).0.devices[k], m) && !HasDeployment(w.devices[k], m)
    ensures m == n && Guarded(w, n)
  {
    DeviceStep(w, n, a, k);
    var job :| Reconcile(w, n, a).0.devices[k] == Place(job, w.devices[k], ReplyFor(a.faults, k)).device
      && IsJobOf(w.deployments[n], w.devices[k], job);
    PlaceKeepsSound(job, w.devices[k], ReplyFor(a.faults, k));
    ChangedMeansGuarded(w, n, a, k);
  }

  /** The reconcile that releases a deployment takes every label of it off, and leaves
      exactly the entries that neither a label nor the selector leads to. */
  lemma ReleaseLeavesUntraceable(w: World, n: Name, a: Answers, k: Name)
    requires Sound(w) && Releases(w, n, a) && k in w.devices
    ensures k in Reconcile(w, n, a).0.devices
    ensures var p := Reconcile(w, n, a).0.devices[k];
      && (HasDeployment(p, n) <==> !Traceable(w.deployments[n], w.devices[k]))
      && !HasLabelForDeployment(p, n)
  {
    var dep, d := w.deployments[n], w.devices[k];
    DeploymentStep(w, n, a);
    assert HasLabelForDeployment(d, n) ==> Labelled(d, n);
    if Labelled(d, n) || Selects(dep.spec, d) {
      assert k in Targets(w, n);
      PlaceAchieves(Remove(n, {}), d, ReplyFor(a.faults, k));
    }
  }

  lemma ReconcileBreaks(w: World, n: Name, a: Answers)
    requires AllGuarded(w)
    ensures AllGuarded(Reconcile(w, n, a).0) <==> !Breaks(w, ReconcileDeployment(n, a))
  {
    var r := Reconcile(w, n, a).0;
    ReconcileKeepsSound(w, n, a);
    DeviceStep(w, n, a, "");
    if Breaks(w, ReconcileDeployment(n, a)) {
      var k :| k in w.devices && !Traceable(w.deployments[n], w.devices[k]);
      ReleaseLeavesUntraceable(w, n, a, k);
      ReconcileKeepsGuards(w, n, a, n);
      assert !NoDangling(r, r.devices[k]);
    } else {
      forall k, m | k in r.devices && HasDeployment(r.devices[k], m) ensures Guarded(r, m) {
        assert NoDangling(w, w.devices[k]);
        if !HasDeployment(w.devices[k], m) {
          NamesOfReconcile(w, n, a, k, m);
        }
        ReconcileKeepsGuards(w, n, a, m);
        if m == n && Releases(w, n, a) {
          ReleaseLeavesUntraceable(w, n, a, k);
        }
      }
    }
  }

  /** The index leads to deployments that are guarded or released. */
  lemma MatchedAreGuarded(w: World, d: EdgeDevice, n: Name)
    requires Sound(w) && n in Matched(w.deployments, d)
    ensures Guarded(w, n) <==> !StageOf(w.deployments[n]).Released?
  {
    var l :| l in Lookups(d) && ListedUnder(w.deployments[n].labels, l, Lookups(d)[l]);
    assert IsSelectorLabel(l);
    assert SoundDeployment(w.deployments[n]);
  }

  /** The names after a label reconcile: the matched ones if it got so far. */
  lemma NamesOfLabels(w: World, k: Name, da: DeviceAnswers, order: seq<Name>)
    requires Sound(w) && Legal(w, ReconcileLabels(k, da, order)) && k in w.devices
    ensures var r := ReconcileDevice(w, k, da, order).0;
      var d := w.devices[k];
      && r.devices.Keys == w.devices.Keys && r.deployments == w.deployments
      && (forall j :: j in w.devices && j != k ==> r.devices[j] == w.devices[j])
      && Names(r.devices[k].deployments) ==
           if !d.deleting && !da.readFails && !da.listFails && !SelectionAborts(w.deployments, d)
              && da.replies.status != Rejected
           then Matched(w.deployments, d) else Names(d.deployments)
  {
    var d := w.devices[k];
    var matched := Matched(w.deployments, d);
    LabelsStep(w, k, da, order);
    ScanClosedForm(d.deployments, matched, d.labels);
    UpdatedIsTheDifference(d, matched, order);
    if Updated(d, matched, order).Some? {
      NamesOfWrite(d, Updated(d, matched, order).value, da.replies);
    }
  }

  lemma NamesOfWrite(d: EdgeDevice, u: EdgeDevice, r: Replies)
    requires u == d.(deployments := u.deployments, labels := u.labels)
    ensures WriteUpdated(d, u, r).device.deployments == if r.status == Rejected then d.deployments else u.deployments
  {
  }

  lemma LabelsBreak(w: World, k: Name, da: DeviceAnswers, order: seq<Name>)
    requires AllGuarded(w) && Legal(w, ReconcileLabels(k, da, order))
    ensures AllGuarded(ReconcileDevice(w, k, da, order).0) <==> !PlacesReleased(w, k, da)
  {
    var r := ReconcileDevice(w, k, da, order).0;
    LabelsKeepSound(w, k, da, order);
    if k in w.devices {
      NamesOfLabels(w, k, da, order);
      if PlacesReleased(w, k, da) {
        var n :| n in Matched(w.deployments, w.devices[k]) && StageOf(w.deployments[n]).Released?;
        MatchedAreGuarded(w, w.devices[k], n);
        assert HasDeployment(r.devices[k], n) && !Guarded(r, n);
      } else {
        forall j, m | j in r.devices && HasDeployment(r.devices[j], m) ensures Guarded(r, m) {
          assert NoDangling(w, w.devices[j]);
          if !HasDeployment(w.devices[j], m) {
            MatchedAreGuarded(w, w.devices[k], m);
          }
        }
      }
    }
  }

  lemma OtherActionsKeepGuarded(w: World, x: Action)
    requires AllGuarded(w) && Legal(w, x) && !x.ReconcileDeployment? && !x.ReconcileLabels?
    ensures AllGuarded(Next(w, x))
  {
    OtherActionsKeepSound(w, x);
    OtherDeployments(w, x);
    var r := Next(w, x);
    forall k, m | k in r.devices && HasDeployment(r.devices[k], m) ensures Guarded(r, m) {
      OtherActions(w, x, k);
      SameTracesSame(r.devices[k], w.devices[k], m);
      assert NoDangling(w, w.devices[k]);
    }
  }

  /** The exact condition, step by step: a step makes some device refer to a deployment
      that nobody guards if and only if it releases a deployment that some device cannot
      be traced to, or places a released one. */
  lemma GuardedNext(w: World, x: Action)
    requires AllGuarded(w) && Legal(w, x)
    ensures AllGuarded(Next(w, x)) <==> !Breaks(w, x)
  {
    match x
    case ReconcileDeployment(n, a) => ReconcileBreaks(w, n, a);
    case ReconcileLabels(k, da, order) => LabelsBreak(w, k, da, order);
    case _ => OtherActionsKeepGuarded(w, x);
  }

  // ---------------------------------------------------------- without lost labels

  lemma AnchoredIsTraceable(w: World, n: Name, a: Answers)
    requires Anchored(w)
    ensures !Breaks(w, ReconcileDeployment(n, a))
  {
    if n in w.deployments {
      forall k | k in w.devices ensures Traceable(w.deployments[n], w.devices[k]) {
        assert EntriesLabelled(w.devices[k]);
      }
    }
  }

  lemma PlaceKeepsEntriesLabelled(dep: EdgeDeployment, d: EdgeDevice, job: Job, r: Replies)
    requires SoundDevice(d) && EntriesLabelled(d) && IsJobOf(dep, d, job)
    requires !dep.deleting && Selects(dep.spec, d) ==> Whole(r)
    ensures EntriesLabelled(Place(job, d, r).device)
  {
    var p := Place(job, d, r).device;
    PlaceKeepsSound(job, d, r);
    PlaceKeepsTrace(job, d, r);
    forall m | HasDeployment(p, m) ensures Labelled(p, m) {
      if m != job.name {
        assert HasDeployment(d, m) && Labelled(d, m);
        assert HasLabelForDeployment(p, m) ==> Labelled(p, m);
      }
    }
  }

  lemma ReconcileKeepsAnchors(w: World, n: Name, a: Answers)
    requires Anchored(w) && LabelsArrive(w, ReconcileDeployment(n, a))
    ensures Anchored(Reconcile(w, n, a).0)
  {
    var r := Reconcile(w, n, a).0;
    AnchoredIsTraceable(w, n, a);
    ReconcileBreaks(w, n, a);
    forall k | k in r.devices ensures EntriesLabelled(r.devices[k]) {
      DeviceStep(w, n, a, k);
      var d := w.devices[k];
      assert EntriesLabelled(d);
      if r.devices[k] != d {
        var job :| r.devices[k] == Place(job, d, ReplyFor(a.faults, k)).device && IsJobOf(w.deployments[n], d, job);
        PlaceKeepsEntriesLabelled(w.deployments[n], d, job, ReplyFor(a.faults, k));
      }
    }
  }

  lemma LabelsKeepAnchors(w: World, k: Name, da: DeviceAnswers, order: seq<Name>)
    requires Anchored(w) && Legal(w, ReconcileLabels(k, da, order)) && Whole(da.replies)
    requires !PlacesReleased(w, k, da)
    ensures Anchored(ReconcileDevice(w, k, da, order).0)
  {
    var r := ReconcileDevice(w, k, da, order).0;
    LabelsBreak(w, k, da, order);
    LabelsStep(w, k, da, order);
    forall j | j in r.devices ensures EntriesLabelled(r.devices[j]) {
      assert EntriesLabelled(w.devices[j]);
      if r.devices[j] != w.devices[j] {
        var d := w.devices[k];
        var matched := Matched(w.deployments, d);
        WriteUpdatedStages(d, matched, order, da.replies);
        forall m | HasDeployment(r.devices[j], m) ensures Labelled(r.devices[j], m) {
          assert HasDeployment(d, m) ==> Labelled(d, m);
          UpdatedLabelsAreTrue(d, matched, order, m);
        }
      }
    }
  }

  lemma OtherActionsKeepAnchors(w: World, x: Action)
    requires Anchored(w) && Legal(w, x) && !x.ReconcileDeployment? && !x.ReconcileLabels?
    ensures Anchored(Next(w, x))
  {
    OtherActionsKeepGuarded(w, x);
    var r := Next(w, x);
    forall k, m | k in r.devices && HasDeployment(r.devices[k], m) ensures Labelled(r.devices[k], m) {
      OtherActions(w, x, k);
      SameTracesSame(r.devices[k], w.devices[k], m);
      assert EntriesLabelled(w.devices[k]);
    }
  }

  /** A sufficient condition: the labels to be added arrive, and no released deployment
      is placed. */
  lemma AnchoredNext(w: World, x: Action)
    requires Anchored(w) && Legal(w, x) && LabelsArrive(w, x)
    requires x.ReconcileLabels? ==> !PlacesReleased(w, x.k, x.da)
    ensures Anchored(Next(w, x))
  {
    match x
    case ReconcileDeployment(n, a) => ReconcileKeepsAnchors(w, n, a);
    case ReconcileLabels(k, da, order) => LabelsKeepAnchors(w, k, da, order);
    case _ => OtherActionsKeepAnchors(w, x);
  }

  // ------------------------------------------------------ labels agree with status

  /** The body that a reconcile runs on a device. */
  lemma ReconcileByBodies(w: World, n: Name, a: Answers, k: Name)
    requires WellKeyed(w) && k in w.devices
    ensures k in Reconcile(w, n, a).0.devices
    ensures Reconcile(w, n, a).0.devices[k] ==
      match BodyOf(w, n, a, k)
      case None => w.devices[k]
      case Some(job) => Place(job, w.devices[k], ReplyFor(a.faults, k)).device
    ensures BodyOf(w, n, a, k).Some? ==>
      var job := BodyOf(w, n, a, k).value;
      job.name == n && (job.Remove? ==> w.devices[k].name !in job.spared)
  {
    if ReachesDevices(w, n, a) && !w.deployments[n].deleting {
      PassByBodies(w, n, a, k);
    }
  }

  lemma PassByBodies(w: World, n: Name, a: Answers, k: Name)
    requires WellKeyed(w) && k in w.devices && ReachesDevices(w, n, a) && !w.deployments[n].deleting
    ensures PlacingPass(w, w.deployments[n], a.faults).0.devices.Keys == w.devices.Keys
    ensures PlacingPass(w, w.deployments[n], a.faults).0.devices[k] ==
      match BodyOf(w, n, a, k)
      case None => w.devices[k]
      case Some(job) => Place(job, w.devices[k], ReplyFor(a.faults, k)).device
  {
    var d, replies := w.devices[k], ReplyFor(a.faults, k);
    if Selects(w.deployments[n].spec, d) {
      PlaceFrame(Add(n), d, replies);
    }
  }

  lemma ReconcileTears(w: World, n: Name, a: Answers)
    requires InStepWorld(w)
    ensures InStepWorld(Reconcile(w, n, a).0) <==> !Tears(w, ReconcileDeployment(n, a))
  {
    var r := Reconcile(w, n, a).0;
    ReconcileKeepsSound(w, n, a);
    DeviceStep(w, n, a, "");
    forall k | k in w.devices ensures InStep(r.devices[k]) <==> !BodyTears(w, n, a, k) {
      BodyTearsDevice(w, n, a, k);
    }
  }

  lemma BodyTearsDevice(w: World, n: Name, a: Answers, k: Name)
    requires InStepWorld(w) && k in w.devices
    ensures k in Reconcile(w, n, a).0.devices
    ensures InStep(Reconcile(w, n, a).0.devices[k]) <==> !BodyTears(w, n, a, k)
  {
    var d, p := w.devices[k], Reconcile(w, n, a).0.devices[k];
    ReconcileByBodies(w, n, a, k);
    if BodyOf(w, n, a, k).Some? {
      var job, replies := BodyOf(w, n, a, k).value, ReplyFor(a.faults, k);
      assert HasDeployment(d, n) <==> HasLabelForDeployment(d, n);
      PlaceKeepsSound(job, d, replies);
      PlaceTears(job, d, replies);
      if !BodyTears(w, n, a, k) {
        forall m
          ensures (HasDeployment(p, m) <==> HasLabelForDeployment(p, m)) &&
                  (HasLabelForDeployment(p, m) ==> Labelled(p, m))
        {
          assert HasDeployment(d, m) <==> HasLabelForDeployment(d, m);
        }
      }
    }
  }

  /** The exact condition, step by step: a step leaves labels and status in agreement if
      and only if no body that ran changed the status of a device and then failed to get
      its label patch through. */
  lemma InStepNext(w: World, x: Action)
    requires InStepWorld(w) && Legal(w, x)
    ensures InStepWorld(Next(w, x)) <==> !Tears(w, x)
  {
    match x
    case ReconcileDeployment(n, a) => ReconcileTears(w, n, a);
    case ReconcileLabels(k, da, order) => LabelsTear(w, k, da, order);
    case _ => OtherActionsKeepInStep(w, x);
  }

  lemma WholeWritesDoNotTear(w: World, x: Action)
    requires WritesAreWhole(w, x)
    ensures !Tears(w, x)
  {
  }

  lemma LabelsTear(w: World, k: Name, da: DeviceAnswers, order: seq<Name>)
    requires InStepWorld(w) && Legal(w, ReconcileLabels(k, da, order))
    ensures InStepWorld(ReconcileDevice(w, k, da, order).0) <==> !LabelsTorn(w, k, da)
  {
    var r := ReconcileDevice(w, k, da, order).0;
    LabelsKeepSound(w, k, da, order);
    LabelsStep(w, k, da, order);
    if k in w.devices {
      var d := w.devices[k];
      var matched := Matched(w.deployments, d);
      ScanClosedForm(d.deployments, matched, d.labels);
      UpdatedIsTheDifference(d, matched, order);
      if r != w && da.replies.status != Rejected {
        WrittenHalf(d, matched, order, da.replies);
        assert InStep(r.devices[k]) <==> Whole(da.replies);
      }
    }
  }

  /** Once the status is written, labels follow it only if both writes are whole. */
  lemma WrittenHalf(d: EdgeDevice, matched: set<Name>, order: seq<Name>, r: Replies)
    requires UniqueNames(d.deployments) && InStep(d) && Names(d.deployments) != matched
    requires Orders(order, Came(d, matched)) && r.status != Rejected
    ensures Updated(d, matched, order).Some?
    ensures var p := WriteUpdated(d, Updated(d, matched, order).value, r).device;
      p != d && (InStep(p) <==> Whole(r))
  {
    UpdatedIsTheDifference(d, matched, order);
    UpdateKeepsInStep(d, matched, order);
    var p := WriteUpdated(d, Updated(d, matched, order).value, r).device;
    if !Whole(r) {
      assert p.labels == d.labels && Names(p.deployments) == matched;
      var n := DifferentName(matched, Names(d.deployments));
      assert HasDeployment(d, n) <==> HasLabelForDeployment(d, n);
      assert HasDeployment(p, n) <==> !HasLabelForDeployment(p, n);
    }
  }

  lemma DifferentName(a: set<Name>, b: set<Name>) returns (n: Name)
    requires a != b
    ensures n in a <==> n !in b
  {
    if a <= b {
      n :| n in b && n !in a;
    } else {
      n :| n in a && n !in b;
    }
  }

  lemma OtherActionsKeepInStep(w: World, x: Action)
    requires InStepWorld(w) && Legal(w, x) && !x.ReconcileDeployment? && !x.ReconcileLabels?
    ensures InStepWorld(Next(w, x))
  {
    OtherActionsKeepSound(w, x);
    var r := Next(w, x);
    forall k | k in r.devices ensures InStep(r.devices[k]) {
      OtherActions(w, x, k);
      forall m
        ensures (HasDeployment(r.devices[k], m) <==> HasLabelForDeployment(r.devices[k], m)) &&
                (HasLabelForDeployment(r.devices[k], m) ==> Labelled(r.devices[k], m))
      {
        if k in w.devices {
          SameTracesSame(r.devices[k], w.devices[k], m);
          assert HasDeployment(w.devices[k], m) <==> HasLabelForDeployment(w.devices[k], m);
        }
      }
    }
  }
}
