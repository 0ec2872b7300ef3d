/** What the two reconciles answer: when they fail and ask to be called again, and what
    holds when they do not. */
module Results {
  import opened Kube
  import opened Labels
  import opened Placement
  import opened SelectorIndex
  import opened DeploymentReconcile
  import opened DeviceReconcile
  import opened Settling
  import opened Convergence
  import opened Runs
  import opened RunProofs

  // --------------------------------------------------------- deployment reconciles

  /** Placing sends what is missing; some of it is not accepted. */
  predicate AddFails(d: EdgeDevice, n: Name, r: Replies) {
    || (!HasDeployment(d, n) && r.status != Accepted)
    || (!HasLabelForDeployment(d, n) && r.labels != Accepted)
  }

  /** Removing always sends the status, and the labels if there are any. */
  predicate RemoveFails(d: EdgeDevice, r: Replies) {
    r.status != Accepted || (d.labels != map[] && r.labels != Accepted)
  }

  lemma BodiesFail(d: EdgeDevice, n: Name, spared: set<Name>, r: Replies)
    ensures Place(Add(n), d, r).ok <==> !AddFails(d, n, r)
    ensures d.name !in spared ==> (Place(Remove(n, spared), d, r).ok <==> !RemoveFails(d, r))
  {
  }

  /** The devices cannot be listed: a call fails, or the selector is not valid. */
  predicate ListingFails(spec: Spec, a: Answers) {
    || a.labelledFails
    || (spec.device != "" && a.matchingFails)
    || (spec.device == "" && spec.selector.Some? && (a.matchingFails || !ValidSelector(spec.selector.value)))
  }

  /** Some call sent for a device is not accepted. */
  predicate SomeDeviceFails(w: World, n: Name, a: Answers)
    requires n in w.deployments
  {
    var dep := w.deployments[n];
    exists k :: k in w.devices && DeviceFails(dep, w.devices[k], ReplyFor(a.faults, k))
  }

  predicate DeviceFails(dep: EdgeDeployment, d: EdgeDevice, r: Replies) {
    if dep.deleting then
      && DEVICE_REFERENCE_FINALIZER in dep.finalizers
      && (Selects(dep.spec, d) || Labelled(d, dep.name)) && RemoveFails(d, r)
    else if Selects(dep.spec, d) then AddFails(d, dep.name, r)
    else Labelled(d, dep.name) && RemoveFails(d, r)
  }

  lemma PlacingFails(w: World, n: Name, a: Answers)
    requires WellKeyed(w) && n in w.deployments && !w.deployments[n].deleting
    ensures PlacingPass(w, w.deployments[n], a.faults).1 == if SomeDeviceFails(w, n, a) then FAILED else DONE
  {
    var dep := w.deployments[n];
    var matching, labelled := MatchingNames(w.devices, dep.spec), LabelledNames(w.devices, n);
    var added := PlaceAll(w.devices, Add(n), matching, a.faults);
    forall k | k in w.devices
      ensures k in matching ==> (Place(Add(n), w.devices[k], ReplyFor(a.faults, k)).ok <==>
                                 !DeviceFails(dep, w.devices[k], ReplyFor(a.faults, k)))
      ensures k in labelled ==> (Place(Remove(n, matching), added[k], ReplyFor(a.faults, k)).ok <==>
                                 k in matching || !DeviceFails(dep, w.devices[k], ReplyFor(a.faults, k)))
      ensures k !in matching && k !in labelled ==> !DeviceFails(dep, w.devices[k], ReplyFor(a.faults, k))
    {
      BodiesFail(w.devices[k], n, matching, ReplyFor(a.faults, k));
      PlaceFrame(Add(n), w.devices[k], ReplyFor(a.faults, k));
    }
  }

  lemma FinalizingFails(w: World, n: Name, a: Answers)
    requires WellKeyed(w) && n in w.deployments && StageOf(w.deployments[n]).Finalizing?
    ensures FinalizingPass(w, w.deployments[n], a).1 == if SomeDeviceFails(w, n, a) then FAILED else DONE
  {
    forall k | k in w.devices
      ensures k in Targets(w, n) ==> (Place(Remove(n, {}), w.devices[k], ReplyFor(a.faults, k)).ok <==>
                                      !DeviceFails(w.deployments[n], w.devices[k], ReplyFor(a.faults, k)))
      ensures k !in Targets(w, n) ==> !DeviceFails(w.deployments[n], w.devices[k], ReplyFor(a.faults, k))
    {
      BodiesFail(w.devices[k], n, {}, ReplyFor(a.faults, k));
    }
  }

  /** The patch that prepares a live deployment is not accepted. */
  predicate PreparingFails(dep: EdgeDeployment, a: Answers) {
    || a.self != Accepted
    || (DEVICE_REFERENCE_FINALIZER in dep.finalizers && AddsInvalidKey(dep.labels, Indexed(dep.labels, dep.spec)))
  }

  predicate NeedsPreparing(dep: EdgeDeployment) {
    !dep.deleting &&
    (DEVICE_REFERENCE_FINALIZER !in dep.finalizers || Indexed(dep.labels, dep.spec) != dep.labels)
  }

  /** A reconcile fails exactly if a read, a listing or some call that it sends is not
      accepted. The one exception is the finalizer patch of a deletion, of which nobody
      learns. */
  lemma ReconcileFailsIff(w: World, n: Name, a: Answers)
    requires WellKeyed(w)
    ensures Reconcile(w, n, a).1.failed <==>
      || a.readFails
      || (n in w.deployments && NeedsPreparing(w.deployments[n]) && PreparingFails(w.deployments[n], a))
      || (n in w.deployments && !NeedsPreparing(w.deployments[n]) &&
            (ListingFails(w.deployments[n].spec, a) || SomeDeviceFails(w, n, a)))
  {
    if n in w.deployments && !a.readFails {
      var dep := w.deployments[n];
      if StageOf(dep).Placing? {
        PlacingFails(w, n, a);
      } else if StageOf(dep).Finalizing? {
        FinalizingFails(w, n, a);
      }
    }
  }

  /** It asks to be called again exactly if it failed or has just added the finalizer. */
  lemma RequeuesIff(w: World, n: Name, a: Answers)
    requires WellKeyed(w)
    ensures var r := Reconcile(w, n, a).1;
      r.requeue <==> r.failed || (n in w.deployments && !w.deployments[n].deleting
                                  && DEVICE_REFERENCE_FINALIZER !in w.deployments[n].finalizers)
  {
    if n in w.deployments && !a.readFails {
      if StageOf(w.deployments[n]).Placing? {
        PlacingFails(w, n, a);
      } else if StageOf(w.deployments[n]).Finalizing? {
        FinalizingFails(w, n, a);
      }
    }
  }

  /** The preparing steps: the operator's finalizer replaces all others, the labels become
      up to date, and nothing else changes. */
  lemma Preparing(w: World, n: Name, a: Answers)
    requires WellKeyed(w) && n in w.deployments && NeedsPreparing(w.deployments[n]) && !a.readFails
    ensures var dep, r := w.deployments[n], Reconcile(w, n, a).0;
      && (a.self == Rejected ==> r == w)
      && (a.self != Rejected && DEVICE_REFERENCE_FINALIZER !in dep.finalizers ==>
            r == w.(deployments := w.deployments[n := dep.(finalizers := [DEVICE_REFERENCE_FINALIZER])]))
      && (a.self != Rejected && DEVICE_REFERENCE_FINALIZER in dep.finalizers ==>
            r == if PreparingFails(dep, a.(self := Accepted)) then w
                 else w.(deployments := w.deployments[n := dep.(labels := Indexed(dep.labels, dep.spec))]))
  {
    var dep := w.deployments[n];
    PatchMetadataOfFreshCopy(dep, dep.(finalizers := [DEVICE_REFERENCE_FINALIZER]));
    PatchMetadataOfFreshCopy(dep, dep.(labels := Indexed(dep.labels, dep.spec)));
  }

  /** A placing reconcile that does not fail leaves every selected device with entry and
      label, every labelled one that is not selected with neither, and touches no other. */
  lemma NoFailureMeansPlaced(w: World, n: Name, a: Answers, k: Name)
    requires WellKeyed(w) && n in w.deployments && StageOf(w.deployments[n]).Placing? && k in w.devices
    requires !Reconcile(w, n, a).1.failed
    ensures k in Reconcile(w, n, a).0.devices
    ensures var spec, d, p := w.deployments[n].spec, w.devices[k], Reconcile(w, n, a).0.devices[k];
      && (Selects(spec, d) ==> HasDeployment(p, n) && HasLabelForDeployment(p, n))
      && (!Selects(spec, d) && Labelled(d, n) ==> !HasDeployment(p, n) && !HasLabelForDeployment(p, n))
      && (!Selects(spec, d) && !Labelled(d, n) ==> p == d)
  {
    var dep, d, replies := w.deployments[n], w.devices[k], ReplyFor(a.faults, k);
    ReconcileFailsIff(w, n, a);
    assert ReachesDevices(w, n, a) && !DeviceFails(dep, d, replies);
    AddingGoesThrough(w, n, a);
    ReconcileByBodies(w, n, a, k);
    BodiesFail(d, n, MatchingNames(w.devices, dep.spec), replies);
    if Selects(dep.spec, d) {
      PlaceAchieves(Add(n), d, replies);
    } else if Labelled(d, n) {
      PlaceAchieves(Remove(n, MatchingNames(w.devices, dep.spec)), d, replies);
    }
  }

  lemma AddingGoesThrough(w: World, n: Name, a: Answers)
    requires WellKeyed(w) && n in w.deployments && !w.deployments[n].deleting && !SomeDeviceFails(w, n, a)
    ensures PlaceAllOk(w.devices, Add(n), MatchingNames(w.devices, w.deployments[n].spec), a.faults)
  {
    forall k | k in w.devices && Selects(w.deployments[n].spec, w.devices[k])
      ensures Place(Add(n), w.devices[k], ReplyFor(a.faults, k)).ok
    {
      BodiesFail(w.devices[k], n, {}, ReplyFor(a.faults, k));
    }
  }

  // -------------------------------------------------------------- label reconciles

  /** A deployment that the device lists but cannot match. */
  predicate CannotMatch(dep: EdgeDeployment, d: EdgeDevice) {
    && Listed(dep.labels, d) && dep.spec.device != d.name
    && dep.spec.selector.Some? && !ValidSelector(dep.spec.selector.value)
  }

  /** A label reconcile fails, and asks to be called again, exactly if its read fails or, on
      a device that is not under deletion, a lookup is invalid or fails, a listed selector is
      invalid, or the names change and one of the two patches is not accepted. */
  lemma LabelReconcileFailsIff(w: World, k: Name, a: DeviceAnswers, order: seq<Name>)
    requires Sound(w) && Legal(w, ReconcileLabels(k, a, order))
    ensures var r := ReconcileDevice(w, k, a, order).1;
      && (r.requeue <==> r.failed)
      && (r.failed <==>
            a.readFails ||
            (k in w.devices && !w.devices[k].deleting &&
             var d := w.devices[k];
             || a.listFails
             || (exists l :: l in d.labels && !IsWorkloadLabel(l) && '/' in l)
             || (exists n :: n in w.deployments && CannotMatch(w.deployments[n], d))
             || (Names(d.deployments) != Matched(w.deployments, d) &&
                   (a.replies.status != Accepted || a.replies.labels != Accepted))))
  {
    if k in w.devices && !w.devices[k].deleting {
      var d := w.devices[k];
      AbortsIff(w.deployments, d);
      ScanClosedForm(d.deployments, Matched(w.deployments, d), d.labels);
      UpdatedIsTheDifference(d, Matched(w.deployments, d), order);
    }
  }

  lemma AbortsIff(deployments: Deployments, d: EdgeDevice)
    ensures SelectionAborts(deployments, d) <==>
      || (exists l :: l in d.labels && !IsWorkloadLabel(l) && '/' in l)
      || (exists n :: n in deployments && CannotMatch(deployments[n], d))
  {
    forall n | n in deployments
      ensures n in Candidates(deployments, d) && MatchFails(deployments[n].spec, d) <==> CannotMatch(deployments[n], d)
    {
    }
  }

  /** One that does not fail, on a device that is not under deletion, leaves exactly the
      matched names. */
  lemma NoFailureMeansMatched(w: World, k: Name, a: DeviceAnswers, order: seq<Name>)
    requires Sound(w) && Legal(w, ReconcileLabels(k, a, order)) && k in w.devices && !w.devices[k].deleting
    requires !ReconcileDevice(w, k, a, order).1.failed
    ensures var r := ReconcileDevice(w, k, a, order).0;
      && k in r.devices && Names(r.devices[k].deployments) == Matched(w.deployments, w.devices[k])
      && (InStep(w.devices[k]) ==> InStep(r.devices[k]))
  {
    var d, matched := w.devices[k], Matched(w.deployments, w.devices[k]);
    LabelReconcileFailsIff(w, k, a, order);
    AbortsIff(w.deployments, d);
    NamesOfLabels(w, k, a, order);
    ScanClosedForm(d.deployments, matched, d.labels);
    UpdatedIsTheDifference(d, matched, order);
    if Names(d.deployments) != matched {
      WriteUpdatedStages(d, matched, order, a.replies);
      if InStep(d) {
        UpdateKeepsInStep(d, matched, order);
      }
    }
  }
}
