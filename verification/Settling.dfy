/** What repeated passes over one device lead to, and for which selectors they settle. */
module Settling {
  import opened Kube
  import opened Labels
  import opened Placement
  import opened SelectorIndex
  import opened DeploymentReconcile

  // ------------------------------------------------------------- one device

  function Added(n: Name, d: EdgeDevice): EdgeDevice {
    d.(deployments := if HasDeployment(d, n) then d.deployments else d.deployments + [Entry(n, DEPLOYING, 0, 0)],
       labels := if HasLabelForDeployment(d, n) then d.labels else d.labels[WorkloadLabel(n) := "true"])
  }

  function Removed(n: Name, d: EdgeDevice): EdgeDevice {
    d.(deployments := Without(d.deployments, n), labels := d.labels - {WorkloadLabel(n)})
  }

  function Goal(job: Job, d: EdgeDevice): EdgeDevice {
    if job.Add? then Added(job.name, d) else if d.name in job.spared then d else Removed(job.name, d)
  }

  /** A body stops at the start, between its two writes, or at its goal; without an
      error it is at the goal. */
  lemma PlaceStages(job: Job, d: EdgeDevice, r: Replies)
    ensures var p := Place(job, d, r).device;
      p == d || p == d.(deployments := Goal(job, d).deployments) || p == Goal(job, d)
    ensures Place(job, d, r).ok ==> Place(job, d, r).device == Goal(job, d)
    ensures r == ALL_ACCEPTED ==> Place(job, d, r).ok
  {
    if d.labels == map[] {
      assert d.labels - {WorkloadLabel(job.name)} == d.labels;
    }
  }

  lemma AddedFromHalfway(n: Name, d: EdgeDevice)
    ensures Added(n, d.(deployments := Added(n, d).deployments)) == Added(n, d)
    ensures Added(n, Added(n, d)) == Added(n, d)
  {
    WithoutAppended(d.deployments, Entry(n, DEPLOYING, 0, 0));
  }

  lemma RemovedFromHalfway(n: Name, d: EdgeDevice)
    ensures Removed(n, d.(deployments := Removed(n, d).deployments)) == Removed(n, d)
    ensures Removed(n, Removed(n, d)) == Removed(n, d)
  {
    WithoutTwice(d.deployments, n);
    var labels := d.labels - {WorkloadLabel(n)};
    assert labels - {WorkloadLabel(n)} == labels;
  }

  /** From wherever a body stopped, the goal is still the same. */
  lemma GoalFromAnywhere(job: Job, d: EdgeDevice, r: Replies)
    ensures Goal(job, Place(job, d, r).device) == Goal(job, d)
  {
    PlaceStages(job, d, r);
    AddedFromHalfway(job.name, d);
    RemovedFromHalfway(job.name, d);
  }

  /** What a pass without faults makes of a device. */
  function Settled(dep: EdgeDeployment, d: EdgeDevice): EdgeDevice {
    if Selects(dep.spec, d) then Added(dep.name, d)
    else if Labelled(d, dep.name) then Removed(dep.name, d)
    else d
  }

  /** What a finalizing pass without faults makes of it. */
  function Cleared(dep: EdgeDeployment, d: EdgeDevice): EdgeDevice {
    if Selects(dep.spec, d) || Labelled(d, dep.name) then Removed(dep.name, d) else d
  }

  /** The bodies a placing pass runs on a device. */
  predicate IsPlacingJob(dep: EdgeDeployment, d: EdgeDevice, job: Job) {
    job.name == dep.name &&
    if Selects(dep.spec, d) then job.Add? else Labelled(d, dep.name) && job.Remove? && d.name !in job.spared
  }

  // ------------------------------------------------- which selectors settle

  /** Placing the deployment does not deselect the device, and removing it does not
      select the device. */
  predicate SettlesAt(dep: EdgeDeployment, d: EdgeDevice) {
    && (Selects(dep.spec, d) && Labelled(Added(dep.name, d), dep.name) ==> Selects(dep.spec, Added(dep.name, d)))
    && (!Selects(dep.spec, d) && Labelled(d, dep.name) ==> !Selects(dep.spec, Removed(dep.name, d)))
  }

  lemma SelectionLooksAtLabels(spec: Spec, a: EdgeDevice, b: EdgeDevice)
    requires a.name == b.name && a.labels == b.labels
    ensures Selects(spec, a) <==> Selects(spec, b)
  {
  }

  /** The pass over one device is idempotent exactly where the selector settles. */
  lemma SettlesAtMeansIdempotent(dep: EdgeDeployment, d: EdgeDevice)
    ensures Settled(dep, Settled(dep, d)) == Settled(dep, d) <==> SettlesAt(dep, d)
  {
    AddedFromHalfway(dep.name, d);
    RemovedFromHalfway(dep.name, d);
    var p := Settled(dep, d);
    if Selects(dep.spec, d) {
      if !Labelled(p, dep.name) {
        assert p.labels == d.labels;
        SelectionLooksAtLabels(dep.spec, p, d);
      } else if !Selects(dep.spec, p) {
        assert Settled(dep, p) == Removed(dep.name, p) != p;
      }
    } else if Labelled(d, dep.name) && Selects(dep.spec, p) {
      assert HasLabelForDeployment(Added(dep.name, p), dep.name) && !HasLabelForDeployment(p, dep.name);
    }
  }

  /** Some requirement on the deployment's own label holds while the label is absent
      and fails once it is "true": `DoesNotExist`, or `NotIn` with that value. */
  predicate ExcludesItself(dep: EdgeDeployment) {
    dep.spec.device == "" && dep.spec.selector.Some? &&
    exists r :: r in dep.spec.selector.value.matchExpressions && ExcludesLabel(r, WorkloadLabel(dep.name))
  }

  predicate ExcludesLabel(r: Requirement, key: string) {
    r.key == key && (r.op.DoesNotExist? || (r.op.NotIn? && "true" in r.values))
  }

  lemma OneLabelDecides(r: Requirement, labels: LabelMap, key: string)
    requires key !in labels
    ensures ExcludesLabel(r, key) <==> RequirementHolds(r, labels) && !RequirementHolds(r, labels[key := "true"])
  {
  }

  lemma PlacingDeselects(dep: EdgeDeployment, d: EdgeDevice)
    requires Selects(dep.spec, d) && !HasLabelForDeployment(d, dep.name)
    ensures Selects(dep.spec, Added(dep.name, d)) <==> !ExcludesItself(dep)
  {
    if dep.spec.device == "" {
      var s, key := dep.spec.selector.value, WorkloadLabel(dep.name);
      forall r | r in s.matchExpressions
        ensures RequirementHolds(r, d.labels[key := "true"]) <==> !ExcludesLabel(r, key)
      {
        OneLabelDecides(r, d.labels, key);
      }
      forall k | k in s.matchLabels ensures k in d.labels && k != key {}
    }
  }

  lemma RestoredLabel(n: Name, d: EdgeDevice)
    requires Labelled(d, n)
    ensures Added(n, Removed(n, d)).labels == d.labels
    ensures !HasLabelForDeployment(Removed(n, d), n)
  {
  }

  /** The condition in terms of the selector. A device does not settle exactly if the
      selector excludes the deployment's own label, would select the device without that
      label, and the label is absent or "true". */
  lemma SettlesUnlessExcluded(dep: EdgeDeployment, d: EdgeDevice)
    ensures SettlesAt(dep, d) <==>
      !(&& ExcludesItself(dep)
        && Selects(dep.spec, d.(labels := d.labels - {WorkloadLabel(dep.name)}))
        && (HasLabelForDeployment(d, dep.name) ==> Labelled(d, dep.name)))
  {
    var n := dep.name;
    var bare := d.(labels := d.labels - {WorkloadLabel(n)});
    if !HasLabelForDeployment(d, n) {
      assert bare.labels == d.labels;
      if Selects(dep.spec, d) {
        PlacingDeselects(dep, d);
      }
    } else if Labelled(d, n) {
      RestoredLabel(n, d);
      var r := Removed(n, d);
      SelectionLooksAtLabels(dep.spec, bare, r);
      SelectionLooksAtLabels(dep.spec, Added(n, d), d);
      SelectionLooksAtLabels(dep.spec, Added(n, r), d);
      if Selects(dep.spec, r) {
        PlacingDeselects(dep, r);
      }
    } else {
      SelectionLooksAtLabels(dep.spec, Added(n, d), d);
    }
  }

  // ------------------------------------------------- passes with and without faults

  /** Where a placing body stopped, the device still settles, and at the same state. */
  lemma PlacedThenSettled(dep: EdgeDeployment, d: EdgeDevice, job: Job, r: Replies)
    requires SettlesAt(dep, d) && IsPlacingJob(dep, d, job)
    ensures var p := Place(job, d, r).device;
      Settled(dep, p) == Settled(dep, d) && SettlesAt(dep, p)
  {
    var p := Place(job, d, r).device;
    PlaceStages(job, d, r);
    AddedFromHalfway(dep.name, d);
    RemovedFromHalfway(dep.name, d);
    if p == Goal(job, d) {
      SettlesAtMeansIdempotent(dep, d);
      SettlesAtMeansIdempotent(dep, p);
    } else {
      assert p.labels == d.labels;
      SelectionLooksAtLabels(dep.spec, p, d);
      SelectionLooksAtLabels(dep.spec, Added(dep.name, p), Added(dep.name, d));
      SelectionLooksAtLabels(dep.spec, Removed(dep.name, p), Removed(dep.name, d));
    }
  }

  /** Removal under deletion settles whatever the selector. */
  lemma ClearedAgain(dep: EdgeDeployment, d: EdgeDevice, r: Replies)
    requires Selects(dep.spec, d) || Labelled(d, dep.name)
    ensures Cleared(dep, Place(Remove(dep.name, {}), d, r).device) == Cleared(dep, d)
  {
    var p := Place(Remove(dep.name, {}), d, r).device;
    PlaceStages(Remove(dep.name, {}), d, r);
    RemovedFromHalfway(dep.name, d);
    if p.labels == d.labels {
      SelectionLooksAtLabels(dep.spec, p, d);
    }
  }

  lemma SwingsOn(dep: EdgeDeployment, d: EdgeDevice)
    requires !SettlesAt(dep, d) && !HasLabelForDeployment(d, dep.name)
    ensures Selects(dep.spec, d) && Settled(dep, d) == Added(dep.name, d)
    ensures !SettlesAt(dep, Added(dep.name, d))
  {
    var n, p := dep.name, Added(dep.name, d);
    assert p.labels - {WorkloadLabel(n)} == d.labels;
    SelectionLooksAtLabels(dep.spec, d, Removed(n, p));
    assert Labelled(p, n) && !Selects(dep.spec, p);
  }

  lemma SwingsOff(dep: EdgeDeployment, d: EdgeDevice)
    requires !SettlesAt(dep, d) && HasLabelForDeployment(d, dep.name)
    ensures Labelled(d, dep.name) && Settled(dep, d) == Removed(dep.name, d)
    ensures !SettlesAt(dep, Removed(dep.name, d))
  {
    var n := dep.name;
    SelectionLooksAtLabels(dep.spec, Added(n, d), d);
    RestoredLabel(n, d);
    SelectionLooksAtLabels(dep.spec, Added(n, Removed(n, d)), d);
  }

  /** A device that does not settle swings: each pass puts the label on or takes it off,
      and the next one again. */
  lemma Swings(dep: EdgeDeployment, d: EdgeDevice)
    requires !SettlesAt(dep, d)
    ensures var p := Settled(dep, d);
      && !SettlesAt(dep, p)
      && (Labelled(p, dep.name) <==> !Labelled(d, dep.name))
      && (HasDeployment(p, dep.name) <==> Labelled(p, dep.name))
  {
    if HasLabelForDeployment(d, dep.name) {
      SwingsOff(dep, d);
    } else {
      SwingsOn(dep, d);
      WithoutAppended(d.deployments, Entry(dep.name, DEPLOYING, 0, 0));
    }
  }

  // ------------------------------------------------- entries can be traced

  /** A device that carries the entry can be found again by the next reconcile. */
  predicate Traceable(dep: EdgeDeployment, d: EdgeDevice) {
    HasDeployment(d, dep.name) ==> Labelled(d, dep.name) || Selects(dep.spec, d)
  }

  /** The body that a reconcile ran on a device it changed. */
  predicate IsJobOf(dep: EdgeDeployment, d: EdgeDevice, job: Job) {
    if dep.deleting then job == Remove(dep.name, {}) && (Selects(dep.spec, d) || Labelled(d, dep.name))
    else IsPlacingJob(dep, d, job)
  }

  lemma PlaceKeepsTraceable(dep: EdgeDeployment, d: EdgeDevice, job: Job, r: Replies)
    requires IsJobOf(dep, d, job) && Traceable(dep, d)
    ensures Traceable(dep, Place(job, d, r).device)
  {
    var p := Place(job, d, r).device;
    PlaceStages(job, d, r);
    if p.labels == d.labels {
      SelectionLooksAtLabels(dep.spec, p, d);
    }
  }
}
