/** The deployment controller, proved against `DeploymentReconcile`. */
module EdgeDeploymentController {
  import opened Kube
  import opened Labels
  import opened Placement
  import opened SelectorIndex
  import opened DeploymentReconcile
  import opened ApiServer

  /** Rewrites the `selector/` labels of a deployment. */
  method UpdateSelectorLabels(dep: EdgeDeployment) returns (updated: EdgeDeployment)
    ensures updated == dep.(labels := Indexed(dep.labels, dep.spec))
  {
    var labels := RemoveSelectorLabels(dep.labels);
    if dep.spec.device != "" {
      labels := labels[CreateSelectorLabel(DEVICE_NAME_LABEL) := dep.spec.device];
    } else if dep.spec.selector.Some? {
      labels := AddSelectorLabels(labels, dep.spec.selector.value);
    }
    updated := dep.(labels := labels);
  }

  method RemoveSelectorLabels(deploymentLabels: LabelMap) returns (labels: LabelMap)
    ensures labels == PlainLabels(deploymentLabels)
  {
    labels := deploymentLabels;
    var left := labels.Keys;
    while left != {}
      invariant left <= deploymentLabels.Keys
      invariant labels == map l | l in deploymentLabels && (l in left || !IsSelectorLabel(l)) :: deploymentLabels[l]
    {
      var l :| l in left;
      left := left - {l};
      if IsSelectorLabel(l) {
        labels := labels - {l};
      }
    }
  }

  lemma OneMoreExpression(s: LabelSelector, i: nat)
    requires i < |s.matchExpressions|
    ensures s.matchLabels.Keys + ExpressionKeys(s.matchExpressions[..i + 1])
         == s.matchLabels.Keys + ExpressionKeys(s.matchExpressions[..i]) + {IndexKey(s.matchExpressions[i])}
  {
    ExpressionKeysExtend(s.matchExpressions[..i], s.matchExpressions[i]);
    assert s.matchExpressions[..i + 1] == s.matchExpressions[..i] + [s.matchExpressions[i]];
  }

  method AddSelectorLabels(kept: LabelMap, s: LabelSelector) returns (labels: LabelMap)
    ensures labels == kept + TrueLabels(IndexKeys(s))
  {
    labels := AddMatchLabels(kept, s.matchLabels);
    ghost var done := s.matchLabels.Keys;
    for i := 0 to |s.matchExpressions|
      invariant done == s.matchLabels.Keys + ExpressionKeys(s.matchExpressions[..i])
      invariant labels == kept + TrueLabels(done)
    {
      var requirement := s.matchExpressions[i];
      TrueLabelsExtend(kept, done, IndexKey(requirement));
      OneMoreExpression(s, i);
      done := done + {IndexKey(requirement)};
      if requirement.op == DoesNotExist {
        labels := labels[CreateSelectorLabel(DOES_NOT_EXIST_LABEL) := "true"];
      } else {
        labels := labels[CreateSelectorLabel(requirement.key) := "true"];
      }
    }
    assert s.matchExpressions[..|s.matchExpressions|] == s.matchExpressions;
  }

  method AddMatchLabels(kept: LabelMap, matchLabels: LabelMap) returns (labels: LabelMap)
    ensures labels == kept + TrueLabels(matchLabels.Keys)
  {
    labels := kept;
    ghost var done: set<string> := {};
    var keys := matchLabels.Keys;
    while keys != {}
      invariant keys <= matchLabels.Keys && done == matchLabels.Keys - keys
      invariant labels == kept + TrueLabels(done)
    {
      var k :| k in keys;
      TrueLabelsExtend(kept, done, k);
      keys, done := keys - {k}, done + {k};
      labels := labels[CreateSelectorLabel(k) := "true"];
    }
  }

  /** Appends to the first list the devices that only the second one has. */
  method Merge(first: seq<EdgeDevice>, second: seq<EdgeDevice>,
      ghost devices: Devices) returns (merged: seq<EdgeDevice>)
    requires Fresh(first, devices) && Fresh(second, devices)
    ensures Fresh(merged, devices)
    ensures DeviceNames(merged) == DeviceNames(first) + DeviceNames(second)
  {
    var seen: set<Name> := {};
    merged := [];
    for i := 0 to |first|
      invariant seen == DeviceNames(first[..i]) && merged == first[..i]
    {
      assert DeviceNames(first[..i + 1]) == DeviceNames(first[..i]) + {first[i].name};
      seen := seen + {first[i].name};
      merged := merged + [first[i]];
    }
    for i := 0 to |second|
      invariant seen == DeviceNames(first)
      invariant Fresh(merged, devices)
      invariant DeviceNames(merged) == DeviceNames(first) + DeviceNames(second[..i])
    {
      assert DeviceNames(second[..i + 1]) == DeviceNames(second[..i]) + {second[i].name};
      if second[i].name !in seen {
        assert second[i].name !in DeviceNames(merged);
        assert DeviceNames(merged + [second[i]]) == DeviceNames(merged) + {second[i].name};
        merged := merged + [second[i]];
      }
    }
    assert second[..|second|] == second;
  }

  /** The filtering loop of `removeDeploymentFromDevice`. */
  method EntriesWithout(deployments: seq<Entry>, name: Name) returns (newDeployments: seq<Entry>)
    ensures newDeployments == Without(deployments, name)
  {
    newDeployments := [];
    for i := 0 to |deployments|
      invariant newDeployments == Without(deployments[..i], name)
    {
      WithoutOneMore(deployments, i, name);
      if deployments[i].name != name {
        newDeployments := newDeployments + [deployments[i]];
      }
    }
    assert deployments[..|deployments|] == deployments;
  }

  /** Placing writes only matching devices, which the removal then spares. */
  lemma LabelledStayCurrent(devices: Devices, name: Name, matching: set<Name>, labelled: seq<EdgeDevice>,
      faults: map<Name, Replies>)
    requires Fresh(labelled, devices)
    ensures Current(Remove(name, matching), labelled, PlaceAll(devices, Add(name), matching, faults))
  {
    var placed := PlaceAll(devices, Add(name), matching, faults);
    forall d | d in labelled
      ensures d.name in placed && (placed[d.name] == d || Spares(Remove(name, matching), d, placed[d.name]))
    {
      PlaceFrame(Add(name), d, ReplyFor(faults, d.name));
    }
  }

  class EdgeDeploymentReconciler {
    const server: Server

    constructor (server: Server)
      ensures this.server == server
    {
      this.server := server;
    }

    /** The loop body of `addDeploymentsToDevices`. */
    method AddDeploymentToDevice(name: Name, device: EdgeDevice, r: Replies) returns (ok: bool)
      requires device.name in server.devices && server.devices[device.name] == device
      modifies server`devices
      ensures server.devices == old(server.devices)[device.name := Place(Add(name), device, r).device]
      ensures ok == Place(Add(name), device, r).ok
    {
      var edgeDevice := device;
      assert server.devices == server.devices[device.name := device];
      if !HasDeployment(edgeDevice, name) {
        var patched := edgeDevice.(deployments := edgeDevice.deployments + [Entry(name, DEPLOYING, 0, 0)]);
        PatchesOfFreshCopies(edgeDevice, patched);
        ok := server.PatchDeviceStatus(edgeDevice, patched, r.status);
        if !ok {
          return;
        }
        edgeDevice := patched;
      }
      if !HasLabelForDeployment(edgeDevice, name) {
        var deviceCopy := edgeDevice.(labels := edgeDevice.labels[WorkloadLabel(name) := "true"]);
        PatchesOfFreshCopies(edgeDevice, deviceCopy);
        ok := server.PatchDevice(edgeDevice, deviceCopy, r.labels);
        return;
      }
      return true;
    }

    /** `removeDeploymentFromDevice`: status first, so that a label that is left
        behind leads the next attempt back to the device. */
    method RemoveDeploymentFromDevice(name: Name, device: EdgeDevice, r: Replies) returns (ok: bool)
      requires device.name in server.devices && server.devices[device.name] == device
      modifies server`devices
      ensures server.devices == old(server.devices)[device.name := Place(Remove(name, {}), device, r).device]
      ensures ok == Place(Remove(name, {}), device, r).ok
    {
      var newDeployments := EntriesWithout(device.deployments, name);
      var edgeDevice := device.(deployments := newDeployments);
      PatchesOfFreshCopies(device, edgeDevice);
      assert server.devices == server.devices[device.name := device];
      ok := server.PatchDeviceStatus(device, edgeDevice, r.status);
      if !ok {
        return;
      }
      if edgeDevice.labels != map[] {
        var deviceCopy := edgeDevice.(labels := edgeDevice.labels - {WorkloadLabel(name)});
        PatchesOfFreshCopies(edgeDevice, deviceCopy);
        ok := server.PatchDevice(edgeDevice, deviceCopy, r.labels);
      }
    }

    method AddDeploymentsToDevices(name: Name, input: seq<EdgeDevice>, faults: map<Name,
        Replies>) returns (errs: seq<Name>)
      requires Fresh(input, server.devices)
      modifies server`devices
      ensures server.devices == PlaceAll(old(server.devices), Add(name), DeviceNames(input), faults)
      ensures errs == Errors(Add(name), input, faults)
    {
      errs := [];
      assert server.devices == PlaceAll(server.devices, Add(name), {}, faults);
      for i := 0 to |input|
        invariant server.devices == PlaceAll(old(server.devices), Add(name), DeviceNames(input[..i]), faults)
        invariant errs == Errors(Add(name), input[..i], faults)
      {
        OneMoreDevice(Add(name), old(server.devices), input, i, faults);
        var ok := AddDeploymentToDevice(name, input[i], ReplyFor(faults, input[i].name));
        if !ok {
          errs := errs + [input[i].name];
        }
      }
      assert input[..|input|] == input;
    }

    /** `removeDeploymentFromNonMatchingDevices`, and `removeDeploymentFromDevices`
        when no device is spared. The copies of spared devices may be stale: the
        labelled devices were listed before the matching ones were written. */
    method RemoveDeploymentFromDevices(name: Name, spared: set<Name>, input: seq<EdgeDevice>, faults: map<Name,
        Replies>)
      returns (errs: seq<Name>)
      requires Current(Remove(name, spared), input, server.devices)
      modifies server`devices
      ensures server.devices == PlaceAll(old(server.devices), Remove(name, spared), DeviceNames(input), faults)
      ensures errs == Errors(Remove(name, spared), input, faults)
    {
      errs := [];
      var job := Remove(name, spared);
      assert server.devices == PlaceAll(server.devices, job, {}, faults);
      for i := 0 to |input|
        invariant server.devices == PlaceAll(old(server.devices), job, DeviceNames(input[..i]), faults)
        invariant errs == Errors(job, input[..i], faults)
      {
        OneMoreDevice(job, old(server.devices), input, i, faults);
        var ok := RemoveUnlessSpared(name, spared, input[i], ReplyFor(faults, input[i].name));
        if !ok {
          errs := errs + [input[i].name];
        }
      }
      assert input[..|input|] == input;
    }

    /** The loop body of `removeDeploymentFromNonMatchingDevices`. */
    method RemoveUnlessSpared(name: Name, spared: set<Name>, device: EdgeDevice, r: Replies) returns (ok: bool)
      requires device.name in server.devices
      requires server.devices[device.name] == device
            || Spares(Remove(name, spared), device, server.devices[device.name])
      modifies server`devices
      ensures server.devices == old(server.devices)[device.name :=
                Place(Remove(name, spared), old(server.devices)[device.name], r).device]
      ensures ok == Place(Remove(name, spared), device, r).ok
    {
      PlaceCurrent(Remove(name, spared), device, server.devices[device.name], r);
      if device.name in spared {
        assert server.devices == server.devices[device.name := server.devices[device.name]];
        return true;
      }
      ok := RemoveDeploymentFromDevice(name, device, r);
    }

    lemma OneMoreDevice(job: Job, devices: Devices, input: seq<EdgeDevice>, i: nat, faults: map<Name, Replies>)
      requires Current(job, input, devices) && i < |input|
      ensures var d := input[i];
        var before := PlaceAll(devices, job, DeviceNames(input[..i]), faults);
        var p := Place(job, d, ReplyFor(faults, d.name));
        && d.name in before && before[d.name] == devices[d.name]
        && PlaceAll(devices, job, DeviceNames(input[..i + 1]), faults)
           == before[d.name := Place(job, devices[d.name], ReplyFor(faults, d.name)).device]
        && Errors(job, input[..i + 1], faults)
           == Errors(job, input[..i], faults) + if p.ok then [] else [d.name]
    {
      assert input[..i + 1][..i] == input[..i];
      assert DeviceNames(input[..i + 1]) == DeviceNames(input[..i]) + {input[i].name};
      PlaceOneMore(devices, job, DeviceNames(input[..i]), input[i].name, faults);
    }

    /** The devices a deployment selects; a named device that does not exist is not
        an error for the caller, which goes on with no device. */
    method GetMatchingEdgeDevices(dep: EdgeDeployment, a: Answers) returns (r: Option<seq<EdgeDevice>>)
      requires server.Valid()
      ensures r.None? <==> MatchingFails(dep.spec, a)
      ensures r.Some? ==> Fresh(r.value, server.devices)
      ensures r.Some? ==> DeviceNames(r.value) == MatchingNames(server.devices, dep.spec)
    {
      if dep.spec.device != "" {
        if a.matchingFails {
          return None;
        }
        if dep.spec.device !in server.devices {
          return Some([]);
        }
        assert MatchingNames(server.devices, dep.spec) == {dep.spec.device};
        return Some([server.devices[dep.spec.device]]);
      } else if dep.spec.selector.Some? {
        r := server.ListForSelector(dep.spec.selector.value, a.matchingFails);
        return;
      }
      return Some([]);
    }

    method GetLabelledEdgeDevices(name: Name, a: Answers) returns (r: Option<seq<EdgeDevice>>)
      requires server.Valid() && '/' !in name
      ensures r.None? <==> a.labelledFails
      ensures r.Some? ==> Fresh(r.value, server.devices)
      ensures r.Some? ==> DeviceNames(r.value) == LabelledNames(server.devices, name)
    {
      var s := LabelSelector(map[WorkloadLabel(name) := "true"], []);
      ValidWorkloadLabel(name);
      r := server.ListForSelector(s, a.labelledFails);
      assert forall d: EdgeDevice :: Labelled(d, name) <==> Matches(s, d.labels);
    }

    method FinalizeRemoval(devices: seq<EdgeDevice>, dep: EdgeDeployment, a: Answers) returns (ok: bool)
      requires dep.name in server.deployments && server.deployments[dep.name] == dep
      requires Fresh(devices, server.devices)
      requires DeviceNames(devices)
            == MatchingNames(server.devices, dep.spec) + LabelledNames(server.devices, dep.name)
      modifies server
      ensures (server.Snapshot(), if ok then DONE else FAILED) == FinalizingPass(old(server.Snapshot()), dep, a)
    {
      NoErrorsMeansAllOk(Remove(dep.name, {}), devices, server.devices, a.faults);
      var errs := RemoveDeploymentFromDevices(dep.name, {}, devices, a.faults);
      if errs != [] {
        return false;
      }
      server.RemoveDeploymentFinalizer(dep, DEVICE_REFERENCE_FINALIZER, a.self);
      return true;
    }

    method Reconcile(name: Name, a: Answers) returns (result: Result)
      requires server.Valid()
      modifies server
      ensures (server.Snapshot(), result) == DeploymentReconcile.Reconcile(old(server.Snapshot()), name, a)
    {
      if a.readFails {
        return FAILED;
      }
      if name !in server.deployments {
        return DONE;
      }
      var dep := server.deployments[name];
      if !dep.deleting && DEVICE_REFERENCE_FINALIZER !in dep.finalizers {
        var deploymentCopy := dep.(finalizers := [DEVICE_REFERENCE_FINALIZER]);
        var ok := server.PatchDeployment(dep, deploymentCopy, a.self);
        return if ok then REQUEUED else FAILED;
      }
      if !dep.deleting {
        var deploymentCopy := UpdateSelectorLabels(dep);
        if deploymentCopy.labels != dep.labels {
          var ok := server.PatchDeployment(dep, deploymentCopy, a.self);
          return if ok then DONE else FAILED;
        }
      }
      var labelled := GetLabelledEdgeDevices(name, a);
      if labelled.None? {
        return FAILED;
      }
      var matching := GetMatchingEdgeDevices(dep, a);
      if matching.None? {
        return FAILED;
      }
      if dep.deleting {
        if DEVICE_REFERENCE_FINALIZER in dep.finalizers {
          var merged := Merge(matching.value, labelled.value, server.devices);
          var ok := FinalizeRemoval(merged, dep, a);
          return if ok then DONE else FAILED;
        }
        return DONE;
      }
      result := PlaceDeployment(dep, matching.value, labelled.value, a.faults);
    }

    /** The last part of `Reconcile`. */
    method PlaceDeployment(dep: EdgeDeployment, matching: seq<EdgeDevice>, labelled: seq<EdgeDevice>,
        faults: map<Name, Replies>)
      returns (result: Result)
      requires Fresh(matching, server.devices) && Fresh(labelled, server.devices)
      requires DeviceNames(matching) == MatchingNames(server.devices, dep.spec)
      requires DeviceNames(labelled) == LabelledNames(server.devices, dep.name)
      modifies server`devices
      ensures (server.Snapshot(), result) == PlacingPass(old(server.Snapshot()), dep, faults)
    {
      NoErrorsMeansAllOk(Add(dep.name), matching, server.devices, faults);
      var errs := AddDeploymentsToDevices(dep.name, matching, faults);
      if errs != [] {
        return FAILED;
      }
      var matchingNames := DeviceNames(matching);
      var job := Remove(dep.name, matchingNames);
      LabelledStayCurrent(old(server.devices), dep.name, matchingNames, labelled, faults);
      NoErrorsMeansAllOk(job, labelled, server.devices, faults);
      errs := RemoveDeploymentFromDevices(dep.name, matchingNames, labelled, faults);
      return if errs == [] then DONE else FAILED;
    }
  }
}
