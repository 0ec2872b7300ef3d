/** The label controller of devices, proved against `DeviceReconcile`. */
module EdgeDeviceLabelsController {
  import opened Kube
  import opened Labels
  import opened Placement
  import opened SelectorIndex
  import opened DeploymentReconcile
  import opened DeviceReconcile
  import opened ApiServer

  method CreateSelectorLabelsMap(device: EdgeDevice) returns (result: LabelMap)
    ensures result == Lookups(device)
  {
    result := map[CreateSelectorLabel(DEVICE_NAME_LABEL) := device.name,
                  CreateSelectorLabel(DOES_NOT_EXIST_LABEL) := "true"];
    ghost var fixed := result;
    ghost var done: set<string> := {};
    var left := device.labels.Keys;
    while left != {}
      invariant left <= device.labels.Keys
      invariant done == set l | l in device.labels.Keys - left && !IsWorkloadLabel(l)
      invariant result == fixed + TrueLabels(done)
    {
      var deviceLabel :| deviceLabel in left;
      left := left - {deviceLabel};
      if !IsWorkloadLabel(deviceLabel) {
        TrueLabelsExtend(fixed, done, deviceLabel);
        done := done + {deviceLabel};
        result := result[CreateSelectorLabel(deviceLabel) := "true"];
      }
    }
    assert TrueLabels(done) == map k | k in device.labels && !IsWorkloadLabel(k) :: CreateSelectorLabel(k) := "true";
  }

  function Chosen(selected: map<Name, bool>): set<Name> {
    set n | n in selected && selected[n]
  }

  /** The first loop of `createUpdatedDevice`: it consumes the matches as it meets
      their entries. */
  method KeepMatching(selected: map<Name, bool>, device: EdgeDevice)
    returns (selectedDeployments: map<Name, bool>, deployments: seq<Entry>, labels: LabelMap, deviceUpdated: bool)
    ensures Scan(deployments, Chosen(selectedDeployments), labels, deviceUpdated)
         == ScanEntries(device.deployments, Chosen(selected), device.labels)
  {
    selectedDeployments, deployments, labels, deviceUpdated := selected, [], device.labels, false;
    for i := 0 to |device.deployments|
      invariant Scan(deployments, Chosen(selectedDeployments), labels, deviceUpdated)
             == ScanEntries(device.deployments[..i], Chosen(selected), device.labels)
    {
      var deployment := device.deployments[i];
      assert device.deployments[..i + 1][..i] == device.deployments[..i];
      if deployment.name in selectedDeployments && selectedDeployments[deployment.name] {
        deployments := deployments + [deployment];
        assert Chosen(selectedDeployments - {deployment.name}) == Chosen(selectedDeployments) - {deployment.name};
        selectedDeployments := selectedDeployments - {deployment.name};
      } else {
        labels := labels - {WorkloadLabel(deployment.name)};
        deviceUpdated := true;
      }
    }
    assert device.deployments[..|device.deployments|] == device.deployments;
  }

  lemma OneMoreNew(kept: seq<Entry>, order: seq<Name>, names: set<Name>, n: Name)
    requires Orders(order, names) && n !in names
    ensures Orders(order + [n], names + {n})
    ensures kept + NewEntries(order + [n]) == kept + NewEntries(order) + [Entry(n, DEPLOYING, 0, 0)]
  {
    assert NewEntries(order + [n]) == NewEntries(order) + [Entry(n, DEPLOYING, 0, 0)];
  }

  method CreateUpdatedDevice(selected: map<Name, bool>, device: EdgeDevice)
    returns (updated: Option<EdgeDevice>, ghost order: seq<Name>)
    ensures Orders(order, NewNames(device, Chosen(selected)))
    ensures updated == Updated(device, Chosen(selected), order)
    ensures UniqueNames(device.deployments) ==>
      && (updated.None? <==> Names(device.deployments) == Chosen(selected))
      && (updated.Some? ==> Names(updated.value.deployments) == Chosen(selected))
      && (updated.Some? ==> Keep(device.deployments, Chosen(selected)) <= updated.value.deployments)
  {
    var selectedDeployments, deployments, labels, deviceUpdated := KeepMatching(selected, device);
    ghost var kept, keptLabels, anyDropped := deployments, labels, deviceUpdated;
    ghost var added: set<Name> := {};
    order := [];
    var left := selectedDeployments.Keys;
    assert labels == labels + WorkloadLabels({});
    while left != {}
      invariant left <= selectedDeployments.Keys && added == Chosen(selectedDeployments) - left
      invariant Orders(order, added)
      invariant deployments == kept + NewEntries(order) && labels == keptLabels + WorkloadLabels(added)
      invariant deviceUpdated == (anyDropped || added != {})
    {
      var name :| name in left;
      left := left - {name};
      if selectedDeployments[name] {
        OneMoreNew(kept, order, added, name);
        OneWorkloadMore(keptLabels, added, name);
        added, order := added + {name}, order + [name];
        deviceUpdated := true;
        deployments := deployments + [Entry(name, DEPLOYING, 0, 0)];
        labels := labels[WorkloadLabel(name) := "true"];
      }
    }
    updated := if deviceUpdated then Some(device.(deployments := deployments, labels := labels)) else None;
    if UniqueNames(device.deployments) {
      ScanClosedForm(device.deployments, Chosen(selected), device.labels);
      UpdatedIsTheDifference(device, Chosen(selected), order);
    }
  }

  function DeploymentNames(deployments: seq<EdgeDeployment>): set<Name> {
    set dep | dep in deployments :: dep.name
  }

  lemma OneMoreName(deployments: seq<EdgeDeployment>, i: nat)
    requires i < |deployments|
    ensures DeploymentNames(deployments[..i + 1]) == DeploymentNames(deployments[..i]) + {deployments[i].name}
  {
    var init, dep := deployments[..i], deployments[i];
    assert deployments[..i + 1] == init + [dep];
    assert forall x :: x in init + [dep] <==> x in init || x == dep;
  }

  /** The deployments listed by the lookups done so far. */
  function ListedBy(deployments: Deployments, lookups: LabelMap, done: set<string>): set<Name> {
    set n | n in deployments &&
      exists l :: l in done && l in lookups && ListedUnder(deployments[n].labels, l, lookups[l])
  }

  lemma OneMoreLookup(deployments: Deployments, lookups: LabelMap, done: set<string>, l: string,
      found: seq<EdgeDeployment>)
    requires l in lookups
    requires forall n :: n in deployments ==> deployments[n].name == n
    requires forall dep :: dep in found ==> dep.name in deployments && deployments[dep.name] == dep
    requires forall n :: n in deployments ==>
      (deployments[n] in found <==> ListedUnder(deployments[n].labels, l, lookups[l]))
    ensures ListedBy(deployments, lookups, done + {l}) == ListedBy(deployments, lookups, done) + DeploymentNames(found)
  {
    forall n ensures n in DeploymentNames(found)
                <==> n in deployments && ListedUnder(deployments[n].labels, l, lookups[l])
    {
      if n in DeploymentNames(found) {
        var dep :| dep in found && dep.name == n;
      }
    }
  }

  class EdgeDeviceLabelsReconciler {
    const server: Server

    constructor (server: Server)
      ensures this.server == server
    {
      this.server := server;
    }

    /** The entries recorded so far are right. */
    ghost predicate Recorded(selected: map<Name, bool>, device: EdgeDevice)
      reads server
    {
      forall n :: n in selected ==>
        && n in server.deployments
        && selected[n] == IsDeploymentMatchDevice(server.deployments[n].spec, device)
        && !MatchFails(server.deployments[n].spec, device)
    }

    /** The inner loop of `updateDeployments`. */
    method MatchListed(deployments: seq<EdgeDeployment>, before: map<Name, bool>, device: EdgeDevice)
      returns (ok: bool, selected: map<Name, bool>)
      requires Recorded(before, device)
      requires forall dep :: dep in deployments ==>
        dep.name in server.deployments && server.deployments[dep.name] == dep
      ensures ok ==> Recorded(selected, device) && selected.Keys == before.Keys + DeploymentNames(deployments)
      ensures !ok ==> exists dep :: dep in deployments && MatchFails(dep.spec, device)
    {
      selected := before;
      for i := 0 to |deployments|
        invariant Recorded(selected, device)
        invariant selected.Keys == before.Keys + DeploymentNames(deployments[..i])
      {
        var deployment := deployments[i];
        OneMoreName(deployments, i);
        if deployment.name in selected {
          continue;
        }
        if MatchFails(deployment.spec, device) {
          return false, selected;
        }
        selected := selected[deployment.name := IsDeploymentMatchDevice(deployment.spec, device)];
      }
      assert deployments[..|deployments|] == deployments;
      ok := true;
    }

    /** The outer loop of `updateDeployments`. */
    method SelectDeployments(device: EdgeDevice, listFails: bool) returns (ok: bool, selected: map<Name, bool>)
      requires server.Valid()
      ensures ok <==> !listFails && !SelectionAborts(server.deployments, device)
      ensures ok ==> Chosen(selected) == Matched(server.deployments, device)
    {
      var selectorLabels := CreateSelectorLabelsMap(device);
      LookupsFailOnInvalidKeys(device);
      selected := map[];
      var left := selectorLabels.Keys;
      assert left != {} by { assert CreateSelectorLabel(DOES_NOT_EXIST_LABEL) in left; }
      while left != {}
        invariant left <= selectorLabels.Keys
        invariant listFails ==> left != {}
        invariant forall l :: l in selectorLabels.Keys - left ==> !InvalidKey(l)
        invariant Recorded(selected, device)
        invariant selected.Keys == ListedBy(server.deployments, selectorLabels, selectorLabels.Keys - left)
      {
        var selectorLabel :| selectorLabel in left;
        var deployments := server.ListByLabel(selectorLabel, selectorLabels[selectorLabel], listFails);
        if deployments.None? {
          return false, selected;
        }
        OneMoreLookup(server.deployments, selectorLabels, selectorLabels.Keys - left, selectorLabel, deployments.value);
        assert selectorLabels.Keys - (left - {selectorLabel}) == selectorLabels.Keys - left + {selectorLabel};
        ok, selected := MatchListed(deployments.value, selected, device);
        if !ok {
          var dep :| dep in deployments.value && MatchFails(dep.spec, device);
          assert ListedUnder(dep.labels, selectorLabel, selectorLabels[selectorLabel]);
          assert dep.name in Candidates(server.deployments, device);
          return;
        }
        left := left - {selectorLabel};
      }
      assert selected.Keys == Candidates(server.deployments, device);
      ok := true;
    }

    method Reconcile(name: Name, a: DeviceAnswers) returns (result: Result, ghost order: seq<Name>)
      requires server.Valid()
      modifies server`devices
      ensures (server.Snapshot(), result) == ReconcileDevice(old(server.Snapshot()), name, a, order)
      ensures name in old(server.devices) ==>
        Orders(order, NewNames(old(server.devices)[name], Matched(server.deployments, old(server.devices)[name])))
        || server.devices == old(server.devices)
    {
      order := [];
      if a.readFails {
        return FAILED, order;
      }
      if name !in server.devices {
        return DONE, order;
      }
      var edgeDevice := server.devices[name];
      if edgeDevice.deleting {
        return DONE, order;
      }
      var ok, selected := SelectDeployments(edgeDevice, a.listFails);
      if !ok {
        return FAILED, order;
      }
      var updated: Option<EdgeDevice>;
      updated, order := CreateUpdatedDevice(selected, edgeDevice);
      if updated.Some? {
        result := StoreUpdated(edgeDevice, updated.value, a.replies);
      } else {
        result := DONE;
      }
    }

    /** The two patches at the end of `updateDeployments`. */
    method StoreUpdated(device: EdgeDevice, updated: EdgeDevice, r: Replies) returns (result: Result)
      requires device.name in server.devices && server.devices[device.name] == device
      requires updated == device.(deployments := updated.deployments, labels := updated.labels)
      modifies server`devices
      ensures var p := WriteUpdated(device, updated, r);
        && server.devices == old(server.devices)[device.name := p.device]
        && result == if p.ok then DONE else FAILED
    {
      PatchesOfFreshCopies(device, device.(deployments := updated.deployments));
      DiffThenApply(device.labels, updated.labels);
      assert server.devices == server.devices[device.name := device];
      var ok := server.PatchDeviceStatus(device, updated, r.status);
      if !ok {
        return FAILED;
      }
      ok := server.PatchDevice(device, updated, r.labels);
      result := if ok then DONE else FAILED;
    }
  }
}
