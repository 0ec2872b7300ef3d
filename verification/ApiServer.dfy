/** The store behind the two repositories. Writes take the reply they will get. */
module ApiServer {
  import opened Kube
  import opened Placement
  import opened SelectorIndex
  import opened DeploymentReconcile

  /** What one try of `UpdateLabels` meets; the first try does not read. */
  datatype LabelTry = LabelTry(readFails: bool, reply: Reply)

  /** Some retry got its patch through to the server. */
  predicate RetryWritten(retries: seq<LabelTry>) {
    exists i :: 0 <= i < |retries| && !retries[i].readFails && retries[i].reply != Rejected
  }

  /** Some retry saw its patch accepted, or found nothing left to write. */
  predicate RetryConfirmed(retries: seq<LabelTry>, nothingLeft: bool) {
    exists i :: 0 <= i < |retries| && !retries[i].readFails &&
      (retries[i].reply == Accepted || nothingLeft || RetryWritten(retries[..i]))
  }

  lemma OneMoreRetry(retries: seq<LabelTry>, i: nat, nothingLeft: bool)
    requires i < |retries|
    ensures RetryWritten(retries[..i + 1]) <==>
            RetryWritten(retries[..i]) || (!retries[i].readFails && retries[i].reply != Rejected)
    ensures RetryConfirmed(retries[..i + 1], nothingLeft) <==>
            RetryConfirmed(retries[..i], nothingLeft) ||
            (!retries[i].readFails && (retries[i].reply == Accepted || nothingLeft || RetryWritten(retries[..i])))
  {
    forall j | 0 <= j <= i ensures retries[..i + 1][..j] == retries[..j] {}
    forall j | 0 <= j < i ensures retries[..i][..j] == retries[..j] {}
  }

  lemma MoreWritten(retries: seq<LabelTry>, i: nat)
    requires i <= |retries| && RetryWritten(retries[..i])
    ensures RetryWritten(retries)
  {
    var j :| 0 <= j < i && !retries[..i][j].readFails && retries[..i][j].reply != Rejected;
    assert retries[j] == retries[..i][j];
  }

  /** A confirmed retry is the last one; later ones would not be sent. */
  lemma AllRetries(retries: seq<LabelTry>, i: nat, nothingLeft: bool)
    requires i <= |retries| && RetryConfirmed(retries[..i], nothingLeft)
    ensures RetryConfirmed(retries, nothingLeft)
    ensures RetryWritten(retries[..i]) ==> RetryWritten(retries)
    ensures RetryWritten(retries[..i]) || nothingLeft
  {
    var j :| 0 <= j < i && !retries[..i][j].readFails &&
      (retries[..i][j].reply == Accepted || nothingLeft || RetryWritten(retries[..i][..j]));
    assert retries[..i][..j] == retries[..j] && retries[j] == retries[..i][j];
    if RetryWritten(retries[..j]) {
      MoreWritten(retries[..i], j);
    }
    if RetryWritten(retries[..i]) {
      MoreWritten(retries, i);
    }
  }

  /** The labels that a copy lacks or holds with another value. */
  function Changed(seen: LabelMap, labels: LabelMap): LabelMap {
    map l | l in labels && !(l in seen && seen[l] == labels[l]) :: labels[l]
  }

  lemma NothingChanged(seen: LabelMap, labels: LabelMap)
    ensures Changed(seen, labels) == map[] <==> seen + labels == seen
  {
    if Changed(seen, labels) == map[] {
      forall l | l in labels ensures l in seen && seen[l] == labels[l] {
        assert l !in Changed(seen, labels);
      }
    } else {
      var l :| l in Changed(seen, labels);
      assert (seen + labels)[l] == labels[l];
    }
  }

  /** The patch made from a copy carries what the copy lacks, whatever is stored. */
  lemma StalePatch(stored: LabelMap, seen: LabelMap, labels: LabelMap)
    ensures Apply(stored, Diff(seen, seen + labels)) == stored + Changed(seen, labels)
    ensures Changed(seen, labels) == map[] <==> seen + labels == seen
    ensures stored + Changed(stored, labels) == stored + labels
  {
    NothingChanged(seen, labels);
    var patched, wanted := Apply(stored, Diff(seen, seen + labels)), stored + Changed(seen, labels);
    assert forall l :: l in patched <==> l in wanted;
  }

  class Server {
    var devices: Devices
    var deployments: Deployments

    constructor (w: World)
      ensures Snapshot() == w
    {
      devices, deployments := w.devices, w.deployments;
    }

    function Snapshot(): World
      reads this
    {
      World(devices, deployments)
    }

    ghost predicate Valid()
      reads this
    {
      WellKeyed(Snapshot())
    }

    method PatchDeviceStatus(base: EdgeDevice, desired: EdgeDevice, reply: Reply) returns (ok: bool)
      requires desired.name in devices
      modifies this`devices
      ensures ok == (reply == Accepted)
      ensures devices == if reply == Rejected then old(devices)
                         else old(devices)[desired.name := PatchStatus(old(devices)[desired.name], base, desired)]
    {
      if reply != Rejected {
        devices := devices[desired.name := PatchStatus(devices[desired.name], base, desired)];
      }
      ok := reply == Accepted;
    }

    method PatchDevice(base: EdgeDevice, desired: EdgeDevice, reply: Reply) returns (ok: bool)
      requires desired.name in devices
      modifies this`devices
      ensures ok == (reply == Accepted)
      ensures devices == if reply == Rejected then old(devices)
                         else old(devices)[desired.name := PatchLabels(old(devices)[desired.name], base, desired)]
    {
      if reply != Rejected {
        devices := devices[desired.name := PatchLabels(devices[desired.name], base, desired)];
      }
      ok := reply == Accepted;
    }

    /** `updateLabels`: what the copy lacks is sent, unless it lacks nothing. */
    method UpdateLabelsOnce(device: EdgeDevice, labels: LabelMap, reply: Reply) returns (ok: bool)
      requires device.name in devices
      modifies this`devices
      ensures devices == old(devices)[device.name := old(devices)[device.name].(labels :=
        if reply == Rejected then old(devices)[device.name].labels
        else old(devices)[device.name].labels + Changed(device.labels, labels))]
      ensures ok <==> reply == Accepted || Changed(device.labels, labels) == map[]
    {
      var deviceLabels := device.labels + labels;
      StalePatch(devices[device.name].labels, device.labels, labels);
      assert devices == devices[device.name := devices[device.name]];
      if deviceLabels == device.labels {
        assert devices[device.name].labels + Changed(device.labels, labels) == devices[device.name].labels;
        return true;
      }
      ok := PatchDevice(device, device.(labels := deviceLabels), reply);
    }

    /** `UpdateLabels`: the first try uses the caller's copy, however stale; up to three
        more tries use freshly read ones. */
    method UpdateLabels(device: EdgeDevice, labels: LabelMap, tries: seq<LabelTry>) returns (ok: bool)
      requires |tries| == 4
      requires device.name in devices && devices[device.name].name == device.name
      modifies this`devices
      ensures var stored := old(devices)[device.name];
        var changed := Changed(device.labels, labels);
        var first := if tries[0].reply == Rejected then stored.labels else stored.labels + changed;
        var firstOk := tries[0].reply == Accepted || changed == map[];
        && devices == old(devices)[device.name := stored.(labels :=
             if !firstOk && RetryWritten(tries[1..]) then first + labels else first)]
        && (ok <==> firstOk || RetryConfirmed(tries[1..], first + labels == first))
    {
      ok := UpdateLabelsOnce(device, labels, tries[0].reply);
      if !ok {
        ok := RetryLabels(device.name, labels, tries[1..]);
      }
    }

    /** The retries: each reads the device again. */
    method RetryLabels(name: Name, labels: LabelMap, retries: seq<LabelTry>) returns (ok: bool)
      requires name in devices && devices[name].name == name
      modifies this`devices
      ensures var stored := old(devices)[name];
        && devices == old(devices)[name := stored.(labels :=
             if RetryWritten(retries) then stored.labels + labels else stored.labels)]
        && (ok <==> RetryConfirmed(retries, stored.labels + labels == stored.labels))
    {
      ghost var first := devices[name];
      ghost var merged := first.(labels := first.labels + labels);
      ghost var nothingLeft := merged.labels == first.labels;
      assert merged.labels + labels == merged.labels;
      for i := 0 to |retries|
        invariant name in devices && devices[name].name == name
        invariant devices == old(devices)[name := if RetryWritten(retries[..i]) then merged else first]
        invariant !RetryConfirmed(retries[..i], nothingLeft)
      {
        OneMoreRetry(retries, i, nothingLeft);
        if !retries[i].readFails {
          var device := devices[name];
          StalePatch(device.labels, device.labels, labels);
          ok := UpdateLabelsOnce(device, labels, retries[i].reply);
          if ok {
            AllRetries(retries, i + 1, nothingLeft);
            return true;
          }
        }
      }
      assert retries[..|retries|] == retries;
      ok := false;
    }

    method PatchDeployment(base: EdgeDeployment, desired: EdgeDeployment, reply: Reply) returns (ok: bool)
      requires desired.name in deployments
      modifies this`deployments
      ensures ok == (Validated(base.labels, desired.labels, reply) == Accepted)
      ensures deployments == if Validated(base.labels, desired.labels, reply) == Rejected then old(deployments)
                             else Store(old(deployments),
                                        PatchMetadata(old(deployments)[desired.name], base, desired))
    {
      var answer := Validated(base.labels, desired.labels, reply);
      if answer != Rejected {
        deployments := Store(deployments, PatchMetadata(deployments[desired.name], base, desired));
      }
      ok := answer == Accepted;
    }

    /** `RemoveFinalizer` of the deployment repository: it reports nothing, even
        when its patch failed. */
    method RemoveDeploymentFinalizer(dep: EdgeDeployment, finalizer: string, reply: Reply)
      requires dep.name in deployments && deployments[dep.name] == dep
      modifies this`deployments
      ensures Snapshot() ==
        PatchSelf(old(Snapshot()), dep.(finalizers := WithoutFinalizer(dep.finalizers, finalizer)), reply)
    {
      var finalizers: seq<string> := [];
      for i := 0 to |dep.finalizers|
        invariant finalizers == WithoutFinalizer(dep.finalizers[..i], finalizer)
      {
        assert dep.finalizers[..i + 1][..i] == dep.finalizers[..i];
        if dep.finalizers[i] != finalizer {
          finalizers := finalizers + [dep.finalizers[i]];
        }
      }
      assert dep.finalizers[..|dep.finalizers|] == dep.finalizers;
      var _ := PatchDeployment(dep, dep.(finalizers := finalizers), reply);
    }

    /** Lists in any order the devices that a selector matches. */
    method ListForSelector(s: LabelSelector, fails: bool) returns (r: Option<seq<EdgeDevice>>)
      requires Valid()
      ensures r.Some? <==> ValidSelector(s) && !fails
      ensures r.Some? ==> Fresh(r.value, devices)
      ensures r.Some? ==> DeviceNames(r.value) == set k | k in devices && Matches(s, devices[k].labels)
    {
      if !ValidSelector(s) || fails {
        return None;
      }
      var found: seq<EdgeDevice> := [];
      var left := devices.Keys;
      while left != {}
        invariant left <= devices.Keys
        invariant Fresh(found, devices)
        invariant DeviceNames(found) == set k | k in devices.Keys - left && Matches(s, devices[k].labels)
      {
        var k :| k in left;
        left := left - {k};
        if Matches(s, devices[k].labels) {
          assert k !in DeviceNames(found);
          assert DeviceNames(found + [devices[k]]) == DeviceNames(found) + {k};
          found := found + [devices[k]];
        }
      }
      return Some(found);
    }

    /** Lists in any order the deployments that carry a label. */
    method ListByLabel(l: string, value: string, fails: bool) returns (r: Option<seq<EdgeDeployment>>)
      requires Valid()
      ensures r.None? <==> InvalidKey(l) || fails
      ensures r.Some? ==> forall dep :: dep in r.value ==> dep.name in deployments && deployments[dep.name] == dep
      ensures r.Some? ==> forall n :: n in deployments ==>
        (deployments[n] in r.value <==> ListedUnder(deployments[n].labels, l, value))
    {
      if InvalidKey(l) || fails {
        return None;
      }
      var found: seq<EdgeDeployment> := [];
      var left := deployments.Keys;
      while left != {}
        invariant left <= deployments.Keys
        invariant forall dep :: dep in found ==> dep.name in deployments.Keys - left && deployments[dep.name] == dep
        invariant forall n :: n in deployments.Keys - left ==>
          (deployments[n] in found <==> ListedUnder(deployments[n].labels, l, value))
      {
        var n :| n in left;
        left := left - {n};
        if ListedUnder(deployments[n].labels, l, value) {
          found := found + [deployments[n]];
        }
      }
      return Some(found);
    }
  }
}
