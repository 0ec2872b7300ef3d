/** Devices, deployments and the two API calls with which a controller places a
    deployment on a device or takes it off. */
module Placement {
  import opened Kube
  import opened Labels

  const DEPLOYING := "Deploying"

  /** One entry of a device's `Status.Deployments`; times count ticks. */
  datatype Entry = Entry(name: Name, phase: string, lastTransition: nat, lastUpload: nat)

  datatype EdgeDevice = EdgeDevice(
    name: Name, labels: LabelMap, deployments: seq<Entry>, deleting: bool, finalizers: seq<string>)

  datatype Spec = Spec(device: string, selector: Option<LabelSelector>)

  datatype EdgeDeployment = EdgeDeployment(
    name: Name, spec: Spec, labels: LabelMap, finalizers: seq<string>, deleting: bool)

  type Devices = map<Name, EdgeDevice>
  type Deployments = map<Name, EdgeDeployment>

  function Names(entries: seq<Entry>): set<Name> {
    set e | e in entries :: e.name
  }

  ghost predicate UniqueNames(entries: seq<Entry>) {
    forall i, j :: 0 <= i < j < |entries| ==> entries[i].name != entries[j].name
  }

  predicate HasDeployment(d: EdgeDevice, name: Name) {
    name in Names(d.deployments)
  }

  predicate HasLabelForDeployment(d: EdgeDevice, name: Name) {
    WorkloadLabel(name) in d.labels
  }

  /** What the label selector of `getLabelledEdgeDevices` matches. */
  predicate Labelled(d: EdgeDevice, name: Name) {
    HasLabelForDeployment(d, name) && d.labels[WorkloadLabel(name)] == "true"
  }

  lemma NamesOneMore(entries: seq<Entry>, e: Entry)
    ensures Names(entries + [e]) == Names(entries) + {e.name}
  {
    forall n | n in Names(entries) + {e.name} ensures n in Names(entries + [e]) {
      if n == e.name {
        assert e in entries + [e];
      } else {
        var x :| x in entries && x.name == n;
        assert x in entries + [e];
      }
    }
  }

  lemma UniqueOneMore(entries: seq<Entry>, e: Entry)
    ensures UniqueNames(entries + [e]) <==> UniqueNames(entries) && e.name !in Names(entries)
  {
    var all := entries + [e];
    if e.name in Names(entries) {
      var x :| x in entries && x.name == e.name;
      var i :| 0 <= i < |entries| && entries[i] == x;
      assert all[i].name == all[|entries|].name;
    }
    if UniqueNames(all) {
      forall i, j | 0 <= i < j < |entries| ensures entries[i].name != entries[j].name {
        assert all[i] == entries[i] && all[j] == entries[j];
      }
    }
  }

  function Without(entries: seq<Entry>, name: Name): (rest: seq<Entry>)
    ensures Names(rest) == Names(entries) - {name}
    ensures UniqueNames(entries) ==> UniqueNames(rest)
    ensures name !in Names(entries) ==> rest == entries
  {
    if entries == [] then []
    else
      var before, e := entries[..|entries| - 1], entries[|entries| - 1];
      var init := Without(before, name);
      assert entries == before + [e];
      NamesOneMore(before, e);
      UniqueOneMore(before, e);
      NamesOneMore(init, e);
      UniqueOneMore(init, e);
      if e.name == name then init else init + [e]
  }

  // -------------------------------------------------------------- API calls

  /** How the API server answers a write. A lost reply is a write that took
      effect although the caller saw an error. */
  datatype Reply = Accepted | Rejected | LostReply

  datatype Replies = Replies(status: Reply, labels: Reply)

  const ALL_ACCEPTED := Replies(Accepted, Accepted)

  function ReplyFor(faults: map<Name, Replies>, device: Name): Replies {
    if device in faults then faults[device] else ALL_ACCEPTED
  }

  /** A status patch carries the whole list when it changed, and nothing else. */
  function PatchStatus(stored: EdgeDevice, base: EdgeDevice, desired: EdgeDevice): EdgeDevice {
    if desired.deployments == base.deployments then stored
    else stored.(deployments := desired.deployments)
  }

  /** A metadata patch of a device carries the label difference. */
  function PatchLabels(stored: EdgeDevice, base: EdgeDevice, desired: EdgeDevice): EdgeDevice {
    stored.(labels := Apply(stored.labels, Diff(base.labels, desired.labels)))
  }

  /** Patching the object a copy was made from stores the copy. */
  lemma PatchesOfFreshCopies(d: EdgeDevice, desired: EdgeDevice)
    ensures desired == d.(deployments := desired.deployments) ==> PatchStatus(d, d, desired) == desired
    ensures desired == d.(labels := desired.labels) ==> PatchLabels(d, d, desired) == desired
  {
    DiffThenApply(d.labels, desired.labels);
  }

  /** The two loop bodies of the deployment controller. `spared` holds the devices
      that `removeDeploymentFromNonMatchingDevices` skips. */
  datatype Job = Add(name: Name) | Remove(name: Name, spared: set<Name>)

  /** The object sent by the first call of the body, if there is a first call. */
  function StatusCall(job: Job, d: EdgeDevice): Option<EdgeDevice> {
    match job
    case Add(n) =>
      if HasDeployment(d, n) then None
      else Some(d.(deployments := d.deployments + [Entry(n, DEPLOYING, 0, 0)]))
    case Remove(n, spared) =>
      if d.name in spared then None
      else Some(d.(deployments := Without(d.deployments, n)))
  }

  /** The object sent by the second call. A nil label map is the empty one, since
      empty maps are not serialised. */
  function LabelCall(job: Job, d: EdgeDevice): Option<EdgeDevice> {
    match job
    case Add(n) =>
      if HasLabelForDeployment(d, n) then None
      else Some(d.(labels := d.labels[WorkloadLabel(n) := "true"]))
    case Remove(n, spared) =>
      if d.name in spared || d.labels == map[] then None
      else Some(d.(labels := d.labels - {WorkloadLabel(n)}))
  }

  datatype Outcome = Outcome(device: EdgeDevice, ok: bool)

  function Write(d: EdgeDevice, call: Option<EdgeDevice>, reply: Reply): Outcome {
    if call.None? then Outcome(d, true)
    else Outcome(if reply == Rejected then d else call.value, reply == Accepted)
  }

  /** One pass of a loop body over a device whose stored state is `d`: the stored
      state afterwards and whether no error was recorded. */
  function Place(job: Job, d: EdgeDevice, r: Replies): Outcome {
    var first := Write(d, StatusCall(job, d), r.status);
    if first.ok then Write(first.device, LabelCall(job, first.device), r.labels) else first
  }

  lemma WithoutAppended(entries: seq<Entry>, e: Entry)
    ensures Names(entries + [e]) == Names(entries) + {e.name}
    ensures Without(entries + [e], e.name) == Without(entries, e.name)
    ensures UniqueNames(entries) && e.name !in Names(entries) ==> UniqueNames(entries + [e])
  {
    assert (entries + [e])[..|entries|] == entries;
  }

  lemma WithoutOneMore(entries: seq<Entry>, i: nat, name: Name)
    requires i < |entries|
    ensures Without(entries[..i + 1], name) ==
      Without(entries[..i], name) + if entries[i].name == name then [] else [entries[i]]
  {
    assert entries[..i + 1][..i] == entries[..i];
  }

  lemma WithoutTwice(entries: seq<Entry>, name: Name)
    ensures Without(Without(entries, name), name) == Without(entries, name)
  {
  }

  /** `p` is `d` but for the entry and the label of one deployment. */
  ghost predicate SameButFor(n: Name, p: EdgeDevice, d: EdgeDevice) {
    && p == d.(labels := p.labels, deployments := p.deployments)
    && Names(p.deployments) - {n} == Names(d.deployments) - {n}
    && Without(p.deployments, n) == Without(d.deployments, n)
    && p.labels - {WorkloadLabel(n)} == d.labels - {WorkloadLabel(n)}
    && (UniqueNames(d.deployments) ==> UniqueNames(p.deployments))
  }

  lemma StatusCallFrame(job: Job, d: EdgeDevice, reply: Reply)
    ensures SameButFor(job.name, Write(d, StatusCall(job, d), reply).device, d)
  {
    WithoutAppended(d.deployments, Entry(job.name, DEPLOYING, 0, 0));
    WithoutTwice(d.deployments, job.name);
  }

  lemma LabelCallFrame(job: Job, d: EdgeDevice, reply: Reply)
    ensures SameButFor(job.name, Write(d, LabelCall(job, d), reply).device, d)
  {
  }

  lemma SameButForBoth(n: Name, q: EdgeDevice, p: EdgeDevice, d: EdgeDevice)
    requires SameButFor(n, q, p) && SameButFor(n, p, d)
    ensures SameButFor(n, q, d)
  {
  }

  /** A body never renames a device, never touches another deployment's entry or
      label, and leaves the rest of the device alone, whatever the replies. */
  lemma PlaceFrame(job: Job, d: EdgeDevice, r: Replies)
    ensures SameButFor(job.name, Place(job, d, r).device, d)
  {
    var first := Write(d, StatusCall(job, d), r.status);
    StatusCallFrame(job, d, r.status);
    if first.ok {
      LabelCallFrame(job, first.device, r.labels);
      SameButForBoth(job.name, Write(first.device, LabelCall(job, first.device), r.labels).device, first.device, d);
    }
  }

  /** What a body that met no error has achieved. */
  lemma PlaceAchieves(job: Job, d: EdgeDevice, r: Replies)
    requires Place(job, d, r).ok
    ensures var p := Place(job, d, r).device;
      && (job.Add? ==> HasDeployment(p, job.name) && HasLabelForDeployment(p, job.name))
      && (job.Remove? && d.name !in job.spared ==>
            !HasDeployment(p, job.name) && !HasLabelForDeployment(p, job.name))
  {
    var e := Entry(job.name, DEPLOYING, 0, 0);
    assert Names(d.deployments + [e]) == Names(d.deployments) + {job.name};
  }

  /** The label a job is about, once its label patch has been applied. */
  predicate LabelDone(job: Job, d: EdgeDevice) {
    match job
    case Add(n) => Labelled(d, n)
    case Remove(n, _) => !HasLabelForDeployment(d, n)
  }

  function SendLabels(stored: EdgeDevice, job: Job, seen: EdgeDevice): EdgeDevice
    requires LabelCall(job, seen).Some?
  {
    PatchLabels(stored, seen, LabelCall(job, seen).value)
  }

  /** What the patch of a job does to a label map: it sends one label, and nothing when
      the copy it was made from already lacked the label to be removed. */
  function LabelsAfter(labels: LabelMap, job: Job, seen: EdgeDevice): LabelMap {
    if job.Add? then labels[WorkloadLabel(job.name) := "true"]
    else if HasLabelForDeployment(seen, job.name) then labels - {WorkloadLabel(job.name)}
    else labels
  }

  lemma OneLabelSent(stored: EdgeDevice, job: Job, seen: EdgeDevice)
    requires LabelCall(job, seen).Some?
    ensures SendLabels(stored, job, seen) == stored.(labels := LabelsAfter(stored.labels, job, seen))
  {
    var key := WorkloadLabel(job.name);
    var patch := Diff(seen.labels, LabelCall(job, seen).value.labels);
    assert patch == if job.Add? then map[key := Some("true")]
                    else if key in seen.labels then map[key := None]
                    else map[];
    var r := Apply(stored.labels, patch);
    if job.Add? {
      assert r == stored.labels[key := "true"];
    } else if key in seen.labels {
      assert r == stored.labels - {key};
    } else {
      assert r == stored.labels;
    }
  }

  lemma SentCommutes(labels: LabelMap, a: Job, seenA: EdgeDevice, b: Job, seenB: EdgeDevice)
    requires WorkloadLabel(a.name) != WorkloadLabel(b.name)
    ensures LabelsAfter(LabelsAfter(labels, a, seenA), b, seenB) == LabelsAfter(LabelsAfter(labels, b, seenB), a, seenA)
  {
  }

  lemma SentFrame(labels: LabelMap, job: Job, seen: EdgeDevice, k: string)
    requires k != WorkloadLabel(job.name)
    ensures k in LabelsAfter(labels, job, seen) <==> k in labels
    ensures k in labels ==> LabelsAfter(labels, job, seen)[k] == labels[k]
  {
  }

  /** Label patches of different deployments, each made from a copy however stale, both
      take effect in either order on whatever is stored, and leave every other label
      alone. A removal must have seen the label: else it sends nothing. */
  lemma StaleLabelPatchesCommute(stored: EdgeDevice, a: Job, seenA: EdgeDevice, b: Job, seenB: EdgeDevice)
    requires a.name != b.name && LabelCall(a, seenA).Some? && LabelCall(b, seenB).Some?
    ensures var both := SendLabels(SendLabels(stored, a, seenA), b, seenB);
      && both == SendLabels(SendLabels(stored, b, seenB), a, seenA)
      && both == stored.(labels := both.labels)
      && (LabelDone(a, both) <==> LabelDone(a, stored) || a.Add? || HasLabelForDeployment(seenA, a.name))
      && (LabelDone(b, both) <==> LabelDone(b, stored) || b.Add? || HasLabelForDeployment(seenB, b.name))
      && forall k :: k != WorkloadLabel(a.name) && k != WorkloadLabel(b.name) ==>
           AgreeOn({k}, both.labels, stored.labels)
  {
    KeySpaces(a.name, b.name);
    OneLabelSent(stored, a, seenA);
    OneLabelSent(stored, b, seenB);
    var first, second := SendLabels(stored, a, seenA), SendLabels(stored, b, seenB);
    OneLabelSent(first, b, seenB);
    OneLabelSent(second, a, seenA);
    SentCommutes(stored.labels, a, seenA, b, seenB);
    var both := SendLabels(first, b, seenB);
    SentFrame(first.labels, b, seenB, WorkloadLabel(a.name));
    SentFrame(stored.labels, b, seenB, WorkloadLabel(a.name));
    SentFrame(stored.labels, a, seenA, WorkloadLabel(b.name));
    forall k | k != WorkloadLabel(a.name) && k != WorkloadLabel(b.name)
      ensures AgreeOn({k}, both.labels, stored.labels)
    {
      SentFrame(stored.labels, a, seenA, k);
      SentFrame(first.labels, b, seenB, k);
    }
    OwnLabel(first, a, seenA, stored);
    OwnLabel(second, b, seenB, stored);
  }

  lemma OwnLabel(sent: EdgeDevice, job: Job, seen: EdgeDevice, stored: EdgeDevice)
    requires sent.labels == LabelsAfter(stored.labels, job, seen)
    ensures LabelDone(job, sent) <==> LabelDone(job, stored) || job.Add? || HasLabelForDeployment(seen, job.name)
  {
  }

  // ------------------------------------------------------- all devices at once

  /** The store after a body ran over the devices named in `targets`. */
  function PlaceAll(devices: Devices, job: Job, targets: set<Name>, faults: map<Name, Replies>): Devices {
    map k | k in devices ::
      if k in targets then Place(job, devices[k], ReplyFor(faults, k)).device else devices[k]
  }

  predicate PlaceAllOk(devices: Devices, job: Job, targets: set<Name>, faults: map<Name, Replies>) {
    forall k :: k in targets && k in devices ==> Place(job, devices[k], ReplyFor(faults, k)).ok
  }

  /** The names of the devices for which a sequential pass records an error. */
  function Errors(job: Job, input: seq<EdgeDevice>, faults: map<Name, Replies>): seq<Name> {
    if input == [] then []
    else
      var d := input[|input| - 1];
      Errors(job, input[..|input| - 1], faults)
      + if Place(job, d, ReplyFor(faults, d.name)).ok then [] else [d.name]
  }

  function DeviceNames(input: seq<EdgeDevice>): set<Name> {
    set d | d in input :: d.name
  }

  lemma DeviceNamesOneMore(input: seq<EdgeDevice>, d: EdgeDevice)
    ensures DeviceNames(input + [d]) == DeviceNames(input) + {d.name}
  {
  }

  ghost predicate UniqueDevices(input: seq<EdgeDevice>) {
    forall i, j :: 0 <= i < j < |input| ==> input[i].name != input[j].name
  }

  /** The copies in `input` are what the store holds, each device once. */
  ghost predicate Fresh(input: seq<EdgeDevice>, devices: Devices) {
    && UniqueDevices(input)
    && forall d :: d in input ==> d.name in devices && devices[d.name] == d
  }

  /** The copies are fresh as far as the job is going to use them. */
  ghost predicate Current(job: Job, input: seq<EdgeDevice>, devices: Devices) {
    && UniqueDevices(input)
    && forall d :: d in input ==> d.name in devices && (devices[d.name] == d || Spares(job, d, devices[d.name]))
  }

  predicate Spares(job: Job, d: EdgeDevice, stored: EdgeDevice) {
    job.Remove? && d.name in job.spared && stored.name == d.name
  }

  /** A stale copy of a spared device does no harm. */
  lemma PlaceCurrent(job: Job, d: EdgeDevice, stored: EdgeDevice, r: Replies)
    requires stored == d || Spares(job, d, stored)
    ensures Place(job, d, r).ok <==> Place(job, stored, r).ok
    ensures Spares(job, d, stored) ==> Place(job, stored, r) == Outcome(stored, true)
  {
  }

  lemma PlaceAllOkOneMore(devices: Devices, job: Job, done: set<Name>, k: Name, faults: map<Name, Replies>)
    requires k in devices
    ensures PlaceAllOk(devices, job, done + {k}, faults)
       <==> PlaceAllOk(devices, job, done, faults) && Place(job, devices[k], ReplyFor(faults, k)).ok
  {
  }

  /** No error is recorded exactly when every placement went through. */
  lemma {:induction false} NoErrorsMeansAllOk(job: Job, input: seq<EdgeDevice>, devices: Devices, faults: map<Name,
      Replies>)
    requires Current(job, input, devices)
    ensures Errors(job, input, faults) == [] <==> PlaceAllOk(devices, job, DeviceNames(input), faults)
  {
    if input != [] {
      var init, d := input[..|input| - 1], input[|input| - 1];
      assert input == init + [d];
      NoErrorsMeansAllOk(job, init, devices, faults);
      DeviceNamesOneMore(init, d);
      PlaceCurrent(job, d, devices[d.name], ReplyFor(faults, d.name));
      PlaceAllOkOneMore(devices, job, DeviceNames(init), d.name, faults);
    }
  }

  /** One more device in a pass. */
  lemma PlaceOneMore(devices: Devices, job: Job, done: set<Name>, k: Name, faults: map<Name, Replies>)
    requires k in devices && k !in done
    ensures PlaceAll(devices, job, done + {k}, faults)
         == PlaceAll(devices, job, done, faults)[k := Place(job, devices[k], ReplyFor(faults, k)).device]
    ensures PlaceAll(devices, job, done, faults)[k] == devices[k]
  {
  }
}
