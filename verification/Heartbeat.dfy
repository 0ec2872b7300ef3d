/** Heartbeats: how the reported workload statuses reach a device, and why
    retrying is harmless. */
module Heartbeat {
  import opened Kube
  import opened Placement
  import opened DeploymentReconcile
  import opened ApiServer

  datatype WorkloadStatus = WorkloadStatus(name: Name, status: string, lastUpload: nat)

  type EntryMap = map<Name, Entry>

  function ByName(entries: seq<Entry>): (m: EntryMap)
    ensures m.Keys == Names(entries)
  {
    if entries == [] then map[]
    else
      var init, e := entries[..|entries| - 1], entries[|entries| - 1];
      assert entries == init + [e];
      NamesOneMore(init, e);
      ByName(init)[e.name := e]
  }

  lemma {:induction false} ByNameFacts(entries: seq<Entry>)
    ensures forall n :: n in ByName(entries) ==> ByName(entries)[n].name == n
    ensures UniqueNames(entries) ==> forall e :: e in entries ==> ByName(entries)[e.name] == e
  {
    if entries != [] {
      var init, e := entries[..|entries| - 1], entries[|entries| - 1];
      assert entries == init + [e];
      UniqueOneMore(init, e);
      ByNameFacts(init);
    }
  }

  /** The entry after one status report, at time `now`. */
  function ReportOn(e: Entry, s: WorkloadStatus, now: nat): Entry {
    (if e.phase != s.status then e.(phase := s.status, lastTransition := now) else e).(lastUpload := s.lastUpload)
  }

  function Report(m: EntryMap, s: WorkloadStatus, now: nat): EntryMap {
    if s.name in m then m[s.name := ReportOn(m[s.name], s, now)] else m
  }

  function ReportAll(m: EntryMap, workloads: seq<WorkloadStatus>, now: nat): (r: EntryMap)
    ensures r.Keys == m.Keys
  {
    if workloads == [] then m
    else Report(ReportAll(m, workloads[..|workloads| - 1], now), workloads[|workloads| - 1], now)
  }

  /** A list of the values of a map in some order. */
  ghost predicate Enumerates(entries: seq<Entry>, m: EntryMap) {
    && UniqueNames(entries) && Names(entries) == m.Keys
    && forall e :: e in entries ==> e.name in m && m[e.name] == e
  }

  lemma EnumerationByName(entries: seq<Entry>, m: EntryMap)
    requires Enumerates(entries, m)
    ensures ByName(entries) == m
  {
    ByNameFacts(entries);
    forall n | n in m ensures ByName(entries)[n] == m[n] {
      var e :| e in entries && e.name == n;
    }
  }

  lemma ByNameOneMore(entries: seq<Entry>, i: nat)
    requires i < |entries|
    ensures ByName(entries[..i + 1]) == ByName(entries[..i])[entries[i].name := entries[i]]
  {
    assert entries[..i + 1][..i] == entries[..i];
  }

  lemma ReportOneMore(m: EntryMap, workloads: seq<WorkloadStatus>, i: nat, now: nat)
    requires i < |workloads|
    ensures ReportAll(m, workloads[..i + 1], now) == Report(ReportAll(m, workloads[..i], now), workloads[i], now)
  {
    assert workloads[..i + 1][..i] == workloads[..i];
  }

  method UpdateDeploymentStatuses(oldDeployments: seq<Entry>, workloads: seq<WorkloadStatus>, now: nat)
    returns (deployments: seq<Entry>)
    ensures Enumerates(deployments, ReportAll(ByName(oldDeployments), workloads, now))
  {
    var deploymentMap: EntryMap := map[];
    for i := 0 to |oldDeployments|
      invariant deploymentMap == ByName(oldDeployments[..i])
    {
      ByNameOneMore(oldDeployments, i);
      deploymentMap := deploymentMap[oldDeployments[i].name := oldDeployments[i]];
    }
    assert oldDeployments[..|oldDeployments|] == oldDeployments;
    for i := 0 to |workloads|
      invariant deploymentMap == ReportAll(ByName(oldDeployments), workloads[..i], now)
    {
      var status := workloads[i];
      ReportOneMore(ByName(oldDeployments), workloads, i, now);
      if status.name in deploymentMap {
        var deployment := deploymentMap[status.name];
        if deployment.phase != status.status {
          deployment := deployment.(phase := status.status, lastTransition := now);
        }
        deployment := deployment.(lastUpload := status.lastUpload);
        deploymentMap := deploymentMap[status.name := deployment];
      }
    }
    assert workloads[..|workloads|] == workloads;
    ByNameFacts(oldDeployments);
    ReportKeepsNames(ByName(oldDeployments), workloads, now);
    deployments := Values(deploymentMap);
  }

  /** Ranging over the map, in any order. */
  method Values(m: EntryMap) returns (entries: seq<Entry>)
    requires forall n :: n in m ==> m[n].name == n
    ensures Enumerates(entries, m)
  {
    entries := [];
    var left := m.Keys;
    while left != {}
      invariant left <= m.Keys
      invariant UniqueNames(entries) && Names(entries) == m.Keys - left
      invariant forall e :: e in entries ==> e.name in m && m[e.name] == e
    {
      var n :| n in left;
      left := left - {n};
      assert Names(entries + [m[n]]) == Names(entries) + {n};
      entries := entries + [m[n]];
    }
  }

  lemma {:induction false} ReportKeepsNames(m: EntryMap, workloads: seq<WorkloadStatus>, now: nat)
    requires forall n :: n in m ==> m[n].name == n
    ensures forall n :: n in m ==> ReportAll(m, workloads, now)[n].name == n
  {
    if workloads != [] {
      ReportKeepsNames(m, workloads[..|workloads| - 1], now);
    }
  }

  // --------------------------------------------------------------- idempotence

  predicate Reported(workloads: seq<WorkloadStatus>, n: Name) {
    exists i :: 0 <= i < |workloads| && workloads[i].name == n
  }

  /** Some report of the workload differs from the given phase. */
  predicate Disagrees(workloads: seq<WorkloadStatus>, n: Name, phase: string) {
    exists i :: 0 <= i < |workloads| && workloads[i].name == n && workloads[i].status != phase
  }

  /** The transition time moves exactly when some report differs from the phase the
      entry had; unreported entries stay as they are. */
  lemma {:induction false} Transition(m: EntryMap, workloads: seq<WorkloadStatus>, now: nat, n: Name)
    requires n in m
    ensures var r := ReportAll(m, workloads, now)[n];
      && r.lastTransition == (if Disagrees(workloads, n, m[n].phase) then now else m[n].lastTransition)
      && (!Disagrees(workloads, n, m[n].phase) ==> r.phase == m[n].phase)
      && (!Reported(workloads, n) ==> r == m[n])
      && r.name == m[n].name
  {
    if workloads != [] {
      var init, s := workloads[..|workloads| - 1], workloads[|workloads| - 1];
      assert workloads == init + [s];
      Transition(m, init, now, n);
      if Disagrees(init, n, m[n].phase) {
        var i :| 0 <= i < |init| && init[i].name == n && init[i].status != m[n].phase;
        assert workloads[i] == init[i];
      }
      if Reported(init, n) {
        var i :| 0 <= i < |init| && init[i].name == n;
        assert workloads[i] == init[i];
      }
    }
  }

  /** The last report of a workload in the list. */
  predicate IsLastReport(workloads: seq<WorkloadStatus>, n: Name, i: nat) {
    i < |workloads| && workloads[i].name == n && forall j :: i < j < |workloads| ==> workloads[j].name != n
  }

  /** The entry says what the last report of its workload said. */
  ghost predicate SaysLastReport(e: Entry, workloads: seq<WorkloadStatus>, n: Name) {
    exists i: nat :: IsLastReport(workloads, n, i) &&
      e.phase == workloads[i].status && e.lastUpload == workloads[i].lastUpload
  }

  /** A reported entry ends with the phase and the upload time of the last report of it,
      whatever it was before. */
  lemma {:induction false} LastReportDecides(m: EntryMap, workloads: seq<WorkloadStatus>, now: nat, n: Name)
    requires n in m && Reported(workloads, n)
    ensures SaysLastReport(ReportAll(m, workloads, now)[n], workloads, n)
  {
    var init, s := workloads[..|workloads| - 1], workloads[|workloads| - 1];
    if s.name == n {
      assert IsLastReport(workloads, n, |workloads| - 1);
    } else {
      var i :| 0 <= i < |workloads| && workloads[i].name == n;
      assert init[i] == workloads[i];
      LastReportDecides(m, init, now, n);
      var r := ReportAll(m, init, now)[n];
      var j: nat :| IsLastReport(init, n, j) && r.phase == init[j].status && r.lastUpload == init[j].lastUpload;
      assert IsLastReport(workloads, n, j) && workloads[j] == init[j];
    }
  }

  lemma ReportDecides(m: EntryMap, m': EntryMap, workloads: seq<WorkloadStatus>, now: nat, later: nat, n: Name)
    requires n in m && n in m' && Reported(workloads, n)
    ensures var r, r' := ReportAll(m, workloads, now)[n], ReportAll(m', workloads, later)[n];
      && r.phase == r'.phase && r.lastUpload == r'.lastUpload
      && exists i :: 0 <= i < |workloads| && workloads[i].name == n && workloads[i].status == r.phase
  {
    LastReportDecides(m, workloads, now, n);
    LastReportDecides(m', workloads, later, n);
  }

  /** No workload is reported with two statuses; in particular, one listed once. */
  ghost predicate Consistent(workloads: seq<WorkloadStatus>) {
    forall i, j :: 0 <= i < j < |workloads| && workloads[i].name == workloads[j].name ==>
      workloads[i].status == workloads[j].status
  }

  ghost predicate Repeatable(workloads: seq<WorkloadStatus>) {
    forall m: EntryMap, now: nat, later: nat ::
      ReportAll(ReportAll(m, workloads, now), workloads, later) == ReportAll(m, workloads, now)
  }

  lemma ReportingTwice(m: EntryMap, workloads: seq<WorkloadStatus>, now: nat, later: nat)
    requires Consistent(workloads)
    ensures ReportAll(ReportAll(m, workloads, now), workloads, later) == ReportAll(m, workloads, now)
  {
    var once := ReportAll(m, workloads, now);
    var twice := ReportAll(once, workloads, later);
    forall n | n in m
      ensures twice[n] == once[n]
    {
      Transition(once, workloads, later, n);
      if Reported(workloads, n) {
        ReportDecides(m, once, workloads, now, later, n);
      }
    }
  }

  /** The same report again, later, changes nothing, times included, exactly when no
      workload is reported with two statuses. */
  lemma RepeatableIffConsistent(workloads: seq<WorkloadStatus>)
    ensures Repeatable(workloads) <==> Consistent(workloads)
  {
    if Consistent(workloads) {
      forall m: EntryMap, now: nat, later: nat
        ensures ReportAll(ReportAll(m, workloads, now), workloads, later) == ReportAll(m, workloads, now)
      {
        ReportingTwice(m, workloads, now, later);
      }
    } else {
      var i, j :| 0 <= i < j < |workloads| && workloads[i].name == workloads[j].name
        && workloads[i].status != workloads[j].status;
      var n := workloads[i].name;
      var m: EntryMap := map[n := Entry(n, "", 0, 0)];
      var once := ReportAll(m, workloads, 1);
      Transition(m, workloads, 1, n);
      Transition(once, workloads, 2, n);
      assert workloads[i].status != once[n].phase || workloads[j].status != once[n].phase;
      assert ReportAll(once, workloads, 2)[n].lastTransition == 2 != once[n].lastTransition;
    }
  }

  // ------------------------------------------------------------------- retries

  datatype Message = Message(workloads: seq<WorkloadStatus>, hardware: LabelMap, events: nat)

  /** What one attempt meets, and when it happens. */
  datatype Attempt = Attempt(now: nat, readFails: bool, status: Reply, labels: seq<LabelTry>)

  datatype Verdict = Processed | NotFound | Failed

  predicate StatusWritten(a: Attempt) {
    !a.readFails && a.status != Rejected
  }

  predicate AnyWritten(attempts: seq<Attempt>) {
    exists i :: 0 <= i < |attempts| && StatusWritten(attempts[i])
  }

  /** The entries after these attempts: every one that was written has reported. */
  function AfterAttempts(m: EntryMap, workloads: seq<WorkloadStatus>, attempts: seq<Attempt>): (r: EntryMap)
    ensures r.Keys == m.Keys
  {
    if attempts == [] then m
    else
      var before, last := AfterAttempts(m, workloads, attempts[..|attempts| - 1]), attempts[|attempts| - 1];
      if StatusWritten(last) then ReportAll(before, workloads, last.now) else before
  }

  /** Some try of the label update reached the server. */
  predicate LabelsReach(tries: seq<LabelTry>)
    requires |tries| == 4
  {
    tries[0].reply != Rejected || RetryWritten(tries[1..])
  }

  /** Some try of the label update was accepted, or there was nothing left to write. */
  predicate LabelsConfirmed(tries: seq<LabelTry>, labels: LabelMap, hardware: LabelMap)
    requires |tries| == 4
  {
    || labels + hardware == labels
    || tries[0].reply == Accepted
    || RetryConfirmed(tries[1..], tries[0].reply == LostReply)
  }

  /** An attempt that gets through: all that it sends is confirmed. */
  predicate GetsThrough(a: Attempt, labels: LabelMap, hardware: LabelMap)
    requires |a.labels| == 4
  {
    !a.readFails && a.status == Accepted && LabelsConfirmed(a.labels, labels, hardware)
  }

  predicate FourTries(attempts: seq<Attempt>) {
    forall i :: 0 <= i < |attempts| ==> |attempts[i].labels| == 4
  }

  /** The labels after these attempts: the hardware labels are sent once the status patch
      was accepted. */
  function LabelsSent(labels: LabelMap, hardware: LabelMap, attempts: seq<Attempt>): LabelMap
    requires FourTries(attempts)
  {
    if exists i :: 0 <= i < |attempts| && SendsLabels(attempts[i]) then labels + hardware else labels
  }

  predicate SendsLabels(a: Attempt)
    requires |a.labels| == 4
  {
    !a.readFails && a.status == Accepted && LabelsReach(a.labels)
  }

  /** The device after these attempts, up to the order of its entries. */
  ghost predicate IsAfter(d: EdgeDevice, was: EdgeDevice, message: Message, attempts: seq<Attempt>)
    requires FourTries(attempts)
  {
    && d == was.(deployments := d.deployments, labels := d.labels)
    && ByName(d.deployments) == AfterAttempts(ByName(was.deployments), message.workloads, attempts)
    && d.labels == LabelsSent(was.labels, message.hardware, attempts)
    && (!AnyWritten(attempts) ==> d == was)
    && (UniqueNames(was.deployments) ==> UniqueNames(d.deployments))
  }

  function FirstWritten(attempts: seq<Attempt>): Option<Attempt> {
    if attempts == [] then None
    else
      var before, last := FirstWritten(attempts[..|attempts| - 1]), attempts[|attempts| - 1];
      if before.None? && StatusWritten(last) then Some(last) else before
  }

  /** What retries leave of an entry. No name comes or goes. Once an attempt was written, a
      reported entry says what the last report of it said; others stay as they are. If no
      workload is reported with two statuses, the transition time moves only if a report
      disagrees with the phase, and then to the time of the first attempt that was written,
      however many attempts followed. */
  lemma RetriedEntry(d: EdgeDevice, was: EdgeDevice, message: Message, attempts: seq<Attempt>, n: Name)
    requires FourTries(attempts) && IsAfter(d, was, message, attempts)
    ensures Names(d.deployments) == Names(was.deployments)
    ensures HasDeployment(was, n) ==>
      var e, e' := ByName(was.deployments)[n], ByName(d.deployments)[n];
      if AnyWritten(attempts) && Reported(message.workloads, n)
      then SaysLastReport(e', message.workloads, n)
      else e' == e
    ensures Consistent(message.workloads) && HasDeployment(was, n) ==>
      var e, e' := ByName(was.deployments)[n], ByName(d.deployments)[n];
      && e'.lastTransition == (if FirstWritten(attempts).Some? && Disagrees(message.workloads, n, e.phase)
                               then FirstWritten(attempts).value.now else e.lastTransition)
      && (FirstWritten(attempts).None? || !Reported(message.workloads, n) ==> e' == e)
  {
    if HasDeployment(was, n) {
      LastWrittenDecides(ByName(was.deployments), message.workloads, attempts, n);
    }
    if Consistent(message.workloads) && HasDeployment(was, n) {
      OnlyTheFirstCounts(ByName(was.deployments), message.workloads, attempts);
      if FirstWritten(attempts).Some? {
        Transition(ByName(was.deployments), message.workloads, FirstWritten(attempts).value.now, n);
      }
    }
  }

  lemma {:induction false} LastWrittenDecides(m: EntryMap, workloads: seq<WorkloadStatus>, attempts: seq<Attempt>,
      n: Name)
    requires n in m
    ensures var r := AfterAttempts(m, workloads, attempts)[n];
      if AnyWritten(attempts) && Reported(workloads, n) then SaysLastReport(r, workloads, n) else r == m[n]
  {
    if attempts != [] {
      var before, last := attempts[..|attempts| - 1], attempts[|attempts| - 1];
      assert attempts == before + [last];
      LastWrittenDecides(m, workloads, before, n);
      OneMoreWritten(before, last);
      if StatusWritten(last) {
        var r := AfterAttempts(m, workloads, before);
        if Reported(workloads, n) {
          LastReportDecides(r, workloads, last.now, n);
        } else {
          Transition(r, workloads, last.now, n);
        }
      }
    }
  }

  /** A later attempt adds nothing to what an earlier one has written. */
  lemma {:induction false} OnlyTheFirstCounts(m: EntryMap, workloads: seq<WorkloadStatus>, attempts: seq<Attempt>)
    requires Consistent(workloads)
    ensures AfterAttempts(m, workloads, attempts) ==
      if FirstWritten(attempts).None? then m else ReportAll(m, workloads, FirstWritten(attempts).value.now)
  {
    if attempts != [] {
      var before, last := attempts[..|attempts| - 1], attempts[|attempts| - 1];
      OnlyTheFirstCounts(m, workloads, before);
      if FirstWritten(before).Some? {
        ReportingTwice(m, workloads, FirstWritten(before).value.now, last.now);
      }
    }
  }

  /** What one attempt may do to the device. */
  ghost predicate AttemptEffect(was: EdgeDevice, d: EdgeDevice, message: Message, a: Attempt)
    requires |a.labels| == 4
  {
    && d == was.(deployments := d.deployments, labels := d.labels)
    && (if StatusWritten(a)
        then ByName(d.deployments) == ReportAll(ByName(was.deployments), message.workloads, a.now)
             && (UniqueNames(was.deployments) ==> UniqueNames(d.deployments))
             && d.labels == (if SendsLabels(a) then was.labels + message.hardware else was.labels)
        else d == was)
  }

  /** `updated` is what the status call of an attempt sends. */
  ghost predicate StatusSent(device: EdgeDevice, updated: EdgeDevice, message: Message, a: Attempt) {
    && updated == device.(deployments := updated.deployments) && UniqueNames(updated.deployments)
    && ByName(updated.deployments) == ReportAll(ByName(device.deployments), message.workloads, a.now)
  }

  /** The device once the status and, if that was accepted, the labels have been sent. */
  function Sent(device: EdgeDevice, updated: EdgeDevice, hardware: LabelMap, a: Attempt): EdgeDevice
    requires |a.labels| == 4
  {
    match a.status
    case Rejected => device
    case LostReply => updated
    case Accepted =>
      updated.(labels := if LabelsReach(a.labels) then device.labels + hardware else device.labels)
  }

  lemma SentIsTheEffect(device: EdgeDevice, updated: EdgeDevice, message: Message, a: Attempt)
    requires |a.labels| == 4 && !a.readFails && StatusSent(device, updated, message, a)
    ensures AttemptEffect(device, Sent(device, updated, message.hardware, a), message, a)
  {
  }

  lemma SentLabels(device: EdgeDevice, updated: EdgeDevice, message: Message, a: Attempt)
    requires |a.labels| == 4 && updated == device.(deployments := updated.deployments)
    ensures var d := Sent(device, updated, message.hardware, a);
      && d.name == device.name
      && (GetsThrough(a, device.labels, message.hardware) ==> d.labels + message.hardware == d.labels)
  {
    var hardware := message.hardware;
    ConfirmedMeansWritten(a.labels[1..], false);
    assert device.labels + hardware + hardware == device.labels + hardware;
  }

  lemma ConfirmedMeansWritten(retries: seq<LabelTry>, nothingLeft: bool)
    ensures RetryConfirmed(retries, nothingLeft) && !nothingLeft ==> RetryWritten(retries)
  {
    if RetryConfirmed(retries, nothingLeft) && !nothingLeft {
      var i :| 0 <= i < |retries| && !retries[i].readFails &&
        (retries[i].reply == Accepted || RetryWritten(retries[..i]));
      if RetryWritten(retries[..i]) {
        MoreWritten(retries, i);
      }
    }
  }

  lemma OneMoreWritten(attempts: seq<Attempt>, a: Attempt)
    ensures AnyWritten(attempts + [a]) <==> AnyWritten(attempts) || StatusWritten(a)
  {
    var all := attempts + [a];
    assert all[|attempts|] == a;
    forall i | 0 <= i < |attempts| ensures all[i] == attempts[i] {}
  }

  lemma EntriesAddUp(m: EntryMap, m': EntryMap, was: EntryMap, message: Message, attempts: seq<Attempt>, a: Attempt)
    requires m == AfterAttempts(was, message.workloads, attempts)
    requires m' == if StatusWritten(a) then ReportAll(m, message.workloads, a.now) else m
    ensures m' == AfterAttempts(was, message.workloads, attempts + [a])
  {
    assert (attempts + [a])[..|attempts|] == attempts;
  }

  lemma AttemptsAddUp(was: EdgeDevice, d: EdgeDevice, d': EdgeDevice, message: Message, attempts: seq<Attempt>,
      a: Attempt)
    requires FourTries(attempts) && |a.labels| == 4
    requires IsAfter(d, was, message, attempts) && AttemptEffect(d, d', message, a)
    ensures FourTries(attempts + [a])
    ensures IsAfter(d', was, message, attempts + [a])
    ensures AnyWritten(attempts + [a]) <==> AnyWritten(attempts) || StatusWritten(a)
  {
    EntriesAddUp(ByName(d.deployments), ByName(d'.deployments), ByName(was.deployments), message, attempts, a);
    OneMoreWritten(attempts, a);
    OneMoreSent(was.labels, message.hardware, attempts, a);
  }

  lemma OneMoreSent(labels: LabelMap, hardware: LabelMap, attempts: seq<Attempt>, a: Attempt)
    requires FourTries(attempts) && |a.labels| == 4
    ensures FourTries(attempts + [a])
    ensures LabelsSent(labels, hardware, attempts + [a]) ==
      if SendsLabels(a) then LabelsSent(labels, hardware, attempts) + hardware
      else LabelsSent(labels, hardware, attempts)
  {
    var all := attempts + [a];
    assert all[|attempts|] == a;
    forall i | 0 <= i < |attempts| ensures all[i] == attempts[i] {}
    assert labels + hardware + hardware == labels + hardware;
  }

  /** The same for the store: only the one device may change. */
  ghost predicate StoreEffect(was: Devices, devices: Devices, name: Name, message: Message, a: Attempt)
    requires |a.labels| == 4
  {
    && devices.Keys == was.Keys
    && (forall k :: k in devices && k != name ==> devices[k] == was[k])
    && (name in devices ==> AttemptEffect(was[name], devices[name], message, a))
  }

  ghost predicate StoreAfter(was: Devices, devices: Devices, name: Name, message: Message, attempts: seq<Attempt>)
    requires FourTries(attempts)
  {
    && devices.Keys == was.Keys
    && (forall k :: k in devices && k != name ==> devices[k] == was[k])
    && (name in devices ==> IsAfter(devices[name], was[name], message, attempts))
  }

  lemma StoreAddsUp(was: Devices, devices: Devices, devices': Devices, name: Name, message: Message,
      attempts: seq<Attempt>, a: Attempt)
    requires FourTries(attempts) && |a.labels| == 4
    requires StoreAfter(was, devices, name, message, attempts) && StoreEffect(devices, devices', name, message, a)
    ensures FourTries(attempts + [a])
    ensures StoreAfter(was, devices', name, message, attempts + [a])
  {
    if name in devices {
      AttemptsAddUp(was[name], devices[name], devices'[name], message, attempts, a);
    }
  }

  lemma NextAddsUp(was: Devices, devices: Devices, devices': Devices, name: Name, message: Message,
      attempts: seq<Attempt>, i: nat)
    requires i < |attempts| && FourTries(attempts)
    requires StoreAfter(was, devices, name, message, attempts[..i])
    requires StoreEffect(devices, devices', name, message, attempts[i])
    ensures StoreAfter(was, devices', name, message, attempts[..i + 1])
    ensures StatusWritten(attempts[i]) ==> AnyWritten(attempts[..i + 1])
  {
    assert attempts[..i + 1] == attempts[..i] + [attempts[i]];
    StoreAddsUp(was, devices, devices', name, message, attempts[..i], attempts[i]);
    OneMoreWritten(attempts[..i], attempts[i]);
  }

  /** A confirmed attempt leaves the hardware labels in place. */
  predicate Confirmed(devices: Devices, name: Name, message: Message) {
    name in devices && devices[name].labels + message.hardware == devices[name].labels
  }

  lemma OneDeviceEffect(was: Devices, name: Name, d: EdgeDevice, message: Message, a: Attempt)
    requires |a.labels| == 4 && name in was && AttemptEffect(was[name], d, message, a)
    ensures StoreEffect(was, was[name := d], name, message, a)
  {
  }

  /** What is sent, and that nothing else changes. */
  lemma SentChangesOne(was: Devices, name: Name, updated: EdgeDevice, message: Message, a: Attempt)
    requires |a.labels| == 4 && !a.readFails && name in was && was[name].name == name
    requires StatusSent(was[name], updated, message, a)
    ensures var d := Sent(was[name], updated, message.hardware, a);
      && d.name == name
      && StoreEffect(was, was[name := d], name, message, a)
      && was[name := updated][name := d] == was[name := d] && was[name := was[name]] == was
      && (GetsThrough(a, was[name].labels, message.hardware) ==> d.labels + message.hardware == d.labels)
  {
    SentIsTheEffect(was[name], updated, message, a);
    SentLabels(was[name], updated, message, a);
    OneDeviceEffect(was, name, Sent(was[name], updated, message.hardware, a), message, a);
  }

  /** The attempt finds the device and gets through, after what the earlier ones have left. */
  predicate Succeeds(was: Devices, name: Name, message: Message, attempts: seq<Attempt>, i: nat)
    requires i < |attempts| && FourTries(attempts)
  {
    name in was &&
    GetsThrough(attempts[i], LabelsSent(was[name].labels, message.hardware, attempts[..i]), message.hardware)
  }

  /** The attempt fails in a way that is worth another one: its read fails, or the device
      is there and the attempt does not get through. */
  predicate TriesAgain(was: Devices, name: Name, message: Message, attempts: seq<Attempt>, i: nat)
    requires i < |attempts| && FourTries(attempts)
  {
    attempts[i].readFails || (name in was && !Succeeds(was, name, message, attempts, i))
  }

  lemma AttemptMeets(was: Devices, devices: Devices, name: Name, message: Message, attempts: seq<Attempt>, i: nat)
    requires i < |attempts| && FourTries(attempts) && StoreAfter(was, devices, name, message, attempts[..i])
    ensures name in devices <==> name in was
    ensures Succeeds(was, name, message, attempts, i) <==>
      name in devices && GetsThrough(attempts[i], devices[name].labels, message.hardware)
  {
  }

  class SynchronousHandler {
    const server: Server
    var events: nat

    constructor (server: Server)
      ensures this.server == server && events == 0
    {
      this.server, events := server, 0;
    }

    /** `updateStatus`: the local copy keeps what was sent. */
    method UpdateStatus(device: EdgeDevice, message: Message, a: Attempt) returns (ok: bool, updated: EdgeDevice)
      requires device.name in server.devices && server.devices[device.name] == device
      modifies server`devices
      ensures StatusSent(device, updated, message, a)
      ensures server.devices == if a.status == Rejected then old(server.devices)
                                else old(server.devices)[device.name := updated]
      ensures ok == (a.status == Accepted)
    {
      var deployments := UpdateDeploymentStatuses(device.deployments, message.workloads, a.now);
      EnumerationByName(deployments, ReportAll(ByName(device.deployments), message.workloads, a.now));
      updated := device.(deployments := deployments);
      PatchesOfFreshCopies(device, updated);
      ok := server.PatchDeviceStatus(device, updated, a.status);
    }

    /** The writes of one attempt: status first, labels only if it was accepted. */
    method SendUpdates(device: EdgeDevice, message: Message, a: Attempt)
      returns (ok: bool, ghost updated: EdgeDevice)
      requires !a.readFails && |a.labels| == 4
      requires device.name in server.devices && server.devices[device.name] == device
      modifies server`devices
      ensures StatusSent(device, updated, message, a)
      ensures server.devices == old(server.devices)[device.name := Sent(device, updated, message.hardware, a)]
      ensures ok <==> GetsThrough(a, device.labels, message.hardware)
    {
      ghost var was := server.devices;
      var sent: EdgeDevice;
      ok, sent := UpdateStatus(device, message, a);
      updated := sent;
      if ok {
        ok := LabelHardware(sent, message, a);
      } else {
        assert was == was[device.name := device];
      }
    }

    /** `updateLabels` of the heartbeat. */
    method LabelHardware(device: EdgeDevice, message: Message, a: Attempt) returns (ok: bool)
      requires |a.labels| == 4
      requires device.name in server.devices && server.devices[device.name] == device
      modifies server`devices
      ensures server.devices == old(server.devices)[device.name := device.(labels :=
                if LabelsReach(a.labels) then device.labels + message.hardware else device.labels)]
      ensures ok <==> LabelsConfirmed(a.labels, device.labels, message.hardware)
    {
      ok := server.UpdateLabels(device, message.hardware, a.labels);
      StalePatch(device.labels, device.labels, message.hardware);
      ConfirmedMeansWritten(a.labels[1..], false);
      assert device.labels + message.hardware + message.hardware == device.labels + message.hardware;
    }

    /** One attempt, `process`. Events are recorded only while nothing was retried. */
    method ProcessOnce(name: Name, message: Message, retries: nat, a: Attempt) returns (verdict: Verdict, retry: bool)
      requires server.Valid() && |a.labels| == 4
      modifies this`events, server`devices
      ensures server.Valid()
      ensures StoreEffect(old(server.devices), server.devices, name, message, a)
      ensures events == old(events) +
        if !a.readFails && name in old(server.devices) && retries == 0 then message.events else 0
      ensures verdict == NotFound <==> !a.readFails && name !in old(server.devices)
      ensures verdict == Processed <==>
        name in old(server.devices) && GetsThrough(a, old(server.devices)[name].labels, message.hardware)
      ensures retry <==> verdict == Failed
      ensures verdict == Processed ==> Confirmed(server.devices, name, message)
    {
      if a.readFails {
        return Failed, true;
      }
      if name !in server.devices {
        return NotFound, false;
      }
      if retries == 0 {
        events := events + message.events;
      }
      ghost var was, updated := server.devices, server.devices[name];
      var ok;
      ok, updated := SendUpdates(server.devices[name], message, a);
      SentChangesOne(was, name, updated, message, a);
      if !ok {
        return Failed, true;
      }
      return Processed, false;
    }

    /** For every pattern of failures: attempts are made until one gets through or finds no
        device, at most four, and the verdict is that of the last one. Events are recorded
        at most once, namely when the first read succeeds. The device is left with the
        reports and labels of the attempts that were written. */
    method Process(name: Name, message: Message, attempts: seq<Attempt>) returns (verdict: Verdict, used: nat)
      requires server.Valid()
      requires |attempts| == 4 && FourTries(attempts)
      modifies this`events, server`devices
      ensures 1 <= used <= 4
      ensures events == old(events) +
        if !attempts[0].readFails && name in old(server.devices) then message.events else 0
      ensures StoreAfter(old(server.devices), server.devices, name, message, attempts[..used])
      ensures forall i :: 0 <= i < used - 1 ==> TriesAgain(old(server.devices), name, message, attempts, i)
      ensures verdict == Failed <==>
        used == 4 && TriesAgain(old(server.devices), name, message, attempts, 3)
      ensures verdict == NotFound <==> !attempts[used - 1].readFails && name !in old(server.devices)
      ensures verdict == Processed <==> Succeeds(old(server.devices), name, message, attempts, used - 1)
      ensures verdict == Processed ==> Confirmed(server.devices, name, message)
    {
      ghost var was := server.devices;
      var i, retries, retry := 0, 0, true;
      verdict := Failed;
      while i < 4 && retry
        invariant 0 <= i <= 4 && retries == i
        invariant i == 0 ==> retry
        invariant verdict == Failed <==> retry
        invariant server.Valid()
        invariant events == old(events) +
          if i > 0 && !attempts[0].readFails && name in was then message.events else 0
        invariant StoreAfter(was, server.devices, name, message, attempts[..i])
        invariant forall j :: 0 <= j < i - 1 ==> TriesAgain(was, name, message, attempts, j)
        invariant i > 0 ==> (verdict == Processed <==> Succeeds(was, name, message, attempts, i - 1))
        invariant i > 0 ==> (verdict == NotFound <==> !attempts[i - 1].readFails && name !in was)
        invariant verdict == Processed ==> Confirmed(server.devices, name, message)
        decreases 4 - i
      {
        ghost var before := server.devices;
        AttemptMeets(was, before, name, message, attempts, i);
        verdict, retry := ProcessOnce(name, message, retries, attempts[i]);
        NextAddsUp(was, before, server.devices, name, message, attempts, i);
        i, retries := i + 1, retries + 1;
      }
      used := i;
    }
  }
}
