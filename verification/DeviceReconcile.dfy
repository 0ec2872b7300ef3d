/** What one label reconcile of a device does to the cluster. */
module DeviceReconcile {
  import opened Kube
  import opened Labels
  import opened Placement
  import opened SelectorIndex
  import opened DeploymentReconcile

  // ----------------------------------------------------- the matched deployments

  /** The deployments that some lookup of the device lists. */
  function Candidates(deployments: Deployments, d: EdgeDevice): set<Name> {
    set n | n in deployments && Listed(deployments[n].labels, d)
  }

  /** `updateDeployments` gives up before it writes anything. */
  predicate SelectionAborts(deployments: Deployments, d: EdgeDevice) {
    || LookupsFail(d)
    || exists n :: n in Candidates(deployments, d) && MatchFails(deployments[n].spec, d)
  }

  function Matched(deployments: Deployments, d: EdgeDevice): set<Name> {
    set n | n in Candidates(deployments, d) && IsDeploymentMatchDevice(deployments[n].spec, d)
  }

  // ------------------------------------------------------------ the updated copy

  /** The state of the first loop of `createUpdatedDevice`: the entries copied, the
      matches not yet consumed, the labels left, and whether anything was dropped. */
  datatype Scan = Scan(kept: seq<Entry>, left: set<Name>, labels: LabelMap, updated: bool)

  function ScanEntry(s: Scan, e: Entry): Scan {
    if e.name in s.left
    then s.(kept := s.kept + [e], left := s.left - {e.name})
    else s.(labels := s.labels - {WorkloadLabel(e.name)}, updated := true)
  }

  function ScanEntries(entries: seq<Entry>, matched: set<Name>, labels: LabelMap): Scan {
    if entries == [] then Scan([], matched, labels, false)
    else ScanEntry(ScanEntries(entries[..|entries| - 1], matched, labels), entries[|entries| - 1])
  }

  ghost predicate Orders(order: seq<Name>, names: set<Name>) {
    && (forall i, j :: 0 <= i < j < |order| ==> order[i] != order[j])
    && names == set n | n in order
  }

  function NewEntries(order: seq<Name>): (r: seq<Entry>)
    ensures |r| == |order|
    ensures forall i :: 0 <= i < |order| ==> r[i] == Entry(order[i], DEPLOYING, 0, 0)
  {
    seq(|order|, i requires 0 <= i < |order| => Entry(order[i], DEPLOYING, 0, 0))
  }

  function WorkloadLabels(names: set<Name>): LabelMap {
    map n | n in names :: WorkloadLabel(n) := "true"
  }

  /** The copy that `createUpdatedDevice` returns; `order` is the order in which the
      remaining matches come out of the map. */
  function Updated(d: EdgeDevice, matched: set<Name>, order: seq<Name>): Option<EdgeDevice> {
    var s := ScanEntries(d.deployments, matched, d.labels);
    if s.updated || s.left != {}
    then Some(d.(deployments := s.kept + NewEntries(order), labels := s.labels + WorkloadLabels(s.left)))
    else None
  }

  /** The matches that have no entry yet. */
  function NewNames(d: EdgeDevice, matched: set<Name>): set<Name> {
    ScanEntries(d.deployments, matched, d.labels).left
  }

  // ------------------------------------------------------------------ reconcile

  datatype DeviceAnswers = DeviceAnswers(readFails: bool, listFails: bool, replies: Replies)

  /** Status is written before the labels, from the same copy. */
  function WriteUpdated(d: EdgeDevice, updated: EdgeDevice, r: Replies): Outcome {
    var first := Write(d, Some(d.(deployments := updated.deployments)), r.status);
    if first.ok
    then Write(first.device, Some(first.device.(labels := updated.labels)), r.labels)
    else first
  }

  function ReconcileDevice(w: World, k: Name, a: DeviceAnswers, order: seq<Name>): (World, Result) {
    if a.readFails then (w, FAILED)
    else if k !in w.devices then (w, DONE)
    else
      var d := w.devices[k];
      if d.deleting then (w, DONE)
      else if a.listFails || SelectionAborts(w.deployments, d) then (w, FAILED)
      else match Updated(d, Matched(w.deployments, d), order)
        case None => (w, DONE)
        case Some(u) =>
          var p := WriteUpdated(d, u, a.replies);
          (w.(devices := w.devices[k := p.device]), if p.ok then DONE else FAILED)
  }

  // --------------------------------------------------- what the copy looks like

  function Keep(entries: seq<Entry>, names: set<Name>): (r: seq<Entry>)
    ensures Names(r) == Names(entries) * names
    ensures UniqueNames(entries) ==> UniqueNames(r)
    ensures Names(entries) <= names ==> r == entries
  {
    if entries == [] then []
    else
      var init, e := entries[..|entries| - 1], entries[|entries| - 1];
      var r := Keep(init, names);
      assert entries == init + [e];
      NamesOneMore(init, e);
      UniqueOneMore(init, e);
      NamesOneMore(r, e);
      UniqueOneMore(r, e);
      if e.name in names then r + [e] else r
  }

  function WorkloadKeys(names: set<Name>): set<string> {
    set n | n in names :: WorkloadLabel(n)
  }

  lemma DropOneMore(labels: LabelMap, names: set<Name>, n: Name)
    ensures labels - WorkloadKeys(names + {n}) == (labels - WorkloadKeys(names)) - {WorkloadLabel(n)}
  {
    assert WorkloadKeys(names + {n}) == WorkloadKeys(names) + {WorkloadLabel(n)};
  }

  /** The loop with its bookkeeping, on entries with unique names: it keeps the
      matched entries in order, leaves the matches without entry, and drops the
      labels of the rest. */
  lemma {:induction false} ScanClosedForm(entries: seq<Entry>, matched: set<Name>, labels: LabelMap)
    requires UniqueNames(entries)
    ensures ScanEntries(entries, matched, labels)
         == Scan(Keep(entries, matched), matched - Names(entries),
                 labels - WorkloadKeys(Names(entries) - matched), !(Names(entries) <= matched))
  {
    if entries == [] {
      assert labels - WorkloadKeys({}) == labels;
    } else {
      var init, e := entries[..|entries| - 1], entries[|entries| - 1];
      assert entries == init + [e];
      NamesOneMore(init, e);
      UniqueOneMore(init, e);
      ScanClosedForm(init, matched, labels);
      if e.name in matched {
        assert Names(entries) - matched == Names(init) - matched;
        assert matched - Names(entries) == (matched - Names(init)) - {e.name};
      } else {
        assert Names(entries) - matched == Names(init) - matched + {e.name};
        assert matched - Names(entries) == matched - Names(init);
        DropOneMore(labels, Names(init) - matched, e.name);
      }
    }
  }

  lemma NewEntriesNames(kept: seq<Entry>, order: seq<Name>, names: set<Name>)
    requires Orders(order, names) && names !! Names(kept) && UniqueNames(kept)
    ensures Names(kept + NewEntries(order)) == Names(kept) + names
    ensures UniqueNames(kept + NewEntries(order))
  {
    var all := kept + NewEntries(order);
    forall n | n in names ensures n in Names(all) {
      var i :| 0 <= i < |order| && order[i] == n;
      assert all[|kept| + i].name == n && all[|kept| + i] in all;
    }
    forall n | n in Names(kept) ensures n in Names(all) {
      var i :| 0 <= i < |kept| && kept[i].name == n;
      assert all[i].name == n && all[i] in all;
    }
    forall i | 0 <= i < |kept| ensures all[i].name in Names(kept) {}
    forall i | |kept| <= i < |all| ensures all[i].name in names && all[i].name == order[i - |kept|] {
      assert order[i - |kept|] in order;
    }
  }

  /** Labels and status tell the same story about which deployments are placed. */
  ghost predicate InStep(d: EdgeDevice) {
    forall n :: (HasDeployment(d, n) <==> HasLabelForDeployment(d, n)) &&
                (HasLabelForDeployment(d, n) ==> Labelled(d, n))
  }

  /** The names that come and go. */
  function Came(d: EdgeDevice, matched: set<Name>): set<Name> {
    matched - Names(d.deployments)
  }

  function Went(d: EdgeDevice, matched: set<Name>): set<Name> {
    Names(d.deployments) - matched
  }

  lemma UpdatedClosedForm(d: EdgeDevice, matched: set<Name>, order: seq<Name>)
    requires UniqueNames(d.deployments)
    ensures Updated(d, matched, order) ==
      if Names(d.deployments) == matched then None
      else Some(d.(deployments := Keep(d.deployments, matched) + NewEntries(order),
                   labels := (d.labels - WorkloadKeys(Went(d, matched))) + WorkloadLabels(Came(d, matched))))
  {
    var entries := d.deployments;
    ScanClosedForm(entries, matched, d.labels);
    var s := ScanEntries(entries, matched, d.labels);
    assert s.left == Came(d, matched);
    assert s.labels == d.labels - WorkloadKeys(Went(d, matched));
    assert (s.updated || s.left != {}) <==> Names(entries) != matched by {
      assert s.updated <==> !(Names(entries) <= matched);
      if !(matched <= Names(entries)) {
        var n :| n in matched && n !in Names(entries);
        assert n in s.left;
      }
    }
  }

  lemma LabelsOfTheDifference(labels: LabelMap, came: set<Name>, went: set<Name>)
    requires came !! went
    ensures var r := (labels - WorkloadKeys(went)) + WorkloadLabels(came);
      forall l :: (l in r <==> l in WorkloadKeys(came) || (l in labels && l !in WorkloadKeys(went)))
               && (l in r ==> r[l] == if l in WorkloadKeys(came) then "true" else labels[l])
  {
    WorkloadLabelsKeys(came);
    forall l | l in WorkloadKeys(came) ensures l !in WorkloadKeys(went) {
      WorkloadLabelsKeys(went);
    }
  }

  /** `createUpdatedDevice` computes the set difference: with unique names it returns
      nothing exactly when the names are already the matched ones; otherwise the copy
      has exactly the matched names, the kept entries as they were and in order, new
      ones deploying, and it changed only the labels of what came and went. */
  lemma UpdatedIsTheDifference(d: EdgeDevice, matched: set<Name>, order: seq<Name>)
    requires UniqueNames(d.deployments)
    requires Orders(order, Came(d, matched))
    ensures Updated(d, matched, order).None? <==> Names(d.deployments) == matched
    ensures Updated(d, matched, order).Some? ==>
      var u := Updated(d, matched, order).value;
      && u == d.(deployments := Keep(d.deployments, matched) + NewEntries(order), labels := u.labels)
      && Names(u.deployments) == matched && UniqueNames(u.deployments)
      && forall l :: (l in u.labels <==> (l in WorkloadKeys(Came(d, matched)) ||
                                          (l in d.labels && l !in WorkloadKeys(Went(d, matched)))))
                  && (l in u.labels ==>
                       u.labels[l] == if l in WorkloadKeys(Came(d, matched)) then "true" else d.labels[l])
  {
    UpdatedClosedForm(d, matched, order);
    NewEntriesNames(Keep(d.deployments, matched), order, Came(d, matched));
    LabelsOfTheDifference(d.labels, Came(d, matched), Went(d, matched));
  }

  lemma WorkloadLabelsKeys(names: set<Name>)
    ensures WorkloadLabels(names).Keys == WorkloadKeys(names)
    ensures forall l :: l in WorkloadKeys(names) ==> WorkloadLabels(names)[l] == "true"
    ensures forall n :: WorkloadLabel(n) in WorkloadKeys(names) <==> n in names
  {
  }

  lemma OneWorkloadMore(plain: LabelMap, names: set<Name>, n: Name)
    ensures plain + WorkloadLabels(names + {n}) == (plain + WorkloadLabels(names))[WorkloadLabel(n) := "true"]
  {
    var extended := WorkloadLabels(names)[WorkloadLabel(n) := "true"];
    forall l ensures l in WorkloadLabels(names + {n}) <==> l in extended {}
    assert WorkloadLabels(names + {n}) == extended;
  }

  lemma OneWorkloadLess(plain: LabelMap, names: set<Name>, n: Name)
    requires WorkloadLabel(n) !in plain
    ensures plain + WorkloadLabels(names - {n}) == (plain + WorkloadLabels(names)) - {WorkloadLabel(n)}
  {
    var reduced := WorkloadLabels(names) - {WorkloadLabel(n)};
    forall l ensures l in WorkloadLabels(names - {n}) <==> l in reduced {}
    assert WorkloadLabels(names - {n}) == reduced;
  }

  /** A device whose labels and status agree still does after the update. */
  lemma UpdateKeepsInStep(d: EdgeDevice, matched: set<Name>, order: seq<Name>)
    requires UniqueNames(d.deployments) && InStep(d)
    requires Orders(order, Came(d, matched))
    ensures Updated(d, matched, order).Some? ==> InStep(Updated(d, matched, order).value)
  {
    UpdatedIsTheDifference(d, matched, order);
    if Updated(d, matched, order).Some? {
      var u := Updated(d, matched, order).value;
      WorkloadLabelsKeys(Came(d, matched));
      WorkloadLabelsKeys(Went(d, matched));
      forall n
        ensures (HasDeployment(u, n) <==> HasLabelForDeployment(u, n)) &&
                (HasLabelForDeployment(u, n) ==> Labelled(u, n))
      {
        assert HasDeployment(d, n) <==> HasLabelForDeployment(d, n);
      }
    }
  }

  /** Updating twice does nothing the second time, whatever became of the labels: so
      the event loop stops, and so a label patch that failed after its status patch
      is never sent again by this controller. */
  lemma SecondUpdateIsEmpty(d: EdgeDevice, matched: set<Name>, order: seq<Name>, labels: LabelMap, again: seq<Name>)
    requires UniqueNames(d.deployments)
    requires Orders(order, Came(d, matched)) && Updated(d, matched, order).Some?
    ensures var halfway := d.(deployments := Updated(d, matched, order).value.deployments, labels := labels);
      Updated(halfway, matched, again) == None
  {
    UpdatedIsTheDifference(d, matched, order);
    var halfway := d.(deployments := Updated(d, matched, order).value.deployments, labels := labels);
    ScanClosedForm(halfway.deployments, matched, labels);
  }

  // ------------------------------------------------------------- duplicate names

  function Occurrences(entries: seq<Entry>, n: Name): nat {
    if entries == [] then 0
    else Occurrences(entries[..|entries| - 1], n) + if entries[|entries| - 1].name == n then 1 else 0
  }

  lemma {:induction false} OccurrencesOfNames(entries: seq<Entry>, n: Name)
    ensures n in Names(entries) <==> Occurrences(entries, n) > 0
    ensures UniqueNames(entries) ==> Occurrences(entries, n) <= 1
  {
    if entries != [] {
      var init, e := entries[..|entries| - 1], entries[|entries| - 1];
      assert entries == init + [e];
      OccurrencesOfNames(init, n);
      NamesOneMore(init, e);
      UniqueOneMore(init, e);
    }
  }

  lemma {:induction false} ScanOfDuplicates(entries: seq<Entry>, matched: set<Name>, labels: LabelMap, n: Name)
    requires n in matched
    ensures var s := ScanEntries(entries, matched, labels);
      && (WorkloadLabel(n) in s.labels <==> WorkloadLabel(n) in labels && Occurrences(entries, n) <= 1)
      && (n in s.left <==> Occurrences(entries, n) == 0)
      && (Occurrences(entries, n) > 1 ==> s.updated)
  {
    if entries != [] {
      var e := entries[|entries| - 1];
      ScanOfDuplicates(entries[..|entries| - 1], matched, labels, n);
      KeySpaces(n, e.name);
    }
  }

  /** With or without unique names: a matched deployment that has an entry keeps its label
      if and only if the entry is the only one of that name. More than one forces an
      update, which drops the label of the entry it keeps. */
  lemma DuplicateDropsTheLabel(d: EdgeDevice, matched: set<Name>, order: seq<Name>, n: Name)
    requires n in matched && HasDeployment(d, n)
    ensures Occurrences(d.deployments, n) > 1 ==> Updated(d, matched, order).Some?
    ensures Updated(d, matched, order).Some? ==>
      (HasLabelForDeployment(Updated(d, matched, order).value, n) <==>
         HasLabelForDeployment(d, n) && Occurrences(d.deployments, n) == 1)
  {
    OccurrencesOfNames(d.deployments, n);
    ScanOfDuplicates(d.deployments, matched, d.labels, n);
    WorkloadLabelsKeys(ScanEntries(d.deployments, matched, d.labels).left);
  }
}
