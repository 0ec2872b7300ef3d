/** Devices that carry exactly a given set of deployments, and how clean passes of
    either controller lead from one such device to another. */
module ExactPlacement {
  import opened Kube
  import opened Labels
  import opened Placement
  import opened SelectorIndex
  import opened DeploymentReconcile
  import opened DeviceReconcile
  import opened Settling
  import opened Runs
  import opened RunProofs
  import opened Rivals

  /** `d` is `d0` with exactly these deployments: old entries as they were, new ones
      deploying, workload labels to match, all other labels untouched. */
  ghost predicate HasExactly(d: EdgeDevice, d0: EdgeDevice, names: set<Name>) {
    && d == Marked(d0, names).(deployments := d.deployments)
    && UniqueNames(d.deployments) && Names(d.deployments) == names
    && forall e :: e in d.deployments ==>
         e in d0.deployments || (e == Entry(e.name, DEPLOYING, 0, 0) && e.name !in Names(d0.deployments))
  }

  ghost predicate SamePlacement(a: EdgeDevice, b: EdgeDevice) {
    && a == b.(deployments := a.deployments)
    && UniqueNames(a.deployments) && UniqueNames(b.deployments)
    && forall e :: e in a.deployments <==> e in b.deployments
  }

  lemma EntriesByName(entries: seq<Entry>, e: Entry, f: Entry)
    requires UniqueNames(entries) && e in entries && f in entries && e.name == f.name
    ensures e == f
  {
  }

  /** The description leaves nothing open but the order of the entries. */
  lemma ExactMeansSame(a: EdgeDevice, b: EdgeDevice, d0: EdgeDevice, names: set<Name>)
    requires UniqueNames(d0.deployments) && HasExactly(a, d0, names) && HasExactly(b, d0, names)
    ensures SamePlacement(a, b)
  {
    forall e | e in a.deployments ensures e in b.deployments { SameEntry(a, b, d0, names, e); }
    forall e | e in b.deployments ensures e in a.deployments { SameEntry(b, a, d0, names, e); }
  }

  lemma SameEntry(a: EdgeDevice, b: EdgeDevice, d0: EdgeDevice, names: set<Name>, e: Entry)
    requires UniqueNames(d0.deployments) && HasExactly(a, d0, names) && HasExactly(b, d0, names)
    requires e in a.deployments
    ensures e in b.deployments
  {
    assert e.name in Names(a.deployments);
    assert e.name in Names(b.deployments);
    var f :| f in b.deployments && f.name == e.name;
    if e in d0.deployments && f in d0.deployments {
      EntriesByName(d0.deployments, e, f);
    }
  }

  lemma InStepIsExact(d: EdgeDevice)
    requires UniqueNames(d.deployments) && InStep(d)
    ensures HasExactly(d, d, Names(d.deployments))
  {
    var labels := PlainPart(d.labels) + WorkloadLabels(Names(d.deployments));
    forall l
      ensures (l in labels <==> l in d.labels) && (l in labels ==> labels[l] == d.labels[l])
    {
      InStepLabel(d, l);
    }
    assert labels == d.labels;
  }

  lemma InStepLabel(d: EdgeDevice, l: string)
    requires InStep(d)
    ensures l in WorkloadLabels(Names(d.deployments)) <==> IsWorkloadLabel(l) && l in d.labels
    ensures l in WorkloadLabels(Names(d.deployments)) ==> WorkloadLabels(Names(d.deployments))[l] == d.labels[l]
  {
    WorkloadLabelsKeys(Names(d.deployments));
    if IsWorkloadLabel(l) {
      WorkloadLabelsAreNamed(l);
      var n :| l == WorkloadLabel(n);
      KeySpaces(n, n);
      assert HasDeployment(d, n) <==> HasLabelForDeployment(d, n);
      assert HasLabelForDeployment(d, n) ==> Labelled(d, n);
    }
  }

  lemma ExactIsInStep(d: EdgeDevice, d0: EdgeDevice, names: set<Name>, n: Name)
    requires HasExactly(d, d0, names)
    ensures HasDeployment(d, n) <==> n in names
    ensures Labelled(d, n) <==> n in names
    ensures HasLabelForDeployment(d, n) <==> n in names
  {
    WorkloadLabelsKeys(names);
  }

  lemma WithoutEntries(entries: seq<Entry>, n: Name)
    ensures forall e :: e in Without(entries, n) ==> e in entries && e.name != n
  {
  }

  /** A clean pass of one deployment over one device, wherever its selection is stable. */
  lemma SettleOne(d: EdgeDevice, d0: EdgeDevice, names: set<Name>, dep: EdgeDeployment, wanted: bool)
    requires UniqueNames(d0.deployments) && HasExactly(d, d0, names)
    requires Selects(dep.spec, d) <==> wanted
    requires wanted && dep.name in Names(d0.deployments) ==> dep.name in names
    ensures HasExactly(Settled(dep, d), d0, if wanted then names + {dep.name} else names - {dep.name})
  {
    var n := dep.name;
    ExactIsInStep(d, d0, names, n);
    OneWorkloadMore(PlainPart(d0.labels), names, n);
    OneWorkloadLess(PlainPart(d0.labels), names, n);
    if wanted {
      if n in names {
        assert names + {n} == names;
      } else {
        AddedIsExact(d, d0, names, n);
      }
    } else if n in names {
      WithoutEntries(d.deployments, n);
    } else {
      assert names - {n} == names;
    }
  }

  lemma AddedIsExact(d: EdgeDevice, d0: EdgeDevice, names: set<Name>, n: Name)
    requires HasExactly(d, d0, names) && n !in names && n !in Names(d0.deployments)
    requires d.labels[WorkloadLabel(n) := "true"] == PlainPart(d0.labels) + WorkloadLabels(names + {n})
    requires !HasLabelForDeployment(d, n)
    ensures HasExactly(Added(n, d), d0, names + {n})
  {
    WithoutAppended(d.deployments, Entry(n, DEPLOYING, 0, 0));
  }

  // ----------------------------------------------- label-reconciling one device

  const NO_DEVICE_FAULTS := DeviceAnswers(false, false, ALL_ACCEPTED)

  /** What a label reconcile without faults leaves of its device. */
  function CleanUpdate(d: EdgeDevice, matched: set<Name>, order: seq<Name>): EdgeDevice {
    match Updated(d, matched, order)
    case None => d
    case Some(u) => WriteUpdated(d, u, ALL_ACCEPTED).device
  }

  lemma CleanLabelsPass(w: World, k: Name, order: seq<Name>)
    requires k in w.devices && !w.devices[k].deleting && !SelectionAborts(w.deployments, w.devices[k])
    ensures ReconcileDevice(w, k, NO_DEVICE_FAULTS, order).0 == w.(devices :=
      w.devices[k := CleanUpdate(w.devices[k], Matched(w.deployments, w.devices[k]), order)])
  {
    assert w.devices == w.devices[k := w.devices[k]];
  }

  lemma CleanUpdateIsExact(d: EdgeDevice, matched: set<Name>, order: seq<Name>)
    requires UniqueNames(d.deployments) && InStep(d) && Orders(order, Came(d, matched))
    ensures HasExactly(CleanUpdate(d, matched, order), d, matched)
  {
    UpdatedIsTheDifference(d, matched, order);
    if Updated(d, matched, order).None? {
      InStepIsExact(d);
    } else {
      UpdatedIsExact(d, matched, order);
      WriteUpdatedStages(d, matched, order, ALL_ACCEPTED);
    }
  }

  lemma PlainPartStays(labels: LabelMap, came: set<Name>, went: set<Name>)
    ensures PlainPart((labels - WorkloadKeys(went)) + WorkloadLabels(came)) == PlainPart(labels)
  {
    assert forall l :: l in WorkloadLabels(came) ==> IsWorkloadLabel(l);
    assert forall l :: l in WorkloadKeys(went) ==> IsWorkloadLabel(l);
  }

  lemma PlainPartOfUpdated(d: EdgeDevice, matched: set<Name>, order: seq<Name>)
    requires UniqueNames(d.deployments) && Updated(d, matched, order).Some?
    ensures PlainPart(Updated(d, matched, order).value.labels) == PlainPart(d.labels)
  {
    UpdatedClosedForm(d, matched, order);
    PlainPartStays(d.labels, Came(d, matched), Went(d, matched));
  }

  lemma UpdatedIsExact(d: EdgeDevice, matched: set<Name>, order: seq<Name>)
    requires UniqueNames(d.deployments) && InStep(d)
    requires Orders(order, Came(d, matched)) && Updated(d, matched, order).Some?
    ensures HasExactly(Updated(d, matched, order).value, d, matched)
  {
    var u := Updated(d, matched, order).value;
    UpdatedIsTheDifference(d, matched, order);
    UpdateKeepsInStep(d, matched, order);
    InStepIsExact(u);
    PlainPartOfUpdated(d, matched, order);
    UpdatedEntries(d, matched, order);
  }

  lemma UpdatedEntries(d: EdgeDevice, matched: set<Name>, order: seq<Name>)
    requires UniqueNames(d.deployments)
    requires Orders(order, Came(d, matched)) && Updated(d, matched, order).Some?
    ensures forall e :: e in Updated(d, matched, order).value.deployments ==>
      e in d.deployments || (e == Entry(e.name, DEPLOYING, 0, 0) && e.name !in Names(d.deployments))
  {
    var u := Updated(d, matched, order).value;
    UpdatedClosedForm(d, matched, order);
    KeptEntries(d.deployments, matched);
    forall e | e in u.deployments
      ensures e in d.deployments || (e == Entry(e.name, DEPLOYING, 0, 0) && e.name !in Names(d.deployments))
    {
      var kept := Keep(d.deployments, matched);
      var i :| 0 <= i < |u.deployments| && u.deployments[i] == e;
      if i >= |kept| {
        assert e == NewEntries(order)[i - |kept|];
        assert e.name == order[i - |kept|] && order[i - |kept|] in order;
      } else {
        assert e in kept;
      }
    }
  }

  lemma {:induction false} KeptEntries(entries: seq<Entry>, names: set<Name>)
    ensures forall e :: e in Keep(entries, names) ==> e in entries
  {
    if entries != [] {
      KeptEntries(entries[..|entries| - 1], names);
    }
  }

  lemma PlainPartOfExact(d: EdgeDevice, d0: EdgeDevice, names: set<Name>)
    requires HasExactly(d, d0, names)
    ensures PlainPart(d.labels) == PlainPart(d0.labels)
  {
    assert forall l :: l in WorkloadLabels(names) ==> IsWorkloadLabel(l);
  }

  /** What is exactly placed from a device that is exactly placed from another is so from
      that one, unless it drops what it should have kept. */
  lemma ExactAgain(u: EdgeDevice, d: EdgeDevice, d0: EdgeDevice, names: set<Name>, matched: set<Name>)
    requires HasExactly(d, d0, names) && HasExactly(u, d, matched)
    requires Names(d0.deployments) * matched <= names
    ensures HasExactly(u, d0, matched)
  {
    PlainPartOfExact(d, d0, names);
    forall e | e in u.deployments
      ensures e in d0.deployments || (e == Entry(e.name, DEPLOYING, 0, 0) && e.name !in Names(d0.deployments))
    {
      assert e.name in Names(u.deployments);
      if e !in d.deployments {
        assert e.name !in names;
      }
    }
  }

  lemma ExactInStep(d: EdgeDevice, d0: EdgeDevice, names: set<Name>)
    requires HasExactly(d, d0, names)
    ensures InStep(d)
  {
    forall n
      ensures (HasDeployment(d, n) <==> HasLabelForDeployment(d, n)) &&
              (HasLabelForDeployment(d, n) ==> Labelled(d, n))
    {
      ExactIsInStep(d, d0, names, n);
    }
  }
}
