/** When the event loop of the label controller stops: its own label patch triggers it
    again. */
module EventLoop {
  import opened Kube
  import opened Labels
  import opened Placement
  import opened SelectorIndex
  import opened DeploymentReconcile
  import opened DeviceReconcile
  import opened Convergence
  import opened Runs
  import opened RunProofs
  import opened Rivals
  import opened ExactPlacement
  import opened Confluence
  import opened Divergence
  import Theorems

  // --------------------------------------------------------- undisturbed matching

  /** Whatever placement of known deployments the device carries, the index finds the same. */
  ghost predicate Undisturbed(deployments: Deployments, d: EdgeDevice, known: set<Name>) {
    forall names :: names <= known ==> Matched(deployments, Marked(d, names)) == Matched(deployments, Bare(d))
  }

  /** Exactly so without rivals. */
  lemma UndisturbedIffNoRivals(deployments: Deployments, d: EdgeDevice)
    requires CalmDeployments(deployments) && CalmDevice(d)
    ensures Undisturbed(deployments, d, deployments.Keys) <==> NoRivalsAt(deployments, d)
  {
    if NoRivalsAt(deployments, d) {
      forall names | names <= deployments.Keys
        ensures Matched(deployments, Marked(d, names)) == Matched(deployments, Bare(d))
      {
        MatchedWhenMarked(deployments, d, names);
        MatchedWhenMarked(deployments, d, {});
        FoundWithoutRivals(deployments, d, names);
        FoundWithoutRivals(deployments, d, {});
      }
    } else {
      var n := RivalDisturbs(deployments, d);
      assert {n} <= deployments.Keys;
    }
  }

  lemma RivalDisturbs(deployments: Deployments, d: EdgeDevice) returns (n: Name)
    requires CalmDeployments(deployments) && CalmDevice(d) && !NoRivalsAt(deployments, d)
    ensures n in deployments && Matched(deployments, Marked(d, {n})) != Matched(deployments, Bare(d))
  {
    var m: Name;
    m, n :| m in deployments && n in deployments
      && Selects(deployments[m].spec, Bare(d)) && Excludes(deployments[m].spec, n);
    MatchedWhenMarked(deployments, d, {n});
    MatchedWhenMarked(deployments, d, {});
    assert n in {n} && m in FoundBy(deployments, d, {}) && m !in FoundBy(deployments, d, {n});
  }

  ghost predicate IgnoresWorkloads(spec: Spec)
    requires spec.selector.Some?
  {
    forall l :: l in SelectorKeys(spec.selector.value) ==> !IsWorkloadLabel(l)
  }

  /** Selectors that name no workload label, of whatever deployments, disturb nothing. */
  lemma IgnoringIsUndisturbed(deployments: Deployments, d: EdgeDevice, known: set<Name>)
    requires forall n :: n in deployments && deployments[n].spec.selector.Some? ==>
      IgnoresWorkloads(deployments[n].spec)
    ensures Undisturbed(deployments, d, known)
  {
    forall names | names <= known
      ensures Matched(deployments, Marked(d, names)) == Matched(deployments, Bare(d))
    {
      MarkedLabels(d, names);
      MarkedLabels(d, {});
      AbortsIgnoreWorkloads(deployments, Marked(d, names), Bare(d));
      forall n | n in deployments && deployments[n].spec.selector.Some?
        ensures Matches(deployments[n].spec.selector.value, Marked(d, names).labels)
           <==> Matches(deployments[n].spec.selector.value, Bare(d).labels)
      {
        SelectorsIgnoreWorkloads(deployments[n].spec.selector.value, Marked(d, names).labels, Bare(d).labels);
      }
    }
  }

  lemma SelectorsIgnoreWorkloads(s: LabelSelector, p: LabelMap, d: LabelMap)
    requires PlainPart(p) == PlainPart(d)
    requires forall l :: l in SelectorKeys(s) ==> !IsWorkloadLabel(l)
    ensures Matches(s, p) <==> Matches(s, d)
  {
    forall l | l in SelectorKeys(s) ensures AgreeOn({l}, p, d) {
      assert l in p <==> l in PlainPart(p);
      assert l in d <==> l in PlainPart(d);
    }
    assert AgreeOn(SelectorKeys(s), p, d) by {
      forall l | l in SelectorKeys(s) ensures (l in p <==> l in d) && (l in p ==> p[l] == d[l]) {
        assert AgreeOn({l}, p, d) && l in {l};
      }
    }
    MatchesDependsOnKeys(s, p, d);
  }

  function LabelNames(d: EdgeDevice): set<Name> {
    set l | l in d.labels && IsWorkloadLabel(l) :: l[|WORKLOAD_PREFIX|..]
  }

  lemma LabelNamesAreLabelled(d: EdgeDevice, n: Name)
    ensures n in LabelNames(d) <==> HasLabelForDeployment(d, n)
  {
    assert WorkloadLabel(n)[|WORKLOAD_PREFIX|..] == n;
    if n in LabelNames(d) {
      var l :| l in d.labels && IsWorkloadLabel(l) && n == l[|WORKLOAD_PREFIX|..];
      assert l == WorkloadLabel(n);
    }
  }

  /** A device whose workload labels say "true" is marked with their names. */
  lemma TrueLabelsMark(p: EdgeDevice, d: EdgeDevice)
    requires p.name == d.name && PlainPart(p.labels) == PlainPart(d.labels)
    requires forall n :: HasLabelForDeployment(p, n) ==> Labelled(p, n)
    ensures p.labels == Marked(d, LabelNames(p)).labels
  {
    var marked := Marked(d, LabelNames(p)).labels;
    MarkedLabels(d, LabelNames(p));
    forall l ensures (l in p.labels <==> l in marked) && (l in marked ==> marked[l] == p.labels[l]) {
      if IsWorkloadLabel(l) {
        WorkloadLabelsAreNamed(l);
        var n :| l == WorkloadLabel(n);
        LabelNamesAreLabelled(p, n);
        assert HasLabelForDeployment(Marked(d, LabelNames(p)), n) <==> n in LabelNames(p);
        assert Labelled(Marked(d, LabelNames(p)), n) <==> n in LabelNames(p);
      } else {
        assert l in p.labels <==> l in PlainPart(p.labels);
        assert l in marked <==> l in PlainPart(marked);
        assert l in marked ==> marked[l] == PlainPart(marked)[l];
      }
    }
  }

  lemma UndisturbedMatched(deployments: Deployments, p: EdgeDevice, d: EdgeDevice, known: set<Name>)
    requires Undisturbed(deployments, d, known)
    requires p.name == d.name && PlainPart(p.labels) == PlainPart(d.labels)
    requires forall n :: HasLabelForDeployment(p, n) ==> Labelled(p, n) && n in known
    ensures Matched(deployments, p) == Matched(deployments, Bare(d))
    ensures SelectionAborts(deployments, p) <==> SelectionAborts(deployments, d)
  {
    forall n | n in LabelNames(p) ensures n in known {
      LabelNamesAreLabelled(p, n);
    }
    TrueLabelsMark(p, d);
    MatchedByLabels(deployments, p, Marked(d, LabelNames(p)));
    AbortsIgnoreWorkloads(deployments, p, d);
  }

  lemma UpdatedPlainPart(d: EdgeDevice, matched: set<Name>, order: seq<Name>, r: Replies)
    requires UniqueNames(d.deployments) && Orders(order, Came(d, matched)) && Updated(d, matched, order).Some?
    ensures var p := WriteUpdated(d, Updated(d, matched, order).value, r).device;
      p.name == d.name && PlainPart(p.labels) == PlainPart(d.labels)
  {
    PlainPartOfUpdated(d, matched, order);
    WriteUpdatedStages(d, matched, order, r);
  }

  lemma HalfwayIsEmpty(d: EdgeDevice, matched: set<Name>, order: seq<Name>, r: Replies, again: seq<Name>)
    requires UniqueNames(d.deployments) && Orders(order, Came(d, matched)) && Updated(d, matched, order).Some?
    ensures var p := WriteUpdated(d, Updated(d, matched, order).value, r).device;
      p != d ==> Updated(p, matched, again) == None
  {
    WriteUpdatedStages(d, matched, order, r);
    var p := WriteUpdated(d, Updated(d, matched, order).value, r).device;
    SecondUpdateIsEmpty(d, matched, order, p.labels, again);
  }

  /** The deployments that a device can be marked with next. */
  function Known(deployments: Deployments, d: EdgeDevice): set<Name> {
    deployments.Keys + LabelNames(d)
  }

  lemma WrittenLabelsAreKnown(w: World, d: EdgeDevice, matched: set<Name>, order: seq<Name>, r: Replies)
    requires SoundDevice(d) && Orders(order, Came(d, matched)) && Updated(d, matched, order).Some?
    requires matched <= w.deployments.Keys
    ensures var p := WriteUpdated(d, Updated(d, matched, order).value, r).device;
      forall n :: HasLabelForDeployment(p, n) ==> Labelled(p, n) && n in Known(w.deployments, d)
  {
    var p := WriteUpdated(d, Updated(d, matched, order).value, r).device;
    UpdatedIsSound(d, matched, order, r);
    UpdatedIsTheDifference(d, matched, order);
    WorkloadLabelsKeys(Came(d, matched));
    forall n | HasLabelForDeployment(p, n) ensures Labelled(p, n) && n in Known(w.deployments, d) {
      LabelNamesAreLabelled(d, n);
      assert HasLabelForDeployment(p, n) ==> Labelled(p, n);
    }
  }

  /** A label reconcile is triggered again by the labels it wrote. Where placements do not
      disturb matching, one that has written anything is followed by one that writes
      nothing, under any replies: so the loop stops, and so a label patch that was refused
      is not sent again. */
  lemma SecondLabelReconcileWritesNothing(w: World, k: Name, da: DeviceAnswers, order: seq<Name>,
      next: DeviceAnswers, again: seq<Name>)
    requires Sound(w) && Legal(w, ReconcileLabels(k, da, order))
    requires k in w.devices ==> Undisturbed(w.deployments, w.devices[k], Known(w.deployments, w.devices[k]))
    ensures var r := ReconcileDevice(w, k, da, order).0;
      r != w ==> ReconcileDevice(r, k, next, again).0 == r
  {
    LabelsStep(w, k, da, order);
    var r := ReconcileDevice(w, k, da, order).0;
    if r != w {
      var d, p := w.devices[k], r.devices[k];
      var matched := Matched(w.deployments, d);
      assert w.devices[k := d] == w.devices;
      UpdatedPlainPart(d, matched, order, da.replies);
      HalfwayIsEmpty(d, matched, order, da.replies, again);
      WrittenLabelsAreKnown(w, d, matched, order, da.replies);
      UndisturbedMatched(w.deployments, p, d, Known(w.deployments, d));
      OwnLabelsAreKnown(w.deployments, d);
    }
  }

  lemma OwnLabelsAreKnown(deployments: Deployments, d: EdgeDevice)
    requires SoundDevice(d) && Undisturbed(deployments, d, Known(deployments, d))
    ensures Matched(deployments, d) == Matched(deployments, Bare(d))
  {
    forall n | HasLabelForDeployment(d, n) ensures Labelled(d, n) && n in Known(deployments, d) {
      LabelNamesAreLabelled(d, n);
    }
    UndisturbedMatched(deployments, d, d, Known(deployments, d));
  }

  /** Exactly which writes a label reconcile makes good by itself: after any replies and
      then a reconcile without faults, labels and status agree again if and only if the
      first one wrote everything or nothing. */
  lemma RepairedIffWhole(w: World, k: Name, da: DeviceAnswers, order: seq<Name>, again: seq<Name>)
    requires Sound(w) && k in w.devices && InStep(w.devices[k]) && !w.devices[k].deleting
    requires Undisturbed(w.deployments, w.devices[k], Known(w.deployments, w.devices[k]))
    requires !da.readFails && !da.listFails && !SelectionAborts(w.deployments, w.devices[k])
    requires Names(w.devices[k].deployments) != Matched(w.deployments, w.devices[k])
    requires Legal(w, ReconcileLabels(k, da, order))
    requires Legal(ReconcileDevice(w, k, da, order).0, ReconcileLabels(k, NO_DEVICE_FAULTS, again))
    ensures var r := ReconcileDevice(ReconcileDevice(w, k, da, order).0, k, NO_DEVICE_FAULTS, again).0;
      k in r.devices && (InStep(r.devices[k]) <==> Whole(da.replies))
  {
    var d, matched := w.devices[k], Matched(w.deployments, w.devices[k]);
    var r := ReconcileDevice(w, k, da, order).0;
    ScanClosedForm(d.deployments, matched, d.labels);
    UpdatedIsTheDifference(d, matched, order);
    LabelsStep(w, k, da, order);
    if da.replies.status == Rejected {
      assert w.devices[k := d] == w.devices;
      CleanLabelsPass(w, k, again);
      CleanUpdateIsExact(d, matched, again);
      ExactInStep(CleanUpdate(d, matched, again), d, matched);
    } else {
      WrittenHalf(d, matched, order, da.replies);
      SecondLabelReconcileWritesNothing(w, k, da, order, NO_DEVICE_FAULTS, again);
    }
  }

  // ----------------------------------------------------- exactly when the loop stops

  /** A clean label reconcile moves a placement to what the index finds for it. */
  lemma MoveOn(w: World, k: Name, d0: EdgeDevice) returns (order: seq<Name>)
    requires WellKeyed(w) && k in w.devices && CalmDeployments(w.deployments) && CalmDevice(d0)
    requires PlacementOf(w.devices[k], d0, w.deployments.Keys)
    ensures Legal(w, ReconcileLabels(k, NO_DEVICE_FAULTS, order))
    ensures var r := ReconcileDevice(w, k, NO_DEVICE_FAULTS, order).0;
      var next := FoundBy(w.deployments, d0, Names(w.devices[k].deployments));
      && WellKeyed(r) && r.deployments == w.deployments && k in r.devices
      && PlacementOf(r.devices[k], d0, w.deployments.Keys) && Names(r.devices[k].deployments) == next
  {
    var d, names := w.devices[k], Names(w.devices[k].deployments);
    var matched := FoundBy(w.deployments, d0, names);
    PlacementInStep(d, d0, w.deployments.Keys);
    MatchedByLabels(w.deployments, d, Marked(d0, names));
    MatchedWhenMarked(w.deployments, d0, names);
    ScanClosedForm(d.deployments, matched, d.labels);
    order := Enumerate(Came(d, matched));
    LabelsTouchOne(w, k, NO_DEVICE_FAULTS, order);
    CleanLabelsPass(w, k, order);
    CleanUpdateIsExact(d, matched, order);
    MarkedAgain(d0, names, matched);
  }

  /** From this state, every label reconcile that writes is followed by one that does not. */
  ghost predicate LoopStops(w: World, k: Name) {
    forall da, order, next, again ::
      Legal(w, ReconcileLabels(k, da, order)) && ReconcileDevice(w, k, da, order).0 != w
      && Legal(ReconcileDevice(w, k, da, order).0, ReconcileLabels(k, next, again)) ==>
        ReconcileDevice(ReconcileDevice(w, k, da, order).0, k, next, again).0 == ReconcileDevice(w, k, da, order).0
  }

  lemma TwoMovesDoNotStop(w: World, k: Name, d0: EdgeDevice)
    requires WellKeyed(w) && k in w.devices && CalmDeployments(w.deployments) && CalmDevice(d0)
    requires PlacementOf(w.devices[k], d0, w.deployments.Keys)
    requires var names := Names(w.devices[k].deployments);
      var next := FoundBy(w.deployments, d0, names);
      next != names && FoundBy(w.deployments, d0, next) != next
    ensures !LoopStops(w, k)
  {
    var order := MoveOn(w, k, d0);
    var r := ReconcileDevice(w, k, NO_DEVICE_FAULTS, order).0;
    var again := MoveOn(r, k, d0);
    assert r != w && ReconcileDevice(r, k, NO_DEVICE_FAULTS, again).0 != r;
  }

  lemma NoStopFrom(w: World, k: Name, d: EdgeDevice, names: set<Name>) returns (p: World)
    requires Calm(w) && k in w.devices && PlacementOf(d, w.devices[k], w.deployments.Keys)
    requires Names(d.deployments) == names
    requires var next := FoundBy(w.deployments, w.devices[k], names);
      next != names && FoundBy(w.deployments, w.devices[k], next) != next
    ensures PlacedWorld(p, w) && !LoopStops(p, k)
  {
    p := OtherPlacement(w, k, d);
    PlacedIsCalm(p, w);
    CalmFacts(w, k);
    TwoMovesDoNotStop(p, k, w.devices[k]);
  }

  /** With rivals some placement makes two writes follow each other. */
  lemma RivalsDoNotStop(w: World, k: Name) returns (p: World)
    requires Calm(w) && k in w.devices && !NoRivalsAt(w.deployments, w.devices[k])
    ensures PlacedWorld(p, w) && !LoopStops(p, k)
  {
    var m, n := SomeRivals(w, k);
    if t :| t in Wanted(w.deployments, w.devices[k]) && Excludes(w.deployments[m].spec, t) {
      ExistingRivals(w, k, m, t);
      p := NoStopFromNothing(w, k, m, t);
    } else {
      p := NoStopFromOne(w, k, m, n);
    }
  }

  lemma ExistingRivals(w: World, k: Name, m: Name, t: Name)
    requires Calm(w) && k in w.devices && m in w.deployments && t in w.deployments
    requires Selects(w.deployments[m].spec, Bare(w.devices[k])) && Excludes(w.deployments[m].spec, t)
    ensures AreRivals(w.deployments, w.devices[k], m, t)
  {
  }

  lemma NoStopFromNothing(w: World, k: Name, m: Name, t: Name) returns (p: World)
    requires Calm(w) && k in w.devices && AreRivals(w.deployments, w.devices[k], m, t)
    requires t in Wanted(w.deployments, w.devices[k])
    ensures PlacedWorld(p, w) && !LoopStops(p, k)
  {
    HoldingOne(w.devices[k], t);
    FoundFromNothing(w.deployments, w.devices[k], m, t);
    p := NoStopFrom(w, k, Holding(w.devices[k], []), {});
  }

  lemma NoStopFromOne(w: World, k: Name, m: Name, n: Name) returns (p: World)
    requires Calm(w) && k in w.devices && AreRivals(w.deployments, w.devices[k], m, n)
    requires forall t :: t in Wanted(w.deployments, w.devices[k]) ==> !Excludes(w.deployments[m].spec, t)
    ensures PlacedWorld(p, w) && !LoopStops(p, k)
  {
    HoldingOne(w.devices[k], n);
    FoundFromOne(w.deployments, w.devices[k], m, n);
    p := NoStopFrom(w, k, Holding(w.devices[k], [n]), {n});
  }

  lemma FoundFromNothing(deployments: Deployments, d0: EdgeDevice, m: Name, t: Name)
    requires m in Wanted(deployments, d0) && t in Wanted(deployments, d0) && Excludes(deployments[m].spec, t)
    ensures var next := FoundBy(deployments, d0, {});
      next != {} && FoundBy(deployments, d0, next) != next
  {
    var next := FoundBy(deployments, d0, {});
    assert m in next && t in next && m !in FoundBy(deployments, d0, next);
  }

  lemma FoundFromOne(deployments: Deployments, d0: EdgeDevice, m: Name, n: Name)
    requires m in Wanted(deployments, d0) && Excludes(deployments[m].spec, n)
    requires forall t :: t in Wanted(deployments, d0) ==> !Excludes(deployments[m].spec, t)
    ensures var next := FoundBy(deployments, d0, {n});
      next != {n} && FoundBy(deployments, d0, next) != next
  {
    var next := FoundBy(deployments, d0, {n});
    assert n in {n} && m !in next && n !in next;
    assert m in FoundBy(deployments, d0, next);
  }

  /** The loop of the label controller stops after its first write, from every placement
      and under any replies, if and only if the device has no rivals. */
  lemma LoopStopsIffNoRivals(w: World, k: Name)
    requires Calm(w) && k in w.devices
    ensures (forall p :: PlacedWorld(p, w) ==> LoopStops(p, k)) <==> NoRivalsAt(w.deployments, w.devices[k])
  {
    if NoRivalsAt(w.deployments, w.devices[k]) {
      forall p | PlacedWorld(p, w) ensures LoopStops(p, k) {
        StopsWithoutRivals(p, w, k);
      }
    } else {
      var p := RivalsDoNotStop(w, k);
    }
  }

  lemma StopsWithoutRivals(p: World, w: World, k: Name)
    requires Calm(w) && PlacedWorld(p, w) && k in w.devices && NoRivalsAt(w.deployments, w.devices[k])
    ensures LoopStops(p, k)
  {
    var d := p.devices[k];
    PlacedIsCalm(p, w);
    SameRivals(w.deployments, d, w.devices[k], w.deployments.Keys);
    CalmFacts(p, k);
    UndisturbedIffNoRivals(p.deployments, d);
    KnownIsKept(p, k);
    forall da, order, next, again |
        Legal(p, ReconcileLabels(k, da, order)) && ReconcileDevice(p, k, da, order).0 != p
      ensures ReconcileDevice(ReconcileDevice(p, k, da, order).0, k, next, again).0
           == ReconcileDevice(p, k, da, order).0
    {
      SecondLabelReconcileWritesNothing(p, k, da, order, next, again);
    }
  }

  lemma KnownIsKept(w: World, k: Name)
    requires Calm(w) && k in w.devices
    ensures Known(w.deployments, w.devices[k]) == w.deployments.Keys
  {
    CalmFacts(w, k);
    forall n | n in LabelNames(w.devices[k]) ensures n in w.deployments {
      LabelNamesAreLabelled(w.devices[k], n);
      assert HasDeployment(w.devices[k], n) <==> HasLabelForDeployment(w.devices[k], n);
    }
  }

  // ---------------------------------------------------------- a loop that never stops

  const OWN_DEVICE := EdgeDevice("edge-1", map[], [], false, [])

  /** One device and one deployment that asks for the absence of its own label. */
  function Restless(n: Name, placed: bool): World {
    World(map["edge-1" := if placed then Holding(OWN_DEVICE, [n]) else OWN_DEVICE], map[n := SelfExcluding(n)])
  }

  function RestlessStep(n: Name, placed: bool): Action {
    ReconcileLabels("edge-1", NO_DEVICE_FAULTS, if placed then [] else [n])
  }

  lemma SelfExcludingSelects(n: Name)
    requires '/' !in n
    ensures Excludes(SelfExcluding(n).spec, n) && Selects(SelfExcluding(n).spec, Bare(OWN_DEVICE))
  {
    var r := SelfExcluding(n).spec.selector.value.matchExpressions[0];
    assert r in SelfExcluding(n).spec.selector.value.matchExpressions;
    MarkedLabels(OWN_DEVICE, {});
    assert !HasLabelForDeployment(Bare(OWN_DEVICE), n);
  }

  lemma SelfExcludingIsCalm(n: Name)
    requires '/' !in n
    ensures CalmDeployment(SelfExcluding(n))
  {
    var dep := SelfExcluding(n);
    var r := dep.spec.selector.value.matchExpressions[0];
    assert r in dep.spec.selector.value.matchExpressions;
    ValidWorkloadLabel(n);
    IndexedIsAFixedPoint(map[], dep.spec);
    PlaceableIffStorable(dep.(labels := map[]));
    assert forall k :: k in IndexKeys(dep.spec.selector.value) ==> k == DOES_NOT_EXIST_LABEL;
    assert '/' !in DOES_NOT_EXIST_LABEL;
  }

  lemma RestlessMatches(n: Name, placed: bool)
    requires '/' !in n
    ensures var w := Restless(n, placed);
      && !SelectionAborts(w.deployments, w.devices["edge-1"])
      && Matched(w.deployments, w.devices["edge-1"]) == if placed then {} else {n}
  {
    var w := Restless(n, placed);
    var names := if placed then {n} else {};
    SelfExcludingIsCalm(n);
    SelfExcludingSelects(n);
    HoldingOne(OWN_DEVICE, n);
    assert OWN_DEVICE.labels == Marked(OWN_DEVICE, {}).labels;
    MatchedByLabels(w.deployments, w.devices["edge-1"], Marked(OWN_DEVICE, names));
    MatchedWhenMarked(w.deployments, OWN_DEVICE, names);
    assert n in {n};
  }

  lemma TakesOff(d: EdgeDevice, n: Name)
    requires d.deployments == [Entry(n, DEPLOYING, 0, 0)]
    ensures Updated(d, {}, []) == Some(d.(deployments := [], labels := d.labels - {WorkloadLabel(n)}))
    ensures Orders([], {}) && NewNames(d, {}) == {}
  {
    assert d.deployments[..0] == [];
    assert ScanEntries([], {}, d.labels) == Scan([], {}, d.labels, false);
    assert ScanEntries(d.deployments, {}, d.labels) == Scan([], {}, d.labels - {WorkloadLabel(n)}, true);
    assert [] + NewEntries([]) == [];
    var labels := d.labels - {WorkloadLabel(n)};
    assert labels + WorkloadLabels({}) == labels;
  }

  lemma HeldLabels(n: Name)
    ensures Holding(OWN_DEVICE, [n]) ==
      OWN_DEVICE.(deployments := [Entry(n, DEPLOYING, 0, 0)], labels := map[WorkloadLabel(n) := "true"])
    ensures map[WorkloadLabel(n) := "true"] - {WorkloadLabel(n)} == map[]
  {
    HoldingOne(OWN_DEVICE, n);
    assert PlainPart(OWN_DEVICE.labels) == map[];
    assert WorkloadLabels({n}) == map[WorkloadLabel(n) := "true"];
    assert NewEntries([n]) == [Entry(n, DEPLOYING, 0, 0)];
  }

  lemma RestlessPlaces(n: Name)
    requires '/' !in n
    ensures Theorems.IsStep(Restless(n, false), RestlessStep(n, false), Restless(n, true))
  {
    var w := Restless(n, false);
    RestlessMatches(n, false);
    HeldLabels(n);
    RestlessWorlds(n);
    var placed := Restless(n, true).devices["edge-1"];
    assert placed.labels == OWN_DEVICE.labels[WorkloadLabel(n) := "true"];
    Theorems.PlacesFirst(w, "edge-1", n, placed);
  }

  lemma RestlessWorlds(n: Name)
    requires '/' !in n
    ensures var w, p := Restless(n, false), Restless(n, true);
      && WellKeyed(w) && WellKeyed(p)
      && World(w.devices["edge-1" := p.devices["edge-1"]], w.deployments) == p
      && World(p.devices["edge-1" := w.devices["edge-1"]], p.deployments) == w
  {
  }

  lemma RestlessRemoves(n: Name)
    requires '/' !in n
    ensures Theorems.IsStep(Restless(n, true), RestlessStep(n, true), Restless(n, false))
  {
    var w := Restless(n, true);
    RestlessMatches(n, true);
    HeldLabels(n);
    TakesOff(w.devices["edge-1"], n);
    CleanLabelsPass(w, "edge-1", []);
    RestlessWorlds(n);
    assert CleanUpdate(w.devices["edge-1"], {}, []) == OWN_DEVICE;
  }

  lemma RestlessStepsOn(n: Name, placed: bool)
    requires '/' !in n
    ensures Theorems.IsStep(Restless(n, placed), RestlessStep(n, placed), Restless(n, !placed))
    ensures Restless(n, placed).devices["edge-1"].labels != Restless(n, !placed).devices["edge-1"].labels
  {
    RestlessPlaces(n);
    RestlessRemoves(n);
    HeldLabels(n);
    assert WorkloadLabel(n) in Holding(OWN_DEVICE, [n]).labels;
  }

  /** Back and forth between two states. */
  function BackAndForth<T>(here: T, there: T, m: nat): seq<T> {
    seq(m, i => if i % 2 == 0 then here else there)
  }

  lemma BackAndForthSteps<S, A>(u: S, v: S, x: A, y: A, m: nat, step: (S, A, S) -> bool, good: S -> bool)
    requires step(u, x, v) && step(v, y, u) && good(u) && good(v)
    ensures var ws, xs := BackAndForth(u, v, m + 1), BackAndForth(x, y, m);
      && (forall i :: 0 <= i < m ==> step(ws[i], xs[i], ws[i + 1]))
      && (forall i :: 0 <= i < m + 1 ==> good(ws[i]))
  {
  }

  lemma BackAndForthRuns(u: World, v: World, x: Action, y: Action, m: nat)
    requires Theorems.IsStep(u, x, v) && Theorems.IsStep(v, y, u)
    ensures Theorems.IsRun(BackAndForth(u, v, m + 1), BackAndForth(x, y, m))
  {
    BackAndForthSteps(u, v, x, y, m, (a, z, b) => Theorems.IsStep(a, z, b), w => WellKeyed(w));
  }

  /** For ever: a clean label reconcile places the deployment, the next one takes it off,
      each with a label patch that triggers the next. */
  lemma LoopsForEver(n: Name, m: nat)
    requires '/' !in n
    ensures Theorems.IsRun(BackAndForth(Restless(n, false), Restless(n, true), m + 1),
                           BackAndForth(RestlessStep(n, false), RestlessStep(n, true), m))
    ensures Restless(n, false).devices["edge-1"].labels != Restless(n, true).devices["edge-1"].labels
  {
    RestlessStepsOn(n, false);
    RestlessStepsOn(n, true);
    BackAndForthRuns(Restless(n, false), Restless(n, true), RestlessStep(n, false), RestlessStep(n, true), m);
  }
}
