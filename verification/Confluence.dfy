/** The two controllers agree: any two runs in which either of them has covered every
    deployment and device lead to the same placement, if and only if there are no rivals. */
module Confluence {
  import opened Kube
  import opened Labels
  import opened Placement
  import opened SelectorIndex
  import opened DeploymentReconcile
  import opened DeviceReconcile
  import opened Settling
  import opened Convergence
  import opened Runs
  import opened RunProofs
  import opened Rivals
  import opened ExactPlacement
  import Theorems

  /** A state reached without half-written devices and dangling names, with nothing
      under deletion. */
  ghost predicate Calm(w: World) {
    && InStepWorld(w) && AllGuarded(w)
    && CalmDeployments(w.deployments)
    && (forall k :: k in w.devices ==> CalmDevice(w.devices[k]))
  }

  // --------------------------------------------------- how far a device has come

  /** The deployments placed on `d0` once those in `done` have been reconciled. */
  function Progress(deployments: Deployments, d0: EdgeDevice, done: set<Name>): set<Name> {
    (Names(d0.deployments) - done) + (done * Wanted(deployments, d0))
  }

  lemma ProgressOneMore(deployments: Deployments, d0: EdgeDevice, done: set<Name>, n: Name)
    ensures Progress(deployments, d0, done + {n}) ==
      if n in Wanted(deployments, d0)
      then Progress(deployments, d0, done) + {n} else Progress(deployments, d0, done) - {n}
  {
  }

  lemma ProgressUnknown(deployments: Deployments, d0: EdgeDevice, done: set<Name>, n: Name)
    requires n !in deployments && Names(d0.deployments) <= deployments.Keys
    ensures Progress(deployments, d0, done + {n}) == Progress(deployments, d0, done)
  {
  }

  lemma ProgressComplete(deployments: Deployments, d0: EdgeDevice, done: set<Name>)
    requires Names(d0.deployments) <= deployments.Keys <= done
    ensures Progress(deployments, d0, done) == Wanted(deployments, d0)
  {
  }

  /** A device whose selection is stable, and what is known of it. */
  ghost predicate Steady(deployments: Deployments, d0: EdgeDevice) {
    && CalmDeployments(deployments) && NoRivalsAt(deployments, d0) && CalmDevice(d0)
    && UniqueNames(d0.deployments) && Names(d0.deployments) <= deployments.Keys
  }

  lemma OneMoreSettled(d: EdgeDevice, d0: EdgeDevice, deployments: Deployments, done: set<Name>, n: Name)
    requires n in deployments && deployments[n].name == n && Steady(deployments, d0)
    requires HasExactly(d, d0, Progress(deployments, d0, done))
    ensures HasExactly(Settled(deployments[n], d), d0, Progress(deployments, d0, done + {n}))
  {
    var names := Progress(deployments, d0, done);
    SelectionIsStable(deployments, d0, names, n);
    SelectsByLabels(deployments[n].spec, d, Marked(d0, names));
    ProgressOneMore(deployments, d0, done, n);
    SettleOne(d, d0, names, deployments[n], n in Wanted(deployments, d0));
  }

  lemma CalmPass(w: World, n: Name)
    requires WellKeyed(w) && n in w.deployments && CalmDeployment(w.deployments[n])
    ensures WellKeyed(Clean(w, n))
    ensures !w.deployments[n].deleting
    ensures Clean(w, n) == World(SettledAll(w.devices, w.deployments[n]), w.deployments)
  {
    ReconcileKeepsKeys(w, n, NO_FAULTS);
    CleanPass(w, n);
  }

  /** One label reconcile brings the device to the end, wherever it was under way. */
  lemma OneMoreLabelled(d: EdgeDevice, d0: EdgeDevice, deployments: Deployments, done: set<Name>, order: seq<Name>)
    requires Steady(deployments, d0)
    requires HasExactly(d, d0, Progress(deployments, d0, done))
    requires Orders(order, NewNames(d, Matched(deployments, d)))
    ensures !d.deleting && !SelectionAborts(deployments, d)
    ensures HasExactly(CleanUpdate(d, Matched(deployments, d), order), d0,
                       Progress(deployments, d0, done + deployments.Keys))
  {
    var names, matched := Progress(deployments, d0, done), Wanted(deployments, d0);
    MatchedFromExact(deployments, d, d0, names);
    ExactInStep(d, d0, names);
    ScanClosedForm(d.deployments, matched, d.labels);
    CleanUpdateIsExact(d, matched, order);
    ExactAgain(CleanUpdate(d, matched, order), d, d0, names, matched);
    ProgressComplete(deployments, d0, done + deployments.Keys);
  }

  lemma MatchedFromExact(deployments: Deployments, d: EdgeDevice, d0: EdgeDevice, names: set<Name>)
    requires Steady(deployments, d0) && HasExactly(d, d0, names) && names <= deployments.Keys
    ensures !d.deleting && !SelectionAborts(deployments, d)
    ensures Matched(deployments, d) == Wanted(deployments, d0)
  {
    MatchedByLabels(deployments, d, Marked(d0, names));
    MatchedWhenMarked(deployments, d0, names);
    FoundWithoutRivals(deployments, d0, names);
  }

  // ------------------------------------------- runs that mix the two controllers

  /** Both controllers may run in any order and any number of times, without faults. */
  ghost predicate CleanAction(x: Action) {
    (x.ReconcileDeployment? && x.a == NO_FAULTS) || (x.ReconcileLabels? && x.da == NO_DEVICE_FAULTS)
  }

  /** The pairs that an action is about: one deployment and every device, or one device
      and every deployment. */
  predicate Covers(x: Action, k: Name, n: Name) {
    (x.ReconcileDeployment? && x.n == n) || (x.ReconcileLabels? && x.k == k)
  }

  function Covered(xs: seq<Action>, k: Name, all: set<Name>): set<Name> {
    if xs == [] then {}
    else
      var before, x := Covered(xs[..|xs| - 1], k, all), xs[|xs| - 1];
      if x.ReconcileDeployment? then before + {x.n}
      else if x.ReconcileLabels? && x.k == k then before + all
      else before
  }

  lemma {:induction false} CoveredBySome(xs: seq<Action>, k: Name, all: set<Name>, n: Name)
    requires n in all
    ensures n in Covered(xs, k, all) <==> exists i :: 0 <= i < |xs| && Covers(xs[i], k, n)
  {
    if xs != [] {
      var init, x := xs[..|xs| - 1], xs[|xs| - 1];
      CoveredBySome(init, k, all, n);
      assert forall i :: 0 <= i < |init| ==> init[i] == xs[i];
      assert Covers(x, k, n) ==> exists i :: 0 <= i < |xs| && Covers(xs[i], k, n);
    }
  }

  ghost predicate Underway(w: World, w0: World, xs: seq<Action>) {
    && WellKeyed(w) && w.deployments == w0.deployments && w.devices.Keys == w0.devices.Keys
    && forall k :: k in w0.devices && NoRivalsAt(w0.deployments, w0.devices[k]) ==> DeviceUnderway(w, w0, xs, k)
  }

  ghost predicate DeviceUnderway(w: World, w0: World, xs: seq<Action>, k: Name)
    requires k in w.devices && k in w0.devices
  {
    HasExactly(w.devices[k], w0.devices[k],
               Progress(w0.deployments, w0.devices[k], Covered(xs, k, w0.deployments.Keys)))
  }

  lemma CalmFacts(w: World, k: Name)
    requires Calm(w) && k in w.devices
    ensures CalmDevice(w.devices[k]) && w.devices[k].name == k
    ensures UniqueNames(w.devices[k].deployments) && InStep(w.devices[k])
    ensures Names(w.devices[k].deployments) <= w.deployments.Keys
    ensures Steady(w.deployments, w.devices[k]) <==> NoRivalsAt(w.deployments, w.devices[k])
  {
    forall n | n in Names(w.devices[k].deployments) ensures n in w.deployments {
      assert HasDeployment(w.devices[k], n) && NoDangling(w, w.devices[k]);
    }
  }

  lemma StartsUnderway(w: World)
    requires Calm(w)
    ensures Underway(w, w, [])
  {
    forall k | k in w.devices ensures DeviceUnderway(w, w, [], k) {
      CalmFacts(w, k);
      InStepIsExact(w.devices[k]);
      assert Progress(w.deployments, w.devices[k], {}) == Names(w.devices[k].deployments);
    }
  }

  lemma CoveredOneMore(xs: seq<Action>, x: Action, k: Name, all: set<Name>)
    ensures Covered(xs + [x], k, all) ==
      if x.ReconcileDeployment? then Covered(xs, k, all) + {x.n}
      else if x.ReconcileLabels? && x.k == k then Covered(xs, k, all) + all
      else Covered(xs, k, all)
  {
    assert (xs + [x])[..|xs|] == xs;
  }

  lemma DeploymentsGoOn(w: World, w0: World, xs: seq<Action>, n: Name)
    requires Calm(w0) && Underway(w, w0, xs)
    ensures Underway(Clean(w, n), w0, xs + [ReconcileDeployment(n, NO_FAULTS)])
  {
    var all := w0.deployments.Keys;
    if n in w0.deployments {
      CalmPass(w, n);
    }
    forall k | k in w0.devices && NoRivalsAt(w0.deployments, w0.devices[k])
      ensures k in Clean(w, n).devices && DeviceUnderway(Clean(w, n), w0, xs + [ReconcileDeployment(n, NO_FAULTS)], k)
    {
      CalmFacts(w0, k);
      assert DeviceUnderway(w, w0, xs, k);
      CoveredOneMore(xs, ReconcileDeployment(n, NO_FAULTS), k, all);
      if n in w0.deployments {
        OneMoreSettled(w.devices[k], w0.devices[k], w0.deployments, Covered(xs, k, all), n);
      } else {
        ProgressUnknown(w0.deployments, w0.devices[k], Covered(xs, k, all), n);
      }
    }
  }

  /** A label reconcile touches its own device only. */
  lemma LabelsTouchOne(w: World, j: Name, da: DeviceAnswers, order: seq<Name>)
    requires WellKeyed(w)
    ensures var r := ReconcileDevice(w, j, da, order).0;
      && WellKeyed(r) && r.deployments == w.deployments && r.devices.Keys == w.devices.Keys
      && forall k :: k in w.devices && k != j ==> r.devices[k] == w.devices[k]
  {
  }

  lemma LabelsGoOn(w: World, w0: World, xs: seq<Action>, j: Name, order: seq<Name>)
    requires Calm(w0) && Underway(w, w0, xs)
    requires Legal(w, ReconcileLabels(j, NO_DEVICE_FAULTS, order))
    ensures Underway(ReconcileDevice(w, j, NO_DEVICE_FAULTS, order).0, w0,
                     xs + [ReconcileLabels(j, NO_DEVICE_FAULTS, order)])
  {
    var x := ReconcileLabels(j, NO_DEVICE_FAULTS, order);
    var r := ReconcileDevice(w, j, NO_DEVICE_FAULTS, order).0;
    LabelsTouchOne(w, j, NO_DEVICE_FAULTS, order);
    forall k | k in w0.devices && NoRivalsAt(w0.deployments, w0.devices[k])
      ensures k in r.devices && DeviceUnderway(r, w0, xs + [x], k)
    {
      assert DeviceUnderway(w, w0, xs, k);
      CoveredOneMore(xs, x, k, w0.deployments.Keys);
      if k == j {
        LabelledGoesOn(w, w0, xs, k, order);
      }
    }
  }

  lemma LabelledGoesOn(w: World, w0: World, xs: seq<Action>, k: Name, order: seq<Name>)
    requires Calm(w0) && w.deployments == w0.deployments && k in w.devices && k in w0.devices
    requires NoRivalsAt(w0.deployments, w0.devices[k]) && DeviceUnderway(w, w0, xs, k)
    requires Legal(w, ReconcileLabels(k, NO_DEVICE_FAULTS, order))
    ensures k in ReconcileDevice(w, k, NO_DEVICE_FAULTS, order).0.devices
    ensures DeviceUnderway(ReconcileDevice(w, k, NO_DEVICE_FAULTS, order).0, w0,
                           xs + [ReconcileLabels(k, NO_DEVICE_FAULTS, order)], k)
  {
    var all := w0.deployments.Keys;
    CalmFacts(w0, k);
    CoveredOneMore(xs, ReconcileLabels(k, NO_DEVICE_FAULTS, order), k, all);
    OneMoreLabelled(w.devices[k], w0.devices[k], w0.deployments, Covered(xs, k, all), order);
    CleanLabelsPass(w, k, order);
  }

  /** Any mixture of the two controllers: after every step each device without rivals
      carries exactly the deployments that select it among the pairs covered so far, and
      what it carried before among the others. */
  lemma {:induction false} MixedRuns(ws: seq<World>, xs: seq<Action>, m: nat)
    requires Theorems.IsRun(ws, xs) && Calm(ws[0]) && m <= |xs|
    requires forall i :: 0 <= i < |xs| ==> CleanAction(xs[i])
    ensures Underway(ws[m], ws[0], xs[..m])
  {
    if m == 0 {
      StartsUnderway(ws[0]);
    } else {
      MixedRuns(ws, xs, m - 1);
      assert Theorems.IsStep(ws[m - 1], xs[m - 1], ws[m - 1 + 1]);
      assert CleanAction(xs[m - 1]) && xs[..m] == xs[..m - 1] + [xs[m - 1]];
      match xs[m - 1]
      case ReconcileDeployment(n, _) => DeploymentsGoOn(ws[m - 1], ws[0], xs[..m - 1], n);
      case ReconcileLabels(k, _, order) => LabelsGoOn(ws[m - 1], ws[0], xs[..m - 1], k, order);
    }
  }

  /** A pair is right as soon as either controller has covered it, and stays so. */
  lemma PairIsRight(ws: seq<World>, xs: seq<Action>, m: nat, k: Name, n: Name)
    requires Theorems.IsRun(ws, xs) && Calm(ws[0]) && m <= |xs|
    requires forall i :: 0 <= i < |xs| ==> CleanAction(xs[i])
    requires k in ws[0].devices && n in ws[0].deployments
    requires NoRivalsAt(ws[0].deployments, ws[0].devices[k])
    ensures k in ws[m].devices
    ensures var placed := if exists i :: 0 <= i < m && Covers(xs[i], k, n)
                          then Selects(ws[0].deployments[n].spec, Bare(ws[0].devices[k]))
                          else HasDeployment(ws[0].devices[k], n);
      && (HasDeployment(ws[m].devices[k], n) <==> placed)
      && (Labelled(ws[m].devices[k], n) <==> placed)
  {
    var all := ws[0].deployments.Keys;
    MixedRuns(ws, xs, m);
    assert DeviceUnderway(ws[m], ws[0], xs[..m], k);
    CoveredSoFar(xs, m, k, all, n);
    PairUnderway(ws[m].devices[k], ws[0].devices[k], ws[0].deployments, Covered(xs[..m], k, all), n);
  }

  lemma CoveredSoFar(xs: seq<Action>, m: nat, k: Name, all: set<Name>, n: Name)
    requires m <= |xs| && n in all
    ensures n in Covered(xs[..m], k, all) <==> exists i :: 0 <= i < m && Covers(xs[i], k, n)
  {
    CoveredBySome(xs[..m], k, all, n);
    assert forall i :: 0 <= i < m ==> xs[..m][i] == xs[i];
  }

  lemma PairUnderway(d: EdgeDevice, d0: EdgeDevice, deployments: Deployments, done: set<Name>, n: Name)
    requires n in deployments && HasExactly(d, d0, Progress(deployments, d0, done))
    ensures var placed := if n in done then Selects(deployments[n].spec, Bare(d0)) else HasDeployment(d0, n);
      (HasDeployment(d, n) <==> placed) && (Labelled(d, n) <==> placed)
  {
    ExactIsInStep(d, d0, Progress(deployments, d0, done), n);
  }

  /** A run in which every pair was covered, by whichever controller. */
  ghost predicate CompleteRun(w: World, ws: seq<World>, xs: seq<Action>) {
    && Theorems.IsRun(ws, xs) && ws[0] == w
    && (forall i :: 0 <= i < |xs| ==> CleanAction(xs[i]))
    && forall k, n :: k in w.devices && n in w.deployments ==> exists i :: 0 <= i < |xs| && Covers(xs[i], k, n)
  }

  lemma CompleteRunIsExact(w: World, ws: seq<World>, xs: seq<Action>, k: Name)
    requires Calm(w) && CompleteRun(w, ws, xs) && k in w.devices && NoRivalsAt(w.deployments, w.devices[k])
    ensures ws[|xs|].deployments == w.deployments && ws[|xs|].devices.Keys == w.devices.Keys
    ensures HasExactly(ws[|xs|].devices[k], w.devices[k], Wanted(w.deployments, w.devices[k]))
  {
    var all := w.deployments.Keys;
    MixedRuns(ws, xs, |xs|);
    assert xs[..|xs|] == xs && DeviceUnderway(ws[|xs|], w, xs, k);
    forall n | n in all ensures n in Covered(xs, k, all) {
      CoveredBySome(xs, k, all, n);
    }
    CalmFacts(w, k);
    ProgressComplete(w.deployments, w.devices[k], Covered(xs, k, all));
  }

  /** From any calm state, any two runs of the two controllers in which every pair of a
      deployment and a device was covered, whether deployment by deployment, device by
      device or mixed, give every device without rivals the same labels and the same
      entries, namely one for each deployment that selects it, old ones unchanged. */
  lemma CompleteRunsAgree(w: World, ws: seq<World>, xs: seq<Action>, vs: seq<World>, ys: seq<Action>, k: Name)
    requires Calm(w) && CompleteRun(w, ws, xs) && CompleteRun(w, vs, ys)
    requires k in w.devices && NoRivalsAt(w.deployments, w.devices[k])
    ensures var a, b := ws[|xs|], vs[|ys|];
      && a.deployments == b.deployments == w.deployments
      && k in a.devices && k in b.devices
      && SamePlacement(a.devices[k], b.devices[k])
      && HasExactly(a.devices[k], w.devices[k], Wanted(w.deployments, w.devices[k]))
  {
    CompleteRunIsExact(w, ws, xs, k);
    CompleteRunIsExact(w, vs, ys, k);
    CalmFacts(w, k);
    ExactMeansSame(ws[|xs|].devices[k], vs[|ys|].devices[k], w.devices[k], Wanted(w.deployments, w.devices[k]));
  }

  // ----------------------------------------- selectors that look at workload labels

  lemma TwoCleanPasses(w: World, n: Name, m: Name, k: Name)
    requires WellKeyed(w) && k in w.devices && Working(w, n) && Working(w, m)
    requires !w.deployments[n].deleting && !w.deployments[m].deleting
    ensures WellKeyed(Clean(w, n)) && k in Clean(Clean(w, n), m).devices
    ensures Clean(Clean(w, n), m).devices[k]
         == Settled(w.deployments[m], Settled(w.deployments[n], w.devices[k]))
  {
    ReconcileKeepsKeys(w, n, NO_FAULTS);
    CleanPass(w, n);
    CleanPass(Clean(w, n), m);
  }

  function Indexing(n: Name, rs: seq<Requirement>): EdgeDeployment {
    var spec := Spec("", Some(LabelSelector(map["zone" := "a"], rs)));
    EdgeDeployment(n, spec, Indexed(map[], spec), [DEVICE_REFERENCE_FINALIZER], false)
  }

  const IN_ZONE := EdgeDevice("edge-1", map["zone" := "a"], [], false, [])

  /** One deployment goes wherever the zone fits, the other where the first one is not. */
  function RivalPair(n: Name, m: Name): World {
    World(map["edge-1" := IN_ZONE],
          map[n := Indexing(n, []), m := Indexing(m, [Requirement(WorkloadLabel(n), DoesNotExist, [])])])
  }

  predicate InZone(d: EdgeDevice) {
    "zone" in d.labels && d.labels["zone"] == "a"
  }

  lemma RivalSelects(n: Name, m: Name, d: EdgeDevice)
    ensures Selects(Indexing(n, []).spec, d) <==> InZone(d)
    ensures Selects(Indexing(m, [Requirement(WorkloadLabel(n), DoesNotExist, [])]).spec, d)
       <==> InZone(d) && !HasLabelForDeployment(d, n)
  {
    var rs := [Requirement(WorkloadLabel(n), DoesNotExist, [])];
    assert rs[0] in rs;
  }

  lemma AddedStaysInZone(n: Name, d: EdgeDevice)
    requires InZone(d)
    ensures InZone(Added(n, d)) && HasDeployment(Added(n, d), n) && HasLabelForDeployment(Added(n, d), n)
    ensures forall m :: HasDeployment(d, m) ==> HasDeployment(Added(n, d), m)
    ensures forall m :: m != n ==> (HasDeployment(Added(n, d), m) <==> HasDeployment(d, m))
    ensures forall m :: m != n ==> (HasLabelForDeployment(Added(n, d), m) <==> HasLabelForDeployment(d, m))
  {
    assert WorkloadLabel(n)[0] == 'w' && "zone"[0] == 'z';
    WithoutAppended(d.deployments, Entry(n, DEPLOYING, 0, 0));
    forall m | m != n ensures WorkloadLabel(m) != WorkloadLabel(n) {
      KeySpaces(n, m);
    }
  }

  lemma RivalsOnADevice(n: Name, m: Name)
    requires n != m
    ensures var a := Indexing(n, []);
      var b := Indexing(m, [Requirement(WorkloadLabel(n), DoesNotExist, [])]);
      && HasDeployment(Settled(a, Settled(b, IN_ZONE)), m)
      && !HasDeployment(Settled(b, Settled(a, IN_ZONE)), m)
  {
    BareInZone(n);
    BareInZone(m);
    RivalSelects(n, m, IN_ZONE);
    AddedStaysInZone(n, IN_ZONE);
    AddedStaysInZone(m, IN_ZONE);
    RivalSelects(n, m, Added(n, IN_ZONE));
    RivalSelects(n, m, Added(m, IN_ZONE));
    AddedStaysInZone(n, Added(m, IN_ZONE));
  }

  lemma BareInZone(n: Name)
    ensures InZone(IN_ZONE) && !HasLabelForDeployment(IN_ZONE, n) && !HasDeployment(IN_ZONE, n)
  {
    assert WorkloadLabel(n)[0] == 'w' && "zone"[0] == 'z';
  }

  lemma RivalPairPlaces(n: Name, m: Name)
    requires n != m
    requires '/' !in n && '/' !in m
    ensures var w := RivalPair(n, m);
      && WellKeyed(w) && Working(w, n) && Working(w, m) && w.deployments.Keys == {n, m}
      && StageOf(w.deployments[n]).Placing? && StageOf(w.deployments[m]).Placing?
  {
    var r := Requirement(WorkloadLabel(n), DoesNotExist, []);
    ValidWorkloadLabel(n);
    IndexingPlaces(n, []);
    IndexingPlaces(m, [r]);
  }

  lemma IndexingPlaces(n: Name, rs: seq<Requirement>)
    requires forall r :: r in rs ==> ValidRequirement(r)
    ensures var dep := Indexing(n, rs);
      StageOf(dep).Placing? && !SelectionFails(dep.spec) && dep.name == n
  {
    assert '/' !in "zone";
    IndexedIsAFixedPoint(map[], Indexing(n, rs).spec);
  }

  /** Why confluence needs selectors that ignore workload labels: with one that does not,
      the order of two reconciles decides where a deployment goes. */
  lemma WorkloadSelectorsRace(n: Name, m: Name)
    requires n != m
    requires '/' !in n && '/' !in m
    ensures var w := RivalPair(n, m);
      && WellKeyed(w) && StageOf(w.deployments[n]).Placing? && StageOf(w.deployments[m]).Placing?
      && WellKeyed(Clean(w, n)) && WellKeyed(Clean(w, m))
      && "edge-1" in Clean(Clean(w, m), n).devices && "edge-1" in Clean(Clean(w, n), m).devices
      && HasDeployment(Clean(Clean(w, m), n).devices["edge-1"], m)
      && !HasDeployment(Clean(Clean(w, n), m).devices["edge-1"], m)
  {
    var w := RivalPair(n, m);
    RivalPairPlaces(n, m);
    TwoCleanPasses(w, n, m, "edge-1");
    TwoCleanPasses(w, m, n, "edge-1");
    RivalsOnADevice(n, m);
  }
}
