/** What holds in every reachable state. */
module Theorems {
  import opened Kube
  import opened Labels
  import opened Placement
  import opened SelectorIndex
  import opened DeploymentReconcile
  import opened DeviceReconcile
  import opened Settling
  import opened Convergence
  import opened Runs
  import opened RunProofs

  /** A run: the states passed and the actions between them. */
  ghost predicate IsRun(ws: seq<World>, xs: seq<Action>) {
    && |ws| == |xs| + 1
    && (forall i :: 0 <= i < |ws| ==> WellKeyed(ws[i]))
    && forall i :: 0 <= i < |xs| ==> IsStep(ws[i], xs[i], ws[i + 1])
  }

  ghost predicate IsStep(w: World, x: Action, w': World) {
    WellKeyed(w) && Legal(w, x) && w' == Next(w, x)
  }

  const NOTHING := World(map[], map[])

  /** Runs that start from nothing have all the invariants to start with. */
  lemma FromTheEmptyCluster(ws: seq<World>, xs: seq<Action>, i: nat)
    requires IsRun(ws, xs) && ws[0] == NOTHING && i < |ws|
    ensures InStepWorld(ws[0]) && Anchored(ws[0])
    ensures Sound(ws[i])
  {
    EveryRunIsSound(ws, xs, i);
  }

  /** Whatever fails: names in status stay unique, workload labels say "true", and the
      index never leads to a deployment without the finalizer. */
  lemma {:induction false} EveryRunIsSound(ws: seq<World>, xs: seq<Action>, i: nat)
    requires IsRun(ws, xs) && Sound(ws[0]) && i < |ws|
    ensures Sound(ws[i])
  {
    if i > 0 {
      EveryRunIsSound(ws, xs, i - 1);
      assert IsStep(ws[i - 1], xs[i - 1], ws[i - 1 + 1]);
      SoundNext(ws[i - 1], xs[i - 1]);
    }
  }

  /** No dangling references, exactly: up to any point of a run, every name in a status
      belongs to a guarded deployment if and only if no step so far released a deployment
      that some device cannot be traced to, or placed a released one. */
  lemma GuardedUntilBroken(ws: seq<World>, xs: seq<Action>, m: nat)
    requires IsRun(ws, xs) && AllGuarded(ws[0]) && m <= |xs|
    ensures (forall i :: 0 <= i <= m ==> AllGuarded(ws[i])) <==> (forall i :: 0 <= i < m ==> !Breaks(ws[i], xs[i]))
  {
    var good := i requires 0 <= i < |ws| => AllGuarded(ws[i]);
    var bad := i requires 0 <= i < |xs| => Breaks(ws[i], xs[i]);
    forall i | 0 <= i < m && good(i) ensures good(i + 1) <==> !bad(i) {
      OneStepOn(ws, xs, i);
    }
    GoodUntilBad(good, bad, m);
    assert forall i :: 0 <= i <= m ==> (AllGuarded(ws[i]) <==> good(i));
    assert forall i :: 0 <= i < m ==> (Breaks(ws[i], xs[i]) <==> bad(i));
  }

  lemma {:induction false} GoodUntilBad(good: int --> bool, bad: int --> bool, m: nat)
    requires forall i :: 0 <= i <= m ==> good.requires(i)
    requires forall i :: 0 <= i < m ==> bad.requires(i)
    requires good(0) && forall i :: 0 <= i < m && good(i) ==> (good(i + 1) <==> !bad(i))
    ensures (forall i :: 0 <= i <= m ==> good(i)) <==> (forall i :: 0 <= i < m ==> !bad(i))
  {
    if m > 0 {
      GoodUntilBad(good, bad, m - 1);
      if good(m - 1) {
        assert good(m - 1 + 1) <==> !bad(m - 1);
      }
    }
  }

  lemma OneStepOn(ws: seq<World>, xs: seq<Action>, i: nat)
    requires IsRun(ws, xs) && i < |xs| && AllGuarded(ws[i])
    ensures AllGuarded(ws[i + 1]) <==> !Breaks(ws[i], xs[i])
  {
    assert IsStep(ws[i], xs[i], ws[i + 1]);
    GuardedNext(ws[i], xs[i]);
  }

  /** A sufficient condition: if labels to be added arrive, while all other writes may
      fail, and no released deployment is placed, every name in a status is labelled and
      belongs to a deployment with the finalizer. */
  lemma {:induction false} NoRunDangles(ws: seq<World>, xs: seq<Action>, i: nat)
    requires IsRun(ws, xs) && Anchored(ws[0]) && i < |ws|
    requires forall j :: 0 <= j < |xs| ==> LabelsArrive(ws[j], xs[j])
    requires forall j :: 0 <= j < |xs| && xs[j].ReconcileLabels? ==> !PlacesReleased(ws[j], xs[j].k, xs[j].da)
    ensures Anchored(ws[i])
  {
    if i > 0 {
      NoRunDangles(ws, xs, i - 1);
      assert IsStep(ws[i - 1], xs[i - 1], ws[i - 1 + 1]);
      AnchoredNext(ws[i - 1], xs[i - 1]);
    }
  }

  /** Labels agree with status, exactly: up to any point of a run, on every device, if and
      only if no step so far changed a status and failed to get the label patch through. */
  lemma InStepUntilTorn(ws: seq<World>, xs: seq<Action>, m: nat)
    requires IsRun(ws, xs) && InStepWorld(ws[0]) && m <= |xs|
    ensures (forall i :: 0 <= i <= m ==> InStepWorld(ws[i])) <==> (forall i :: 0 <= i < m ==> !Tears(ws[i], xs[i]))
  {
    var good := i requires 0 <= i < |ws| => InStepWorld(ws[i]);
    var bad := i requires 0 <= i < |xs| => Tears(ws[i], xs[i]);
    forall i | 0 <= i < m && good(i) ensures good(i + 1) <==> !bad(i) {
      assert IsStep(ws[i], xs[i], ws[i + 1]);
      InStepNext(ws[i], xs[i]);
    }
    GoodUntilBad(good, bad, m);
    assert forall i :: 0 <= i <= m ==> (InStepWorld(ws[i]) <==> good(i));
    assert forall i :: 0 <= i < m ==> (Tears(ws[i], xs[i]) <==> bad(i));
  }

  /** A sufficient condition on the replies: no device is left between its two writes. */
  lemma EveryWholeRunIsInStep(ws: seq<World>, xs: seq<Action>, i: nat)
    requires IsRun(ws, xs) && InStepWorld(ws[0]) && i < |ws|
    requires forall j :: 0 <= j < |xs| ==> WritesAreWhole(ws[j], xs[j])
    ensures InStepWorld(ws[i])
  {
    forall j | 0 <= j < i ensures !Tears(ws[j], xs[j]) {
      WholeWritesDoNotTear(ws[j], xs[j]);
    }
    InStepUntilTorn(ws, xs, i);
  }

  /** The operator's finalizer leaves a deployment exactly by a reconcile under deletion
      that meets no error. The deployment then goes if the finalizer was its only one; no
      device keeps a label of it, and exactly those keep an entry that had one which
      neither a label nor the selector led to. */
  lemma FinalizerLeavesLast(w: World, x: Action, n: Name)
    requires Sound(w) && Legal(w, x) && Guarded(w, n)
    ensures !Guarded(Next(w, x), n) <==> x.ReconcileDeployment? && x.n == n && Releases(w, n, x.a)
    ensures !Guarded(Next(w, x), n) ==>
      var r := Next(w, x);
      && (n !in r.deployments <==> forall f :: f in w.deployments[n].finalizers ==> f == DEVICE_REFERENCE_FINALIZER)
      && r.devices.Keys == w.devices.Keys
      && forall k :: k in w.devices ==>
           && !HasLabelForDeployment(r.devices[k], n)
           && (HasDeployment(r.devices[k], n) <==> !Traceable(w.deployments[n], w.devices[k]))
  {
    if x.ReconcileDeployment? {
      ReconcileKeepsGuards(w, x.n, x.a, n);
      if x.n == n && Releases(w, n, x.a) {
        ReleasedDeployment(w, n, x.a);
        forall k | k in w.devices
          ensures !HasLabelForDeployment(Next(w, x).devices[k], n)
          ensures HasDeployment(Next(w, x).devices[k], n) <==> !Traceable(w.deployments[n], w.devices[k])
        {
          ReleaseLeavesUntraceable(w, n, x.a, k);
        }
      }
    } else if x.ReconcileLabels? {
      LabelsStep(w, x.k, x.da, x.order);
    } else {
      OtherDeployments(w, x);
    }
  }

  lemma ReleasedDeployment(w: World, n: Name, a: Answers)
    requires Sound(w) && Releases(w, n, a)
    ensures var r := Reconcile(w, n, a).0;
      && (n !in r.deployments <==> forall f :: f in w.deployments[n].finalizers ==> f == DEVICE_REFERENCE_FINALIZER)
      && r.devices.Keys == w.devices.Keys
  {
    var rest := WithoutFinalizer(w.deployments[n].finalizers, DEVICE_REFERENCE_FINALIZER);
    DeploymentStep(w, n, a);
    assert rest != [] ==> rest[0] in rest;
  }

  /** From any state: finalizing leaves no entry behind exactly when every device that
      has one is still labelled or selected. */
  lemma FinalizingCleansTraceableDevices(w: World, n: Name)
    requires WellKeyed(w) && Working(w, n) && w.deployments[n].deleting
    ensures (forall k :: k in Clean(w, n).devices ==> !HasDeployment(Clean(w, n).devices[k], n))
       <==> (forall k :: k in w.devices ==> Traceable(w.deployments[n], w.devices[k]))
  {
    var dep, r := w.deployments[n], Clean(w, n);
    CleanPass(w, n);
    forall k | k in w.devices
      ensures HasDeployment(r.devices[k], n) <==> !Traceable(dep, w.devices[k])
    {
    }
    if exists k :: k in w.devices && !Traceable(dep, w.devices[k]) {
      var k :| k in w.devices && !Traceable(dep, w.devices[k]);
      assert k in r.devices && HasDeployment(r.devices[k], n);
    }
  }

  // --------------------------------------------- a lost label that is never found

  const SELECTOR := LabelSelector(map["zone" := "a"], [])
  const WEB := EdgeDeployment("web", Spec("", Some(SELECTOR)), map[CreateSelectorLabel("zone") := "true"],
                              [DEVICE_REFERENCE_FINALIZER], false)
  const EDGE := EdgeDevice("edge-1", map["zone" := "a"], [], false, [])
  const LOST := Answers(false, false, false, Accepted, map["edge-1" := Replies(Accepted, Rejected)])

  /** The only device after the label patch was refused, and after its own label was
      edited. */
  const HALFWAY := EDGE.(deployments := [Entry("web", DEPLOYING, 0, 0)])
  const EDITED := HALFWAY.(labels := map["zone" := "b"])

  const W0 := World(map["edge-1" := EDGE], map["web" := WEB])
  const W1 := World(map["edge-1" := HALFWAY], map["web" := WEB])
  const W2 := World(map["edge-1" := EDITED], map["web" := WEB])
  const W3 := World(map["edge-1" := EDITED], map["web" := WEB.(deleting := true)])
  const W4 := World(map["edge-1" := EDITED], map[])

  lemma PlainLabels(n: Name)
    ensures !HasLabelForDeployment(EDGE, n) && !HasLabelForDeployment(EDITED, n)
  {
    assert WorkloadLabel(n)[0] == 'w' && "zone"[0] == 'z';
  }

  lemma WebIsValid()
    ensures !SelectionFails(WEB.spec) && '/' !in "web"
  {
    assert '/' !in "zone";
  }

  lemma ThirdIsKeyed()
    ensures WellKeyed(V3) && V3.devices["edge-1"] == EDGE
  {
    WebIsValid();
  }

  lemma WebIsPlacing()
    ensures StageOf(WEB) == Placing
  {
    assert IndexKeys(SELECTOR) == {"zone"};
    assert TrueLabels({"zone"}) == WEB.labels;
    assert Indexed(WEB.labels, WEB.spec) == WEB.labels;
  }

  lemma RefusedLabel()
    ensures PlacingPass(W0, WEB, LOST.faults).0 == W1
  {
    assert Selects(WEB.spec, EDGE);
    PlainLabels("web");
    assert EDGE.deployments + [Entry("web", DEPLOYING, 0, 0)] == HALFWAY.deployments;
    var matching := MatchingNames(W0.devices, WEB.spec);
    assert Place(Add("web"), EDGE, Replies(Accepted, Rejected)) == Outcome(HALFWAY, false);
    assert "edge-1" in matching;
    assert PlaceAll(W0.devices, Add("web"), matching, LOST.faults) == W1.devices;
  }

  const X0 := ReconcileDeployment("web", LOST)
  const X1 := EditDeviceLabels("edge-1", map["zone" := "b"])
  const X2 := DeleteDeployment("web")
  const X3 := ReconcileDeployment("web", NO_FAULTS)

  lemma FreshClusterInStep()
    ensures InStepWorld(W0)
  {
    assert CreateSelectorLabel("zone") in WEB.labels;
    InvalidSelectorKey("zone");
    assert '/' !in "zone";
    forall n { PlainLabels(n); }
  }

  lemma FirstPass()
    ensures Reconcile(W0, "web", LOST).0 == W1
  {
    WebIsPlacing();
    WebIsValid();
    assert W0.deployments["web"] == WEB;
    ReachesMeansPass(W0, "web", LOST);
    RefusedLabel();
  }

  lemma ReachesMeansPass(w: World, n: Name, a: Answers)
    requires WellKeyed(w) && ReachesDevices(w, n, a) && StageOf(w.deployments[n]).Placing?
    ensures Reconcile(w, n, a).0 == PlacingPass(w, w.deployments[n], a.faults).0
  {
  }

  lemma FirstStep()
    ensures IsStep(W0, X0, W1)
  {
    FreshClusterInStep();
    FirstPass();
  }

  lemma EditStep()
    ensures IsStep(W1, X1, W2)
  {
    forall l | IsWorkloadLabel(l) ensures AgreeOn({l}, map["zone" := "b"], HALFWAY.labels) {
      assert l[0] == 'w' && "zone"[0] == 'z';
    }
    assert W1.devices["edge-1" := EDITED] == W2.devices;
  }

  lemma DeleteStep()
    ensures IsStep(W2, X2, W3)
  {
    assert W3.deployments == W2.deployments["web" := WEB.(deleting := true)];
  }

  lemma LastStep()
    ensures IsStep(W3, X3, W4) && WellKeyed(W4)
  {
    var dep := WEB.(deleting := true);
    WebIsValid();
    assert "zone" in SELECTOR.matchLabels && !Selects(dep.spec, EDITED);
    PlainLabels("web");
    assert Working(W3, "web");
    CleanPass(W3, "web");
    assert SettledAll(W3.devices, dep) == W3.devices;
    assert AfterWork(W3.deployments, dep) == map[];
  }

  lemma OneStepMore(ws: seq<World>, xs: seq<Action>, x: Action, w: World)
    requires IsRun(ws, xs) && IsStep(ws[|xs|], x, w) && WellKeyed(w)
    ensures IsRun(ws + [w], xs + [x])
  {
    var ws', xs' := ws + [w], xs + [x];
    forall i | 0 <= i < |xs'| ensures IsStep(ws'[i], xs'[i], ws'[i + 1]) {
      if i < |xs| {
        assert IsStep(ws[i], xs[i], ws[i + 1]);
      }
    }
  }

  lemma ThreeStates(w0: World, w1: World, w2: World, x0: Action, x1: Action)
    requires IsStep(w0, x0, w1) && IsStep(w1, x1, w2) && WellKeyed(w2)
    ensures IsRun([w0, w1, w2], [x0, x1])
  {
    assert IsRun([w0], []);
    OneStepMore([w0], [], x0, w1);
    OneStepMore([w0] + [w1], [] + [x0], x1, w2);
    assert [w0] + [w1] + [w2] == [w0, w1, w2] && [] + [x0] + [x1] == [x0, x1];
  }

  lemma FiveStates(w0: World, w1: World, w2: World, w3: World, w4: World, x0: Action, x1: Action, x2: Action,
      x3: Action)
    requires IsRun([w0, w1, w2], [x0, x1]) && IsStep(w2, x2, w3) && IsStep(w3, x3, w4) && WellKeyed(w4)
    ensures IsRun([w0, w1, w2, w3, w4], [x0, x1, x2, x3])
  {
    var ws, xs := [w0, w1, w2], [x0, x1];
    OneStepMore(ws, xs, x2, w3);
    OneStepMore(ws + [w3], xs + [x2], x3, w4);
    assert ws + [w3] + [w4] == [w0, w1, w2, w3, w4] && xs + [x2] + [x3] == [x0, x1, x2, x3];
  }

  /** One refused label patch, then a label edit, then a deletion: the deployment is
      gone and the device still has it in its status. */
  lemma ALostLabelCanDangle()
    ensures InStepWorld(W0) && IsRun([W0, W1, W2, W3, W4], [X0, X1, X2, X3])
    ensures HasDeployment(W4.devices["edge-1"], "web") && "web" !in W4.deployments
  {
    FreshClusterInStep();
    FirstStep();
    EditStep();
    DeleteStep();
    LastStep();
    ThreeStates(W0, W1, W2, X0, X1);
    FiveStates(W0, W1, W2, W3, W4, X0, X1, X2, X3);
    assert EDITED.deployments[0] in EDITED.deployments;
  }

  // ------------------------------------- a released deployment that is placed again

  const KEPT := WEB.(finalizers := [DEVICE_REFERENCE_FINALIZER, "other"])
  const FREED := KEPT.(finalizers := ["other"], deleting := true)

  /** The device with the deployment placed, entry and label. */
  const PLACED := EDGE.(deployments := [Entry("web", DEPLOYING, 0, 0)],
                        labels := map["zone" := "a", WorkloadLabel("web") := "true"])

  const V1 := World(map["edge-1" := EDGE], map["web" := KEPT])
  const V2 := World(map["edge-1" := EDGE], map["web" := KEPT.(deleting := true)])
  const V3 := World(map["edge-1" := EDGE], map["web" := FREED])
  const V4 := World(V3.devices["edge-1" := PLACED], V3.deployments)
  const V5 := World(V4.devices, map[])

  const Y0 := AddFinalizer("web", "other")
  const Y1 := DeleteDeployment("web")
  const Y2 := ReconcileDeployment("web", NO_FAULTS)
  const Y3 := ReconcileLabels("edge-1", DeviceAnswers(false, false, ALL_ACCEPTED), ["web"])
  const Y4 := DropFinalizer("web", "other")

  lemma KeepSteps()
    ensures IsStep(W0, Y0, V1) && IsStep(V1, Y1, V2)
  {
    assert WEB.finalizers + ["other"] == KEPT.finalizers;
    assert W0.deployments["web" := KEPT] == V1.deployments;
    assert V1.deployments["web" := KEPT.(deleting := true)] == V2.deployments;
  }

  lemma OtherStays()
    ensures WithoutFinalizer(KEPT.finalizers, DEVICE_REFERENCE_FINALIZER) == ["other"]
  {
    assert KEPT.finalizers[..1] == [DEVICE_REFERENCE_FINALIZER];
    assert WithoutFinalizer([DEVICE_REFERENCE_FINALIZER], DEVICE_REFERENCE_FINALIZER) == [];
  }

  lemma FreeStep()
    ensures IsStep(V2, Y2, V3)
  {
    FreePass();
  }

  lemma FreePass()
    ensures WellKeyed(V2) && Clean(V2, "web") == V3
  {
    PlainLabels("web");
    assert Working(V2, "web");
    FinalizesUnplaced(V2, "web", "edge-1");
    FreedStays();
  }

  lemma FreedStays()
    ensures AfterWork(V2.deployments, KEPT.(deleting := true)) == V3.deployments
  {
    OtherStays();
    assert map["web" := KEPT.(deleting := true)]["web" := FREED] == map["web" := FREED];
  }

  /** Finalizing where no device has anything of the deployment. */
  lemma FinalizesUnplaced(w: World, n: Name, k: Name)
    requires w.devices.Keys == {k} && WellKeyed(w) && Working(w, n) && w.deployments[n].deleting
    requires !HasDeployment(w.devices[k], n) && !HasLabelForDeployment(w.devices[k], n)
    ensures Clean(w, n) == World(w.devices, AfterWork(w.deployments, w.deployments[n]))
  {
    CleanPass(w, n);
    assert Removed(n, w.devices[k]) == w.devices[k];
  }

  lemma ZoneIsPlain()
    ensures !IsWorkloadLabel("zone") && "zone" != DEVICE_NAME_LABEL && '/' !in "zone"
  {
    assert "zone"[0] == 'z' && WORKLOAD_PREFIX[0] == 'w';
    assert |DEVICE_NAME_LABEL| == 10 && |"zone"| == 4;
  }

  lemma EdgeFindsWeb()
    ensures Listed(WEB.labels, EDGE) && IsDeploymentMatchDevice(WEB.spec, EDGE) && !LookupsFail(EDGE)
  {
    ZoneIsPlain();
    WebIsPlacing();
    assert "zone" in SELECTOR.matchLabels;
    assert Selects(WEB.spec, EDGE);
    IndexableSpecsAgree(WEB.labels, WEB.spec, EDGE);
  }

  lemma OnlyCandidate(dep: EdgeDeployment, d: EdgeDevice)
    requires Listed(dep.labels, d) && IsDeploymentMatchDevice(dep.spec, d)
    requires !LookupsFail(d) && !MatchFails(dep.spec, d)
    ensures Matched(map[dep.name := dep], d) == {dep.name} && !SelectionAborts(map[dep.name := dep], d)
  {
    assert Candidates(map[dep.name := dep], d) == {dep.name};
  }

  lemma FirstEntry(d: EdgeDevice, n: Name)
    requires d.deployments == []
    ensures Updated(d, {n}, [n]) ==
      Some(d.(deployments := [Entry(n, DEPLOYING, 0, 0)], labels := d.labels[WorkloadLabel(n) := "true"]))
    ensures Orders([n], {n}) && NewNames(d, {n}) == {n}
  {
    assert ScanEntries([], {n}, d.labels) == Scan([], {n}, d.labels, false);
    OneWorkloadMore(d.labels, {}, n);
    assert {} + {n} == {n} && d.labels + WorkloadLabels({}) == d.labels;
    assert d.deployments[..0] == [];
    assert [] + NewEntries([n]) == [Entry(n, DEPLOYING, 0, 0)];
  }

  lemma PlacesFirst(w: World, k: Name, n: Name, placed: EdgeDevice)
    requires WellKeyed(w) && k in w.devices && !w.devices[k].deleting && w.devices[k].deployments == []
    requires Matched(w.deployments, w.devices[k]) == {n} && !SelectionAborts(w.deployments, w.devices[k])
    requires placed == w.devices[k].(deployments := [Entry(n, DEPLOYING, 0, 0)],
                                     labels := w.devices[k].labels[WorkloadLabel(n) := "true"])
    ensures IsStep(w, ReconcileLabels(k, DeviceAnswers(false, false, ALL_ACCEPTED), [n]),
                   World(w.devices[k := placed], w.deployments))
  {
    FirstEntry(w.devices[k], n);
  }

  lemma StillFound()
    ensures Matched(V3.deployments, EDGE) == {"web"} && !SelectionAborts(V3.deployments, EDGE)
  {
    EdgeFindsWeb();
    OnlyCandidate(FREED, EDGE);
  }

  lemma PlacedIsNext()
    ensures PLACED == EDGE.(deployments := [Entry("web", DEPLOYING, 0, 0)],
                            labels := EDGE.labels[WorkloadLabel("web") := "true"])
  {
    assert EDGE.labels[WorkloadLabel("web") := "true"] == PLACED.labels;
  }

  lemma PlaceAgainStep()
    ensures IsStep(V3, Y3, V4)
  {
    StillFound();
    PlacedIsNext();
    ThirdIsKeyed();
    PlacesFirst(V3, "edge-1", "web", PLACED);
  }

  lemma DropStep()
    ensures IsStep(V4, Y4, V5) && WellKeyed(V5)
  {
    assert WithoutFinalizer(["other"], "other") == [];
    assert V4.deployments - {"web"} == V5.deployments;
  }

  /** A finalizer of another controller keeps a deployment that the operator has let go,
      the label controller places it again, and then it goes. No write failed. */
  lemma AReleasedDeploymentCanDangle()
    ensures InStepWorld(W0) && IsRun([W0, V1, V2, V3, V4, V5], [Y0, Y1, Y2, Y3, Y4])
    ensures StageOf(FREED).Released?
    ensures HasDeployment(V5.devices["edge-1"], "web") && "web" !in V5.deployments
  {
    FreshClusterInStep();
    KeepSteps();
    FreeStep();
    PlaceAgainStep();
    DropStep();
    ThreeStates(W0, V1, V2, Y0, Y1);
    FiveStates(W0, V1, V2, V3, V4, Y0, Y1, Y2, Y3);
    OneStepMore([W0, V1, V2, V3, V4], [Y0, Y1, Y2, Y3], Y4, V5);
    assert [W0, V1, V2, V3, V4] + [V5] == [W0, V1, V2, V3, V4, V5];
    assert [Y0, Y1, Y2, Y3] + [Y4] == [Y0, Y1, Y2, Y3, Y4];
    assert PLACED.deployments[0] in PLACED.deployments;
  }
}
