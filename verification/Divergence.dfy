/** Where there are rivals the two controllers do not agree: so they agree exactly where
    there are none. */
module Divergence {
  import opened Kube
  import opened Labels
  import opened Placement
  import opened SelectorIndex
  import opened DeploymentReconcile
  import opened DeviceReconcile
  import opened Settling
  import opened Convergence
  import opened Runs
  import opened RunProofs
  import opened Rivals
  import opened ExactPlacement
  import opened Confluence
  import Theorems

  // ------------------------------------------------------------- other placements

  /** `d` is `d0` with some placement of known deployments, labels and status in step. */
  ghost predicate PlacementOf(d: EdgeDevice, d0: EdgeDevice, known: set<Name>) {
    && d == Marked(d0, Names(d.deployments)).(deployments := d.deployments)
    && UniqueNames(d.deployments) && Names(d.deployments) <= known
  }

  /** The same cluster with any placements. */
  ghost predicate PlacedWorld(p: World, w: World) {
    && p.deployments == w.deployments && p.devices.Keys == w.devices.Keys
    && forall k :: k in w.devices ==> PlacementOf(p.devices[k], w.devices[k], w.deployments.Keys)
  }

  lemma PlacementInStep(d: EdgeDevice, d0: EdgeDevice, known: set<Name>)
    requires PlacementOf(d, d0, known)
    ensures InStep(d) && PlainPart(d.labels) == PlainPart(d0.labels)
    ensures forall n :: HasLabelForDeployment(d, n) ==> Labelled(d, n)
    ensures Bare(d).labels == Bare(d0).labels
    ensures CalmDevice(d0) ==> CalmDevice(d)
  {
    var names := Names(d.deployments);
    MarkedLabels(d0, names);
    if CalmDevice(d0) {
      MarkedIsCalm(d0, names);
      LookupsIgnoreWorkloads(d, d0);
    }
  }

  lemma SameRivals(deployments: Deployments, d: EdgeDevice, d0: EdgeDevice, known: set<Name>)
    requires PlacementOf(d, d0, known)
    ensures NoRivalsAt(deployments, d) <==> NoRivalsAt(deployments, d0)
  {
    PlacementInStep(d, d0, known);
    forall m | m in deployments
      ensures Selects(deployments[m].spec, Bare(d)) <==> Selects(deployments[m].spec, Bare(d0))
    {
      SelectsByLabels(deployments[m].spec, Bare(d), Bare(d0));
    }
  }

  lemma PlacedIsCalm(p: World, w: World)
    requires Calm(w) && PlacedWorld(p, w)
    ensures Calm(p)
  {
    forall k | k in p.devices
      ensures SoundDevice(p.devices[k]) && InStep(p.devices[k]) && CalmDevice(p.devices[k])
      ensures p.devices[k].name == k != "" && NoDangling(p, p.devices[k])
    {
      CalmFacts(w, k);
      PlacementInStep(p.devices[k], w.devices[k], w.deployments.Keys);
      forall n | HasDeployment(p.devices[k], n) ensures Guarded(p, n) {
        assert n in w.deployments && CalmDeployment(w.deployments[n]);
      }
    }
    assert Sound(p);
  }

  // --------------------------------------------- reconciling deployments in order

  function CleanAll(w: World, ns: seq<Name>): (r: World)
    requires WellKeyed(w)
    ensures WellKeyed(r)
  {
    if ns == [] then w
    else
      var before := CleanAll(w, ns[..|ns| - 1]);
      ReconcileKeepsKeys(before, ns[|ns| - 1], NO_FAULTS);
      Clean(before, ns[|ns| - 1])
  }

  function SettleAll(deployments: Deployments, d: EdgeDevice, ns: seq<Name>): EdgeDevice
    requires forall n :: n in ns ==> n in deployments
  {
    if ns == [] then d
    else Settled(deployments[ns[|ns| - 1]], SettleAll(deployments, d, ns[..|ns| - 1]))
  }

  lemma {:induction false} CleanAllSettles(w: World, ns: seq<Name>)
    requires WellKeyed(w) && CalmDeployments(w.deployments) && forall n :: n in ns ==> n in w.deployments
    ensures var r := CleanAll(w, ns);
      && r.deployments == w.deployments && r.devices.Keys == w.devices.Keys
      && forall k :: k in w.devices ==> r.devices[k] == SettleAll(w.deployments, w.devices[k], ns)
  {
    if ns != [] {
      CleanAllSettles(w, ns[..|ns| - 1]);
      CalmPass(CleanAll(w, ns[..|ns| - 1]), ns[|ns| - 1]);
    }
  }

  lemma SettledElsewhere(dep: EdgeDeployment, d: EdgeDevice, m: Name)
    requires dep.name != m
    ensures HasDeployment(Settled(dep, d), m) <==> HasDeployment(d, m)
  {
    WithoutAppended(d.deployments, Entry(dep.name, DEPLOYING, 0, 0));
  }

  /** Later reconciles of others do not touch the entry. */
  lemma {:induction false} OthersLeaveIt(deployments: Deployments, d: EdgeDevice, ns: seq<Name>, others: seq<Name>,
      m: Name)
    requires forall n :: n in deployments ==> deployments[n].name == n
    requires forall n :: n in ns + others ==> n in deployments
    requires forall n :: n in others ==> n != m
    ensures HasDeployment(SettleAll(deployments, d, ns + others), m) <==>
            HasDeployment(SettleAll(deployments, d, ns), m)
  {
    if others == [] {
      assert ns + others == ns;
    } else {
      var init, last := others[..|others| - 1], others[|others| - 1];
      assert (ns + others)[..|ns + others| - 1] == ns + init && others == init + [last];
      assert forall x :: x in init ==> x in others;
      assert forall x :: x in others ==> x in ns + others;
      assert forall x :: x in ns ==> x in ns + others;
      assert last in others;
      OthersLeaveIt(deployments, d, ns, init, m);
      SettledElsewhere(deployments[last], SettleAll(deployments, d, ns + init), m);
    }
  }

  lemma {:induction false} RunAlong(w: World, ns: seq<Name>) returns (ws: seq<World>, xs: seq<Action>)
    requires WellKeyed(w)
    ensures Theorems.IsRun(ws, xs) && ws[0] == w && |xs| == |ns| && ws[|xs|] == CleanAll(w, ns)
    ensures forall i :: 0 <= i < |ns| ==> xs[i] == ReconcileDeployment(ns[i], NO_FAULTS)
  {
    if ns == [] {
      ws, xs := [w], [];
    } else {
      var init, n := ns[..|ns| - 1], ns[|ns| - 1];
      ws, xs := RunAlong(w, init);
      var r := CleanAll(w, ns);
      assert Theorems.IsStep(ws[|xs|], ReconcileDeployment(n, NO_FAULTS), r);
      Theorems.OneStepMore(ws, xs, ReconcileDeployment(n, NO_FAULTS), r);
      ws, xs := ws + [r], xs + [ReconcileDeployment(n, NO_FAULTS)];
    }
  }

  lemma RunOverAll(w: World, ns: seq<Name>) returns (ws: seq<World>, xs: seq<Action>)
    requires WellKeyed(w) && forall n :: n in w.deployments ==> n in ns
    ensures CompleteRun(w, ws, xs) && ws[|xs|] == CleanAll(w, ns)
  {
    ws, xs := RunAlong(w, ns);
    forall k, n | k in w.devices && n in w.deployments
      ensures exists i :: 0 <= i < |xs| && Covers(xs[i], k, n)
    {
      var i :| 0 <= i < |ns| && ns[i] == n;
      assert Covers(xs[i], k, n);
    }
  }

  lemma {:induction false} Enumerate(names: set<Name>) returns (ns: seq<Name>)
    ensures Orders(ns, names) && forall n :: n in ns <==> n in names
  {
    ns := [];
    if names != {} {
      var n :| n in names;
      var rest := Enumerate(names - {n});
      ns := [n] + rest;
    }
  }

  // ------------------------------------------------------------- rivals on a device

  /** A device that carries just these. */
  function Holding(d0: EdgeDevice, ns: seq<Name>): EdgeDevice {
    Marked(d0, set n | n in ns).(deployments := NewEntries(ns))
  }

  lemma HoldingOne(d0: EdgeDevice, n: Name)
    ensures PlacementOf(Holding(d0, []), d0, {}) && PlacementOf(Holding(d0, [n]), d0, {n})
    ensures Names(Holding(d0, []).deployments) == {} && Names(Holding(d0, [n]).deployments) == {n}
    ensures Holding(d0, []).labels == Bare(d0).labels && Holding(d0, [n]).labels == Marked(d0, {n}).labels
  {
    assert (set x: Name | x in []) == {} && (set x | x in [n]) == {n};
    assert NewEntries([]) == [] && NewEntries([n]) == [Entry(n, DEPLOYING, 0, 0)];
    assert Entry(n, DEPLOYING, 0, 0) in NewEntries([n]);
    assert Names(NewEntries([n])) == {n};
  }

  lemma AddedMarks(d: EdgeDevice, d0: EdgeDevice, n: Name)
    requires d.name == d0.name && d.labels == Bare(d0).labels
    ensures Added(n, d).labels == Marked(d0, {n}).labels
    ensures HasDeployment(Added(n, d), n) && Labelled(Added(n, d), n)
  {
    MarkedLabels(d0, {});
    assert !HasLabelForDeployment(Bare(d0), n);
    OneWorkloadMore(PlainPart(d0.labels), {}, n);
    assert {} + {n} == {n};
    WithoutAppended(d.deployments, Entry(n, DEPLOYING, 0, 0));
  }

  lemma RemovedUnmarks(d: EdgeDevice, d0: EdgeDevice, n: Name)
    requires d.name == d0.name && d.labels == Marked(d0, {n}).labels
    ensures Removed(n, d).labels == Bare(d0).labels && !HasDeployment(Removed(n, d), n)
    ensures forall m :: HasLabelForDeployment(d, m) <==> m == n
    ensures Labelled(d, n)
  {
    MarkedLabels(d0, {n});
    OneWorkloadLess(PlainPart(d0.labels), {n}, n);
    assert {n} - {n} == {};
    assert HasLabelForDeployment(Marked(d0, {n}), n);
  }

  /** `m` would select the bare device but excludes the label of `n`. */
  ghost predicate AreRivals(deployments: Deployments, d0: EdgeDevice, m: Name, n: Name) {
    && m in deployments && n in deployments
    && deployments[m].name == m && deployments[n].name == n
    && CalmDeployment(deployments[m]) && CalmDeployment(deployments[n])
    && Selects(deployments[m].spec, Bare(d0)) && Excludes(deployments[m].spec, n)
  }

  lemma RivalSelection(deployments: Deployments, d: EdgeDevice, d0: EdgeDevice, m: Name, n: Name)
    requires AreRivals(deployments, d0, m, n) && d.name == d0.name
    ensures d.labels == Bare(d0).labels ==>
      (Selects(deployments[m].spec, d) && (Selects(deployments[n].spec, d) <==> Selects(deployments[n].spec, Bare(d0))))
    ensures d.labels == Marked(d0, {n}).labels ==> !Selects(deployments[m].spec, d)
    ensures d.labels == Marked(d0, {n}).labels && !Selects(deployments[n].spec, Bare(d0)) ==>
      !Selects(deployments[n].spec, d)
  {
    if d.labels == Bare(d0).labels {
      SelectsByLabels(deployments[m].spec, d, Bare(d0));
      SelectsByLabels(deployments[n].spec, d, Bare(d0));
    }
    if d.labels == Marked(d0, {n}).labels {
      assert n in {n};
      SelectsByLabels(deployments[m].spec, d, Marked(d0, {n}));
      SelectsByLabels(deployments[n].spec, d, Marked(d0, {n}));
      MarkedSelects(deployments[m], d0, {n});
      MarkedSelects(deployments[n], d0, {n});
    }
  }

  lemma SettleTwo(deployments: Deployments, d: EdgeDevice, m: Name, n: Name)
    requires m in deployments && n in deployments
    ensures SettleAll(deployments, d, [m]) == Settled(deployments[m], d)
    ensures SettleAll(deployments, d, [m, n]) == Settled(deployments[n], Settled(deployments[m], d))
  {
    assert [m][..0] == [] && [m, n][..1] == [m];
    assert SettleAll(deployments, d, []) == d;
  }

  /** If the rival selects the bare device too, or is the deployment itself: who comes
      first decides. */
  lemma FirstComeFirstServed(deployments: Deployments, d0: EdgeDevice, m: Name, n: Name)
    requires AreRivals(deployments, d0, m, n) && Selects(deployments[n].spec, Bare(d0))
    ensures var d := Holding(d0, []);
      && HasDeployment(SettleAll(deployments, d, if m == n then [m] else [m, n]), m)
      && !HasDeployment(SettleAll(deployments, d, [n, m]), m)
  {
    var d := Holding(d0, []);
    HoldingOne(d0, m);
    RivalSelection(deployments, d, d0, m, n);
    SettleTwo(deployments, d, m, n);
    SettleTwo(deployments, d, n, m);
    AddedMarks(d, d0, m);
    AddedMarks(d, d0, n);
    RivalSelection(deployments, Added(n, d), d0, m, n);
    RemovedUnmarks(Added(n, d), d0, n);
    if m != n {
      SettledElsewhere(deployments[n], Added(m, d), m);
      SettledElsewhere(deployments[n], d, m);
    }
  }

  /** If it does not: who comes first decides about a device that still carries it. */
  lemma LastGoesLate(deployments: Deployments, d0: EdgeDevice, m: Name, n: Name)
    requires AreRivals(deployments, d0, m, n) && !Selects(deployments[n].spec, Bare(d0))
    ensures var d := Holding(d0, [n]);
      && !HasDeployment(SettleAll(deployments, d, [m, n]), m)
      && HasDeployment(SettleAll(deployments, d, [n, m]), m)
  {
    var d := Holding(d0, [n]);
    HoldingOne(d0, n);
    RivalSelection(deployments, d, d0, m, n);
    SettleTwo(deployments, d, m, n);
    SettleTwo(deployments, d, n, m);
    RemovedUnmarks(d, d0, n);
    SettledElsewhere(deployments[n], d, m);
    RivalSelection(deployments, Removed(n, d), d0, m, n);
    AddedMarks(Removed(n, d), d0, m);
  }

  // ------------------------------------------------------------------ the theorem

  /** All complete runs from a state agree on a device. */
  ghost predicate RunsAgreeOn(p: World, k: Name) {
    forall ws: seq<World>, xs: seq<Action>, vs: seq<World>, ys: seq<Action> ::
      CompleteRun(p, ws, xs) && CompleteRun(p, vs, ys) ==>
      && k in ws[|xs|].devices && k in vs[|ys|].devices
      && SamePlacement(ws[|xs|].devices[k], vs[|ys|].devices[k])
  }

  lemma TwoOrdersDisagree(w: World, k: Name, d: EdgeDevice, a: seq<Name>, b: seq<Name>, m: Name) returns (p: World)
    requires Calm(w) && k in w.devices && PlacementOf(d, w.devices[k], w.deployments.Keys)
    requires (forall n :: n in a ==> n in w.deployments) && (forall n :: n in b ==> n in w.deployments)
    requires m in a && m in b
    requires HasDeployment(SettleAll(w.deployments, d, a), m) && !HasDeployment(SettleAll(w.deployments, d, b), m)
    ensures PlacedWorld(p, w) && !RunsAgreeOn(p, k)
  {
    p := OtherPlacement(w, k, d);
    PlacedIsCalm(p, w);
    var others := Enumerate(w.deployments.Keys - {m});
    OthersLeaveIt(w.deployments, d, a, others, m);
    OthersLeaveIt(w.deployments, d, b, others, m);
    var ws, xs := RunOverAll(p, a + others);
    var vs, ys := RunOverAll(p, b + others);
    CleanAllSettles(p, a + others);
    CleanAllSettles(p, b + others);
    DifferentEntries(ws[|xs|].devices[k], vs[|ys|].devices[k], m);
  }

  lemma DifferentEntries(a: EdgeDevice, b: EdgeDevice, m: Name)
    requires HasDeployment(a, m) && !HasDeployment(b, m)
    ensures !SamePlacement(a, b)
  {
  }

  lemma SomeRivals(w: World, k: Name) returns (m: Name, n: Name)
    requires Calm(w) && k in w.devices && !NoRivalsAt(w.deployments, w.devices[k])
    ensures AreRivals(w.deployments, w.devices[k], m, n)
  {
    m, n :| m in w.deployments && n in w.deployments
      && Selects(w.deployments[m].spec, Bare(w.devices[k])) && Excludes(w.deployments[m].spec, n);
  }

  lemma RivalsDisagree(w: World, k: Name) returns (p: World)
    requires Calm(w) && k in w.devices && !NoRivalsAt(w.deployments, w.devices[k])
    ensures PlacedWorld(p, w) && !RunsAgreeOn(p, k)
  {
    var m, n := SomeRivals(w, k);
    if Selects(w.deployments[n].spec, Bare(w.devices[k])) {
      p := DisagreeFromNothing(w, k, m, n);
    } else {
      p := DisagreeFromOne(w, k, m, n);
    }
  }

  lemma DisagreeFromNothing(w: World, k: Name, m: Name, n: Name) returns (p: World)
    requires Calm(w) && k in w.devices && AreRivals(w.deployments, w.devices[k], m, n)
    requires Selects(w.deployments[n].spec, Bare(w.devices[k]))
    ensures PlacedWorld(p, w) && !RunsAgreeOn(p, k)
  {
    var d, first := Holding(w.devices[k], []), if m == n then [m] else [m, n];
    HoldingOne(w.devices[k], n);
    FirstComeFirstServed(w.deployments, w.devices[k], m, n);
    p := TwoOrdersDisagree(w, k, d, first, [n, m], m);
  }

  lemma DisagreeFromOne(w: World, k: Name, m: Name, n: Name) returns (p: World)
    requires Calm(w) && k in w.devices && AreRivals(w.deployments, w.devices[k], m, n)
    requires !Selects(w.deployments[n].spec, Bare(w.devices[k]))
    ensures PlacedWorld(p, w) && !RunsAgreeOn(p, k)
  {
    HoldingOne(w.devices[k], n);
    LastGoesLate(w.deployments, w.devices[k], m, n);
    p := TwoOrdersDisagree(w, k, Holding(w.devices[k], [n]), [n, m], [m, n], m);
  }

  lemma OtherPlacement(w: World, k: Name, d: EdgeDevice) returns (p: World)
    requires Calm(w) && k in w.devices && PlacementOf(d, w.devices[k], w.deployments.Keys)
    ensures PlacedWorld(p, w) && p == w.(devices := w.devices[k := d])
  {
    p := w.(devices := w.devices[k := d]);
    forall j | j in w.devices ensures PlacementOf(w.devices[j], w.devices[j], w.deployments.Keys) {
      CalmFacts(w, j);
      InStepIsExact(w.devices[j]);
    }
  }

  /** Confluence, exactly. In a calm cluster any two runs of the two controllers that
      cover every pair, in any order and mixture, agree on a device from every placement
      if and only if no deployment that selects the bare device excludes the label of an
      existing one. */
  lemma ConfluenceIffNoRivals(w: World, k: Name)
    requires Calm(w) && k in w.devices
    ensures (forall p :: PlacedWorld(p, w) ==> RunsAgreeOn(p, k)) <==> NoRivalsAt(w.deployments, w.devices[k])
  {
    if NoRivalsAt(w.deployments, w.devices[k]) {
      forall p | PlacedWorld(p, w) ensures RunsAgreeOn(p, k) {
        PlacedIsCalm(p, w);
        SameRivals(w.deployments, p.devices[k], w.devices[k], w.deployments.Keys);
        forall ws: seq<World>, xs: seq<Action>, vs: seq<World>, ys: seq<Action> |
            CompleteRun(p, ws, xs) && CompleteRun(p, vs, ys)
          ensures k in ws[|xs|].devices && k in vs[|ys|].devices
          ensures SamePlacement(ws[|xs|].devices[k], vs[|ys|].devices[k])
        {
          CompleteRunsAgree(p, ws, xs, vs, ys, k);
        }
      }
    } else {
      var p := RivalsDisagree(w, k);
    }
  }
}
