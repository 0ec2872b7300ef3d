/** The two controllers together under failures: whatever mixture of faulty reconciles came
    before, one clean reconcile of every deployment puts everything right. */
module JointConvergence {
  import opened Kube
  import opened Labels
  import opened Placement
  import opened SelectorIndex
  import opened DeploymentReconcile
  import opened DeviceReconcile
  import opened Settling
  import opened Convergence
  import opened Runs
  import opened RunProofs
  import opened Rivals
  import opened ExactPlacement
  import opened Confluence
  import opened Divergence
  import opened EventLoop
  import Theorems

  /** Entries were there before, or are new and deploying. */
  ghost predicate EntriesFrom(d: EdgeDevice, d0: EdgeDevice) {
    forall e :: e in d.deployments ==>
      e in d0.deployments || (e == Entry(e.name, DEPLOYING, 0, 0) && e.name !in Names(d0.deployments))
  }

  ghost predicate TrueAndKnown(d: EdgeDevice, deployments: Deployments) {
    forall n :: HasLabelForDeployment(d, n) ==> Labelled(d, n) && n in deployments
  }

  /** What no failure can spoil: a wanted entry that was there stays, and an entry that is
      there is labelled or wanted. */
  ghost predicate Loose(d: EdgeDevice, d0: EdgeDevice, deployments: Deployments) {
    && d == d0.(deployments := d.deployments, labels := d.labels)
    && PlainPart(d.labels) == PlainPart(d0.labels) && TrueAndKnown(d, deployments)
    && UniqueNames(d.deployments) && Names(d.deployments) <= deployments.Keys && EntriesFrom(d, d0)
    && Names(d0.deployments) * Wanted(deployments, d0) <= Names(d.deployments)
    && forall n :: HasDeployment(d, n) ==> HasLabelForDeployment(d, n) || n in Wanted(deployments, d0)
  }

  lemma LooseSelection(d: EdgeDevice, d0: EdgeDevice, deployments: Deployments, n: Name)
    requires Steady(deployments, d0) && Loose(d, d0, deployments) && n in deployments
    ensures Selects(deployments[n].spec, d) <==> n in Wanted(deployments, d0)
  {
    LooseMarks(d, d0, deployments);
    SelectionIsStable(deployments, d0, LabelNames(d), n);
    SelectsByLabels(deployments[n].spec, d, Marked(d0, LabelNames(d)));
  }

  lemma LooseMarks(d: EdgeDevice, d0: EdgeDevice, deployments: Deployments)
    requires Loose(d, d0, deployments)
    ensures d.labels == Marked(d0, LabelNames(d)).labels && LabelNames(d) <= deployments.Keys
  {
    forall n | n in LabelNames(d) ensures n in deployments {
      LabelNamesAreLabelled(d, n);
    }
    TrueLabelsMark(d, d0);
  }

  // --------------------------------------------------------- deployment reconciles

  lemma PlainAfterOne(labels: LabelMap, n: Name)
    ensures PlainPart(labels[WorkloadLabel(n) := "true"]) == PlainPart(labels)
    ensures PlainPart(labels - {WorkloadLabel(n)}) == PlainPart(labels)
  {
    assert IsWorkloadLabel(WorkloadLabel(n));
  }

  lemma LooseAdd(d: EdgeDevice, d0: EdgeDevice, deployments: Deployments, n: Name, r: Replies)
    requires Steady(deployments, d0) && Loose(d, d0, deployments) && n in Wanted(deployments, d0)
    ensures Loose(Place(Add(n), d, r).device, d0, deployments)
  {
    var p := Place(Add(n), d, r).device;
    PlaceStages(Add(n), d, r);
    PlaceKeepsSound(Add(n), d, r);
    PlainAfterOne(d.labels, n);
    WithoutAppended(d.deployments, Entry(n, DEPLOYING, 0, 0));
    forall m | HasLabelForDeployment(p, m) ensures Labelled(p, m) && m in deployments {
      assert HasLabelForDeployment(d, m) ==> Labelled(d, m) && m in deployments;
    }
  }

  lemma LooseWithout(d: EdgeDevice, d0: EdgeDevice, deployments: Deployments, n: Name)
    requires Loose(d, d0, deployments) && n !in Wanted(deployments, d0)
    ensures Loose(d.(deployments := Without(d.deployments, n)), d0, deployments)
  {
    var p := d.(deployments := Without(d.deployments, n));
    WithoutEntries(d.deployments, n);
    assert forall m :: HasDeployment(p, m) <==> HasDeployment(d, m) && m != n;
    assert forall m :: HasLabelForDeployment(p, m) <==> HasLabelForDeployment(d, m);
  }

  lemma WithoutLabel(d: EdgeDevice, n: Name, m: Name)
    ensures var p := d.(labels := d.labels - {WorkloadLabel(n)});
      && (HasLabelForDeployment(p, m) <==> HasLabelForDeployment(d, m) && m != n)
      && (Labelled(p, m) <==> Labelled(d, m) && m != n)
      && (HasDeployment(p, m) <==> HasDeployment(d, m))
  {
    KeySpaces(m, n);
  }

  lemma LooseUnlabelled(d: EdgeDevice, d0: EdgeDevice, deployments: Deployments, n: Name)
    requires Loose(d, d0, deployments) && n !in Names(d.deployments)
    ensures Loose(d.(labels := d.labels - {WorkloadLabel(n)}), d0, deployments)
  {
    var p := d.(labels := d.labels - {WorkloadLabel(n)});
    PlainAfterOne(d.labels, n);
    assert TrueAndKnown(p, deployments) by {
      forall m | HasLabelForDeployment(p, m) ensures Labelled(p, m) && m in deployments {
        WithoutLabel(d, n, m);
      }
    }
    forall m | HasDeployment(p, m) ensures HasLabelForDeployment(p, m) || m in Wanted(deployments, d0) {
      WithoutLabel(d, n, m);
    }
  }

  lemma LooseRemove(d: EdgeDevice, d0: EdgeDevice, deployments: Deployments, job: Job, r: Replies)
    requires Loose(d, d0, deployments) && job.Remove? && job.name !in Wanted(deployments, d0)
    ensures Loose(Place(job, d, r).device, d0, deployments)
  {
    PlaceStages(job, d, r);
    LooseWithout(d, d0, deployments, job.name);
    LooseUnlabelled(d.(deployments := Without(d.deployments, job.name)), d0, deployments, job.name);
  }

  lemma LooseBody(d: EdgeDevice, d0: EdgeDevice, deployments: Deployments, n: Name, job: Job, r: Replies)
    requires Steady(deployments, d0) && Loose(d, d0, deployments)
    requires n in deployments && deployments[n].name == n && IsPlacingJob(deployments[n], d, job)
    ensures Loose(Place(job, d, r).device, d0, deployments)
  {
    LooseSelection(d, d0, deployments, n);
    if n in Wanted(deployments, d0) {
      LooseAdd(d, d0, deployments, n, r);
    } else {
      LooseRemove(d, d0, deployments, job, r);
    }
  }

  // -------------------------------------------------------------- label reconciles

  lemma LooseMatched(d: EdgeDevice, d0: EdgeDevice, deployments: Deployments)
    requires Steady(deployments, d0) && Loose(d, d0, deployments)
    ensures Matched(deployments, d) == Wanted(deployments, d0)
  {
    LooseMarks(d, d0, deployments);
    MatchedByLabels(deployments, d, Marked(d0, LabelNames(d)));
    MatchedWhenMarked(deployments, d0, LabelNames(d));
    FoundWithoutRivals(deployments, d0, LabelNames(d));
  }

  lemma LooseStatus(d: EdgeDevice, d0: EdgeDevice, deployments: Deployments, order: seq<Name>)
    requires Loose(d, d0, deployments)
    requires var wanted := Wanted(deployments, d0);
      Orders(order, Came(d, wanted)) && Updated(d, wanted, order).Some?
    ensures Loose(d.(deployments := Updated(d, Wanted(deployments, d0), order).value.deployments), d0, deployments)
  {
    var wanted := Wanted(deployments, d0);
    UpdatedIsTheDifference(d, wanted, order);
    UpdatedEntries(d, wanted, order);
    var p := d.(deployments := Updated(d, wanted, order).value.deployments);
    assert forall m :: HasDeployment(p, m) <==> m in wanted;
    assert forall m :: HasLabelForDeployment(p, m) <==> HasLabelForDeployment(d, m);
    assert forall m :: Labelled(p, m) <==> Labelled(d, m);
  }

  lemma UpdatedLabelsKnown(d: EdgeDevice, d0: EdgeDevice, deployments: Deployments, order: seq<Name>, n: Name)
    requires Loose(d, d0, deployments)
    requires var wanted := Wanted(deployments, d0);
      Orders(order, Came(d, wanted)) && Updated(d, wanted, order).Some?
    ensures var u := Updated(d, Wanted(deployments, d0), order).value;
      HasLabelForDeployment(u, n) ==> Labelled(u, n) && n in deployments
  {
    UpdatedIsTheDifference(d, Wanted(deployments, d0), order);
    WorkloadLabelsKeys(Came(d, Wanted(deployments, d0)));
    assert HasLabelForDeployment(d, n) ==> Labelled(d, n) && n in deployments;
  }

  lemma LooseFull(d: EdgeDevice, d0: EdgeDevice, deployments: Deployments, order: seq<Name>)
    requires Loose(d, d0, deployments)
    requires var wanted := Wanted(deployments, d0);
      Orders(order, Came(d, wanted)) && Updated(d, wanted, order).Some?
    ensures Loose(Updated(d, Wanted(deployments, d0), order).value, d0, deployments)
  {
    var wanted := Wanted(deployments, d0);
    var u := Updated(d, wanted, order).value;
    var half := d.(deployments := u.deployments);
    LooseStatus(d, d0, deployments, order);
    UpdatedIsTheDifference(d, wanted, order);
    PlainPartOfUpdated(d, wanted, order);
    assert TrueAndKnown(u, deployments) by {
      forall n ensures HasLabelForDeployment(u, n) ==> Labelled(u, n) && n in deployments {
        UpdatedLabelsKnown(d, d0, deployments, order, n);
      }
    }
    assert u == half.(labels := u.labels);
    LooseByWanted(u, half, d0, deployments);
  }

  lemma LooseUpdate(d: EdgeDevice, d0: EdgeDevice, deployments: Deployments, order: seq<Name>, r: Replies)
    requires Loose(d, d0, deployments)
    requires var wanted := Wanted(deployments, d0);
      Orders(order, Came(d, wanted)) && Updated(d, wanted, order).Some?
    ensures Loose(WriteUpdated(d, Updated(d, Wanted(deployments, d0), order).value, r).device, d0, deployments)
  {
    LooseStatus(d, d0, deployments, order);
    LooseFull(d, d0, deployments, order);
    WriteUpdatedStages(d, Wanted(deployments, d0), order, r);
  }

  /** With all names wanted, the labels may be any true and known ones. */
  lemma LooseByWanted(u: EdgeDevice, half: EdgeDevice, d0: EdgeDevice, deployments: Deployments)
    requires Loose(half, d0, deployments) && u == half.(labels := u.labels)
    requires PlainPart(u.labels) == PlainPart(d0.labels)
    requires Names(half.deployments) == Wanted(deployments, d0)
    ensures TrueAndKnown(u, deployments) ==> Loose(u, d0, deployments)
  {
  }

  // -------------------------------------------------------------------- faulty runs

  /** Both controllers may run under any failures. */
  predicate OperatorAction(x: Action) {
    x.ReconcileDeployment? || x.ReconcileLabels?
  }

  lemma LooseReconcile(w: World, n: Name, a: Answers, k: Name, d0: EdgeDevice)
    requires WellKeyed(w) && k in w.devices && Steady(w.deployments, d0)
    requires Loose(w.devices[k], d0, w.deployments)
    ensures Reconcile(w, n, a).0.deployments == w.deployments && k in Reconcile(w, n, a).0.devices
    ensures Loose(Reconcile(w, n, a).0.devices[k], d0, w.deployments)
  {
    DeviceStep(w, n, a, k);
    if n in w.deployments {
      assert CalmDeployment(w.deployments[n]);
      LiveStep(w, n, a);
      if Reconcile(w, n, a).0.devices[k] != w.devices[k] {
        var job :| Reconcile(w, n, a).0.devices[k] == Place(job, w.devices[k], ReplyFor(a.faults, k)).device
          && IsJobOf(w.deployments[n], w.devices[k], job);
        LooseBody(w.devices[k], d0, w.deployments, n, job, ReplyFor(a.faults, k));
      }
    }
  }

  lemma LooseLabels(w: World, j: Name, da: DeviceAnswers, order: seq<Name>, k: Name, d0: EdgeDevice)
    requires Sound(w) && k in w.devices && Steady(w.deployments, d0)
    requires Loose(w.devices[k], d0, w.deployments) && Legal(w, ReconcileLabels(j, da, order))
    ensures var r := ReconcileDevice(w, j, da, order).0;
      r.deployments == w.deployments && k in r.devices && Loose(r.devices[k], d0, w.deployments)
  {
    LabelsTouchOne(w, j, da, order);
    LabelsStep(w, j, da, order);
    if k == j && ReconcileDevice(w, j, da, order).0 != w {
      LooseMatched(w.devices[k], d0, w.deployments);
      LooseUpdate(w.devices[k], d0, w.deployments, order, da.replies);
    }
  }

  lemma LooseStep(w: World, x: Action, k: Name, d0: EdgeDevice)
    requires Sound(w) && Legal(w, x) && OperatorAction(x) && k in w.devices && Steady(w.deployments, d0)
    requires Loose(w.devices[k], d0, w.deployments)
    ensures Next(w, x).deployments == w.deployments && k in Next(w, x).devices
    ensures Loose(Next(w, x).devices[k], d0, w.deployments)
  {
    match x
    case ReconcileDeployment(n, a) => LooseReconcile(w, n, a, k, d0);
    case ReconcileLabels(j, da, order) => LooseLabels(w, j, da, order, k, d0);
  }

  ghost predicate LooseAt(w: World, deployments: Deployments, k: Name, d0: EdgeDevice) {
    && w.deployments == deployments && k in w.devices
    && Steady(deployments, d0) && Loose(w.devices[k], d0, deployments)
  }

  /** A run of both controllers from a sound state. */
  ghost predicate FaultyMixture(ws: seq<World>, xs: seq<Action>) {
    Theorems.IsRun(ws, xs) && Sound(ws[0]) && forall i :: 0 <= i < |xs| ==> OperatorAction(xs[i])
  }

  lemma OneLooseStep(ws: seq<World>, xs: seq<Action>, i: nat, deployments: Deployments, k: Name, d0: EdgeDevice)
    requires FaultyMixture(ws, xs) && i < |xs| && LooseAt(ws[i], deployments, k, d0)
    ensures LooseAt(ws[i + 1], deployments, k, d0)
  {
    assert Theorems.IsStep(ws[i], xs[i], ws[i + 1]);
    Theorems.EveryRunIsSound(ws, xs, i);
    LooseStep(ws[i], xs[i], k, d0);
  }

  lemma LooseSteps(ws: seq<World>, xs: seq<Action>, deployments: Deployments, k: Name, d0: EdgeDevice)
    requires FaultyMixture(ws, xs)
    ensures |ws| == |xs| + 1
    ensures forall i :: 0 <= i < |xs| ==>
      (LooseAt(ws[i], deployments, k, d0) ==> LooseAt(ws[i + 1], deployments, k, d0))
  {
    forall i | 0 <= i < |xs|
      ensures LooseAt(ws[i], deployments, k, d0) ==> LooseAt(ws[i + 1], deployments, k, d0)
    {
      if LooseAt(ws[i], deployments, k, d0) {
        OneLooseStep(ws, xs, i, deployments, k, d0);
      }
    }
  }

  lemma {:induction false} InvariantAlong(ws: seq<World>, m: nat, good: World -> bool)
    requires m < |ws| && good(ws[0])
    requires forall i :: 0 <= i < m ==> (good(ws[i]) ==> good(ws[i + 1]))
    ensures good(ws[m])
  {
    if m > 0 {
      InvariantAlong(ws, m - 1, good);
      assert good(ws[m - 1]) ==> good(ws[m - 1 + 1]);
    }
  }

  lemma LooseRun(ws: seq<World>, xs: seq<Action>, deployments: Deployments, k: Name, d0: EdgeDevice)
    requires FaultyMixture(ws, xs) && LooseAt(ws[0], deployments, k, d0)
    ensures LooseAt(ws[|xs|], deployments, k, d0)
  {
    LooseSteps(ws, xs, deployments, k, d0);
    InvariantAlong(ws, |xs|, w => LooseAt(w, deployments, k, d0));
  }

  lemma CalmIsLoose(w: World, k: Name)
    requires Calm(w) && k in w.devices
    ensures Loose(w.devices[k], w.devices[k], w.deployments)
  {
    CalmFacts(w, k);
    var d := w.devices[k];
    forall n
      ensures HasLabelForDeployment(d, n) ==> Labelled(d, n) && n in w.deployments
      ensures HasDeployment(d, n) ==> HasLabelForDeployment(d, n)
    {
      assert HasDeployment(d, n) <==> HasLabelForDeployment(d, n);
      assert HasLabelForDeployment(d, n) ==> Labelled(d, n);
    }
  }

  // --------------------------------------------- one clean reconcile of everything

  ghost predicate PairRight(d: EdgeDevice, n: Name, wanted: set<Name>) {
    && (HasDeployment(d, n) <==> n in wanted)
    && (HasLabelForDeployment(d, n) <==> n in wanted)
  }

  lemma SettledLoose(d: EdgeDevice, d0: EdgeDevice, deployments: Deployments, n: Name)
    requires Steady(deployments, d0) && Loose(d, d0, deployments) && n in deployments && deployments[n].name == n
    ensures var p := Settled(deployments[n], d);
      && Loose(p, d0, deployments) && PairRight(p, n, Wanted(deployments, d0))
      && forall m :: m != n && PairRight(d, m, Wanted(deployments, d0)) ==> PairRight(p, m, Wanted(deployments, d0))
  {
    var wanted, p := Wanted(deployments, d0), Settled(deployments[n], d);
    LooseSelection(d, d0, deployments, n);
    assert HasDeployment(d, n) ==> HasLabelForDeployment(d, n) || n in wanted;
    assert HasLabelForDeployment(d, n) ==> Labelled(d, n);
    if n in wanted || Labelled(d, n) {
      var job := if n in wanted then Add(n) else Remove(n, {});
      PlaceStages(job, d, ALL_ACCEPTED);
      LooseBody(d, d0, deployments, n, job, ALL_ACCEPTED);
      PlaceKeepsSound(job, d, ALL_ACCEPTED);
      WithoutAppended(d.deployments, Entry(n, DEPLOYING, 0, 0));
    }
  }

  ghost predicate PairsRight(d: EdgeDevice, names: set<Name>, wanted: set<Name>) {
    forall n :: n in names ==> PairRight(d, n, wanted)
  }

  lemma OneMorePair(d: EdgeDevice, d0: EdgeDevice, deployments: Deployments, done: set<Name>, n: Name)
    requires Steady(deployments, d0) && Loose(d, d0, deployments) && n in deployments && deployments[n].name == n
    requires PairsRight(d, done, Wanted(deployments, d0))
    ensures Loose(Settled(deployments[n], d), d0, deployments)
    ensures PairsRight(Settled(deployments[n], d), done + {n}, Wanted(deployments, d0))
  {
    SettledLoose(d, d0, deployments, n);
  }

  function Elements(ns: seq<Name>): set<Name> {
    set n | n in ns
  }

  lemma {:induction false} AllSettled(d: EdgeDevice, d0: EdgeDevice, deployments: Deployments, ns: seq<Name>)
    requires Steady(deployments, d0) && Loose(d, d0, deployments)
    requires forall n :: n in deployments ==> deployments[n].name == n
    requires forall n :: n in ns ==> n in deployments
    ensures Loose(SettleAll(deployments, d, ns), d0, deployments)
    ensures PairsRight(SettleAll(deployments, d, ns), Elements(ns), Wanted(deployments, d0))
  {
    if ns != [] {
      var init, last := ns[..|ns| - 1], ns[|ns| - 1];
      assert ns == init + [last] && last in ns;
      assert Elements(ns) == Elements(init) + {last};
      AllSettled(d, d0, deployments, init);
      OneMorePair(SettleAll(deployments, d, init), d0, deployments, Elements(init), last);
    }
  }

  lemma RightIsExact(d: EdgeDevice, d0: EdgeDevice, deployments: Deployments)
    requires Loose(d, d0, deployments) && PairsRight(d, deployments.Keys, Wanted(deployments, d0))
    ensures HasExactly(d, d0, Wanted(deployments, d0))
  {
    var wanted := Wanted(deployments, d0);
    forall n
      ensures HasDeployment(d, n) <==> n in wanted
      ensures HasLabelForDeployment(d, n) <==> n in wanted
    {
      assert n in deployments.Keys ==> PairRight(d, n, wanted);
      assert HasLabelForDeployment(d, n) ==> Labelled(d, n) && n in deployments;
    }
    assert Names(d.deployments) == wanted by {
      assert forall n :: n in Names(d.deployments) <==> HasDeployment(d, n);
    }
    LabelsAreWanted(d, d0, deployments);
  }

  lemma LabelsAreWanted(d: EdgeDevice, d0: EdgeDevice, deployments: Deployments)
    requires Loose(d, d0, deployments)
    requires forall n :: HasLabelForDeployment(d, n) <==> n in Wanted(deployments, d0)
    ensures d.labels == Marked(d0, Wanted(deployments, d0)).labels
  {
    LooseMarks(d, d0, deployments);
    forall n ensures n in LabelNames(d) <==> n in Wanted(deployments, d0) {
      LabelNamesAreLabelled(d, n);
    }
    assert LabelNames(d) == Wanted(deployments, d0);
  }

  /** Joint convergence: from a calm cluster, any number of reconciles of both kinds, in
      any mixture and under any failures, then one clean reconcile of every deployment in
      any order: every device without rivals carries exactly the deployments that select
      it, entries and labels, old entries as they were. */
  lemma FaultsAreForgotten(ws: seq<World>, xs: seq<Action>, ns: seq<Name>, k: Name)
    requires Theorems.IsRun(ws, xs) && Calm(ws[0])
    requires forall i :: 0 <= i < |xs| ==> OperatorAction(xs[i])
    requires forall n :: n in ns <==> n in ws[0].deployments
    requires k in ws[0].devices && NoRivalsAt(ws[0].deployments, ws[0].devices[k])
    ensures WellKeyed(ws[|xs|]) && k in CleanAll(ws[|xs|], ns).devices
    ensures HasExactly(CleanAll(ws[|xs|], ns).devices[k], ws[0].devices[k],
                       Wanted(ws[0].deployments, ws[0].devices[k]))
  {
    var w, d0 := ws[|xs|], ws[0].devices[k];
    CalmFacts(ws[0], k);
    CalmIsLoose(ws[0], k);
    LooseRun(ws, xs, ws[0].deployments, k, d0);
    CleanAllSettles(w, ns);
    AllSettled(w.devices[k], d0, w.deployments, ns);
    assert Elements(ns) == w.deployments.Keys;
    RightIsExact(SettleAll(w.deployments, w.devices[k], ns), d0, w.deployments);
  }
}
