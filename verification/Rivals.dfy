/** Selectors that look at workload labels, and when they let a placement disturb the
    selection it came from. */
module Rivals {
  import opened Kube
  import opened Labels
  import opened Placement
  import opened SelectorIndex
  import opened DeploymentReconcile
  import opened DeviceReconcile
  import opened Settling
  import opened Convergence

  /** Every deployment is live, its labels are valid and up to date, and its selector is
      usable and indexable. */
  ghost predicate CalmDeployment(dep: EdgeDeployment) {
    StageOf(dep) == Placing && !SelectionFails(dep.spec) && Indexable(dep.spec) && ValidKeys(dep.labels)
  }

  ghost predicate CalmDeployments(deployments: Deployments) {
    forall n :: n in deployments ==> CalmDeployment(deployments[n])
  }

  ghost predicate CalmDevice(d: EdgeDevice) {
    d.name != "" && !d.deleting && DEVICE_NAME_LABEL !in d.labels && !LookupsFail(d)
  }

  // --------------------------------------------------- devices by their placements

  function PlainPart(labels: LabelMap): LabelMap {
    map l | l in labels && !IsWorkloadLabel(l) :: labels[l]
  }

  /** The device with the workload labels of exactly these deployments. */
  function Marked(d: EdgeDevice, names: set<Name>): EdgeDevice {
    d.(labels := PlainPart(d.labels) + WorkloadLabels(names))
  }

  /** The device stripped of workload labels. */
  function Bare(d: EdgeDevice): EdgeDevice {
    Marked(d, {})
  }

  lemma MarkedLabels(d: EdgeDevice, names: set<Name>)
    ensures PlainPart(Marked(d, names).labels) == PlainPart(d.labels)
    ensures forall n :: HasLabelForDeployment(Marked(d, names), n) <==> n in names
    ensures forall n :: Labelled(Marked(d, names), n) <==> n in names
  {
    WorkloadLabelsKeys(names);
    assert forall l :: l in WorkloadLabels(names) ==> IsWorkloadLabel(l);
  }

  /** One label of a marked device. */
  lemma MarkedAt(d: EdgeDevice, names: set<Name>, l: string)
    ensures !IsWorkloadLabel(l) ==> AgreeOn({l}, Marked(d, names).labels, d.labels)
    ensures IsWorkloadLabel(l) ==> (l in Marked(d, names).labels <==> exists n :: n in names && l == WorkloadLabel(n))
  {
    var marks := WorkloadLabels(names);
    if l in marks {
      var n :| n in names && l == WorkloadLabel(n);
    }
    if exists n :: n in names && l == WorkloadLabel(n) {
      assert l in marks;
    }
  }

  lemma MarkedAgain(d: EdgeDevice, a: set<Name>, b: set<Name>)
    ensures Marked(Marked(d, a), b) == Marked(d, b)
  {
    MarkedLabels(d, a);
  }

  lemma SelectsByLabels(spec: Spec, a: EdgeDevice, b: EdgeDevice)
    requires a.name == b.name && a.labels == b.labels
    ensures Selects(spec, a) <==> Selects(spec, b)
  {
  }

  // ------------------------------------------------------------ lookups and aborts

  lemma LookupsIgnoreWorkloads(p: EdgeDevice, d: EdgeDevice)
    requires p.name == d.name && PlainPart(p.labels) == PlainPart(d.labels)
    ensures Lookups(p) == Lookups(d) && (LookupsFail(p) <==> LookupsFail(d))
  {
    LookupsOfPlainPart(p);
    LookupsOfPlainPart(d);
  }

  lemma LookupsOfPlainPart(d: EdgeDevice)
    ensures Lookups(d) == Lookups(d.(labels := PlainPart(d.labels)))
    ensures LookupsFail(d) <==> LookupsFail(d.(labels := PlainPart(d.labels)))
  {
    var plain := PlainPart(d.labels);
    var a := map k | k in d.labels && !IsWorkloadLabel(k) :: CreateSelectorLabel(k) := "true";
    var b := map k | k in plain && !IsWorkloadLabel(k) :: CreateSelectorLabel(k) := "true";
    forall k ensures k in d.labels && !IsWorkloadLabel(k) <==> k in plain && !IsWorkloadLabel(k) {}
    assert a == b;
  }

  /** Whether a label reconcile gives up does not depend on workload labels. */
  lemma AbortsIgnoreWorkloads(deployments: Deployments, p: EdgeDevice, d: EdgeDevice)
    requires p.name == d.name && PlainPart(p.labels) == PlainPart(d.labels)
    ensures Candidates(deployments, p) == Candidates(deployments, d)
    ensures SelectionAborts(deployments, p) <==> SelectionAborts(deployments, d)
  {
    LookupsIgnoreWorkloads(p, d);
    forall n | n in deployments ensures Listed(deployments[n].labels, p) <==> Listed(deployments[n].labels, d) {}
  }

  lemma MatchedByLabels(deployments: Deployments, a: EdgeDevice, b: EdgeDevice)
    requires a.name == b.name && a.labels == b.labels
    ensures Matched(deployments, a) == Matched(deployments, b)
    ensures SelectionAborts(deployments, a) <==> SelectionAborts(deployments, b)
  {
    AbortsIgnoreWorkloads(deployments, a, b);
  }

  function SelectedBy(deployments: Deployments, d: EdgeDevice): set<Name> {
    set n | n in deployments && Selects(deployments[n].spec, d)
  }

  /** Its selector labels are up to date, and its selector is usable and indexable. */
  predicate Findable(dep: EdgeDeployment) {
    Indexed(dep.labels, dep.spec) == dep.labels && !SelectionFails(dep.spec) && Indexable(dep.spec)
  }

  /** For a calm device the index finds exactly the deployments that select it. */
  lemma IndexFindsTheSelected(deployments: Deployments, d: EdgeDevice)
    requires (forall n :: n in deployments ==> Findable(deployments[n])) && CalmDevice(d)
    ensures !SelectionAborts(deployments, d)
    ensures Matched(deployments, d) == SelectedBy(deployments, d)
  {
    forall n | n in deployments
      ensures n in Matched(deployments, d) <==> Selects(deployments[n].spec, d)
      ensures n in Candidates(deployments, d) ==> !MatchFails(deployments[n].spec, d)
    {
      var dep := deployments[n];
      assert Findable(dep);
      IndexableSpecsAgree(dep.labels, dep.spec, d);
      if dep.spec.device != "" {
        ListedByName(dep.labels, dep.spec, d);
      }
    }
  }

  // --------------------------------------------------- what a selector can exclude

  /** The selector asks for the absence of the deployment's workload label. */
  predicate Excludes(spec: Spec, n: Name) {
    spec.device == "" && spec.selector.Some? &&
    exists r :: r in spec.selector.value.matchExpressions && r.op.DoesNotExist? && r.key == WorkloadLabel(n)
  }

  /** Where label keys are valid, a deployment that is placing looks at workload labels by
      their absence only: any other requirement would need an invalid selector label. */
  lemma LooksByAbsence(dep: EdgeDeployment)
    requires StageOf(dep).Placing? && ValidKeys(dep.labels)
    requires dep.spec.device == "" && dep.spec.selector.Some?
    ensures forall k :: k in dep.spec.selector.value.matchLabels ==> !IsWorkloadLabel(k)
    ensures forall r :: r in dep.spec.selector.value.matchExpressions && IsWorkloadLabel(r.key) ==> r.op.DoesNotExist?
  {
    var s := dep.spec.selector.value;
    PlacingIsStorable(dep);
    forall k | k in s.matchLabels ensures !IsWorkloadLabel(k) {
      assert k in IndexKeys(s);
      WorkloadKeysHaveSlashes(k);
    }
    forall r | r in s.matchExpressions && IsWorkloadLabel(r.key) ensures r.op.DoesNotExist? {
      assert IndexKey(r) in IndexKeys(s);
      WorkloadKeysHaveSlashes(r.key);
    }
  }

  /** So it can exclude its own label by `DoesNotExist` only. */
  lemma PlacingExcludesByAbsence(dep: EdgeDeployment)
    requires StageOf(dep).Placing? && ValidKeys(dep.labels)
    ensures ExcludesItself(dep) <==> Excludes(dep.spec, dep.name)
  {
    if dep.spec.device == "" && dep.spec.selector.Some? {
      LooksByAbsence(dep);
    }
  }

  /** Any other requirement on a workload label, such as `NotIn` on the deployment's own,
      keeps its reconciles away from all devices, whatever is answered. */
  lemma OtherwiseInert(w: World, n: Name, r: Requirement, run: seq<Answers>)
    requires WellKeyed(w) && n in w.deployments && !w.deployments[n].deleting && ValidKeys(w.deployments[n].labels)
    requires w.deployments[n].spec.device == "" && w.deployments[n].spec.selector.Some?
    requires r in w.deployments[n].spec.selector.value.matchExpressions
    requires IsWorkloadLabel(r.key) && !r.op.DoesNotExist?
    ensures FaultyRun(w, n, run).devices == w.devices
  {
    var dep := w.deployments[n];
    WorkloadKeysHaveSlashes(r.key);
    assert IndexKey(r) in IndexKeys(dep.spec.selector.value);
    PlaceableIffStorable(dep);
    NeverPlacing(w, n, run);
  }

  lemma WorkloadKeysHaveSlashes(k: string)
    ensures IsWorkloadLabel(k) ==> '/' in k
  {
    if IsWorkloadLabel(k) {
      assert k[|WORKLOAD_PREFIX| - 1] == WORKLOAD_PREFIX[|WORKLOAD_PREFIX| - 1] == '/';
    }
  }

  lemma MarkedRequirement(r: Requirement, d: EdgeDevice, names: set<Name>)
    requires IsWorkloadLabel(r.key) ==> r.op.DoesNotExist?
    ensures RequirementHolds(r, Marked(d, names).labels) <==>
            RequirementHolds(r, Bare(d).labels) && !ExcludedBy(r, names)
  {
    MarkedAt(d, names, r.key);
    MarkedAt(d, {}, r.key);
    assert r.key in {r.key};
    if exists n :: n in names && r.key == WorkloadLabel(n) {
      assert IsWorkloadLabel(r.key);
    }
  }

  /** A placement deselects a device exactly from deployments that exclude some label of it. */
  lemma MarkedSelects(dep: EdgeDeployment, d: EdgeDevice, names: set<Name>)
    requires CalmDeployment(dep)
    ensures Selects(dep.spec, Marked(d, names)) <==>
            Selects(dep.spec, Bare(d)) && forall n :: n in names ==> !Excludes(dep.spec, n)
  {
    if dep.spec.device == "" && dep.spec.selector.Some? {
      LooksByAbsence(dep);
      MarkedMatches(dep.spec, d, names);
    }
  }

  lemma MarkedMatches(spec: Spec, d: EdgeDevice, names: set<Name>)
    requires spec.device == "" && spec.selector.Some?
    requires forall k :: k in spec.selector.value.matchLabels ==> !IsWorkloadLabel(k)
    requires forall r :: r in spec.selector.value.matchExpressions && IsWorkloadLabel(r.key) ==> r.op.DoesNotExist?
    ensures Matches(spec.selector.value, Marked(d, names).labels) <==>
            Matches(spec.selector.value, Bare(d).labels) && forall n :: n in names ==> !Excludes(spec, n)
  {
    var s, marked, bare := spec.selector.value, Marked(d, names).labels, Bare(d).labels;
    forall k | k in s.matchLabels
      ensures (k in marked && marked[k] == s.matchLabels[k]) <==> (k in bare && bare[k] == s.matchLabels[k])
    {
      MarkedAt(d, names, k);
      MarkedAt(d, {}, k);
      assert k in {k};
    }
    forall r | r in s.matchExpressions
      ensures RequirementHolds(r, marked) <==> RequirementHolds(r, bare) && !ExcludedBy(r, names)
    {
      MarkedRequirement(r, d, names);
    }
    ExcludesSome(spec, names);
  }

  predicate ExcludedBy(r: Requirement, names: set<Name>) {
    r.op.DoesNotExist? && exists n :: n in names && r.key == WorkloadLabel(n)
  }

  lemma ExcludesSome(spec: Spec, names: set<Name>)
    requires spec.device == "" && spec.selector.Some?
    ensures (exists n :: n in names && Excludes(spec, n)) <==>
            (exists r :: r in spec.selector.value.matchExpressions && ExcludedBy(r, names))
  {
    if n :| n in names && Excludes(spec, n) {
      var r :| r in spec.selector.value.matchExpressions && r.op.DoesNotExist? && r.key == WorkloadLabel(n);
      assert ExcludedBy(r, names);
    }
    if r :| r in spec.selector.value.matchExpressions && ExcludedBy(r, names) {
      var n :| n in names && r.key == WorkloadLabel(n);
      assert Excludes(spec, n);
    }
  }

  // ------------------------------------------------------------------------ rivals

  /** No deployment that selects the bare device excludes the label of an existing one,
      itself included. */
  ghost predicate NoRivalsAt(deployments: Deployments, d: EdgeDevice) {
    forall m, n :: m in deployments && n in deployments && Selects(deployments[m].spec, Bare(d)) ==>
      !Excludes(deployments[m].spec, n)
  }

  /** The deployments that should be on the device. */
  function Wanted(deployments: Deployments, d: EdgeDevice): set<Name> {
    SelectedBy(deployments, Bare(d))
  }

  /** Without rivals a placement of known deployments changes no selection. */
  lemma SelectionIsStable(deployments: Deployments, d: EdgeDevice, names: set<Name>, m: Name)
    requires CalmDeployments(deployments) && NoRivalsAt(deployments, d)
    requires names <= deployments.Keys && m in deployments
    ensures Selects(deployments[m].spec, Marked(d, names)) <==> m in Wanted(deployments, d)
  {
    assert CalmDeployment(deployments[m]);
    MarkedSelects(deployments[m], d, names);
  }

  lemma MarkedIsCalm(d: EdgeDevice, names: set<Name>)
    requires CalmDevice(d)
    ensures CalmDevice(Marked(d, names))
  {
    MarkedLabels(d, names);
    LookupsIgnoreWorkloads(Marked(d, names), d);
    MarkedAt(d, names, DEVICE_NAME_LABEL);
    SpecialLabels("");
    assert DEVICE_NAME_LABEL in {DEVICE_NAME_LABEL};
  }

  /** What the index finds for the device marked with these. */
  function FoundBy(deployments: Deployments, d: EdgeDevice, names: set<Name>): set<Name> {
    set m | m in Wanted(deployments, d) && forall n :: n in names ==> !Excludes(deployments[m].spec, n)
  }

  lemma MatchedWhenMarked(deployments: Deployments, d: EdgeDevice, names: set<Name>)
    requires CalmDeployments(deployments) && CalmDevice(d)
    ensures !SelectionAborts(deployments, Marked(d, names))
    ensures Matched(deployments, Marked(d, names)) == FoundBy(deployments, d, names)
  {
    MarkedIsCalm(d, names);
    forall m | m in deployments ensures Findable(deployments[m]) {
      assert CalmDeployment(deployments[m]);
    }
    IndexFindsTheSelected(deployments, Marked(d, names));
    forall m | m in deployments
      ensures Selects(deployments[m].spec, Marked(d, names)) <==> m in FoundBy(deployments, d, names)
    {
      assert CalmDeployment(deployments[m]);
      MarkedSelects(deployments[m], d, names);
    }
  }

  lemma FoundWithoutRivals(deployments: Deployments, d: EdgeDevice, names: set<Name>)
    requires NoRivalsAt(deployments, d) && names <= deployments.Keys
    ensures FoundBy(deployments, d, names) == Wanted(deployments, d)
  {
  }
}
