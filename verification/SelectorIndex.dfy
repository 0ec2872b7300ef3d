/** The two ways of deciding whether a deployment goes to a device: directly, by
    the deployment controller, and through an index of `selector/` labels, by the
    device controller. */
module SelectorIndex {
  import opened Kube
  import opened Labels
  import opened Placement

  // --------------------------------------------------------- direct selection

  /** Whether `getMatchingEdgeDevices` returns the device: a device name takes
      precedence over a selector. */
  predicate Selects(spec: Spec, d: EdgeDevice) {
    if spec.device != "" then d.name == spec.device
    else spec.selector.Some? && Matches(spec.selector.value, d.labels)
  }

  /** Whether it fails instead. */
  predicate SelectionFails(spec: Spec) {
    spec.device == "" && spec.selector.Some? && !ValidSelector(spec.selector.value)
  }

  // ---------------------------------------------------------------- the index

  function IndexKey(r: Requirement): string {
    if r.op.DoesNotExist? then DOES_NOT_EXIST_LABEL else r.key
  }

  function ExpressionKeys(rs: seq<Requirement>): set<string> {
    set r | r in rs :: IndexKey(r)
  }

  lemma ExpressionKeysExtend(rs: seq<Requirement>, r: Requirement)
    ensures ExpressionKeys(rs + [r]) == ExpressionKeys(rs) + {IndexKey(r)}
  {
    var keys := ExpressionKeys(rs + [r]);
    forall k | k in ExpressionKeys(rs) ensures k in keys {
      var q :| q in rs && k == IndexKey(q);
      assert q in rs + [r];
    }
    assert r in rs + [r];
  }

  function IndexKeys(s: LabelSelector): set<string> {
    s.matchLabels.Keys + ExpressionKeys(s.matchExpressions)
  }

  /** The `selector/` labels derived from a specification. */
  function IndexLabels(spec: Spec): LabelMap {
    if spec.device != "" then map[CreateSelectorLabel(DEVICE_NAME_LABEL) := spec.device]
    else match spec.selector
      case None => map[]
      case Some(s) => TrueLabels(IndexKeys(s))
  }

  function TrueLabels(keys: set<string>): LabelMap {
    map k | k in keys :: CreateSelectorLabel(k) := "true"
  }

  lemma TrueLabelsExtend(kept: LabelMap, keys: set<string>, k: string)
    ensures kept + TrueLabels(keys + {k}) == (kept + TrueLabels(keys))[CreateSelectorLabel(k) := "true"]
  {
    var extended := TrueLabels(keys)[CreateSelectorLabel(k) := "true"];
    forall l ensures l in TrueLabels(keys + {k}) <==> l in extended {}
    assert TrueLabels(keys + {k}) == extended;
  }

  /** The index, label by label: the device name if there is one; else a label for each
      match label and each requirement, all `DoesNotExist` requirements sharing one. */
  lemma IndexLabelByLabel(spec: Spec, l: string)
    ensures spec.device != "" ==> IndexLabels(spec) == map["selector/" + "devicename" := spec.device]
    ensures spec.device == "" && spec.selector.None? ==> IndexLabels(spec) == map[]
    ensures spec.device == "" && spec.selector.Some? ==>
      var s := spec.selector.value;
      && (l in IndexLabels(spec) <==>
            || (exists k :: k in s.matchLabels && l == "selector/" + k)
            || (exists r :: r in s.matchExpressions && !r.op.DoesNotExist? && l == "selector/" + r.key)
            || (exists r :: r in s.matchExpressions && r.op.DoesNotExist? && l == "selector/" + "doesnotexist"))
      && (l in IndexLabels(spec) ==> IndexLabels(spec)[l] == "true")
  {
    if spec.device == "" && spec.selector.Some? {
      var s := spec.selector.value;
      if l in IndexLabels(spec) {
        var k :| k in IndexKeys(s) && l == CreateSelectorLabel(k);
        if k !in s.matchLabels {
          var r :| r in s.matchExpressions && k == IndexKey(r);
        }
      }
      forall r | r in s.matchExpressions ensures CreateSelectorLabel(IndexKey(r)) in IndexLabels(spec) {
        assert IndexKey(r) in IndexKeys(s);
      }
    }
  }

  function PlainLabels(labels: LabelMap): LabelMap {
    map l | l in labels && !IsSelectorLabel(l) :: labels[l]
  }

  /** The labels that `UpdateSelectorLabels` leaves on a deployment. */
  function Indexed(labels: LabelMap, spec: Spec): LabelMap {
    PlainLabels(labels) + IndexLabels(spec)
  }

  /** All other labels stay, the `selector/` labels become exactly the derived
      ones, and a second update finds nothing to do. */
  lemma IndexedIsAFixedPoint(labels: LabelMap, spec: Spec)
    ensures var r := Indexed(labels, spec);
      && (forall l :: !IsSelectorLabel(l) ==> AgreeOn({l}, r, labels))
      && (forall l :: IsSelectorLabel(l) ==> AgreeOn({l}, r, IndexLabels(spec)))
      && Indexed(r, spec) == r
  {
    forall l | l in IndexLabels(spec) ensures IsSelectorLabel(l) {}
    var index, r := IndexLabels(spec), Indexed(labels, spec);
    assert PlainLabels(r) == PlainLabels(labels);
  }

  /** `createSelectorLabelsMap`: the labels under which a device looks for deployments. */
  function Lookups(d: EdgeDevice): LabelMap {
    map[CreateSelectorLabel(DEVICE_NAME_LABEL) := d.name,
        CreateSelectorLabel(DOES_NOT_EXIST_LABEL) := "true"]
    + map k | k in d.labels && !IsWorkloadLabel(k) :: CreateSelectorLabel(k) := "true"
  }

  /** Listing by an invalid key fails; that happens to a device that has a label with
      a prefix other than `workload/`. */
  predicate LookupsFail(d: EdgeDevice) {
    exists k :: k in d.labels && !IsWorkloadLabel(k) && '/' in k
  }

  lemma ValidWorkloadLabel(n: string)
    requires '/' !in n
    ensures !InvalidKey(WorkloadLabel(n))
  {
    forall i | 0 <= i < |WorkloadLabel(n)| && WorkloadLabel(n)[i] == '/' ensures i == |WORKLOAD_PREFIX| - 1 {
      WorkloadLabelHasOneSlash(n, i);
    }
  }

  lemma InvalidSelectorKey(k: string)
    ensures InvalidKey(CreateSelectorLabel(k)) <==> '/' in k
  {
    var l := CreateSelectorLabel(k);
    assert l == SELECTOR_PREFIX + k && |SELECTOR_PREFIX| == 9 && l[8] == '/';
    assert forall m :: 0 <= m < 8 ==> l[m] == SELECTOR_PREFIX[m] != '/';
    if '/' in k {
      var i :| 0 <= i < |k| && k[i] == '/';
      assert l[9 + i] == '/';
    }
  }

  lemma LookupsFailOnInvalidKeys(d: EdgeDevice)
    ensures LookupsFail(d) <==> exists l :: l in Lookups(d) && InvalidKey(l)
  {
    forall k ensures InvalidKey(CreateSelectorLabel(k)) <==> '/' in k {
      InvalidSelectorKey(k);
    }
    if LookupsFail(d) {
      var k :| k in d.labels && !IsWorkloadLabel(k) && '/' in k;
      assert CreateSelectorLabel(k) in Lookups(d);
    }
    assert '/' !in DEVICE_NAME_LABEL && '/' !in DOES_NOT_EXIST_LABEL;
  }

  predicate ListedUnder(labels: LabelMap, l: string, value: string) {
    l in labels && labels[l] == value
  }

  /** Whether some lookup of the device lists a deployment with these labels. */
  predicate Listed(labels: LabelMap, d: EdgeDevice) {
    exists l :: l in Lookups(d) && ListedUnder(labels, l, Lookups(d)[l])
  }

  predicate IsDeploymentMatchDevice(spec: Spec, d: EdgeDevice) {
    spec.device == d.name || (spec.selector.Some? && Matches(spec.selector.value, d.labels))
  }

  predicate MatchFails(spec: Spec, d: EdgeDevice) {
    spec.device != d.name && spec.selector.Some? && !ValidSelector(spec.selector.value)
  }

  /** Whether the device controller finds an up-to-date deployment for the device. */
  predicate Found(labels: LabelMap, spec: Spec, d: EdgeDevice) {
    Listed(Indexed(labels, spec), d) && IsDeploymentMatchDevice(spec, d)
  }

  // ------------------------------------------------------------- the agreement

  /** Index keys that the device looks up with the value "true". */
  predicate Reached(k: string, d: EdgeDevice) {
    || k == DOES_NOT_EXIST_LABEL
    || (k in d.labels && !IsWorkloadLabel(k))
    || (k == DEVICE_NAME_LABEL && d.name == "true")
  }

  lemma FromLabels(k: string, labels: LabelMap)
    ensures CreateSelectorLabel(k) in (map j | j in labels && !IsWorkloadLabel(j) :: CreateSelectorLabel(j) := "true")
       <==> k in labels && !IsWorkloadLabel(k)
  {
    var fromLabels := map j | j in labels && !IsWorkloadLabel(j) :: CreateSelectorLabel(j) := "true";
    if CreateSelectorLabel(k) in fromLabels {
      var j :| j in labels && !IsWorkloadLabel(j) && CreateSelectorLabel(j) == CreateSelectorLabel(k);
      KeySpaces(j, k);
    }
  }

  lemma SpecialLabels(k: string)
    ensures DOES_NOT_EXIST_LABEL != DEVICE_NAME_LABEL && !IsWorkloadLabel(DEVICE_NAME_LABEL)
    ensures CreateSelectorLabel(k) == CreateSelectorLabel(DOES_NOT_EXIST_LABEL) <==> k == DOES_NOT_EXIST_LABEL
    ensures CreateSelectorLabel(k) == CreateSelectorLabel(DEVICE_NAME_LABEL) <==> k == DEVICE_NAME_LABEL
    ensures CreateSelectorLabel(DOES_NOT_EXIST_LABEL) != CreateSelectorLabel(DEVICE_NAME_LABEL)
  {
    assert |DOES_NOT_EXIST_LABEL| == 12 && |DEVICE_NAME_LABEL| == 10 && DEVICE_NAME_LABEL[0] == 'd';
    KeySpaces(k, DOES_NOT_EXIST_LABEL);
    KeySpaces(k, DEVICE_NAME_LABEL);
    KeySpaces(DEVICE_NAME_LABEL, DOES_NOT_EXIST_LABEL);
  }

  lemma LookupsCharacterised(k: string, d: EdgeDevice)
    ensures var l := CreateSelectorLabel(k);
      && ((l in Lookups(d) && Lookups(d)[l] == "true") <==> Reached(k, d))
      && (k == DEVICE_NAME_LABEL ==>
            (l in Lookups(d) && Lookups(d)[l] == if DEVICE_NAME_LABEL in d.labels then "true" else d.name))
  {
    FromLabels(k, d.labels);
    FromLabels(DEVICE_NAME_LABEL, d.labels);
    SpecialLabels(k);
  }

  /** The index misses a selector none of whose keys the device looks up: an empty
      one, or one that only excludes labels the device does not have. */
  predicate Blind(spec: Spec, d: EdgeDevice) {
    && spec.device == "" && spec.selector.Some?
    && Matches(spec.selector.value, d.labels)
    && forall k :: k in IndexKeys(spec.selector.value) ==> !Reached(k, d)
  }

  /** A device label called `devicename` replaces the device's own name among the
      lookups by "true". */
  predicate Shadowed(spec: Spec, d: EdgeDevice) {
    && spec.device != "" && DEVICE_NAME_LABEL in d.labels && d.name != "true"
    && (spec.device == d.name ||
          (spec.device == "true" && spec.selector.Some? && Matches(spec.selector.value, d.labels)))
  }

  lemma ListedByName(labels: LabelMap, spec: Spec, d: EdgeDevice)
    requires spec.device != ""
    ensures Listed(Indexed(labels, spec), d) <==>
            spec.device == if DEVICE_NAME_LABEL in d.labels then "true" else d.name
  {
    var key := CreateSelectorLabel(DEVICE_NAME_LABEL);
    var indexed := Indexed(labels, spec);
    LookupsCharacterised(DEVICE_NAME_LABEL, d);
    forall l | l in Lookups(d) && l in indexed ensures l == key {
      assert IsSelectorLabel(l);
    }
    if spec.device == Lookups(d)[key] {
      assert ListedUnder(indexed, key, Lookups(d)[key]);
    }
  }

  lemma ListedBySelector(labels: LabelMap, spec: Spec, d: EdgeDevice)
    requires spec.device == ""
    ensures Listed(Indexed(labels, spec), d) <==>
            spec.selector.Some? && exists k :: k in IndexKeys(spec.selector.value) && Reached(k, d)
  {
    var indexed := Indexed(labels, spec);
    if Listed(indexed, d) {
      var l :| l in Lookups(d) && ListedUnder(indexed, l, Lookups(d)[l]);
      assert IsSelectorLabel(l);
      assert l in IndexLabels(spec);
      var k :| k in IndexKeys(spec.selector.value) && l == CreateSelectorLabel(k);
      LookupsCharacterised(k, d);
    }
    if spec.selector.Some? {
      if k :| k in IndexKeys(spec.selector.value) && Reached(k, d) {
        var l := CreateSelectorLabel(k);
        LookupsCharacterised(k, d);
        assert l in IndexLabels(spec);
        assert ListedUnder(indexed, l, Lookups(d)[l]);
      }
    }
  }

  /** For every deployment and device, the index agrees with direct selection
      exactly when the device neither escapes the lookups nor shadows its name. */
  lemma IndexAgreement(labels: LabelMap, spec: Spec, d: EdgeDevice)
    requires d.name != ""
    ensures (Found(labels, spec, d) <==> Selects(spec, d)) <==> !Blind(spec, d) && !Shadowed(spec, d)
  {
    if spec.device != "" {
      ListedByName(labels, spec, d);
    } else {
      ListedBySelector(labels, spec, d);
    }
  }

  /** A selector that names at least one key it wants present, outside `workload/`,
      or that uses DoesNotExist. */
  predicate Indexable(spec: Spec) {
    spec.device != "" || spec.selector.None? ||
    var s := spec.selector.value;
    || (exists k :: k in s.matchLabels && !IsWorkloadLabel(k))
    || (exists r :: r in s.matchExpressions && !r.op.NotIn? && (r.op.DoesNotExist? || !IsWorkloadLabel(r.key)))
  }

  /** The condition on the two objects separately: indexable selectors and no device
      label called `devicename`. */
  lemma IndexableSpecsAgree(labels: LabelMap, spec: Spec, d: EdgeDevice)
    requires d.name != "" && DEVICE_NAME_LABEL !in d.labels
    requires Indexable(spec)
    ensures Found(labels, spec, d) <==> Selects(spec, d)
  {
    if spec.device == "" && spec.selector.Some? && Matches(spec.selector.value, d.labels) {
      var s := spec.selector.value;
      if k :| k in s.matchLabels && !IsWorkloadLabel(k) {
        assert k in IndexKeys(s) && Reached(k, d);
      } else {
        var r :| r in s.matchExpressions && !r.op.NotIn? && (r.op.DoesNotExist? || !IsWorkloadLabel(r.key));
        assert RequirementHolds(r, d.labels);
        assert IndexKey(r) in IndexKeys(s) && Reached(IndexKey(r), d);
      }
    }
    IndexAgreement(labels, spec, d);
  }

  const PLAIN_DEVICE := EdgeDevice("edge-1", map["zone" := "a"], [], false, [])

  /** The empty selector selects every device, and no device ever finds it. */
  lemma EmptySelectorIsNeverFound(d: EdgeDevice, labels: LabelMap)
    requires d.name != ""
    ensures var spec := Spec("", Some(LabelSelector(map[], [])));
      Selects(spec, d) && !Found(labels, spec, d)
  {
    ListedBySelector(labels, Spec("", Some(LabelSelector(map[], []))), d);
  }

  /** Nor does a device without the key find a selector that excludes a value of it. */
  lemma NotInAloneIsNotFound(labels: LabelMap)
    ensures var spec := Spec("", Some(LabelSelector(map[], [Requirement("arch", NotIn, ["arm"])])));
      Selects(spec, PLAIN_DEVICE) && !Found(labels, spec, PLAIN_DEVICE)
  {
    var spec := Spec("", Some(LabelSelector(map[], [Requirement("arch", NotIn, ["arm"])])));
    IndexAgreement(labels, spec, PLAIN_DEVICE);
    assert spec.selector.value.matchExpressions[0] in spec.selector.value.matchExpressions;
    assert "arch" in IndexKeys(spec.selector.value);
    assert "arch" !in PLAIN_DEVICE.labels && "arch" != DOES_NOT_EXIST_LABEL && "arch" != DEVICE_NAME_LABEL;
  }

  /** A label called `devicename` hides a device from deployments that name it. */
  lemma DeviceNameLabelHidesTheDevice(labels: LabelMap)
    ensures var spec := Spec("edge-1", None);
      var d := PLAIN_DEVICE.(labels := map[DEVICE_NAME_LABEL := "x"]);
      Selects(spec, d) && !Found(labels, spec, d)
  {
    ListedByName(labels, Spec("edge-1", None), PLAIN_DEVICE.(labels := map[DEVICE_NAME_LABEL := "x"]));
  }
}
