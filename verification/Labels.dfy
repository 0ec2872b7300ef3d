/** Label keys that carry the placement protocol: `workload/<deployment>` on
    devices, `selector/<key>` on deployments. */
module Labels {

  const DEVICE_NAME_LABEL := "devicename"
  const DOES_NOT_EXIST_LABEL := "doesnotexist"
  const WORKLOAD_PREFIX := "workload/"
  const SELECTOR_PREFIX := "selector/"

  function WorkloadLabel(name: string): (key: string)
    ensures IsWorkloadLabel(key) && key[|WORKLOAD_PREFIX|..] == name
  {
    WORKLOAD_PREFIX + name
  }

  predicate IsWorkloadLabel(key: string) {
    WORKLOAD_PREFIX <= key
  }

  function CreateSelectorLabel(name: string): (key: string)
    ensures IsSelectorLabel(key) && key[|SELECTOR_PREFIX|..] == name
  {
    SELECTOR_PREFIX + name
  }

  predicate IsSelectorLabel(key: string) {
    SELECTOR_PREFIX <= key
  }

  /** The two key spaces are injective images of names, and they never meet. */
  lemma KeySpaces(a: string, b: string)
    ensures WorkloadLabel(a) == WorkloadLabel(b) <==> a == b
    ensures CreateSelectorLabel(a) == CreateSelectorLabel(b) <==> a == b
    ensures !IsSelectorLabel(WorkloadLabel(a)) && !IsWorkloadLabel(CreateSelectorLabel(b))
    ensures WorkloadLabel(a) != CreateSelectorLabel(b)
  {
    assert WorkloadLabel(a)[0] == 'w';
    assert CreateSelectorLabel(b)[0] == 's';
  }

  /** The label of a name without slashes has one slash, that of its prefix. */
  lemma WorkloadLabelHasOneSlash(n: string, i: int)
    requires '/' !in n && 0 <= i < |WorkloadLabel(n)| && WorkloadLabel(n)[i] == '/'
    ensures i == |WORKLOAD_PREFIX| - 1
  {
    assert forall j :: 0 <= j < 8 ==> WORKLOAD_PREFIX[j] != '/';
    assert forall j :: 9 <= j < |WorkloadLabel(n)| ==> WorkloadLabel(n)[j] == n[j - 9] && n[j - 9] in n;
  }

  /** A key is a workload label exactly when it is the label of some deployment. */
  lemma WorkloadLabelsAreNamed(key: string)
    ensures IsWorkloadLabel(key) <==> exists n :: key == WorkloadLabel(n)
  {
    if IsWorkloadLabel(key) {
      assert key == WorkloadLabel(key[|WORKLOAD_PREFIX|..]);
    }
  }
}
