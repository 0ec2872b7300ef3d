/** Fetching the secrets and config maps of a device's workloads. */
module Fetching {
  import opened Kube
  import opened References

  /** The API server's answer for one object. */
  datatype GetReply = Found(data: map<string, string>) | Absent | Failed

  type Lookup = Name -> GetReply

  datatype Item = Item(name: Name, data: map<string, string>)

  datatype ReadResult = Skip | Read(data: map<string, string>) | Error

  function ReadResultOf(reply: GetReply, keys: KeySet): ReadResult {
    match reply
    case Failed => Error
    case Absent => if keys.None? then Skip else Error
    case Found(data) => if keys.Some? && !(keys.value <= data.Keys) then Error else Read(data)
  }

  /** `readAndValidateSecret` and `readAndValidateConfigMap`. */
  method ReadAndValidate(reply: GetReply, keys: KeySet) returns (r: ReadResult)
    ensures r == ReadResultOf(reply, keys)
  {
    if reply.Failed? {
      return Error;
    }
    if reply.Absent? {
      return if keys.None? then Skip else Error;
    }
    if keys.Some? {
      var left := keys.value;
      while left != {}
        invariant left <= keys.value
        invariant keys.value - left <= reply.data.Keys
      {
        var key :| key in left;
        if key !in reply.data {
          return Error;
        }
        left := left - {key};
      }
    }
    return Read(reply.data);
  }

  /** One item for each of these names that exists, with its data. */
  ghost predicate Lists(items: seq<Item>, names: set<Name>, get: Lookup) {
    && (forall i, j :: 0 <= i < j < |items| ==> items[i].name != items[j].name)
    && (forall item :: item in items ==> item.name in names && get(item.name) == Found(item.data))
    && (forall n :: n in names && get(n).Found? ==> Item(n, get(n).data) in items)
  }

  /** The loop that reads every name in the map, in any order. */
  method ReadAll(refs: RefMap, get: Lookup) returns (list: Option<seq<Item>>)
    ensures list.Some? <==> forall n :: n in refs ==> ReadResultOf(get(n), refs[n]) != Error
    ensures list.Some? ==> Lists(list.value, refs.Keys, get)
  {
    var items: seq<Item> := [];
    var left := refs.Keys;
    while left != {}
      invariant left <= refs.Keys
      invariant forall n :: n in refs.Keys - left ==> ReadResultOf(get(n), refs[n]) != Error
      invariant Lists(items, refs.Keys - left, get)
    {
      var name :| name in left;
      var r := ReadAndValidate(get(name), refs[name]);
      if r.Error? {
        return None;
      }
      left := left - {name};
      if r.Read? {
        items := items + [Item(name, r.data)];
      }
    }
    assert refs.Keys - left == refs.Keys;
    return Some(items);
  }

  // ------------------------------------------------------------ what is satisfied

  /** A reference is satisfied unless it is mandatory and its object or key is
      missing; an object that cannot be read satisfies none. */
  predicate Satisfied(need: Need, get: Lookup) {
    match get(need.name)
    case Failed => false
    case Absent => need.optional
    case Found(data) => need.optional || need.key.None? || need.key.value in data
  }

  /** Reading by name succeeds exactly when every single reference is satisfied. */
  lemma ReadingMeetsEveryNeed(needs: set<Need>, get: Lookup)
    ensures (forall n :: n in Join(map[], needs) ==> ReadResultOf(get(n), Join(map[], needs)[n]) != Error)
       <==> (forall need :: need in needs ==> Satisfied(need, get))
  {
    var refs := Join(map[], needs);
    if forall n :: n in refs ==> ReadResultOf(get(n), refs[n]) != Error {
      forall need | need in needs ensures Satisfied(need, get) {
        assert need.name in refs;
        assert ReadResultOf(get(need.name), refs[need.name]) != Error;
        if !need.optional && need.key.Some? {
          assert need.key.value in MandatoryKeys(needs, need.name);
        }
      }
    }
    if forall need :: need in needs ==> Satisfied(need, get) {
      forall n | n in refs ensures ReadResultOf(get(n), refs[n]) != Error {
        NameMeetsItsNeeds(needs, get, n);
      }
    }
  }

  lemma NameMeetsItsNeeds(needs: set<Need>, get: Lookup, n: Name)
    requires forall need :: need in needs ==> Satisfied(need, get)
    requires n in Join(map[], needs)
    ensures ReadResultOf(get(n), Join(map[], needs)[n]) != Error
  {
    var need :| need in needs && need.name == n;
    assert Satisfied(need, get);
    if Mandatory(needs, n) {
      var strict :| strict in needs && strict.name == n && !strict.optional;
      assert Satisfied(strict, get);
      forall k | k in MandatoryKeys(needs, n) ensures k in get(n).data {
        var keyed :| keyed in needs && keyed.name == n && !keyed.optional && keyed.key.Some? && keyed.key.value == k;
        assert Satisfied(keyed, get);
      }
    }
  }

  // -------------------------------------------------------------------- secrets

  function ContainerSecrets(c: Container): seq<Need> {
    Collect(c.envFrom, SecretEnvFromNeed) + Collect(c.env, SecretEnvNeed)
  }

  function AllContainers(pod: PodSpec): seq<Container> {
    pod.initContainers + pod.containers
  }

  function ContainersSecrets(cs: seq<Container>): seq<Need> {
    if cs == [] then [] else ContainersSecrets(cs[..|cs| - 1]) + ContainerSecrets(cs[|cs| - 1])
  }

  function PodsSecrets(pods: seq<PodSpec>): seq<Need> {
    if pods == [] then []
    else PodsSecrets(pods[..|pods| - 1]) + ContainersSecrets(AllContainers(pods[|pods| - 1]))
  }

  ghost predicate ContainerRefersToSecret(c: Container, need: Need) {
    || (exists e :: e in c.envFrom && SecretEnvFromNeed(e) == Some(need))
    || (exists e :: e in c.env && SecretEnvNeed(e) == Some(need))
  }

  /** A container of the pod, of either kind. */
  predicate IsContainerOf(c: Container, pod: PodSpec) {
    c in pod.initContainers || c in pod.containers
  }

  /** Some variable of some container of some workload makes this reference. */
  ghost predicate RefersToSecret(pods: seq<PodSpec>, need: Need) {
    exists pod, c :: pod in pods && IsContainerOf(c, pod) && ContainerRefersToSecret(c, need)
  }

  // ---------------------------------- what the fields of the containers ask for

  /** An object can be read if the server does not fail, and unless it is optional it has
      to be there. */
  predicate WholeReadable(ref: Ref, get: Lookup) {
    get(ref.name) != Failed && (ref.optional != Some(true) ==> get(ref.name).Found?)
  }

  /** And so has its key. */
  predicate KeyReadable(ref: KeyRef, get: Lookup) {
    get(ref.name) != Failed &&
    (ref.optional != Some(true) ==> get(ref.name).Found? && ref.key in get(ref.name).data)
  }

  predicate AsksForSecretKey(e: EnvVar) {
    e.valueFrom.Some? && e.valueFrom.value.secretKeyRef.Some?
  }

  /** Every secret that a container asks for is there. */
  ghost predicate SecretsReadable(c: Container, get: Lookup) {
    && (forall e :: e in c.envFrom && e.secretRef.Some? ==> WholeReadable(e.secretRef.value, get))
    && (forall e :: e in c.env && AsksForSecretKey(e) ==> KeyReadable(e.valueFrom.value.secretKeyRef.value, get))
  }

  ghost predicate AsksForSecret(c: Container, n: Name) {
    || (exists e :: e in c.envFrom && e.secretRef.Some? && e.secretRef.value.name == n)
    || (exists e :: e in c.env && AsksForSecretKey(e) && e.valueFrom.value.secretKeyRef.value.name == n)
  }

  /** The references of a container are those of its fields. */
  lemma SecretFields(c: Container, get: Lookup, n: Name)
    ensures SecretsReadable(c, get) <==> forall need :: ContainerRefersToSecret(c, need) ==> Satisfied(need, get)
    ensures AsksForSecret(c, n) <==> exists need :: ContainerRefersToSecret(c, need) && need.name == n
  {
    forall e | e in c.envFrom && e.secretRef.Some?
      ensures var r := e.secretRef.value;
        var need := Need(r.name, r.optional == Some(true), None);
        ContainerRefersToSecret(c, need) && (Satisfied(need, get) <==> WholeReadable(r, get))
    {
      var r := e.secretRef.value;
      assert SecretEnvFromNeed(e) == Some(Need(r.name, r.optional == Some(true), None));
    }
    forall e | e in c.env && AsksForSecretKey(e)
      ensures var r := e.valueFrom.value.secretKeyRef.value;
        var need := Need(r.name, r.optional == Some(true), Some(r.key));
        ContainerRefersToSecret(c, need) && (Satisfied(need, get) <==> KeyReadable(r, get))
    {
      var r := e.valueFrom.value.secretKeyRef.value;
      assert SecretEnvNeed(e) == Some(Need(r.name, r.optional == Some(true), Some(r.key)));
    }
  }

  lemma {:induction false} ContainersReferences(cs: seq<Container>, need: Need)
    ensures need in Elements(ContainersSecrets(cs)) <==> exists c :: c in cs && ContainerRefersToSecret(c, need)
  {
    if cs != [] {
      var init, last := cs[..|cs| - 1], cs[|cs| - 1];
      assert cs == init + [last];
      ContainersReferences(init, need);
      CollectElements(last.envFrom, SecretEnvFromNeed, need);
      CollectElements(last.env, SecretEnvNeed, need);
      ElementsAppend(ContainersSecrets(init), ContainerSecrets(last));
      ElementsAppend(Collect(last.envFrom, SecretEnvFromNeed), Collect(last.env, SecretEnvNeed));
      assert need in Elements(ContainerSecrets(last)) <==> ContainerRefersToSecret(last, need);
      assert last in cs && forall c :: c in cs <==> c in init || c == last;
    } else {
      assert Elements(ContainersSecrets(cs)) == {};
    }
  }

  lemma {:induction false} PodsReferences(pods: seq<PodSpec>, need: Need)
    ensures need in Elements(PodsSecrets(pods)) <==> RefersToSecret(pods, need)
  {
    if pods != [] {
      var init, last := pods[..|pods| - 1], pods[|pods| - 1];
      assert pods == init + [last];
      PodsReferences(init, need);
      ContainersReferences(AllContainers(last), need);
      assert forall c :: c in AllContainers(last) <==> IsContainerOf(c, last);
      ElementsAppend(PodsSecrets(init), ContainersSecrets(AllContainers(last)));
    }
  }

  method ExtractSecretsFromContainer(container: Container, table: RefTable)
    modifies table
    ensures table.refs == AbsorbAll(old(table.refs), ContainerSecrets(container))
  {
    AbsorbAppend(table.refs, Collect(container.envFrom, SecretEnvFromNeed), Collect(container.env, SecretEnvNeed));
    table.ExtractSecretsFromEnvFrom(container.envFrom);
    table.ExtractSecretsFromEnv(container.env);
  }

  method ExtractSecrets(pods: seq<PodSpec>) returns (refs: RefMap)
    ensures refs == Join(map[], Elements(PodsSecrets(pods)))
  {
    var table := new RefTable();
    for i := 0 to |pods|
      invariant table.refs == AbsorbAll(map[], PodsSecrets(pods[..i]))
    {
      var allContainers := AllContainers(pods[i]);
      ghost var before := table.refs;
      for j := 0 to |allContainers|
        invariant table.refs == AbsorbAll(before, ContainersSecrets(allContainers[..j]))
      {
        assert allContainers[..j + 1][..j] == allContainers[..j];
        AbsorbAppend(before, ContainersSecrets(allContainers[..j]), ContainerSecrets(allContainers[j]));
        ExtractSecretsFromContainer(allContainers[j], table);
      }
      assert allContainers[..|allContainers|] == allContainers;
      assert pods[..i + 1][..i] == pods[..i];
      AbsorbAppend(map[], PodsSecrets(pods[..i]), ContainersSecrets(allContainers));
    }
    assert pods[..|pods|] == pods;
    AbsorbAllIsJoin(map[], PodsSecrets(pods));
    refs := table.refs;
  }

  ghost predicate PodsAskForSecret(pods: seq<PodSpec>, n: Name) {
    exists pod, c :: pod in pods && IsContainerOf(c, pod) && AsksForSecret(c, n)
  }

  /** One item for each object asked for that exists, with its data, and no other. */
  ghost predicate ListsExactly(items: seq<Item>, asked: Name -> bool, get: Lookup) {
    && (forall i, j :: 0 <= i < j < |items| ==> items[i].name != items[j].name)
    && (forall n :: Item(n, GetData(n, get)) in items <==> asked(n) && get(n).Found?)
    && (forall item :: item in items ==> item.data == GetData(item.name, get))
  }

  lemma ListedExactly(items: seq<Item>, names: set<Name>, asked: Name -> bool, get: Lookup)
    requires Lists(items, names, get) && forall n :: n in names <==> asked(n)
    ensures ListsExactly(items, asked, get)
  {
  }

  function GetData(n: Name, get: Lookup): map<string, string> {
    if get(n).Found? then get(n).data else map[]
  }

  /** `createSecretList`, end to end: it succeeds exactly when every secret and every key
      that an init container or a container of a workload asks for can be read, and then
      returns exactly one entry for each secret asked for that exists. */
  method CreateSecretList(pods: seq<PodSpec>, get: Lookup) returns (list: Option<seq<Item>>)
    ensures list.Some? <==> forall pod, c :: pod in pods && IsContainerOf(c, pod) ==> SecretsReadable(c, get)
    ensures list.Some? ==> ListsExactly(list.value, n => PodsAskForSecret(pods, n), get)
  {
    var refs := ExtractSecrets(pods);
    var needs := Elements(PodsSecrets(pods));
    ReadingMeetsEveryNeed(needs, get);
    forall need ensures need in needs <==> RefersToSecret(pods, need) {
      PodsReferences(pods, need);
    }
    PodsFields(pods, get);
    forall n ensures n in refs.Keys <==> PodsAskForSecret(pods, n) {
      PodsNames(pods, n);
    }
    list := ReadAll(refs, get);
    if list.Some? {
      ListedExactly(list.value, refs.Keys, n => PodsAskForSecret(pods, n), get);
    }
  }

  lemma PodsFields(pods: seq<PodSpec>, get: Lookup)
    ensures (forall pod, c :: pod in pods && IsContainerOf(c, pod) ==> SecretsReadable(c, get)) <==>
            (forall need :: RefersToSecret(pods, need) ==> Satisfied(need, get))
  {
    forall pod, c | pod in pods && IsContainerOf(c, pod)
      ensures SecretsReadable(c, get) <==> forall need :: ContainerRefersToSecret(c, need) ==> Satisfied(need, get)
    {
      SecretFields(c, get, "");
    }
  }

  lemma PodsNames(pods: seq<PodSpec>, n: Name)
    ensures PodsAskForSecret(pods, n) <==> exists need :: RefersToSecret(pods, need) && need.name == n
  {
    forall pod, c | pod in pods && IsContainerOf(c, pod)
      ensures AsksForSecret(c, n) <==> exists need :: ContainerRefersToSecret(c, need) && need.name == n
    {
      SecretFields(c, x => Absent, n);
    }
  }

  // ---------------------------------------------------------------- config maps

  function ConfigMapRefOf(e: EnvFromSource): Answer {
    match e.configMapRef
    case None => Missing
    case Some(r) => There(r.optional, r.name)
  }

  /** This callback looks into `ValueFrom` before anyone has checked that it is there. */
  function ConfigMapKeyRefOf(e: EnvVar): KeyAnswer {
    match e.valueFrom
    case None => Panics
    case Some(source) =>
      match source.configMapKeyRef
      case None => NoKey
      case Some(r) => Key(r.optional, r.name, r.key)
  }

  function VolumeConfigMapOf(v: Volume): Answer {
    match v.configMap
    case None => Missing
    case Some(r) => There(r.optional, r.name)
  }

  predicate NoLiteralVariables(c: Container) {
    forall e :: e in c.env ==> e.valueFrom.Some?
  }

  predicate NoLiterals(cs: seq<Container>) {
    forall c :: c in cs ==> NoLiteralVariables(c)
  }

  function ContainerConfigMaps(c: Container): seq<Need> {
    AnswersOf(c.envFrom, ConfigMapRefOf) + KeyAnswersOf(c.env, ConfigMapKeyRefOf)
  }

  /** What the loop of `Fetch` scans: after every container, all volumes again. */
  function RepeatedScan(cs: seq<Container>, volumes: seq<Volume>): seq<Need> {
    if cs == [] then []
    else
      RepeatedScan(cs[..|cs| - 1], volumes) +
      (ContainerConfigMaps(cs[|cs| - 1]) + AnswersOf(volumes, VolumeConfigMapOf))
  }

  function ContainersConfigMaps(cs: seq<Container>): seq<Need> {
    if cs == [] then []
    else ContainersConfigMaps(cs[..|cs| - 1]) + ContainerConfigMaps(cs[|cs| - 1])
  }

  /** The volumes scanned once, provided there is a container at all. */
  function SingleScan(cs: seq<Container>, volumes: seq<Volume>): seq<Need> {
    ContainersConfigMaps(cs) + if cs == [] then [] else AnswersOf(volumes, VolumeConfigMapOf)
  }

  lemma {:induction false} ScansHaveTheSameElements(cs: seq<Container>, volumes: seq<Volume>)
    ensures Elements(RepeatedScan(cs, volumes)) == Elements(SingleScan(cs, volumes))
  {
    if cs != [] {
      var init, last := cs[..|cs| - 1], cs[|cs| - 1];
      var again := AnswersOf(volumes, VolumeConfigMapOf);
      ScansHaveTheSameElements(init, volumes);
      ElementsAppend(RepeatedScan(init, volumes), ContainerConfigMaps(last) + again);
      ElementsAppend(ContainerConfigMaps(last), again);
      ElementsAppend(ContainersConfigMaps(init), ContainerConfigMaps(last));
      ElementsAppend(ContainersConfigMaps(cs), again);
      ElementsAppend(ContainersConfigMaps(init), if init == [] then [] else again);
    }
  }

  /** Scanning the volumes once per container gives the map of scanning them once. */
  lemma RepeatedScanIsHarmless(cs: seq<Container>, volumes: seq<Volume>)
    ensures AbsorbAll(map[], RepeatedScan(cs, volumes)) == AbsorbAll(map[], SingleScan(cs, volumes))
  {
    ScansHaveTheSameElements(cs, volumes);
    OrderDoesNotMatter(map[], RepeatedScan(cs, volumes), SingleScan(cs, volumes));
  }

  /** A literal variable makes the callback dereference nil. */
  method ExtractConfigMapsFromEnv(container: Container, table: RefTable) returns (panicked: bool)
    modifies table
    ensures panicked <==> !NoLiteralVariables(container)
    ensures !panicked ==> table.refs == AbsorbAll(old(table.refs), ContainerConfigMaps(container))
  {
    AbsorbAppend(table.refs, AnswersOf(container.envFrom, ConfigMapRefOf),
                 KeyAnswersOf(container.env, ConfigMapKeyRefOf));
    table.ExtractInfoFrom(container.envFrom, ConfigMapRefOf);
    panicked := table.ExtractInfoFromEnv(container.env, ConfigMapKeyRefOf);
  }

  datatype FetchResult = Panicked | Refused | Fetched(list: seq<Item>)

  /** The scanning loop of `Fetch`. */
  method ExtractConfigMaps(allContainers: seq<Container>, volumes: seq<Volume>) returns (panicked: bool, refs: RefMap)
    ensures panicked <==> !NoLiterals(allContainers)
    ensures !panicked ==> refs == AbsorbAll(map[], RepeatedScan(allContainers, volumes))
  {
    var table := new RefTable();
    for i := 0 to |allContainers|
      invariant NoLiterals(allContainers[..i])
      invariant table.refs == AbsorbAll(map[], RepeatedScan(allContainers[..i], volumes))
    {
      OneMoreScan(allContainers, i, volumes);
      panicked := ExtractConfigMapsFromEnv(allContainers[i], table);
      if panicked {
        assert allContainers[i] in allContainers;
        return true, map[];
      }
      table.ExtractInfoFrom(volumes, VolumeConfigMapOf);
    }
    assert allContainers[..|allContainers|] == allContainers;
    return false, table.refs;
  }

  lemma OneMoreScan(cs: seq<Container>, i: nat, volumes: seq<Volume>)
    requires i < |cs|
    ensures NoLiterals(cs[..i + 1]) <==> NoLiterals(cs[..i]) && NoLiteralVariables(cs[i])
    ensures AbsorbAll(map[], RepeatedScan(cs[..i + 1], volumes))
         == AbsorbAll(AbsorbAll(AbsorbAll(map[], RepeatedScan(cs[..i], volumes)), ContainerConfigMaps(cs[i])),
                      AnswersOf(volumes, VolumeConfigMapOf))
  {
    assert cs[..i + 1] == cs[..i] + [cs[i]] && cs[..i + 1][..i] == cs[..i];
    var before, again := RepeatedScan(cs[..i], volumes), AnswersOf(volumes, VolumeConfigMapOf);
    AbsorbAppend(map[], before, ContainerConfigMaps(cs[i]) + again);
    AbsorbAppend(AbsorbAll(map[], before), ContainerConfigMaps(cs[i]), again);
  }

  // ---------------------------------- what the fields of the pod ask for

  predicate AsksForConfigMapKey(e: EnvVar) {
    e.valueFrom.Some? && e.valueFrom.value.configMapKeyRef.Some?
  }

  ghost predicate ConfigMapsReadable(c: Container, get: Lookup) {
    && (forall e :: e in c.envFrom && e.configMapRef.Some? ==> WholeReadable(e.configMapRef.value, get))
    && (forall e :: e in c.env && AsksForConfigMapKey(e) ==> KeyReadable(e.valueFrom.value.configMapKeyRef.value, get))
  }

  ghost predicate VolumesReadable(volumes: seq<Volume>, get: Lookup) {
    forall v :: v in volumes && v.configMap.Some? ==> WholeReadable(v.configMap.value, get)
  }

  ghost predicate AsksForConfigMap(c: Container, n: Name) {
    || (exists e :: e in c.envFrom && e.configMapRef.Some? && e.configMapRef.value.name == n)
    || (exists e :: e in c.env && AsksForConfigMapKey(e) && e.valueFrom.value.configMapKeyRef.value.name == n)
  }

  /** What a pod asks for: its volumes count only if it has a container at all. */
  ghost predicate PodAsksForConfigMap(pod: PodSpec, n: Name) {
    || (exists c :: IsContainerOf(c, pod) && AsksForConfigMap(c, n))
    || ((exists c :: IsContainerOf(c, pod)) &&
        exists v :: v in pod.volumes && v.configMap.Some? && v.configMap.value.name == n)
  }

  ghost predicate PodReadable(pod: PodSpec, get: Lookup) {
    && (forall c :: IsContainerOf(c, pod) ==> ConfigMapsReadable(c, get))
    && ((exists c :: IsContainerOf(c, pod)) ==> VolumesReadable(pod.volumes, get))
  }

  lemma ElementsOfAnswers<T>(xs: seq<T>, ref: T -> Answer, need: Need)
    ensures need in Elements(AnswersOf(xs, ref)) <==> exists x :: x in xs && AnswerNeed(ref(x)) == Some(need)
  {
    CollectElements(xs, x => AnswerNeed(ref(x)), need);
  }

  /** The references of a container are those of its fields. */
  lemma ConfigMapFields(c: Container, get: Lookup, n: Name)
    ensures ConfigMapsReadable(c, get) <==>
            forall need :: need in Elements(ContainerConfigMaps(c)) ==> Satisfied(need, get)
    ensures AsksForConfigMap(c, n) <==> exists need :: need in Elements(ContainerConfigMaps(c)) && need.name == n
  {
    var whole, keyed := AnswersOf(c.envFrom, ConfigMapRefOf), KeyAnswersOf(c.env, ConfigMapKeyRefOf);
    ElementsAppend(whole, keyed);
    forall need
      ensures need in Elements(whole) <==> exists e :: e in c.envFrom && AnswerNeed(ConfigMapRefOf(e)) == Some(need)
      ensures need in Elements(keyed) <==> exists e :: e in c.env && EnvNeed(e, ConfigMapKeyRefOf) == Some(need)
    {
      ElementsOfAnswers(c.envFrom, ConfigMapRefOf, need);
      CollectElements(c.env, e => EnvNeed(e, ConfigMapKeyRefOf), need);
    }
    forall e | e in c.envFrom && e.configMapRef.Some?
      ensures var r := e.configMapRef.value;
        var need := Need(r.name, r.optional == Some(true), None);
        need in Elements(whole) && (Satisfied(need, get) <==> WholeReadable(r, get))
    {
      var r := e.configMapRef.value;
      assert AnswerNeed(ConfigMapRefOf(e)) == Some(Need(r.name, r.optional == Some(true), None));
    }
    forall e | e in c.env && AsksForConfigMapKey(e)
      ensures var r := e.valueFrom.value.configMapKeyRef.value;
        var need := Need(r.name, r.optional == Some(true), Some(r.key));
        need in Elements(keyed) && (Satisfied(need, get) <==> KeyReadable(r, get))
    {
      var r := e.valueFrom.value.configMapKeyRef.value;
      assert EnvNeed(e, ConfigMapKeyRefOf) == Some(Need(r.name, r.optional == Some(true), Some(r.key)));
    }
  }

  lemma VolumeFields(volumes: seq<Volume>, get: Lookup, n: Name)
    ensures VolumesReadable(volumes, get) <==>
            forall need :: need in Elements(AnswersOf(volumes, VolumeConfigMapOf)) ==> Satisfied(need, get)
    ensures (exists v :: v in volumes && v.configMap.Some? && v.configMap.value.name == n) <==>
            exists need :: need in Elements(AnswersOf(volumes, VolumeConfigMapOf)) && need.name == n
  {
    forall need
      ensures need in Elements(AnswersOf(volumes, VolumeConfigMapOf)) <==>
              exists v :: v in volumes && AnswerNeed(VolumeConfigMapOf(v)) == Some(need)
    {
      ElementsOfAnswers(volumes, VolumeConfigMapOf, need);
    }
    forall v | v in volumes && v.configMap.Some?
      ensures var r := v.configMap.value;
        var need := Need(r.name, r.optional == Some(true), None);
        need in Elements(AnswersOf(volumes, VolumeConfigMapOf)) && (Satisfied(need, get) <==> WholeReadable(r, get))
    {
      var r := v.configMap.value;
      assert AnswerNeed(VolumeConfigMapOf(v)) == Some(Need(r.name, r.optional == Some(true), None));
    }
  }

  lemma {:induction false} ContainersConfigMapsOf(cs: seq<Container>, need: Need)
    ensures need in Elements(ContainersConfigMaps(cs)) <==>
            exists c :: c in cs && need in Elements(ContainerConfigMaps(c))
  {
    if cs != [] {
      var init, last := cs[..|cs| - 1], cs[|cs| - 1];
      assert cs == init + [last];
      ContainersConfigMapsOf(init, need);
      ElementsAppend(ContainersConfigMaps(init), ContainerConfigMaps(last));
    }
  }

  /** The references of a pod, by its fields. */
  lemma PodFields(pod: PodSpec, get: Lookup, n: Name)
    ensures var needs := Elements(SingleScan(AllContainers(pod), pod.volumes));
      && (PodReadable(pod, get) <==> forall need :: need in needs ==> Satisfied(need, get))
      && (PodAsksForConfigMap(pod, n) <==> exists need :: need in needs && need.name == n)
  {
    var cs := AllContainers(pod);
    var again := AnswersOf(pod.volumes, VolumeConfigMapOf);
    assert forall c :: c in cs <==> IsContainerOf(c, pod);
    ElementsAppend(ContainersConfigMaps(cs), if cs == [] then [] else again);
    assert cs != [] ==> cs[0] in cs;
    VolumeFields(pod.volumes, get, n);
    forall need
      ensures need in Elements(ContainersConfigMaps(cs)) <==>
              exists c :: IsContainerOf(c, pod) && need in Elements(ContainerConfigMaps(c))
    {
      ContainersConfigMapsOf(cs, need);
    }
    forall c
      ensures ConfigMapsReadable(c, get) <==>
              forall need :: need in Elements(ContainerConfigMaps(c)) ==> Satisfied(need, get)
      ensures AsksForConfigMap(c, n) <==> exists need :: need in Elements(ContainerConfigMaps(c)) && need.name == n
    {
      ConfigMapFields(c, get, n);
    }
  }

  /** `Fetch` of one deployment's config maps, end to end: it panics exactly if a variable
      of some container has no source; else it succeeds exactly when everything that the
      containers and, if there is one, the volumes ask for can be read. */
  method Fetch(pod: PodSpec, get: Lookup) returns (r: FetchResult)
    ensures r.Panicked? <==> exists c, e :: IsContainerOf(c, pod) && e in c.env && e.valueFrom.None?
    ensures r.Fetched? <==> !r.Panicked? && PodReadable(pod, get)
    ensures r.Fetched? ==> ListsExactly(r.list, n => PodAsksForConfigMap(pod, n), get)
  {
    assert forall c :: c in AllContainers(pod) <==> IsContainerOf(c, pod);
    var panicked, refs := ExtractConfigMaps(AllContainers(pod), pod.volumes);
    if panicked {
      return Panicked;
    }
    WholeScan(AllContainers(pod), pod.volumes);
    ReadingMeetsEveryNeed(Elements(SingleScan(AllContainers(pod), pod.volumes)), get);
    PodFields(pod, get, "");
    forall n ensures n in refs.Keys <==> PodAsksForConfigMap(pod, n) {
      PodFields(pod, get, n);
    }
    var list := ReadAll(refs, get);
    if list.Some? {
      ListedExactly(list.value, refs.Keys, n => PodAsksForConfigMap(pod, n), get);
    }
    r := if list.Some? then Fetched(list.value) else Refused;
  }

  lemma WholeScan(cs: seq<Container>, volumes: seq<Volume>)
    ensures AbsorbAll(map[], RepeatedScan(cs, volumes)) == Join(map[], Elements(SingleScan(cs, volumes)))
    ensures Join(map[], Elements(SingleScan(cs, volumes))).Keys == Mentions(Elements(SingleScan(cs, volumes)))
  {
    RepeatedScanIsHarmless(cs, volumes);
    AbsorbAllIsJoin(map[], SingleScan(cs, volumes));
  }
}
