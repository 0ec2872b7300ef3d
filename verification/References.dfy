/** Which secrets and config maps a pod refers to, and with which mandatory keys. */
module References {
  import opened Kube

  datatype Ref = Ref(name: Name, optional: Option<bool>)
  datatype KeyRef = KeyRef(name: Name, key: string, optional: Option<bool>)
  datatype EnvFromSource = EnvFromSource(secretRef: Option<Ref>, configMapRef: Option<Ref>)
  datatype EnvVarSource = EnvVarSource(secretKeyRef: Option<KeyRef>, configMapKeyRef: Option<KeyRef>)
  datatype EnvVar = EnvVar(name: string, valueFrom: Option<EnvVarSource>)
  datatype Volume = Volume(name: string, configMap: Option<Ref>)
  datatype Container = Container(env: seq<EnvVar>, envFrom: seq<EnvFromSource>)
  datatype PodSpec = PodSpec(initContainers: seq<Container>, containers: seq<Container>, volumes: seq<Volume>)

  function IsOptional(flag: Option<bool>): bool {
    flag.Some? && flag.value
  }

  // ---------------------------------------------------------- a reference at a time

  /** One reference: to a whole object, or to one of its keys. */
  datatype Need = Need(name: Name, optional: bool, key: Option<string>)

  /** The mandatory keys of a name; `None` when all its references are optional. */
  type KeySet = Option<set<string>>

  type RefMap = map<Name, KeySet>

  function KeysOf(need: Need): set<string> {
    if need.key.Some? then {need.key.value} else {}
  }

  /** What the extraction loops do with one reference. */
  function Absorb(m: RefMap, need: Need): RefMap {
    if need.name !in m then m[need.name := if need.optional then None else Some(KeysOf(need))]
    else if need.optional then m
    else match m[need.name]
      case None => m[need.name := Some(KeysOf(need))]
      case Some(keys) => m[need.name := Some(keys + KeysOf(need))]
  }

  function AbsorbAll(m: RefMap, needs: seq<Need>): RefMap {
    if needs == [] then m else Absorb(AbsorbAll(m, needs[..|needs| - 1]), needs[|needs| - 1])
  }

  // -------------------------------------------------------------- all of them at once

  predicate Mandatory(needs: set<Need>, n: Name) {
    exists need :: need in needs && need.name == n && !need.optional
  }

  function MandatoryKeys(needs: set<Need>, n: Name): set<string> {
    set need | need in needs && need.name == n && !need.optional && need.key.Some? :: need.key.value
  }

  function Mentions(needs: set<Need>): set<Name> {
    set need | need in needs :: need.name
  }

  function OldKeys(m: RefMap, n: Name): set<string> {
    if n in m && m[n].Some? then m[n].value else {}
  }

  /** A name is optional if nothing makes it mandatory, and otherwise has the union of
      all its mandatory keys. */
  function JoinAt(m: RefMap, needs: set<Need>, n: Name): KeySet {
    if (n in m && m[n].Some?) || Mandatory(needs, n) then Some(OldKeys(m, n) + MandatoryKeys(needs, n)) else None
  }

  /** The join: every name that was there or is mentioned. */
  function Join(m: RefMap, needs: set<Need>): RefMap {
    map n | n in m.Keys + Mentions(needs) :: JoinAt(m, needs, n)
  }

  function Elements(needs: seq<Need>): set<Need> {
    set need | need in needs
  }

  lemma ElementsAppend(a: seq<Need>, b: seq<Need>)
    ensures Elements(a + b) == Elements(a) + Elements(b)
  {
  }

  lemma ElementsOneMore(needs: seq<Need>, need: Need)
    ensures Elements(needs + [need]) == Elements(needs) + {need}
  {
    assert forall x :: x in needs + [need] <==> x in needs || x == need;
  }

  lemma MandatoryOneMore(needs: set<Need>, need: Need, n: Name)
    ensures var hit := need.name == n && !need.optional;
      && (Mandatory(needs + {need}, n) <==> Mandatory(needs, n) || hit)
      && MandatoryKeys(needs + {need}, n) == MandatoryKeys(needs, n) + if hit then KeysOf(need) else {}
    ensures !Mandatory(needs, n) ==> MandatoryKeys(needs, n) == {}
  {
    var all := needs + {need};
    assert need in all;
    forall other | other in needs ensures other in all {}
    var hit := need.name == n && !need.optional;
    forall k
      ensures k in MandatoryKeys(all, n) <==> k in MandatoryKeys(needs, n) || (hit && k in KeysOf(need))
    {
      if k in MandatoryKeys(needs, n) {
        var other :| other in needs && other.name == n && !other.optional && other.key.Some? && other.key.value == k;
        assert other in all;
      }
    }
  }

  lemma JoinAtOneMore(m: RefMap, needs: set<Need>, need: Need, n: Name)
    ensures n != need.name || need.optional ==> JoinAt(m, needs + {need}, n) == JoinAt(m, needs, n)
    ensures n == need.name && !need.optional ==>
      JoinAt(m, needs + {need}, n) ==
      Some((if JoinAt(m, needs, n).Some? then JoinAt(m, needs, n).value else {}) + KeysOf(need))
  {
    MandatoryOneMore(needs, need, n);
    if n != need.name || need.optional {
      assert MandatoryKeys(needs + {need}, n) == MandatoryKeys(needs, n);
    } else {
      var before := OldKeys(m, n) + MandatoryKeys(needs, n);
      assert OldKeys(m, n) + (MandatoryKeys(needs, n) + KeysOf(need)) == before + KeysOf(need);
      if JoinAt(m, needs, n).None? {
        assert before == {};
      }
    }
  }

  lemma UnmentionedIsOptional(m: RefMap, needs: set<Need>, n: Name)
    requires n !in m && n !in Mentions(needs)
    ensures JoinAt(m, needs, n) == None
  {
  }

  /** `Absorb` at one name. */
  lemma AbsorbAt(m: RefMap, need: Need, n: Name)
    ensures n in Absorb(m, need) <==> n in m || n == need.name
    ensures n in m && (n != need.name || need.optional) ==> Absorb(m, need)[n] == m[n]
    ensures n !in m && n == need.name && need.optional ==> Absorb(m, need)[n] == None
    ensures n == need.name && !need.optional ==> Absorb(m, need)[n] == Some(OldKeys(m, n) + KeysOf(need))
  {
    assert {} + KeysOf(need) == KeysOf(need);
  }

  /** One more reference joins the others. */
  lemma JoinOneMore(m: RefMap, needs: set<Need>, need: Need)
    ensures Absorb(Join(m, needs), need) == Join(m, needs + {need})
  {
    assert Mentions(needs + {need}) == Mentions(needs) + {need.name};
    var before := Join(m, needs);
    var absorbed, joined := Absorb(before, need), Join(m, needs + {need});
    forall n
      ensures (n in absorbed <==> n in joined) && (n in joined ==> absorbed[n] == joined[n])
    {
      AbsorbAt(before, need, n);
      JoinAtOneMore(m, needs, need, n);
      if n !in m && n !in Mentions(needs) {
        UnmentionedIsOptional(m, needs, n);
      }
    }
  }

  lemma EmptyJoin(m: RefMap)
    ensures Join(m, {}) == m
  {
    forall n | n in m ensures JoinAt(m, {}, n) == m[n] {
      assert MandatoryKeys({}, n) == {};
      assert OldKeys(m, n) + {} == OldKeys(m, n);
    }
  }

  /** The loops compute the join: their result depends on the set of references only. */
  lemma {:induction false} AbsorbAllIsJoin(m: RefMap, needs: seq<Need>)
    ensures AbsorbAll(m, needs) == Join(m, Elements(needs))
  {
    if needs == [] {
      EmptyJoin(m);
      assert Elements(needs) == {};
    } else {
      var init, last := needs[..|needs| - 1], needs[|needs| - 1];
      AbsorbAllIsJoin(m, init);
      JoinOneMore(m, Elements(init), last);
      ElementsOneMore(init, last);
      assert needs == init + [last];
    }
  }

  /** Order and repetition do not matter. */
  lemma OrderDoesNotMatter(m: RefMap, a: seq<Need>, b: seq<Need>)
    requires Elements(a) == Elements(b)
    ensures AbsorbAll(m, a) == AbsorbAll(m, b)
  {
    AbsorbAllIsJoin(m, a);
    AbsorbAllIsJoin(m, b);
  }

  lemma {:induction false} AbsorbAppend(m: RefMap, a: seq<Need>, b: seq<Need>)
    ensures AbsorbAll(m, a + b) == AbsorbAll(AbsorbAll(m, a), b)
  {
    if b == [] {
      assert a + b == a;
    } else {
      assert (a + b)[..|a + b| - 1] == a + b[..|b| - 1];
      AbsorbAppend(m, a, b[..|b| - 1]);
    }
  }

  // ------------------------------------------------------------- generic extraction

  /** The references that the elements of a list make, in order. */
  function Collect<T>(xs: seq<T>, f: T --> Option<Need>): seq<Need>
    requires forall x :: x in xs ==> f.requires(x)
  {
    if xs == [] then []
    else
      var init := Collect(xs[..|xs| - 1], f);
      match f(xs[|xs| - 1])
      case None => init
      case Some(need) => init + [need]
  }

  lemma {:induction false} CollectAgrees<T>(xs: seq<T>, f: T --> Option<Need>, g: T --> Option<Need>)
    requires forall x :: x in xs ==> f.requires(x) && g.requires(x) && f(x) == g(x)
    ensures Collect(xs, f) == Collect(xs, g)
  {
    if xs != [] {
      CollectAgrees(xs[..|xs| - 1], f, g);
    }
  }

  lemma {:induction false} CollectElements<T>(xs: seq<T>, f: T --> Option<Need>, need: Need)
    requires forall x :: x in xs ==> f.requires(x)
    ensures need in Elements(Collect(xs, f)) <==> exists x :: x in xs && f(x) == Some(need)
  {
    if xs != [] {
      var init, last := xs[..|xs| - 1], xs[|xs| - 1];
      assert xs == init + [last];
      CollectElements(init, f, need);
    }
  }

  /** The answer of a callback. */
  datatype Answer = Missing | There(optional: Option<bool>, name: Name)
  datatype KeyAnswer = NoKey | Key(optional: Option<bool>, name: Name, key: string) | Panics

  function AnswerNeed(a: Answer): Option<Need> {
    match a
    case Missing => None
    case There(optional, name) => Some(Need(name, IsOptional(optional), None))
  }

  function KeyAnswerNeed(a: KeyAnswer): Option<Need> {
    match a
    case NoKey => None
    case Key(optional, name, key) => Some(Need(name, IsOptional(optional), Some(key)))
    case Panics => None
  }

  function EnvNeed(e: EnvVar, ref: EnvVar -> KeyAnswer): Option<Need> {
    if e.valueFrom.None? then None else KeyAnswerNeed(ref(e))
  }

  /** The references a generic extractor sees through its callback. */
  function AnswersOf<T>(sources: seq<T>, ref: T -> Answer): seq<Need> {
    Collect(sources, x => AnswerNeed(ref(x)))
  }

  function KeyAnswersOf(env: seq<EnvVar>, ref: EnvVar -> KeyAnswer): seq<Need> {
    Collect(env, e => EnvNeed(e, ref))
  }

  /** The map that the extractors fill in place. */
  class RefTable {
    var refs: RefMap

    constructor ()
      ensures refs == map[]
    {
      refs := map[];
    }

    /** `ExtractInfoFromEnvFrom`, and `ExtractInfoFromVolume`, which has the same text. */
    method ExtractInfoFrom<T>(sources: seq<T>, ref: T -> Answer)
      modifies this
      ensures refs == AbsorbAll(old(refs), AnswersOf(sources, ref))
    {
      for i := 0 to |sources|
        invariant refs == AbsorbAll(old(refs), AnswersOf(sources[..i], ref))
      {
        var answer := ref(sources[i]);
        assert sources[..i + 1][..i] == sources[..i];
        if answer.Missing? {
          continue;
        }
        OneMoreNeed(old(refs), AnswersOf(sources[..i], ref), AnswerNeed(answer).value);
        var name, optional := answer.name, false;
        if answer.optional.Some? {
          optional := answer.optional.value;
        }
        if name in refs {
          if !optional && refs[name].None? {
            refs := refs[name := Some({})];
          } else if refs[name].Some? {
            assert refs[name].value + {} == refs[name].value;
          }
        } else {
          if optional {
            refs := refs[name := None];
          } else {
            refs := refs[name := Some({})];
          }
        }
      }
      assert sources[..|sources|] == sources;
    }

    /** `ExtractInfoFromEnv`: the callback sees every variable before the nil check, and
        may panic on one. */
    method ExtractInfoFromEnv(env: seq<EnvVar>, ref: EnvVar -> KeyAnswer) returns (panicked: bool)
      modifies this
      ensures panicked <==> exists e :: e in env && ref(e).Panics?
      ensures !panicked ==> refs == AbsorbAll(old(refs), KeyAnswersOf(env, ref))
    {
      for i := 0 to |env|
        invariant forall e :: e in env[..i] ==> !ref(e).Panics?
        invariant refs == AbsorbAll(old(refs), KeyAnswersOf(env[..i], ref))
      {
        var answer := ref(env[i]);
        assert env[..i + 1][..i] == env[..i] && env[..i + 1] == env[..i] + [env[i]];
        if answer.Panics? {
          return true;
        }
        if env[i].valueFrom.None? || answer.NoKey? {
          continue;
        }
        OneMoreNeed(old(refs), KeyAnswersOf(env[..i], ref), KeyAnswerNeed(answer).value);
        var name, key, optional := answer.name, answer.key, false;
        if answer.optional.Some? {
          optional := answer.optional.value;
        }
        if name in refs {
          if !optional {
            if refs[name].None? {
              refs := refs[name := Some({key})];
            } else {
              refs := refs[name := Some(refs[name].value + {key})];
            }
          }
        } else {
          if optional {
            refs := refs[name := None];
          } else {
            refs := refs[name := Some({key})];
          }
        }
      }
      assert env[..|env|] == env;
      panicked := false;
    }

    /** `extractSecretsFromEnvFrom`, written out by hand in the data handler. */
    method ExtractSecretsFromEnvFrom(envFrom: seq<EnvFromSource>)
      modifies this
      ensures refs == AbsorbAll(old(refs), Collect(envFrom, SecretEnvFromNeed))
    {
      for i := 0 to |envFrom|
        invariant refs == AbsorbAll(old(refs), Collect(envFrom[..i], SecretEnvFromNeed))
      {
        assert envFrom[..i + 1][..i] == envFrom[..i];
        if envFrom[i].secretRef.None? {
          continue;
        }
        var secretRef := envFrom[i].secretRef.value;
        OneMoreNeed(old(refs), Collect(envFrom[..i], SecretEnvFromNeed), SecretEnvFromNeed(envFrom[i]).value);
        var optional := false;
        if secretRef.optional.Some? {
          optional := secretRef.optional.value;
        }
        if secretRef.name in refs {
          if !optional && refs[secretRef.name].None? {
            refs := refs[secretRef.name := Some({})];
          } else if refs[secretRef.name].Some? {
            assert refs[secretRef.name].value + {} == refs[secretRef.name].value;
          }
        } else {
          refs := refs[secretRef.name := if optional then None else Some({})];
        }
      }
      assert envFrom[..|envFrom|] == envFrom;
    }

    /** `extractSecretsFromEnv`. */
    method ExtractSecretsFromEnv(env: seq<EnvVar>)
      modifies this
      ensures refs == AbsorbAll(old(refs), Collect(env, SecretEnvNeed))
    {
      for i := 0 to |env|
        invariant refs == AbsorbAll(old(refs), Collect(env[..i], SecretEnvNeed))
      {
        assert env[..i + 1][..i] == env[..i];
        if env[i].valueFrom.None? || env[i].valueFrom.value.secretKeyRef.None? {
          continue;
        }
        var keyRef := env[i].valueFrom.value.secretKeyRef.value;
        OneMoreNeed(old(refs), Collect(env[..i], SecretEnvNeed), SecretEnvNeed(env[i]).value);
        var optional := false;
        if keyRef.optional.Some? {
          optional := keyRef.optional.value;
        }
        if keyRef.name in refs {
          if !optional {
            if refs[keyRef.name].None? {
              refs := refs[keyRef.name := Some({keyRef.key})];
            } else {
              refs := refs[keyRef.name := Some(refs[keyRef.name].value + {keyRef.key})];
            }
          }
        } else {
          refs := refs[keyRef.name := if optional then None else Some({keyRef.key})];
        }
      }
      assert env[..|env|] == env;
    }
  }

  lemma OneMoreNeed(m: RefMap, needs: seq<Need>, need: Need)
    ensures AbsorbAll(m, needs + [need]) == Absorb(AbsorbAll(m, needs), need)
  {
    assert (needs + [need])[..|needs|] == needs;
  }

  function SecretEnvFromNeed(e: EnvFromSource): Option<Need> {
    match e.secretRef
    case None => None
    case Some(r) => Some(Need(r.name, IsOptional(r.optional), None))
  }

  function SecretEnvNeed(e: EnvVar): Option<Need> {
    if e.valueFrom.None? || e.valueFrom.value.secretKeyRef.None? then None
    else
      var r := e.valueFrom.value.secretKeyRef.value;
      Some(Need(r.name, IsOptional(r.optional), Some(r.key)))
  }

  function SecretRefOf(e: EnvFromSource): Answer {
    match e.secretRef
    case None => Missing
    case Some(r) => There(r.optional, r.name)
  }

  function SecretKeyRefOf(e: EnvVar): KeyAnswer {
    if e.valueFrom.None? || e.valueFrom.value.secretKeyRef.None? then NoKey
    else
      var r := e.valueFrom.value.secretKeyRef.value;
      Key(r.optional, r.name, r.key)
  }

  /** The hand-written extractors are the generic ones with secret callbacks. */
  lemma DuplicatedCodeAgrees(envFrom: seq<EnvFromSource>, env: seq<EnvVar>)
    ensures AnswersOf(envFrom, SecretRefOf) == Collect(envFrom, SecretEnvFromNeed)
    ensures KeyAnswersOf(env, SecretKeyRefOf) == Collect(env, SecretEnvNeed)
    ensures forall e :: e in env ==> !SecretKeyRefOf(e).Panics?
  {
    CollectAgrees(envFrom, x => AnswerNeed(SecretRefOf(x)), SecretEnvFromNeed);
    CollectAgrees(env, e => EnvNeed(e, SecretKeyRefOf), SecretEnvNeed);
  }
}
