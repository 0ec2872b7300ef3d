/** The parts of the Kubernetes API that the operator relies on: label selectors
    and JSON merge patches of label maps. */
module Kube {

  type Name = string
  type LabelMap = map<string, string>

  datatype Option<+T> = None | Some(value: T)

  // ---------------------------------------------------------------- selectors

  datatype Operator = In | NotIn | Exists | DoesNotExist | Unknown

  datatype Requirement = Requirement(key: string, op: Operator, values: seq<string>)

  datatype LabelSelector = LabelSelector(matchLabels: LabelMap, matchExpressions: seq<Requirement>)

  /** Two slashes make an invalid label key. */
  predicate InvalidKey(l: string) {
    exists i, j :: 0 <= i < j < |l| && l[i] == '/' && l[j] == '/'
  }

  predicate ValidRequirement(r: Requirement) {
    !InvalidKey(r.key) &&
    match r.op
    case In => r.values != []
    case NotIn => r.values != []
    case Exists => r.values == []
    case DoesNotExist => r.values == []
    case Unknown => false
  }

  /** When a selector converts without an error. */
  predicate ValidSelector(s: LabelSelector) {
    && (forall k :: k in s.matchLabels ==> !InvalidKey(k))
    && (forall r :: r in s.matchExpressions ==> ValidRequirement(r))
  }

  predicate RequirementHolds(r: Requirement, labels: LabelMap) {
    match r.op
    case In => r.key in labels && labels[r.key] in r.values
    case NotIn => r.key in labels ==> labels[r.key] !in r.values
    case Exists => r.key in labels
    case DoesNotExist => r.key !in labels
    case Unknown => false
  }

  /** A selector is a conjunction; the empty one matches everything. */
  predicate Matches(s: LabelSelector, labels: LabelMap) {
    && (forall k :: k in s.matchLabels ==> k in labels && labels[k] == s.matchLabels[k])
    && (forall r :: r in s.matchExpressions ==> RequirementHolds(r, labels))
  }

  /** Match labels alone select the label maps that they are part of. */
  lemma MatchLabelsArePart(m: LabelMap, labels: LabelMap)
    ensures Matches(LabelSelector(m, []), labels) <==> labels + m == labels
  {
    if labels + m == labels {
      forall k | k in m ensures k in labels && labels[k] == m[k] {
        assert k in labels + m && (labels + m)[k] == m[k];
      }
    }
  }

  /** The operators, on any labels: `In` offers match labels to choose from, `Exists` any
      value, and the other two are their negations. */
  lemma OperatorLaws(key: string, values: seq<string>, labels: LabelMap)
    ensures RequirementHolds(Requirement(key, In, values), labels) <==>
            exists v :: v in values && Matches(LabelSelector(map[key := v], []), labels)
    ensures RequirementHolds(Requirement(key, NotIn, values), labels) <==>
            !RequirementHolds(Requirement(key, In, values), labels)
    ensures RequirementHolds(Requirement(key, Exists, values), labels) <==>
            exists v :: Matches(LabelSelector(map[key := v], []), labels)
    ensures RequirementHolds(Requirement(key, DoesNotExist, values), labels) <==>
            !RequirementHolds(Requirement(key, Exists, values), labels)
  {
    if key in labels {
      assert Matches(LabelSelector(map[key := labels[key]], []), labels);
    }
    forall v | Matches(LabelSelector(map[key := v], []), labels) ensures key in labels && labels[key] == v {
      assert key in map[key := v];
    }
  }

  /** Selectors that agree on their match labels can be joined, and then both must match;
      no labels match two that disagree. */
  lemma JoinedSelectors(s: LabelSelector, t: LabelSelector, labels: LabelMap)
    ensures s.matchLabels + t.matchLabels == t.matchLabels + s.matchLabels ==>
      (Matches(LabelSelector(s.matchLabels + t.matchLabels, s.matchExpressions + t.matchExpressions), labels) <==>
         Matches(s, labels) && Matches(t, labels))
    ensures s.matchLabels + t.matchLabels != t.matchLabels + s.matchLabels ==>
      !(Matches(s, labels) && Matches(t, labels))
  {
    var m, rs := s.matchLabels + t.matchLabels, s.matchExpressions + t.matchExpressions;
    if m == t.matchLabels + s.matchLabels {
      forall k | k in s.matchLabels ensures k in m && m[k] == s.matchLabels[k] {
        assert m[k] == (t.matchLabels + s.matchLabels)[k];
      }
      assert forall r :: r in rs <==> r in s.matchExpressions || r in t.matchExpressions;
    }
    if Matches(s, labels) && Matches(t, labels) {
      MatchingAgree(s, t, labels);
    }
  }

  lemma MatchingAgree(s: LabelSelector, t: LabelSelector, labels: LabelMap)
    requires Matches(s, labels) && Matches(t, labels)
    ensures s.matchLabels + t.matchLabels == t.matchLabels + s.matchLabels
  {
    var m, m' := s.matchLabels + t.matchLabels, t.matchLabels + s.matchLabels;
    forall k | k in m ensures m[k] == labels[k] && m'[k] == labels[k] {}
  }

  /** One requirement is a selector of its own, which says no more. */
  lemma SingleRequirement(r: Requirement, labels: LabelMap)
    ensures Matches(LabelSelector(map[], [r]), labels) <==> RequirementHolds(r, labels)
    ensures Matches(LabelSelector(map[], []), labels)
  {
    assert r in [r];
  }

  /** A selector is refused for a key with two slashes, for an operator the API does not
      have, for a set operator without values and for an existence operator with values. */
  lemma ValidSelectorLaws(s: LabelSelector)
    ensures !ValidSelector(s) <==>
      (exists k, i, j :: (k in s.matchLabels || exists r :: r in s.matchExpressions && r.key == k)
                         && 0 <= i < j < |k| && k[i] == '/' == k[j]) ||
      exists r :: r in s.matchExpressions &&
        (r.op.Unknown? || (r.values == [] && (r.op.In? || r.op.NotIn?)) ||
         (r.values != [] && (r.op.Exists? || r.op.DoesNotExist?)))
  {
  }

  function SelectorKeys(s: LabelSelector): set<string> {
    s.matchLabels.Keys + set r | r in s.matchExpressions :: r.key
  }

  predicate AgreeOn(keys: set<string>, a: LabelMap, b: LabelMap) {
    forall k :: k in keys ==> (k in a <==> k in b) && (k in a ==> a[k] == b[k])
  }

  /** Matching looks at nothing but the labels the selector names. */
  lemma MatchesDependsOnKeys(s: LabelSelector, a: LabelMap, b: LabelMap)
    requires AgreeOn(SelectorKeys(s), a, b)
    ensures Matches(s, a) <==> Matches(s, b)
  {
    forall r | r in s.matchExpressions
      ensures RequirementHolds(r, a) <==> RequirementHolds(r, b)
    {
      assert r.key in SelectorKeys(s);
    }
    forall k | k in s.matchLabels ensures k in SelectorKeys(s) {}
  }

  // ------------------------------------- merge patches (section 2 of RFC 7396)

  /** `None` is JSON null: the member is removed from the target. */
  type LabelPatch = map<string, Option<string>>

  function Diff(base: LabelMap, wanted: LabelMap): LabelPatch {
    map k | k in base.Keys + wanted.Keys && !(k in base && k in wanted && base[k] == wanted[k])
      :: if k in wanted then Some(wanted[k]) else None
  }

  function Apply(target: LabelMap, patch: LabelPatch): LabelMap {
    map k | k in target.Keys + patch.Keys && (k in patch ==> patch[k].Some?)
      :: if k in patch then patch[k].value else target[k]
  }

  /** Sending the difference turns the object it was taken from into the wanted one. */
  lemma DiffThenApply(base: LabelMap, wanted: LabelMap)
    ensures Apply(base, Diff(base, wanted)) == wanted
  {
    var result := Apply(base, Diff(base, wanted));
    forall k ensures k in result <==> k in wanted {}
  }

  /** Patches of different keys commute, both take effect, nothing else changes. */
  lemma DisjointPatchesCommute(target: LabelMap, p: LabelPatch, q: LabelPatch)
    requires p.Keys !! q.Keys
    ensures Apply(Apply(target, p), q) == Apply(Apply(target, q), p)
    ensures AgreeOn(p.Keys, Apply(Apply(target, p), q), Apply(target, p))
    ensures AgreeOn(q.Keys, Apply(Apply(target, p), q), Apply(target, q))
    ensures forall k :: k !in p && k !in q ==> AgreeOn({k}, Apply(Apply(target, p), q), target)
  {
    var pq := Apply(Apply(target, p), q);
    var qp := Apply(Apply(target, q), p);
    forall k ensures (k in pq <==> k in qp) && (k in pq ==> pq[k] == qp[k]) {}
  }
}
