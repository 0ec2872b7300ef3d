/** `NormalizeLabel` on ASCII text, and the hardware labels built with it. */
module Text {
  import opened Kube
  import opened Labels

  predicate IsAscii(s: string) {
    forall c :: c in s ==> c as int < 128
  }

  /** Lower-casing of ASCII letters; all others stand for themselves. */
  function ToLower(c: char): (r: char) {
    if 'A' <= c <= 'Z' then (c as int + 32) as char else c
  }

  function ToLowerAll(s: string): (r: string)
    ensures |r| == |s| && forall i :: 0 <= i < |s| ==> r[i] == ToLower(s[i])
  {
    if s == [] then [] else [ToLower(s[0])] + ToLowerAll(s[1..])
  }

  predicate IsAlnum(c: char) {
    'a' <= c <= 'z' || '0' <= c <= '9'
  }

  /** The character class `[a-z0-9-_.]`. */
  predicate IsAllowed(c: char) {
    IsAlnum(c) || c == '-' || c == '_' || c == '.'
  }

  const UPPER := "ABCDEFGHIJKLMNOPQRSTUVWXYZ"
  const LOWER := "abcdefghijklmnopqrstuvwxyz"

  /** Lower-casing takes each capital to its small letter and leaves the rest alone. */
  lemma LowerCaseByLetter(i: nat, c: char)
    requires i < 26
    ensures ToLower(UPPER[i]) == LOWER[i] && ToLower(LOWER[i]) == LOWER[i]
    ensures !('A' <= c <= 'Z') ==> ToLower(c) == c
  {
    assert UPPER[i] as int == 65 + i && LOWER[i] as int == 97 + i;
  }

  /** The two classes, character by character. */
  lemma CharacterClasses(c: char)
    ensures IsAlnum(c) <==> c in LOWER || c in "0123456789"
    ensures IsAllowed(c) <==> c in LOWER || c in "0123456789" || c in "-_."
  {
    if 'a' <= c <= 'z' {
      assert LOWER[c as int - 97] == c;
    }
    if '0' <= c <= '9' {
      assert "0123456789"[c as int - 48] == c;
    }
  }

  function FirstAlnum(s: string): (i: int)
    ensures -1 <= i < |s|
    ensures i >= 0 ==> IsAlnum(s[i]) && forall j :: 0 <= j < i ==> !IsAlnum(s[j])
    ensures i < 0 ==> forall j :: 0 <= j < |s| ==> !IsAlnum(s[j])
  {
    if s == [] then -1
    else if IsAlnum(s[0]) then 0
    else
      var i := FirstAlnum(s[1..]);
      assert forall j :: 1 <= j < |s| ==> s[j] == s[1..][j - 1];
      if i < 0 then -1 else i + 1
  }

  function LastAlnum(s: string): (i: int)
    ensures -1 <= i < |s|
    ensures i >= 0 ==> IsAlnum(s[i]) && forall j :: i < j < |s| ==> !IsAlnum(s[j])
    ensures i < 0 ==> forall j :: 0 <= j < |s| ==> !IsAlnum(s[j])
  {
    if s == [] then -1
    else if IsAlnum(s[|s| - 1]) then |s| - 1
    else LastAlnum(s[..|s| - 1])
  }

  /** Deleting every maximal run of characters outside the class. */
  function Strip(s: string): (r: string)
    ensures forall c :: c in r ==> IsAllowed(c) && c in s
  {
    if s == [] then []
    else if IsAllowed(s[0]) then [s[0]] + Strip(s[1..])
    else Strip(s[1..])
  }

  /** The characters of `a` stand in `b` at these increasing positions. */
  ghost predicate StandsAt(at: seq<nat>, a: string, b: string) {
    && |at| == |a|
    && (forall i :: 0 <= i < |at| ==> at[i] < |b| && a[i] == b[at[i]])
    && forall i, j :: 0 <= i < j < |at| ==> at[i] < at[j]
  }

  /** `a` is what is left of `b` at exactly these positions. */
  ghost predicate LeftOf(a: string, b: string, kept: int -> bool) {
    exists at :: StandsAt(at, a, b) && forall i :: 0 <= i < |b| ==> (i in at <==> kept(i))
  }

  /** From the first to the last letter or digit. */
  function Trimmed(lower: string): (s: string)
    requires FirstAlnum(lower) >= 0
    ensures s != [] && IsAlnum(s[0]) && IsAlnum(s[|s| - 1])
  {
    lower[FirstAlnum(lower)..LastAlnum(lower) + 1]
  }

  function NormalizeLabel(name: string): Option<string> {
    var lower := ToLowerAll(name);
    if FirstAlnum(lower) < 0 then None else Some(Strip(Trimmed(lower)))
  }

  lemma {:induction false} StripEnds(s: string)
    requires s != [] && IsAlnum(s[|s| - 1])
    ensures Strip(s) != [] && Strip(s)[|Strip(s)| - 1] == s[|s| - 1]
  {
    if |s| > 1 {
      StripEnds(s[1..]);
    } else {
      assert s[1..] == [];
    }
  }

  lemma {:induction false} StripOfAllowed(s: string)
    requires forall c :: c in s ==> IsAllowed(c)
    ensures Strip(s) == s
  {
    if s != [] {
      assert s == [s[0]] + s[1..];
      forall c | c in s[1..] ensures c in s {}
      StripOfAllowed(s[1..]);
    }
  }

  function Shifted(at: seq<nat>, offset: nat): seq<nat> {
    seq(|at|, i requires 0 <= i < |at| => at[i] + offset)
  }

  lemma ShiftedHas(at: seq<nat>, offset: nat, i: int)
    ensures i in Shifted(at, offset) <==> i - offset in at
  {
    if i - offset in at {
      var j :| 0 <= j < |at| && at[j] == i - offset;
      assert Shifted(at, offset)[j] == i;
    }
  }

  lemma {:induction false} LowerCaseIsFixed(s: string)
    requires forall c :: c in s ==> IsAllowed(c)
    ensures ToLowerAll(s) == s
  {
    forall i | 0 <= i < |s| ensures ToLower(s[i]) == s[i] { assert s[i] in s; }
  }

  lemma NothingToKeep(name: string)
    ensures FirstAlnum(ToLowerAll(name)) < 0 <==> forall c :: c in name ==> !IsAlnum(ToLower(c))
  {
    var lower := ToLowerAll(name);
    var first := FirstAlnum(lower);
    if first < 0 {
      forall c | c in name ensures !IsAlnum(ToLower(c)) {
        var i :| 0 <= i < |name| && name[i] == c;
        assert lower[i] == ToLower(c);
      }
    } else {
      assert name[first] in name && lower[first] == ToLower(name[first]);
    }
  }

  lemma ShiftedStandsAt(at: seq<nat>, a: string, b: string, c: char)
    requires StandsAt(at, a, b)
    ensures StandsAt(Shifted(at, 1), a, [c] + b)
    ensures StandsAt([0] + Shifted(at, 1), [c] + a, [c] + b)
  {
  }

  /** Stripping keeps exactly the allowed characters. */
  lemma {:induction false} StripKeeps(s: string) returns (at: seq<nat>)
    ensures StandsAt(at, Strip(s), s)
    ensures forall i :: 0 <= i < |s| ==> (i in at <==> IsAllowed(s[i]))
  {
    at := [];
    if s != [] {
      var rest := StripKeeps(s[1..]);
      assert s == [s[0]] + s[1..];
      ShiftedStandsAt(rest, Strip(s[1..]), s[1..], s[0]);
      at := if IsAllowed(s[0]) then [0] + Shifted(rest, 1) else Shifted(rest, 1);
      forall i | 0 <= i < |s| ensures i in at <==> IsAllowed(s[i]) {
        ShiftedHas(rest, 1, i);
        assert i > 0 ==> s[i] == s[1..][i - 1];
      }
    }
  }

  lemma SliceStandsAt(at: seq<nat>, a: string, b: string, from: nat, to: nat)
    requires from <= to <= |b| && StandsAt(at, a, b[from..to])
    ensures StandsAt(Shifted(at, from), a, b)
  {
  }

  lemma StripOfSlice(b: string, from: nat, to: nat) returns (at: seq<nat>)
    requires from <= to <= |b|
    ensures StandsAt(at, Strip(b[from..to]), b)
    ensures forall i :: 0 <= i < |b| ==> (i in at <==> from <= i < to && IsAllowed(b[i]))
  {
    var inner := StripKeeps(b[from..to]);
    SliceStandsAt(inner, Strip(b[from..to]), b, from, to);
    at := Shifted(inner, from);
    forall i | 0 <= i < |b| ensures i in at <==> from <= i < to && IsAllowed(b[i]) {
      SliceKeeps(inner, b, from, to, i);
    }
  }

  lemma SliceKeeps(inner: seq<nat>, b: string, from: nat, to: nat, i: nat)
    requires from <= to <= |b| && i < |b| && forall p :: p in inner ==> p < to - from
    requires forall p :: 0 <= p < to - from ==> (p in inner <==> IsAllowed(b[from..to][p]))
    ensures i in Shifted(inner, from) <==> from <= i < to && IsAllowed(b[i])
  {
    ShiftedHas(inner, from, i);
    if from <= i < to {
      assert b[i] == b[from..to][i - from];
    }
  }

  lemma StripBothEnds(s: string)
    requires s != [] && IsAlnum(s[0]) && IsAlnum(s[|s| - 1])
    ensures var r := Strip(s);
      && r != [] && r[0] == s[0] && r[|r| - 1] == s[|s| - 1]
      && forall c :: c in r ==> IsAllowed(c)
  {
    StripEnds(s);
  }

  lemma StrippedIsFixed(r: string)
    requires r != [] && IsAlnum(r[0]) && IsAlnum(r[|r| - 1]) && forall c :: c in r ==> IsAllowed(c)
    ensures NormalizeLabel(r) == Some(r)
  {
    LowerCaseIsFixed(r);
    assert FirstAlnum(r) == 0 && LastAlnum(r) == |r| - 1;
    StripOfAllowed(r);
    assert r[0..|r|] == r;
  }

  /** Not empty, only allowed characters, a letter or digit at both ends, and left alone
      by normalising it again. */
  predicate IsNormal(r: string) {
    && r != [] && IsAlnum(r[0]) && IsAlnum(r[|r| - 1])
    && (forall c :: c in r ==> IsAllowed(c))
    && NormalizeLabel(r) == Some(r)
  }

  lemma StripIsNormal(s: string)
    requires s != [] && IsAlnum(s[0]) && IsAlnum(s[|s| - 1])
    ensures IsNormal(Strip(s))
  {
    StripBothEnds(s);
    StrippedIsFixed(Strip(s));
  }

  /** Allowed, with a letter or digit at or before it and one at or after it. */
  predicate Survives(lower: string, i: int) {
    && 0 <= i < |lower| && IsAllowed(lower[i])
    && (exists j :: 0 <= j <= i && IsAlnum(lower[j]))
    && (exists j :: i <= j < |lower| && IsAlnum(lower[j]))
  }

  lemma SurvivesBetween(lower: string, i: int)
    requires FirstAlnum(lower) >= 0 && 0 <= i < |lower|
    ensures Survives(lower, i) <==> FirstAlnum(lower) <= i < LastAlnum(lower) + 1 && IsAllowed(lower[i])
  {
    assert IsAlnum(lower[FirstAlnum(lower)]) && IsAlnum(lower[LastAlnum(lower)]);
  }

  lemma TrimmedIsPart(lower: string)
    requires FirstAlnum(lower) >= 0
    ensures LeftOf(Strip(Trimmed(lower)), lower, i => Survives(lower, i))
  {
    var at := StripOfSlice(lower, FirstAlnum(lower), LastAlnum(lower) + 1);
    KeptMeansLeft(at, Strip(Trimmed(lower)), lower);
  }

  lemma KeptMeansLeft(at: seq<nat>, r: string, lower: string)
    requires FirstAlnum(lower) >= 0 && StandsAt(at, r, lower)
    requires forall i :: 0 <= i < |lower| ==>
      (i in at <==> FirstAlnum(lower) <= i < LastAlnum(lower) + 1 && IsAllowed(lower[i]))
    ensures LeftOf(r, lower, i => Survives(lower, i))
  {
    forall i | 0 <= i < |lower| ensures i in at <==> Survives(lower, i) {
      SurvivesBetween(lower, i);
    }
  }

  /** Of ASCII text: normalising fails exactly when there is no letter or digit. Otherwise
      the result is normal, and it is the lower-cased name without its other characters and
      without what comes before the first or after the last letter or digit. */
  lemma NormalForm(name: string)
    requires IsAscii(name)
    ensures NormalizeLabel(name).None? <==> forall c :: c in name ==> !IsAlnum(ToLower(c))
    ensures NormalizeLabel(name).Some? ==>
      var r, lower := NormalizeLabel(name).value, ToLowerAll(name);
      IsNormal(r) && LeftOf(r, lower, i => Survives(lower, i))
  {
    NothingToKeep(name);
    if NormalizeLabel(name).Some? {
      StripIsNormal(Trimmed(ToLowerAll(name)));
      TrimmedIsPart(ToLowerAll(name));
    }
  }

  // ---------------------------------------------------------- hardware labels

  datatype Cpu = Cpu(architecture: string, model: string)
  datatype Vendor = Vendor(manufacturer: string, product: string, serial: string)
  datatype HardwareInfo = HardwareInfo(hostname: string, cpu: Option<Cpu>, vendor: Option<Vendor>)

  const HARDWARE_KEYS := [
    "device.hostname", "device.cpu-architecture", "device.cpu-model",
    "device.system-manufacturer", "device.system-product", "device.system-serial"]

  /** Hardware labels never meet the placement protocol. */
  lemma HardwareKeysArePlain(k: string)
    requires k in HARDWARE_KEYS
    ensures !IsWorkloadLabel(k) && !IsSelectorLabel(k) && '/' !in k
    ensures k != DEVICE_NAME_LABEL
  {
    assert k[0] == 'd' && WORKLOAD_PREFIX[0] == 'w' && SELECTOR_PREFIX[0] == 's';
  }

  function WithText(labels: LabelMap, key: string, text: string): (r: LabelMap)
    ensures r.Keys <= labels.Keys + {key}
  {
    match NormalizeLabel(text)
    case None => labels
    case Some(value) => labels[key := value]
  }

  function MapLabels(hardware: Option<HardwareInfo>): (r: LabelMap)
    ensures forall k :: k in r ==> k in HARDWARE_KEYS
  {
    match hardware
    case None => map[]
    case Some(h) => FieldLabels(h, HARDWARE_KEYS)
  }

  function FieldLabels(h: HardwareInfo, keys: seq<string>): (r: LabelMap)
    requires |keys| == 6
    ensures forall k :: k in r ==> k in keys
  {
    var named := WithText(map[], keys[0], h.hostname);
    var computed := match h.cpu
      case None => named
      case Some(cpu) => WithText(WithText(named, keys[1], cpu.architecture), keys[2], cpu.model);
    match h.vendor
    case None => computed
    case Some(v) =>
      WithText(WithText(WithText(computed, keys[3], v.manufacturer), keys[4], v.product), keys[5], v.serial)
  }

  /** The label is the normal form of the text, and missing if there is none. */
  predicate LabelOf(labels: LabelMap, key: string, text: Option<string>) {
    && (key in labels <==> text.Some? && NormalizeLabel(text.value).Some?)
    && (key in labels ==> Some(labels[key]) == NormalizeLabel(text.value))
  }

  lemma WithTextLabels(labels: LabelMap, key: string, text: string)
    requires key !in labels
    ensures LabelOf(WithText(labels, key, text), key, Some(text))
    ensures forall k, t :: k != key ==> (LabelOf(WithText(labels, key, text), k, t) <==> LabelOf(labels, k, t))
  {
  }

  lemma FieldLabelsOf(h: HardwareInfo, keys: seq<string>)
    requires |keys| == 6 && forall i, j :: 0 <= i < j < 6 ==> keys[i] != keys[j]
    ensures var labels := FieldLabels(h, keys);
      && LabelOf(labels, keys[0], Some(h.hostname))
      && LabelOf(labels, keys[1], if h.cpu.Some? then Some(h.cpu.value.architecture) else None)
      && LabelOf(labels, keys[2], if h.cpu.Some? then Some(h.cpu.value.model) else None)
      && LabelOf(labels, keys[3], if h.vendor.Some? then Some(h.vendor.value.manufacturer) else None)
      && LabelOf(labels, keys[4], if h.vendor.Some? then Some(h.vendor.value.product) else None)
      && LabelOf(labels, keys[5], if h.vendor.Some? then Some(h.vendor.value.serial) else None)
  {
    var named := WithText(map[], keys[0], h.hostname);
    WithTextLabels(map[], keys[0], h.hostname);
    var computed := named;
    if h.cpu.Some? {
      WithTextLabels(named, keys[1], h.cpu.value.architecture);
      computed := WithText(named, keys[1], h.cpu.value.architecture);
      WithTextLabels(computed, keys[2], h.cpu.value.model);
      computed := WithText(computed, keys[2], h.cpu.value.model);
    }
    if h.vendor.Some? {
      var v := h.vendor.value;
      WithTextLabels(computed, keys[3], v.manufacturer);
      var made := WithText(computed, keys[3], v.manufacturer);
      WithTextLabels(made, keys[4], v.product);
      WithTextLabels(WithText(made, keys[4], v.product), keys[5], v.serial);
    }
  }

  lemma KeysDiffer()
    ensures forall i, j :: 0 <= i < j < 6 ==> HARDWARE_KEYS[i] != HARDWARE_KEYS[j]
  {
    assert |HARDWARE_KEYS[0]| == 15 && |HARDWARE_KEYS[1]| == 23 && |HARDWARE_KEYS[2]| == 16;
    assert |HARDWARE_KEYS[3]| == 26 && |HARDWARE_KEYS[4]| == 21 && |HARDWARE_KEYS[5]| == 20;
  }

  /** Each hardware label comes from its own field. */
  lemma LabelsOfFields(hardware: Option<HardwareInfo>)
    ensures hardware.None? ==> MapLabels(hardware) == map[]
    ensures hardware.Some? ==>
      var h, labels := hardware.value, MapLabels(hardware);
      && LabelOf(labels, "device.hostname", Some(h.hostname))
      && LabelOf(labels, "device.cpu-architecture", if h.cpu.Some? then Some(h.cpu.value.architecture) else None)
      && LabelOf(labels, "device.cpu-model", if h.cpu.Some? then Some(h.cpu.value.model) else None)
      && LabelOf(labels, "device.system-manufacturer",
                 if h.vendor.Some? then Some(h.vendor.value.manufacturer) else None)
      && LabelOf(labels, "device.system-product", if h.vendor.Some? then Some(h.vendor.value.product) else None)
      && LabelOf(labels, "device.system-serial", if h.vendor.Some? then Some(h.vendor.value.serial) else None)
  {
    if hardware.Some? {
      KeysDiffer();
      FieldLabelsOf(hardware.value, HARDWARE_KEYS);
    }
  }
}
