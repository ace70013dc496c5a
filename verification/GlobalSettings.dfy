/**
  The global-settings parameter of pkg/service-init/component/yunoinconf.go: the
  default features of a product version, and their merge with the value an
  earlier run or a user has stored.
 */
module GlobalSettings {
  import opened Wrappers
  import opened StringOrder

  type Key = string

  const VOLCENGINE := "volcengine"
  const ORACLE_CLOUD := "oraclecloud"
  const KSYUN := "ksyun"
  const VMWARE := "vmware"
  const PROXMOX := "proxmox"

  /** `GlobalSettingsValue`; the dictionary is carried along unread. */
  datatype Settings = Settings(
    dictionary: Option<string>,
    setupKeys: seq<Key>,
    version: string,
    oneStack: bool,
    productVersion: string,
    userKeys: map<Key, bool>)

  /** What one `SystemInit` reads from the cluster object. */
  datatype Input = Input(productVersion: string, enterprise: bool)

  const CMP_KEYS: seq<Key> :=
    ["public", "private", "storage", "aliyun", "aws", "azure", "ctyun", "google", "huawei", "qcloud", VOLCENGINE,
     VMWARE, "openstack", "cloudpods", "nutanix", "s3", "ceph", "xsky", PROXMOX, ORACLE_CLOUD, KSYUN]
  const EDGE_KEYS: seq<Key> := ["onecloud", "onestack", "baremetal", "lb", VMWARE, PROXMOX]
  const ENTERPRISE_CLOUDS: seq<Key> := ["ucloud", "ecloud", "jdcloud", "zstack", "hcso", "bingocloud", "incloudsphere"]

  function ProductKeys(productVersion: string): seq<Key> {
    match productVersion
    case "CMP" => CMP_KEYS
    case "Edge" => EDGE_KEYS
    case "LightEdge" => ["onecloud", "onestack"]
    case "Baremetal" => ["onecloud", "baremetal"]
    case "AI" => ["onecloud", "onestack", "pod", "ai"]
    case _ => CMP_KEYS + EDGE_KEYS
  }

  function EnterpriseKeys(productVersion: string): seq<Key> {
    (if productVersion in ["Edge", "LightEdge"] then [] else ENTERPRISE_CLOUDS)
    + (if productVersion == "LightEdge" then [] else ["k8s", "bill"])
  }

  /** The features that a fresh installation sets up. */
  function DefaultKeys(i: Input): seq<Key> {
    ProductKeys(i.productVersion) + (["monitor", "auth"]
      + ((if i.enterprise then EnterpriseKeys(i.productVersion) else []) + ["default"]))
  }

  /** Features that are switched on when a value without user choices is upgraded. */
  function NewFeatures(productVersion: string): set<Key> {
    if productVersion in ["CMP", "FullStack"] then {VOLCENGINE, ORACLE_CLOUD, KSYUN}
    else if productVersion == "Edge" then {VMWARE, PROXMOX}
    else {}
  }

  /** New features are defaults of the same product version, and the enterprise edition only adds to the defaults. */
  lemma DefaultsCover(i: Input)
    ensures NewFeatures(i.productVersion) <= Elements(DefaultKeys(i))
    ensures Elements(DefaultKeys(i.(enterprise := false))) <= Elements(DefaultKeys(i.(enterprise := true)))
  {
    var own := ProductKeys(i.productVersion);
    assert NewFeatures(i.productVersion) <= Elements(own) by {
      assert CMP_KEYS[10] == VOLCENGINE && CMP_KEYS[19] == ORACLE_CLOUD && CMP_KEYS[20] == KSYUN;
      assert EDGE_KEYS[4] == VMWARE && EDGE_KEYS[5] == PROXMOX;
      assert Elements(CMP_KEYS) <= Elements(CMP_KEYS + EDGE_KEYS);
    }
    hide ProductKeys, EnterpriseKeys, NewFeatures;
    assert forall k | k in own :: k in DefaultKeys(i);
  }

  /** The full stack has every feature of the other product versions but those of AI, in either edition. */
  lemma FullStackCovers(i: Input)
    requires i.productVersion in ["CMP", "Edge", "LightEdge", "Baremetal"]
    ensures Elements(DefaultKeys(i)) <= Elements(DefaultKeys(i.(productVersion := "FullStack")))
  {
    var own, full := ProductKeys(i.productVersion), ProductKeys("FullStack");
    assert Elements(own) <= Elements(full) by {
      assert full == CMP_KEYS + EDGE_KEYS;
      assert EDGE_KEYS[0] == "onecloud" && EDGE_KEYS[1] == "onestack" && EDGE_KEYS[2] == "baremetal";
    }
    assert Elements(EnterpriseKeys(i.productVersion)) <= Elements(EnterpriseKeys("FullStack"));
    hide ProductKeys, EnterpriseKeys;
    forall k | k in DefaultKeys(i)
      ensures k in DefaultKeys(i.(productVersion := "FullStack"))
    {
      assert k in own ==> k in Elements(own);
      assert k in EnterpriseKeys(i.productVersion) ==> k in Elements(EnterpriseKeys(i.productVersion));
    }
  }

  /** The enterprise edition adds nothing to LightEdge, Kubernetes and billing to Edge, and clouds as well elsewhere. */
  lemma EnterpriseAdds(i: Input)
    ensures Elements(DefaultKeys(i.(enterprise := true)))
         == Elements(DefaultKeys(i.(enterprise := false)))
            + (if i.productVersion in ["Edge", "LightEdge"] then {} else Elements(ENTERPRISE_CLOUDS))
            + (if i.productVersion == "LightEdge" then {} else {"k8s", "bill"})
  {
    EnterpriseElements(i.productVersion);
    hide ProductKeys, EnterpriseKeys, ENTERPRISE_CLOUDS;
    var own, more := ProductKeys(i.productVersion), EnterpriseKeys(i.productVersion);
    var base := own + (["monitor", "auth"] + ([] + ["default"]));
    assert forall k :: k in DefaultKeys(i.(enterprise := false)) <==> k in base;
    assert forall k :: k in DefaultKeys(i.(enterprise := true)) <==> k in base || k in more;
    assert Elements(DefaultKeys(i.(enterprise := true))) == Elements(base) + Elements(more);
    assert Elements(DefaultKeys(i.(enterprise := false))) == Elements(base);
  }

  lemma EnterpriseElements(productVersion: string)
    ensures Elements(EnterpriseKeys(productVersion))
         == (if productVersion in ["Edge", "LightEdge"] then {} else Elements(ENTERPRISE_CLOUDS))
            + (if productVersion == "LightEdge" then {} else {"k8s", "bill"})
  {
    hide ENTERPRISE_CLOUDS;
  }

  /** `NewGlobalSettingsValue` for a cluster: every default feature is on. */
  function Defaults(i: Input): Settings {
    var keys := DefaultKeys(i);
    Settings(None, keys, "3.0", i.productVersion == "CMP", i.productVersion, map k | k in keys :: true)
  }

  function On(userKeys: map<Key, bool>): set<Key> {
    set k | k in userKeys && userKeys[k]
  }

  /** `Equal`: neither the user keys nor the dictionary are compared. */
  predicate SameSetup(a: Settings, b: Settings) {
    Elements(a.setupKeys) == Elements(b.setupKeys) && a.version == b.version && a.oneStack == b.oneStack
    && a.productVersion == b.productVersion
  }

  /** A stored value from before user keys were recorded. */
  predicate Legacy(was: Settings) {
    was.userKeys == map[]
  }

  function MergedDomain(v: Settings, was: Settings): set<Key> {
    v.userKeys.Keys + Elements(was.setupKeys) + was.userKeys.Keys
    + if Legacy(was) then Elements(v.setupKeys) + NewFeatures(v.productVersion) else {}
  }

  /** Whether feature `k` is on after the merge; the first rule that applies decides. */
  predicate MergedValue(v: Settings, was: Settings, k: Key)
    requires k in MergedDomain(v, was)
  {
    if k in was.userKeys then was.userKeys[k]
    else if Legacy(was) && k in NewFeatures(v.productVersion) then true
    else if k in was.setupKeys then true
    else if Legacy(was) && k in v.setupKeys then false
    else v.userKeys[k]
  }

  function MergedKeys(v: Settings, was: Settings): map<Key, bool> {
    map k | k in MergedDomain(v, was) :: MergedValue(v, was, k)
  }

  ghost function Merge(v: Settings, was: Settings): Settings {
    v.(dictionary := was.dictionary, setupKeys := Sorted(On(MergedKeys(v, was))), userKeys := MergedKeys(v, was))
  }

  function Set(m: map<Key, bool>, keys: set<Key>, on: bool): map<Key, bool> {
    m + map k | k in keys :: on
  }

  lemma SetOne(m: map<Key, bool>, keys: set<Key>, k: Key, on: bool)
    ensures Set(m, keys, on)[k := on] == Set(m, keys + {k}, on)
  {
  }

  lemma SetNone(m: map<Key, bool>, on: bool)
    ensures Set(m, {}, on) == m
  {
  }

  /** The overwrites of the merge, in the order in which they happen. */
  function Overwrites(v: Settings, was: Settings): map<Key, bool> {
    var kept := Set(v.userKeys, Elements(was.setupKeys), true);
    var upgraded := if Legacy(was)
      then Set(Set(kept, Elements(v.setupKeys) - Elements(was.setupKeys), false), NewFeatures(v.productVersion), true)
      else kept;
    upgraded + was.userKeys
  }

  lemma SetThrice(m: map<Key, bool>, open: set<Key>, close: set<Key>, features: set<Key>)
    ensures Set(Set(Set(m, open, true), close - open, false), features, true)
         == map k | k in m.Keys + open + close + features ::
              if k in features || k in open then true else if k in close then false else m[k]
  {
    var r := Set(Set(Set(m, open, true), close - open, false), features, true);
    assert r.Keys == m.Keys + open + close + features;
  }

  lemma OverwritesLegacy(v: Settings, was: Settings)
    requires Legacy(was)
    ensures Overwrites(v, was) == MergedKeys(v, was)
  {
    hide NewFeatures, Set;
    SetThrice(v.userKeys, Elements(was.setupKeys), Elements(v.setupKeys), NewFeatures(v.productVersion));
  }

  lemma OverwritesWithChoices(v: Settings, was: Settings)
    requires !Legacy(was)
    ensures Overwrites(v, was) == MergedKeys(v, was)
  {
    hide NewFeatures;
    assert Overwrites(v, was).Keys == MergedDomain(v, was);
  }

  /** Later overwrites win: the rules of `MergedValue`, read from the last one back. */
  lemma OverwritesMerge(v: Settings, was: Settings)
    ensures Overwrites(v, was) == MergedKeys(v, was)
  {
    hide Overwrites, MergedKeys;
    if Legacy(was) {
      OverwritesLegacy(v, was);
    } else {
      OverwritesWithChoices(v, was);
    }
  }

  class GlobalSettingsValue {
    var dictionary: Option<string>
    var setupKeys: seq<Key>
    var version: string
    var oneStack: bool
    var productVersion: string
    var userKeys: map<Key, bool>

    function Value(): Settings
      reads this
    {
      Settings(dictionary, setupKeys, version, oneStack, productVersion, userKeys)
    }

    constructor (i: Input)
      ensures Value() == Defaults(i)
    {
      dictionary, setupKeys, version := None, DefaultKeys(i), "3.0";
      oneStack, productVersion, userKeys := i.productVersion == "CMP", i.productVersion, map[];
      new;
      hide DefaultKeys;
      SwitchAll(setupKeys, true);
    }

    method SwitchAll(keys: seq<Key>, on: bool)
      modifies this`userKeys
      ensures userKeys == Set(old(userKeys), Elements(keys), on)
    {
      SetNone(userKeys, on);
      hide Set;
      assert Elements(keys[..0]) == {};
      for n := 0 to |keys|
        invariant userKeys == Set(old(userKeys), Elements(keys[..n]), on)
      {
        ElementsUpTo(keys, n);
        SetOne(old(userKeys), Elements(keys[..n]), keys[n], on);
        userKeys := userKeys[keys[n] := on];
      }
      assert keys[..|keys|] == keys;
    }

    /** Switches off what the stored value did not have. */
    method SwitchOffNew(stored: set<Key>)
      modifies this`userKeys
      ensures userKeys == Set(old(userKeys), Elements(setupKeys) - stored, false)
    {
      SetNone(userKeys, false);
      hide Set;
      ghost var off: set<Key> := {};
      for n := 0 to |setupKeys|
        invariant off == Elements(setupKeys[..n]) - stored
        invariant userKeys == Set(old(userKeys), off, false)
      {
        ElementsUpTo(setupKeys, n);
        if setupKeys[n] !in stored {
          SetOne(old(userKeys), off, setupKeys[n], false);
          off := off + {setupKeys[n]};
          userKeys := userKeys[setupKeys[n] := false];
        }
      }
      assert setupKeys[..|setupKeys|] == setupKeys;
    }

    method SwitchFeatures(features: set<Key>)
      modifies this`userKeys
      ensures userKeys == Set(old(userKeys), features, true)
    {
      SetNone(userKeys, true);
      hide Set;
      var left := features;
      assert features - left == {} && features - {} == features;
      while left != {}
        invariant left <= features
        invariant userKeys == Set(old(userKeys), features - left, true)
      {
        var k :| k in left;
        SetOne(old(userKeys), features - left, k, true);
        assert features - left + {k} == features - (left - {k});
        left := left - {k};
        userKeys := userKeys[k := true];
      }
    }

    /** Applies the user's own choices, in the order of the map's iteration. */
    method RestoreChoices(chosen: map<Key, bool>)
      modifies this`userKeys
      ensures userKeys == old(userKeys) + chosen
    {
      var left := chosen.Keys;
      while left != {}
        invariant left <= chosen.Keys
        invariant userKeys == old(userKeys) + map k | k in chosen.Keys - left :: chosen[k]
      {
        var k :| k in left;
        left := left - {k};
        userKeys := userKeys[k := chosen[k]];
      }
    }

    /** The keys that are on, sorted. */
    method CollectKeys()
      modifies this`setupKeys
      ensures Ascending(setupKeys) && Elements(setupKeys) == On(userKeys)
    {
      setupKeys := [];
      var left := userKeys.Keys;
      while left != {}
        invariant left <= userKeys.Keys && Ascending(setupKeys)
        invariant Elements(setupKeys) == On(userKeys) - left
      {
        var k :| k in left;
        left := left - {k};
        if userKeys[k] {
          assert k !in Elements(setupKeys);
          setupKeys := Insert(setupKeys, k);
        }
      }
    }

    method CalculateSetupKeys(stored: Settings)
      modifies this
      ensures Value() == Merge(old(Value()), stored)
    {
      hide MergedKeys, Set, NewFeatures, On;
      ghost var v := Value();
      SwitchAll(stored.setupKeys, true);
      dictionary := stored.dictionary;
      if stored.userKeys == map[] {
        SwitchOffNew(Elements(stored.setupKeys));
        var features := NewFeatures(productVersion);
        SwitchFeatures(features);
      }
      RestoreChoices(stored.userKeys);
      assert userKeys == Overwrites(v, stored);
      OverwritesMerge(v, stored);
      CollectKeys();
      AscendingUnique(setupKeys, Sorted(On(userKeys)));
    }
  }

  /** What is stored after one `SystemInit`, whose create or update call ends with outcome `o`. */
  ghost function Init(cur: Option<Settings>, i: Input, o: Outcome): Option<Settings> {
    if !Writes(cur, i) || !Applied(o) then cur
    else match cur
      case None => Some(Defaults(i))
      case Some(was) => Some(Merge(Defaults(i), was))
  }

  ghost predicate Writes(cur: Option<Settings>, i: Input) {
    cur.None? || !SameSetup(cur.value, Merge(Defaults(i), cur.value))
  }

  class ParameterStore {
    var current: Option<Settings>

    method SystemInit(i: Input, o: Outcome) returns (ok: bool)
      modifies this
      ensures current == Init(old(current), i, o)
      ensures ok == (!Writes(old(current), i) || o.Done?)
    {
      hide Merge, Defaults;
      var input := new GlobalSettingsValue(i);
      if current.Some? {
        input.CalculateSetupKeys(current.value);
        if SameSetup(current.value, input.Value()) {
          return true;
        }
      }
      if Applied(o) {
        current := Some(input.Value());
      }
      ok := o.Done?;
    }
  }

  /* ---------- what the merge promises ---------- */

  /** Keys are sorted, unrepeated and exactly the ones switched on, whatever was stored before. */
  lemma MergedSetupKeys(v: Settings, was: Settings)
    ensures Ascending(Merge(v, was).setupKeys)
    ensures Elements(Merge(v, was).setupKeys) == On(Merge(v, was).userKeys)
  {
  }

  /** A value without user choices keeps its features and gets the new ones of its product version, nothing else. */
  lemma LegacyUpgrade(i: Input, was: Settings)
    requires Legacy(was)
    ensures Elements(Merge(Defaults(i), was).setupKeys)
         == Elements(was.setupKeys) + NewFeatures(i.productVersion)
    ensures NewFeatures(i.productVersion)
         == match i.productVersion
            case "CMP" => {"volcengine", "oraclecloud", "ksyun"}
            case "FullStack" => {"volcengine", "oraclecloud", "ksyun"}
            case "Edge" => {"vmware", "proxmox"}
            case _ => {}
  {
    assert i.productVersion in ["CMP", "FullStack"] <==> i.productVersion == "CMP" || i.productVersion == "FullStack";
    hide NewFeatures, DefaultKeys;
    var v := Defaults(i);
    var merged := MergedKeys(v, was);
    assert v.userKeys.Keys == Elements(v.setupKeys);
    assert On(merged) == Elements(was.setupKeys) + NewFeatures(i.productVersion);
  }

  /** Written by the operator: it always records choices, and sets up exactly the keys that are on. */
  predicate OperatorWritten(s: Settings) {
    s.userKeys != map[] && Elements(s.setupKeys) == On(s.userKeys)
  }

  /** What is written is of the operator's own form, from any stored value. */
  lemma InitWritesOwnForm(cur: Option<Settings>, i: Input, o: Outcome)
    requires Writes(cur, i) && Applied(o)
    ensures Init(cur, i, o).Some? && OperatorWritten(Init(cur, i, o).value)
  {
    var v := Defaults(i);
    assert "default" in DefaultKeys(i);
    assert "default" in v.userKeys;
    hide DefaultKeys;
    if cur.Some? {
      assert "default" in MergedKeys(v, cur.value);
    } else {
      assert On(v.userKeys) == Elements(v.setupKeys);
    }
  }

  /** With choices recorded, a run adds the defaults that were never offered before, switched on. */
  lemma ChoicesExtended(i: Input, was: Settings)
    requires OperatorWritten(was)
    ensures Merge(Defaults(i), was).userKeys
         == was.userKeys + map k | k in Elements(DefaultKeys(i)) - was.userKeys.Keys :: true
  {
    hide DefaultKeys;
    forall k | k in was.setupKeys
      ensures k in was.userKeys
    {
      assert k in Elements(was.setupKeys);
    }
  }

  /** A second run with the same inputs, after a first one that wrote or had nothing to write, writes nothing. */
  lemma SecondRunIsQuiet(cur: Option<Settings>, i: Input, o: Outcome)
    requires Applied(o)
    ensures !Writes(Init(cur, i, o), i)
  {
    hide DefaultKeys, Merge;
    if Writes(cur, i) {
      InitWritesOwnForm(cur, i, o);
      var s := Init(cur, i, o).value;
      WrittenOffers(cur, i, o);
      SameSetupAgain(s, i);
    }
  }

  /** What is written has an entry for every default, and the version fields of the run's inputs. */
  lemma WrittenOffers(cur: Option<Settings>, i: Input, o: Outcome)
    requires Writes(cur, i) && Applied(o)
    ensures var s := Init(cur, i, o).value;
      Elements(DefaultKeys(i)) <= s.userKeys.Keys && s.version == Defaults(i).version
      && s.oneStack == Defaults(i).oneStack && s.productVersion == i.productVersion
  {
    hide DefaultKeys;
    if cur.Some? {
      assert Elements(DefaultKeys(i)) <= MergedDomain(Defaults(i), cur.value);
    }
  }

  lemma SameSetupAgain(s: Settings, i: Input)
    requires OperatorWritten(s) && Elements(DefaultKeys(i)) <= s.userKeys.Keys
    requires s.version == Defaults(i).version && s.oneStack == Defaults(i).oneStack
    requires s.productVersion == i.productVersion
    ensures SameSetup(s, Merge(Defaults(i), s))
  {
    hide DefaultKeys;
    ChoicesExtended(i, s);
    assert Merge(Defaults(i), s).userKeys == s.userKeys;
    MergedSetupKeys(Defaults(i), s);
  }

  /** After a run that took effect the stored value carries that run's product version, whether keys are new or not. */
  lemma InitStoresInputs(cur: Option<Settings>, i: Input, o: Outcome)
    requires Applied(o)
    ensures var s := Init(cur, i, o);
      && s.Some? && s.value.productVersion == i.productVersion && s.value.version == "3.0"
      && s.value.oneStack == (i.productVersion == "CMP")
  {
    hide DefaultKeys, MergedKeys;
  }

  /** A value of the operator's own is rewritten exactly if its version fields differ or a default was never offered. */
  lemma WritesIff(was: Settings, i: Input)
    requires OperatorWritten(was)
    ensures Writes(Some(was), i)
      <==> || was.productVersion != i.productVersion || was.version != "3.0"
           || was.oneStack != (i.productVersion == "CMP")
           || !(Elements(DefaultKeys(i)) <= was.userKeys.Keys)
  {
    hide DefaultKeys;
    if !Writes(Some(was), i) {
      NothingOffered(was, i);
    } else if Elements(DefaultKeys(i)) <= was.userKeys.Keys {
      ChoicesExtended(i, was);
      assert Merge(Defaults(i), was).userKeys == was.userKeys;
      MergedSetupKeys(Defaults(i), was);
    }
  }

  /* ---------- over any sequence of runs ---------- */

  datatype Run = Run(input: Input, outcome: Outcome)

  ghost function RunAll(cur: Option<Settings>, runs: seq<Run>): Option<Settings>
    decreases |runs|
  {
    if runs == [] then cur
    else RunAll(Init(cur, runs[0].input, runs[0].outcome), runs[1..])
  }

  /** User choices are frozen: no run, upgrade or downgrade changes the recorded value of a key. */
  lemma {:induction false} ChoicesFrozen(was: Settings, runs: seq<Run>, k: Key)
    requires k in was.userKeys
    ensures RunAll(Some(was), runs).Some?
    ensures k in RunAll(Some(was), runs).value.userKeys
    ensures RunAll(Some(was), runs).value.userKeys[k] == was.userKeys[k]
    decreases |runs|
  {
    if runs != [] {
      var next := Init(Some(was), runs[0].input, runs[0].outcome);
      assert next.Some? && k in next.value.userKeys && next.value.userKeys[k] == was.userKeys[k] by {
        hide Defaults;
        assert k in MergedDomain(Defaults(runs[0].input), was);
      }
      hide Init;
      ChoicesFrozen(next.value, runs[1..], k);
    }
  }

  /** The dictionary that someone has stored is never touched. */
  lemma {:induction false} DictionaryKept(was: Settings, runs: seq<Run>)
    ensures RunAll(Some(was), runs).Some? && RunAll(Some(was), runs).value.dictionary == was.dictionary
    decreases |runs|
  {
    if runs != [] {
      hide Defaults, MergedKeys;
      var next := Init(Some(was), runs[0].input, runs[0].outcome);
      assert next.Some? && next.value.dictionary == was.dictionary;
      DictionaryKept(next.value, runs[1..]);
    }
  }

  /** The default features of all runs that took effect. */
  ghost function Offered(runs: seq<Run>): set<Key> {
    if runs == [] then {}
    else (if Applied(runs[0].outcome) then Elements(DefaultKeys(runs[0].input)) else {}) + Offered(runs[1..])
  }

  /** Nothing stored yet, or a value the operator wrote. */
  predicate Own(cur: Option<Settings>) {
    cur.Some? ==> OperatorWritten(cur.value)
  }

  function Choices(cur: Option<Settings>): map<Key, bool> {
    if cur.Some? then cur.value.userKeys else map[]
  }

  /** One run: own form is kept, and exactly the defaults never offered before are switched on. */
  lemma RunExtendsChoices(cur: Option<Settings>, r: Run)
    requires Own(cur)
    ensures Own(Init(cur, r.input, r.outcome))
    ensures Choices(Init(cur, r.input, r.outcome))
         == if Applied(r.outcome)
            then Choices(cur) + map k | k in Elements(DefaultKeys(r.input)) - Choices(cur).Keys :: true
            else Choices(cur)
  {
    hide DefaultKeys;
    var i := r.input;
    if Writes(cur, i) && Applied(r.outcome) {
      InitWritesOwnForm(cur, i, r.outcome);
    }
    if cur.Some? {
      ChoicesExtended(i, cur.value);
      if !Writes(cur, i) {
        NothingOffered(cur.value, i);
      }
    }
  }

  /** A run without a write offers nothing new. */
  lemma NothingOffered(was: Settings, i: Input)
    requires OperatorWritten(was) && !Writes(Some(was), i)
    ensures Elements(DefaultKeys(i)) <= was.userKeys.Keys
  {
    hide DefaultKeys;
    ChoicesExtended(i, was);
    MergedSetupKeys(Defaults(i), was);
    var merged := Merge(Defaults(i), was).userKeys;
    assert forall k | k in Elements(DefaultKeys(i)) - was.userKeys.Keys :: k in On(merged);
    assert On(merged) == On(was.userKeys);
  }

  /**
    Over any sequence of runs with any product versions, editions and failures, the
    stored value sets up exactly the keys that are on, and these are the ones that
    were on at the start plus every default that some run offered and the start had
    not decided: a change of product version never switches a feature off.
   */
  lemma {:induction false} FeaturesAccumulate(cur: Option<Settings>, runs: seq<Run>)
    requires Own(cur)
    ensures Own(RunAll(cur, runs))
    ensures On(Choices(RunAll(cur, runs))) == On(Choices(cur)) + (Offered(runs) - Choices(cur).Keys)
    decreases |runs|
  {
    if runs != [] {
      hide DefaultKeys, Init;
      var next := Init(cur, runs[0].input, runs[0].outcome);
      RunExtendsChoices(cur, runs[0]);
      FeaturesAccumulate(next, runs[1..]);
      OnceOffered(Choices(cur), Choices(next),
                  if Applied(runs[0].outcome) then Elements(DefaultKeys(runs[0].input)) else {}, Offered(runs[1..]));
    }
  }

  lemma OnceOffered(before: map<Key, bool>, after: map<Key, bool>, now: set<Key>, later: set<Key>)
    requires after == before + map k | k in now - before.Keys :: true
    ensures On(after) + (later - after.Keys) == On(before) + ((now + later) - before.Keys)
  {
  }
}
