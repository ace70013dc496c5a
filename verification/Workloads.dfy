/**
  Last-applied reconciliation of Deployments and DaemonSets
  (pkg/manager/component/component.go and utils.go) on values: what one pass of
  `syncDeployment` or `syncDaemonSet` does to the objects the API server stores,
  including what it leaves behind in the desired object held in memory.
 */
module Workloads {
  import opened Wrappers

  const LAST_APPLIED := "onecloud.yunion.io/last-applied-configuration"
  const SLAVE_FLAG := "--is-slave-node"
  const SLAVE := "-slave"

  type Labels = map<string, string>

  /** An annotation value: the JSON encoding of a spec or of a pod, or any other text. */
  datatype Text = SpecText(spec: Spec) | PodText(pod: Pod) | Other(text: string)

  type Annotations = map<string, Text>

  datatype Container = Container(name: string, command: seq<string>, rest: string)

  datatype Pod = Pod(initContainers: seq<Container>, containers: seq<Container>, rest: string)

  datatype Template = Template(labels: Labels, annotations: Annotations, pod: Pod)

  /** A selector is absent (`None`) or a set of labels; a DaemonSet leaves `replicas` unused. */
  datatype Spec = Spec(replicas: int, strategy: string, selector: Option<Labels>, template: Template)

  datatype Workload = Workload(name: string, labels: Labels, annotations: Annotations, spec: Spec)

  datatype Kind = Deployment | DaemonSet

  /** What the API server holds, by name. */
  type Store = map<string, Workload>

  /** `Set…LastAppliedConfigAnnotation`: the spec is encoded before its own template gets the pod's record. */
  function Stamp(w: Workload): Workload {
    w.(annotations := w.annotations[LAST_APPLIED := SpecText(w.spec)],
       spec := w.spec.(template := StampTemplate(w.spec.template)))
  }

  function StampTemplate(t: Template): Template {
    t.(annotations := t.annotations[LAST_APPLIED := PodText(t.pod)])
  }

  /** The spec that the record of a stored object holds, if there is one that decodes. */
  function Recorded(w: Workload): Option<Spec> {
    if LAST_APPLIED in w.annotations && w.annotations[LAST_APPLIED].SpecText?
    then Some(w.annotations[LAST_APPLIED].spec) else None
  }

  /** `deploymentEqual` and `daemonSetEqual`: the desired spec against the record, never against the stored spec. */
  predicate SameAsRecorded(kind: Kind, want: Spec, stored: Workload) {
    var r := Recorded(stored);
    r.Some? && r.value.template == want.template && r.value.strategy == want.strategy
    && (kind.Deployment? ==> r.value.replicas == want.replicas)
  }

  predicate SelectorMatches(selector: Option<Labels>, labels: Labels) {
    selector.Some? ==> forall k | k in selector.value :: k in labels && labels[k] == selector.value[k]
  }

  /** A selector matches exactly if it is absent or its pairs are among those of the labels. */
  lemma SelectorMatchesIff(selector: Option<Labels>, labels: Labels)
    ensures SelectorMatches(selector, labels) <==> selector.None? || selector.value.Items <= labels.Items
  {
    if selector.Some? {
      var m := selector.value;
      if SelectorMatches(selector, labels) {
        forall p | p in m.Items
          ensures p in labels.Items
        {
          assert p.0 in labels && labels[p.0] == p.1;
        }
      } else {
        var k :| k in m && !(k in labels && labels[k] == m[k]);
        assert (k, m[k]) in m.Items;
        assert (k, m[k]) !in labels.Items;
      }
    }
  }

  /** The stored spec with the fields that an update takes from the desired one; the selector stays. */
  function Overwrite(kind: Kind, stored: Spec, want: Spec): Spec {
    stored.(template := want.template, strategy := want.strategy,
            replicas := if kind.Deployment? then want.replicas else stored.replicas)
  }

  /** A Deployment is created with its record, a DaemonSet without one. */
  function Created(kind: Kind, want: Workload): Workload {
    if kind.Deployment? then Stamp(want) else want
  }

  function Updated(kind: Kind, stored: Workload, want: Workload): Workload {
    Stamp(stored.(spec := Overwrite(kind, stored.spec, want.spec)))
  }

  datatype Action = Quiet | Create | Update | Recreate | Remove

  /** What a pass sets out to do; `gone` says that the object must not exist. */
  function Decide(kind: Kind, store: Store, want: Workload, gone: bool): Action {
    if want.name !in store then (if gone then Quiet else Create)
    else if gone then Remove
    else if !SelectorMatches(store[want.name].spec.selector, want.spec.template.labels) then Recreate
    else if !SameAsRecorded(kind, want.spec, store[want.name]) then Update
    else Quiet
  }

  /** Outcomes of one pass's delete call and create or update call, and whether its post-sync hook succeeds. */
  datatype Calls = Calls(delete: Outcome, write: Outcome, hook: bool)

  function Put(store: Store, name: string, w: Workload, o: Outcome): Store {
    if Applied(o) then store[name := w] else store
  }

  function Drop(store: Store, name: string, o: Outcome): Store {
    if Applied(o) then store - {name} else store
  }

  function Sync(kind: Kind, store: Store, want: Workload, gone: bool, c: Calls): Store {
    match Decide(kind, store, want, gone)
    case Quiet => store
    case Create => Put(store, want.name, Created(kind, want), c.write)
    case Remove => Drop(store, want.name, c.delete)
    case Update => Put(store, want.name, Updated(kind, store[want.name], want), c.write)
    case Recreate =>
      var dropped := Drop(store, want.name, c.delete);
      if c.delete.Done? then Put(dropped, want.name, Created(kind, want), c.write) else dropped
  }

  /** What the sync of one object returns: no error, an error that only asks for another pass, or any other error. */
  datatype Result = Success | Requeue | Failure

  /** A Deployment that was just created is always reported as not running yet; a removal calls no hook. */
  function Reported(kind: Kind, store: Store, want: Workload, gone: bool, c: Calls): Result {
    var hook := kind.Deployment? ==> c.hook;
    match Decide(kind, store, want, gone)
    case Create => if !c.write.Done? || !hook then Failure else if kind.Deployment? then Requeue else Success
    case Remove => if c.delete.Done? then Success else Failure
    case Update => if c.write.Done? && hook then Success else Failure
    case Recreate => if c.delete.Done? && c.write.Done? && hook then Success else Failure
    case Quiet => if want.name !in store || hook then Success else Failure
  }

  /**
    The desired Deployment as the pass leaves it in memory. Creating it puts the
    record into it; updating shares its pod-annotation map, if it has one, with the
    object that gets the record.
   */
  function LeftInMemory(store: Store, want: Workload, podMap: bool, gone: bool, c: Calls): Workload {
    match Decide(Deployment, store, want, gone)
    case Create => Stamp(want)
    case Recreate => if c.delete.Done? then Stamp(want) else want
    case Update => if podMap then want.(spec := want.spec.(template := StampTemplate(want.spec.template))) else want
    case _ => want
  }

  /** What the read-only companion does not take from the main Deployment. */
  datatype ReadOnly = ReadOnly(replicas: int, labels: Labels)

  function SlavePod(p: Pod): Pod {
    p.(initContainers := [],
       containers := if p.containers == [] then []
         else [p.containers[0].(command := p.containers[0].command + [SLAVE_FLAG])] + p.containers[1..])
  }

  /** `genReadonlyDeployment` */
  function Companion(main: Workload, ro: ReadOnly): Workload {
    var t := main.spec.template;
    main.(name := main.name + SLAVE, labels := ro.labels,
          spec := main.spec.(replicas := ro.replicas, selector := Some(ro.labels),
                             template := t.(labels := ro.labels, pod := SlavePod(t.pod))))
  }

  /** One desired component; `podMap` says whether its pod-annotation map exists, be it empty. */
  datatype Component = Component(want: Workload, podMap: bool, gone: bool, readOnly: Option<ReadOnly>)

  function MainPass(store: Store, d: Component, c: Calls): Store {
    Sync(Deployment, store, d.want, d.gone, c)
  }

  /** The desired companion, cloned from the main Deployment after the latter was synced. */
  function DesiredCompanion(store: Store, d: Component, c: Calls): Workload
    requires d.readOnly.Some?
  {
    Companion(LeftInMemory(store, d.want, d.podMap, d.gone, c), d.readOnly.value)
  }

  predicate CompanionGone(d: Component)
    requires d.readOnly.Some?
  {
    d.gone || d.readOnly.value.replicas == 0
  }

  /** `syncDeployment`: the companion is synced whatever became of the main Deployment. */
  function Pass(store: Store, d: Component, c: Calls, cRo: Calls): Store {
    var s := MainPass(store, d, c);
    if d.readOnly.None? then s
    else Sync(Deployment, s, DesiredCompanion(store, d, c), CompanionGone(d), cRo)
  }

  /** `syncDeployment` returns an error iff one of its two syncs does. */
  predicate PassOk(store: Store, d: Component, c: Calls, cRo: Calls) {
    Reported(Deployment, store, d.want, d.gone, c).Success?
    && (d.readOnly.Some? ==>
          Reported(Deployment, MainPass(store, d, c), DesiredCompanion(store, d, c), CompanionGone(d), cRo).Success?)
  }

  /* ---------- the record is a sound cache ---------- */

  /** The record describes the stored object: the spec differs from it by the pod's record only. */
  predicate Coherent(w: Workload) {
    Recorded(w).Some? && w.spec == Recorded(w).value.(template := StampTemplate(Recorded(w).value.template))
  }

  predicate HasRecord(w: Workload) {
    LAST_APPLIED in w.annotations
  }

  /** The selector picks the object's own pods, and the record, if any, is right. */
  predicate SoundObject(name: string, w: Workload) {
    SelectorMatches(w.spec.selector, w.spec.template.labels) && (HasRecord(w) ==> Coherent(w)) && w.name == name
  }

  ghost predicate Sound(store: Store) {
    forall n | n in store :: SoundObject(n, store[n])
  }

  /** The desired objects of one component: selector and pod labels are one map, and no record is set. */
  predicate WellFormed(kind: Kind, want: Workload) {
    SelectorMatches(want.spec.selector, want.spec.template.labels) && (kind.DaemonSet? ==> !HasRecord(want))
  }

  lemma StampIsCoherent(w: Workload)
    ensures Coherent(Stamp(w)) && Recorded(Stamp(w)) == Some(w.spec)
  {
  }

  lemma CreatedIsSound(kind: Kind, want: Workload)
    requires WellFormed(kind, want)
    ensures SoundObject(want.name, Created(kind, want))
  {
    StampIsCoherent(want);
  }

  lemma UpdatedIsSound(kind: Kind, stored: Workload, want: Workload)
    requires stored.name == want.name && SelectorMatches(stored.spec.selector, want.spec.template.labels)
    ensures SoundObject(want.name, Updated(kind, stored, want))
  {
    StampIsCoherent(stored.(spec := Overwrite(kind, stored.spec, want.spec)));
  }

  /** One pass on any object keeps the store sound, whatever its calls' outcomes. */
  lemma SyncKeepsSound(kind: Kind, store: Store, want: Workload, gone: bool, c: Calls)
    requires Sound(store) && WellFormed(kind, want)
    ensures Sound(Sync(kind, store, want, gone, c))
  {
    CreatedIsSound(kind, want);
    if Decide(kind, store, want, gone).Update? {
      assert SoundObject(want.name, store[want.name]);
      UpdatedIsSound(kind, store[want.name], want);
    }
    hide SoundObject, Created, Updated, SelectorMatches, SameAsRecorded;
  }

  /** The stored spec is the desired one: pods, labels, strategy, scale, and the pods' annotations save the record. */
  ghost predicate Fulfils(kind: Kind, stored: Spec, want: Spec) {
    && stored.template.pod == want.template.pod && stored.template.labels == want.template.labels
    && stored.template.annotations == want.template.annotations[LAST_APPLIED := PodText(want.template.pod)]
    && stored.strategy == want.strategy && (kind.Deployment? ==> stored.replicas == want.replicas)
    && SelectorMatches(stored.selector, want.template.labels)
  }

  /** A pass that finds nothing to do is right: the stored object is the desired one with the records added. */
  lemma QuietMeansUpToDate(kind: Kind, store: Store, want: Workload)
    requires Sound(store) && Decide(kind, store, want, false).Quiet?
    ensures want.name in store && Fulfils(kind, store[want.name].spec, want.spec)
  {
    assert SoundObject(want.name, store[want.name]);
  }

  datatype Step = Step(component: Component, main: Calls, companion: Calls)

  function RunSteps(store: Store, steps: seq<Step>): Store
    decreases |steps|
  {
    if steps == [] then store
    else RunSteps(Pass(store, steps[0].component, steps[0].main, steps[0].companion), steps[1..])
  }

  lemma PassKeepsSound(store: Store, d: Component, c: Calls, cRo: Calls)
    requires Sound(store) && WellFormed(Deployment, d.want)
    ensures Sound(Pass(store, d, c, cRo))
  {
    hide Sync, Sound, SelectorMatches;
    SyncKeepsSound(Deployment, store, d.want, d.gone, c);
    if d.readOnly.Some? {
      CompanionWellFormed(LeftInMemory(store, d.want, d.podMap, d.gone, c), d.readOnly.value);
      SyncKeepsSound(Deployment, MainPass(store, d, c), DesiredCompanion(store, d, c), CompanionGone(d), cRo);
    }
  }

  /** Over passes of any components with changing desired specs and any failures, companions included. */
  lemma {:induction false} DeploymentsStaySound(store: Store, steps: seq<Step>)
    requires Sound(store)
    requires forall s | s in steps :: WellFormed(Deployment, s.component.want)
    ensures Sound(RunSteps(store, steps))
    decreases |steps|
  {
    if steps != [] {
      hide Pass, Sound, WellFormed;
      var s := steps[0];
      PassKeepsSound(store, s.component, s.main, s.companion);
      DeploymentsStaySound(Pass(store, s.component, s.main, s.companion), steps[1..]);
    }
  }

  /** The companion's selector picks its own pods, whatever it is cloned from. */
  lemma CompanionWellFormed(main: Workload, ro: ReadOnly)
    ensures WellFormed(Deployment, Companion(main, ro))
    ensures Companion(main, ro).name != main.name
  {
    assert |main.name + SLAVE| == |main.name| + |SLAVE|;
  }

  datatype DsStep = DsStep(want: Workload, gone: bool, calls: Calls)

  function RunDsSteps(store: Store, steps: seq<DsStep>): Store
    decreases |steps|
  {
    if steps == [] then store
    else RunDsSteps(Sync(DaemonSet, store, steps[0].want, steps[0].gone, steps[0].calls), steps[1..])
  }

  lemma {:induction false} DaemonSetsStaySound(store: Store, steps: seq<DsStep>)
    requires Sound(store)
    requires forall s | s in steps :: WellFormed(DaemonSet, s.want)
    ensures Sound(RunDsSteps(store, steps))
    decreases |steps|
  {
    if steps != [] {
      hide Sync, Sound, WellFormed;
      SyncKeepsSound(DaemonSet, store, steps[0].want, steps[0].gone, steps[0].calls);
      DaemonSetsStaySound(Sync(DaemonSet, store, steps[0].want, steps[0].gone, steps[0].calls), steps[1..]);
    }
  }

  /* ---------- how many passes write, with a fixed desired spec and no errors ---------- */

  const OK := Calls(Done, Done, true)

  lemma SyncLocal(kind: Kind, store: Store, want: Workload, gone: bool, c: Calls)
    ensures Sync(kind, store, want, gone, c) - {want.name} == store - {want.name}
  {
  }

  /** Another object's pass changes neither what is decided about an object nor the object. */
  lemma DecideLocal(kind: Kind, store: Store, other: Store, name: string, want: Workload, gone: bool)
    requires store - {name} == other - {name} && name != want.name
    ensures Decide(kind, store, want, gone) == Decide(kind, other, want, gone)
    ensures want.name in store <==> want.name in other
    ensures want.name in store ==> store[want.name] == other[want.name]
  {
    assert want.name in store <==> want.name in store - {name};
    assert want.name in other <==> want.name in other - {name};
    if want.name in store {
      assert store[want.name] == (store - {name})[want.name] == (other - {name})[want.name] == other[want.name];
    }
  }

  /**
    From any store, a Deployment needs at most one write: the next pass is quiet
    exactly if a pass that created it created one whose selector picks its own pods.
   */
  lemma DeploymentSettlesIff(store: Store, want: Workload, gone: bool)
    ensures Decide(Deployment, Sync(Deployment, store, want, gone, OK), want, gone).Quiet?
       <==> (Decide(Deployment, store, want, gone) in {Create, Recreate}
             ==> SelectorMatches(want.spec.selector, want.spec.template.labels))
  {
    StampIsCoherent(want);
    if Decide(Deployment, store, want, gone).Update? {
      StampIsCoherent(store[want.name].(spec := Overwrite(Deployment, store[want.name].spec, want.spec)));
    }
  }

  /**
    A reported success can be relied on, whatever the outcomes of the other calls: a
    Deployment needs no further write, and a DaemonSet one iff this pass created it.
   */
  lemma SuccessMeansSettled(kind: Kind, store: Store, want: Workload, gone: bool, c: Calls)
    requires WellFormed(kind, want) && Reported(kind, store, want, gone, c).Success?
    ensures Decide(kind, Sync(kind, store, want, gone, c), want, gone)
         == if kind.DaemonSet? && Decide(kind, store, want, gone) in {Create, Recreate} then Update else Quiet
  {
    assert Sync(kind, store, want, gone, c) == Sync(kind, store, want, gone, OK);
    hide Sync, Decide, SelectorMatches, Reported;
    if kind.Deployment? {
      DeploymentSettlesIff(store, want, gone);
    } else {
      DaemonSetNext(store, want, gone);
    }
  }

  /* what is called, by the state that is found */

  ghost predicate Mismatched(store: Store, want: Workload)
    requires want.name in store
  {
    store[want.name].spec.selector.Some?
    && !(store[want.name].spec.selector.value.Items <= want.spec.template.labels.Items)
  }

  ghost predicate DeleteCalled(store: Store, want: Workload, gone: bool) {
    want.name in store && (gone || Mismatched(store, want))
  }

  ghost predicate WriteCalled(kind: Kind, store: Store, want: Workload, gone: bool, c: Calls) {
    && !gone
    && if want.name !in store then true
       else if Mismatched(store, want) then c.delete.Done? else !SameAsRecorded(kind, want.spec, store[want.name])
  }

  /**
    A sync reports success exactly if every call it makes is done, and neither its hook
    fails nor a Deployment was missing, which is to be looked at again.
   */
  lemma SuccessIff(kind: Kind, store: Store, want: Workload, gone: bool, c: Calls)
    ensures Reported(kind, store, want, gone, c).Success? <==>
      && (DeleteCalled(store, want, gone) ==> c.delete.Done?)
      && (WriteCalled(kind, store, want, gone, c) ==> c.write.Done?)
      && (kind.Deployment? && !gone ==> c.hook && want.name in store)
  {
    hide SelectorMatches, SameAsRecorded;
    if want.name in store {
      SelectorMatchesIff(store[want.name].spec.selector, want.spec.template.labels);
    }
  }

  /** A missing Deployment whose creation and hook succeed is requeued. */
  lemma RequeueIff(kind: Kind, store: Store, want: Workload, gone: bool, c: Calls)
    ensures Reported(kind, store, want, gone, c).Requeue?
      <==> kind.Deployment? && want.name !in store && !gone && c.write.Done? && c.hook
  {
  }

  /** An object that must not exist is gone exactly if it was not there or its deletion takes effect. */
  lemma GoneIff(kind: Kind, store: Store, want: Workload, c: Calls)
    ensures want.name !in Sync(kind, store, want, true, c) <==> want.name !in store || Applied(c.delete)
    ensures Reported(kind, store, want, true, c).Success? ==> want.name !in Sync(kind, store, want, true, c)
  {
  }

  /** One that must exist does, after a sync that reports no failure. */
  lemma WantedIsThere(kind: Kind, store: Store, want: Workload, c: Calls)
    requires !Reported(kind, store, want, false, c).Failure?
    ensures want.name in Sync(kind, store, want, false, c)
  {
  }

  /** A stored selector is immutable: it changes only if a deletion took effect. */
  lemma SelectorImmutable(kind: Kind, store: Store, want: Workload, gone: bool, c: Calls)
    requires want.name in store && want.name in Sync(kind, store, want, gone, c)
    ensures !Applied(c.delete) || !DeleteCalled(store, want, gone) ==>
      Sync(kind, store, want, gone, c)[want.name].spec.selector == store[want.name].spec.selector
  {
    hide SelectorMatches, SameAsRecorded;
    SelectorMatchesIff(store[want.name].spec.selector, want.spec.template.labels);
  }

  /** A new object carries the desired name, labels and annotations; an updated one keeps its own. Records aside. */
  lemma SyncMetadata(kind: Kind, store: Store, want: Workload, c: Calls)
    requires want.name in Sync(kind, store, want, false, c)
    ensures var s := Sync(kind, store, want, false, c)[want.name];
      var from := if want.name !in store || (Mismatched(store, want) && Applied(c.delete))
                  then want else store[want.name];
      s.name == from.name && s.labels == from.labels
      && s.annotations - {LAST_APPLIED} == from.annotations - {LAST_APPLIED}
  {
    hide SelectorMatches, SameAsRecorded;
    if want.name in store {
      SelectorMatchesIff(store[want.name].spec.selector, want.spec.template.labels);
    }
  }

  /** A DaemonSet is created without a record, so the pass after a creation updates it; then it is quiet. */
  lemma DaemonSetNext(store: Store, want: Workload, gone: bool)
    requires WellFormed(DaemonSet, want)
    ensures Decide(DaemonSet, Sync(DaemonSet, store, want, gone, OK), want, gone)
         == if Decide(DaemonSet, store, want, gone) in {Create, Recreate} then Update else Quiet
  {
    if Decide(DaemonSet, store, want, gone).Update? {
      StampIsCoherent(store[want.name].(spec := Overwrite(DaemonSet, store[want.name].spec, want.spec)));
    }
  }

  /** The pod templates stored by the creation and by the update that follows it. */
  lemma DaemonSetTemplates(store: Store, want: Workload, gone: bool)
    requires WellFormed(DaemonSet, want) && Decide(DaemonSet, store, want, gone) in {Create, Recreate}
    ensures var s1 := Sync(DaemonSet, store, want, gone, OK);
      var s2 := Sync(DaemonSet, s1, want, gone, OK);
      && want.name in s1 && s1[want.name].spec.template == want.spec.template
      && want.name in s2 && s2[want.name].spec.template == StampTemplate(want.spec.template)
  {
    DaemonSetNext(store, want, gone);
  }

  function DsPasses(store: Store, want: Workload, gone: bool, n: nat): Store {
    if n == 0 then store else Sync(DaemonSet, DsPasses(store, want, gone, n - 1), want, gone, OK)
  }

  function DsAction(store: Store, want: Workload, gone: bool, n: nat): Action {
    Decide(DaemonSet, DsPasses(store, want, gone, n), want, gone)
  }

  /**
    A DaemonSet is written in at most two passes: the second one iff the first
    created it, and that write changes the running pod template by adding the record.
   */
  lemma {:induction false} DaemonSetWrites(store: Store, want: Workload, gone: bool, n: nat)
    requires WellFormed(DaemonSet, want) && n >= 1
    ensures DsAction(store, want, gone, n)
         == if n == 1 && DsAction(store, want, gone, 0) in {Create, Recreate} then Update else Quiet
    ensures DsAction(store, want, gone, 1).Update? ==>
      DsPasses(store, want, gone, 1)[want.name].spec.template == want.spec.template
      && DsPasses(store, want, gone, 2)[want.name].spec.template == StampTemplate(want.spec.template)
    decreases n
  {
    hide Sync, Decide, WellFormed, StampTemplate;
    var s1 := DsPasses(store, want, gone, 1);
    assert s1 == Sync(DaemonSet, DsPasses(store, want, gone, 0), want, gone, OK);
    assert DsPasses(store, want, gone, 2) == Sync(DaemonSet, s1, want, gone, OK);
    DaemonSetNext(store, want, gone);
    if DsAction(store, want, gone, 0) in {Create, Recreate} {
      DaemonSetTemplates(store, want, gone);
    }
    if n > 1 {
      DaemonSetWrites(store, want, gone, n - 1);
      DaemonSetNext(DsPasses(store, want, gone, n - 1), want, gone);
    }
  }

  function Passes(store: Store, d: Component, n: nat): Store {
    if n == 0 then store else Pass(Passes(store, d, n - 1), d, OK, OK)
  }

  /** What pass `n` sets out to do with the main Deployment. */
  function MainAction(store: Store, d: Component, n: nat): Action {
    Decide(Deployment, Passes(store, d, n), d.want, d.gone)
  }

  /** What pass `n` sets out to do with the companion. */
  function CompanionAction(store: Store, d: Component, n: nat): Action
    requires d.readOnly.Some?
  {
    var s := Passes(store, d, n);
    Decide(Deployment, MainPass(s, d, OK), DesiredCompanion(s, d, OK), CompanionGone(d))
  }

  /** A pass treats the main Deployment as if there were no companion. */
  lemma MainUndisturbed(store: Store, d: Component)
    ensures Decide(Deployment, Pass(store, d, OK, OK), d.want, d.gone)
         == Decide(Deployment, MainPass(store, d, OK), d.want, d.gone)
  {
    hide Sync, Decide;
    if d.readOnly.Some? {
      var s, ro := MainPass(store, d, OK), DesiredCompanion(store, d, OK);
      MemoryName(store, d);
      CompanionWellFormed(LeftInMemory(store, d.want, d.podMap, d.gone, OK), d.readOnly.value);
      SyncLocal(Deployment, s, ro, CompanionGone(d), OK);
      DecideLocal(Deployment, Pass(store, d, OK, OK), s, ro.name, d.want, d.gone);
    }
  }

  lemma MemoryName(store: Store, d: Component)
    ensures LeftInMemory(store, d.want, d.podMap, d.gone, OK).name == d.want.name
  {
  }

  /** The main Deployment is written in at most one pass and then stays quiet. */
  lemma {:induction false} MainWrittenOnce(store: Store, d: Component, n: nat)
    requires WellFormed(Deployment, d.want) && n >= 1
    ensures MainAction(store, d, n).Quiet?
  {
    hide Sync, Decide, SelectorMatches;
    MainUndisturbed(Passes(store, d, n - 1), d);
    DeploymentSettlesIff(Passes(store, d, n - 1), d.want, d.gone);
  }

  /** From the second pass on, the companion is cloned from a main Deployment that nothing was written into. */
  lemma CleanClone(store: Store, d: Component, n: nat)
    requires WellFormed(Deployment, d.want) && d.readOnly.Some? && n >= 1
    ensures MainPass(Passes(store, d, n), d, OK) == Passes(store, d, n)
    ensures DesiredCompanion(Passes(store, d, n), d, OK) == Companion(d.want, d.readOnly.value)
  {
    MainWrittenOnce(store, d, n);
  }

  /** The first pass's clone and a clean one differ in their pod annotations only, and in these by the record. */
  lemma CloneDiffers(store: Store, d: Component)
    requires d.readOnly.Some?
    ensures var first, clean := DesiredCompanion(store, d, OK), Companion(d.want, d.readOnly.value);
      first.name == clean.name
      && first.spec.(template := clean.spec.template) == clean.spec
      && first.spec.template.(annotations := clean.spec.template.annotations) == clean.spec.template
      && StampTemplate(first.spec.template) == StampTemplate(clean.spec.template)
  {
  }

  /** The first pass's clone carries the main Deployment's record iff that pass wrote through a shared map. */
  lemma ContaminatedIff(store: Store, d: Component)
    requires d.readOnly.Some? && LAST_APPLIED !in d.want.spec.template.annotations
    ensures DesiredCompanion(store, d, OK).spec.template != Companion(d.want, d.readOnly.value).spec.template
       <==> (MainAction(store, d, 0) in {Create, Recreate} || (MainAction(store, d, 0).Update? && d.podMap))
  {
    var first, clean := DesiredCompanion(store, d, OK), Companion(d.want, d.readOnly.value);
    assert LAST_APPLIED !in clean.spec.template.annotations;
    assert Passes(store, d, 0) == store;
  }

  /** What is decided about two desired objects that differ in their pod annotations only. */
  lemma DecideOtherAnnotations(store: Store, first: Workload, clean: Workload, gone: bool)
    requires Decide(Deployment, store, first, gone).Quiet? && first.name == clean.name
    requires first.spec.(template := clean.spec.template) == clean.spec
    requires first.spec.template.labels == clean.spec.template.labels
    ensures Decide(Deployment, store, clean, gone)
         == if !gone && first.spec.template != clean.spec.template then Update else Quiet
  {
  }

  /**
    The companion is written in at most two passes: in the second one iff it is
    wanted and the first pass cloned it from a Deployment that the record had been
    written into.
   */
  lemma CompanionWrittenTwice(store: Store, d: Component, n: nat)
    requires WellFormed(Deployment, d.want) && d.readOnly.Some? && n >= 1
    ensures CompanionAction(store, d, n)
         == if n == 1 && !CompanionGone(d)
               && DesiredCompanion(store, d, OK).spec.template != Companion(d.want, d.readOnly.value).spec.template
            then Update else Quiet
  {
    hide Sync, Decide, MainPass, LeftInMemory, SelectorMatches;
    var ro, gone := d.readOnly.value, CompanionGone(d);
    var before := Passes(store, d, n - 1);
    var want := DesiredCompanion(before, d, OK);
    CleanClone(store, d, n);
    CompanionWellFormed(LeftInMemory(before, d.want, d.podMap, d.gone, OK), ro);
    DeploymentSettlesIff(MainPass(before, d, OK), want, gone);
    if n == 1 {
      CloneDiffers(store, d);
      DecideOtherAnnotations(Passes(store, d, 1), want, Companion(d.want, ro), gone);
    } else {
      CleanClone(store, d, n - 1);
    }
  }

  /** The companion's second write leaves its stored pod template as it was, so no pod is restarted by it. */
  lemma SecondWriteKeepsTemplate(store: Store, d: Component)
    requires Sound(store) && WellFormed(Deployment, d.want) && d.readOnly.Some?
    requires CompanionAction(store, d, 1).Update?
    ensures var name := d.want.name + SLAVE;
      name in Passes(store, d, 1) && name in Passes(store, d, 2)
      && Passes(store, d, 1)[name].spec.template == Passes(store, d, 2)[name].spec.template
  {
    hide Sync, Decide, MainPass, LeftInMemory, SelectorMatches, Sound;
    var ro, gone := d.readOnly.value, CompanionGone(d);
    var first, clean := DesiredCompanion(store, d, OK), Companion(d.want, ro);
    var s1, s2 := Passes(store, d, 1), Passes(store, d, 2);
    assert s1 == Pass(Passes(store, d, 0), d, OK, OK) && s2 == Pass(s1, d, OK, OK);
    PassKeepsSound(store, d, OK, OK);
    PassKeepsSound(s1, d, OK, OK);
    CloneDiffers(store, d);
    CleanClone(store, d, 1);
    CompanionWrittenTwice(store, d, 1);
    CompanionWrittenTwice(store, d, 2);
    CleanClone(store, d, 2);
    CompanionWellFormed(LeftInMemory(store, d.want, d.podMap, d.gone, OK), ro);
    DeploymentSettlesIff(MainPass(store, d, OK), first, gone);
    QuietMeansUpToDate(Deployment, s1, first);
    QuietMeansUpToDate(Deployment, s2, clean);
  }

  /** With no call failing, every pass but the first reports success, and the first one iff nothing is created in it. */
  lemma PassOkIff(store: Store, d: Component, n: nat)
    requires WellFormed(Deployment, d.want)
    ensures PassOk(Passes(store, d, n), d, OK, OK)
       <==> !MainAction(store, d, n).Create? && (d.readOnly.Some? ==> !CompanionAction(store, d, n).Create?)
    ensures n >= 1 ==> PassOk(Passes(store, d, n), d, OK, OK)
  {
    hide Sync, SelectorMatches, SameAsRecorded, LeftInMemory;
    if n >= 1 {
      MainWrittenOnce(store, d, n);
      if d.readOnly.Some? {
        CompanionWrittenTwice(store, d, n);
      }
    }
  }

  /* ---------- what is stored after error-free passes ---------- */

  /** A component that must not exist has neither Deployment; one without read-only replicas has no companion. */
  lemma GoneComponent(store: Store, d: Component, n: nat)
    requires n >= 1
    ensures d.gone ==> d.want.name !in Passes(store, d, n)
    ensures d.readOnly.Some? && (d.gone || d.readOnly.value.replicas == 0) ==>
      d.want.name + SLAVE !in Passes(store, d, n)
  {
    hide Sync, Decide;
    var before := Passes(store, d, n - 1);
    var s := MainPass(before, d, OK);
    GoneIff(Deployment, before, d.want, OK);
    if d.readOnly.Some? {
      var ro := DesiredCompanion(before, d, OK);
      MemoryName(before, d);
      CompanionWellFormed(LeftInMemory(before, d.want, d.podMap, d.gone, OK), d.readOnly.value);
      GoneIff(Deployment, s, ro, OK);
      SyncLocal(Deployment, s, ro, CompanionGone(d), OK);
      assert d.want.name in Passes(store, d, n) ==> d.want.name in Passes(store, d, n) - {ro.name};
    }
  }

  /** A wanted main Deployment is stored as desired. */
  lemma StoredMain(store: Store, d: Component, n: nat)
    requires Sound(store) && WellFormed(Deployment, d.want) && !d.gone && n >= 1
    ensures d.want.name in Passes(store, d, n)
    ensures Fulfils(Deployment, Passes(store, d, n)[d.want.name].spec, d.want.spec)
  {
    hide Sound, Decide, Sync, Fulfils, WellFormed;
    PassesStaySound(store, d, n);
    MainWrittenOnce(store, d, n);
    QuietMeansUpToDate(Deployment, Passes(store, d, n), d.want);
  }

  lemma {:induction false} PassesStaySound(store: Store, d: Component, n: nat)
    requires Sound(store) && WellFormed(Deployment, d.want)
    ensures Sound(Passes(store, d, n))
  {
    hide Sound, WellFormed, Pass;
    if n > 0 {
      PassesStaySound(store, d, n - 1);
      PassKeepsSound(Passes(store, d, n - 1), d, OK, OK);
    }
  }

  /** The pods of a companion: no init containers, and the main one's containers, the first with the slave flag. */
  ghost predicate IsSlaveOf(pod: Pod, main: Pod) {
    && pod.initContainers == [] && pod.rest == main.rest && |pod.containers| == |main.containers|
    && forall i | 0 <= i < |main.containers| ::
         var c := main.containers[i];
         pod.containers[i] == if i == 0 then c.(command := c.command + ["--is-slave-node"]) else c
  }

  lemma CompanionPods(main: Workload, ro: ReadOnly)
    ensures IsSlaveOf(Companion(main, ro).spec.template.pod, main.spec.template.pod)
  {
  }

  /** A wanted companion is stored with its own scale and labels, and the main Deployment's pods made slaves. */
  lemma StoredCompanion(store: Store, d: Component, n: nat)
    requires Sound(store) && WellFormed(Deployment, d.want) && d.readOnly.Some? && n >= 1
    requires !d.gone && d.readOnly.value.replicas != 0
    ensures d.want.name + SLAVE in Passes(store, d, n)
    ensures var s, main, ro := Passes(store, d, n)[d.want.name + SLAVE].spec, d.want.spec, d.readOnly.value;
      && s.replicas == ro.replicas && s.strategy == main.strategy && s.template.labels == ro.labels
      && SelectorMatches(s.selector, ro.labels) && IsSlaveOf(s.template.pod, main.template.pod)
  {
    hide Sound, Decide, Sync, MainPass, LeftInMemory, SelectorMatches, SlavePod, IsSlaveOf;
    var before := Passes(store, d, n - 1);
    var ro, want := d.readOnly.value, DesiredCompanion(before, d, OK);
    PassesStaySound(store, d, n);
    MemoryName(before, d);
    CloneDiffers(before, d);
    CompanionPods(d.want, ro);
    CompanionWellFormed(LeftInMemory(before, d.want, d.podMap, d.gone, OK), ro);
    DeploymentSettlesIff(MainPass(before, d, OK), want, false);
    QuietMeansUpToDate(Deployment, Passes(store, d, n), want);
  }

  /** A companion that a pass creates carries its own labels, not the main Deployment's. */
  lemma StoredCompanionLabels(store: Store, d: Component)
    requires d.readOnly.Some? && !d.gone && d.readOnly.value.replicas != 0 && d.want.name + SLAVE !in store
    ensures d.want.name + SLAVE in Pass(store, d, OK, OK)
    ensures Pass(store, d, OK, OK)[d.want.name + SLAVE].labels == d.readOnly.value.labels
  {
    hide Decide, Stamp, LeftInMemory, Sync;
    var s, want := MainPass(store, d, OK), DesiredCompanion(store, d, OK);
    MemoryName(store, d);
    CompanionWellFormed(LeftInMemory(store, d.want, d.podMap, d.gone, OK), d.readOnly.value);
    SyncLocal(Deployment, store, d.want, d.gone, OK);
    assert want.name in s ==> want.name in s - {d.want.name};
    CreatedWhenMissing(Deployment, s, want, OK);
    SyncMetadata(Deployment, s, want, OK);
  }

  lemma CreatedWhenMissing(kind: Kind, store: Store, want: Workload, c: Calls)
    requires want.name !in store
    ensures want.name in Sync(kind, store, want, false, c) <==> Applied(c.write)
  {
  }
}
