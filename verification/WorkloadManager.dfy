/**
  The sync methods of pkg/manager/component/component.go on objects whose
  annotation maps are references: creating, updating and cloning a workload in
  place, with the sharing of maps that this brings. Each method is proved against
  the value functions of `Workloads`.
 */
module WorkloadManagement {
  import opened Wrappers
  import opened Workloads

  class AnnotationMap {
    var entries: Annotations

    constructor (entries: Annotations)
      ensures this.entries == entries
    {
      this.entries := entries;
    }
  }

  /** Label maps are never written after they are built, so they are values here. */
  class WorkloadObject {
    var name: string
    var labels: Labels
    var annotations: AnnotationMap?
    var replicas: int
    var strategy: string
    var selector: Option<Labels>
    var podLabels: Labels
    var podAnnotations: AnnotationMap?
    var pod: Pod

    /** The object and its pod template do not share one annotation map. */
    predicate Valid()
      reads this
    {
      annotations == null || annotations != podAnnotations
    }

    function PodSpec(): Spec
      reads this, podAnnotations
    {
      Spec(replicas, strategy, selector,
           Template(podLabels, if podAnnotations == null then map[] else podAnnotations.entries, pod))
    }

    function Value(): Workload
      reads this, annotations, podAnnotations
    {
      Workload(name, labels, if annotations == null then map[] else annotations.entries, PodSpec())
    }

    /** `DeepCopy` of an object read from the API server. */
    constructor (w: Workload)
      ensures Valid() && Value() == w
      ensures annotations != null && fresh(annotations) && podAnnotations != null && fresh(podAnnotations)
    {
      name, labels, replicas, strategy := w.name, w.labels, w.spec.replicas, w.spec.strategy;
      selector, podLabels, pod := w.spec.selector, w.spec.template.labels, w.spec.template.pod;
      annotations := new AnnotationMap(w.annotations);
      podAnnotations := new AnnotationMap(w.spec.template.annotations);
    }

    /** `Set…LastAppliedConfigAnnotation`: missing maps are made, existing ones are written in place. */
    method SetLastApplied()
      requires Valid()
      modifies this`annotations, this`podAnnotations, annotations, podAnnotations
      ensures Valid() && Value() == Stamp(old(Value()))
      ensures podAnnotations != null && (if old(podAnnotations) == null then fresh(podAnnotations)
                                         else podAnnotations == old(podAnnotations))
    {
      var spec := PodSpec();
      if annotations == null {
        annotations := new AnnotationMap(map[]);
      }
      annotations.entries := annotations.entries[LAST_APPLIED := SpecText(spec)];
      if podAnnotations == null {
        podAnnotations := new AnnotationMap(map[]);
      }
      podAnnotations.entries := podAnnotations.entries[LAST_APPLIED := PodText(pod)];
    }

    /** `genReadonlyDeployment`: a deep copy, changed in place. */
    method GenReadonly(ro: ReadOnly) returns (r: WorkloadObject)
      requires Valid()
      ensures fresh(r) && r.Valid() && r.Value() == Companion(Value(), ro)
      ensures fresh(r.annotations) && r.annotations != null && fresh(r.podAnnotations) && r.podAnnotations != null
    {
      hide SlavePod;
      r := new WorkloadObject(Value());
      r.name := r.name + SLAVE;
      r.replicas := ro.replicas;
      r.pod := MakeSlave(r.pod);
      r.labels := ro.labels;
      r.selector := Some(ro.labels);
      r.podLabels := ro.labels;
    }
  }

  method MakeSlave(pod: Pod) returns (r: Pod)
    ensures r == SlavePod(pod)
  {
    r := pod.(initContainers := []);
    if |r.containers| > 0 {
      var first := r.containers[0];
      r := r.(containers := [first.(command := first.command + [SLAVE_FLAG])] + r.containers[1..]);
    }
  }

  /** `selectorMatchesLabels` */
  method SelectorMatchesLabels(selector: Option<Labels>, labels: Labels) returns (matches: bool)
    ensures matches == SelectorMatches(selector, labels)
  {
    if selector.None? {
      return true;
    }
    var left := selector.value.Keys;
    while left != {}
      invariant left <= selector.value.Keys
      invariant forall k | k in selector.value && k !in left :: k in labels && labels[k] == selector.value[k]
    {
      var k :| k in left;
      if k !in labels || labels[k] != selector.value[k] {
        return false;
      }
      left := left - {k};
    }
    matches := true;
  }

  class ComponentManager {
    var deployments: Store
    var daemonSets: Store

    /** The selector of a stored Deployment cannot be changed, so the object is deleted and created anew. */
    method RecreateDeployment(want: WorkloadObject, c: Calls) returns (ok: bool)
      requires want.Valid()
      modifies this`deployments, want`annotations, want`podAnnotations, want.annotations, want.podAnnotations
      ensures ok == (c.delete.Done? && c.write.Done?) && want.Valid()
      ensures want.Value() == if c.delete.Done? then Stamp(old(want.Value())) else old(want.Value())
      ensures deployments
           == if !c.delete.Done? then Drop(old(deployments), want.name, c.delete)
              else Put(old(deployments) - {want.name}, want.name, want.Value(), c.write)
    {
      if Applied(c.delete) {
        deployments := deployments - {want.name};
      }
      if !c.delete.Done? {
        return false;
      }
      want.SetLastApplied();
      if Applied(c.write) {
        deployments := deployments[want.name := want.Value()];
      }
      ok := c.write.Done?;
    }

    method UpdateDeployment(want: WorkloadObject, c: Calls) returns (ok: bool)
      requires want.Valid() && want.name in deployments
      modifies this`deployments, want`annotations, want`podAnnotations, want.annotations, want.podAnnotations
      ensures deployments == Sync(Deployment, old(deployments), old(want.Value()), false, c)
      ensures ok && c.hook <==> Reported(Deployment, old(deployments), old(want.Value()), false, c).Success?
      ensures !ok ==> Reported(Deployment, old(deployments), old(want.Value()), false, c).Failure?
      ensures want.Valid()
      ensures want.Value()
           == LeftInMemory(old(deployments), old(want.Value()), old(want.podAnnotations) != null, false, c)
    {
      hide SelectorMatches, SameAsRecorded, Stamp, Updated;
      ok := true;
      var stored := deployments[want.name];
      var matches := SelectorMatchesLabels(stored.spec.selector, want.podLabels);
      if !matches {
        ok := RecreateDeployment(want, c);
      } else if !SameAsRecorded(Deployment, want.PodSpec(), stored) {
        var deploy := UpdatedCopy(Deployment, want, stored);
        if Applied(c.write) {
          deployments := deployments[want.name := deploy.Value()];
        }
        ok := c.write.Done?;
      }
    }

    /**
      A copy of the stored object that takes over the desired template, annotation map
      included, and then gets the records: one of them through the shared map.
     */
    method UpdatedCopy(kind: Kind, want: WorkloadObject, stored: Workload) returns (copy: WorkloadObject)
      requires want.Valid()
      modifies want.podAnnotations
      ensures copy.Value() == Updated(kind, stored, old(want.Value()))
      ensures want.podAnnotations != null ==>
        want.podAnnotations.entries == old(want.podAnnotations.entries)[LAST_APPLIED := PodText(want.pod)]
    {
      copy := new WorkloadObject(stored);
      copy.podLabels, copy.podAnnotations, copy.pod := want.podLabels, want.podAnnotations, want.pod;
      copy.strategy := want.strategy;
      if kind.Deployment? {
        copy.replicas := want.replicas;
      }
      ghost var written := stored.(spec := Overwrite(kind, stored.spec, want.PodSpec()));
      assert copy.Value() == written;
      hide Overwrite;
      copy.SetLastApplied();
    }

    /** The closure `syncFunc` of `syncDeployment`. */
    method SyncOne(want: WorkloadObject, gone: bool, c: Calls) returns (result: Result)
      requires want.Valid()
      modifies this`deployments, want`annotations, want`podAnnotations, want.annotations, want.podAnnotations
      ensures deployments == Sync(Deployment, old(deployments), old(want.Value()), gone, c)
      ensures result == Reported(Deployment, old(deployments), old(want.Value()), gone, c)
      ensures want.Valid()
      ensures want.Value()
           == LeftInMemory(old(deployments), old(want.Value()), old(want.podAnnotations) != null, gone, c)
    {
      if want.name !in deployments {
        if gone {
          return Success;
        }
        want.SetLastApplied();
        if Applied(c.write) {
          deployments := deployments[want.name := want.Value()];
        }
        return if c.write.Done? && c.hook then Requeue else Failure;
      }
      if gone {
        if Applied(c.delete) {
          deployments := deployments - {want.name};
        }
        return if c.delete.Done? then Success else Failure;
      }
      var ok := UpdateDeployment(want, c);
      return if ok && c.hook then Success else Failure;
    }

    /** `syncDeployment`: the companion is cloned from the desired object as the first sync left it. */
    method SyncDeployment(want: WorkloadObject, gone: bool, readOnly: Option<ReadOnly>, c: Calls, cRo: Calls)
      returns (ok: bool)
      requires want.Valid()
      modifies this`deployments, want`annotations, want`podAnnotations, want.annotations, want.podAnnotations
      ensures deployments
           == Pass(old(deployments), Component(old(want.Value()), old(want.podAnnotations) != null, gone, readOnly),
                   c, cRo)
      ensures ok
           == PassOk(old(deployments), Component(old(want.Value()), old(want.podAnnotations) != null, gone, readOnly),
                     c, cRo)
    {
      hide Sync, LeftInMemory, Companion, Reported;
      var result := SyncOne(want, gone, c);
      ok := result.Success?;
      if readOnly.Some? {
        var companion := want.GenReadonly(readOnly.value);
        result := SyncOne(companion, gone || readOnly.value.replicas == 0, cRo);
        ok := ok && result.Success?;
      }
    }

    method SyncDaemonSet(want: WorkloadObject, gone: bool, c: Calls) returns (result: Result)
      requires want.Valid()
      modifies this`daemonSets, want.podAnnotations
      ensures daemonSets == Sync(DaemonSet, old(daemonSets), old(want.Value()), gone, c)
      ensures result == Reported(DaemonSet, old(daemonSets), old(want.Value()), gone, c)
    {
      hide SelectorMatches, SameAsRecorded, Stamp, Updated;
      if want.name !in daemonSets {
        if gone {
          return Success;
        }
        if Applied(c.write) {
          daemonSets := daemonSets[want.name := want.Value()];
        }
        return if c.write.Done? then Success else Failure;
      }
      var stored := daemonSets[want.name];
      if gone {
        if Applied(c.delete) {
          daemonSets := daemonSets - {want.name};
        }
        return if c.delete.Done? then Success else Failure;
      }
      var matches := SelectorMatchesLabels(stored.spec.selector, want.podLabels);
      if !matches {
        if Applied(c.delete) {
          daemonSets := daemonSets - {want.name};
        }
        if !c.delete.Done? {
          return Failure;
        }
        if Applied(c.write) {
          daemonSets := daemonSets[want.name := want.Value()];
        }
        return if c.write.Done? then Success else Failure;
      }
      if SameAsRecorded(DaemonSet, want.PodSpec(), stored) {
        return Success;
      }
      var ds := UpdatedCopy(DaemonSet, want, stored);
      if Applied(c.write) {
        daemonSets := daemonSets[want.name := ds.Value()];
      }
      return if c.write.Done? then Success else Failure;
    }
  }
}
