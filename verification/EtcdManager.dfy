/**
  `etcdManager` of pkg/manager/component/etcd.go: the fields it updates in place
  and the methods of its reconcile loop, each proved against the protocol
  functions. `etcd`, `pods` and `saved` stand for the world outside: etcd's own
  membership, the pods in Kubernetes and the phase in the cluster object.
 */
module EtcdManagement {
  import opened Wrappers
  import opened EtcdMembers
  import P = EtcdProtocol
  import Safety = EtcdSafety
  import Phases = EtcdPhases
  import Ticks = EtcdTicks

  class EtcdManager {
    var members: Option<MemberSet>
    var phase: P.Phase
    var size: nat

    var etcd: map<Name, Id>
    var pods: P.Pods
    var saved: P.Phase

    ghost function Model(): P.State
      reads this
    {
      P.State(members, phase, size, etcd, pods, saved)
    }

    /** A process starts with no members and an empty status. */
    constructor (etcd: map<Name, Id>, pods: P.Pods, saved: P.Phase)
      ensures Model() == P.State(None, P.PhaseNone, 0, etcd, pods, saved)
    {
      this.members, this.phase, this.size := None, P.PhaseNone, 0;
      this.etcd, this.pods, this.saved := etcd, pods, saved;
    }

    /* ---------- pods ---------- */

    method RemovePod(n: Name, o: Outcome) returns (ok: bool)
      modifies this`pods
      ensures P.PodStep(pods, ok) == P.DeletePod(old(pods), n, o)
    {
      if Applied(o) {
        pods := pods - {n};
      }
      ok := o.Done?;
    }

    method RemovePods(names: seq<Name>, outcome: Name -> Outcome) returns (ok: bool)
      modifies this`pods
      ensures P.PodStep(pods, ok) == P.DeletePods(old(pods), names, outcome)
    {
      for i := 0 to |names|
        invariant P.DeletePods(old(pods), names, outcome) == P.DeletePods(pods, names[i..], outcome)
      {
        ok := RemovePod(names[i], outcome(names[i]));
        assert names[i..][1..] == names[i + 1..];
        if !ok {
          return;
        }
      }
      ok := true;
    }

    method DropFailedPods(names: seq<Name>, outcome: Name -> Outcome)
      modifies this`pods
      ensures pods == P.DropPods(old(pods), names, outcome)
    {
      for i := 0 to |names|
        invariant P.DropPods(old(pods), names, outcome) == P.DropPods(pods, names[i..], outcome)
      {
        var _ := RemovePod(names[i], outcome(names[i]));
        assert names[i..][1..] == names[i + 1..];
      }
    }

    /** What Kubernetes lists: the cluster's pods, and others that match the selector. */
    method ListPods(skipped: seq<P.SkippedPod>) returns (listed: seq<P.ListedPod>)
      ensures forall p | p in listed && P.IsPolled(p) :: p.name in pods && pods[p.name] == p.pod
      ensures forall n | n in pods :: P.ListedPod(n, pods[n], false, P.ThisCluster) in listed
    {
      listed := skipped;
      var todo := pods.Keys;
      while todo != {}
        invariant todo <= pods.Keys
        invariant forall p | p in listed && P.IsPolled(p) :: p.name in pods && pods[p.name] == p.pod
        invariant forall n | n in pods && n !in todo :: P.ListedPod(n, pods[n], false, P.ThisCluster) in listed
        decreases todo
      {
        var n :| n in todo;
        listed := listed + [P.ListedPod(n, pods[n], false, P.ThisCluster)];
        todo := todo - {n};
      }
    }

    /**
      `pollPods` passes over pods that are being deleted or have another owner and sorts
      the others by phase; pods that have succeeded are in none of the lists.
     */
    method PollPods(listed: seq<P.ListedPod>) returns (running: set<Name>, pending: set<Name>, failed: set<Name>)
      ensures running == P.PolledIn(listed, P.Running)
      ensures pending == P.PolledIn(listed, P.Pending)
      ensures failed == P.PolledIn(listed, P.Failed)
      ensures running + pending + failed
           == set p | p in listed && !p.deleting && p.owner == P.ThisCluster && p.pod.phase != P.Succeeded :: p.name
    {
      running, pending, failed := {}, {}, {};
      for i := 0 to |listed|
        invariant running == P.PolledIn(listed[..i], P.Running)
        invariant pending == P.PolledIn(listed[..i], P.Pending)
        invariant failed == P.PolledIn(listed[..i], P.Failed)
      {
        var p := listed[i];
        PolledNext(listed, i);
        if p.deleting || !p.owner.ThisCluster? {
          continue;
        }
        match p.pod.phase {
          case Running => running := running + {p.name};
          case Pending => pending := pending + {p.name};
          case Failed => failed := failed + {p.name};
          case Succeeded =>
        }
      }
      assert listed[..|listed|] == listed;
    }

    static function NameIf(p: P.ListedPod, phase: P.PodPhase): set<Name> {
      if P.IsPolled(p) && p.pod.phase == phase then {p.name} else {}
    }

    static lemma PolledNext(listed: seq<P.ListedPod>, i: nat)
      requires i < |listed|
      ensures forall phase ::
        P.PolledIn(listed[..i + 1], phase) == P.PolledIn(listed[..i], phase) + NameIf(listed[i], phase)
    {
      assert listed[..i + 1] == listed[..i] + [listed[i]];
    }

    /** Polling what is listed finds exactly the cluster's pods. */
    lemma PolledAreListed(listed: seq<P.ListedPod>, phase: P.PodPhase)
      requires forall p | p in listed && P.IsPolled(p) :: p.name in pods && pods[p.name] == p.pod
      requires forall n | n in pods :: P.ListedPod(n, pods[n], false, P.ThisCluster) in listed
      ensures P.PolledIn(listed, phase) == P.InPhase(pods, phase)
    {
      forall n | n in P.InPhase(pods, phase)
        ensures n in P.PolledIn(listed, phase)
      {
        assert P.ListedPod(n, pods[n], false, P.ThisCluster) in listed;
      }
    }

    /** Lists and polls: what comes out are exactly the cluster's pods. */
    method PollCluster(skipped: seq<P.SkippedPod>)
      returns (running: set<Name>, pending: set<Name>, failed: set<Name>)
      ensures running == P.InPhase(pods, P.Running)
      ensures pending == P.InPhase(pods, P.Pending)
      ensures failed == P.InPhase(pods, P.Failed)
    {
      hide P.PolledIn, P.InPhase;
      var listed := ListPods(skipped);
      running, pending, failed := PollPods(listed);
      PolledAreListed(listed, P.Running);
      PolledAreListed(listed, P.Pending);
      PolledAreListed(listed, P.Failed);
    }

    method CreatePod(n: Name, cfg: P.Config, o: Outcome) returns (err: P.Err)
      modifies this`pods
      ensures P.Step(Model(), err) == P.CreatePod(old(Model()), n, cfg, o)
    {
      if Applied(o) {
        pods := pods[n := P.Pod(P.CreatedVersion(cfg), P.Pending)];
      }
      err := if o.Done? then P.NoErr else P.ApiErr;
    }

    /* ---------- membership ---------- */

    method AddOneMember(cfg: P.Config, env: P.Env) returns (err: P.Err)
      requires members.Some?
      modifies this
      ensures P.Step(Model(), err) == P.AddOneMember(old(Model()), cfg, env)
      ensures Safety.ValidEtcd(old(etcd)) && Safety.Fresh(old(Model()), env) ==>
        Safety.OneChange(old(Model()), P.Step(Model(), err))
    {
      hide Safety.OneChange, Safety.ValidEtcd, Safety.Fresh;
      if Safety.ValidEtcd(etcd) && Safety.Fresh(Model(), env) {
        Safety.AddChangesOne(Model(), cfg, env);
      }
      if Applied(env.memberAdd) {
        etcd := etcd[env.newName := env.newId];
      }
      if !env.memberAdd.Done? {
        return P.ApiErr;
      }
      members := Some(members.value[env.newName := env.newId]);
      err := CreatePod(env.newName, cfg, env.createPod);
    }

    method RemoveMember(n: Name, cfg: P.Config, env: P.Env) returns (err: P.Err)
      requires members.Some? && n in members.value
      modifies this
      ensures P.Step(Model(), err) == P.RemoveMember(old(Model()), n, cfg, env)
      ensures Safety.ValidEtcd(old(etcd)) ==>
        Safety.OneChange(old(Model()), P.Step(Model(), err))
    {
      hide Safety.OneChange, Safety.ValidEtcd, Safety.Fresh;
      if Safety.ValidEtcd(etcd) {
        Safety.RemoveChangesOne(Model(), n, cfg, env);
      }
      if Applied(env.memberRemove) {
        etcd := P.WithoutId(etcd, members.value[n]);
      }
      if !env.memberRemove.Done? {
        return P.ApiErr;
      }
      members := Some(members.value - {n});
      var ok := RemovePod(n, env.deletePod(n));
      if !ok {
        return P.ApiErr;
      }
      if cfg.claims && !env.claimDeleted(n) {
        return P.ApiErr;
      }
      return P.NoErr;
    }

    /** `PickOne` followed by `removeMember`. */
    method RemovePicked(from: set<Name>, cfg: P.Config, env: P.Env) returns (err: P.Err)
      requires members.Some? && from <= members.value.Keys
      modifies this
      ensures P.Step(Model(), err) == P.RemovePicked(old(Model()), from, cfg, env)
      ensures Safety.ValidEtcd(old(etcd)) ==>
        Safety.OneChange(old(Model()), P.Step(Model(), err))
    {
      hide Safety.OneChange, Safety.ValidEtcd, Safety.Fresh;
      if Safety.ValidEtcd(etcd) {
        Safety.PickChangesOne(Model(), from, cfg, env);
      }
      var order := env.order(from);
      if order == [] || order[0] !in from {
        return P.Panic;
      }
      err := RemoveMember(order[0], cfg, env);
    }

    method Resize(cfg: P.Config, env: P.Env) returns (err: P.Err)
      requires members.Some?
      modifies this
      ensures P.Step(Model(), err) == P.Resize(old(Model()), cfg, env)
      ensures Safety.ValidEtcd(old(etcd)) && Safety.Fresh(old(Model()), env) ==>
        Safety.OneChange(old(Model()), P.Step(Model(), err))
    {
      hide Safety.OneChange, Safety.ValidEtcd, Safety.Fresh;
      if Safety.ValidEtcd(etcd) && Safety.Fresh(Model(), env) {
        Safety.ResizeChangesOne(Model(), cfg, env);
      }
      if |members.value| == cfg.size {
        return P.NoErr;
      }
      if |members.value| < cfg.size {
        err := AddOneMember(cfg, env);
      } else {
        err := RemovePicked(members.value.Keys, cfg, env);
      }
    }

    method ReconcileMembers(running: set<Name>, cfg: P.Config, env: P.Env) returns (err: P.Err)
      requires members.Some?
      modifies this
      ensures P.Step(Model(), err) == P.ReconcileMembers(old(Model()), running, cfg, env)
      ensures Safety.ValidEtcd(old(etcd)) && Safety.Fresh(old(Model()), env) ==>
        Safety.OneChange(old(Model()), P.Step(Model(), err))
    {
      hide Safety.OneChange, Safety.ValidEtcd, Safety.Fresh;
      if Safety.ValidEtcd(etcd) && Safety.Fresh(Model(), env) {
        Safety.ReconcileMembersChangesOne(Model(), running, cfg, env);
      }
      var unknown := running - members.value.Keys;
      var ok := RemovePods(env.order(unknown), env.deletePod);
      if !ok {
        return P.ApiErr;
      }
      var live := running - unknown;
      if |live| == |members.value| {
        err := Resize(cfg, env);
      } else if |live| < |members.value| / 2 + 1 {
        err := P.LostQuorum;
      } else {
        err := RemovePicked(members.value.Keys - live, cfg, env);
      }
    }

    method PickOneOldMember(order: seq<Name>, outdated: set<Name>) returns (first: Option<Name>)
      ensures first == P.FirstOld(order, outdated)
      ensures first.Some? ==> first.value in order && first.value in outdated
      ensures first.None? ==> forall n | n in order :: n !in outdated
    {
      for i := 0 to |order|
        invariant P.FirstOld(order, outdated) == P.FirstOld(order[i..], outdated)
        invariant forall j | 0 <= j < i :: order[j] !in outdated
      {
        if order[i] in outdated {
          return Some(order[i]);
        }
        assert order[i..][1..] == order[i + 1..];
      }
      return None;
    }

    method UpgradeOneMember(n: Name, cfg: P.Config, env: P.Env) returns (err: P.Err)
      modifies this`pods
      ensures P.Step(Model(), err) == P.UpgradeOneMember(old(Model()), n, cfg, env)
    {
      if n !in pods {
        return P.ApiErr;
      }
      if Applied(env.patchPod) {
        pods := pods[n := pods[n].(version := cfg.version)];
      }
      return if env.patchPod.Done? then P.NoErr else P.ApiErr;
    }

    method Reconcile(running: set<Name>, cfg: P.Config, env: P.Env) returns (err: P.Err)
      requires members.Some?
      modifies this
      ensures P.Step(Model(), err) == P.Reconcile(old(Model()), running, cfg, env)
      ensures P.ValidOrder(env) && old(members).value != map[] && cfg.size >= 1 ==>
        err != P.Panic && members.value != map[]
      ensures P.ValidOrder(env) && running == P.RunningPods(old(pods)) ==>
        forall n | n in old(pods) && n !in pods :: Safety.MayDelete(old(Model()), running, cfg, n)
      ensures P.ValidOrder(env) ==>
        (err == P.LostQuorum <==>
           && old(members).value != map[] && !Majority(running, old(members).value.Keys)
           && Ticks.UnexpectedDone(old(members).value, running, env))
    {
      if P.ValidOrder(env) {
        Ticks.LostQuorumIff(Model(), running, cfg, env);
      }
      hide P.ReconcileMembers, P.ValidOrder, Safety.MayDelete;
      if P.ValidOrder(env) && running == P.RunningPods(pods) {
        forall n | n in pods && n !in P.Reconcile(Model(), running, cfg, env).state.pods
          ensures Safety.MayDelete(Model(), running, cfg, n)
        {
          Safety.DeletionsAreJustified(Model(), cfg, env, n);
        }
      }
      if P.ValidOrder(env) && members.value != map[] && cfg.size >= 1 {
        Safety.MembershipNeverEmptied(Model(), running, cfg, env);
      }
      if running != members.value.Keys || |members.value| != cfg.size {
        err := ReconcileMembers(running, cfg, env);
      } else {
        err := P.NoErr;
        var first := PickOneOldMember(env.order(running), P.OldPods(pods, running, cfg.version));
        if |running| == cfg.size && first.Some? {
          err := UpgradeOneMember(first.value, cfg, env);
        }
      }
      size := |members.value|;
    }

    method UpdateMembers(env: P.Env) returns (err: P.Err)
      requires P.ValidOrder(env)
      modifies this`members
      ensures P.Step(Model(), err) == P.UpdateMembers(old(Model()), env)
    {
      match env.listing {
        case ListFailed => return P.ApiErr;
        case BadPeerUrl => return P.Fatal;
        case Listed =>
      }
      var listed := env.order(etcd.Keys);
      var fresh': MemberSet := map[];
      for i := 0 to |listed|
        invariant forall j | 0 <= j < i :: listed[j] in fresh'
        invariant forall n | n in fresh' :: n in etcd && fresh'[n] == etcd[n]
      {
        assert listed[i] in listed;
        fresh' := fresh'[listed[i] := etcd[listed[i]]];
      }
      forall n | n in etcd
        ensures n in fresh'
      {
        assert n in listed;
      }
      assert fresh' == etcd;
      members := Some(fresh');
      return P.NoErr;
    }

    method UpdateEtcdStatus(o: Outcome) returns (ok: bool)
      modifies this`saved
      ensures Model() == P.SaveStatus(old(Model()), o) && ok == o.Done?
    {
      if Applied(o) {
        saved := phase;
      }
      ok := o.Done?;
    }

    method CleanAllMembers(order: seq<Name>, cfg: P.Config, env: P.Env) returns (err: P.Err)
      requires members.Some?
      modifies this
      ensures P.Step(Model(), err) == P.CleanAllMembers(old(Model()), order, cfg, env)
    {
      for i := 0 to |order|
        invariant members.Some?
        invariant P.CleanAllMembers(old(Model()), order, cfg, env) == P.CleanAllMembers(Model(), order[i..], cfg, env)
      {
        var n := order[i];
        assert order[i..][0] == n && order[i..][1..] == order[i + 1..];
        var ok := RemovePod(n, env.deletePod(n));
        if !ok {
          return P.ApiErr;
        }
        members := Some(members.value - {n});
        if cfg.claims && !env.claimDeleted(n) {
          return P.ApiErr;
        }
      }
      phase := P.PhaseFailed;
      size := 0;
      var ok := UpdateEtcdStatus(env.status);
      return if ok then P.NoErr else P.ApiErr;
    }

    /* ---------- the loop ---------- */

    /** The body of the `select` in `run`; `prior` and `rerr` are the loop's error variable before and after. */
    method Tick(prior: P.Err, cfg: P.Config, env: P.Env) returns (rerr: P.Err, exit: P.Exit)
      requires P.ValidOrder(env)
      modifies this
      ensures P.Tick(Model(), rerr, exit) == P.OneTick(old(Model()), prior, cfg, env)
      ensures Safety.ValidEtcd(old(etcd)) && Safety.Fresh(old(Model()), env) ==>
        && AtMostOneChange(old(etcd).Keys, etcd.Keys)
        && (Safety.ViewSettled(old(Model()), prior) && exit == P.Stay ==> Safety.ViewSettled(Model(), rerr))
      ensures P.InPhase(old(pods), P.Pending) != {} ==>
        Model() == old(Model()) && rerr == prior && exit == P.Stay
    {
      hide P.Reconcile, P.AfterReconcile, P.SaveStatus, P.DropPods, P.InPhase;
      hide Safety.ValidEtcd, Safety.Fresh, Safety.ViewSettled, AtMostOneChange;
      TickSafety(prior, cfg, env);
      rerr, exit := prior, P.Stay;
      if !env.fetched || !env.polled {
        return;
      }
      var running, pending, failed := PollCluster(env.skipped);
      if pending != {} {
        return;
      }
      if !cfg.keepFailedPods {
        DropFailedPods(env.order(failed), env.dropFailed);
      }
      if running == {} {
        phase := P.PhaseFailed;
        var _ := UpdateEtcdStatus(env.status);
        return rerr, P.AllDead;
      }
      if rerr != P.NoErr || members.None? {
        rerr := UpdateMembers(env);
        if rerr != P.NoErr {
          return;
        }
      }
      rerr := Reconcile(running, cfg, env);
      exit := FinishTick(rerr, cfg, env);
    }

    /** Safety of a tick, for the state it starts in. */
    lemma TickSafety(prior: P.Err, cfg: P.Config, env: P.Env)
      requires P.ValidOrder(env)
      ensures Safety.ValidEtcd(etcd) && Safety.Fresh(Model(), env) ==>
        var t := P.OneTick(Model(), prior, cfg, env);
        && AtMostOneChange(etcd.Keys, t.state.etcd.Keys)
        && (Safety.ViewSettled(Model(), prior) && t.exit == P.Stay ==> Safety.ViewSettled(t.state, t.rerr))
      ensures P.InPhase(pods, P.Pending) != {} ==>
        P.OneTick(Model(), prior, cfg, env) == P.Tick(Model(), prior, P.Stay)
    {
      hide P.OneTick;
      if n :| n in P.InPhase(pods, P.Pending) {
        Ticks.TickWaits(Model(), prior, cfg, env);
      }
      if Safety.ValidEtcd(etcd) && Safety.Fresh(Model(), env) {
        Safety.TickSafe(Model(), prior, cfg, env);
      }
    }

    method FinishTick(rerr: P.Err, cfg: P.Config, env: P.Env) returns (exit: P.Exit)
      requires members.Some?
      modifies this
      ensures P.Tick(Model(), rerr, exit) == P.AfterReconcile(P.Step(old(Model()), rerr), cfg, env)
    {
      if rerr == P.Panic {
        return P.Crash;
      } else if rerr == P.LostQuorum {
        var err := CleanAllMembers(env.order(members.value.Keys), cfg, env);
        return if err == P.NoErr then P.Rebuild else P.Stay;
      } else if rerr != P.NoErr {
        return P.Stay;
      }
      var _ := UpdateEtcdStatus(env.status);
      return P.Stay;
    }

    /** `run` for as many ticks as there are inputs. */
    method Run(inputs: seq<P.Input>) returns (rerr: P.Err, exit: P.Exit)
      requires forall i | 0 <= i < |inputs| :: P.ValidOrder(inputs[i].env)
      modifies this
      ensures P.Tick(Model(), rerr, exit) == P.RunTicks(old(Model()), inputs, |inputs|)
      ensures exit != P.FatalExit && (exit !in {P.Stay, P.Crash} ==> phase == P.PhaseFailed)
      ensures (forall i | 0 <= i < |inputs| :: inputs[i].cfg.size >= 0) ==> exit != P.Crash
    {
      Phases.RunExitsFailed(Model(), inputs, |inputs|);
      rerr, exit := P.NoErr, P.Stay;
      for i := 0 to |inputs|
        invariant P.Tick(Model(), rerr, exit) == P.RunTicks(old(Model()), inputs, i)
      {
        if exit == P.Stay {
          pods := inputs[i].pods;
          rerr, exit := Tick(rerr, inputs[i].cfg, inputs[i].env);
        }
      }
    }

    /* ---------- setup ---------- */

    method Create(cfg: P.Config, env: P.SetupEnv) returns (err: P.Err)
      modifies this
      ensures P.Step(Model(), err) == P.Create(old(Model()), cfg, env)
    {
      phase := P.Creating;
      var ok := UpdateEtcdStatus(env.saveCreating);
      if !ok {
        return P.ApiErr;
      }
      if Applied(env.createSeed) {
        pods := pods[env.seed := P.Pod(P.CreatedVersion(cfg), P.Pending)];
        etcd := map[env.seed := env.seedId];
      }
      if !env.createSeed.Done? {
        return P.ApiErr;
      }
      members := Some(map[env.seed := UNKNOWN_ID]);
      size := 1;
      return P.NoErr;
    }

    method Setup(cfg: P.Config, env: P.SetupEnv) returns (err: P.Err)
      modifies this
      ensures P.Step(Model(), err) == P.Setup(old(Model()), cfg, env)
    {
      var shouldCreate := false;
      match phase {
        case Creating => return P.ApiErr;
        case Unexpected(_) => return P.ApiErr;
        case PhaseRunning =>
        case PhaseNone => shouldCreate := true;
        case PhaseFailed => shouldCreate := true;
      }
      if !env.tlsReady {
        return P.ApiErr;
      }
      if shouldCreate {
        err := Create(cfg, env);
      } else {
        err := P.NoErr;
      }
    }

    /** `sync` up to the loop of `run`. */
    method Sync(cfg: P.Config, env: P.SetupEnv) returns (looping: bool)
      modifies this
      ensures P.Started(Model(), looping) == P.SyncStart(old(Model()), cfg, env)
      ensures looping <==>
        && Phases.Startable(old(saved)) && env.tlsReady
        && (!old(saved).PhaseRunning? ==> env.saveCreating.Done? && env.createSeed.Done?)
      ensures phase == if looping then P.PhaseRunning else P.PhaseFailed
    {
      phase := saved;
      var err := Setup(cfg, env);
      if err != P.NoErr {
        if phase != P.PhaseFailed {
          phase := P.PhaseFailed;
          var _ := UpdateEtcdStatus(env.saveFailed);
        }
        return false;
      }
      phase := P.PhaseRunning;
      var _ := UpdateEtcdStatus(env.saveRunning);
      return true;
    }
  }
}
