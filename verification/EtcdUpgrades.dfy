/**
  Versions of the etcd pods: no tick ever makes a pod run anything but its old
  version or the target, so a calm run ends with every pod at the target within a
  number of ticks that is known at its start.
 */
module EtcdUpgrades {
  import opened Wrappers
  import opened EtcdMembers
  import opened EtcdProtocol
  import opened EtcdSafety
  import opened EtcdConvergence

  /** Every pod is an earlier one, unchanged, or has the target version or the one that created pods get. */
  ghost predicate Evolves(before: Pods, after: Pods, cfg: Config) {
    forall n | n in after :: PodEvolves(before, n, after[n], cfg)
  }

  predicate PodEvolves(before: Pods, n: Name, pod: Pod, cfg: Config) {
    (n in before && pod == before[n]) || pod.version in {cfg.version, CreatedVersion(cfg)}
  }

  /** The pod of a new member has the target version, or the default one if no target is set, and is old only then. */
  lemma NewPodVersion(st: State, cfg: Config, env: Env)
    requires st.members.Some? && AddOneMember(st, cfg, env).err == NoErr
    ensures var r := AddOneMember(st, cfg, env).state;
      && env.newName in r.pods && r.pods[env.newName].version == (if cfg.version == "" then "3.5.12" else cfg.version)
      && (r.pods[env.newName].version != cfg.version <==> cfg.version == "")
  {
  }

  lemma EvolvesTwice(a: Pods, b: Pods, c: Pods, cfg: Config)
    requires Evolves(a, b, cfg) && Evolves(b, c, cfg)
    ensures Evolves(a, c, cfg)
  {
    forall n | n in c
      ensures PodEvolves(a, n, c[n], cfg)
    {
      assert PodEvolves(b, n, c[n], cfg);
      if n in b {
        assert PodEvolves(a, n, b[n], cfg);
      }
    }
  }

  lemma FewerEvolves(before: Pods, after: Pods, cfg: Config)
    requires forall n | n in after :: n in before && after[n] == before[n]
    ensures Evolves(before, after, cfg)
  {
  }

  lemma ResizeEvolves(st: State, cfg: Config, env: Env)
    requires st.members.Some?
    ensures Evolves(st.pods, Resize(st, cfg, env).state.pods, cfg)
  {
  }

  lemma ReconcileMembersEvolves(st: State, running: set<Name>, cfg: Config, env: Env)
    requires st.members.Some?
    ensures Evolves(st.pods, ReconcileMembers(st, running, cfg, env).state.pods, cfg)
  {
    hide DeletePods, Resize, RemovePicked, Evolves;
    var ms := st.members.value;
    var unknown := running - ms.Keys;
    var live := running - unknown;
    var del := DeletePods(st.pods, env.order(unknown), env.deletePod);
    var st1 := st.(pods := del.pods);
    DeletePodsEffect(st.pods, env.order(unknown), env.deletePod);
    FewerEvolves(st.pods, del.pods, cfg);
    if del.ok && |live| == |ms| {
      ResizeEvolves(st1, cfg, env);
      EvolvesTwice(st.pods, del.pods, Resize(st1, cfg, env).state.pods, cfg);
    } else if del.ok && |live| >= |ms| / 2 + 1 {
      PickedEvolves(st1, ms.Keys - live, cfg, env);
      EvolvesTwice(st.pods, del.pods, RemovePicked(st1, ms.Keys - live, cfg, env).state.pods, cfg);
    }
  }

  lemma PickedEvolves(st: State, from: set<Name>, cfg: Config, env: Env)
    requires st.members.Some? && from <= st.members.value.Keys
    ensures Evolves(st.pods, RemovePicked(st, from, cfg, env).state.pods, cfg)
  {
  }

  lemma ReconcileEvolves(st: State, running: set<Name>, cfg: Config, env: Env)
    requires st.members.Some?
    ensures Evolves(st.pods, Reconcile(st, running, cfg, env).state.pods, cfg)
  {
    hide ReconcileMembers, FirstOld;
    if running != st.members.value.Keys || |st.members.value| != cfg.size {
      ReconcileMembersEvolves(st, running, cfg, env);
    }
  }

  lemma {:induction false} CleanAllShrinks(st: State, order: seq<Name>, cfg: Config, env: Env)
    requires st.members.Some?
    ensures var after := CleanAllMembers(st, order, cfg, env).state.pods;
      forall n | n in after :: n in st.pods && after[n] == st.pods[n]
    decreases order
  {
    if order != [] {
      var n := order[0];
      var pods := DeletePod(st.pods, n, env.deletePod(n)).pods;
      CleanAllShrinks(st.(pods := pods, members := Some(st.members.value - {n})), order[1..], cfg, env);
    }
  }

  lemma AfterReconcileEvolves(r: Step, cfg: Config, env: Env)
    requires r.state.members.Some?
    ensures Evolves(r.state.pods, AfterReconcile(r, cfg, env).state.pods, cfg)
  {
    hide CleanAllMembers;
    if r.err == LostQuorum {
      CleanAllShrinks(r.state, env.order(r.state.members.value.Keys), cfg, env);
    }
  }

  /** One tick, whatever fails in it, leaves every pod at its old version or at the target. */
  lemma TickEvolves(st: State, rerr: Err, cfg: Config, env: Env)
    requires ValidOrder(env)
    ensures Evolves(st.pods, OneTick(st, rerr, cfg, env).state.pods, cfg)
  {
    hide Reconcile, AfterReconcile, DropFailed, Evolves, ValidOrder;
    DropFailedEffect(st, cfg, env);
    var st1 := DropFailed(st, cfg, env);
    FewerEvolves(st.pods, st1.pods, cfg);
    FewerEvolves(st.pods, st.pods, cfg);
    var before := BeforeReconcile(st, rerr, cfg, env);
    if before.Some? {
      TickReconciles(st, rerr, cfg, env);
      var running := RunningPods(st.pods);
      var r := Reconcile(before.value, running, cfg, env);
      ReconcileEvolves(before.value, running, cfg, env);
      AfterReconcileEvolves(r, cfg, env);
      EvolvesTwice(st.pods, st1.pods, r.state.pods, cfg);
      EvolvesTwice(st.pods, r.state.pods, OneTick(st, rerr, cfg, env).state.pods, cfg);
    }
  }

  /** With a target version set, nothing that evolves becomes outdated. */
  lemma OutdatedShrinks(before: State, after: State, cfg: Config)
    requires Evolves(before.pods, after.pods, cfg) && cfg.version != ""
    ensures Outdated(after, cfg.version) <= Outdated(before, cfg.version)
  {
    forall n | n in Outdated(after, cfg.version)
      ensures n in Outdated(before, cfg.version)
    {
      assert PodEvolves(before.pods, n, after.pods[n], cfg);
    }
  }

  lemma OutdatedSettled(st: State, version: string)
    ensures Outdated(st.(pods := Settle(st.pods)), version) == Outdated(st, version)
  {
    Settled(st.pods);
  }

  /** A run in which pods only come up never has more old pods than before, whatever calls fail. */
  lemma OldPodsNeverGrow(st: State, inputs: seq<Input>, cfg: Config, k: nat)
    requires k < |inputs| && ValidOrder(inputs[k].env) && inputs[k].cfg == cfg && cfg.version != ""
    requires inputs[k].pods == Settle(RunTicks(st, inputs, k).state.pods)
    ensures Outdated(RunTicks(st, inputs, k + 1).state, cfg.version)
         <= Outdated(RunTicks(st, inputs, k).state, cfg.version)
  {
    hide OneTick, Outdated, ValidOrder, Settle, Evolves;
    var t := RunTicks(st, inputs, k);
    var s := t.state.(pods := inputs[k].pods);
    OutdatedSettled(t.state, cfg.version);
    if t.exit == Stay {
      TickEvolves(s, t.rerr, cfg, inputs[k].env);
      OutdatedShrinks(s, RunTicks(st, inputs, k + 1).state, cfg);
    }
  }

  lemma CalmNeverGrows(st: State, cfg: Config, inputs: seq<Input>, k: nat)
    requires k < |inputs| && ValidInputs(st, inputs) && CalmInputs(st, cfg, inputs) && cfg.version != ""
    ensures OutdatedAt(st, cfg, inputs, k + 1) <= OutdatedAt(st, cfg, inputs, k)
  {
    hide Outdated, RunTicks, Settle, Fresh, AllDone, ValidOrder;
    OldPodsNeverGrow(st, inputs, cfg, k);
    SubsetSize(Outdated(RunTicks(st, inputs, k + 1).state, cfg.version),
               Outdated(RunTicks(st, inputs, k).state, cfg.version));
  }

  lemma {:induction false} OldPodsBounded(st: State, cfg: Config, inputs: seq<Input>, k: nat)
    requires k <= |inputs| && ValidInputs(st, inputs) && CalmInputs(st, cfg, inputs) && cfg.version != ""
    ensures OutdatedAt(st, cfg, inputs, k) <= |Outdated(st, cfg.version)|
  {
    hide Outdated, OneTick, ValidInputs, CalmInputs;
    if k > 0 {
      OldPodsBounded(st, cfg, inputs, k - 1);
      CalmNeverGrows(st, cfg, inputs, k - 1);
    }
  }

  /**
    A calm run has converged and has no old pod left once it has lasted for the
    ticks needed to converge plus one tick per pod that was old at its start.
   */
  lemma UpgradedByKnownTick(st: State, cfg: Config, inputs: seq<Input>, k: nat)
    requires cfg.size >= 1 && cfg.version != "" && Healthy(st)
    requires TicksNeeded(st, cfg.size) + |Outdated(st, cfg.version)| <= k <= |inputs|
    requires ValidInputs(st, inputs) && CalmInputs(st, cfg, inputs)
    ensures Converged(RunTicks(st, inputs, k).state, cfg.size)
    ensures OutdatedAt(st, cfg, inputs, k) == 0
  {
    hide Outdated, OneTick, Healthy, ValidInputs, CalmInputs, TicksNeeded, OutdatedAt, Converged;
    var j := TicksNeeded(st, cfg.size);
    ConvergesExactly(st, cfg, inputs, k);
    OldPodsBounded(st, cfg, inputs, j);
    UpgradesOnePerTick(st, cfg, inputs, j, k);
  }
}
