/**
  What comes of the run that `sync` starts. A created cluster grows to the target
  size: the seed's ID is not known to the operator, so its view agrees with etcd by
  names only, but growing and upgrading do not need more than that. A running
  cluster that is taken over, with no view yet, converges as any other.
 */
module EtcdBootstrap {
  import opened Wrappers
  import opened EtcdProtocol
  import opened EtcdSafety
  import opened EtcdConvergence
  import opened EtcdUpgrades
  import opened EtcdPhases

  /** The names agree with etcd's, every member has a pod that runs at the next tick, and nothing is to be removed. */
  ghost predicate Growing(st: State, size: int) {
    && st.members.Some? && st.members.value.Keys == st.etcd.Keys && st.etcd.Keys <= Up(st)
    && 1 <= |st.etcd| <= size
  }

  function Min(x: int, y: int): int {
    if x < y then x else y
  }

  /** What a growing tick reaches. */
  ghost predicate Grown(st: State, next: State, size: int) {
    && Growing(next, size) && Up(next) == next.etcd.Keys
    && st.etcd.Keys <= next.etcd.Keys && |next.etcd| == Min(|st.etcd| + 1, size)
  }

  /** Exactly the members run, and they are as many as wanted. */
  ghost predicate Full(st: State, size: int) {
    Up(st) == st.etcd.Keys && |st.etcd| == size
  }

  /** A grown state, in which an old pod of a full cluster has been upgraded. */
  ghost predicate GrownOrUpgraded(st: State, next: State, cfg: Config) {
    && Grown(st, next, cfg.size)
    && (Full(st, cfg.size) ==> |Outdated(next, cfg.version)| == Monus(|Outdated(st, cfg.version)|, 1))
  }

  lemma GrowResize(st: State, cfg: Config, env: Env)
    requires Growing(st, cfg.size) && Up(st) == st.etcd.Keys && Fresh(st, env) && AllDone(env)
    ensures var r := Resize(st, cfg, env); r.err == NoErr && Grown(st, r.state, cfg.size)
  {
    hide Up, AllDone;
    if |st.etcd| < cfg.size {
      CalmAdd(st, cfg, env);
    }
  }

  lemma GrowReconcileMembers(st: State, cfg: Config, env: Env)
    requires Growing(st, cfg.size) && Up(st) == RunningPods(st.pods)
    requires Fresh(st, env) && ValidOrder(env) && AllDone(env)
    ensures var r := ReconcileMembers(st, RunningPods(st.pods), cfg, env);
      r.err == NoErr && Grown(st, r.state, cfg.size)
  {
    hide Up, AllDone, ValidOrder, DeletePods, Resize, RemovePicked, Fresh, RunningPods;
    var running, all := RunningPods(st.pods), st.etcd.Keys;
    var live := running - (running - all);
    assert live == running * all == all;
    CalmCleanup(st, cfg, env);
    GrowResize(WithoutUnknown(st, env), cfg, env);
  }

  lemma GrowUpgrade(st: State, cfg: Config, env: Env)
    requires Growing(st, cfg.size) && Up(st) == RunningPods(st.pods) == st.etcd.Keys && |st.etcd| == cfg.size
    requires ValidOrder(env) && AllDone(env)
    ensures var r := Reconcile(st, RunningPods(st.pods), cfg, env);
      r.err == NoErr && GrownOrUpgraded(st, r.state, cfg)
  {
    hide RunningPods, Settle, FirstOld, ReconcileMembers;
    SettledOld(st.pods, cfg.version);
    var running := RunningPods(st.pods);
    var outdated := OldPods(st.pods, running, cfg.version);
    var first := FirstOld(env.order(running), outdated);
    FirstOldFinds(env.order(running), outdated);
    if first.Some? {
      UpgradedPod(st.pods, first.value, cfg.version);
    } else {
      assert outdated == {};
    }
  }

  lemma GrowReconcile(st: State, cfg: Config, env: Env)
    requires Growing(st, cfg.size) && Up(st) == RunningPods(st.pods)
    requires Fresh(st, env) && ValidOrder(env) && AllDone(env)
    ensures var r := Reconcile(st, RunningPods(st.pods), cfg, env);
      r.err == NoErr && GrownOrUpgraded(st, r.state, cfg)
  {
    hide Settle, AllDone, ValidOrder, ReconcileMembers, FirstOld, UpgradeOneMember, OldPods, RunningPods, Monus;
    if RunningPods(st.pods) != st.etcd.Keys || |st.etcd| != cfg.size {
      GrowReconcileMembers(st, cfg, env);
    } else {
      GrowUpgrade(st, cfg, env);
    }
  }

  lemma GrowTick(st: State, cfg: Config, env: Env)
    requires Growing(st, cfg.size) && Up(st) == RunningPods(st.pods) && InPhase(st.pods, Pending) == {}
    requires Fresh(st, env) && ValidOrder(env) && AllDone(env)
    ensures var t := OneTick(st, NoErr, cfg, env);
      t.exit == Stay && t.rerr == NoErr && GrownOrUpgraded(st, t.state, cfg)
  {
    hide Reconcile, DropFailed, Settle, ValidOrder, AllDone, RunningPods, InPhase;
    var st1 := DropFailed(st, cfg, env);
    DropFailedEffect(st, cfg, env);
    StaysSettled(st.pods, st1.pods);
    OutdatedWithoutFailed(st, cfg, env);
    GrowReconcile(st1, cfg, env);
    ActsAtOnce(st, cfg, env);
    TickReconciles(st, NoErr, cfg, env);
  }

  lemma OutdatedWithoutFailed(st: State, cfg: Config, env: Env)
    requires ValidOrder(env) && Up(st) == RunningPods(st.pods)
    ensures Outdated(DropFailed(st, cfg, env), cfg.version) == Outdated(st, cfg.version)
  {
    DropFailedEffect(st, cfg, env);
    StaysSettled(st.pods, DropFailed(st, cfg, env).pods);
    hide DropFailed;
    assert Up(DropFailed(st, cfg, env)) == Up(st);
  }

  lemma ActsAtOnce(st: State, cfg: Config, env: Env)
    requires Growing(st, cfg.size) && Up(st) == RunningPods(st.pods) && InPhase(st.pods, Pending) == {} && AllDone(env)
    ensures BeforeReconcile(st, NoErr, cfg, env) == Some(DropFailed(st, cfg, env))
  {
    hide DropFailed, Settle, InPhase;
    assert |st.etcd.Keys| >= 1;
  }

  lemma {:induction false} GrowsOnePerTick(st: State, cfg: Config, inputs: seq<Input>, k: nat)
    requires k <= |inputs| && Growing(st, cfg.size) && ValidInputs(st, inputs) && CalmInputs(st, cfg, inputs)
    ensures var t := RunTicks(st, inputs, k);
      && t.exit == Stay && t.rerr == NoErr && Growing(t.state, cfg.size)
      && st.etcd.Keys <= t.state.etcd.Keys && |t.state.etcd| == Min(|st.etcd| + k, cfg.size)
      && (k >= 1 ==> Up(t.state) == t.state.etcd.Keys)
  {
    hide OneTick, ValidInputs, CalmInputs, Up;
    if k > 0 {
      GrowsOnePerTick(st, cfg, inputs, k - 1);
      GrowNext(st, cfg, inputs, k - 1);
    }
  }

  lemma GrowNext(st: State, cfg: Config, inputs: seq<Input>, k: nat)
    requires k < |inputs| && ValidInputs(st, inputs) && CalmInputs(st, cfg, inputs)
    requires var t := RunTicks(st, inputs, k); t.exit == Stay && t.rerr == NoErr && Growing(t.state, cfg.size)
    ensures var t, next := RunTicks(st, inputs, k), RunTicks(st, inputs, k + 1);
      next.exit == Stay && next.rerr == NoErr && GrownOrUpgraded(t.state, next.state, cfg)
  {
    hide OneTick, AllDone, ValidOrder, Fresh, Settle, Outdated;
    var t := RunTicks(st, inputs, k);
    Settled(t.state.pods);
    OutdatedSettled(t.state, cfg.version);
    GrowTick(t.state.(pods := inputs[k].pods), cfg, inputs[k].env);
  }

  ghost function GrowTicks(st: State, size: int): int {
    if Up(st) != st.etcd.Keys && |st.etcd| == size then 1 else size - |st.etcd|
  }

  /** Full after `k` ticks exactly when `k` has reached the missing members, or one tick for unexpected pods. */
  lemma FullExactly(st: State, cfg: Config, inputs: seq<Input>, k: nat)
    requires k <= |inputs| && Growing(st, cfg.size) && ValidInputs(st, inputs) && CalmInputs(st, cfg, inputs)
    ensures Full(RunTicks(st, inputs, k).state, cfg.size) <==> k >= GrowTicks(st, cfg.size)
  {
    hide ValidInputs, CalmInputs, Up, OneTick;
    GrowsOnePerTick(st, cfg, inputs, k);
    assert RunTicks(st, inputs, 0).state == st;
  }

  /** Once full, the cluster loses one old pod per tick until none is left, although no ID was ever refreshed. */
  lemma {:induction false} FullUpgradesOnePerTick(st: State, cfg: Config, inputs: seq<Input>, j: nat, k: nat)
    requires GrowTicks(st, cfg.size) <= j <= k <= |inputs| && Growing(st, cfg.size)
    requires ValidInputs(st, inputs) && CalmInputs(st, cfg, inputs)
    ensures OutdatedAt(st, cfg, inputs, k) == Monus(OutdatedAt(st, cfg, inputs, j), k - j)
  {
    hide ValidInputs, CalmInputs, Up, RunTicks, Outdated, GrowTicks, Full;
    if j < k {
      FullUpgradesOnePerTick(st, cfg, inputs, j, k - 1);
      GrowsOnePerTick(st, cfg, inputs, k - 1);
      FullExactly(st, cfg, inputs, k - 1);
      GrowNext(st, cfg, inputs, k - 1);
    }
  }

  /** So it is full with no old pod left after a number of ticks that is known at the start. */
  lemma FullAndUpgradedByKnownTick(st: State, cfg: Config, inputs: seq<Input>, k: nat)
    requires Growing(st, cfg.size) && cfg.version != "" && ValidInputs(st, inputs) && CalmInputs(st, cfg, inputs)
    requires GrowTicks(st, cfg.size) + |Outdated(st, cfg.version)| <= k <= |inputs|
    ensures Full(RunTicks(st, inputs, k).state, cfg.size) && OutdatedAt(st, cfg, inputs, k) == 0
  {
    hide ValidInputs, CalmInputs, Up, RunTicks, Outdated, OutdatedAt, Full;
    var j := GrowTicks(st, cfg.size);
    FullExactly(st, cfg, inputs, k);
    OldPodsBounded(st, cfg, inputs, j);
    FullUpgradesOnePerTick(st, cfg, inputs, j, k);
  }

  /**
    Whenever `sync` creates a cluster, over whatever pods were left behind, a calm
    run has after k ticks exactly min(1 + k, size) members in etcd, the names of
    the view are etcd's, and from the first tick on exactly these members run.
   */
  lemma BootstrapReachesSize(st: State, cfg: Config, setup: SetupEnv, inputs: seq<Input>, k: nat)
    requires SyncStart(st, cfg, setup).looping && !st.saved.PhaseRunning? && cfg.size >= 1
    requires var s := SyncStart(st, cfg, setup).state;
      k <= |inputs| && ValidInputs(s, inputs) && CalmInputs(s, cfg, inputs)
    ensures var t := RunTicks(SyncStart(st, cfg, setup).state, inputs, k);
      && t.exit == Stay && t.rerr == NoErr
      && |t.state.etcd| == Min(1 + k, cfg.size) && setup.seed in t.state.etcd
      && t.state.members.Some? && t.state.members.value.Keys == t.state.etcd.Keys
      && (k >= 1 ==> Up(t.state) == t.state.etcd.Keys)
  {
    hide SyncStart, RunTicks, ValidInputs, CalmInputs, Up;
    var s := SyncStart(st, cfg, setup).state;
    LoopStartsFrom(st, cfg, setup);
    SeedComesUp(st, cfg, setup);
    assert s.etcd.Keys == {setup.seed};
    GrowsOnePerTick(s, cfg, inputs, k);
  }

  lemma SeedComesUp(st: State, cfg: Config, setup: SetupEnv)
    requires SyncStart(st, cfg, setup).looping && !st.saved.PhaseRunning?
    ensures setup.seed in Up(SyncStart(st, cfg, setup).state)
  {
  }

  /** After a lost quorum and a completed clean-up, the same holds for the cluster that replaces the lost one. */
  lemma RebuildReachesSize(
      st: State, inputs: seq<Input>, n: nat, cfg: Config, setup: SetupEnv, later: seq<Input>, k: nat)
    requires n <= |inputs| && forall i | 0 <= i < |inputs| :: ValidOrder(inputs[i].env)
    requires RunTicks(st, inputs, n).exit == Rebuild && Smooth(setup) && cfg.size >= 1
    requires var s := SyncStart(RunTicks(st, inputs, n).state, cfg, setup).state;
      k <= |later| && ValidInputs(s, later) && CalmInputs(s, cfg, later)
    ensures var t := RunTicks(SyncStart(RunTicks(st, inputs, n).state, cfg, setup).state, later, k);
      && t.exit == Stay && t.rerr == NoErr && |t.state.etcd| == Min(1 + k, cfg.size)
      && t.state.members.Some? && t.state.members.value.Keys == t.state.etcd.Keys
      && (k >= 1 ==> Up(t.state) == t.state.etcd.Keys)
  {
    hide SyncStart, RunTicks, ValidInputs, CalmInputs, Up, ValidOrder;
    RunExitsFailed(st, inputs, n);
    RebuildRestarts(st, inputs, n, cfg, setup);
    BootstrapReachesSize(RunTicks(st, inputs, n).state, cfg, setup, later, k);
  }

  /** With the size that `Sync` has written, that is one member, or at least three iff there are three masters. */
  lemma SyncedClusterReachesSize(
      st: State, cfg: Config, size: int, masters: nat, setup: SetupEnv, inputs: seq<Input>, k: nat)
    requires cfg.size == FixEtcdSize(size, masters) && SyncStart(st, cfg, setup).looping && !st.saved.PhaseRunning?
    requires var s := SyncStart(st, cfg, setup).state;
      cfg.size - 1 <= k <= |inputs| && ValidInputs(s, inputs) && CalmInputs(s, cfg, inputs)
    ensures var n := |RunTicks(SyncStart(st, cfg, setup).state, inputs, k).state.etcd|;
      n == cfg.size && (n >= 3 <==> masters >= 3) && (masters < 3 ==> n == 1)
  {
    hide SyncStart, RunTicks, ValidInputs, CalmInputs;
    BootstrapReachesSize(st, cfg, setup, inputs, k);
  }

  /**
    An operator that restarts takes a running cluster over without a view of it. If a
    majority of the members runs, it converges after exactly the ticks that are
    needed, and is at the target version after one more tick per old pod.
   */
  lemma TakeoverConverges(st: State, cfg: Config, setup: SetupEnv, inputs: seq<Input>, k: nat)
    requires st.saved.PhaseRunning? && setup.tlsReady && Healthy(st) && cfg.size >= 1
    requires var s := SyncStart(st, cfg, setup).state;
      k <= |inputs| && ValidInputs(s, inputs) && CalmInputs(s, cfg, inputs)
    ensures SyncStart(st, cfg, setup).looping
    ensures var s := SyncStart(st, cfg, setup).state;
      var t := RunTicks(s, inputs, k);
      && t.exit == Stay && t.rerr == NoErr
      && (Converged(t.state, cfg.size) <==> k >= TicksNeeded(st, cfg.size))
      && (cfg.version != "" && k >= TicksNeeded(st, cfg.size) + |Outdated(st, cfg.version)| ==>
            OutdatedAt(s, cfg, inputs, k) == 0)
  {
    SyncEntersLoopIff(st, cfg, setup);
    LoopStartsFrom(st, cfg, setup);
    hide SyncStart, RunTicks, ValidInputs, CalmInputs, ValidEtcd, Settle, OutdatedAt;
    var s := SyncStart(st, cfg, setup).state;
    assert TicksNeeded(s, cfg.size) == TicksNeeded(st, cfg.size);
    assert Outdated(s, cfg.version) == Outdated(st, cfg.version);
    ConvergesExactly(s, cfg, inputs, k);
    if cfg.version != "" && k >= TicksNeeded(st, cfg.size) + |Outdated(st, cfg.version)| {
      UpgradedByKnownTick(s, cfg, inputs, k);
    }
  }
}
