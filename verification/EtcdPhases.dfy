/** The persisted phase machine around the etcd loop: how `sync` gets into the loop and how `run` leaves it. */
module EtcdPhases {
  import opened Wrappers
  import opened EtcdMembers
  import opened EtcdProtocol
  import opened EtcdSafety

  const DEFAULT_CLUSTER_SIZE := 3
  const MASTERS_FOR_REPLICAS := 3

  /**
    `fixEtcdSize`: the target size that `Sync` writes into the cluster object before
    it starts the loop. The loop reads the object anew at every tick, so a later edit
    of the size is not bounded by this.
   */
  function FixEtcdSize(size: int, masters: nat): (r: int)
    ensures r >= 1
    ensures r >= DEFAULT_CLUSTER_SIZE <==> masters >= MASTERS_FOR_REPLICAS
    ensures masters >= MASTERS_FOR_REPLICAS ==> r >= size && (r == size || r == DEFAULT_CLUSTER_SIZE)
  {
    if masters < MASTERS_FOR_REPLICAS then 1
    else if size < DEFAULT_CLUSTER_SIZE then DEFAULT_CLUSTER_SIZE
    else size
  }

  /** Nothing that `sync` calls before the loop fails. */
  predicate Smooth(env: SetupEnv) {
    env.tlsReady && env.saveCreating.Done? && env.createSeed.Done? && env.saveFailed.Done? && env.saveRunning.Done?
  }

  /** The phases from which a cluster can be created or taken over. */
  predicate Startable(p: Phase) {
    p.PhaseNone? || p.PhaseFailed? || p.PhaseRunning?
  }

  /** Exactly when one `sync` enters the loop, with any failures. */
  lemma SyncEntersLoopIff(st: State, cfg: Config, env: SetupEnv)
    ensures SyncStart(st, cfg, env).looping
      <==> && Startable(st.saved) && env.tlsReady
           && (!st.saved.PhaseRunning? ==> env.saveCreating.Done? && env.createSeed.Done?)
  {
  }

  /** A `sync` that enters the loop keeps a running cluster and otherwise starts a one-member cluster. */
  lemma LoopStartsFrom(st: State, cfg: Config, env: SetupEnv)
    requires SyncStart(st, cfg, env).looping
    ensures var s := SyncStart(st, cfg, env).state;
      && s.phase == PhaseRunning
      && s.saved == (if Applied(env.saveRunning) || st.saved.PhaseRunning? then PhaseRunning else Creating)
      && if st.saved.PhaseRunning? then s.members == st.members && s.etcd == st.etcd && s.pods == st.pods
         else s.etcd == map[env.seed := env.seedId] && s.members == Some(map[env.seed := UNKNOWN_ID])
              && s.size == 1 && s.pods - {env.seed} == st.pods - {env.seed} && env.seed in s.pods
              && s.pods[env.seed] == Pod(if cfg.version == "" then "3.5.12" else cfg.version, Pending)
  {
  }

  /**
    From any persisted phase, known or not, one smooth `sync` suffices exactly
    for the phases none, Failed and Running; from every other phase the first one
    records Failed and the second enters the loop.
   */
  lemma TwoSyncsReachRunning(st: State, cfg: Config, first: SetupEnv, second: SetupEnv)
    requires Smooth(first) && Smooth(second)
    ensures var a := SyncStart(st, cfg, first);
      && (a.looping <==> Startable(st.saved))
      && (a.looping ==> a.state.saved == PhaseRunning)
      && (!a.looping ==>
            && a.state.saved == PhaseFailed
            && SyncStart(a.state, cfg, second).looping
            && SyncStart(a.state, cfg, second).state.saved == PhaseRunning)
  {
    SyncEntersLoopIff(st, cfg, first);
    if !Startable(st.saved) {
      var a := SyncStart(st, cfg, first).state;
      SyncEntersLoopIff(a, cfg, second);
      LoopStartsFrom(a, cfg, second);
    }
  }

  /** A `sync` that fails leaves Failed in memory, and in the cluster object unless that write was lost. */
  lemma FailedSyncLeavesFailed(st: State, cfg: Config, env: SetupEnv)
    requires !SyncStart(st, cfg, env).looping
    ensures var s := SyncStart(st, cfg, env).state;
      && s.phase == PhaseFailed
      && (Applied(env.saveFailed) || (st.saved.PhaseFailed? && !env.tlsReady) ==> s.saved == PhaseFailed)
      && s.members == st.members && (!Applied(env.createSeed) ==> s.etcd == st.etcd && s.pods == st.pods)
  {
  }

  /** A completed clean-up has dropped every member and every member's pod. */
  lemma {:induction false} CleanAllDropsAll(st: State, order: seq<Name>, cfg: Config, env: Env)
    requires st.members.Some?
    requires CleanAllMembers(st, order, cfg, env).err == NoErr
    ensures var s := CleanAllMembers(st, order, cfg, env).state;
      && (forall n | n in order :: n !in s.members.value && n !in s.pods)
      && s.members.value.Keys <= st.members.value.Keys && s.pods.Keys <= st.pods.Keys && s.size == 0
    decreases order
  {
    if order != [] {
      var n := order[0];
      var st1 := st.(pods := st.pods - {n}, members := Some(st.members.value - {n}));
      CleanAllDropsAll(st1, order[1..], cfg, env);
    }
  }

  /**
    Every way out of the loop in one tick leaves the phase Failed; the exit for fatal
    errors is never taken, and a panic needs a negative target size.
   */
  lemma TickExit(st: State, rerr: Err, cfg: Config, env: Env)
    requires ValidOrder(env)
    ensures var t := OneTick(st, rerr, cfg, env);
      && t.exit != FatalExit
      && (t.exit !in {Stay, Crash} ==> t.state.phase == PhaseFailed)
      && (t.exit == AllDead ==> RunningPods(st.pods) == {} && (Applied(env.status) ==> t.state.saved == PhaseFailed))
      && (t.exit == Rebuild ==> t.state.members == Some(map[]) && t.state.saved == PhaseFailed)
      && (t.exit == Crash ==> cfg.size < 0)
  {
    var before := BeforeReconcile(st, rerr, cfg, env);
    if before.Some? {
      hide Reconcile, AfterReconcile;
      TickReconciles(st, rerr, cfg, env);
      var r := Reconcile(before.value, RunningPods(st.pods), cfg, env);
      AfterReconcileExit(r, cfg, env);
      PanicsIff(before.value, RunningPods(st.pods), cfg, env);
    }
  }

  /** A tick ends the process exactly when it acts on an empty view with a negative target and no deletion fails. */
  lemma TickCrashesIff(st: State, rerr: Err, cfg: Config, env: Env)
    requires ValidOrder(env)
    ensures OneTick(st, rerr, cfg, env).exit == Crash
      <==> var before := BeforeReconcile(st, rerr, cfg, env);
           && before.Some? && before.value.members == Some(map[]) && cfg.size < 0
           && DeletePods(before.value.pods, env.order(RunningPods(st.pods)), env.deletePod).ok
  {
    var before := BeforeReconcile(st, rerr, cfg, env);
    if before.Some? {
      hide Reconcile, AfterReconcile, DeletePods, ValidOrder;
      TickReconciles(st, rerr, cfg, env);
      AfterReconcileExit(Reconcile(before.value, RunningPods(st.pods), cfg, env), cfg, env);
      PanicsIff(before.value, RunningPods(st.pods), cfg, env);
    }
  }

  lemma AfterReconcileExit(r: Step, cfg: Config, env: Env)
    requires ValidOrder(env) && r.state.members.Some?
    ensures var t := AfterReconcile(r, cfg, env);
      && t.exit in {Stay, Rebuild, Crash} && (t.exit == Crash <==> r.err == Panic)
      && (t.exit == Rebuild ==>
            t.state.phase == PhaseFailed && t.state.members == Some(map[]) && t.state.saved == PhaseFailed)
  {
    if r.err == LostQuorum {
      var order := env.order(r.state.members.value.Keys);
      var c := CleanAllMembers(r.state, order, cfg, env);
      CleanKeepsEtcd(r.state, order, cfg, env);
      if c.err == NoErr {
        CleanAllDropsAll(r.state, order, cfg, env);
        assert c.state.members.value == map[];
      }
    }
  }

  /**
    Every exit of `run`, after any number of ticks, leaves the phase Failed, and none of
    them is the fatal one. Without a negative target size nothing panics either.
   */
  lemma {:induction false} RunExitsFailed(st: State, inputs: seq<Input>, n: nat)
    requires n <= |inputs| && forall i | 0 <= i < |inputs| :: ValidOrder(inputs[i].env)
    ensures var t := RunTicks(st, inputs, n);
      && t.exit != FatalExit
      && (t.exit !in {Stay, Crash} ==> t.state.phase == PhaseFailed)
      && (t.exit == Rebuild ==> t.state.members == Some(map[]) && t.state.saved == PhaseFailed)
      && ((forall i | 0 <= i < |inputs| :: inputs[i].cfg.size >= 0) ==> t.exit != Crash)
  {
    hide OneTick, ValidOrder;
    if n > 0 {
      RunExitsFailed(st, inputs, n - 1);
      var t := RunTicks(st, inputs, n - 1);
      if t.exit == Stay {
        TickExit(t.state.(pods := inputs[n - 1].pods), t.rerr, inputs[n - 1].cfg, inputs[n - 1].env);
      }
    }
  }

  /** After a lost quorum the handed-off `sync` starts a new one-member cluster and its loop. */
  lemma RebuildRestarts(st: State, inputs: seq<Input>, n: nat, cfg: Config, env: SetupEnv)
    requires n <= |inputs| && forall i | 0 <= i < |inputs| :: ValidOrder(inputs[i].env)
    requires RunTicks(st, inputs, n).exit == Rebuild && Smooth(env)
    ensures var a := SyncStart(RunTicks(st, inputs, n).state, cfg, env);
      && a.looping && a.state.saved == PhaseRunning
      && a.state.etcd == map[env.seed := env.seedId] && a.state.members == Some(map[env.seed := UNKNOWN_ID])
  {
    RunExitsFailed(st, inputs, n);
    var s := RunTicks(st, inputs, n).state;
    SyncEntersLoopIff(s, cfg, env);
    LoopStartsFrom(s, cfg, env);
  }
}
