/**
  The operator's view before its first refresh. The seed's ID is recorded as
  unknown, and etcd removes by ID: the names of the view are etcd's until a member
  with an unknown ID is removed, and from then on they are not.
 */
module EtcdDrift {
  import opened Wrappers
  import opened EtcdMembers
  import opened EtcdProtocol
  import opened EtcdSafety
  import opened EtcdConvergence
  import opened EtcdPhases
  import opened EtcdBootstrap

  /** Either the names agree, or the next tick that acts refreshes the view first. */
  ghost predicate NamesSettled(st: State, rerr: Err) {
    rerr == NoErr && st.members.Some? ==> NamesAgree(st)
  }

  /** No member with an unknown ID has left the view. */
  ghost predicate KeepsUnknown(before: State, after: State)
    requires before.members.Some? && after.members.Some?
  {
    forall n | n in before.members.value && before.members.value[n] == UNKNOWN_ID :: n in after.members.value
  }

  /* ---------- one call ---------- */

  /** A reported removal keeps the names in agreement exactly if the operator has recorded an ID. */
  lemma RemovalKeepsNamesIff(st: State, n: Name, cfg: Config, env: Env)
    requires ValidEtcd(st.etcd) && NamesAgree(st) && n in st.members.value && env.memberRemove.Done?
    ensures var s := RemoveMember(st, n, cfg, env).state;
      && (NamesAgree(s) <==> st.members.value[n] != UNKNOWN_ID)
      && (KeepsUnknown(st, s) <==> st.members.value[n] != UNKNOWN_ID)
  {
    var s := RemoveMember(st, n, cfg, env).state;
    if st.members.value[n] != UNKNOWN_ID {
      RemovedId(st.etcd, st.etcd[n]);
    } else {
      assert n in s.etcd.Keys && n !in s.members.value.Keys;
    }
  }

  /** A reported addition always does. */
  lemma AdditionKeepsNames(st: State, cfg: Config, env: Env)
    requires NamesAgree(st) && env.memberAdd.Done?
    ensures var s := AddOneMember(st, cfg, env).state; NamesAgree(s) && KeepsUnknown(st, s)
  {
  }

  /** What a step without error does to agreement. */
  ghost predicate NamesKeptIff(st: State, r: Step)
    requires st.members.Some? && r.state.members.Some?
  {
    r.err == NoErr ==> (NamesAgree(r.state) <==> KeepsUnknown(st, r.state))
  }

  lemma PickKeepsNamesIff(st: State, from: set<Name>, cfg: Config, env: Env)
    requires ValidEtcd(st.etcd) && NamesAgree(st) && from <= st.members.value.Keys
    ensures NamesKeptIff(st, RemovePicked(st, from, cfg, env))
  {
    hide ValidEtcd, NamesAgree, KeepsUnknown;
    var order := env.order(from);
    if order != [] && order[0] in from && env.memberRemove.Done? {
      RemovalKeepsNamesIff(st, order[0], cfg, env);
    }
  }

  lemma ResizeKeepsNamesIff(st: State, cfg: Config, env: Env)
    requires ValidEtcd(st.etcd) && NamesAgree(st)
    ensures NamesKeptIff(st, Resize(st, cfg, env))
  {
    var ms := st.members.value;
    if |ms| < cfg.size && env.memberAdd.Done? {
      AdditionKeepsNames(st, cfg, env);
    } else if |ms| > cfg.size {
      PickKeepsNamesIff(st, ms.Keys, cfg, env);
    }
  }

  lemma ReconcileMembersKeepsNamesIff(st: State, running: set<Name>, cfg: Config, env: Env)
    requires ValidEtcd(st.etcd) && NamesAgree(st)
    ensures NamesKeptIff(st, ReconcileMembers(st, running, cfg, env))
  {
    hide Resize, RemovePicked, DeletePods, ValidEtcd;
    var ms := st.members.value;
    var unknown := running - ms.Keys;
    var live := running - unknown;
    var del := DeletePods(st.pods, env.order(unknown), env.deletePod);
    var st1 := st.(pods := del.pods);
    if del.ok && |live| == |ms| {
      ResizeKeepsNamesIff(st1, cfg, env);
    } else if del.ok && |live| >= |ms| / 2 + 1 {
      PickKeepsNamesIff(st1, ms.Keys - live, cfg, env);
    }
  }

  /** A `reconcile` without error keeps the names in agreement exactly if it removes no member with an unknown ID. */
  lemma ReconcileKeepsNamesIff(st: State, running: set<Name>, cfg: Config, env: Env)
    requires ValidEtcd(st.etcd) && NamesAgree(st)
    ensures NamesKeptIff(st, Reconcile(st, running, cfg, env))
  {
    hide ReconcileMembers, FirstOld, OldPods;
    if running != st.members.value.Keys || |st.members.value| != cfg.size {
      ReconcileMembersKeepsNamesIff(st, running, cfg, env);
    }
  }

  /* ---------- one tick ---------- */

  /** The tick does not call `reconcile`, or that call removes no member with an unknown ID. */
  ghost predicate TickKeepsUnknown(st: State, rerr: Err, cfg: Config, env: Env) {
    var before := BeforeReconcile(st, rerr, cfg, env);
    before.Some? && before.value.members.Some? ==>
      KeepsUnknown(before.value, Reconcile(before.value, RunningPods(st.pods), cfg, env).state)
  }

  lemma ActsOnAgreedNames(st: State, rerr: Err, cfg: Config, env: Env)
    requires NamesSettled(st, rerr)
    ensures var before := BeforeReconcile(st, rerr, cfg, env);
      before.Some? ==> NamesAgree(before.value) && before.value.etcd == st.etcd
  {
  }

  /**
    A tick keeps the names settled if it removes no member with an unknown ID; one
    that acts without error keeps them in agreement only then.
   */
  lemma TickKeepsNamesIff(st: State, rerr: Err, cfg: Config, env: Env)
    requires ValidEtcd(st.etcd) && NamesSettled(st, rerr)
    ensures var t := OneTick(st, rerr, cfg, env);
      && (TickKeepsUnknown(st, rerr, cfg, env) ==> NamesSettled(t.state, t.rerr))
      && (BeforeReconcile(st, rerr, cfg, env).Some? && t.rerr == NoErr ==>
            (NamesAgree(t.state) <==> TickKeepsUnknown(st, rerr, cfg, env)))
  {
    hide Reconcile, AfterReconcile, ValidEtcd, KeepsUnknown, DropFailed;
    var before := BeforeReconcile(st, rerr, cfg, env);
    if before.None? {
      TickIdles(st, rerr, cfg, env);
    } else {
      TickReconciles(st, rerr, cfg, env);
      ActsOnAgreedNames(st, rerr, cfg, env);
      var running := RunningPods(st.pods);
      ReconcileKeepsNamesIff(before.value, running, cfg, env);
      AfterReconcileKeeps(Reconcile(before.value, running, cfg, env), cfg, env);
    }
  }

  /* ---------- whole runs ---------- */

  ghost predicate UnknownKept(st: State, inputs: seq<Input>, k: nat)
    requires k <= |inputs|
  {
    forall i | 0 <= i < k :: UnknownKeptAt(st, inputs, i)
  }

  ghost predicate UnknownKeptAt(st: State, inputs: seq<Input>, i: nat)
    requires i < |inputs|
  {
    var t := RunTicks(st, inputs, i);
    TickKeepsUnknown(t.state.(pods := inputs[i].pods), t.rerr, inputs[i].cfg, inputs[i].env)
  }

  lemma {:induction false} NamesStaySettled(st: State, inputs: seq<Input>, k: nat)
    requires k <= |inputs| && ValidEtcd(st.etcd) && ValidInputs(st, inputs)
    requires NamesSettled(st, NoErr) && UnknownKept(st, inputs, k)
    ensures var t := RunTicks(st, inputs, k); NamesSettled(t.state, t.rerr)
  {
    hide OneTick, ValidEtcd, Fresh, ValidOrder, TickKeepsUnknown;
    if k > 0 {
      NamesStaySettled(st, inputs, k - 1);
      RunKeepsEtcdValid(st, inputs, k - 1);
      assert UnknownKeptAt(st, inputs, k - 1);
      var t := RunTicks(st, inputs, k - 1);
      var i := inputs[k - 1];
      TickKeepsNamesIff(t.state.(pods := i.pods), t.rerr, i.cfg, i.env);
    }
  }

  ghost predicate SettledBefore(st: State, setup: SetupEnv) {
    if st.saved.PhaseRunning? then ValidEtcd(st.etcd) && NamesSettled(st, NoErr) else setup.seedId != UNKNOWN_ID
  }

  /** What `sync` hands to the loop: a created cluster, or a running one with settled names or without a view. */
  lemma StartsSettled(st: State, cfg: Config, setup: SetupEnv)
    requires SyncStart(st, cfg, setup).looping && SettledBefore(st, setup)
    ensures var s := SyncStart(st, cfg, setup).state; ValidEtcd(s.etcd) && NamesSettled(s, NoErr)
  {
    LoopStartsFrom(st, cfg, setup);
  }

  /**
    Over any run that `sync` starts, whatever fails in it: as long as no member with
    an unknown ID is removed, every `reconcile` starts from etcd's names; and a tick
    without error that removes one ends with other names than etcd's.
   */
  lemma NamesAgreeUntilUnknownRemoved(st: State, cfg: Config, setup: SetupEnv, inputs: seq<Input>, k: nat)
    requires SyncStart(st, cfg, setup).looping && SettledBefore(st, setup)
    requires var s := SyncStart(st, cfg, setup).state;
      k < |inputs| && ValidInputs(s, inputs) && UnknownKept(s, inputs, k) && RunTicks(s, inputs, k).exit == Stay
    ensures var s := SyncStart(st, cfg, setup).state;
      var t, next, i := RunTicks(s, inputs, k), RunTicks(s, inputs, k + 1), inputs[k];
      var before := BeforeReconcile(t.state.(pods := i.pods), t.rerr, i.cfg, i.env);
      before.Some? ==>
        && NamesAgree(before.value) && before.value.etcd == t.state.etcd
        && (next.rerr == NoErr ==> (NamesAgree(next.state) <==> UnknownKeptAt(s, inputs, k)))
  {
    hide SyncStart, OneTick, BeforeReconcile, ValidEtcd, Fresh, ValidOrder, TickKeepsUnknown;
    var s := SyncStart(st, cfg, setup).state;
    StartsSettled(st, cfg, setup);
    NamesStaySettled(s, inputs, k);
    RunKeepsEtcdValid(s, inputs, k);
    var t, i := RunTicks(s, inputs, k), inputs[k];
    ActsOnAgreedNames(t.state.(pods := i.pods), t.rerr, i.cfg, i.env);
    TickKeepsNamesIff(t.state.(pods := i.pods), t.rerr, i.cfg, i.env);
  }

  /* ---------- the seed is scaled away ---------- */

  /** Recorded IDs do not change while members stay in the view. */
  ghost predicate KeepsIds(before: State, after: State) {
    before.members.Some? && after.members.Some? ==>
      forall n | n in before.members.value && n in after.members.value ::
        after.members.value[n] == before.members.value[n]
  }

  lemma ReconcileKeepsIds(st: State, running: set<Name>, cfg: Config, env: Env)
    requires st.members.Some? && env.newName !in st.members.value
    ensures KeepsIds(st, Reconcile(st, running, cfg, env).state)
  {
    hide DeletePods, FirstOld, OldPods, WithoutId;
  }

  /** A tick that starts with a view and no error, and ends without one, has not refreshed. */
  lemma TickKeepsIds(st: State, cfg: Config, env: Env)
    requires st.members.Some? && env.newName !in st.members.value && OneTick(st, NoErr, cfg, env).rerr == NoErr
    ensures KeepsIds(st, OneTick(st, NoErr, cfg, env).state)
  {
    hide Reconcile, AfterReconcile, DropPods;
    var before := BeforeReconcile(st, NoErr, cfg, env);
    if before.None? {
      TickIdles(st, NoErr, cfg, env);
    } else {
      TickReconciles(st, NoErr, cfg, env);
      ReconcileKeepsIds(before.value, RunningPods(st.pods), cfg, env);
      AfterReconcileKeeps(Reconcile(before.value, RunningPods(st.pods), cfg, env), cfg, env);
    }
  }

  lemma IdsKeptNext(st: State, cfg: Config, inputs: seq<Input>, k: nat)
    requires k < |inputs| && ValidInputs(st, inputs) && CalmInputs(st, cfg, inputs)
    requires var t := RunTicks(st, inputs, k);
      t.exit == Stay && t.rerr == NoErr && t.state.members.Some? && t.state.members.value.Keys == t.state.etcd.Keys
    requires RunTicks(st, inputs, k + 1).rerr == NoErr
    ensures KeepsIds(RunTicks(st, inputs, k).state, RunTicks(st, inputs, k + 1).state)
  {
    hide OneTick, ValidOrder, AllDone, Settle;
    var t := RunTicks(st, inputs, k);
    TickKeepsIds(t.state.(pods := inputs[k].pods), cfg, inputs[k].env);
  }

  /** A calm bootstrap never refreshes, so the seed's ID stays unknown. */
  lemma {:induction false} SeedStaysUnknown(st: State, cfg: Config, inputs: seq<Input>, seed: Name, k: nat)
    requires k <= |inputs| && Growing(st, cfg.size) && ValidInputs(st, inputs) && CalmInputs(st, cfg, inputs)
    requires seed in st.etcd && st.members.value[seed] == UNKNOWN_ID
    ensures var ms := RunTicks(st, inputs, k).state.members;
      ms.Some? && seed in ms.value && ms.value[seed] == UNKNOWN_ID
  {
    hide OneTick, ValidInputs, CalmInputs, Up;
    GrowsOnePerTick(st, cfg, inputs, k);
    if k > 0 {
      SeedStaysUnknown(st, cfg, inputs, seed, k - 1);
      GrowsOnePerTick(st, cfg, inputs, k - 1);
      IdsKeptNext(st, cfg, inputs, k - 1);
    }
  }

  /** `PickOne` on `from` takes `n`. */
  predicate Yields(env: Env, from: set<Name>, n: Name) {
    env.order(from) != [] && env.order(from)[0] == n
  }

  lemma FirstIsListed(order: seq<Name>)
    requires order != []
    ensures order[0] in order
  {
  }

  lemma NothingToVisit(env: Env)
    requires ValidOrder(env)
    ensures env.order({}) == []
  {
    var order := env.order({});
    if order != [] {
      FirstIsListed(order);
    }
  }

  /** Scaling a fully running cluster down by a member whose ID is unknown: view and pod go, etcd's member stays. */
  lemma ScaleDownByUnknown(st: State, cfg: Config, env: Env, n: Name)
    requires st.members.Some? && st.members.value.Keys == st.etcd.Keys == RunningPods(st.pods)
    requires ValidEtcd(st.etcd) && |st.etcd| > cfg.size
    requires ValidOrder(env) && AllDone(env) && n in st.etcd && Yields(env, st.etcd.Keys, n)
    requires st.members.value[n] == UNKNOWN_ID
    ensures var r := Reconcile(st, RunningPods(st.pods), cfg, env);
      && r.err == NoErr && r.state.etcd == st.etcd && r.state.members == Some(st.members.value - {n})
      && r.state.pods == st.pods - {n}
  {
    hide WithoutId, RunningPods, ValidEtcd, ValidOrder;
    var running := RunningPods(st.pods);
    assert running - st.members.value.Keys == {} && running - {} == running;
    NothingToVisit(env);
    UnknownIdRemovesNothing(st.etcd);
  }

  lemma ScaleDownTick(st: State, cfg: Config, env: Env, n: Name)
    requires st.members.Some? && st.members.value.Keys == st.etcd.Keys == RunningPods(st.pods) == Up(st)
    requires InPhase(st.pods, Pending) == {} && ValidEtcd(st.etcd) && |st.etcd| > cfg.size
    requires ValidOrder(env) && AllDone(env) && n in st.etcd && Yields(env, st.etcd.Keys, n)
    requires st.members.value[n] == UNKNOWN_ID
    ensures var t := OneTick(st, NoErr, cfg, env);
      && t.exit == Stay && t.rerr == NoErr
      && t.state.etcd == st.etcd && t.state.members == Some(st.members.value - {n})
      && Up(t.state) == Up(st) - {n}
  {
    hide Reconcile, DropFailed, ValidEtcd, ValidOrder;
    var st1 := DropFailed(st, cfg, env);
    DropFailedEffect(st, cfg, env);
    ScaleDownByUnknown(st1, cfg, env, n);
    assert BeforeReconcile(st, NoErr, cfg, env) == Some(st1);
    TickReconciles(st, NoErr, cfg, env);
    UpWithout(st, st1, n);
  }

  lemma UpWithout(st: State, fewer: State, n: Name)
    requires Up(st) == RunningPods(st.pods) == RunningPods(fewer.pods)
    requires forall m | m in fewer.pods :: m in st.pods && fewer.pods[m] == st.pods[m]
    ensures Up(fewer.(pods := fewer.pods - {n})) == Up(st) - {n}
  {
    StaysSettled(st.pods, fewer.pods);
    StaysSettled(st.pods, fewer.pods - {n});
    hide Settle;
  }

  /* ---------- how long the drift lasts ---------- */

  /** `n` is a member of etcd that the view has lost; of the others the view knows the ID or none. */
  ghost predicate Drifted(st: State, n: Name) {
    && st.members.Some? && n in st.etcd && n !in st.members.value
    && forall m | m in st.members.value :: m in st.etcd && st.members.value[m] in {UNKNOWN_ID, st.etcd[m]}
  }

  /** A step that reports no error keeps what has drifted. */
  ghost predicate DriftKept(r: Step, n: Name) {
    r.err == NoErr ==> Drifted(r.state, n)
  }

  lemma RemovalKeepsDrift(st: State, m: Name, cfg: Config, env: Env, n: Name)
    requires ValidEtcd(st.etcd) && Drifted(st, n) && m in st.members.value
    ensures DriftKept(RemoveMember(st, m, cfg, env), n)
  {
    hide WithoutId;
    if st.members.value[m] == UNKNOWN_ID {
      UnknownIdRemovesNothing(st.etcd);
    } else {
      RemovedId(st.etcd, st.etcd[m]);
    }
  }

  lemma PickKeepsDrift(st: State, from: set<Name>, cfg: Config, env: Env, n: Name)
    requires ValidEtcd(st.etcd) && Drifted(st, n) && from <= st.members.value.Keys
    ensures DriftKept(RemovePicked(st, from, cfg, env), n)
  {
    var order := env.order(from);
    if order != [] && order[0] in from {
      RemovalKeepsDrift(st, order[0], cfg, env, n);
    }
  }

  lemma ResizeKeepsDrift(st: State, cfg: Config, env: Env, n: Name)
    requires ValidEtcd(st.etcd) && Drifted(st, n) && env.newName !in st.etcd
    ensures DriftKept(Resize(st, cfg, env), n)
  {
    if |st.members.value| > cfg.size {
      PickKeepsDrift(st, st.members.value.Keys, cfg, env, n);
    }
  }

  lemma ReconcileMembersKeepsDrift(st: State, running: set<Name>, cfg: Config, env: Env, n: Name)
    requires ValidEtcd(st.etcd) && Drifted(st, n) && env.newName !in st.etcd
    ensures DriftKept(ReconcileMembers(st, running, cfg, env), n)
  {
    hide Resize, RemovePicked, DeletePods, ValidEtcd;
    var ms := st.members.value;
    var unknown := running - ms.Keys;
    var live := running - unknown;
    var del := DeletePods(st.pods, env.order(unknown), env.deletePod);
    var st1 := st.(pods := del.pods);
    if del.ok && |live| == |ms| {
      ResizeKeepsDrift(st1, cfg, env, n);
    } else if del.ok && |live| >= |ms| / 2 + 1 {
      PickKeepsDrift(st1, ms.Keys - live, cfg, env, n);
    }
  }

  lemma ReconcileKeepsDrift(st: State, running: set<Name>, cfg: Config, env: Env, n: Name)
    requires ValidEtcd(st.etcd) && Drifted(st, n) && env.newName !in st.etcd
    ensures DriftKept(Reconcile(st, running, cfg, env), n)
  {
    hide ReconcileMembers, FirstOld, OldPods;
    if running != st.members.value.Keys || |st.members.value| != cfg.size {
      ReconcileMembersKeepsDrift(st, running, cfg, env, n);
    }
  }

  lemma TickKeepsDrift(st: State, cfg: Config, env: Env, n: Name)
    requires ValidEtcd(st.etcd) && Drifted(st, n) && env.newName !in st.etcd
    ensures var t := OneTick(st, NoErr, cfg, env); t.rerr == NoErr ==> Drifted(t.state, n)
  {
    hide Reconcile, AfterReconcile, DropPods, ValidEtcd;
    var before := BeforeReconcile(st, NoErr, cfg, env);
    if before.None? {
      TickIdles(st, NoErr, cfg, env);
    } else {
      TickReconciles(st, NoErr, cfg, env);
      var running := RunningPods(st.pods);
      ReconcileKeepsDrift(before.value, running, cfg, env, n);
      AfterReconcileKeeps(Reconcile(before.value, running, cfg, env), cfg, env);
    }
  }

  /**
    The drift lasts as long as ticks report no error, because only an error makes the
    operator refresh: a member that is in etcd and not in the view stays so.
   */
  lemma {:induction false} DriftLasts(st: State, inputs: seq<Input>, n: Name, j: nat, k: nat)
    requires j <= k <= |inputs| && ValidEtcd(st.etcd) && ValidInputs(st, inputs)
    requires Drifted(RunTicks(st, inputs, j).state, n)
    requires forall i | j <= i <= k :: RunTicks(st, inputs, i).rerr == NoErr
    ensures Drifted(RunTicks(st, inputs, k).state, n)
  {
    hide OneTick, ValidEtcd, ValidOrder;
    if j < k {
      DriftLasts(st, inputs, n, j, k - 1);
      RunKeepsEtcdValid(st, inputs, k - 1);
      var t := RunTicks(st, inputs, k - 1);
      var i := inputs[k - 1];
      assert t.rerr == NoErr && RunTicks(st, inputs, k).rerr == NoErr;
      TickKeepsDrift(t.state.(pods := i.pods), i.cfg, i.env, n);
    }
  }

  /** A growing tick keeps the names in agreement, IDs included. */
  lemma GrowTickAgrees(st: State, cfg: Config, env: Env)
    requires Growing(st, cfg.size) && NamesAgree(st) && ValidEtcd(st.etcd)
    requires Up(st) == RunningPods(st.pods) && InPhase(st.pods, Pending) == {}
    requires Fresh(st, env) && ValidOrder(env) && AllDone(env)
    ensures NamesAgree(OneTick(st, NoErr, cfg, env).state)
  {
    hide Reconcile, AfterReconcile, ValidEtcd, DropFailed, Up;
    GrowTick(st, cfg, env);
    ActsAtOnce(st, cfg, env);
    DropFailedEffect(st, cfg, env);
    var before := DropFailed(st, cfg, env);
    TickReconciles(st, NoErr, cfg, env);
    AfterReconcileKeeps(Reconcile(before, RunningPods(st.pods), cfg, env), cfg, env);
    TickKeepsNamesIff(st, NoErr, cfg, env);
  }

  lemma GrowthAgreesNext(st: State, cfg: Config, inputs: seq<Input>, k: nat)
    requires k < |inputs| && ValidInputs(st, inputs) && CalmInputs(st, cfg, inputs)
    requires var t := RunTicks(st, inputs, k);
      && t.exit == Stay && t.rerr == NoErr && Growing(t.state, cfg.size)
      && NamesAgree(t.state) && ValidEtcd(t.state.etcd)
    ensures NamesAgree(RunTicks(st, inputs, k + 1).state)
  {
    hide OneTick, ValidEtcd, Fresh, ValidOrder, AllDone, Settle;
    var t := RunTicks(st, inputs, k);
    Settled(t.state.pods);
    GrowTickAgrees(t.state.(pods := inputs[k].pods), cfg, inputs[k].env);
  }

  lemma {:induction false} GrowthAgrees(st: State, cfg: Config, inputs: seq<Input>, k: nat)
    requires k <= |inputs| && Growing(st, cfg.size) && NamesAgree(st) && ValidEtcd(st.etcd)
    requires ValidInputs(st, inputs) && CalmInputs(st, cfg, inputs)
    ensures NamesAgree(RunTicks(st, inputs, k).state)
  {
    hide OneTick, ValidEtcd, ValidInputs, CalmInputs, NamesAgree, Up;
    if k > 0 {
      GrowthAgrees(st, cfg, inputs, k - 1);
      GrowsOnePerTick(st, cfg, inputs, k - 1);
      RunKeepsEtcdValid(st, inputs, k - 1);
      GrowthAgreesNext(st, cfg, inputs, k - 1);
    }
  }

  lemma {:induction false} RunPrefix(st: State, inputs: seq<Input>, k: nat, i: nat)
    requires i <= k <= |inputs|
    ensures RunTicks(st, inputs[..k], i) == RunTicks(st, inputs, i)
  {
    if i > 0 {
      RunPrefix(st, inputs, k, i - 1);
    }
  }

  lemma ValidPrefix(st: State, inputs: seq<Input>, k: nat)
    requires k <= |inputs| && ValidInputs(st, inputs)
    ensures ValidInputs(st, inputs[..k])
  {
    hide RunTicks, ValidOrder, Fresh;
    forall i | 0 <= i < k
      ensures RunTicks(st, inputs[..k], i) == RunTicks(st, inputs, i)
    {
      RunPrefix(st, inputs, k, i);
    }
  }

  lemma OrderAt(st: State, inputs: seq<Input>, k: nat)
    requires k < |inputs| && ValidInputs(st, inputs)
    ensures ValidOrder(inputs[k].env)
  {
  }

  lemma DriftedMajority(all: set<Name>, n: Name)
    requires n in all
    ensures Majority(all - {n}, all) <==> |all| > 2
  {
    assert (all - {n}) * all == all - {n};
  }

  /** What a calm bootstrap has come to after `k` ticks. */
  lemma Bootstrapped(st: State, cfg: Config, setup: SetupEnv, inputs: seq<Input>, k: nat)
    requires SyncStart(st, cfg, setup).looping && !st.saved.PhaseRunning? && setup.seedId != UNKNOWN_ID && cfg.size >= 2
    requires var s := SyncStart(st, cfg, setup).state;
      1 <= k < |inputs| && ValidInputs(s, inputs) && CalmInputs(s, cfg, inputs[..k])
    ensures var t := RunTicks(SyncStart(st, cfg, setup).state, inputs, k);
      && t.exit == Stay && t.rerr == NoErr && ValidEtcd(t.state.etcd) && NamesAgree(t.state)
      && Up(t.state) == t.state.etcd.Keys && setup.seed in t.state.etcd
      && t.state.members.value[setup.seed] == UNKNOWN_ID
  {
    hide SyncStart, RunTicks, CalmInputs, ValidEtcd, ValidInputs, Up;
    var s := SyncStart(st, cfg, setup).state;
    LoopStartsFrom(st, cfg, setup);
    SeedComesUp(st, cfg, setup);
    StartsSettled(st, cfg, setup);
    assert s.etcd.Keys == {setup.seed};
    ValidPrefix(s, inputs, k);
    RunPrefix(s, inputs, k, k);
    GrowsOnePerTick(s, cfg, inputs[..k], k);
    SeedStaysUnknown(s, cfg, inputs[..k], setup.seed, k);
    RunKeepsEtcdValid(s, inputs, k);
    GrowthAgrees(s, cfg, inputs[..k], k);
  }

  /**
    A cluster that `sync` creates, grows without any error to two or more members and
    is then scaled down, again without any error: if the seed is picked, the tick
    reports success, yet the seed stays a member of etcd and has no pod any more. With
    two members that leaves etcd without a live majority, and it lasts until an error.
   */
  lemma ScaledDownSeedDrifts(st: State, cfg: Config, setup: SetupEnv, inputs: seq<Input>, k: nat)
    requires SyncStart(st, cfg, setup).looping && !st.saved.PhaseRunning? && setup.seedId != UNKNOWN_ID && cfg.size >= 2
    requires var s := SyncStart(st, cfg, setup).state;
      1 <= k < |inputs| && ValidInputs(s, inputs) && CalmInputs(s, cfg, inputs[..k])
    requires var t, i := RunTicks(SyncStart(st, cfg, setup).state, inputs, k), inputs[k];
      && i.pods == Settle(t.state.pods) && AllDone(i.env) && i.cfg.size < |t.state.etcd|
      && Yields(i.env, t.state.etcd.Keys, setup.seed)
    ensures var s := SyncStart(st, cfg, setup).state;
      var t, next := RunTicks(s, inputs, k), RunTicks(s, inputs, k + 1);
      && next.exit == Stay && next.rerr == NoErr
      && next.state.etcd == t.state.etcd && setup.seed in next.state.etcd
      && next.state.members.Some? && next.state.members.value.Keys == t.state.etcd.Keys - {setup.seed}
      && (Majority(Up(next.state), next.state.etcd.Keys) <==> |t.state.etcd| > 2)
      && Drifted(next.state, setup.seed)
  {
    hide SyncStart, OneTick, CalmInputs, AllDone, Settle, ValidEtcd, ValidInputs, Majority, ValidOrder;
    var s := SyncStart(st, cfg, setup).state;
    Bootstrapped(st, cfg, setup, inputs, k);
    OrderAt(s, inputs, k);
    var t := RunTicks(s, inputs, k);
    Settled(t.state.pods);
    var s1 := t.state.(pods := inputs[k].pods);
    ScaleDownTick(s1, inputs[k].cfg, inputs[k].env, setup.seed);
    DriftedMajority(t.state.etcd.Keys, setup.seed);
  }
}
