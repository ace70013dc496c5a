/**
  The etcd loop converges in an exact number of ticks when calls succeed and
  created pods come up: dead members are dropped one per tick, then the
  membership grows or shrinks by one member per tick, then old pods are upgraded
  one per tick. The order in which Go ranges over maps does not matter.
 */
module EtcdConvergence {
  import opened Wrappers
  import opened EtcdMembers
  import opened EtcdProtocol
  import opened EtcdSafety
  import opened EtcdQuorum

  /* ---------- vocabulary ---------- */

  ghost predicate AllDone(env: Env) {
    && env.fetched && env.polled && env.listing.Listed?
    && env.memberAdd.Done? && env.memberRemove.Done? && env.createPod.Done? && env.patchPod.Done? && env.status.Done?
    && (forall n: Name :: env.deletePod(n).Done? && env.dropFailed(n).Done? && env.claimDeleted(n))
  }

  /** Between two ticks that act, every created pod has come up and nothing else happens to pods. */
  function Settle(pods: Pods): Pods {
    map n | n in pods :: if pods[n].phase == Pending then pods[n].(phase := Running) else pods[n]
  }

  /** The pods that run at the next tick. */
  ghost function Up(st: State): set<Name> {
    RunningPods(Settle(st.pods))
  }

  function Abs(x: int): nat {
    if x < 0 then -x else x
  }

  function Monus(x: nat, y: nat): nat {
    if x < y then 0 else x - y
  }

  /** Dead members, plus the distance of the live ones from the target size. */
  ghost function Gap(up: set<Name>, all: set<Name>, size: int): nat {
    |all - up| + Abs(|up * all| - size)
  }

  ghost function Distance(st: State, size: int): nat {
    Gap(Up(st), st.etcd.Keys, size)
  }

  /** Running pods, operator's view and etcd's membership coincide at the target size. */
  ghost predicate Converged(st: State, size: int) {
    Agree(st) && Up(st) == st.etcd.Keys && |st.etcd| == size
  }

  ghost function TicksNeeded(st: State, size: int): nat {
    if Converged(st, size) then 0 else if Distance(st, size) == 0 then 1 else Distance(st, size)
  }

  ghost function Outdated(st: State, version: string): set<Name> {
    OldPods(Settle(st.pods), Up(st), version)
  }

  /** What a run starts from: no view yet, as after a restart of the operator, or one that agrees with etcd. */
  ghost predicate Healthy(st: State) {
    && ViewSettled(st, NoErr) && ValidEtcd(st.etcd)
    && Majority(Up(st), st.etcd.Keys)
  }

  /** The state with the view that a refresh gives. */
  function Refreshed(st: State): State {
    st.(members := Some(st.etcd))
  }

  ghost predicate CalmInputs(st: State, cfg: Config, inputs: seq<Input>) {
    forall k | 0 <= k < |inputs| ::
      && inputs[k].cfg == cfg
      && AllDone(inputs[k].env)
      && inputs[k].pods == Settle(RunTicks(st, inputs, k).state.pods)
  }

  /* ---------- set arithmetic ---------- */

  lemma GapDependsOnLive(a: set<Name>, b: set<Name>, all: set<Name>, size: int)
    requires a * all == b * all
    ensures Gap(a, all, size) == Gap(b, all, size)
  {
    assert all - a == all - a * all == all - b * all == all - b;
  }

  lemma GapGrow(all: set<Name>, n: Name, size: int)
    requires n !in all && |all| < size
    ensures Gap(all + {n}, all + {n}, size) == Gap(all, all, size) - 1
  {
    var more := all + {n};
    assert all - all == {} && more - more == {};
    assert all * all == all && more * more == more;
  }

  lemma GapShrink(all: set<Name>, n: Name, size: int)
    requires n in all && |all| > size
    ensures Gap(all - {n}, all - {n}, size) == Gap(all, all, size) - 1
  {
    var less := all - {n};
    assert all - all == {} && less - less == {};
    assert all * all == all && less * less == less;
    assert all == less + {n};
  }

  lemma GapDropDead(up: set<Name>, all: set<Name>, n: Name, size: int)
    requires n in all - up
    ensures Gap(up, all - {n}, size) == Gap(up, all, size) - 1
  {
    assert all - up == ((all - {n}) - up) + {n};
    assert up * (all - {n}) == up * all;
  }

  lemma MajorityDropDead(up: set<Name>, all: set<Name>, n: Name)
    requires Majority(up, all) && n in all - up
    ensures Majority(up, all - {n})
  {
    assert up * (all - {n}) == up * all;
    assert all == (all - {n}) + {n};
  }

  lemma GapZero(up: set<Name>, all: set<Name>, size: int)
    ensures Gap(up, all, size) == 0 <==> all <= up && |all| == size
  {
    if all <= up {
      assert all - up == {} && up * all == all;
    }
    if all - up == {} {
      assert forall n :: n in all ==> n in up || n in all - up;
      assert up * all == all;
    }
  }

  /* ---------- single calls ---------- */

  lemma CalmAdd(st: State, cfg: Config, env: Env)
    requires st.members.Some? && Fresh(st, env) && AllDone(env)
    ensures var r := AddOneMember(st, cfg, env);
      && r.err == NoErr
      && r.state.etcd.Keys == st.etcd.Keys + {env.newName}
      && Up(r.state) == Up(st) + {env.newName}
  {
  }

  lemma CalmRemove(st: State, from: set<Name>, cfg: Config, env: Env) returns (n: Name)
    requires Agree(st) && ValidEtcd(st.etcd) && from <= st.etcd.Keys && from != {} && ValidOrder(env) && AllDone(env)
    ensures n in from
    ensures var r := RemovePicked(st, from, cfg, env);
      && r.err == NoErr
      && r.state.etcd.Keys == st.etcd.Keys - {n}
      && Up(r.state) == Up(st) - {n}
  {
    var order := env.order(from);
    var m :| m in from;
    assert m in order;
    n := order[0];
    assert n in order;
    RemovedId(st.etcd, st.etcd[n]);
  }

  lemma {:induction false} CalmDeletes(pods: Pods, order: seq<Name>, outcome: Name -> Outcome)
    requires forall n: Name :: outcome(n).Done?
    ensures DeletePods(pods, order, outcome).ok
  {
    if order != [] {
      CalmDeletes(pods - {order[0]}, order[1..], outcome);
    }
  }

  /* ---------- one reconcile ---------- */

  /** What a calm `reconcile` reaches. */
  ghost predicate CalmStep(st: State, r: Step, size: int) {
    && r.err == NoErr
    && Up(r.state) <= r.state.etcd.Keys
    && Majority(Up(r.state), r.state.etcd.Keys)
    && Distance(r.state, size) == Monus(Distance(st, size), 1)
  }

  lemma AllIsMajority(all: set<Name>)
    ensures Majority(all, all) <==> all != {}
  {
    assert all * all == all;
  }

  lemma CalmGrow(st: State, cfg: Config, env: Env)
    requires Agree(st) && Fresh(st, env) && AllDone(env)
    requires Up(st) == st.etcd.Keys && |st.etcd| < cfg.size
    ensures CalmStep(st, AddOneMember(st, cfg, env), cfg.size)
  {
    hide AddOneMember, Majority, Gap, AllDone, Up;
    CalmAdd(st, cfg, env);
    GapGrow(st.etcd.Keys, env.newName, cfg.size);
    AllIsMajority(st.etcd.Keys + {env.newName});
  }

  lemma CalmShrink(st: State, cfg: Config, env: Env)
    requires Agree(st) && ValidEtcd(st.etcd) && ValidOrder(env) && AllDone(env)
    requires Up(st) == st.etcd.Keys && |st.etcd| > cfg.size >= 1
    ensures CalmStep(st, RemovePicked(st, st.etcd.Keys, cfg, env), cfg.size)
  {
    hide RemovePicked, Majority, Gap, AllDone, Up, ValidEtcd;
    var all := st.etcd.Keys;
    var n := CalmRemove(st, all, cfg, env);
    GapShrink(all, n, cfg.size);
    AllIsMajority(all - {n});
    assert |all - {n}| == |all| - 1;
  }

  lemma CalmResize(st: State, cfg: Config, env: Env)
    requires Agree(st) && ValidEtcd(st.etcd) && Fresh(st, env) && ValidOrder(env) && AllDone(env)
    requires Up(st) == st.etcd.Keys && cfg.size >= 1
    ensures CalmStep(st, Resize(st, cfg, env), cfg.size)
  {
    hide AddOneMember, RemovePicked, Majority, Gap, AllDone, Up, ValidEtcd, Fresh;
    if |st.etcd| < cfg.size {
      CalmGrow(st, cfg, env);
    } else if |st.etcd| > cfg.size {
      CalmShrink(st, cfg, env);
    } else {
      GapZero(st.etcd.Keys, st.etcd.Keys, cfg.size);
      AllIsMajority(st.etcd.Keys);
    }
  }

  lemma CalmDropDead(st: State, cfg: Config, env: Env)
    requires Agree(st) && ValidEtcd(st.etcd) && ValidOrder(env) && AllDone(env)
    requires Up(st) < st.etcd.Keys && Majority(Up(st), st.etcd.Keys)
    ensures CalmStep(st, RemovePicked(st, st.etcd.Keys - Up(st), cfg, env), cfg.size)
  {
    hide RemovePicked, Gap, Majority, ValidEtcd, AllDone, Up;
    var dead := st.etcd.Keys - Up(st);
    var m :| m in st.etcd.Keys && m !in Up(st);
    assert m in dead;
    var n := CalmRemove(st, dead, cfg, env);
    GapDropDead(Up(st), st.etcd.Keys, n, cfg.size);
    MajorityDropDead(Up(st), st.etcd.Keys, n);
    assert Up(st) - {n} == Up(st);
  }

  /** The state once the unexpected pods are gone. */
  ghost function WithoutUnknown(st: State, env: Env): State {
    st.(pods := DeletePods(st.pods, env.order(RunningPods(st.pods) - st.etcd.Keys), env.deletePod).pods)
  }

  /** Deleting pods from a settled set leaves it settled. */
  lemma StaysSettled(pods: Pods, fewer: Pods)
    requires RunningPods(Settle(pods)) == RunningPods(pods)
    requires forall n | n in fewer :: n in pods && fewer[n] == pods[n]
    ensures RunningPods(Settle(fewer)) == RunningPods(fewer)
  {
    forall n | n in fewer
      ensures fewer[n].phase != Pending
    {
      assert n in RunningPods(Settle(pods)) <==> n in RunningPods(pods);
    }
  }

  lemma CalmCleanup(st: State, cfg: Config, env: Env)
    requires st.members.Some? && st.members.value.Keys == st.etcd.Keys
    requires Fresh(st, env) && ValidOrder(env) && AllDone(env)
    requires Up(st) == RunningPods(st.pods)
    ensures var st1 := WithoutUnknown(st, env);
      && DeletePods(st.pods, env.order(RunningPods(st.pods) - st.etcd.Keys), env.deletePod).ok
      && Up(st1) == RunningPods(st.pods) * st.etcd.Keys
      && Fresh(st1, env)
      && Distance(st1, cfg.size) == Distance(st, cfg.size)
  {
    hide DeletePods, RunningPods, Settle, Gap;
    var running := RunningPods(st.pods);
    CalmDeletes(st.pods, env.order(running - st.etcd.Keys), env.deletePod);
    UnknownPodsDontMatter(st, env);
    var st1 := WithoutUnknown(st, env);
    assert RunningPods(st1.pods) == running * st.etcd.Keys;
    StaysSettled(st.pods, st1.pods);
    GapDependsOnLive(running * st.etcd.Keys, running, st.etcd.Keys, cfg.size);
  }

  lemma CalmReconcileMembers(st: State, cfg: Config, env: Env)
    requires Agree(st) && ValidEtcd(st.etcd) && Fresh(st, env) && ValidOrder(env) && AllDone(env)
    requires HasQuorum(st) && Up(st) == RunningPods(st.pods) && cfg.size >= 1
    ensures CalmStep(st, ReconcileMembers(st, RunningPods(st.pods), cfg, env), cfg.size)
  {
    hide DeletePods, Resize, RemovePicked, ValidOrder, ValidEtcd, AllDone, RunningPods, Settle, Fresh, Gap;
    var running := RunningPods(st.pods);
    var all := st.etcd.Keys;
    var live := running - (running - all);
    assert live == running * all;
    CalmCleanup(st, cfg, env);
    var st1 := WithoutUnknown(st, env);
    if |live| == |st.etcd| {
      SubsetOfSameSizeIsEqual(live, all);
      CalmResize(st1, cfg, env);
    } else {
      assert |live| >= |st.etcd| / 2 + 1 by {
        QuorumTestIsMajority(live, all);
      }
      CalmDropDead(st1, cfg, env);
    }
  }

  /* ---------- one tick ---------- */

  lemma {:induction false} FirstOldFinds(order: seq<Name>, outdated: set<Name>)
    ensures var f := FirstOld(order, outdated);
      && (f.Some? ==> f.value in outdated)
      && (f.None? ==> forall n | n in order :: n !in outdated)
  {
    if order != [] && order[0] !in outdated {
      FirstOldFinds(order[1..], outdated);
    }
  }

  /** Patching the version of an old pod takes it, and nothing else, out of the old pods. */
  lemma UpgradedPod(pods: Pods, n: Name, version: string)
    requires RunningPods(Settle(pods)) == RunningPods(pods)
    requires n in OldPods(pods, RunningPods(pods), version)
    ensures var next := pods[n := pods[n].(version := version)];
      && RunningPods(Settle(next)) == RunningPods(pods)
      && OldPods(Settle(next), RunningPods(pods), version) == OldPods(pods, RunningPods(pods), version) - {n}
  {
  }

  lemma SettledOld(pods: Pods, version: string)
    ensures OldPods(Settle(pods), RunningPods(pods), version) == OldPods(pods, RunningPods(pods), version)
  {
  }

  /** In a converged cluster a calm tick upgrades one old pod and changes nothing else. */
  lemma CalmUpgrade(st: State, cfg: Config, env: Env)
    requires Converged(st, cfg.size) && Up(st) == RunningPods(st.pods) && ValidOrder(env) && AllDone(env)
    ensures var r := Reconcile(st, RunningPods(st.pods), cfg, env);
      && r.err == NoErr && Converged(r.state, cfg.size) && r.state.etcd == st.etcd
      && |Outdated(r.state, cfg.version)| == Monus(|Outdated(st, cfg.version)|, 1)
  {
    hide RunningPods, Settle, FirstOld, ReconcileMembers;
    var running := RunningPods(st.pods);
    var outdated := OldPods(st.pods, running, cfg.version);
    var first := FirstOld(env.order(running), outdated);
    FirstOldFinds(env.order(running), outdated);
    SettledOld(st.pods, cfg.version);
    if first.Some? {
      UpgradedPod(st.pods, first.value, cfg.version);
    } else {
      assert outdated == {};
    }
  }

  /** The invariant of a calm run, at a tick whose pods have settled. */
  ghost predicate Ready(st: State, cfg: Config, env: Env) {
    && Healthy(st) && Agree(st) && Up(st) == RunningPods(st.pods) && InPhase(st.pods, Pending) == {}
    && Fresh(st, env) && ValidOrder(env) && AllDone(env) && cfg.size >= 1
  }

  lemma CalmReconcile(st: State, cfg: Config, env: Env)
    requires Ready(st, cfg, env)
    ensures var r := Reconcile(st, RunningPods(st.pods), cfg, env);
      && CalmStep(st, r, cfg.size) && Healthy(r.state) && Agree(r.state)
      && (Converged(st, cfg.size) ==>
            |Outdated(r.state, cfg.version)| == Monus(|Outdated(st, cfg.version)|, 1))
  {
    var running := RunningPods(st.pods);
    ReconcileChangesOne(st, running, cfg, env);
    if running != st.etcd.Keys || |st.etcd| != cfg.size {
      CalmReconcileMembers(st, cfg, env);
    } else {
      CalmUpgrade(st, cfg, env);
      GapZero(running, running, cfg.size);
    }
  }

  lemma CalmDropFailed(st: State, cfg: Config, env: Env)
    requires Ready(st, cfg, env)
    ensures var st1 := DropFailed(st, cfg, env);
      && Ready(st1, cfg, env) && st1.etcd == st.etcd && RunningPods(st1.pods) == RunningPods(st.pods)
      && Outdated(st1, cfg.version) == Outdated(st, cfg.version)
  {
    DropFailedEffect(st, cfg, env);
    var st1 := DropFailed(st, cfg, env);
    assert Up(st1) == Up(st);
    assert Outdated(st1, cfg.version) == Outdated(st, cfg.version);
  }

  ghost predicate CalmTicked(st: State, t: Tick, cfg: Config) {
    && t.exit == Stay && t.rerr == NoErr
    && Healthy(t.state) && Agree(t.state) && Up(t.state) <= t.state.etcd.Keys
    && Distance(t.state, cfg.size) == Monus(Distance(st, cfg.size), 1)
    && (Converged(st, cfg.size) ==>
          |Outdated(t.state, cfg.version)| == Monus(|Outdated(st, cfg.version)|, 1))
  }

  lemma CalmTickAgreed(st: State, cfg: Config, env: Env)
    requires Ready(st, cfg, env)
    ensures CalmTicked(st, OneTick(st, NoErr, cfg, env), cfg)
  {
    hide Reconcile, DropFailed, Gap, ValidEtcd;
    var st1 := DropFailed(st, cfg, env);
    CalmDropFailed(st, cfg, env);
    CalmReconcile(st1, cfg, env);
    SomePodRuns(st);
    assert BeforeReconcile(st, NoErr, cfg, env) == Some(st1);
    TickReconciles(st, NoErr, cfg, env);
  }

  lemma SomePodRuns(st: State)
    requires Majority(Up(st), st.etcd.Keys) && Up(st) == RunningPods(st.pods)
    ensures RunningPods(st.pods) != {}
  {
    assert Up(st) * st.etcd.Keys != {};
  }

  /**
    A tick that has no view, or an error behind it, refreshes and acts at once: it is
    the tick that an agreeing view would make.
   */
  lemma StaleViewActsRefreshed(st: State, rerr: Err, cfg: Config, env: Env)
    requires rerr != NoErr || st.members.None?
    requires env.fetched && env.polled && env.listing.Listed?
    requires InPhase(st.pods, Pending) == {} && RunningPods(st.pods) != {}
    ensures OneTick(st, rerr, cfg, env) == OneTick(Refreshed(st), NoErr, cfg, env)
  {
    hide Reconcile, AfterReconcile, DropPods;
    assert DropFailed(Refreshed(st), cfg, env) == Refreshed(DropFailed(st, cfg, env));
  }

  lemma CalmTick(st: State, cfg: Config, env: Env)
    requires Healthy(st) && Ready(Refreshed(st), cfg, env)
    ensures CalmTicked(st, OneTick(st, NoErr, cfg, env), cfg)
  {
    hide OneTick, Majority, ValidEtcd, Gap, Fresh, ValidOrder, Settle;
    CalmTickAgreed(Refreshed(st), cfg, env);
    if st.members.None? {
      SomePodRuns(st);
      StaleViewActsRefreshed(st, NoErr, cfg, env);
    }
  }

  /* ---------- whole runs ---------- */

  lemma Settled(pods: Pods)
    ensures InPhase(Settle(pods), Pending) == {}
    ensures Settle(Settle(pods)) == Settle(pods)
  {
  }

  ghost predicate CalmAt(st: State, cfg: Config, inputs: seq<Input>, k: nat)
    requires k <= |inputs|
  {
    var t := RunTicks(st, inputs, k);
    && t.exit == Stay && t.rerr == NoErr && Healthy(t.state)
    && Distance(t.state, cfg.size) == Monus(Distance(st, cfg.size), k)
    && (k > 0 ==> Agree(t.state) && Up(t.state) <= t.state.etcd.Keys)
  }

  lemma CalmNext(st: State, cfg: Config, inputs: seq<Input>, k: nat)
    requires k < |inputs| && cfg.size >= 1
    requires ValidInputs(st, inputs) && CalmInputs(st, cfg, inputs) && CalmAt(st, cfg, inputs, k)
    ensures CalmAt(st, cfg, inputs, k + 1)
    ensures Converged(RunTicks(st, inputs, k).state, cfg.size) ==>
      |Outdated(RunTicks(st, inputs, k + 1).state, cfg.version)|
        == Monus(|Outdated(RunTicks(st, inputs, k).state, cfg.version)|, 1)
  {
    hide OneTick, Gap, Majority, ValidEtcd, AllDone, ValidOrder;
    var t := RunTicks(st, inputs, k);
    var s := t.state.(pods := inputs[k].pods);
    Settled(t.state.pods);
    CalmTick(s, cfg, inputs[k].env);
  }

  lemma CalmStart(st: State, cfg: Config, inputs: seq<Input>)
    requires Healthy(st)
    ensures CalmAt(st, cfg, inputs, 0)
  {
    hide Majority, ValidEtcd, Gap, Up;
    assert RunTicks(st, inputs, 0) == Tick(st, NoErr, Stay);
  }

  lemma {:induction false} CalmAlways(st: State, cfg: Config, inputs: seq<Input>, k: nat)
    requires k <= |inputs| && cfg.size >= 1 && Healthy(st)
    requires ValidInputs(st, inputs) && CalmInputs(st, cfg, inputs)
    ensures CalmAt(st, cfg, inputs, k)
  {
    hide ValidInputs, CalmInputs, CalmAt, Healthy, RunTicks;
    if k == 0 {
      CalmStart(st, cfg, inputs);
    } else {
      CalmAlways(st, cfg, inputs, k - 1);
      CalmNext(st, cfg, inputs, k - 1);
    }
  }

  lemma ConvergedIff(st: State, size: int)
    requires Agree(st)
    ensures Converged(st, size) <==> Distance(st, size) == 0 && Up(st) <= st.etcd.Keys
  {
    GapZero(Up(st), st.etcd.Keys, size);
  }

  /**
    With every call succeeding and created pods coming up, from a majority of
    live members, with an agreeing view or none at all, the loop never reports a lost quorum and never leaves, and the
    cluster is converged after `k` ticks exactly when `k` has reached
    dead + |live - size| (one tick if that is 0 and only unexpected pods are in
    the way).
   */
  lemma ConvergesExactly(st: State, cfg: Config, inputs: seq<Input>, k: nat)
    requires k <= |inputs| && cfg.size >= 1 && Healthy(st)
    requires ValidInputs(st, inputs) && CalmInputs(st, cfg, inputs)
    ensures var t := RunTicks(st, inputs, k);
      && t.exit == Stay && t.rerr == NoErr
      && (Converged(t.state, cfg.size) <==> k >= TicksNeeded(st, cfg.size))
  {
    hide Up, Gap, ValidInputs, CalmInputs;
    CalmAlways(st, cfg, inputs, k);
    if Agree(st) {
      ConvergedIff(st, cfg.size);
    }
    if k > 0 {
      ConvergedIff(RunTicks(st, inputs, k).state, cfg.size);
    }
    assert RunTicks(st, inputs, 0).state == st;
  }

  ghost function OutdatedAt(st: State, cfg: Config, inputs: seq<Input>, k: nat): nat
    requires k <= |inputs|
  {
    |Outdated(RunTicks(st, inputs, k).state, cfg.version)|
  }

  lemma UpgradeNext(st: State, cfg: Config, inputs: seq<Input>, k: nat)
    requires TicksNeeded(st, cfg.size) <= k < |inputs| && cfg.size >= 1 && Healthy(st)
    requires ValidInputs(st, inputs) && CalmInputs(st, cfg, inputs)
    ensures OutdatedAt(st, cfg, inputs, k + 1) == Monus(OutdatedAt(st, cfg, inputs, k), 1)
  {
    ConvergesExactly(st, cfg, inputs, k);
    CalmAlways(st, cfg, inputs, k);
    CalmNext(st, cfg, inputs, k);
  }

  /** Once converged, the number of pods of another version falls by one per tick until none is left. */
  lemma {:induction false} UpgradesOnePerTick(st: State, cfg: Config, inputs: seq<Input>, j: nat, k: nat)
    requires TicksNeeded(st, cfg.size) <= j <= k <= |inputs| && cfg.size >= 1 && Healthy(st)
    requires ValidInputs(st, inputs) && CalmInputs(st, cfg, inputs)
    ensures OutdatedAt(st, cfg, inputs, k) == Monus(OutdatedAt(st, cfg, inputs, j), k - j)
  {
    hide OutdatedAt, Healthy, ValidInputs, CalmInputs, TicksNeeded;
    if j < k {
      UpgradesOnePerTick(st, cfg, inputs, j, k - 1);
      UpgradeNext(st, cfg, inputs, k - 1);
    }
  }
}
