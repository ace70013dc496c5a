/**
  Safety of the etcd membership loop, for every order of map iteration, every
  outcome of every API call, every change of pods and every change of the
  specification between ticks.
 */
module EtcdSafety {
  import opened Wrappers
  import opened EtcdMembers
  import opened EtcdProtocol

  /* ---------- vocabulary ---------- */

  /** etcd gives every member its own ID, and never the ID that means "unknown". */
  ghost predicate ValidEtcd(etcd: map<Name, Id>) {
    && (forall n | n in etcd :: etcd[n] != UNKNOWN_ID)
    && (forall m, n | m in etcd && n in etcd && etcd[m] == etcd[n] :: m == n)
  }

  /** A new member's random name and the ID etcd would give it are both new. */
  ghost predicate Fresh(st: State, env: Env) {
    && env.newName !in st.etcd && env.newName !in st.pods
    && env.newId != UNKNOWN_ID && (forall n | n in st.etcd :: st.etcd[n] != env.newId)
  }

  /** The operator's view is etcd's membership, names and IDs. */
  ghost predicate Agree(st: State) {
    st.members == Some(st.etcd)
  }

  /** The names are etcd's, and every recorded ID is unknown or etcd's. */
  ghost predicate NamesAgree(st: State) {
    && st.members.Some? && st.members.value.Keys == st.etcd.Keys
    && forall n | n in st.members.value :: st.members.value[n] in {UNKNOWN_ID, st.etcd[n]}
  }

  /** Either the view agrees with etcd, or the next tick that acts refreshes it first. */
  ghost predicate ViewSettled(st: State, rerr: Err) {
    rerr == NoErr && st.members.Some? ==> Agree(st)
  }

  /* ---------- pods ---------- */

  lemma {:induction false} DeletePodsEffect(pods: Pods, order: seq<Name>, outcome: Name -> Outcome)
    ensures var r := DeletePods(pods, order, outcome);
      && (forall n | n in r.pods :: n in pods && r.pods[n] == pods[n])
      && (forall n | n in pods && n !in order :: n in r.pods)
      && (r.ok ==> forall n | n in order :: n !in r.pods)
  {
    if order != [] {
      var first := DeletePod(pods, order[0], outcome(order[0]));
      DeletePodsEffect(first.pods, order[1..], outcome);
    }
  }

  lemma {:induction false} DropPodsEffect(pods: Pods, order: seq<Name>, outcome: Name -> Outcome)
    ensures var r := DropPods(pods, order, outcome);
      && (forall n | n in r :: n in pods && r[n] == pods[n])
      && (forall n | n in pods && n !in order :: n in r)
  {
    if order != [] {
      DropPodsEffect(DeletePod(pods, order[0], outcome(order[0])).pods, order[1..], outcome);
    }
  }

  /** Cleaning failed pods touches nothing but failed pods. */
  lemma DropFailedEffect(st: State, cfg: Config, env: Env)
    requires ValidOrder(env)
    ensures var st1 := DropFailed(st, cfg, env);
      && st1 == st.(pods := st1.pods)
      && (forall n | n in st1.pods :: n in st.pods && st1.pods[n] == st.pods[n])
      && (forall n | n in st.pods && st.pods[n].phase != PodPhase.Failed :: n in st1.pods)
      && RunningPods(st1.pods) == RunningPods(st.pods)
  {
    DropPodsEffect(st.pods, env.order(InPhase(st.pods, PodPhase.Failed)), env.dropFailed);
  }

  /* ---------- one change at a time ---------- */

  ghost predicate OneChange(st: State, r: Step) {
    && ValidEtcd(r.state.etcd)
    && AtMostOneChange(st.etcd.Keys, r.state.etcd.Keys)
    && (Agree(st) && r.err == NoErr ==> Agree(r.state))
  }

  lemma AddedId(etcd: map<Name, Id>, n: Name, id: Id)
    requires ValidEtcd(etcd) && n !in etcd && id != UNKNOWN_ID && (forall m | m in etcd :: etcd[m] != id)
    ensures ValidEtcd(etcd[n := id]) && AtMostOneChange(etcd.Keys, etcd[n := id].Keys)
  {
  }

  lemma RemovedId(etcd: map<Name, Id>, id: Id)
    requires ValidEtcd(etcd)
    ensures ValidEtcd(WithoutId(etcd, id)) && AtMostOneChange(etcd.Keys, WithoutId(etcd, id).Keys)
    ensures forall n | n in etcd && etcd[n] == id :: WithoutId(etcd, id) == etcd - {n}
  {
  }

  lemma UnknownIdRemovesNothing(etcd: map<Name, Id>)
    requires ValidEtcd(etcd)
    ensures WithoutId(etcd, UNKNOWN_ID) == etcd
  {
  }

  lemma AddChangesOne(st: State, cfg: Config, env: Env)
    requires st.members.Some? && ValidEtcd(st.etcd) && Fresh(st, env)
    ensures OneChange(st, AddOneMember(st, cfg, env))
  {
    AddedId(st.etcd, env.newName, env.newId);
  }

  lemma RemoveChangesOne(st: State, n: Name, cfg: Config, env: Env)
    requires st.members.Some? && n in st.members.value && ValidEtcd(st.etcd)
    ensures OneChange(st, RemoveMember(st, n, cfg, env))
  {
    RemovedId(st.etcd, st.members.value[n]);
  }

  lemma PickChangesOne(st: State, from: set<Name>, cfg: Config, env: Env)
    requires st.members.Some? && from <= st.members.value.Keys && ValidEtcd(st.etcd)
    ensures OneChange(st, RemovePicked(st, from, cfg, env))
  {
    var order := env.order(from);
    if order != [] && order[0] in from {
      RemoveChangesOne(st, order[0], cfg, env);
    }
  }

  lemma ResizeChangesOne(st: State, cfg: Config, env: Env)
    requires st.members.Some? && ValidEtcd(st.etcd) && Fresh(st, env)
    ensures OneChange(st, Resize(st, cfg, env))
  {
    if |st.members.value| < cfg.size {
      AddChangesOne(st, cfg, env);
    } else {
      PickChangesOne(st, st.members.value.Keys, cfg, env);
    }
  }

  lemma ReconcileMembersChangesOne(st: State, running: set<Name>, cfg: Config, env: Env)
    requires st.members.Some? && ValidEtcd(st.etcd) && Fresh(st, env)
    ensures OneChange(st, ReconcileMembers(st, running, cfg, env))
  {
    var ms := st.members.value;
    var unknown := running - ms.Keys;
    var live := running - unknown;
    var del := DeletePods(st.pods, env.order(unknown), env.deletePod);
    var st1 := st.(pods := del.pods);
    if del.ok && |live| == |ms| {
      assert env.newName !in del.pods by {
        DeletePodsEffect(st.pods, env.order(unknown), env.deletePod);
      }
      ResizeChangesOne(st1, cfg, env);
    } else if del.ok && |live| >= |ms| / 2 + 1 {
      PickChangesOne(st1, ms.Keys - live, cfg, env);
    }
  }

  lemma ReconcileChangesOne(st: State, running: set<Name>, cfg: Config, env: Env)
    requires st.members.Some? && ValidEtcd(st.etcd) && Fresh(st, env)
    ensures OneChange(st, Reconcile(st, running, cfg, env))
  {
    if running != st.members.value.Keys || |st.members.value| != cfg.size {
      ReconcileMembersChangesOne(st, running, cfg, env);
    }
  }

  /* ---------- the view of etcd's membership ---------- */

  /** Cleaning up after a lost quorum leaves etcd's own list alone. */
  lemma {:induction false} CleanKeepsEtcd(st: State, order: seq<Name>, cfg: Config, env: Env)
    requires st.members.Some?
    ensures var c := CleanAllMembers(st, order, cfg, env);
      && c.state.etcd == st.etcd
      && (c.err == NoErr ==> c.state.phase == PhaseFailed && c.state.saved == PhaseFailed)
    decreases order
  {
    if order != [] {
      var n := order[0];
      var del := DeletePod(st.pods, n, env.deletePod(n));
      var st1 := st.(pods := del.pods, members := Some(st.members.value - {n}));
      CleanKeepsEtcd(st1, order[1..], cfg, env);
    }
  }

  /** A tick that reaches `reconcile` does so in the state `BeforeReconcile` names, and ends as it says. */
  lemma TickReconciles(st: State, rerr: Err, cfg: Config, env: Env)
    ensures var before := BeforeReconcile(st, rerr, cfg, env);
      before.Some? ==>
        && before.value.members.Some?
        && OneTick(st, rerr, cfg, env)
           == AfterReconcile(Reconcile(before.value, RunningPods(st.pods), cfg, env), cfg, env)
  {
  }

  /** The refresh comes before the action whenever the view may be stale. */
  lemma ActsOnAgreedView(st: State, rerr: Err, cfg: Config, env: Env)
    requires ValidOrder(env)
    ensures var before := BeforeReconcile(st, rerr, cfg, env);
      before.Some? ==>
        && before.value.etcd == st.etcd
        && (Fresh(st, env) ==> Fresh(before.value, env))
        && (ViewSettled(st, rerr) ==> Agree(before.value))
  {
    DropFailedEffect(st, cfg, env);
  }

  /** A tick that does not reach `reconcile` leaves the view and etcd alone and forgets no error. */
  lemma TickIdles(st: State, rerr: Err, cfg: Config, env: Env)
    requires BeforeReconcile(st, rerr, cfg, env).None?
    ensures var t := OneTick(st, rerr, cfg, env);
      && t.state.etcd == st.etcd && t.state.members == st.members
      && (t.rerr == rerr || t.rerr != NoErr)
  {
  }

  lemma AfterReconcileKeeps(r: Step, cfg: Config, env: Env)
    requires r.state.members.Some?
    ensures var t := AfterReconcile(r, cfg, env);
      && t.state.etcd == r.state.etcd
      && (t.rerr == NoErr ==> r.err == NoErr && t.state.members == r.state.members)
  {
    if r.err == LostQuorum {
      CleanKeepsEtcd(r.state, env.order(r.state.members.value.Keys), cfg, env);
    }
  }

  /** One tick changes etcd by at most one member and keeps a settled view settled, whatever fails. */
  lemma TickSafe(st: State, rerr: Err, cfg: Config, env: Env)
    requires ValidOrder(env) && ValidEtcd(st.etcd) && Fresh(st, env)
    ensures var t := OneTick(st, rerr, cfg, env);
      && ValidEtcd(t.state.etcd)
      && AtMostOneChange(st.etcd.Keys, t.state.etcd.Keys)
      && (ViewSettled(st, rerr) && t.exit == Stay ==> ViewSettled(t.state, t.rerr))
  {
    var before := BeforeReconcile(st, rerr, cfg, env);
    if before.None? {
      TickIdles(st, rerr, cfg, env);
    } else {
      var st1 := before.value;
      TickReconciles(st, rerr, cfg, env);
      ActsOnAgreedView(st, rerr, cfg, env);
      var r := Reconcile(st1, RunningPods(st.pods), cfg, env);
      ReconcileChangesOne(st1, RunningPods(st.pods), cfg, env);
      AfterReconcileKeeps(r, cfg, env);
    }
  }

  /** Every tick of a run gets a valid iteration order and a new name and ID. */
  ghost predicate ValidInputs(st: State, inputs: seq<Input>) {
    forall k | 0 <= k < |inputs| ::
      && ValidOrder(inputs[k].env)
      && Fresh(RunTicks(st, inputs, k).state.(pods := inputs[k].pods), inputs[k].env)
  }

  lemma {:induction false} RunKeepsEtcdValid(st: State, inputs: seq<Input>, k: nat)
    requires k <= |inputs| && ValidEtcd(st.etcd) && ValidInputs(st, inputs)
    ensures ValidEtcd(RunTicks(st, inputs, k).state.etcd)
  {
    hide OneTick, ValidEtcd, Fresh, ValidOrder;
    if k > 0 {
      RunKeepsEtcdValid(st, inputs, k - 1);
      var t := RunTicks(st, inputs, k - 1);
      var i := inputs[k - 1];
      TickSafe(t.state.(pods := i.pods), t.rerr, i.cfg, i.env);
    }
  }

  /**
    Over a whole run, every majority of etcd's membership before a tick meets
    every majority of its membership after the tick, also when calls fail after
    taking effect.
   */
  lemma QuorumsOverlapAcrossTicks(st: State, inputs: seq<Input>, k: nat, before: set<Name>, after: set<Name>)
    requires k < |inputs| && ValidEtcd(st.etcd) && ValidInputs(st, inputs)
    requires before <= RunTicks(st, inputs, k).state.etcd.Keys
    requires after <= RunTicks(st, inputs, k + 1).state.etcd.Keys
    requires Majority(before, RunTicks(st, inputs, k).state.etcd.Keys)
    requires Majority(after, RunTicks(st, inputs, k + 1).state.etcd.Keys)
    ensures before * after != {}
  {
    hide OneTick, ValidEtcd, Fresh, ValidOrder;
    var t := RunTicks(st, inputs, k);
    RunKeepsEtcdValid(st, inputs, k);
    TickSafe(t.state.(pods := inputs[k].pods), t.rerr, inputs[k].cfg, inputs[k].env);
    MajoritiesIntersect(t.state.etcd.Keys, RunTicks(st, inputs, k + 1).state.etcd.Keys, before, after);
  }

  lemma {:induction false} ViewStaysSettled(st: State, inputs: seq<Input>, j: nat, k: nat)
    requires j <= k <= |inputs| && ValidEtcd(st.etcd) && ValidInputs(st, inputs)
    requires ViewSettled(RunTicks(st, inputs, j).state, RunTicks(st, inputs, j).rerr)
    ensures var t := RunTicks(st, inputs, k); t.exit == Stay ==> ViewSettled(t.state, t.rerr)
  {
    hide OneTick, ValidEtcd, Fresh, ValidOrder;
    if j < k {
      ViewStaysSettled(st, inputs, j, k - 1);
      RunKeepsEtcdValid(st, inputs, k - 1);
      var t := RunTicks(st, inputs, k - 1);
      var i := inputs[k - 1];
      TickSafe(t.state.(pods := i.pods), t.rerr, i.cfg, i.env);
    }
  }

  /**
    View agreement: from the first tick `j` at which the view is settled (the
    members are nil, or an error forces a refresh, or a refresh has succeeded)
    every later `reconcile` of the same run starts from exactly etcd's
    membership.
   */
  lemma ViewAgreement(st: State, inputs: seq<Input>, j: nat, k: nat)
    requires j <= k < |inputs| && ValidEtcd(st.etcd) && ValidInputs(st, inputs)
    requires ViewSettled(RunTicks(st, inputs, j).state, RunTicks(st, inputs, j).rerr)
    requires RunTicks(st, inputs, k).exit == Stay
    ensures var t := RunTicks(st, inputs, k);
      var before := BeforeReconcile(t.state.(pods := inputs[k].pods), t.rerr, inputs[k].cfg, inputs[k].env);
      before.Some? ==> before.value.members == Some(t.state.etcd)
  {
    ViewStaysSettled(st, inputs, j, k);
    var t := RunTicks(st, inputs, k);
    ActsOnAgreedView(t.state.(pods := inputs[k].pods), t.rerr, inputs[k].cfg, inputs[k].env);
  }

  /* ---------- which pods may be deleted ---------- */

  /** Why a pod may go: it is no member's, its member is dead, or all members run and there are too many. */
  ghost predicate MayDelete(st: State, running: set<Name>, cfg: Config, n: Name)
    requires st.members.Some?
  {
    || n !in st.members.value
    || n !in running
    || (st.members.value.Keys <= running && |st.members.value| > cfg.size)
  }

  lemma RemovePickedDeletes(st: State, from: set<Name>, cfg: Config, env: Env)
    requires st.members.Some? && from <= st.members.value.Keys
    ensures var r := RemovePicked(st, from, cfg, env);
      && (forall n | n in st.pods && n !in r.state.pods :: n in from)
      && r.state.members.value.Keys >= st.members.value.Keys - from
  {
  }

  lemma ResizeDeletes(st: State, cfg: Config, env: Env)
    requires st.members.Some?
    ensures forall n | n in st.pods && n !in Resize(st, cfg, env).state.pods ::
      n in st.members.value && |st.members.value| > cfg.size
  {
    if |st.members.value| > cfg.size {
      RemovePickedDeletes(st, st.members.value.Keys, cfg, env);
    }
  }

  lemma UnknownDeletes(st: State, running: set<Name>, env: Env, n: Name)
    requires st.members.Some? && ValidOrder(env) && n in st.pods
    requires n !in DeletePods(st.pods, env.order(running - st.members.value.Keys), env.deletePod).pods
    ensures n !in st.members.value
  {
    hide DeletePods;
    DeletePodsEffect(st.pods, env.order(running - st.members.value.Keys), env.deletePod);
  }

  lemma ReconcileMembersDeletes(st: State, running: set<Name>, cfg: Config, env: Env, n: Name)
    requires st.members.Some? && ValidOrder(env)
    requires n in st.pods && n !in ReconcileMembers(st, running, cfg, env).state.pods
    ensures MayDelete(st, running, cfg, n)
  {
    hide Resize, RemovePicked, DeletePods, ValidOrder;
    var ms := st.members.value;
    var unknown := running - ms.Keys;
    var live := running - unknown;
    var del := DeletePods(st.pods, env.order(unknown), env.deletePod);
    if n !in del.pods {
      UnknownDeletes(st, running, env, n);
    } else if del.ok && |live| == |ms| {
      SubsetOfSameSizeIsEqual(live, ms.Keys);
      ResizeDeletes(st.(pods := del.pods), cfg, env);
    } else if del.ok && |live| >= |ms| / 2 + 1 {
      RemovePickedDeletes(st.(pods := del.pods), ms.Keys - live, cfg, env);
    }
  }

  /** `reconcile` deletes a running member's pod only to scale down a fully running cluster. */
  lemma DeletionsAreJustified(st: State, cfg: Config, env: Env, n: Name)
    requires st.members.Some? && ValidOrder(env)
    requires n in st.pods && n !in Reconcile(st, RunningPods(st.pods), cfg, env).state.pods
    ensures MayDelete(st, RunningPods(st.pods), cfg, n)
  {
    hide ReconcileMembers, MayDelete, ValidOrder;
    var running := RunningPods(st.pods);
    if running != st.members.value.Keys || |st.members.value| != cfg.size {
      ReconcileMembersDeletes(st, running, cfg, env, n);
    }
  }

  /* ---------- picking from an empty set ---------- */

  /** `PickOne` panics on the empty set only, and takes one member out. */
  lemma PickOutcome(st: State, from: set<Name>, cfg: Config, env: Env)
    requires st.members.Some? && from <= st.members.value.Keys && ValidOrder(env)
    ensures var r := RemovePicked(st, from, cfg, env);
      && (r.err == Panic <==> from == {})
      && |r.state.members.value| >= |st.members.value| - 1
  {
    var ms := st.members.value;
    var order := env.order(from);
    if order == [] {
      assert forall n :: n !in from;
    } else {
      var n := order[0];
      assert n in order;
      assert (ms - {n}).Keys == ms.Keys - {n};
      assert |ms.Keys - {n}| == |ms.Keys| - 1;
    }
  }

  lemma ResizeOutcome(st: State, cfg: Config, env: Env)
    requires st.members.Some? && ValidOrder(env)
    ensures var r := Resize(st, cfg, env);
      && (r.err == Panic <==> st.members.value == map[] && cfg.size < 0)
      && (cfg.size >= 1 && st.members.value != map[] ==> r.state.members.value != map[])
  {
    var ms := st.members.value;
    if ms == map[] {
      assert |ms| == 0;
    }
    if |ms| > cfg.size {
      PickOutcome(st, ms.Keys, cfg, env);
    }
  }

  lemma ReconcileMembersOutcome(st: State, running: set<Name>, cfg: Config, env: Env)
    requires st.members.Some? && ValidOrder(env)
    ensures var r := ReconcileMembers(st, running, cfg, env);
      && (r.err == Panic <==>
          st.members.value == map[] && cfg.size < 0 && DeletePods(st.pods, env.order(running), env.deletePod).ok)
      && (cfg.size >= 1 && st.members.value != map[] ==> r.state.members.value != map[])
  {
    hide Resize, RemovePicked, DeletePods, ValidOrder;
    var ms := st.members.value;
    var unknown := running - ms.Keys;
    var live := running - unknown;
    var del := DeletePods(st.pods, env.order(unknown), env.deletePod);
    var st1 := st.(pods := del.pods);
    assert ms == map[] ==> unknown == running && |live| == |ms|;
    if del.ok {
      if |live| == |ms| {
        ResizeOutcome(st1, cfg, env);
      } else if |live| >= |ms| / 2 + 1 {
        DeadOutcome(st1, live, cfg, env);
      }
    }
  }

  lemma DeadOutcome(st: State, live: set<Name>, cfg: Config, env: Env)
    requires st.members.Some? && ValidOrder(env)
    requires live <= st.members.value.Keys && |live| >= |st.members.value| / 2 + 1 && |live| != |st.members.value|
    ensures var r := RemovePicked(st, st.members.value.Keys - live, cfg, env);
      r.err != Panic && r.state.members.value != map[]
  {
    hide RemovePicked, ValidOrder;
    SubsetSize(live, st.members.value.Keys);
    PickOutcome(st, st.members.value.Keys - live, cfg, env);
  }

  /** `reconcile` panics in exactly one situation: no members left and a negative target size. */
  lemma PanicsIff(st: State, running: set<Name>, cfg: Config, env: Env)
    requires st.members.Some? && ValidOrder(env)
    ensures Reconcile(st, running, cfg, env).err == Panic
      <==> st.members.value == map[] && cfg.size < 0 && DeletePods(st.pods, env.order(running), env.deletePod).ok
  {
    if running != st.members.value.Keys || |st.members.value| != cfg.size {
      ReconcileMembersOutcome(st, running, cfg, env);
    }
  }

  /** With a positive target size `reconcile` never panics, never empties the membership and reports its size. */
  lemma MembershipNeverEmptied(st: State, running: set<Name>, cfg: Config, env: Env)
    requires st.members.Some? && ValidOrder(env) && st.members.value != map[] && cfg.size >= 1
    ensures var r := Reconcile(st, running, cfg, env);
      r.err != Panic && r.state.members.value != map[] && r.state.size == |r.state.members.value| >= 1
  {
    hide ReconcileMembers, ValidOrder, FirstOld, OldPods;
    if running != st.members.value.Keys || |st.members.value| != cfg.size {
      ReconcileMembersOutcome(st, running, cfg, env);
    }
  }
}
