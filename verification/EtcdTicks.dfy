/**
  What a tick does, told from the state it finds and the calls that fail: when it
  waits, when it acts and on which view, when it reports an error, and what becomes of
  a cluster without a live majority.
 */
module EtcdTicks {
  import opened Wrappers
  import opened EtcdMembers
  import opened EtcdProtocol
  import opened EtcdSafety

  /* ---------- waiting ---------- */

  /** While some pod is pending, or the cluster or its pods cannot be read, a tick does nothing at all. */
  lemma TickWaits(st: State, rerr: Err, cfg: Config, env: Env)
    requires !env.fetched || !env.polled || exists n :: n in st.pods && st.pods[n].phase == Pending
    ensures OneTick(st, rerr, cfg, env) == Tick(st, rerr, Stay)
  {
    if n :| n in st.pods && st.pods[n].phase == Pending {
      assert n in InPhase(st.pods, Pending);
    }
  }

  /** Over a run: as long as one pod stays pending, membership and view are frozen, whatever else happens. */
  lemma {:induction false} PendingFreezesRun(st: State, inputs: seq<Input>, n: Name, j: nat, k: nat)
    requires j <= k <= |inputs| && RunTicks(st, inputs, j).exit == Stay
    requires forall i | j <= i < k :: n in inputs[i].pods && inputs[i].pods[n].phase == Pending
    ensures var a, b := RunTicks(st, inputs, j), RunTicks(st, inputs, k);
      && b.exit == Stay && b.rerr == a.rerr && b.state.etcd == a.state.etcd && b.state.members == a.state.members
      && b.state.pods == if j == k then a.state.pods else inputs[k - 1].pods
  {
    hide OneTick;
    if j < k {
      PendingFreezesRun(st, inputs, n, j, k - 1);
      var t, i := RunTicks(st, inputs, k - 1), inputs[k - 1];
      TickWaits(t.state.(pods := i.pods), t.rerr, i.cfg, i.env);
    }
  }

  /** What a step that reports no error has added to etcd is in the view and has a pending pod. */
  ghost predicate AddedIsPending(st: State, r: Step, n: Name) {
    n !in st.etcd && n in r.state.etcd && r.err == NoErr ==>
      && r.state.members.Some? && n in r.state.members.value
      && n in r.state.pods && r.state.pods[n].phase == Pending
  }

  lemma PickAddsNothing(st: State, from: set<Name>, cfg: Config, env: Env)
    requires st.members.Some? && from <= st.members.value.Keys
    ensures var r := RemovePicked(st, from, cfg, env).state;
      r.etcd.Keys <= st.etcd.Keys && r.phase == st.phase && r.saved == st.saved
  {
  }

  lemma ResizeAdds(st: State, cfg: Config, env: Env, n: Name)
    requires st.members.Some?
    ensures var r := Resize(st, cfg, env);
      AddedIsPending(st, r, n) && r.state.phase == st.phase && r.state.saved == st.saved
  {
    hide RemovePicked;
    if |st.members.value| > cfg.size {
      PickAddsNothing(st, st.members.value.Keys, cfg, env);
    }
  }

  lemma ReconcileMembersAdds(st: State, running: set<Name>, cfg: Config, env: Env, n: Name)
    requires st.members.Some?
    ensures var r := ReconcileMembers(st, running, cfg, env);
      AddedIsPending(st, r, n) && r.state.phase == st.phase && r.state.saved == st.saved
  {
    hide DeletePods, Resize, RemovePicked;
    var ms := st.members.value;
    var unknown := running - ms.Keys;
    var live := running - unknown;
    var del := DeletePods(st.pods, env.order(unknown), env.deletePod);
    var st1 := st.(pods := del.pods);
    if del.ok && |live| == |ms| {
      ResizeAdds(st1, cfg, env, n);
    } else if del.ok && |live| >= |ms| / 2 + 1 {
      PickAddsNothing(st1, ms.Keys - live, cfg, env);
    }
  }

  lemma ReconcileAdds(st: State, running: set<Name>, cfg: Config, env: Env, n: Name)
    requires st.members.Some?
    ensures var r := Reconcile(st, running, cfg, env);
      AddedIsPending(st, r, n) && r.state.phase == st.phase && r.state.saved == st.saved
  {
    hide ReconcileMembers, FirstOld, OldPods;
    ReconcileMembersAdds(st, running, cfg, env, n);
  }

  lemma TickAdds(st: State, rerr: Err, cfg: Config, env: Env, n: Name)
    ensures var t := OneTick(st, rerr, cfg, env); AddedIsPending(st, Step(t.state, t.rerr), n)
  {
    hide Reconcile, DropPods, CleanAllMembers;
    var before := BeforeReconcile(st, rerr, cfg, env);
    if before.None? {
      TickIdles(st, rerr, cfg, env);
    } else {
      TickReconciles(st, rerr, cfg, env);
      var r := Reconcile(before.value, RunningPods(st.pods), cfg, env);
      ReconcileAdds(before.value, RunningPods(st.pods), cfg, env, n);
      AfterReconcileKeeps(r, cfg, env);
    }
  }

  /** A member that a tick adds stays in etcd, in the view and among the pods until its pod has left pending. */
  lemma AddedMemberStays(st: State, inputs: seq<Input>, n: Name, j: nat, k: nat)
    requires j < k <= |inputs| && RunTicks(st, inputs, j).exit == Stay && RunTicks(st, inputs, j + 1).exit == Stay
    requires n !in RunTicks(st, inputs, j).state.etcd && n in RunTicks(st, inputs, j + 1).state.etcd
    requires RunTicks(st, inputs, j + 1).rerr == NoErr
    requires forall i | j < i < k :: n in inputs[i].pods && inputs[i].pods[n].phase == Pending
    ensures var t := RunTicks(st, inputs, k);
      && t.exit == Stay && t.rerr == NoErr && n in t.state.etcd
      && t.state.members.Some? && n in t.state.members.value
      && n in t.state.pods && t.state.pods[n].phase == Pending
  {
    hide OneTick;
    var t, i := RunTicks(st, inputs, j), inputs[j];
    TickAdds(t.state.(pods := i.pods), t.rerr, i.cfg, i.env, n);
    PendingFreezesRun(st, inputs, n, j + 1, k);
  }

  /* ---------- acting ---------- */

  /** All could be read, nothing is pending, something runs, and the view is usable or could be refreshed. */
  ghost predicate Acts(st: State, rerr: Err, env: Env) {
    && env.fetched && env.polled && (forall n | n in st.pods :: st.pods[n].phase != Pending)
    && (exists n :: n in st.pods && st.pods[n].phase == Running)
    && ((rerr == NoErr && st.members.Some?) || env.listing.Listed?)
  }

  /** The view a tick acts on: its own one after a tick without error, else etcd's membership. */
  function ViewOf(st: State, rerr: Err): MemberSet {
    if rerr == NoErr && st.members.Some? then st.members.value else st.etcd
  }

  lemma ActsIff(st: State, rerr: Err, cfg: Config, env: Env)
    ensures BeforeReconcile(st, rerr, cfg, env).Some? <==> Acts(st, rerr, env)
    ensures Acts(st, rerr, env) ==>
      BeforeReconcile(st, rerr, cfg, env)
        == Some(DropFailed(st, cfg, env).(members := Some(ViewOf(st, rerr))))
  {
    hide DropPods;
    if Acts(st, rerr, env) {
      assert InPhase(st.pods, Pending) == {};
      var n :| n in st.pods && st.pods[n].phase == Running;
      assert n in RunningPods(st.pods);
    } else {
      assert forall n | n in st.pods && st.pods[n].phase == Pending :: n in InPhase(st.pods, Pending);
      assert forall n | n in RunningPods(st.pods) :: n in st.pods && st.pods[n].phase == Running;
    }
  }

  /** With nothing pending and nothing running, the loop ends. */
  lemma AllDeadIff(st: State, rerr: Err, cfg: Config, env: Env)
    ensures OneTick(st, rerr, cfg, env).exit == AllDead
      <==> env.fetched && env.polled && forall n | n in st.pods :: st.pods[n].phase !in {Pending, Running}
  {
    hide Reconcile, DropPods, CleanAllMembers;
    assert (forall n | n in st.pods :: st.pods[n].phase != Pending) <==> InPhase(st.pods, Pending) == {} by {
      PhaseEmpty(st.pods, Pending);
    }
    assert (forall n | n in st.pods :: st.pods[n].phase != Running) <==> RunningPods(st.pods) == {} by {
      PhaseEmpty(st.pods, Running);
    }
  }

  lemma PhaseEmpty(pods: Pods, phase: PodPhase)
    ensures (forall n | n in pods :: pods[n].phase != phase) <==> InPhase(pods, phase) == {}
  {
    assert forall n | n in pods && pods[n].phase == phase :: n in InPhase(pods, phase);
  }

  /** A refresh that fails is an error, which a fatal one is told apart from, and changes neither view nor etcd. */
  lemma FailedRefresh(st: State, rerr: Err, cfg: Config, env: Env)
    requires env.fetched && env.polled && InPhase(st.pods, Pending) == {} && RunningPods(st.pods) != {}
    requires (rerr != NoErr || st.members.None?) && !env.listing.Listed?
    ensures OneTick(st, rerr, cfg, env)
         == Tick(DropFailed(st, cfg, env), if env.listing.BadPeerUrl? then Fatal else ApiErr, Stay)
  {
  }

  /** Failed pods are dropped unless they are to be kept: exactly those whose deletion takes effect. */
  lemma DropFailedIff(st: State, cfg: Config, env: Env, n: Name)
    requires ValidOrder(env) && n in st.pods
    ensures n !in DropFailed(st, cfg, env).pods
      <==> !cfg.keepFailedPods && st.pods[n].phase == PodPhase.Failed && Applied(env.dropFailed(n))
  {
    DropPodsIff(st.pods, env.order(InPhase(st.pods, PodPhase.Failed)), env.dropFailed, n);
  }

  lemma {:induction false} DropPodsIff(pods: Pods, order: seq<Name>, outcome: Name -> Outcome, n: Name)
    requires n in pods
    ensures n !in DropPods(pods, order, outcome) <==> n in order && Applied(outcome(n))
  {
    if order != [] {
      var next := DeletePod(pods, order[0], outcome(order[0])).pods;
      if n in next {
        DropPodsIff(next, order[1..], outcome, n);
      } else {
        DropPodsEffect(next, order[1..], outcome);
      }
      assert order == [order[0]] + order[1..];
    }
  }

  /** A tick that acts without error persists the phase. */
  lemma TickPersists(st: State, rerr: Err, cfg: Config, env: Env)
    requires Acts(st, rerr, env) && OneTick(st, rerr, cfg, env).rerr == NoErr
    ensures var t := OneTick(st, rerr, cfg, env);
      t.state.phase == st.phase && t.state.saved == if Applied(env.status) then st.phase else st.saved
  {
    hide DropPods, CleanAllMembers, Reconcile, Acts, BeforeReconcile;
    ActsIff(st, rerr, cfg, env);
    TickReconciles(st, rerr, cfg, env);
    ReconcileAdds(BeforeReconcile(st, rerr, cfg, env).value, RunningPods(st.pods), cfg, env, "");
  }

  /* ---------- errors ---------- */

  /** Deleting unexpected pods succeeds exactly if every single deletion does. */
  lemma {:induction false} DeletesReport(pods: Pods, order: seq<Name>, outcome: Name -> Outcome)
    ensures DeletePods(pods, order, outcome).ok <==> forall n | n in order :: outcome(n).Done?
  {
    if order != [] {
      DeletesReport(DeletePod(pods, order[0], outcome(order[0])).pods, order[1..], outcome);
      assert order == [order[0]] + order[1..];
    }
  }

  /** All calls that the removal of `n` makes are done. */
  predicate RemovalDone(n: Name, cfg: Config, env: Env) {
    env.memberRemove.Done? && env.deletePod(n).Done? && (cfg.claims ==> env.claimDeleted(n))
  }

  /** All calls that resizing a fully running cluster makes are done. */
  ghost predicate ResizeDone(ms: MemberSet, cfg: Config, env: Env) {
    && (|ms| < cfg.size ==> env.memberAdd.Done? && env.createPod.Done?)
    && (|ms| > cfg.size ==> ms != map[] && RemovalDone(First(env, ms.Keys), cfg, env))
  }

  /** The name that a range over a set yields first. */
  function First(env: Env, from: set<Name>): Name {
    if env.order(from) == [] then "" else env.order(from)[0]
  }

  lemma FirstOfSome(env: Env, from: set<Name>)
    requires ValidOrder(env) && from != {}
    ensures env.order(from) != [] && First(env, from) in from
  {
    var n :| n in from;
    assert n in env.order(from);
    assert env.order(from)[0] in env.order(from);
  }

  lemma PickReports(st: State, from: set<Name>, cfg: Config, env: Env)
    requires st.members.Some? && from <= st.members.value.Keys && ValidOrder(env)
    ensures RemovePicked(st, from, cfg, env).err == NoErr <==> from != {} && RemovalDone(First(env, from), cfg, env)
  {
    if from != {} {
      FirstOfSome(env, from);
    } else {
      assert forall n :: n !in env.order(from);
      PickOutcome(st, from, cfg, env);
    }
  }

  lemma ResizeReports(st: State, cfg: Config, env: Env)
    requires st.members.Some? && ValidOrder(env)
    ensures Resize(st, cfg, env).err == NoErr <==> ResizeDone(st.members.value, cfg, env)
  {
    hide RemovePicked, ValidOrder;
    var ms := st.members.value;
    if |ms| > cfg.size {
      PickReports(st, ms.Keys, cfg, env);
      assert ms.Keys == {} <==> ms == map[];
    }
  }

  /** All unexpected pods could be deleted. */
  ghost predicate UnexpectedDone(ms: MemberSet, running: set<Name>, env: Env) {
    forall n | n in running && n !in ms :: env.deletePod(n).Done?
  }

  lemma UnexpectedReports(st: State, running: set<Name>, env: Env)
    requires st.members.Some? && ValidOrder(env)
    ensures DeletePods(st.pods, env.order(running - st.members.value.Keys), env.deletePod).ok
      <==> UnexpectedDone(st.members.value, running, env)
  {
    DeletesReport(st.pods, env.order(running - st.members.value.Keys), env.deletePod);
  }

  /** All calls that one `reconcileMembers` makes are done; there is nothing to call without a live majority. */
  ghost predicate MembersDone(ms: MemberSet, running: set<Name>, cfg: Config, env: Env) {
    && UnexpectedDone(ms, running, env)
    && if ms.Keys <= running then ResizeDone(ms, cfg, env)
       else Majority(running, ms.Keys) && RemovalDone(First(env, ms.Keys - running), cfg, env)
  }

  lemma LiveMembers(ms: MemberSet, running: set<Name>)
    ensures var live := running - (running - ms.Keys);
      && live == running * ms.Keys && ms.Keys - live == ms.Keys - running
      && (|live| == |ms| <==> ms.Keys <= running)
      && (|live| < |ms| / 2 + 1 <==> !Majority(running, ms.Keys))
      && (ms.Keys <= running && ms != map[] ==> Majority(running, ms.Keys))
  {
    var live := running - (running - ms.Keys);
    assert live == running * ms.Keys && |ms.Keys| == |ms|;
    if |live| == |ms| {
      SubsetOfSameSizeIsEqual(live, ms.Keys);
    }
    if ms.Keys <= running {
      assert live == ms.Keys;
      assert ms != map[] ==> ms.Keys != {};
    }
    QuorumTestIsMajority(live, ms.Keys);
    assert live * ms.Keys == live;
  }

  lemma ReconcileMembersReports(st: State, running: set<Name>, cfg: Config, env: Env)
    requires st.members.Some? && ValidOrder(env)
    ensures var ms, r := st.members.value, ReconcileMembers(st, running, cfg, env);
      && (r.err == NoErr <==> MembersDone(ms, running, cfg, env))
      && (r.err == LostQuorum <==>
            ms != map[] && !Majority(running, ms.Keys) && UnexpectedDone(ms, running, env))
  {
    hide Resize, RemovePicked, DeletePods, ValidOrder, Majority, UnexpectedDone, ResizeDone;
    var ms := st.members.value;
    var del := DeletePods(st.pods, env.order(running - ms.Keys), env.deletePod);
    var st1 := st.(pods := del.pods);
    LiveMembers(ms, running);
    UnexpectedReports(st, running, env);
    ResizeReports(st1, cfg, env);
    ResizeIsNoLoss(st1, cfg, env);
    PickReports(st1, ms.Keys - running, cfg, env);
    PickIsNoLoss(st1, ms.Keys - running, cfg, env);
    assert ms.Keys <= running <==> ms.Keys - running == {};
    assert ms == map[] ==> ms.Keys == {};
  }

  lemma PickIsNoLoss(st: State, from: set<Name>, cfg: Config, env: Env)
    requires st.members.Some? && from <= st.members.value.Keys
    ensures RemovePicked(st, from, cfg, env).err != LostQuorum
  {
  }

  lemma ResizeIsNoLoss(st: State, cfg: Config, env: Env)
    requires st.members.Some?
    ensures Resize(st, cfg, env).err != LostQuorum
  {
  }

  /**
    `reconcile` reports a lost quorum exactly when there are members, the running pods
    are no majority of them, and no deletion of an unexpected pod has failed before.
   */
  lemma LostQuorumIff(st: State, running: set<Name>, cfg: Config, env: Env)
    requires st.members.Some? && ValidOrder(env)
    ensures var ms := st.members.value;
      Reconcile(st, running, cfg, env).err == LostQuorum
      <==> ms != map[] && !Majority(running, ms.Keys) && UnexpectedDone(ms, running, env)
  {
    hide ReconcileMembers, ValidOrder, Majority, UnexpectedDone, FirstOld, OldPods;
    var ms := st.members.value;
    if running != ms.Keys || |ms| != cfg.size {
      ReconcileMembersReports(st, running, cfg, env);
    } else {
      LiveMembers(ms, running);
    }
  }

  /** Without a lost quorum, it reports no error exactly when every call it makes is done. */
  lemma ReconcileReports(st: State, running: set<Name>, cfg: Config, env: Env)
    requires st.members.Some? && ValidOrder(env)
    ensures var ms := st.members.value;
      Reconcile(st, running, cfg, env).err == NoErr
      <==> if running == ms.Keys && |ms| == cfg.size
           then env.patchPod.Done? || forall n | n in running && n in st.pods :: st.pods[n].version == cfg.version
           else MembersDone(ms, running, cfg, env)
  {
    hide ReconcileMembers, MembersDone;
    var ms := st.members.value;
    if running != ms.Keys || |ms| != cfg.size {
      ReconcileMembersReports(st, running, cfg, env);
    } else {
      OldListed(env.order(running), OldPods(st.pods, running, cfg.version));
      assert |running| == |ms.Keys| == |ms|;
    }
  }

  /** An upgrade succeeds exactly if the pod is there and its patch is done, and touches no other pod. */
  lemma UpgradeReports(st: State, n: Name, cfg: Config, env: Env)
    ensures var r := UpgradeOneMember(st, n, cfg, env);
      && (r.err == NoErr <==> n in st.pods && env.patchPod.Done?)
      && r.state.pods - {n} == st.pods - {n} && r.state.etcd == st.etcd
      && (n in st.pods && Applied(env.patchPod) ==> r.state.pods[n] == st.pods[n].(version := cfg.version))
  {
  }

  lemma {:induction false} OldListed(order: seq<Name>, outdated: set<Name>)
    ensures var f := FirstOld(order, outdated);
      && (f.Some? ==> f.value in outdated && f.value in order)
      && (f.None? ==> forall n | n in order :: n !in outdated)
  {
    if order != [] && order[0] !in outdated {
      OldListed(order[1..], outdated);
    }
  }

  /* ---------- no live majority ---------- */

  /** The clean-up completes exactly if all its calls are done. */
  lemma {:induction false} CleanUpReports(st: State, order: seq<Name>, cfg: Config, env: Env)
    requires st.members.Some?
    ensures CleanAllMembers(st, order, cfg, env).err == NoErr
      <==> env.status.Done?
           && forall n | n in order :: env.deletePod(n).Done? && (cfg.claims ==> env.claimDeleted(n))
    decreases order
  {
    if order != [] {
      var n := order[0];
      var pods := DeletePod(st.pods, n, env.deletePod(n)).pods;
      CleanUpReports(st.(pods := pods, members := Some(st.members.value - {n})), order[1..], cfg, env);
      assert order == [order[0]] + order[1..];
    }
  }

  /**
    A tick that acts on members of which no majority runs changes no member of etcd. If
    the unexpected pods could be deleted it cleans up, and hands over to a new `sync`
    exactly when every call of the clean-up is done; else the loop goes on with an error.
   */
  lemma LostQuorumTick(st: State, rerr: Err, cfg: Config, env: Env)
    requires ValidOrder(env) && Acts(st, rerr, env)
    requires ViewOf(st, rerr) != map[] && !Majority(RunningPods(st.pods), ViewOf(st, rerr).Keys)
    ensures var t, ms := OneTick(st, rerr, cfg, env), ViewOf(st, rerr);
      && t.state.etcd == st.etcd && t.exit in {Stay, Rebuild} && t.rerr != NoErr
      && (t.exit == Rebuild <==>
            && UnexpectedDone(ms, RunningPods(st.pods), env) && env.status.Done?
            && forall n | n in ms :: env.deletePod(n).Done? && (cfg.claims ==> env.claimDeleted(n)))
  {
    hide Reconcile, CleanAllMembers, DropFailed, Majority, RunningPods, Acts, BeforeReconcile;
    ActsIff(st, rerr, cfg, env);
    TickReconciles(st, rerr, cfg, env);
    var before := BeforeReconcile(st, rerr, cfg, env).value;
    DropFailedEffect(st, cfg, env);
    var running := RunningPods(st.pods);
    var r := Reconcile(before, running, cfg, env);
    LostQuorumIff(before, running, cfg, env);
    LostKeepsMembers(before, running, cfg, env);
    PanicsIff(before, running, cfg, env);
    if r.err == LostQuorum {
      var order := env.order(r.state.members.value.Keys);
      CleanUpReports(r.state, order, cfg, env);
      CleanKeepsEtcd(r.state, order, cfg, env);
    }
  }

  /** Without a live majority `reconcile` does not get as far as the members. */
  lemma LostKeepsMembers(st: State, running: set<Name>, cfg: Config, env: Env)
    requires st.members.Some? && st.members.value != map[] && !Majority(running, st.members.value.Keys)
    ensures var r := Reconcile(st, running, cfg, env);
      r.state.members == st.members && r.state.etcd == st.etcd && r.err in {LostQuorum, ApiErr}
  {
    hide DeletePods, Majority;
    LiveMembers(st.members.value, running);
  }
}
