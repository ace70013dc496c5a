/** Every step of `reconcile` keeps a live majority, except growing from one member to two. */
module EtcdQuorum {
  import opened Wrappers
  import opened EtcdMembers
  import opened EtcdProtocol
  import opened EtcdSafety

  /** The pods that run are a majority of etcd's members. */
  ghost predicate HasQuorum(st: State) {
    Majority(RunningPods(st.pods), st.etcd.Keys)
  }

  /**
    A single member is to be joined by another one, and the call that adds it takes
    effect before its pod exists.
   */
  ghost predicate GrowsFromOne(st: State, cfg: Config, env: Env) {
    |st.etcd| == 1 && cfg.size > 1 && Applied(env.memberAdd)
  }

  /**
    Removing `n`, whose ID the view does not have, from two members: etcd takes the
    call for done and keeps the member, but its pod goes.
   */
  ghost predicate LosesOneOfTwo(st: State, n: Name, env: Env)
    requires st.members.Some?
  {
    && |st.etcd| == 2 && n in st.members.value && st.members.value[n] == UNKNOWN_ID
    && env.memberRemove.Done? && Applied(env.deletePod(n))
  }

  /** That happens to the member that a range over `from` yields first. */
  ghost predicate PickLosesOneOfTwo(st: State, from: set<Name>, env: Env)
    requires st.members.Some?
  {
    var order := env.order(from);
    order != [] && order[0] in from && LosesOneOfTwo(st, order[0], env)
  }

  /** The two ways to lose a live majority by one resizing step. */
  ghost predicate ResizeLoses(st: State, cfg: Config, env: Env)
    requires st.members.Some?
  {
    GrowsFromOne(st, cfg, env) || (|st.etcd| > cfg.size && PickLosesOneOfTwo(st, st.etcd.Keys, env))
  }

  /** No deletion of an unexpected pod fails, which would end `reconcile` early. */
  ghost predicate UnexpectedPodsGo(st: State, env: Env) {
    DeletePods(st.pods, env.order(RunningPods(st.pods) - st.etcd.Keys), env.deletePod).ok
  }

  /** Deleting unexpected pods does not touch a member's pod. */
  lemma UnknownPodsDontMatter(st: State, env: Env)
    requires st.members.Some? && ValidOrder(env)
    ensures var running := RunningPods(st.pods);
      var ms := st.members.value.Keys;
      var del := DeletePods(st.pods, env.order(running - ms), env.deletePod);
      && RunningPods(del.pods) * ms == running * ms
      && (del.ok ==> RunningPods(del.pods) <= ms)
      && (forall n | n in del.pods :: n in st.pods && del.pods[n] == st.pods[n])
      && (forall n | n in st.pods && n !in running - ms :: n in del.pods)
  {
    var running := RunningPods(st.pods);
    DeletePodsEffect(st.pods, env.order(running - st.members.value.Keys), env.deletePod);
  }

  lemma AddKeepsQuorumIff(st: State, cfg: Config, env: Env)
    requires NamesAgree(st) && Fresh(st, env)
    requires st.etcd.Keys <= RunningPods(st.pods) && st.etcd != map[]
    ensures var r := AddOneMember(st, cfg, env);
      HasQuorum(r.state) <==> !(|st.etcd| == 1 && Applied(env.memberAdd))
  {
    var r := AddOneMember(st, cfg, env);
    var running := RunningPods(st.pods);
    assert RunningPods(r.state.pods) == running;
    assert running * st.etcd.Keys == st.etcd.Keys;
    assert st.etcd.Keys != {} by {
      assert exists n :: n in st.etcd;
    }
    if Applied(env.memberAdd) {
      assert r.state.etcd.Keys == st.etcd.Keys + {env.newName};
      assert running * r.state.etcd.Keys == st.etcd.Keys;
    }
  }

  lemma MajorityWithout(running: set<Name>, all: set<Name>, n: Name)
    requires Majority(running, all) && n in all
    requires n !in running || (all <= running && |all| >= 2)
    ensures Majority(running, all - {n})
  {
    var rest := all - {n};
    if n in running {
      assert running * rest == rest;
    } else {
      assert running * rest == running * all;
    }
  }

  lemma RemoveKnownKeepsQuorum(st: State, n: Name, cfg: Config, env: Env)
    requires NamesAgree(st) && ValidEtcd(st.etcd) && HasQuorum(st) && n in st.etcd
    requires st.members.value[n] != UNKNOWN_ID
    requires n !in RunningPods(st.pods) || (st.etcd.Keys <= RunningPods(st.pods) && |st.etcd| >= 2)
    ensures HasQuorum(RemoveMember(st, n, cfg, env).state)
  {
    hide ValidEtcd, WithoutId;
    var s := RemoveMember(st, n, cfg, env).state;
    var running := RunningPods(st.pods);
    if Applied(env.memberRemove) {
      RemovedId(st.etcd, st.etcd[n]);
      assert s.etcd.Keys == st.etcd.Keys - {n};
      assert RunningPods(s.pods) * s.etcd.Keys == running * s.etcd.Keys;
      MajorityWithout(running, st.etcd.Keys, n);
    }
  }

  /** A member that stays in etcd without its pod. */
  lemma MajorityWithoutPod(running: set<Name>, all: set<Name>, n: Name)
    requires Majority(running, all) && n in all
    requires n !in running || (all <= running && |all| >= 2)
    ensures Majority(running - {n}, all) <==> |all| != 2
  {
    if n in running {
      assert running * all == all && (running - {n}) * all == all - {n};
    } else {
      assert (running - {n}) * all == running * all;
      if |all| == 2 {
        assert running * all <= all - {n};
        SubsetSize(running * all, all - {n});
      }
    }
  }

  lemma RemoveUnknownKeepsQuorumIff(st: State, n: Name, cfg: Config, env: Env)
    requires NamesAgree(st) && ValidEtcd(st.etcd) && HasQuorum(st) && n in st.etcd
    requires st.members.value[n] == UNKNOWN_ID
    requires n !in RunningPods(st.pods) || (st.etcd.Keys <= RunningPods(st.pods) && |st.etcd| >= 2)
    ensures HasQuorum(RemoveMember(st, n, cfg, env).state) <==> !LosesOneOfTwo(st, n, env)
  {
    var s := RemoveMember(st, n, cfg, env).state;
    assert s.etcd == st.etcd by {
      UnknownIdRemovesNothing(st.etcd);
    }
    hide ValidEtcd, WithoutId, Majority;
    if env.memberRemove.Done? && Applied(env.deletePod(n)) {
      assert RunningPods(s.pods) == RunningPods(st.pods) - {n};
      MajorityWithoutPod(RunningPods(st.pods), st.etcd.Keys, n);
    } else {
      assert s.pods == st.pods;
    }
  }

  /** Removing a dead member, or one of two or more that all run. */
  lemma RemoveKeepsQuorumIff(st: State, n: Name, cfg: Config, env: Env)
    requires NamesAgree(st) && ValidEtcd(st.etcd) && HasQuorum(st) && n in st.etcd
    requires n !in RunningPods(st.pods) || (st.etcd.Keys <= RunningPods(st.pods) && |st.etcd| >= 2)
    ensures HasQuorum(RemoveMember(st, n, cfg, env).state) <==> !LosesOneOfTwo(st, n, env)
  {
    hide ValidEtcd, HasQuorum, RemoveMember;
    if st.members.value[n] == UNKNOWN_ID {
      RemoveUnknownKeepsQuorumIff(st, n, cfg, env);
    } else {
      RemoveKnownKeepsQuorum(st, n, cfg, env);
    }
  }

  lemma PickKeepsQuorumIff(st: State, from: set<Name>, cfg: Config, env: Env)
    requires NamesAgree(st) && ValidEtcd(st.etcd) && HasQuorum(st) && from <= st.etcd.Keys
    requires from * RunningPods(st.pods) == {} || (st.etcd.Keys <= RunningPods(st.pods) && |st.etcd| >= 2)
    ensures HasQuorum(RemovePicked(st, from, cfg, env).state) <==> !PickLosesOneOfTwo(st, from, env)
    ensures RemovePicked(st, from, cfg, env).err != LostQuorum
  {
    hide ValidEtcd, HasQuorum;
    var order := env.order(from);
    if order != [] && order[0] in from {
      if order[0] in RunningPods(st.pods) {
        assert order[0] in from * RunningPods(st.pods);
      }
      RemoveKeepsQuorumIff(st, order[0], cfg, env);
    }
  }

  lemma ResizeKeepsQuorumIff(st: State, cfg: Config, env: Env)
    requires NamesAgree(st) && ValidEtcd(st.etcd) && Fresh(st, env) && HasQuorum(st) && cfg.size >= 1
    requires st.etcd.Keys <= RunningPods(st.pods)
    ensures var r := Resize(st, cfg, env);
      && r.err != LostQuorum
      && (HasQuorum(r.state) <==> !ResizeLoses(st, cfg, env))
  {
    hide RemovePicked, PickLosesOneOfTwo, RunningPods;
    assert |st.members.value.Keys| == |st.etcd.Keys|;
    if |st.etcd| < cfg.size {
      AddKeepsQuorumIff(st, cfg, env);
    } else if |st.etcd| > cfg.size {
      PickKeepsQuorumIff(st, st.etcd.Keys, cfg, env);
    }
  }

  /** Two members with a live majority have no dead one. */
  lemma DeadIsNotOneOfTwo(st: State, env: Env)
    requires st.members.Some? && st.members.value.Keys == st.etcd.Keys && HasQuorum(st)
    ensures !PickLosesOneOfTwo(st, st.etcd.Keys - RunningPods(st.pods), env)
  {
    var running, all := RunningPods(st.pods), st.etcd.Keys;
    if |all| == 2 {
      SubsetSize(running * all, all);
      SubsetOfSameSizeIsEqual(running * all, all);
    }
  }

  lemma ReconcileMembersKeepsQuorumIff(st: State, cfg: Config, env: Env)
    requires NamesAgree(st) && ValidEtcd(st.etcd) && Fresh(st, env) && ValidOrder(env)
    requires HasQuorum(st) && cfg.size >= 1
    ensures var r := ReconcileMembers(st, RunningPods(st.pods), cfg, env);
      && r.err != LostQuorum
      && (HasQuorum(r.state) <==> !(UnexpectedPodsGo(st, env) && ResizeLoses(st, cfg, env)))
  {
    hide Resize, RemovePicked, DeletePods, ValidOrder, ValidEtcd, RunningPods, PickLosesOneOfTwo;
    var running := RunningPods(st.pods);
    var all := st.etcd.Keys;
    var unknown := running - all;
    var live := running - unknown;
    assert live == running * all && |st.members.value.Keys| == |all|;
    var del := DeletePods(st.pods, env.order(unknown), env.deletePod);
    var st1 := st.(pods := del.pods);
    assert RunningPods(del.pods) * all == live && Fresh(st1, env) by {
      UnknownPodsDontMatter(st, env);
    }
    assert HasQuorum(st1);
    PickDependsOnView(st, st1, all, env);
    if del.ok && |live| == |all| {
      assert all <= RunningPods(st1.pods) by {
        SubsetOfSameSizeIsEqual(live, all);
      }
      ResizeKeepsQuorumIff(st1, cfg, env);
    } else if del.ok {
      assert |live| >= |all| / 2 + 1 by {
        QuorumTestIsMajority(live, all);
      }
      var dead := all - live;
      assert dead * RunningPods(st1.pods) == {} && dead == all - RunningPods(st1.pods);
      PickKeepsQuorumIff(st1, dead, cfg, env);
      DeadIsNotOneOfTwo(st1, env);
      SomeDeadMeansThree(live, all);
      MoreThanTwo(st, cfg, env);
    }
  }

  lemma PickDependsOnView(st: State, st1: State, from: set<Name>, env: Env)
    requires st.members.Some? && st1 == st.(pods := st1.pods)
    ensures PickLosesOneOfTwo(st1, from, env) <==> PickLosesOneOfTwo(st, from, env)
  {
  }

  lemma SomeDeadMeansThree(live: set<Name>, all: set<Name>)
    requires live <= all && |live| != |all| && |live| >= |all| / 2 + 1
    ensures |all| >= 3
  {
    SubsetSize(live, all);
  }

  lemma MoreThanTwo(st: State, cfg: Config, env: Env)
    requires st.members.Some? && |st.etcd| >= 3
    ensures !ResizeLoses(st, cfg, env)
  {
  }

  /**
    If the running pods are a majority of etcd's members when `reconcile` acts on a
    view with etcd's names, it does not report a lost quorum, and they are a majority
    of the membership it leaves behind, whatever calls fail, but for two cases: growing
    from one member to two, and scaling two members down by the one whose ID the view
    does not have.
   */
  lemma QuorumKeptIff(st: State, cfg: Config, env: Env)
    requires NamesAgree(st) && ValidEtcd(st.etcd) && Fresh(st, env) && ValidOrder(env)
    requires HasQuorum(st) && cfg.size >= 1
    ensures var r := Reconcile(st, RunningPods(st.pods), cfg, env);
      && r.err != LostQuorum
      && (HasQuorum(r.state) <==> !(UnexpectedPodsGo(st, env) && ResizeLoses(st, cfg, env)))
  {
    var running := RunningPods(st.pods);
    if running != st.etcd.Keys || |st.etcd| != cfg.size {
      hide ReconcileMembers, RunningPods, ValidOrder, ValidEtcd, Fresh, PickLosesOneOfTwo, UnexpectedPodsGo;
      ReconcileMembersKeepsQuorumIff(st, cfg, env);
      assert |st.members.value.Keys| == |st.etcd.Keys|;
    } else {
      var r := Reconcile(st, running, cfg, env);
      assert RunningPods(r.state.pods) == running;
    }
  }

  /** If the view agrees with etcd, IDs included, growing from one member is the only case. */
  lemma AgreedViewLosesByGrowingOnly(st: State, cfg: Config, env: Env)
    requires Agree(st) && ValidEtcd(st.etcd)
    ensures NamesAgree(st) && (ResizeLoses(st, cfg, env) <==> GrowsFromOne(st, cfg, env))
  {
  }
}
