/**
  Convergence after the last failure. Whatever calls failed up to some tick of a run,
  from there on the loop behaves like a run that starts anew: an error that is left
  over makes the next tick refresh, as a missing view would.
 */
module EtcdRecovery {
  import opened EtcdMembers
  import opened EtcdProtocol
  import opened EtcdSafety
  import opened EtcdConvergence
  import opened EtcdUpgrades
  import opened Wrappers

  /** The state a run would start anew from: after an error the view counts for nothing. */
  function Resumed(t: Tick): State {
    if t.rerr == NoErr then t.state else t.state.(members := None)
  }

  /** Calm from tick `j` on. */
  ghost predicate CalmFrom(st: State, cfg: Config, inputs: seq<Input>, j: nat) {
    forall i | j <= i < |inputs| ::
      && inputs[i].cfg == cfg && AllDone(inputs[i].env)
      && inputs[i].pods == Settle(RunTicks(st, inputs, i).state.pods)
  }

  /** The loop can go on: it has not left, its view is settled, and a majority of the members lives. */
  ghost predicate Recoverable(t: Tick) {
    && t.exit == Stay && ViewSettled(t.state, t.rerr) && ValidEtcd(t.state.etcd)
    && Majority(Up(t.state), t.state.etcd.Keys)
  }

  /** In a run that started with a settled view, only the loop and the majority have to be asked for. */
  lemma RecoverableIff(st: State, inputs: seq<Input>, j: nat)
    requires j <= |inputs| && ValidEtcd(st.etcd) && ValidInputs(st, inputs) && ViewSettled(st, NoErr)
    ensures var t := RunTicks(st, inputs, j);
      Recoverable(t) <==> t.exit == Stay && Majority(Up(t.state), t.state.etcd.Keys)
  {
    hide OneTick, ValidEtcd, ValidInputs, Up, Majority;
    assert RunTicks(st, inputs, 0) == Tick(st, NoErr, Stay);
    ViewStaysSettled(st, inputs, 0, j);
    RunKeepsEtcdValid(st, inputs, j);
  }

  lemma ResumedIsHealthy(t: Tick)
    requires Recoverable(t)
    ensures Healthy(Resumed(t))
  {
    hide Up, Majority, ValidEtcd;
    assert Up(Resumed(t)) == Up(t.state) by {
      SameUp(Resumed(t), t.state);
    }
  }

  lemma SameUp(a: State, b: State)
    requires a.pods == b.pods
    ensures Up(a) == Up(b)
  {
  }

  /** The first calm tick does not notice the difference. */
  lemma ResumedTick(t: Tick, cfg: Config, env: Env)
    requires Recoverable(t) && AllDone(env)
    ensures OneTick(t.state.(pods := Settle(t.state.pods)), t.rerr, cfg, env)
         == OneTick(Resumed(t).(pods := Settle(t.state.pods)), NoErr, cfg, env)
  {
    hide OneTick, ValidEtcd, Settle;
    if t.rerr != NoErr {
      var st := t.state.(pods := Settle(t.state.pods));
      Settled(t.state.pods);
      assert Up(t.state) == RunningPods(st.pods) == Up(st);
      SomePodRuns(st);
      StaleViewActsRefreshed(st, t.rerr, cfg, env);
      StaleViewActsRefreshed(st.(members := None), NoErr, cfg, env);
    }
  }

  /** From then on both runs are the same. */
  lemma {:induction false} ResumedRun(st: State, cfg: Config, inputs: seq<Input>, j: nat, k: nat)
    requires j + k <= |inputs| && CalmFrom(st, cfg, inputs, j) && Recoverable(RunTicks(st, inputs, j)) && k >= 1
    ensures RunTicks(Resumed(RunTicks(st, inputs, j)), inputs[j..], k) == RunTicks(st, inputs, j + k)
  {
    hide OneTick, Recoverable, AllDone;
    var t := RunTicks(st, inputs, j);
    var s, later := Resumed(t), inputs[j..];
    assert later[k - 1] == inputs[j + k - 1];
    if k == 1 {
      assert RunTicks(s, later, 0) == Tick(s, NoErr, Stay);
      assert t.exit == Stay by {
        StaysRecoverable(t);
      }
      ResumedTick(t, cfg, inputs[j].env);
    } else {
      ResumedRun(st, cfg, inputs, j, k - 1);
    }
  }

  lemma StaysRecoverable(t: Tick)
    requires Recoverable(t)
    ensures t.exit == Stay
  {
  }

  lemma ResumedState(st: State, cfg: Config, inputs: seq<Input>, j: nat, i: nat)
    requires j + i < |inputs| && CalmFrom(st, cfg, inputs, j) && Recoverable(RunTicks(st, inputs, j))
    ensures var a := RunTicks(Resumed(RunTicks(st, inputs, j)), inputs[j..], i).state;
      var b := RunTicks(st, inputs, j + i).state;
      a.pods == b.pods && a.etcd == b.etcd
  {
    hide OneTick, Recoverable, CalmFrom;
    if i > 0 {
      ResumedRun(st, cfg, inputs, j, i);
    } else {
      var s := Resumed(RunTicks(st, inputs, j));
      assert RunTicks(s, inputs[j..], 0) == Tick(s, NoErr, Stay);
    }
  }

  lemma ResumedInputs(st: State, cfg: Config, inputs: seq<Input>, j: nat)
    requires j <= |inputs| && ValidInputs(st, inputs) && CalmFrom(st, cfg, inputs, j)
    requires Recoverable(RunTicks(st, inputs, j))
    ensures var s := Resumed(RunTicks(st, inputs, j));
      ValidInputs(s, inputs[j..]) && CalmInputs(s, cfg, inputs[j..])
  {
    hide RunTicks, Resumed, ValidOrder, AllDone, Settle, Recoverable;
    var s, later := Resumed(RunTicks(st, inputs, j)), inputs[j..];
    forall i | 0 <= i < |later|
      ensures later[i] == inputs[j + i]
      ensures RunTicks(s, later, i).state.pods == RunTicks(st, inputs, j + i).state.pods
      ensures RunTicks(s, later, i).state.etcd == RunTicks(st, inputs, j + i).state.etcd
    {
      ResumedState(st, cfg, inputs, j, i);
    }
  }

  lemma ResumedTicks(t: Tick, size: int, k: nat)
    requires Recoverable(t) && k >= 1
    ensures k >= TicksNeeded(Resumed(t), size) <==> k >= TicksNeeded(t.state, size)
  {
    SameUp(Resumed(t), t.state);
    hide Up, Gap;
    if Converged(t.state, size) {
      ConvergedIff(t.state, size);
    }
  }

  /**
    After any failures up to tick `j`, with a settled view and a live majority there and
    calm inputs from there on, the cluster is converged at tick `j + k` exactly when `k`
    has reached the ticks needed from the state at `j`, and has no old pod left one tick
    per old pod later.
   */
  lemma ConvergesAfterFailures(st: State, cfg: Config, inputs: seq<Input>, j: nat, k: nat)
    requires j + k <= |inputs| && ValidInputs(st, inputs) && CalmFrom(st, cfg, inputs, j) && cfg.size >= 1
    requires Recoverable(RunTicks(st, inputs, j))
    ensures var t, end := RunTicks(st, inputs, j), RunTicks(st, inputs, j + k);
      && end.exit == Stay && (k >= 1 ==> end.rerr == NoErr)
      && (Converged(end.state, cfg.size) <==> k >= TicksNeeded(t.state, cfg.size))
      && (cfg.version != "" && k >= 1 && k >= TicksNeeded(Resumed(t), cfg.size) + |Outdated(t.state, cfg.version)| ==>
            Outdated(end.state, cfg.version) == {})
  {
    hide RunTicks, Resumed, ValidInputs, CalmFrom, CalmInputs, Healthy, Recoverable, Converged, Distance;
    var t := RunTicks(st, inputs, j);
    var s, later := Resumed(t), inputs[j..];
    StaysRecoverable(t);
    if k >= 1 {
      ResumedIsHealthy(t);
      ResumedInputs(st, cfg, inputs, j);
      ResumedRun(st, cfg, inputs, j, k);
      ConvergesExactly(s, cfg, later, k);
      ResumedTicks(t, cfg.size, k);
      SameOutdated(t, cfg);
      if cfg.version != "" && k >= TicksNeeded(s, cfg.size) + |Outdated(t.state, cfg.version)| {
        UpgradedByKnownTick(s, cfg, later, k);
      }
    }
  }

  lemma SameOutdated(t: Tick, cfg: Config)
    ensures Outdated(Resumed(t), cfg.version) == Outdated(t.state, cfg.version)
  {
  }
}
