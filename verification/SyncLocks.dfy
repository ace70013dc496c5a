/**
  The goroutines around the etcd loop (pkg/manager/component/etcd.go): callers of
  `Sync`, the `sync` goroutines they start, and the goroutine that a loop hands
  over to after a lost quorum. They share the mutex `lock` that guards the flag
  `syncing`, and the mutex `reconcileLock` that guards `setup` and `run`.
  Every step below is one that the Go scheduler may interleave with any other.
 */
module SyncLocks {
  import opened Wrappers

  type Tid = nat

  /** Where a goroutine stands. */
  datatype Pc =
      // Sync: isSyncing, then maybe `go m.sync`
    | CallWants | CallReads | CallSawIdle | CallDone
      // sync: setSyncing, reconcileLock, the body, and the two deferred calls in reverse order
    | Spawned | Setting | WantsLoop | InLoop | Leaving | Unlocked | Clearing | Finished

  datatype State = State(threads: map<Tid, Pc>, syncing: bool, lock: Option<Tid>, reconcileLock: Option<Tid>)

  datatype Action =
    | Arrive(t: Tid)
    | Go(t: Tid)
    | Spawn(t: Tid, child: Tid)

  const START := State(map[], false, None, None)

  /** A caller that saw an idle flag, or a loop that lost quorum, may start a new `sync`. */
  predicate Enabled(s: State, a: Action) {
    match a
    case Arrive(t) => t !in s.threads
    case Spawn(t, child) =>
      && t in s.threads && child !in s.threads
      && (s.threads[t] == CallSawIdle || s.threads[t] == InLoop)
    case Go(t) =>
      && t in s.threads
      && match s.threads[t]
         case CallWants => s.lock.None?
         case Spawned => s.lock.None?
         case Unlocked => s.lock.None?
         case WantsLoop => s.reconcileLock.None?
         case CallReads => true
         case Setting => true
         case InLoop => true
         case Leaving => true
         case Clearing => true
         case CallSawIdle => false
         case CallDone => false
         case Finished => false
  }

  function Apply(s: State, a: Action): State
    requires Enabled(s, a)
  {
    match a
    case Arrive(t) => s.(threads := s.threads[t := CallWants])
    case Spawn(t, child) =>
      s.(threads := s.threads[t := if s.threads[t] == CallSawIdle then CallDone else Leaving][child := Spawned])
    case Go(t) =>
      match s.threads[t]
      case CallWants => s.(threads := s.threads[t := CallReads], lock := Some(t))
      case CallReads => s.(threads := s.threads[t := if s.syncing then CallDone else CallSawIdle], lock := None)
      case Spawned => s.(threads := s.threads[t := Setting], lock := Some(t))
      case Setting => s.(threads := s.threads[t := WantsLoop], syncing := true, lock := None)
      case WantsLoop => s.(threads := s.threads[t := InLoop], reconcileLock := Some(t))
      case InLoop => s.(threads := s.threads[t := Leaving])
      case Leaving => s.(threads := s.threads[t := Unlocked], reconcileLock := None)
      case Unlocked => s.(threads := s.threads[t := Clearing], lock := Some(t))
      case Clearing => s.(threads := s.threads[t := Finished], syncing := false, lock := None)
      case _ => s
  }

  /** The end of a schedule; an action that is not enabled leaves the state alone. */
  function Run(s: State, acts: seq<Action>): State
    decreases |acts|
  {
    if acts == [] then s
    else Run(if Enabled(s, acts[0]) then Apply(s, acts[0]) else s, acts[1..])
  }

  predicate HoldsLock(p: Pc) {
    p.CallReads? || p.Setting? || p.Clearing?
  }

  predicate HoldsReconcileLock(p: Pc) {
    p.InLoop? || p.Leaving?
  }

  /** Blocked in a `Lock()` call. */
  predicate Waits(p: Pc) {
    p.CallWants? || p.Spawned? || p.Unlocked? || p.WantsLoop?
  }

  /** Has set the flag and not yet cleared it. */
  predicate HasSet(p: Pc) {
    p.WantsLoop? || p.InLoop? || p.Leaving? || p.Unlocked? || p.Clearing?
  }

  predicate Ended(p: Pc) {
    p.CallDone? || p.Finished?
  }

  /** Each mutex is held by exactly the goroutine that stands between its lock and its unlock. */
  ghost predicate MutexInv(s: State) {
    && LockInv(s) && LoopInv(s)
  }

  ghost predicate LockInv(s: State) {
    && (forall t | t in s.threads :: HoldsLock(s.threads[t]) <==> s.lock == Some(t))
    && (s.lock.Some? ==> s.lock.value in s.threads)
  }

  ghost predicate LoopInv(s: State) {
    && (forall t | t in s.threads :: HoldsReconcileLock(s.threads[t]) <==> s.reconcileLock == Some(t))
    && (s.reconcileLock.Some? ==> s.reconcileLock.value in s.threads)
  }

  ghost predicate FlagInv(s: State) {
    s.syncing ==> exists t :: t in s.threads && HasSet(s.threads[t])
  }

  lemma ApplyKeepsLockInv(s: State, a: Action)
    requires LockInv(s) && Enabled(s, a)
    ensures LockInv(Apply(s, a))
  {
  }

  lemma ApplyKeepsLoopInv(s: State, a: Action)
    requires LoopInv(s) && Enabled(s, a)
    ensures LoopInv(Apply(s, a))
  {
  }

  lemma ApplyKeepsFlagInv(s: State, a: Action)
    requires FlagInv(s) && Enabled(s, a)
    ensures FlagInv(Apply(s, a))
  {
    var s' := Apply(s, a);
    if s'.syncing {
      if a.Go? && s.threads[a.t] == Setting {
        assert HasSet(s'.threads[a.t]);
      } else {
        var t :| t in s.threads && HasSet(s.threads[t]);
        assert HasSet(s'.threads[t]);
      }
    }
  }

  lemma {:induction false} RunKeepsInv(s: State, acts: seq<Action>)
    requires MutexInv(s) && FlagInv(s)
    ensures MutexInv(Run(s, acts)) && FlagInv(Run(s, acts))
    decreases |acts|
  {
    if acts != [] {
      if Enabled(s, acts[0]) {
        ApplyKeepsLockInv(s, acts[0]);
        ApplyKeepsLoopInv(s, acts[0]);
        ApplyKeepsFlagInv(s, acts[0]);
      }
      RunKeepsInv(if Enabled(s, acts[0]) then Apply(s, acts[0]) else s, acts[1..]);
    }
  }

  lemma ReachableInv(acts: seq<Action>)
    ensures MutexInv(Run(START, acts)) && FlagInv(Run(START, acts))
  {
    RunKeepsInv(START, acts);
  }

  /** At most one goroutine is between taking and releasing `reconcileLock`, in every interleaving. */
  lemma AtMostOneLoop(acts: seq<Action>, t: Tid, u: Tid)
    requires var s := Run(START, acts);
      && t in s.threads && HoldsReconcileLock(s.threads[t])
      && u in s.threads && HoldsReconcileLock(s.threads[u])
    ensures t == u
  {
    ReachableInv(acts);
  }

  /** A goroutine that holds one of the mutexes is not waiting for a mutex. */
  lemma NoHoldAndWait(acts: seq<Action>, t: Tid)
    requires var s := Run(START, acts); t in s.threads && (s.lock == Some(t) || s.reconcileLock == Some(t))
    ensures !Waits(Run(START, acts).threads[t])
  {
    ReachableInv(acts);
  }

  /** So nothing deadlocks: as long as some goroutine has not ended, some goroutine can take a step. */
  lemma NoDeadlock(acts: seq<Action>, t: Tid) returns (a: Action)
    requires var s := Run(START, acts); t in s.threads && !Ended(s.threads[t])
    ensures !a.Arrive? && Enabled(Run(START, acts), a)
  {
    ReachableInv(acts);
    var s := Run(START, acts);
    var pc := s.threads[t];
    if pc == CallSawIdle {
      var child := NewTid(s.threads.Keys);
      a := Spawn(t, child);
    } else if pc == WantsLoop && s.reconcileLock.Some? {
      a := Go(s.reconcileLock.value);
    } else if Waits(pc) && pc != WantsLoop && s.lock.Some? {
      a := Go(s.lock.value);
    } else {
      a := Go(t);
    }
  }

  lemma NewTid(used: set<Tid>) returns (t: Tid)
    ensures t !in used
    ensures forall u | u in used :: u < t
  {
    t := 0;
    var todo := used;
    while todo != {}
      invariant todo <= used
      invariant forall u | u in used :: u in todo || u < t
      decreases todo
    {
      var u :| u in todo;
      t := if u < t then t else u + 1;
      todo := todo - {u};
    }
  }

  /** The flag is set only while some `sync` goroutine has still to clear it. */
  lemma FlagHasSetter(acts: seq<Action>) returns (t: Tid)
    requires Run(START, acts).syncing
    ensures var s := Run(START, acts); t in s.threads && HasSet(s.threads[t])
  {
    ReachableInv(acts);
    var s := Run(START, acts);
    t :| t in s.threads && HasSet(s.threads[t]);
  }

  /** The flag cannot stick: once every goroutine has ended it is clear and both mutexes are free. */
  lemma FlagCannotStick(acts: seq<Action>)
    requires var s := Run(START, acts); forall t | t in s.threads :: Ended(s.threads[t])
    ensures var s := Run(START, acts); !s.syncing && s.lock.None? && s.reconcileLock.None?
  {
    ReachableInv(acts);
  }

  lemma {:induction false} RunConcat(s: State, a: seq<Action>, b: seq<Action>)
    ensures Run(s, a + b) == Run(Run(s, a), b)
    decreases |a|
  {
    if a == [] {
      assert a + b == b;
    } else {
      assert (a + b)[1..] == a[1..] + b;
      RunConcat(if Enabled(s, a[0]) then Apply(s, a[0]) else s, a[1..], b);
    }
  }

  lemma OneStep(s: State, a: Action)
    requires Enabled(s, a)
    ensures Run(s, [a]) == Apply(s, a)
  {
    assert [a][1..] == [];
  }

  lemma TwoSteps(s: State, a: Action, b: Action)
    requires Enabled(s, a) && Enabled(Apply(s, a), b)
    ensures Run(s, [a] + [b]) == Apply(Apply(s, a), b)
  {
    RunConcat(s, [a], [b]);
    OneStep(s, a);
    OneStep(Apply(s, a), b);
  }

  /** The new goroutine sets the flag while the old loop is leaving. */
  lemma HandOverSets(s: State, t: Tid, child: Tid)
    requires MutexInv(s) && t in s.threads && s.threads[t] == InLoop && s.lock.None? && child !in s.threads
    ensures Run(s, [Spawn(t, child)] + ([Go(child)] + [Go(child)]))
      == State(s.threads[t := Leaving][child := WantsLoop], true, None, Some(t))
  {
    var s1 := Apply(s, Spawn(t, child));
    RunConcat(s, [Spawn(t, child)], [Go(child)] + [Go(child)]);
    OneStep(s, Spawn(t, child));
    TwoSteps(s1, Go(child), Go(child));
    assert s1.threads[child := Setting][child := WantsLoop] == s.threads[t := Leaving][child := WantsLoop];
  }

  /** Then the old loop's two deferred calls release the mutex and clear the flag, and the new loop starts. */
  lemma LeavingClears(s: State, t: Tid, child: Tid)
    requires t != child && t in s.threads && s.threads[t] == Leaving
    requires child in s.threads && s.threads[child] == WantsLoop
    requires s.lock.None?
    ensures Run(s, ([Go(t)] + [Go(t)]) + ([Go(t)] + [Go(child)]))
      == State(s.threads[t := Finished][child := InLoop], false, None, Some(child))
  {
    var s2 := Apply(Apply(s, Go(t)), Go(t));
    RunConcat(s, [Go(t)] + [Go(t)], [Go(t)] + [Go(child)]);
    TwoSteps(s, Go(t), Go(t));
    TwoSteps(s2, Go(t), Go(child));
    assert s2.threads[t := Finished][child := InLoop] == s.threads[t := Finished][child := InLoop];
  }

  /**
    The converse fails, at every hand-over: if the new goroutine sets the flag
    before the old loop's deferred call clears it, the new loop runs with the
    flag clear, and the next call of `Sync` starts one more goroutine.
   */
  lemma HandOverMayClearFlag(s: State, t: Tid, child: Tid) returns (acts: seq<Action>)
    requires MutexInv(s) && t in s.threads && s.threads[t] == InLoop && s.lock.None? && child !in s.threads
    ensures var end := Run(s, acts);
      && t in end.threads && end.threads[t] == Finished
      && child in end.threads && end.threads[child] == InLoop
      && !end.syncing
  {
    var first := [Spawn(t, child)] + ([Go(child)] + [Go(child)]);
    var second := ([Go(t)] + [Go(t)]) + ([Go(t)] + [Go(child)]);
    acts := first + second;
    HandOverSets(s, t, child);
    LeavingClears(Run(s, first), t, child);
    RunConcat(s, first, second);
  }
}
