/**
  When the flag `syncing` tells the truth. In a schedule in which no two goroutines
  ever have it set at the same time it is right throughout. Which states can lead to
  a loop that runs with the flag clear, without any further goroutine, is decided
  exactly; with new callers of `Sync`, every reachable state can.
 */
module SyncFlag {
  import opened SyncLocks

  /** The flag is set exactly while some goroutine has set it and not yet cleared it. */
  ghost predicate FlagRight(s: State) {
    s.syncing <==> exists t :: t in s.threads && HasSet(s.threads[t])
  }

  ghost predicate OneSetter(s: State) {
    forall t, u | t in s.threads && u in s.threads && HasSet(s.threads[t]) && HasSet(s.threads[u]) :: t == u
  }

  /** A `sync` goroutine that has not returned. */
  predicate Unfinished(p: Pc) {
    p.Spawned? || p.Setting? || HasSet(p)
  }

  ghost predicate OneUnfinished(s: State) {
    forall t, u | t in s.threads && u in s.threads && Unfinished(s.threads[t]) && Unfinished(s.threads[u]) :: t == u
  }

  /** A loop runs although the flag says that nothing is being synced. */
  ghost predicate UnflaggedLoop(s: State) {
    !s.syncing && exists t :: t in s.threads && s.threads[t] == InLoop
  }

  /* ---------- what the flag is for ---------- */

  lemma {:induction false} DoneStaysDone(s: State, acts: seq<Action>, t: Tid)
    requires t in s.threads && s.threads[t] == CallDone
    ensures t in Run(s, acts).threads && Run(s, acts).threads[t] == CallDone
    decreases |acts|
  {
    if acts != [] {
      DoneStaysDone(if Enabled(s, acts[0]) then Apply(s, acts[0]) else s, acts[1..], t);
    }
  }

  /** A caller that reads the flag set never starts anything; one that reads it clear can start a `sync`. */
  lemma CallerStartsIff(s: State, t: Tid, acts: seq<Action>, child: Tid)
    requires t in s.threads && s.threads[t] == CallReads && child !in s.threads
    ensures s.syncing ==>
      var end := Run(Apply(s, Go(t)), acts);
      t in end.threads && end.threads[t] == CallDone && !Enabled(end, Spawn(t, child))
    ensures !s.syncing ==>
      var s' := Apply(s, Go(t));
      Enabled(s', Spawn(t, child)) && Apply(s', Spawn(t, child)).threads[child] == Spawned
  {
    if s.syncing {
      DoneStaysDone(Apply(s, Go(t)), acts, t);
    }
  }

  /** A `sync` goroutine, finished or not. */
  predicate IsSync(p: Pc) {
    Unfinished(p) || p.Finished?
  }

  ghost function Syncs(s: State): set<Tid> {
    set t | t in s.threads && IsSync(s.threads[t])
  }

  /** Callers that are about to start one. */
  ghost function Starters(s: State): set<Tid> {
    set t | t in s.threads && s.threads[t] == CallSawIdle
  }

  /** The two events that bring a `sync` about: a caller reads the flag clear, or a loop hands over. */
  predicate IsCause(s: State, a: Action) {
    && Enabled(s, a)
    && ((a.Go? && s.threads[a.t] == CallReads && !s.syncing) || (a.Spawn? && s.threads[a.t] == InLoop))
  }

  function Causes(s: State, acts: seq<Action>): nat
    decreases |acts|
  {
    if acts == [] then 0
    else (if IsCause(s, acts[0]) then 1 else 0)
         + Causes(if Enabled(s, acts[0]) then Apply(s, acts[0]) else s, acts[1..])
  }

  lemma ArriveStarts(s: State, t: Tid)
    requires Enabled(s, Arrive(t))
    ensures Syncs(Apply(s, Arrive(t))) == Syncs(s) && Starters(Apply(s, Arrive(t))) == Starters(s)
  {
  }

  lemma SpawnStarts(s: State, t: Tid, child: Tid)
    requires Enabled(s, Spawn(t, child))
    ensures Syncs(Apply(s, Spawn(t, child))) == Syncs(s) + {child} && child !in Syncs(s)
    ensures Starters(Apply(s, Spawn(t, child))) == Starters(s) - {t}
    ensures t in Starters(s) <==> !IsCause(s, Spawn(t, child))
  {
  }

  lemma GoStarts(s: State, t: Tid)
    requires Enabled(s, Go(t))
    ensures Syncs(Apply(s, Go(t))) == Syncs(s) && t !in Starters(s)
    ensures Starters(Apply(s, Go(t))) == if IsCause(s, Go(t)) then Starters(s) + {t} else Starters(s)
  {
    var s' := Apply(s, Go(t));
    assert forall u | u in s.threads && u != t :: s'.threads[u] == s.threads[u];
    assert s'.threads.Keys == s.threads.Keys;
    assert IsSync(s'.threads[t]) <==> IsSync(s.threads[t]);
    assert s'.threads[t] == CallSawIdle <==> IsCause(s, Go(t));
  }

  lemma ApplyCounts(s: State, a: Action)
    requires Enabled(s, a)
    ensures |Syncs(Apply(s, a))| + |Starters(Apply(s, a))|
         == |Syncs(s)| + |Starters(s)| + if IsCause(s, a) then 1 else 0
  {
    match a {
      case Arrive(t) =>
        ArriveStarts(s, t);
      case Spawn(t, child) =>
        SpawnStarts(s, t, child);
      case Go(t) =>
        GoStarts(s, t);
    }
    hide Apply, Syncs, Starters;
  }

  lemma {:induction false} RunCounts(s: State, acts: seq<Action>)
    ensures |Syncs(Run(s, acts))| + |Starters(Run(s, acts))| == |Syncs(s)| + |Starters(s)| + Causes(s, acts)
    decreases |acts|
  {
    hide Syncs, Starters;
    if acts != [] {
      if Enabled(s, acts[0]) {
        ApplyCounts(s, acts[0]);
      }
      RunCounts(if Enabled(s, acts[0]) then Apply(s, acts[0]) else s, acts[1..]);
    }
  }

  /**
    Conservation: in every schedule, the `sync` goroutines ever started and the callers
    about to start one are as many as callers read the flag clear and loops handed over.
    So if only one caller reads it clear and no loop hands over, there is at most one.
   */
  lemma SyncsAreCaused(acts: seq<Action>)
    ensures |Syncs(Run(START, acts))| + |Starters(Run(START, acts))| == Causes(START, acts)
    ensures Causes(START, acts) <= 1 ==> |Syncs(Run(START, acts))| <= 1 && OneUnfinished(Run(START, acts))
  {
    RunCounts(START, acts);
    assert Syncs(START) == {} && Starters(START) == {};
    var end := Run(START, acts);
    if Causes(START, acts) <= 1 {
      forall t, u | t in end.threads && u in end.threads && Unfinished(end.threads[t]) && Unfinished(end.threads[u])
        ensures t == u
      {
        SameOfOne(Syncs(end), t, u);
      }
    }
  }

  lemma SameOfOne(s: set<Tid>, t: Tid, u: Tid)
    requires t in s && u in s && |s| <= 1
    ensures t == u
  {
    var rest := s - {t};
    assert |rest| == 0;
    assert u !in rest;
  }

  /* ---------- schedules in which the flag is right ---------- */

  lemma ApplyKeepsFlagRight(s: State, a: Action)
    requires FlagRight(s) && OneSetter(s) && Enabled(s, a)
    ensures FlagRight(Apply(s, a))
  {
    var s' := Apply(s, a);
    if a.Go? && s.threads[a.t] == Clearing {
      assert HasSet(s.threads[a.t]);
    } else if s'.syncing {
      ApplyKeepsFlagInv(s, a);
    }
    if t :| t in s'.threads && HasSet(s'.threads[t]) {
      assert t in s.threads && (HasSet(s.threads[t]) || s.threads[t] == Setting);
    }
  }

  lemma RunLast(s: State, acts: seq<Action>)
    requires acts != []
    ensures var before, a := Run(s, acts[..|acts| - 1]), acts[|acts| - 1];
      Run(s, acts) == if Enabled(before, a) then Apply(before, a) else before
  {
    var n := |acts| - 1;
    assert acts == acts[..n] + [acts[n]] && [acts[n]][1..] == [];
    RunConcat(s, acts[..n], [acts[n]]);
  }

  /** If no two goroutines ever have the flag set at once, it is right at the end. */
  lemma {:induction false} FlagExact(acts: seq<Action>)
    requires forall i | 0 <= i < |acts| :: OneSetter(Run(START, acts[..i]))
    ensures FlagRight(Run(START, acts))
    decreases |acts|
  {
    if acts != [] {
      var n := |acts| - 1;
      forall i | 0 <= i < n
        ensures OneSetter(Run(START, acts[..n][..i]))
      {
        assert acts[..n][..i] == acts[..i];
      }
      FlagExact(acts[..n]);
      RunLast(START, acts);
      var before := Run(START, acts[..n]);
      if Enabled(before, acts[n]) {
        ApplyKeepsFlagRight(before, acts[n]);
      }
    }
  }

  /** In particular if there is never more than one unfinished `sync` goroutine. */
  lemma FlagExactAlone(acts: seq<Action>)
    requires forall i | 0 <= i < |acts| :: OneUnfinished(Run(START, acts[..i]))
    ensures FlagRight(Run(START, acts)) && !UnflaggedLoop(Run(START, acts))
  {
    forall i | 0 <= i < |acts|
      ensures OneSetter(Run(START, acts[..i]))
    {
      assert OneUnfinished(Run(START, acts[..i]));
    }
    FlagExact(acts);
  }

  /* ---------- driving single goroutines ---------- */

  predicate GoOnly(acts: seq<Action>) {
    forall i | 0 <= i < |acts| :: acts[i].Go?
  }

  /** `end` can be reached from `s` by steps of goroutines that exist. */
  ghost predicate Reaches(s: State, acts: seq<Action>, end: State) {
    GoOnly(acts) && Run(s, acts) == end && MutexInv(end)
  }

  lemma StepThen(s: State, t: Tid, rest: seq<Action>, end: State)
    requires Enabled(s, Go(t)) && Reaches(Apply(s, Go(t)), rest, end)
    ensures Reaches(s, [Go(t)] + rest, end)
  {
    assert ([Go(t)] + rest)[1..] == rest;
  }

  lemma JoinRuns(s: State, a: seq<Action>, m: State, b: seq<Action>, end: State)
    requires Reaches(s, a, m) && Reaches(m, b, end)
    ensures Reaches(s, a + b, end)
  {
    RunConcat(s, a, b);
  }

  lemma GoKeepsMutexInv(s: State, t: Tid)
    requires MutexInv(s) && Enabled(s, Go(t))
    ensures MutexInv(Apply(s, Go(t)))
  {
    ApplyKeepsLockInv(s, Go(t));
    ApplyKeepsLoopInv(s, Go(t));
  }

  /** Who has to step for `f` to get on: `f` itself, or the holder of the mutex it waits for. */
  function Next(s: State, f: Tid): Tid
    requires f in s.threads
  {
    if s.threads[f] == WantsLoop && s.reconcileLock.Some? then s.reconcileLock.value
    else if s.threads[f] in {Spawned, Unlocked} && s.lock.Some? then s.lock.value
    else f
  }

  /** How far `f` is from the end. */
  ghost function Left(s: State, f: Tid): nat
    requires f in s.threads
  {
    match s.threads[f]
    case Spawned => 14 + (if s.lock.Some? then 1 else 0)
    case Setting => 13
    case WantsLoop =>
      10 + (if s.reconcileLock.None? then 0
            else if s.reconcileLock.value in s.threads && s.threads[s.reconcileLock.value] == InLoop then 2 else 1)
    case InLoop => 7
    case Leaving => 6
    case Unlocked => 3 + (if s.lock.Some? then 1 else 0)
    case Clearing => 2
    case _ => 0
  }

  lemma NextGetsOn(s: State, f: Tid)
    requires MutexInv(s) && f in s.threads && Unfinished(s.threads[f])
    ensures Enabled(s, Go(Next(s, f))) && MutexInv(Apply(s, Go(Next(s, f))))
    ensures var s' := Apply(s, Go(Next(s, f)));
      f in s'.threads && (s.threads[f] == Clearing || (Unfinished(s'.threads[f]) && Left(s', f) < Left(s, f)))
  {
    GoKeepsMutexInv(s, Next(s, f));
  }

  /** What a step of one goroutine leaves alone: all others. */
  lemma GoMovesOne(s: State, t: Tid)
    requires Enabled(s, Go(t))
    ensures Apply(s, Go(t)).threads.Keys == s.threads.Keys
    ensures forall g | g in s.threads && g != t :: Apply(s, Go(t)).threads[g] == s.threads[g]
  {
  }

  /**
    `f` can finish, and clears the flag last. Goroutines that wait for the loop go on
    waiting, and one that is in the loop stays there if `f` has been through it.
   */
  lemma DriveToClear(s: State, f: Tid) returns (acts: seq<Action>, end: State)
    requires MutexInv(s) && f in s.threads && HasSet(s.threads[f])
    ensures Reaches(s, acts, end) && !end.syncing && end.lock.None?
    ensures forall g | g in s.threads && g != f && s.threads[g] == WantsLoop ::
      g in end.threads && end.threads[g] == WantsLoop
    ensures s.threads[f] != WantsLoop ==>
      forall g | g in s.threads && g != f && s.threads[g] == InLoop :: g in end.threads && end.threads[g] == InLoop
    decreases Left(s, f)
  {
    hide Apply, MutexInv;
    var n := Next(s, f);
    NextGetsOn(s, f);
    GoMovesOne(s, n);
    var s' := Apply(s, Go(n));
    NextIs(s, f);
    if s.threads[f] == Clearing {
      ClearingClears(s, f);
      acts, end := [Go(f)], s';
      assert [Go(f)][1..] == [] && Run(s', []) == s';
    } else {
      StaysSet(s, f);
      acts, end := DriveToClear(s', f);
      StepThen(s, n, acts, end);
      acts := [Go(n)] + acts;
    }
  }

  /** The goroutine that steps for `f` is neither waiting for the loop, nor in it unless `f` waits for that. */
  lemma NextIs(s: State, f: Tid)
    requires MutexInv(s) && f in s.threads && HasSet(s.threads[f])
    ensures var n := Next(s, f);
      && n in s.threads
      && (n == f || (s.threads[n] != WantsLoop && (s.threads[f] != WantsLoop ==> s.threads[n] != InLoop)))
  {
  }

  lemma ClearingClears(s: State, f: Tid)
    requires f in s.threads && s.threads[f] == Clearing
    ensures Next(s, f) == f && !Apply(s, Go(f)).syncing && Apply(s, Go(f)).lock.None?
  {
  }

  lemma StaysSet(s: State, f: Tid)
    requires MutexInv(s) && f in s.threads && HasSet(s.threads[f]) && s.threads[f] != Clearing
    ensures Enabled(s, Go(Next(s, f))) && f in Apply(s, Go(Next(s, f))).threads
    ensures var p := Apply(s, Go(Next(s, f))).threads[f]; HasSet(p) && (p == WantsLoop ==> s.threads[f] == WantsLoop)
  {
  }

  /**
    `f` can set the flag and then wait for the loop. Of the others, those in front of
    or inside the loop stay where they are, and no other moves unless it holds the mutex
    of the flag.
   */
  lemma DriveToSet(s: State, f: Tid) returns (acts: seq<Action>, end: State)
    requires MutexInv(s) && f in s.threads && s.threads[f] in {Spawned, Setting}
    ensures Reaches(s, acts, end) && f in end.threads && end.threads[f] == WantsLoop
    ensures forall g | g in s.threads && g != f ::
      && g in end.threads
      && (s.threads[g] == Setting ==> end.threads[g] == WantsLoop)
      && (Unfinished(s.threads[g]) && s.threads[g] !in {Setting, Clearing} ==> end.threads[g] == s.threads[g])
      && (s.threads[f] == Setting ==> end.threads[g] == s.threads[g])
    decreases Left(s, f)
  {
    var n := Next(s, f);
    NextGetsOn(s, f);
    GoMovesOne(s, n);
    var s' := Apply(s, Go(n));
    if s.threads[f] == Setting {
      acts, end := [Go(f)], s';
      assert [Go(f)][1..] == [] && Run(s', []) == s';
    } else {
      acts, end := DriveToSet(s', f);
      StepThen(s, n, acts, end);
      acts := [Go(n)] + acts;
    }
  }

  /** `f` can get into the loop while the flag stays as it is. */
  lemma EnterLoop(s: State, f: Tid) returns (acts: seq<Action>, end: State)
    requires MutexInv(s) && f in s.threads && s.threads[f] in {WantsLoop, InLoop}
    ensures Reaches(s, acts, end) && f in end.threads && end.threads[f] == InLoop && end.syncing == s.syncing
    decreases Left(s, f)
  {
    if s.threads[f] == InLoop {
      acts, end := [], s;
    } else {
      var n := Next(s, f);
      NextGetsOn(s, f);
      acts, end := EnterLoop(Apply(s, Go(n)), f);
      StepThen(s, n, acts, end);
      acts := [Go(n)] + acts;
    }
  }

  /* ---------- states from which a loop may run with the flag clear ---------- */

  /** Has not left the loop yet. */
  predicate Early(p: Pc) {
    p.Spawned? || p.Setting? || p.WantsLoop? || p.InLoop?
  }

  /** `x` can clear the flag after `y` has set it: unless `x` is already clearing it and `y` has yet to set it. */
  predicate MayClearAfter(x: Pc, y: Pc) {
    Unfinished(x) && Early(y) && !(x.Clearing? && y.Spawned?)
  }

  ghost predicate CanLoseFlag(s: State) {
    exists y :: y in s.threads && LosesFlag(s, y)
  }

  ghost predicate LosesFlag(s: State, y: Tid)
    requires y in s.threads
  {
    || (!s.syncing && s.threads[y] in {WantsLoop, InLoop})
    || exists x :: x in s.threads && x != y && MayClearAfter(s.threads[x], s.threads[y])
  }

  /** Both have set the flag: one of them clears it, and the other one runs the loop. */
  lemma TwoSettersLoseFlag(s: State, x: Tid, y: Tid) returns (acts: seq<Action>, end: State)
    requires MutexInv(s) && x in s.threads && y in s.threads && x != y
    requires HasSet(s.threads[x]) && s.threads[y] in {WantsLoop, InLoop}
    ensures Reaches(s, acts, end) && UnflaggedLoop(end)
  {
    hide MutexInv, Reaches;
    var first, second := x, y;
    if s.threads[y] == InLoop && s.threads[x] == WantsLoop {
      first, second := y, x;
    }
    var a, m := DriveToClear(s, first);
    ReachesInv(s, a, m);
    var b, e := EnterLoop(m, second);
    JoinRuns(s, a, m, b, e);
    acts, end := a + b, e;
  }

  lemma ReachesInv(s: State, acts: seq<Action>, end: State)
    requires Reaches(s, acts, end)
    ensures MutexInv(end)
  {
  }

  lemma PairLosesFlag(s: State, x: Tid, y: Tid) returns (acts: seq<Action>, end: State)
    requires MutexInv(s) && x in s.threads && y in s.threads && x != y && MayClearAfter(s.threads[x], s.threads[y])
    ensures Reaches(s, acts, end) && UnflaggedLoop(end)
  {
    var m, a := s, [];
    assert Reaches(s, a, m);
    if s.threads[y] in {Spawned, Setting} {
      HoldersDiffer(s, x, y);
      a, m := DriveToSet(s, y);
    }
    assert Unfinished(m.threads[x]) && m.threads[y] in {WantsLoop, InLoop};
    hide MutexInv, Reaches;
    ReachesInv(s, a, m);
    if m.threads[x] in {Spawned, Setting} {
      var b, m2 := DriveToSet(m, x);
      JoinRuns(s, a, m, b, m2);
      a, m := a + b, m2;
      ReachesInv(s, a, m);
    }
    var c, e := TwoSettersLoseFlag(m, x, y);
    JoinRuns(s, a, m, c, e);
    acts, end := a + c, e;
  }

  lemma HoldersDiffer(s: State, x: Tid, y: Tid)
    requires MutexInv(s) && x in s.threads && y in s.threads && x != y
    ensures !(HoldsLock(s.threads[x]) && HoldsLock(s.threads[y]))
  {
  }

  /** From such a state, steps of the goroutines that exist get a loop to run with the flag clear. */
  lemma UnflaggedPossible(s: State) returns (acts: seq<Action>)
    requires MutexInv(s) && CanLoseFlag(s)
    ensures GoOnly(acts) && UnflaggedLoop(Run(s, acts))
  {
    var y :| y in s.threads && LosesFlag(s, y);
    var end: State;
    if x :| x in s.threads && x != y && MayClearAfter(s.threads[x], s.threads[y]) {
      acts, end := PairLosesFlag(s, x, y);
    } else {
      acts, end := EnterLoop(s, y);
    }
  }

  lemma GoKeepsFlagSafe(s: State, t: Tid)
    requires MutexInv(s) && !CanLoseFlag(s) && Enabled(s, Go(t))
    ensures !CanLoseFlag(Apply(s, Go(t)))
  {
    var s' := Apply(s, Go(t));
    forall y | y in s'.threads
      ensures !LosesFlag(s', y)
    {
      GoKeepsFlagSafeFor(s, t, y);
    }
  }

  lemma GoKeepsFlagSafeFor(s: State, t: Tid, y: Tid)
    requires MutexInv(s) && !CanLoseFlag(s) && Enabled(s, Go(t)) && y in s.threads
    ensures !LosesFlag(Apply(s, Go(t)), y)
  {
    var s' := Apply(s, Go(t));
    assert !LosesFlag(s, y);
    forall x | x in s'.threads && x != y
      ensures !MayClearAfter(s'.threads[x], s'.threads[y])
    {
      assert !MayClearAfter(s.threads[x], s.threads[y]);
      assert !LosesFlag(s, x);
      assert !MayClearAfter(s.threads[y], s.threads[x]);
      HoldersDiffer(s, x, y);
    }
    assert !MayClearAfter(s.threads[t], s.threads[y]) || t == y;
  }

  /** From any other state they do not, in any interleaving. */
  lemma {:induction false} UnflaggedImpossible(s: State, acts: seq<Action>)
    requires MutexInv(s) && !CanLoseFlag(s) && GoOnly(acts)
    ensures !UnflaggedLoop(Run(s, acts))
    decreases |acts|
  {
    if acts == [] {
      forall t | t in s.threads
        ensures s.syncing || s.threads[t] != InLoop
      {
        assert !LosesFlag(s, t);
      }
    } else {
      var t := acts[0].t;
      if Enabled(s, Go(t)) {
        GoKeepsMutexInv(s, t);
        GoKeepsFlagSafe(s, t);
        UnflaggedImpossible(Apply(s, Go(t)), acts[1..]);
      } else {
        UnflaggedImpossible(s, acts[1..]);
      }
    }
  }

  /* ---------- what leads to such states ---------- */

  /** A hand-over does: the new goroutine may set the flag before the old one clears it. */
  lemma HandOverCanLoseFlag(s: State, t: Tid, child: Tid)
    requires Enabled(s, Spawn(t, child)) && s.threads[t] == InLoop
    ensures CanLoseFlag(Apply(s, Spawn(t, child)))
  {
    var s' := Apply(s, Spawn(t, child));
    assert MayClearAfter(s'.threads[t], s'.threads[child]);
    assert LosesFlag(s', child);
  }

  /** A caller that arrives while the flag is clear. */
  lemma CallerSeesIdle(s: State, c: Tid)
    requires c !in s.threads && s.lock.None? && !s.syncing
    ensures Run(s, [Arrive(c), Go(c)] + [Go(c)]) == s.(threads := s.threads[c := CallSawIdle])
  {
    var s1 := Apply(s, Arrive(c));
    assert [Arrive(c), Go(c)] == [Arrive(c)] + [Go(c)];
    TwoSteps(s, Arrive(c), Go(c));
    RunConcat(s, [Arrive(c), Go(c)], [Go(c)]);
    OneStep(Apply(s1, Go(c)), Go(c));
  }

  /** Two callers that both saw the flag clear start a goroutine each. */
  lemma BothSpawn(s: State, c: Tid, d: Tid, v: Tid, w: Tid)
    requires MutexInv(s) && c in s.threads && d in s.threads && c != d && v !in s.threads && w !in s.threads && v != w
    requires s.threads[c] == CallSawIdle && s.threads[d] == CallSawIdle
    ensures var end := Run(s, [Spawn(c, v)] + [Spawn(d, w)]); MutexInv(end) && CanLoseFlag(end)
  {
    var s1 := Apply(s, Spawn(c, v));
    var end := Apply(s1, Spawn(d, w));
    TwoSteps(s, Spawn(c, v), Spawn(d, w));
    assert MutexInv(end) by {
      ApplyKeepsLockInv(s, Spawn(c, v));
      ApplyKeepsLoopInv(s, Spawn(c, v));
      ApplyKeepsLockInv(s1, Spawn(d, w));
      ApplyKeepsLoopInv(s1, Spawn(d, w));
    }
    assert MayClearAfter(end.threads[v], end.threads[w]);
    assert LosesFlag(end, w);
  }

  /** So without any hand-over, two callers suffice, whenever the flag is clear and its mutex free. */
  lemma TwoCallersCanLoseFlag(s: State, c: Tid, d: Tid, v: Tid, w: Tid) returns (acts: seq<Action>)
    requires MutexInv(s) && s.lock.None? && !s.syncing && c < d < v < w
    requires c !in s.threads && d !in s.threads && v !in s.threads && w !in s.threads
    ensures MutexInv(Run(s, acts)) && CanLoseFlag(Run(s, acts))
  {
    hide Run, CanLoseFlag;
    var s1 := s.(threads := s.threads[c := CallSawIdle]);
    var s2 := s1.(threads := s1.threads[d := CallSawIdle]);
    var a, b, e := [Arrive(c), Go(c)] + [Go(c)], [Arrive(d), Go(d)] + [Go(d)], [Spawn(c, v)] + [Spawn(d, w)];
    CallerSeesIdle(s, c);
    CallerSeesIdle(s1, d);
    RunConcat(s, a, b);
    BothSpawn(s2, c, d, v, w);
    RunConcat(s, a + b, e);
    acts := (a + b) + e;
  }

  /** From every state, steps of the goroutines that exist lead to one with the flag clear and its mutex free. */
  lemma FlagCanBeCleared(s: State) returns (acts: seq<Action>, end: State)
    requires MutexInv(s) && FlagInv(s)
    ensures Reaches(s, acts, end) && !end.syncing && end.lock.None?
  {
    if s.syncing {
      var t :| t in s.threads && HasSet(s.threads[t]);
      acts, end := DriveToClear(s, t);
    } else if s.lock.None? {
      acts, end := [], s;
    } else {
      var h := s.lock.value;
      GoKeepsMutexInv(s, h);
      var s1 := Apply(s, Go(h));
      if s.threads[h] == Setting {
        acts, end := DriveToClear(s1, h);
      } else {
        acts, end := [], s1;
      }
      StepThen(s, h, acts, end);
      acts := [Go(h)] + acts;
    }
  }

  /**
    So no reachable state is safe from it, one with two unfinished goroutines or none:
    with new callers of `Sync`, some continuation runs a loop with the flag clear.
   */
  lemma EveryStateCanLoseFlag(past: seq<Action>) returns (more: seq<Action>)
    ensures UnflaggedLoop(Run(START, past + more))
  {
    hide MutexInv, CanLoseFlag, UnflaggedLoop;
    ReachableInv(past);
    var s := Run(START, past);
    var a, m := FlagCanBeCleared(s);
    ReachesInv(s, a, m);
    var c := NewTid(m.threads.Keys);
    assert m.lock.None? && !m.syncing && c + 1 !in m.threads && c + 2 !in m.threads && c + 3 !in m.threads;
    var b := TwoCallersCanLoseFlag(m, c, c + 1, c + 2, c + 3);
    var e := UnflaggedPossible(Run(m, b));
    RunConcat(m, b, e);
    RunConcat(s, a, b + e);
    more := a + (b + e);
    RunConcat(START, past, more);
  }
}
