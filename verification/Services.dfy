/**
  `syncService` of pkg/manager/component/component.go: the services of one
  component are compared, in list order, with the specs recorded in their
  annotations, and a pass ends with the first call it makes.
 */
module Services {
  import opened Wrappers

  /** The spec's other fields (type, ports, selector) are one value. */
  datatype Spec = Spec(clusterIP: string, rest: string)

  /** The last-applied annotation: absent, not decodable, or a spec. */
  datatype Record = NoRecord | Undecodable | Applied(spec: Spec)

  datatype Service = Service(record: Record, spec: Spec)

  datatype Desired = Desired(name: string, spec: Spec)

  type Store = map<string, Service>

  /** The address that the API server gives to a service created without one, and the outcome of the pass's call. */
  datatype Env = Env(assign: string -> string, outcome: Outcome)

  /** `serviceEqual` finds the desired spec recorded. */
  predicate Settled(store: Store, w: Desired) {
    w.name in store && store[w.name].record == Applied(w.spec)
  }

  function Created(w: Desired, assign: string -> string): Service {
    Service(Applied(w.spec),
            if w.spec.clusterIP == "" then w.spec.(clusterIP := assign(w.name)) else w.spec)
  }

  /** An update keeps the stored address, and records the spec with that address. */
  function Updated(w: Desired, stored: Service): Service {
    var spec := w.spec.(clusterIP := stored.spec.clusterIP);
    Service(Applied(spec), spec)
  }

  function Put(store: Store, name: string, s: Service, o: Outcome): Store {
    if o.NotApplied? then store else store[name := s]
  }

  /** What a pass does about one service that is not settled. */
  function Handle(store: Store, w: Desired, env: Env): Store {
    if w.name !in store then Put(store, w.name, Created(w, env.assign), env.outcome)
    else if store[w.name].record.Undecodable? then store
    else Put(store, w.name, Updated(w, store[w.name]), env.outcome)
  }

  /** The position of the first service that is not settled; the length of the list if all are. */
  function FirstUnsettled(store: Store, wants: seq<Desired>): (k: nat)
    ensures k <= |wants|
    ensures forall j | 0 <= j < k :: Settled(store, wants[j])
    ensures k < |wants| ==> !Settled(store, wants[k])
  {
    if wants == [] || !Settled(store, wants[0]) then 0 else 1 + FirstUnsettled(store, wants[1..])
  }

  predicate AllSettled(store: Store, wants: seq<Desired>) {
    forall j | 0 <= j < |wants| :: Settled(store, wants[j])
  }

  /** The first service that is not settled has a record that does not decode, which ends the pass with an error. */
  predicate Unreadable(store: Store, wants: seq<Desired>) {
    var k := FirstUnsettled(store, wants);
    k < |wants| && wants[k].name in store && store[wants[k].name].record.Undecodable?
  }

  function Pass(store: Store, wants: seq<Desired>, env: Env): Store {
    var k := FirstUnsettled(store, wants);
    if k == |wants| then store else Handle(store, wants[k], env)
  }

  /** A pass for a component that the product version does not have. */
  function Retire(store: Store, wants: seq<Desired>, o: Outcome): Store {
    if wants == [] || o.NotApplied? then store else store - {wants[0].name}
  }

  class ServiceClient {
    var services: Store

    method SyncService(wants: seq<Desired>, inProductVersion: bool, env: Env) returns (ok: bool)
      modifies this
      ensures services == if inProductVersion then Pass(old(services), wants, env)
                          else Retire(old(services), wants, env.outcome)
      ensures ok == if inProductVersion
                    then AllSettled(old(services), wants) || (!Unreadable(old(services), wants) && env.outcome.Done?)
                    else wants == [] || wants[0].name !in old(services) || env.outcome.Done?
    {
      for i := 0 to |wants|
        invariant services == old(services)
        invariant i > 0 ==> inProductVersion
        invariant FirstUnsettled(services, wants) == i + FirstUnsettled(services, wants[i..])
      {
        var w := wants[i];
        assert wants[i..][0] == w && wants[i..][1..] == wants[i + 1..];
        if w.name !in services {
          if !inProductVersion {
            return true;
          }
          services := Put(services, w.name, Created(w, env.assign), env.outcome);
          return env.outcome.Done?;
        }
        var stored := services[w.name];
        if !inProductVersion {
          if !env.outcome.NotApplied? {
            services := services - {w.name};
          }
          return env.outcome.Done?;
        }
        if stored.record.Undecodable? {
          return false;
        }
        if stored.record != Applied(w.spec) {
          services := Put(services, w.name, Updated(w, stored), env.outcome);
          return env.outcome.Done?;
        }
      }
      ok := true;
    }
  }

  /* ---------- one pass ---------- */

  /** A pass changes at most one service: the first in list order that is not settled. */
  lemma PassTouchesFirst(store: Store, wants: seq<Desired>, env: Env)
    ensures var k, next := FirstUnsettled(store, wants), Pass(store, wants, env);
      if k == |wants| then next == store else next - {wants[k].name} == store - {wants[k].name}
  {
  }

  /** Stored with another address than desired, or with a record that does not decode. */
  predicate Blocked(store: Store, w: Desired) {
    w.name in store && !Settled(store, w)
    && (store[w.name].record.Undecodable? || store[w.name].spec.clusterIP != w.spec.clusterIP)
  }

  /** A successful call settles the service exactly if it is not blocked; a blocked one stays blocked. */
  lemma HandledSettlesIff(store: Store, w: Desired, env: Env)
    requires !Settled(store, w) && !env.outcome.NotApplied?
    ensures Settled(Handle(store, w, env), w) <==> !Blocked(store, w)
    ensures Blocked(store, w) ==> Blocked(Handle(store, w, env), w)
    ensures forall other: Desired | other.name != w.name ::
      && (Settled(Handle(store, w, env), other) <==> Settled(store, other))
      && (Blocked(Handle(store, w, env), other) <==> Blocked(store, other))
  {
  }

  /** After an update, the next pass finds the service equal exactly if the desired address is the stored one. */
  lemma QuietAfterUpdateIff(store: Store, w: Desired, env: Env)
    requires w.name in store && !Settled(store, w) && !store[w.name].record.Undecodable? && env.outcome.Done?
    ensures Settled(Handle(store, w, env), w) <==> w.spec.clusterIP == store[w.name].spec.clusterIP
  {
    HandledSettlesIff(store, w, env);
  }

  /* ---------- any number of passes ---------- */

  predicate Distinct(wants: seq<Desired>) {
    forall i, j | 0 <= i < j < |wants| :: wants[i].name != wants[j].name
  }

  /** How many services are not settled. */
  function Unsettled(store: Store, wants: seq<Desired>): nat {
    if wants == [] then 0 else (if Settled(store, wants[0]) then 0 else 1) + Unsettled(store, wants[1..])
  }

  predicate NoneBlocked(store: Store, wants: seq<Desired>) {
    forall j | 0 <= j < |wants| :: !Blocked(store, wants[j])
  }

  function Passes(store: Store, wants: seq<Desired>, env: Env, n: nat): Store {
    if n == 0 then store else Pass(Passes(store, wants, env, n - 1), wants, env)
  }

  lemma {:induction false} UnsettledNone(store: Store, wants: seq<Desired>)
    ensures Unsettled(store, wants) == 0 <==> AllSettled(store, wants)
    ensures FirstUnsettled(store, wants) == |wants| <==> AllSettled(store, wants)
  {
    if wants != [] {
      UnsettledNone(store, wants[1..]);
      assert AllSettled(store, wants) <==> Settled(store, wants[0]) && AllSettled(store, wants[1..]) by {
        assert wants == [wants[0]] + wants[1..];
      }
    }
  }

  /** Settling one more position takes one off the count. */
  lemma {:induction false} UnsettledMinusOne(store: Store, next: Store, wants: seq<Desired>, k: nat)
    requires k < |wants| && !Settled(store, wants[k]) && Settled(next, wants[k])
    requires forall j | 0 <= j < |wants| && j != k :: Settled(next, wants[j]) <==> Settled(store, wants[j])
    ensures Unsettled(next, wants) == Unsettled(store, wants) - 1
  {
    if k == 0 {
      UnsettledSame(store, next, wants[1..]);
    } else {
      UnsettledMinusOne(store, next, wants[1..], k - 1);
    }
  }

  lemma {:induction false} UnsettledSame(store: Store, next: Store, wants: seq<Desired>)
    requires forall j | 0 <= j < |wants| :: Settled(next, wants[j]) <==> Settled(store, wants[j])
    ensures Unsettled(next, wants) == Unsettled(store, wants)
  {
    if wants != [] {
      UnsettledSame(store, next, wants[1..]);
    }
  }

  /** With nothing blocked, a pass settles exactly one service until all are. */
  lemma PassSettlesOne(store: Store, wants: seq<Desired>, env: Env)
    requires Distinct(wants) && NoneBlocked(store, wants) && env.outcome.Done?
    ensures var next := Pass(store, wants, env);
      NoneBlocked(next, wants)
      && Unsettled(next, wants) == if Unsettled(store, wants) == 0 then 0 else Unsettled(store, wants) - 1
  {
    var k := FirstUnsettled(store, wants);
    UnsettledNone(store, wants);
    if k < |wants| {
      HandledSettlesIff(store, wants[k], env);
      hide Settled, Blocked, Handle;
      forall j | 0 <= j < |wants| && j != k
        ensures wants[j].name != wants[k].name
      {
      }
      assert !Blocked(Pass(store, wants, env), wants[k]) by { SettledNotBlocked(Pass(store, wants, env), wants[k]); }
      UnsettledMinusOne(store, Pass(store, wants, env), wants, k);
    }
  }

  lemma SettledNotBlocked(store: Store, w: Desired)
    requires Settled(store, w)
    ensures !Blocked(store, w)
  {
  }

  /** A blocked service is blocked for good. */
  lemma PassKeepsBlocked(store: Store, wants: seq<Desired>, env: Env, j: nat)
    requires Distinct(wants) && j < |wants| && Blocked(store, wants[j]) && env.outcome.Done?
    ensures Blocked(Pass(store, wants, env), wants[j])
  {
    var k := FirstUnsettled(store, wants);
    if k < |wants| {
      HandledSettlesIff(store, wants[k], env);
      if k != j {
        assert wants[k].name != wants[j].name;
      }
    }
  }

  lemma {:induction false} BlockedForGood(store: Store, wants: seq<Desired>, env: Env, j: nat, n: nat)
    requires Distinct(wants) && j < |wants| && Blocked(store, wants[j]) && env.outcome.Done?
    ensures Blocked(Passes(store, wants, env, n), wants[j])
  {
    if n > 0 {
      BlockedForGood(store, wants, env, j, n - 1);
      PassKeepsBlocked(Passes(store, wants, env, n - 1), wants, env, j);
    }
  }

  lemma {:induction false} SettlesOnePerPass(store: Store, wants: seq<Desired>, env: Env, n: nat)
    requires Distinct(wants) && NoneBlocked(store, wants) && env.outcome.Done?
    ensures NoneBlocked(Passes(store, wants, env, n), wants)
    ensures Unsettled(Passes(store, wants, env, n), wants)
         == if n <= Unsettled(store, wants) then Unsettled(store, wants) - n else 0
  {
    hide Pass, NoneBlocked, Unsettled, Settled, Distinct;
    if n > 0 {
      SettlesOnePerPass(store, wants, env, n - 1);
      PassSettlesOne(Passes(store, wants, env, n - 1), wants, env);
    }
  }

  /**
    Error-free passes settle all services of the list iff none is blocked at the
    start, and then after exactly as many passes as services were not settled.
   */
  lemma ConvergesIff(store: Store, wants: seq<Desired>, env: Env, n: nat)
    requires Distinct(wants) && env.outcome.Done?
    ensures AllSettled(Passes(store, wants, env, n), wants)
       <==> NoneBlocked(store, wants) && n >= Unsettled(store, wants)
  {
    var last := Passes(store, wants, env, n);
    if NoneBlocked(store, wants) {
      SettlesOnePerPass(store, wants, env, n);
      UnsettledNone(last, wants);
    } else {
      var j :| 0 <= j < |wants| && Blocked(store, wants[j]);
      BlockedForGood(store, wants, env, j, n);
      assert !Settled(last, wants[j]);
    }
  }

  predicate FirstBlocked(store: Store, wants: seq<Desired>, k: nat) {
    k == FirstUnsettled(store, wants) && k < |wants| && Blocked(store, wants[k])
  }

  lemma FirstStaysBlocked(store: Store, wants: seq<Desired>, env: Env, k: nat)
    requires Distinct(wants) && env.outcome.Done? && FirstBlocked(store, wants, k)
    ensures FirstBlocked(Pass(store, wants, env), wants, k)
  {
    var next := Pass(store, wants, env);
    PassKeepsBlocked(store, wants, env, k);
    HandledSettlesIff(store, wants[k], env);
    hide Settled, Blocked, Handle;
    forall j | 0 <= j < k
      ensures Settled(next, wants[j])
    {
      assert wants[j].name != wants[k].name;
    }
    assert !Settled(next, wants[k]) by { BlockedNotSettled(next, wants[k]); }
    FirstIs(next, wants, k);
  }

  lemma BlockedNotSettled(store: Store, w: Desired)
    requires Blocked(store, w)
    ensures !Settled(store, w)
  {
  }

  /**
    Once the first service that is not settled is blocked, every later pass stops at
    it again: nothing but that service is ever written, so those after it starve.
   */
  lemma {:induction false} LaterServicesStarve(store: Store, wants: seq<Desired>, env: Env, k: nat, n: nat)
    requires Distinct(wants) && env.outcome.Done? && FirstBlocked(store, wants, k)
    ensures FirstBlocked(Passes(store, wants, env, n), wants, k)
    ensures Passes(store, wants, env, n) - {wants[k].name} == store - {wants[k].name}
  {
    hide Pass, Blocked, Settled, FirstUnsettled;
    if n > 0 {
      var before := Passes(store, wants, env, n - 1);
      LaterServicesStarve(store, wants, env, k, n - 1);
      FirstStaysBlocked(before, wants, env, k);
      PassTouchesFirst(before, wants, env);
    }
  }

  lemma FirstIs(store: Store, wants: seq<Desired>, k: nat)
    requires k < |wants| && !Settled(store, wants[k])
    requires forall j | 0 <= j < k :: Settled(store, wants[j])
    ensures FirstUnsettled(store, wants) == k
  {
  }

  function Retirements(store: Store, wants: seq<Desired>, n: nat): Store {
    if n == 0 then store else Retire(Retirements(store, wants, n - 1), wants, Done)
  }

  /** Leaving the product version removes the first service of the list, and never any other one. */
  lemma {:induction false} OnlyFirstRetired(store: Store, wants: seq<Desired>, n: nat)
    requires wants != [] && n >= 1
    ensures Retirements(store, wants, n) == store - {wants[0].name}
  {
    if n > 1 {
      OnlyFirstRetired(store, wants, n - 1);
    } else {
      assert Retirements(store, wants, 0) == store;
    }
  }

  /* ---------- the record is a sound cache ---------- */

  /** A decodable record describes the stored service, up to the address. */
  ghost predicate Sound(store: Store) {
    forall n | n in store && store[n].record.Applied? :: store[n].record.spec.rest == store[n].spec.rest
  }

  /**
    After a call that took effect the stored service is the desired one, at the address
    it had; a new one has the desired address, or one that the API server has given it.
   */
  lemma HandledIsDesired(store: Store, w: Desired, env: Env)
    requires !env.outcome.NotApplied? && (w.name in store ==> !store[w.name].record.Undecodable?)
    ensures var next := Handle(store, w, env);
      && w.name in next && next[w.name].spec.rest == w.spec.rest
      && next[w.name].spec.clusterIP
         == if w.name in store then store[w.name].spec.clusterIP
            else if w.spec.clusterIP == "" then env.assign(w.name) else w.spec.clusterIP
  {
  }

  /** A call that did not take effect, or a record that does not decode, leaves all services alone. */
  lemma HandledNothing(store: Store, w: Desired, env: Env)
    requires env.outcome.NotApplied? || (w.name in store && store[w.name].record.Undecodable?)
    ensures Handle(store, w, env) == store
  {
  }

  datatype Step = Step(wants: seq<Desired>, inProductVersion: bool, env: Env)

  function RunSteps(store: Store, steps: seq<Step>): Store
    decreases |steps|
  {
    if steps == [] then store
    else
      var s := steps[0];
      RunSteps(if s.inProductVersion then Pass(store, s.wants, s.env) else Retire(store, s.wants, s.env.outcome),
               steps[1..])
  }

  /** Over any passes with any desired services and any outcomes, records stay right. */
  lemma {:induction false} ServicesStaySound(store: Store, steps: seq<Step>)
    requires Sound(store)
    ensures Sound(RunSteps(store, steps))
    decreases |steps|
  {
    if steps != [] {
      var s := steps[0];
      var next := if s.inProductVersion then Pass(store, s.wants, s.env) else Retire(store, s.wants, s.env.outcome);
      assert Sound(next) by {
        PassKeepsSound(store, s.wants, s.env);
      }
      hide Pass, Retire, Sound;
      ServicesStaySound(next, steps[1..]);
    }
  }

  lemma PassKeepsSound(store: Store, wants: seq<Desired>, env: Env)
    requires Sound(store)
    ensures Sound(Pass(store, wants, env))
  {
  }

  /** So a service that a pass passes over is stored as desired, up to its address. */
  lemma SettledMeansUpToDate(store: Store, steps: seq<Step>, w: Desired)
    requires Sound(store) && Settled(RunSteps(store, steps), w)
    ensures RunSteps(store, steps)[w.name].spec.rest == w.spec.rest
  {
    ServicesStaySound(store, steps);
  }

  /** And once error-free passes have settled all services, all are stored as desired. */
  lemma ConvergedIsDesired(store: Store, wants: seq<Desired>, env: Env, n: nat, j: nat)
    requires Distinct(wants) && env.outcome.Done? && Sound(store)
    requires NoneBlocked(store, wants) && n >= Unsettled(store, wants) && j < |wants|
    ensures var end := Passes(store, wants, env, n);
      wants[j].name in end && end[wants[j].name].spec.rest == wants[j].spec.rest
  {
    hide Pass;
    ConvergesIff(store, wants, env, n);
    PassesKeepSound(store, wants, env, n);
  }

  lemma {:induction false} PassesKeepSound(store: Store, wants: seq<Desired>, env: Env, n: nat)
    requires Sound(store)
    ensures Sound(Passes(store, wants, env, n))
  {
    hide Sound, Pass;
    if n > 0 {
      PassesKeepSound(store, wants, env, n - 1);
      PassKeepsSound(Passes(store, wants, env, n - 1), wants, env);
    }
  }
}
