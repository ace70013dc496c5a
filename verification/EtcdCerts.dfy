/**
  The three TLS secrets of the etcd cluster: when pkg/manager/certs/manager.go
  has them regenerated, and how pkg/controller/onecloud_etcd_cert.go deletes and
  recreates them from one new CA.
 */
module EtcdCerts {
  import opened Wrappers

  /** A certificate authority; certificate bytes are not modelled. */
  type CA = nat

  datatype Secret = Server | Client | Peer

  /** The secrets that exist, each with the CA it carries and is signed by. */
  type Store = map<Secret, CA>

  const ALL: seq<Secret> := [Server, Client, Peer]

  /** The cluster's own certificate secret, which exists or not, and the etcd secrets. */
  datatype Certs = Certs(cluster: bool, etcd: Store)

  datatype Env = Env(
    certMade: bool,
    createCert: Outcome,
    ca: CA,
    caMade: bool,
    delete: Secret -> Outcome,
    signed: Secret -> bool,
    create: Secret -> Outcome)

  /** The stores that the calls went through, the last one included, and whether the caller saw success. */
  datatype Trace = Trace(stores: seq<Store>, ok: bool)

  function Delete(store: Store, n: Secret, o: Outcome): Store {
    if Applied(o) then store - {n} else store
  }

  /** The deletion loop: errors are logged only. */
  function DeleteAll(store: Store, names: seq<Secret>, env: Env): seq<Store>
    decreases names
  {
    if names == [] then []
    else
      var next := Delete(store, names[0], env.delete(names[0]));
      [next] + DeleteAll(next, names[1..], env)
  }

  /** Signing and creating one secret after the other; an existing secret makes its creation fail. */
  function CreateAll(store: Store, names: seq<Secret>, env: Env): Trace
    decreases names
  {
    if names == [] then Trace([], true)
    else
      var n := names[0];
      if !env.signed(n) || n in store then Trace([], false)
      else
        var next := if Applied(env.create(n)) then store[n := env.ca] else store;
        if !env.create(n).Done? then Trace([next], false)
        else
          var rest := CreateAll(next, names[1..], env);
          Trace([next] + rest.stores, rest.ok)
  }

  function Last(store: Store, stores: seq<Store>): Store {
    if stores == [] then store else stores[|stores| - 1]
  }

  /** `CreateEtcdCert` */
  function Regenerate(store: Store, env: Env): Trace {
    var deleted := DeleteAll(store, ALL, env);
    if !env.caMade then Trace(deleted, false)
    else
      var created := CreateAll(Last(store, deleted), ALL, env);
      Trace(deleted + created.stores, created.ok)
  }

  /**
    `CreateOrUpdate`: a pass that finds no cluster certificate makes that one only;
    any other pass regenerates the etcd secrets if some of them is missing.
   */
  function Maintain(certs: Certs, enabled: bool, env: Env): Trace {
    var store := certs.etcd;
    if !certs.cluster then Trace([], env.certMade && env.createCert.Done?)
    else if enabled && (Server !in store || Client !in store || Peer !in store) then Regenerate(store, env)
    else Trace([], true)
  }

  function Maintained(certs: Certs, enabled: bool, env: Env): Certs {
    Certs(certs.cluster || (env.certMade && Applied(env.createCert)),
          Last(certs.etcd, Maintain(certs, enabled, env).stores))
  }

  class SecretClient {
    var clusterCert: bool
    var secrets: Store

    method DeleteSecrets(names: seq<Secret>, env: Env) returns (ghost trace: seq<Store>)
      modifies this`secrets
      ensures trace == DeleteAll(old(secrets), names, env) && secrets == Last(old(secrets), trace)
    {
      trace := [];
      for i := 0 to |names|
        invariant DeleteAll(old(secrets), names, env) == trace + DeleteAll(secrets, names[i..], env)
        invariant secrets == Last(old(secrets), trace)
      {
        assert names[i..][1..] == names[i + 1..];
        if Applied(env.delete(names[i])) {
          secrets := secrets - {names[i]};
        }
        assert forall rest: seq<Store> :: trace + ([secrets] + rest) == (trace + [secrets]) + rest;
        trace := trace + [secrets];
      }
    }

    /** Signs a certificate with the CA and stores it together with the CA's own certificate. */
    method CreateSecret(n: Secret, env: Env) returns (ok: bool, ghost tried: seq<Store>)
      modifies this`secrets
      ensures Trace(tried, ok) == CreateAll(old(secrets), [n], env) && secrets == Last(old(secrets), tried)
    {
      tried := [];
      if !env.signed(n) || n in secrets {
        return false, [];
      }
      if Applied(env.create(n)) {
        secrets := secrets[n := env.ca];
      }
      return env.create(n).Done?, [secrets];
    }

    method CreateEtcdCert(env: Env) returns (ok: bool, ghost trace: seq<Store>)
      modifies this`secrets
      ensures Trace(trace, ok) == Regenerate(old(secrets), env) && secrets == Last(old(secrets), trace)
    {
      hide CreateAll, DeleteAll;
      trace := DeleteSecrets(ALL, env);
      if !env.caMade {
        return false, trace;
      }
      ghost var start := secrets;
      ghost var deleted, t1, t2, t3 := trace, [], [], [];
      assert ALL == [Server] + ([Client] + [Peer]);
      CreateOneByOne(start, Server, [Client] + [Peer], env);
      ok, t1 := CreateSecret(Server, env);
      trace := deleted + t1;
      if !ok {
        return;
      }
      CreateOneByOne(secrets, Client, [Peer], env);
      ok, t2 := CreateSecret(Client, env);
      trace := deleted + (t1 + t2);
      if !ok {
        return;
      }
      ok, t3 := CreateSecret(Peer, env);
      trace := deleted + (t1 + (t2 + t3));
    }

    method CreateOrUpdate(enabled: bool, env: Env) returns (ok: bool, ghost trace: seq<Store>)
      modifies this
      ensures Trace(trace, ok) == Maintain(Certs(old(clusterCert), old(secrets)), enabled, env)
      ensures Certs(clusterCert, secrets) == Maintained(Certs(old(clusterCert), old(secrets)), enabled, env)
    {
      hide CreateAll, DeleteAll, Regenerate;
      ok, trace := true, [];
      if !clusterCert {
        clusterCert := env.certMade && Applied(env.createCert);
        return env.certMade && env.createCert.Done?, [];
      }
      if !enabled {
        return;
      }
      for i := 0 to |ALL|
        invariant forall j | 0 <= j < i :: ALL[j] in secrets
        invariant secrets == old(secrets)
      {
        if ALL[i] !in secrets {
          ok, trace := CreateEtcdCert(env);
          return;
        }
      }
      assert ALL[0] in secrets && ALL[1] in secrets && ALL[2] in secrets;
    }
  }

  /** Creating several secrets is creating the first and, if that worked, the others. */
  lemma CreateOneByOne(store: Store, n: Secret, names: seq<Secret>, env: Env)
    ensures var first := CreateAll(store, [n], env);
      var rest := CreateAll(Last(store, first.stores), names, env);
      CreateAll(store, [n] + names, env)
        == if first.ok then Trace(first.stores + rest.stores, rest.ok) else first
  {
    assert ([n] + names)[1..] == names && [n][1..] == [];
  }

  /* ---------- one CA ---------- */

  ghost predicate OneCA(store: Store) {
    forall a, b | a in store && b in store :: store[a] == store[b]
  }

  lemma {:induction false} DeletingLeaves(store: Store, names: seq<Secret>, env: Env)
    ensures var end := Last(store, DeleteAll(store, names, env));
      && (forall n :: n in end <==> n in store && (n in names ==> !Applied(env.delete(n))))
      && (forall n | n in end :: end[n] == store[n])
    decreases names
  {
    if names != [] {
      var next := Delete(store, names[0], env.delete(names[0]));
      DeletingLeaves(next, names[1..], env);
      assert names == [names[0]] + names[1..];
    }
  }

  lemma {:induction false} DeletingKeepsOneCA(store: Store, names: seq<Secret>, env: Env)
    requires OneCA(store)
    ensures forall s | s in DeleteAll(store, names, env) :: OneCA(s)
    ensures OneCA(Last(store, DeleteAll(store, names, env)))
    decreases names
  {
    if names != [] {
      var next := Delete(store, names[0], env.delete(names[0]));
      DeletingKeepsOneCA(next, names[1..], env);
    }
  }

  lemma {:induction false} CreatingKeepsOneCA(store: Store, names: seq<Secret>, env: Env)
    requires forall n | n in store :: store[n] == env.ca
    ensures forall s | s in CreateAll(store, names, env).stores :: OneCA(s)
    decreases names
  {
    if names != [] {
      var next := if Applied(env.create(names[0])) then store[names[0] := env.ca] else store;
      CreatingKeepsOneCA(next, names[1..], env);
    }
  }

  /** Every delete of an existing secret takes effect. */
  ghost predicate DeletesWork(store: Store, env: Env) {
    forall n | n in store :: Applied(env.delete(n))
  }

  /**
    If every delete of an existing secret takes effect then at every point of
    the run, also one cut short by a failed signature or creation, all secrets
    present share one CA; a run that reports success leaves all three secrets,
    signed by the new CA.
   */
  lemma OneCAAtEveryPoint(store: Store, env: Env)
    requires OneCA(store) && DeletesWork(store, env)
    ensures var t := Regenerate(store, env);
      && (forall s | s in t.stores :: OneCA(s))
      && OneCA(Last(store, t.stores))
      && (t.ok ==> Last(store, t.stores) == map[Server := env.ca, Client := env.ca, Peer := env.ca])
  {
    DeletingKeepsOneCA(store, ALL, env);
    DeletingLeaves(store, ALL, env);
    var end := Last(store, DeleteAll(store, ALL, env));
    AllSecrets();
    assert end == map[];
    CreatingKeepsOneCA(end, ALL, env);
    if Regenerate(store, env).ok {
      CreatedInFull(end, env);
    }
  }

  lemma AllSecrets()
    ensures forall n: Secret :: n in ALL
  {
    assert ALL[0] in ALL && ALL[1] in ALL && ALL[2] in ALL;
    forall n: Secret
      ensures n in ALL
    {
      match n {
        case Server =>
        case Client =>
        case Peer =>
      }
    }
  }

  lemma CreateOne(store: Store, n: Secret, env: Env)
    ensures CreateAll(store, [n], env)
      == if !env.signed(n) || n in store then Trace([], false)
         else Trace([if Applied(env.create(n)) then store[n := env.ca] else store], env.create(n).Done?)
  {
    assert [n][1..] == [];
  }

  /** The creations, written out. */
  lemma CreateUnrolled(store: Store, env: Env)
    ensures (forall n: Secret :: env.signed(n) && env.create(n).Done?) ==>
      var t := CreateAll(store, ALL, env);
      var end := Last(store, t.stores);
      if Server in store then !t.ok && end == store
      else if Client in store then !t.ok && end == store[Server := env.ca]
      else if Peer in store then !t.ok && end == store[Server := env.ca][Client := env.ca]
      else t.ok && end == store[Server := env.ca][Client := env.ca][Peer := env.ca]
  {
    hide CreateAll;
    var s1 := store[Server := env.ca];
    assert ALL == [Server] + ([Client] + [Peer]);
    CreateOneByOne(store, Server, [Client] + [Peer], env);
    CreateOneByOne(s1, Client, [Peer], env);
    CreateOne(store, Server, env);
    CreateOne(s1, Client, env);
    CreateOne(s1[Client := env.ca], Peer, env);
  }

  lemma CreatedInFull(store: Store, env: Env)
    requires store == map[] && CreateAll(store, ALL, env).ok
    ensures Last(store, CreateAll(store, ALL, env).stores) == map[Server := env.ca, Client := env.ca, Peer := env.ca]
  {
    hide CreateAll;
    var s1 := store[Server := env.ca];
    assert ALL == [Server] + ([Client] + [Peer]);
    CreateOneByOne(store, Server, [Client] + [Peer], env);
    CreateOneByOne(s1, Client, [Peer], env);
    CreateOne(store, Server, env);
    CreateOne(s1, Client, env);
    CreateOne(s1[Client := env.ca], Peer, env);
  }

  /** `k` maintenance passes; every pass may meet different failures. */
  function AfterPasses(passes: seq<(bool, Env)>, k: nat): Certs
    requires k <= |passes|
  {
    if k == 0 then Certs(false, map[])
    else Maintained(AfterPasses(passes, k - 1), passes[k - 1].0, passes[k - 1].1)
  }

  lemma EmptyHasOneCA()
    ensures OneCA(map[])
  {
  }

  /** Over any sequence of passes in which no existing secret resists its deletion, no two CAs are ever mixed. */
  lemma {:induction false} NeverMixed(passes: seq<(bool, Env)>, k: nat)
    requires k <= |passes|
    requires forall i | 0 <= i < k :: DeletesWork(AfterPasses(passes, i).etcd, passes[i].1)
    ensures OneCA(AfterPasses(passes, k).etcd)
    ensures k < |passes| && DeletesWork(AfterPasses(passes, k).etcd, passes[k].1) ==>
      forall s | s in Maintain(AfterPasses(passes, k), passes[k].0, passes[k].1).stores :: OneCA(s)
  {
    hide Regenerate, OneCA, DeletesWork;
    assert OneCA(map[]) by {
      EmptyHasOneCA();
    }
    if k > 0 {
      NeverMixed(passes, k - 1);
      OneCAAtEveryPoint(AfterPasses(passes, k - 1).etcd, passes[k - 1].1);
    }
    if k < |passes| && DeletesWork(AfterPasses(passes, k).etcd, passes[k].1) {
      OneCAAtEveryPoint(AfterPasses(passes, k).etcd, passes[k].1);
    }
  }

  /** From nothing, two error-free passes make everything: the cluster certificate first, then the etcd secrets. */
  lemma TwoPassesMakeAll(first: Env, second: Env)
    requires first.certMade && first.createCert.Done? && second.caMade
    requires forall n: Secret :: second.signed(n) && second.create(n).Done?
    ensures var a := Maintained(Certs(false, map[]), true, first);
      a == Certs(true, map[]) && Maintain(a, true, second).ok
      && Maintained(a, true, second).etcd == map[Server := second.ca, Client := second.ca, Peer := second.ca]
  {
    hide CreateAll, DeleteAll;
    DeletingLeaves(map[], ALL, second);
    var deleted := DeleteAll(map[], ALL, second);
    assert Last(map[], deleted) == map[];
    CreateUnrolled(map[], second);
    var created := CreateAll(map[], ALL, second).stores;
    assert Last(map[], deleted + created) == Last(Last(map[], deleted), created);
  }

  /** Secrets that outlive their deletion. */
  ghost function Survivors(store: Store, env: Env): set<Secret> {
    set n | n in store && !Applied(env.delete(n))
  }

  /** Creations over secrets of another CA mix the two exactly if the first creation, the server's, takes effect. */
  lemma CreatingMixesIff(store: Store, env: Env)
    requires OneCA(store) && forall n | n in store :: store[n] != env.ca
    ensures OneCA(Last(store, CreateAll(store, ALL, env).stores))
      <==> store == map[] || Server in store || !env.signed(Server) || !Applied(env.create(Server))
  {
    hide CreateAll;
    assert ALL == [Server] + ([Client] + [Peer]);
    CreateOneByOne(store, Server, [Client] + [Peer], env);
    CreateOne(store, Server, env);
    if env.signed(Server) && Server !in store && Applied(env.create(Server)) {
      var s1 := store[Server := env.ca];
      CreatingOnlyAdds(s1, [Client] + [Peer], env);
      if store == map[] {
        CreatingKeepsOneCA(s1, [Client] + [Peer], env);
      } else {
        var n :| n in store;
        assert s1[n] != s1[Server];
      }
    }
  }

  lemma {:induction false} CreatingOnlyAdds(store: Store, names: seq<Secret>, env: Env)
    ensures forall n | n in store ::
      var end := Last(store, CreateAll(store, names, env).stores); n in end && end[n] == store[n]
    decreases names
  {
    if names != [] {
      var n := names[0];
      var next := if Applied(env.create(n)) then store[n := env.ca] else store;
      if env.signed(n) && n !in store && env.create(n).Done? {
        CreatingOnlyAdds(next, names[1..], env);
        var rest := CreateAll(next, names[1..], env).stores;
        assert Last(store, [next] + rest) == Last(next, rest);
      }
    }
  }

  /**
    Deletion errors are only logged, and that can mix CAs. A regeneration leaves
    one CA exactly when no secret survived its deletion, or the server's did, or
    the run ended before a new server secret was stored.
   */
  lemma OneCAAfterRegenerationIff(store: Store, env: Env)
    requires OneCA(store) && (forall n | n in store :: store[n] != env.ca)
    ensures OneCA(Last(store, Regenerate(store, env).stores))
      <==> Survivors(store, env) == {} || Server in Survivors(store, env)
           || !env.caMade || !env.signed(Server) || !Applied(env.create(Server))
  {
    hide CreateAll, DeleteAll;
    DeletingKeepsOneCA(store, ALL, env);
    DeletingLeaves(store, ALL, env);
    AllSecrets();
    var deleted := DeleteAll(store, ALL, env);
    var end := Last(store, deleted);
    assert end.Keys == Survivors(store, env);
    CreatingMixesIff(end, env);
    var created := CreateAll(end, ALL, env);
    assert Last(store, deleted + created.stores) == Last(end, created.stores);
  }

  predicate Complete(store: Store) {
    Server in store && Client in store && Peer in store
  }

  /** No call of a regeneration fails, as far as it matters to the secrets that exist. */
  ghost predicate Smooth(store: Store, env: Env) {
    DeletesWork(store, env) && env.caMade && forall n: Secret :: env.signed(n) && env.create(n).Done?
  }

  lemma SmoothRegeneration(store: Store, env: Env)
    requires Smooth(store, env)
    ensures Last(store, Regenerate(store, env).stores) == map[Server := env.ca, Client := env.ca, Peer := env.ca]
  {
    hide CreateAll, DeleteAll;
    DeletingLeaves(store, ALL, env);
    AllSecrets();
    var deleted := DeleteAll(store, ALL, env);
    assert Last(store, deleted) == map[];
    CreateUnrolled(map[], env);
    var created := CreateAll(map[], ALL, env).stores;
    assert Last(store, deleted + created) == Last(map[], created);
  }

  /** An error-free pass over secrets of several CAs leaves one CA exactly if some secret is missing. */
  lemma MixRepairedIff(store: Store, later: Env)
    requires !OneCA(store) && Smooth(store, later)
    ensures OneCA(Maintained(Certs(true, store), true, later).etcd) <==> !Complete(store)
  {
    hide Regenerate;
    if !Complete(store) {
      SmoothRegeneration(store, later);
    }
  }

  function MaintainedAll(certs: Certs, passes: seq<(bool, Env)>): Certs
    decreases |passes|
  {
    if passes == [] then certs else MaintainedAll(Maintained(certs, passes[0].0, passes[0].1), passes[1..])
  }

  /** Three secrets stay as they are, under one CA or several, through any passes with any outcomes. */
  lemma {:induction false} CompleteIsPermanent(certs: Certs, passes: seq<(bool, Env)>)
    requires Complete(certs.etcd)
    ensures MaintainedAll(certs, passes).etcd == certs.etcd
    decreases |passes|
  {
    if passes != [] {
      CompleteIsPermanent(Maintained(certs, passes[0].0, passes[0].1), passes[1..]);
    }
  }

  /** What the creations leave behind when the server's takes effect over secrets that survived. */
  lemma CreationsComplete(store: Store, env: Env)
    requires store != map[] && Server !in store && env.signed(Server) && Applied(env.create(Server))
    ensures Complete(Last(store, CreateAll(store, ALL, env).stores))
      <==> Peer in store && (Client in store
             || (env.create(Server).Done? && env.signed(Client) && Applied(env.create(Client))))
  {
    hide CreateAll;
    var s1 := store[Server := env.ca];
    assert ALL == [Server] + ([Client] + [Peer]);
    CreateOneByOne(store, Server, [Client] + [Peer], env);
    CreateOneByOne(s1, Client, [Peer], env);
    CreateOne(store, Server, env);
    CreateOne(s1, Client, env);
    CreateOne(s1[Client := env.ca], Peer, env);
    assert Client in store || Peer in store by {
      var n :| n in store;
      match n {
        case Server =>
        case Client =>
        case Peer =>
      }
    }
  }

  /** The peer's secret survived, and the client's did too or was made anew: all three exist, and nothing is missing. */
  ghost predicate LooksComplete(store: Store, env: Env) {
    && Peer in Survivors(store, env)
    && (Client in Survivors(store, env)
        || (env.create(Server).Done? && env.signed(Client) && Applied(env.create(Client))))
  }

  /**
    A regeneration that has mixed two CAs, under any outcomes: if all three secrets
    look complete afterwards the mix stays through any further passes, and else the
    next error-free pass repairs it. If its creations all succeeded, that is decided
    by the peer's secret alone.
   */
  lemma RegenerationMixPermanentIff(store: Store, env: Env, passes: seq<(bool, Env)>, next: Env)
    requires OneCA(store) && (forall n | n in store :: store[n] != env.ca)
    requires var end := Last(store, Regenerate(store, env).stores); !OneCA(end) && Smooth(end, next)
    ensures var end := Last(store, Regenerate(store, env).stores);
      && (LooksComplete(store, env) ==> MaintainedAll(Certs(true, end), passes).etcd == end)
      && (OneCA(Maintained(Certs(true, end), true, next).etcd) <==> !LooksComplete(store, env))
      && ((forall n: Secret :: env.signed(n) && env.create(n).Done?) ==>
            (LooksComplete(store, env) <==> Peer in Survivors(store, env)))
  {
    hide CreateAll, DeleteAll, Maintained, MaintainedAll, Smooth;
    var end := Last(store, Regenerate(store, env).stores);
    OneCAAfterRegenerationIff(store, env);
    DeletingLeaves(store, ALL, env);
    AllSecrets();
    var deleted := DeleteAll(store, ALL, env);
    var left := Last(store, deleted);
    assert left.Keys == Survivors(store, env);
    var created := CreateAll(left, ALL, env).stores;
    assert end == Last(left, created);
    CreationsComplete(left, env);
    MixRepairedIff(end, next);
    if Complete(end) {
      CompleteIsPermanent(Certs(true, end), passes);
    }
  }

  /** With etcd or its TLS switched off, a pass leaves the etcd secrets alone. */
  lemma DisabledTouchesNothing(certs: Certs, env: Env)
    ensures Maintained(certs, false, env).etcd == certs.etcd
  {
  }

  /** A regeneration reports success exactly if no secret survived its deletion and all its calls are done. */
  lemma RegenerateOkIff(store: Store, env: Env)
    ensures Regenerate(store, env).ok
      <==> Survivors(store, env) == {} && env.caMade && forall n: Secret :: env.signed(n) && env.create(n).Done?
  {
    hide CreateAll, DeleteAll;
    DeletingLeaves(store, ALL, env);
    AllSecrets();
    var end := Last(store, DeleteAll(store, ALL, env));
    assert end.Keys == Survivors(store, env);
    CreateAllOkIff(end, env);
  }

  lemma CreateAllOkIff(store: Store, env: Env)
    ensures CreateAll(store, ALL, env).ok
      <==> store == map[] && forall n: Secret :: env.signed(n) && env.create(n).Done?
  {
    hide CreateAll;
    var s1 := store[Server := env.ca];
    assert ALL == [Server] + ([Client] + [Peer]);
    CreateOneByOne(store, Server, [Client] + [Peer], env);
    CreateOneByOne(s1, Client, [Peer], env);
    CreateOne(store, Server, env);
    CreateOne(s1, Client, env);
    CreateOne(s1[Client := env.ca], Peer, env);
    if Server !in store && Client !in store && Peer !in store {
      forall n: Secret
        ensures n !in store
      {
        match n {
          case Server =>
          case Client =>
          case Peer =>
        }
      }
      assert store == map[];
    }
    if env.signed(Server) && env.signed(Client) && env.signed(Peer)
       && env.create(Server).Done? && env.create(Client).Done? && env.create(Peer).Done? {
      forall n: Secret
        ensures env.signed(n) && env.create(n).Done?
      {
        match n {
          case Server =>
          case Client =>
          case Peer =>
        }
      }
    }
  }

  /** A pass reports success exactly if nothing is to be made, or what it makes is made without a failure. */
  lemma MaintainOkIff(certs: Certs, enabled: bool, env: Env)
    ensures Maintain(certs, enabled, env).ok <==>
      if !certs.cluster then env.certMade && env.createCert.Done?
      else enabled && !Complete(certs.etcd) ==>
        Survivors(certs.etcd, env) == {} && env.caMade && forall n: Secret :: env.signed(n) && env.create(n).Done?
  {
    hide Regenerate, Survivors;
    RegenerateOkIff(certs.etcd, env);
  }
}
