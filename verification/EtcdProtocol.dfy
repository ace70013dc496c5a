/**
  The membership protocol of pkg/manager/component/etcd.go as functions on
  values: what one call of `reconcile`, one tick of `run` and one pass of `sync`
  make of the operator's fields, of etcd's own membership, of the pods and of
  the persisted phase.

  Everything the operator cannot decide itself comes in as an `Env`: the order
  in which Go ranges over a map, the random name of a new member, and the
  outcome of every API call. Calls may fail without effect or fail after having
  taken effect.
 */
module EtcdProtocol {
  import opened Wrappers
  import opened EtcdMembers

  const DEFAULT_VERSION := "3.5.12"

  /** `Failed` also stands for the phase Unknown, which the operator treats alike. */
  datatype PodPhase = Running | Pending | Failed | Succeeded

  datatype Pod = Pod(version: string, phase: PodPhase)

  /** The pods of this cluster that are not being deleted: what the operator polls. */
  type Pods = map<Name, Pod>

  datatype Owner = NoOwner | ThisCluster | OtherOwner

  /** An entry of the pod list that Kubernetes returns. */
  datatype ListedPod = ListedPod(name: Name, pod: Pod, deleting: bool, owner: Owner)

  predicate IsPolled(p: ListedPod) {
    !p.deleting && p.owner.ThisCluster?
  }

  type SkippedPod = p: ListedPod | !IsPolled(p) witness ListedPod("", Pod("", Failed), true, NoOwner)

  datatype Phase = PhaseNone | Creating | PhaseRunning | PhaseFailed | Unexpected(text: string)

  /** `m.members` (None is Go's nil map), `m.status`, etcd, Kubernetes' pods and the persisted phase. */
  datatype State = State(
    members: Option<MemberSet>,
    phase: Phase,
    size: nat,
    etcd: map<Name, Id>,
    pods: Pods,
    saved: Phase)

  /** The parts of the cluster specification that the loop reads at every tick. */
  datatype Config = Config(size: int, version: string, keepFailedPods: bool, claims: bool)

  datatype Listing = Listed | ListFailed | BadPeerUrl

  datatype Err = NoErr | ApiErr | LostQuorum | Fatal | Panic

  datatype Env = Env(
    order: set<Name> -> seq<Name>,
    newName: Name,
    newId: Id,
    fetched: bool,
    polled: bool,
    skipped: seq<SkippedPod>,
    listing: Listing,
    memberAdd: Outcome,
    memberRemove: Outcome,
    createPod: Outcome,
    patchPod: Outcome,
    deletePod: Name -> Outcome,
    dropFailed: Name -> Outcome,
    claimDeleted: Name -> bool,
    status: Outcome)

  datatype Step = Step(state: State, err: Err)

  /** A range over a map visits every key. */
  ghost predicate ValidOrder(env: Env) {
    forall s: set<Name>, n: Name :: n in env.order(s) <==> n in s
  }

  /* ---------- pods ---------- */

  function InPhase(pods: Pods, phase: PodPhase): set<Name> {
    set n | n in pods && pods[n].phase == phase
  }

  function RunningPods(pods: Pods): set<Name> {
    InPhase(pods, Running)
  }

  /** The names of the polled pods of a list that are in a phase. */
  function PolledIn(listed: seq<ListedPod>, phase: PodPhase): set<Name> {
    set p | p in listed && IsPolled(p) && p.pod.phase == phase :: p.name
  }

  datatype PodStep = PodStep(pods: Pods, ok: bool)

  /** `removePod`: deleting a pod that is not there succeeds. */
  function DeletePod(pods: Pods, n: Name, o: Outcome): PodStep {
    PodStep(if Applied(o) then pods - {n} else pods, o.Done?)
  }

  /** The loop over unexpected pods: it stops at the first error. */
  function DeletePods(pods: Pods, order: seq<Name>, outcome: Name -> Outcome): PodStep {
    if order == [] then PodStep(pods, true)
    else
      var first := DeletePod(pods, order[0], outcome(order[0]));
      if first.ok then DeletePods(first.pods, order[1..], outcome) else first
  }

  /** The loop over failed pods: it logs errors and goes on. */
  function DropPods(pods: Pods, order: seq<Name>, outcome: Name -> Outcome): Pods {
    if order == [] then pods
    else DropPods(DeletePod(pods, order[0], outcome(order[0])).pods, order[1..], outcome)
  }

  /* ---------- membership ---------- */

  function CreatedVersion(cfg: Config): string {
    if cfg.version == "" then DEFAULT_VERSION else cfg.version
  }

  /** `createPod`: a new pod starts pending. */
  function CreatePod(st: State, n: Name, cfg: Config, o: Outcome): Step {
    Step(if Applied(o) then st.(pods := st.pods[n := Pod(CreatedVersion(cfg), Pending)]) else st,
         if o.Done? then NoErr else ApiErr)
  }

  function AddOneMember(st: State, cfg: Config, env: Env): (r: Step)
    requires st.members.Some?
    ensures r.state.members.Some?
  {
    var etcd' := if Applied(env.memberAdd) then st.etcd[env.newName := env.newId] else st.etcd;
    if !env.memberAdd.Done? then Step(st.(etcd := etcd'), ApiErr)
    else
      CreatePod(st.(etcd := etcd', members := Some(st.members.value[env.newName := env.newId])),
                env.newName, cfg, env.createPod)
  }

  /** etcd removes by ID; an ID it does not have is `ErrMemberNotFound` and changes nothing. */
  function WithoutId(etcd: map<Name, Id>, id: Id): map<Name, Id> {
    map n | n in etcd && etcd[n] != id :: etcd[n]
  }

  function RemoveMember(st: State, n: Name, cfg: Config, env: Env): (r: Step)
    requires st.members.Some? && n in st.members.value
    ensures r.state.members.Some?
  {
    var etcd' := if Applied(env.memberRemove) then WithoutId(st.etcd, st.members.value[n]) else st.etcd;
    if !env.memberRemove.Done? then Step(st.(etcd := etcd'), ApiErr)
    else
      var del := DeletePod(st.pods, n, env.deletePod(n));
      Step(st.(etcd := etcd', members := Some(st.members.value - {n}), pods := del.pods),
           if del.ok && (cfg.claims ==> env.claimDeleted(n)) then NoErr else ApiErr)
  }

  /** `PickOne` takes the first key that a range yields and panics on an empty set. */
  function RemovePicked(st: State, from: set<Name>, cfg: Config, env: Env): (r: Step)
    requires st.members.Some? && from <= st.members.value.Keys
    ensures r.state.members.Some?
  {
    var order := env.order(from);
    if order == [] || order[0] !in from then Step(st, Panic)
    else RemoveMember(st, order[0], cfg, env)
  }

  function Resize(st: State, cfg: Config, env: Env): (r: Step)
    requires st.members.Some?
    ensures r.state.members.Some?
  {
    var ms := st.members.value;
    if |ms| == cfg.size then Step(st, NoErr)
    else if |ms| < cfg.size then AddOneMember(st, cfg, env)
    else RemovePicked(st, ms.Keys, cfg, env)
  }

  function ReconcileMembers(st: State, running: set<Name>, cfg: Config, env: Env): (r: Step)
    requires st.members.Some?
    ensures r.state.members.Some?
  {
    var ms := st.members.value;
    var unknown := running - ms.Keys;
    var del := DeletePods(st.pods, env.order(unknown), env.deletePod);
    var st1 := st.(pods := del.pods);
    var live := running - unknown;
    if !del.ok then Step(st1, ApiErr)
    else if |live| == |ms| then Resize(st1, cfg, env)
    else if |live| < |ms| / 2 + 1 then Step(st1, LostQuorum)
    else RemovePicked(st1, ms.Keys - live, cfg, env)
  }

  /* ---------- upgrade ---------- */

  function OldPods(pods: Pods, running: set<Name>, version: string): set<Name> {
    set n | n in running && n in pods && pods[n].version != version
  }

  /** `pickOneOldMember`: the first listed pod of another version. */
  function FirstOld(order: seq<Name>, outdated: set<Name>): Option<Name> {
    if order == [] then None
    else if order[0] in outdated then Some(order[0])
    else FirstOld(order[1..], outdated)
  }

  function UpgradeOneMember(st: State, n: Name, cfg: Config, env: Env): (r: Step)
    ensures r.state.members == st.members
  {
    if n !in st.pods then Step(st, ApiErr)
    else
      Step(if Applied(env.patchPod) then st.(pods := st.pods[n := st.pods[n].(version := cfg.version)]) else st,
           if env.patchPod.Done? then NoErr else ApiErr)
  }

  /* ---------- one reconcile ---------- */

  function Reconcile(st: State, running: set<Name>, cfg: Config, env: Env): (r: Step)
    requires st.members.Some?
    ensures r.state.members.Some?
  {
    var ms := st.members.value;
    var step :=
      if running != ms.Keys || |ms| != cfg.size then ReconcileMembers(st, running, cfg, env)
      else
        var first := FirstOld(env.order(running), OldPods(st.pods, running, cfg.version));
        if |running| == cfg.size && first.Some? then UpgradeOneMember(st, first.value, cfg, env)
        else Step(st, NoErr);
    Step(step.state.(size := |step.state.members.value|), step.err)
  }

  /** `updateMembers`: the refresh replaces `m.members` by what etcd reports. */
  function UpdateMembers(st: State, env: Env): Step {
    match env.listing
    case Listed => Step(st.(members := Some(st.etcd)), NoErr)
    case ListFailed => Step(st, ApiErr)
    case BadPeerUrl => Step(st, Fatal)
  }

  function SaveStatus(st: State, o: Outcome): State {
    if Applied(o) then st.(saved := st.phase) else st
  }

  /** `cleanAllMembers`: drops members one by one, then records the failure. */
  function CleanAllMembers(st: State, order: seq<Name>, cfg: Config, env: Env): (r: Step)
    requires st.members.Some?
    ensures r.state.members.Some?
    decreases order
  {
    if order == [] then
      var st1 := st.(phase := PhaseFailed, size := 0);
      Step(SaveStatus(st1, env.status), if env.status.Done? then NoErr else ApiErr)
    else
      var n := order[0];
      var del := DeletePod(st.pods, n, env.deletePod(n));
      if !del.ok then Step(st.(pods := del.pods), ApiErr)
      else
        var st1 := st.(pods := del.pods, members := Some(st.members.value - {n}));
        if cfg.claims && !env.claimDeleted(n) then Step(st1, ApiErr)
        else CleanAllMembers(st1, order[1..], cfg, env)
  }

  /* ---------- one tick of the loop ---------- */

  /** `Crash` is a panic, which ends the process and not only the loop. */
  datatype Exit = Stay | AllDead | Rebuild | FatalExit | Crash

  /** `rerr` is the error variable of `run`. */
  datatype Tick = Tick(state: State, rerr: Err, exit: Exit)

  /** The state in which this tick calls `reconcile`, if it gets that far. */
  function BeforeReconcile(st: State, rerr: Err, cfg: Config, env: Env): Option<State> {
    if !env.fetched || !env.polled || InPhase(st.pods, Pending) != {} then None
    else
      var st1 := DropFailed(st, cfg, env);
      if RunningPods(st.pods) == {} then None
      else if rerr != NoErr || st.members.None? then
        var u := UpdateMembers(st1, env);
        if u.err == NoErr then Some(u.state) else None
      else Some(st1)
  }

  function DropFailed(st: State, cfg: Config, env: Env): State {
    if cfg.keepFailedPods then st
    else st.(pods := DropPods(st.pods, env.order(InPhase(st.pods, Failed)), env.dropFailed))
  }

  /** The end of a tick, given what `reconcile` returned. */
  function AfterReconcile(r: Step, cfg: Config, env: Env): Tick
    requires r.state.members.Some?
  {
    if r.err == Panic then Tick(r.state, Panic, Crash)
    else if r.err == LostQuorum then
      var c := CleanAllMembers(r.state, env.order(r.state.members.value.Keys), cfg, env);
      Tick(c.state, LostQuorum, if c.err == NoErr then Rebuild else Stay)
    else if r.err != NoErr then Tick(r.state, r.err, Stay)
    else
      var st := SaveStatus(r.state, env.status);
      if r.err == Fatal then Tick(st.(phase := PhaseFailed), r.err, FatalExit)
      else Tick(st, NoErr, Stay)
  }

  function OneTick(st: State, rerr: Err, cfg: Config, env: Env): Tick {
    if !env.fetched || !env.polled || InPhase(st.pods, Pending) != {} then Tick(st, rerr, Stay)
    else
      var st1 := DropFailed(st, cfg, env);
      if RunningPods(st.pods) == {} then
        Tick(SaveStatus(st1.(phase := PhaseFailed), env.status), rerr, AllDead)
      else
        var u := if rerr != NoErr || st.members.None? then UpdateMembers(st1, env) else Step(st1, NoErr);
        if u.err != NoErr then Tick(u.state, u.err, Stay)
        else AfterReconcile(Reconcile(u.state, RunningPods(st.pods), cfg, env), cfg, env)
  }

  /* ---------- runs ---------- */

  /** What the outside world brings to one tick: any change of pods, any specification, any outcomes. */
  datatype Input = Input(pods: Pods, cfg: Config, env: Env)

  /** `n` ticks of the loop; an exit freezes the run. */
  function RunTicks(st: State, inputs: seq<Input>, n: nat): Tick
    requires n <= |inputs|
  {
    if n == 0 then Tick(st, NoErr, Stay)
    else
      var t := RunTicks(st, inputs, n - 1);
      if t.exit != Stay then t
      else OneTick(t.state.(pods := inputs[n - 1].pods), t.rerr, inputs[n - 1].cfg, inputs[n - 1].env)
  }

  /* ---------- setup ---------- */

  datatype SetupEnv = SetupEnv(
    seed: Name,
    seedId: Id,
    tlsReady: bool,
    saveCreating: Outcome,
    createSeed: Outcome,
    saveFailed: Outcome,
    saveRunning: Outcome)

  /** `startSeedMember`: the seed's pod boots a one-member etcd; its ID is not known to the operator. */
  function StartSeedMember(st: State, cfg: Config, env: SetupEnv): Step {
    var st1 := if Applied(env.createSeed)
               then st.(pods := st.pods[env.seed := Pod(CreatedVersion(cfg), Pending)],
                        etcd := map[env.seed := env.seedId])
               else st;
    if env.createSeed.Done? then Step(st1.(members := Some(map[env.seed := UNKNOWN_ID]), size := 1), NoErr)
    else Step(st1, ApiErr)
  }

  function Create(st: State, cfg: Config, env: SetupEnv): Step {
    var st1 := SaveStatus(st.(phase := Creating), env.saveCreating);
    if !env.saveCreating.Done? then Step(st1, ApiErr) else StartSeedMember(st1, cfg, env)
  }

  function Setup(st: State, cfg: Config, env: SetupEnv): Step {
    match st.phase
    case Creating => Step(st, ApiErr)
    case Unexpected(_) => Step(st, ApiErr)
    case PhaseRunning => Step(st, if env.tlsReady then NoErr else ApiErr)
    case _ => if env.tlsReady then Create(st, cfg, env) else Step(st, ApiErr)
  }

  /** `sync` up to the first tick: `looping` tells whether `run` was entered. */
  datatype Started = Started(state: State, looping: bool)

  function SyncStart(st: State, cfg: Config, env: SetupEnv): Started {
    var s := Setup(st.(phase := st.saved), cfg, env);
    if s.err != NoErr then
      Started(if s.state.phase != PhaseFailed
              then SaveStatus(s.state.(phase := PhaseFailed), env.saveFailed)
              else s.state, false)
    else
      Started(SaveStatus(s.state.(phase := PhaseRunning), env.saveRunning), true)
  }
}
