# A verified model of the OneCloud operator's reconciliation logic

The OneCloud operator keeps a Kubernetes installation in step with a cluster
specification. This project models the parts of it that carry state from one
pass to the next, and proves what they keep and where they end up:

- the etcd membership operator: a loop that compares running pods, its own view
  of the members and etcd's membership, and changes at most one member per tick;
- last-applied reconciliation of Deployments, DaemonSets and Services, where a
  copy of the desired spec in an annotation decides whether to write;
- the merge of feature keys into the stored global settings;
- the matcher of system alerts against templates;
- regeneration of the etcd certificates from one CA;
- two printer/parser pairs: member peer URLs and SQL connection strings.

`dafny verify dfyconfig.toml` checks the whole project (Dafny 4.11).

## How the model is built

Code that updates fields in place is a class whose methods follow the source's
branches and loops (`EtcdManagement`, `WorkloadManagement`, `Services`,
`GlobalSettings`, `EtcdCerts`, `SqlUrls`). Each method is proved equal to a
function on values, and the theorems are about these functions, over every
input, every run and every failure. API calls have three outcomes: done, failed
without effect, failed after taking effect. The order in which Go ranges over a
map, random names, addresses given out by the API server and the changes of pods
between ticks are parameters, so the theorems hold for every choice of them.

| file | what it holds |
|---|---|
| `EtcdMembers.dfy` | member sets, the quorum test, why one change at a time is safe |
| `EtcdProtocol.dfy` | the etcd loop as functions on values |
| `EtcdManager.dfy` | the class `EtcdManager`, proved against these functions |
| `EtcdTicks.dfy` | when a tick waits, acts, reports an error or gives the cluster up |
| `EtcdSafety.dfy`, `EtcdQuorum.dfy` | one change per tick, view agreement, justified deletions, quorum |
| `EtcdConvergence.dfy`, `EtcdUpgrades.dfy` | the exact number of ticks to convergence, and to the target version |
| `EtcdRecovery.dfy` | the same after the last failure of any run |
| `EtcdBootstrap.dfy` | what comes of the run that `sync` starts: created, rebuilt or taken over |
| `EtcdDrift.dfy` | how long the view has etcd's names before its first refresh |
| `EtcdPhases.dfy` | the persisted phase machine around the loop |
| `SyncLocks.dfy`, `SyncFlag.dfy` | the goroutines, the two mutexes and the flag, in every interleaving |
| `Workloads.dfy`, `WorkloadManager.dfy` | Deployments and DaemonSets: values, and objects with shared annotation maps |
| `Services.dfy` | Services |
| `GlobalSettings.dfy`, `StringOrder.dfy` | the settings merge, and the order its key list is sorted by |
| `SystemAlerts.dfy`, `EtcdCerts.dfy` | alerts, certificates |
| `MemberNames.dfy`, `SqlUrls.dfy` | the two printer/parser pairs |

## What the code does not do

Each of these is proved, and where an expected property fails, so is the exact
condition under which it holds.

- The seed member's ID is unknown until the first refresh, and removing an
  unknown ID is taken for success. The view has etcd's names until a member with
  an unknown ID is removed (`NamesAgreeUntilUnknownRemoved`); a cluster that is
  created, grows and is scaled down by its seed reports no error, keeps the seed
  inside etcd without a pod, and with two members has lost its live majority
  (`ScaledDownSeedDrifts`). That lasts while ticks report no error (`DriftLasts`).
- Growing from one member to two loses the live majority until the new pod runs,
  and so does scaling two members down by one whose ID is unknown; no other step
  does (`QuorumKeptIff`, `AgreedViewLosesByGrowingOnly`).
- The exit of `run` for fatal errors is unreachable (`TickExit`), because every
  error has left the tick before.
- The flag `syncing` may be clear while a loop runs. It is right in every schedule
  in which no two goroutines have it set at once (`FlagExact`). From a given state
  the existing goroutines can get a loop to run with the flag clear iff one of them
  can still clear it after another one, that has yet to leave the loop, has set it,
  or a loop is due with the flag already clear (`UnflaggedPossible`,
  `UnflaggedImpossible`). A hand-over leads there, and so do two callers that both
  read the flag before either has set it (`HandOverCanLoseFlag`,
  `TwoCallersCanLoseFlag`). Mutual exclusion does not depend on the flag.
- A cluster whose name has a dot: all its members are read back under one name
  (`DottedMembersCollapse`).
- A read-only companion is written a second time because the first write recorded
  a spec that carried the main Deployment's annotation (`CompanionWrittenTwice`);
  a created DaemonSet is updated once more, which does change its pod template
  (`DaemonSetWrites`).
- A Service that is updated while its desired cluster IP differs from the stored
  one is rewritten in every later pass, and the services after it in the list are
  never reached (`BlockedForGood`, `LaterServicesStarve`). Leaving the product
  version removes only the first service of a component (`OnlyFirstRetired`).
- Changing the product version never switches a feature off
  (`FeaturesAccumulate`).
- Failed deletions of secrets are only logged, so a surviving secret can mix two
  CAs (`OneCAAfterRegenerationIff`). The mix stays for good iff all three secrets
  exist afterwards, which is the case iff the peer's survived and the client's
  survived or was made anew; else the next error-free pass repairs it
  (`RegenerationMixPermanentIff`).
- SQL URLs with an IPv6 host are never read back (`Ipv6NeverRoundTrips`). The
  parser of a printed Dameng URL panics iff user, password, host and database have
  four pieces between separators in all and the last one, which ends the database
  name, has a single `?`, at its end and not at its start (`DamengPanicsIff`); that
  of a printed MySQL URL never panics (`MysqlNeverPanics`).

The comment above `reconcileMembers` says that its last step adds a missing
member; the code, which the model follows, removes a dead one.

## Model

| member | source | states |
|---|---|---|
| `EtcdMembers.Diff` | pkg/util/etcdutil/member.go:77-86 | the result is exactly the members whose names are not in the other set, IDs kept |
| `EtcdMembers.IsEqual` | pkg/util/etcdutil/member.go:89-99 | true iff the names are the same, whatever the IDs |
| `EtcdMembers.QuorumTestIsMajority` | pkg/manager/component/etcd.go:898-900 | the test `L.Size() < members.Size()/2+1` is exactly "no majority" |
| `EtcdMembers.MajoritiesIntersect` | pkg/manager/component/etcd.go:879-1001 | after a change of at most one member, every old majority meets every new one |
| `EtcdManagement.EtcdManager.RemovePod` | pkg/manager/component/etcd.go:501-511 | deletes one pod; a pod that is not there counts as deleted |
| `EtcdManagement.EtcdManager.RemovePods` | pkg/manager/component/etcd.go:883-891 | the loop over unexpected pods stops at the first error |
| `EtcdManagement.EtcdManager.DropFailedPods` | pkg/manager/component/etcd.go:783-791 | the loop over failed pods goes on after errors |
| `EtcdManagement.EtcdManager.PollPods` | pkg/manager/component/etcd.go:513-546 | passes over pods that are being deleted or have no or another owner, and sorts the others into running, pending and failed |
| `EtcdManagement.EtcdManager.CreatePod` | pkg/manager/component/etcd.go:364-385 | a created pod is pending and has the target version, or the default one if none is set |
| `EtcdManagement.EtcdManager.AddOneMember` | pkg/manager/component/etcd.go:919-946 | etcd first, then the view with the ID etcd gave, then the pod; an error of the first call leaves the view alone; etcd changes by at most one member |
| `EtcdManagement.EtcdManager.RemoveMember` | pkg/manager/component/etcd.go:973-1001 | removes by recorded ID, not found counts as removed, then view, pod and volume claim; etcd changes by at most one member |
| `EtcdManagement.EtcdManager.RemovePicked` | pkg/util/etcdutil/member.go:114-119 | the first member a range yields is removed; an empty set panics, which ends the run |
| `EtcdManagement.EtcdManager.Resize` | pkg/manager/component/etcd.go:907-917 | one member more, one fewer, or nothing |
| `EtcdManagement.EtcdManager.ReconcileMembers` | pkg/manager/component/etcd.go:879-905 | unexpected pods first; then resize, lost quorum, or one dead member removed |
| `EtcdManagement.EtcdManager.PickOneOldMember` | pkg/manager/component/etcd.go:1085-1093 | the first listed pod of another version; none iff all pods have the version |
| `EtcdManagement.EtcdManager.UpgradeOneMember` | pkg/manager/component/etcd.go:1056-1079 | patches the version of one pod |
| `EtcdManagement.EtcdManager.Reconcile` | pkg/manager/component/etcd.go:844-868 | members before versions; the reported size is the size of the view also after errors; a lost quorum iff no majority runs; every deleted pod was unknown, dead or surplus; with a positive target it neither panics nor empties the view |
| `EtcdManagement.EtcdManager.UpdateMembers` | pkg/manager/component/etcd.go:1031-1054 | the view becomes exactly what etcd reports, or stays on any error |
| `EtcdManagement.EtcdManager.UpdateEtcdStatus` | pkg/manager/component/etcd.go:573-586 | persists the phase |
| `EtcdManagement.EtcdManager.CleanAllMembers` | pkg/manager/component/etcd.go:1003-1021 | drops members one by one until an error, then records Failed |
| `EtcdManagement.EtcdManager.Tick` | pkg/manager/component/etcd.go:766-835 | one pass of the select: nothing at all while pods are pending, refresh after an error, act; etcd changes by at most one member and a settled view stays settled |
| `EtcdManagement.EtcdManager.FinishTick` | pkg/manager/component/etcd.go:810-835 | a panic ends the process, lost quorum cleans up and hands over; a bare break stays in the loop |
| `EtcdManagement.EtcdManager.Run` | pkg/manager/component/etcd.go:761-839 | the error variable lives for one call of run and carries over ticks; every exit leaves the phase Failed |
| `EtcdManagement.EtcdManager.Create` | pkg/manager/component/etcd.go:314-351 | records Creating, then starts a seed member whose ID is unknown |
| `EtcdManagement.EtcdManager.Setup` | pkg/manager/component/etcd.go:282-312 | creates from none or Failed, takes over Running, refuses other phases |
| `EtcdManagement.EtcdManager.Sync` | pkg/manager/component/etcd.go:199-219 | enters the loop iff the persisted phase, TLS and the two writes allow it, with phase Running, and else leaves Failed |
| `EtcdSafety.DeletePodsEffect` | pkg/manager/component/etcd.go:883-891 | only listed pods go, and all of them if no error is reported |
| `EtcdSafety.DropFailedEffect` | pkg/manager/component/etcd.go:783-791 | cleaning failed pods touches no pod in another phase |
| `EtcdSafety.ReconcileChangesOne` | pkg/manager/component/etcd.go:844-1001 | one reconcile changes etcd by at most one member, and if it reports success an agreeing view still agrees |
| `EtcdSafety.CleanKeepsEtcd` | pkg/manager/component/etcd.go:1003-1021 | cleaning up leaves etcd's own list alone and, if it succeeds, Failed is persisted |
| `EtcdSafety.ActsOnAgreedView` | pkg/manager/component/etcd.go:803-809 | whenever the view may be stale the refresh comes before the action |
| `EtcdSafety.TickIdles` | pkg/manager/component/etcd.go:766-809 | a tick that does not act changes neither view nor etcd and forgets no error |
| `EtcdSafety.TickSafe` | pkg/manager/component/etcd.go:765-839 | a tick changes etcd by at most one member and keeps a settled view settled, whatever fails |
| `EtcdSafety.RunKeepsEtcdValid` | pkg/manager/component/etcd.go:748-839 | over a run, IDs stay known and distinct |
| `EtcdSafety.QuorumsOverlapAcrossTicks` | pkg/manager/component/etcd.go:879-1001 | over a whole run with any failures, majorities before and after every tick intersect |
| `EtcdSafety.ViewStaysSettled` | pkg/manager/component/etcd.go:803-824 | a settled view stays settled to the end of the run |
| `EtcdSafety.ViewAgreement` | pkg/manager/component/etcd.go:803-824 | from the first settled tick on, every reconcile of the run starts from exactly etcd's membership, names and IDs |
| `EtcdSafety.DeletionsAreJustified` | pkg/manager/component/etcd.go:883-916 | a deleted pod was unknown, or its member was dead, or all members ran and there were too many |
| `EtcdSafety.PanicsIff` | pkg/util/etcdutil/member.go:114-119 | reconcile picks from an empty set iff the view is empty, the target negative and the unexpected pods went |
| `EtcdSafety.MembershipNeverEmptied` | pkg/manager/component/etcd.go:844-917 | with a positive target, reconcile never panics, never empties the view and reports its size |
| `EtcdTicks.TickWaits` | pkg/manager/component/etcd.go:766-782 | while a pod is pending, or cluster or pods cannot be read, a tick does nothing at all |
| `EtcdTicks.PendingFreezesRun` | pkg/manager/component/etcd.go:776-782 | over a run, membership and view are frozen as long as one pod stays pending, whatever else happens |
| `EtcdTicks.AddedMemberStays` | pkg/manager/component/etcd.go:919-946 | a member that a tick adds stays in etcd, in the view and among the pods until its pod has left pending |
| `EtcdTicks.ActsIff` | pkg/manager/component/etcd.go:766-810 | a tick reconciles iff everything could be read, nothing is pending, something runs and the view is usable or could be refreshed; and on which view |
| `EtcdTicks.AllDeadIff` | pkg/manager/component/etcd.go:792-802 | the loop ends for dead pods iff these could be read and none runs or is pending |
| `EtcdTicks.FailedRefresh` | pkg/manager/component/etcd.go:803-808 | a refresh that fails leaves view and etcd alone; a malformed URL is told apart |
| `EtcdTicks.DropFailedIff` | pkg/manager/component/etcd.go:783-791 | a pod is dropped iff it has failed, failed pods are not kept and the deletion takes effect |
| `EtcdTicks.TickPersists` | pkg/manager/component/etcd.go:825-828 | a tick that acts without error persists the phase |
| `EtcdTicks.DeletesReport` | pkg/manager/component/etcd.go:886-890 | deleting unexpected pods succeeds iff every deletion does |
| `EtcdTicks.LostQuorumIff` | pkg/manager/component/etcd.go:892-900 | a lost quorum is reported iff there are members, the running pods are no majority of them and the unexpected pods could be deleted |
| `EtcdTicks.ReconcileReports` | pkg/manager/component/etcd.go:844-1001 | reconcile reports no error iff every call that the state asks for is done |
| `EtcdTicks.UpgradeReports` | pkg/manager/component/etcd.go:1056-1079 | an upgrade succeeds iff the pod is there and its patch is done, and touches no other pod |
| `EtcdTicks.CleanUpReports` | pkg/manager/component/etcd.go:1003-1021 | the clean-up completes iff all its calls are done |
| `EtcdTicks.LostQuorumTick` | pkg/manager/component/etcd.go:810-820 | a tick that acts without a live majority changes no member of etcd, and hands over iff every call of the clean-up is done |
| `EtcdQuorum.AddKeepsQuorumIff` | pkg/manager/component/etcd.go:919-946 | on a view with etcd's names, adding to a fully running cluster loses the majority iff it has one member and the call takes effect |
| `EtcdQuorum.RemoveKeepsQuorumIff` | pkg/manager/component/etcd.go:973-1001 | removing a dead member, or one of two or more running ones, loses the majority iff there are two, the ID is unknown, the call is done and the pod goes |
| `EtcdQuorum.ResizeKeepsQuorumIff` | pkg/manager/component/etcd.go:907-917 | resizing a fully running cluster loses the majority iff it grows from one member or loses one of two by an unknown ID |
| `EtcdQuorum.QuorumKeptIff` | pkg/manager/component/etcd.go:844-917 | from a live majority and a view with etcd's names, reconcile never reports lost quorum, and leaves no live majority iff the unexpected pods go and it grows from one member or scales two down by a picked member whose ID is unknown |
| `EtcdQuorum.AgreedViewLosesByGrowingOnly` | pkg/manager/component/etcd.go:907-917 | with all IDs known, growing from one member is the only case |
| `EtcdConvergence.FirstOldFinds` | pkg/manager/component/etcd.go:1085-1093 | an old pod is found iff there is one |
| `EtcdConvergence.CalmReconcileMembers` | pkg/manager/component/etcd.go:879-917 | an error-free step brings dead members plus missing or surplus ones down by exactly one |
| `EtcdConvergence.CalmUpgrade` | pkg/manager/component/etcd.go:855-867 | a converged cluster upgrades exactly one old pod and stays converged |
| `EtcdConvergence.StaleViewActsRefreshed` | pkg/manager/component/etcd.go:803-810 | a tick without a view, or after an error, is the tick that etcd's own view would make |
| `EtcdConvergence.CalmTick` | pkg/manager/component/etcd.go:765-839 | the same for a whole tick, with or without a view, which reports no error and stays in the loop |
| `EtcdConvergence.ConvergesExactly` | pkg/manager/component/etcd.go:844-917 | from an agreeing view or none, after k error-free ticks the cluster is converged iff k has reached dead + abs(live - size), or one tick if only unexpected pods or the missing view are in the way |
| `EtcdConvergence.UpgradesOnePerTick` | pkg/manager/component/etcd.go:1056-1093 | from then on the number of old pods falls by one per tick to zero |
| `EtcdUpgrades.TickEvolves` | pkg/manager/component/etcd.go:765-839 | no tick, whatever fails in it, gives a pod any version but its old one, the target or that of new pods |
| `EtcdUpgrades.NewPodVersion` | pkg/manager/component/etcd.go:364-385 | a new member's pod has the target version, or the default one if none is set |
| `EtcdUpgrades.OldPodsNeverGrow` | pkg/manager/component/etcd.go:919-946 | with a target version set, no tick adds an old pod |
| `EtcdUpgrades.UpgradedByKnownTick` | pkg/manager/component/etcd.go:844-868 | an error-free run is converged with no old pod left after the ticks needed to converge plus one per pod that was old at the start |
| `EtcdRecovery.RecoverableIff` | pkg/manager/component/etcd.go:803-824 | after any failures in a run that began with a settled view, only the loop being in and a live majority are needed to recover |
| `EtcdRecovery.ResumedRun` | pkg/manager/component/etcd.go:803-810 | from a tick after which nothing fails, the run goes on as one that starts anew from that state, without a view if an error is left |
| `EtcdRecovery.ConvergesAfterFailures` | pkg/manager/component/etcd.go:748-839 | after any failures up to tick j, the cluster is converged at j + k iff k has reached the ticks needed from the state at j, and then loses its old pods one per tick |
| `EtcdBootstrap.GrowsOnePerTick` | pkg/manager/component/etcd.go:907-946 | while names agree and all members run, etcd gains one member per error-free tick up to the target and loses none, also with the seed's ID unknown |
| `EtcdBootstrap.BootstrapReachesSize` | pkg/manager/component/etcd.go:199-351 | whenever sync creates a cluster, etcd has min(1 + k, size) members after k error-free ticks, and from the first one on exactly these members run |
| `EtcdBootstrap.RebuildReachesSize` | pkg/manager/component/etcd.go:811-820 | the same for the cluster that replaces one that lost quorum |
| `EtcdBootstrap.SyncedClusterReachesSize` | pkg/manager/component/etcd.go:128-154 | with the size that Sync writes, a created cluster ends with one member, or with at least three iff there are three masters |
| `EtcdBootstrap.FullExactly` | pkg/manager/component/etcd.go:907-946 | a growing cluster is complete, with exactly its members running, after exactly the missing members' ticks |
| `EtcdBootstrap.FullUpgradesOnePerTick` | pkg/manager/component/etcd.go:1056-1093 | from then on it loses one old pod per tick, although no ID was ever refreshed |
| `EtcdBootstrap.FullAndUpgradedByKnownTick` | pkg/manager/component/etcd.go:844-868 | it has no old pod left after one more tick per pod that was old at the start |
| `EtcdBootstrap.TakeoverConverges` | pkg/manager/component/etcd.go:199-219 | an operator that takes a running cluster over without a view, some members dead, converges and upgrades in the same exact number of ticks |
| `EtcdDrift.RemovalKeepsNamesIff` | pkg/manager/component/etcd.go:980-989 | with IDs that are unknown or etcd's, a reported removal keeps the names in agreement iff the recorded ID is known |
| `EtcdDrift.AdditionKeepsNames` | pkg/manager/component/etcd.go:932-939 | a reported addition always does |
| `EtcdDrift.ReconcileKeepsNamesIff` | pkg/manager/component/etcd.go:844-1001 | a reconcile without error keeps the names in agreement iff no member with an unknown ID left the view |
| `EtcdDrift.NamesAgreeUntilUnknownRemoved` | pkg/manager/component/etcd.go:199-351 | over any run that sync starts, every reconcile starts from etcd's names until a member with an unknown ID is removed, and a tick that does so without error ends with other names |
| `EtcdDrift.SeedStaysUnknown` | pkg/manager/component/etcd.go:336-351 | a bootstrap without errors never learns the seed's ID |
| `EtcdDrift.DriftLasts` | pkg/manager/component/etcd.go:803-809 | a member that is in etcd and not in the view stays so while ticks report no error |
| `EtcdDrift.ScaledDownSeedDrifts` | pkg/manager/component/etcd.go:948-1001 | scaling such a cluster down by its seed reports success, leaves the seed in etcd without a pod, and keeps a live majority iff etcd has more than two members |
| `EtcdPhases.FixEtcdSize` | pkg/manager/component/etcd.go:128-154 | the size Sync writes is at least one, and at least three iff there are three masters, when it is never lowered |
| `EtcdPhases.SyncEntersLoopIff` | pkg/manager/component/etcd.go:199-219 | exactly when one sync enters the loop, with any failures |
| `EtcdPhases.LoopStartsFrom` | pkg/manager/component/etcd.go:282-351 | a running cluster is kept, otherwise the loop starts on one member with a pending pod, no other pod touched; which phase is persisted |
| `EtcdPhases.TwoSyncsReachRunning` | pkg/manager/component/etcd.go:199-330 | from any persisted phase at most two error-free syncs reach Running with the loop started, and one suffices iff the phase is none, Failed or Running |
| `EtcdPhases.FailedSyncLeavesFailed` | pkg/manager/component/etcd.go:206-217 | a failing sync leaves Failed in memory, and persisted unless that write was lost, and does not touch the view |
| `EtcdPhases.CleanAllDropsAll` | pkg/manager/component/etcd.go:1003-1021 | a completed clean-up has dropped every member and its pod |
| `EtcdPhases.TickExit` | pkg/manager/component/etcd.go:792-838 | every way out of the loop leaves Failed; the fatal exit is unreachable, and a panic needs a negative target |
| `EtcdPhases.TickCrashesIff` | pkg/util/etcdutil/member.go:114-119 | a tick ends the process iff it acts on an empty view with a negative target and no deletion of an unexpected pod fails |
| `EtcdPhases.RunExitsFailed` | pkg/manager/component/etcd.go:748-839 | every exit of run, after any number of ticks, leaves Failed in memory; without a negative target nothing panics |
| `EtcdPhases.RebuildRestarts` | pkg/manager/component/etcd.go:811-820 | after a lost quorum the handed-over sync starts a new one-member cluster |
| `SyncLocks.ReachableInv` | pkg/manager/component/etcd.go:110-126 | in every interleaving each mutex is held by exactly the goroutine between its lock and unlock, and a set flag has a setter |
| `SyncLocks.AtMostOneLoop` | pkg/manager/component/etcd.go:199-219 | at most one goroutine is in setup or run |
| `SyncLocks.NoHoldAndWait` | pkg/manager/component/etcd.go:110-126 | no goroutine that holds a mutex waits for one |
| `SyncLocks.NoDeadlock` | pkg/manager/component/etcd.go:193-219 | while some goroutine has not ended, some goroutine can take a step |
| `SyncLocks.FlagHasSetter` | pkg/manager/component/etcd.go:116-126 | the flag is set only while a sync goroutine has still to clear it |
| `SyncLocks.FlagCannotStick` | pkg/manager/component/etcd.go:199-203 | once all goroutines have ended the flag is clear and both mutexes are free |
| `SyncLocks.HandOverMayClearFlag` | pkg/manager/component/etcd.go:818-819 | at every hand-over some interleaving lets the old goroutine finish and the new loop run with the flag clear |
| `SyncFlag.FlagExact` | pkg/manager/component/etcd.go:116-126 | if no two goroutines ever have the flag set at once, it is set exactly while one has it set |
| `SyncFlag.FlagExactAlone` | pkg/manager/component/etcd.go:193-204 | in particular if there is never more than one unfinished sync goroutine, and then no loop runs with the flag clear |
| `SyncFlag.CallerStartsIff` | pkg/manager/component/etcd.go:193-195 | a caller that reads the flag set starts nothing in any continuation; one that reads it clear can start a sync |
| `SyncFlag.SyncsAreCaused` | pkg/manager/component/etcd.go:193-219 | in every schedule, goroutines ever started plus callers about to start one are as many as clear reads plus hand-overs; with one such event there is at most one |
| `SyncFlag.UnflaggedPossible` | pkg/manager/component/etcd.go:199-204 | from a state in which some goroutine can clear the flag after another one in front of or inside the loop has set it, the existing goroutines can get a loop to run with the flag clear |
| `SyncFlag.UnflaggedImpossible` | pkg/manager/component/etcd.go:199-204 | from any other state they cannot, in any interleaving |
| `SyncFlag.HandOverCanLoseFlag` | pkg/manager/component/etcd.go:818-819 | every hand-over leads to such a state |
| `SyncFlag.TwoCallersCanLoseFlag` | pkg/manager/component/etcd.go:193-195 | so do two callers that both saw the flag clear, without any hand-over |
| `SyncFlag.EveryStateCanLoseFlag` | pkg/manager/component/etcd.go:193-219 | with new callers, every reachable state has a continuation in which a loop runs with the flag clear |
| `MemberNames.GeneratedName` | pkg/util/k8sutil/k8sutil.go:53-59 | a generated name has at most 63 characters (label limit, section 2.3.4 of RFC 1035), all of them if the prefix is cut, and its cluster part is the prefix cut to 52 |
| `MemberNames.PeerUrlReadsBack` | pkg/util/etcdutil/member.go:147-159 | a peer URL is read back up to the first dot of the name |
| `MemberNames.PeerUrlRoundTripIff` | pkg/util/etcdutil/member.go:26-64 | a name has a peer URL iff it has a dash, and is recovered from it iff it is one DNS label and the namespace is made of host characters |
| `MemberNames.PeerUrlParts` | pkg/util/etcdutil/member.go:26-64 | the URL names pod, cluster, namespace and peer port in this order, and is https iff the member is secure |
| `MemberNames.DistinctPeerUrls` | pkg/util/etcdutil/member.go:62-64 | distinct members have distinct peer URLs |
| `MemberNames.GeneratedMemberRoundTripIff` | pkg/util/k8sutil/k8sutil.go:53-59 | a generated member is recovered iff the used part of the prefix is made of label characters and the namespace of host characters |
| `MemberNames.DottedMembersCollapse` | pkg/util/etcdutil/member.go:145-167 | all members of a cluster with a dotted name are read back under one name |
| `MemberNames.MembersFromUrls` | pkg/manager/component/etcd.go:1036-1052 | fails iff some URL is malformed; URLs printed for distinct names give back exactly these names and IDs |
| `Workloads.StampIsCoherent` | pkg/manager/component/utils.go:107-126 | what is stamped has a record that describes it, and the record decodes to the spec before stamping |
| `Workloads.SyncKeepsSound` | pkg/manager/component/component.go:507-588 | one sync with any outcomes keeps every selector inside its template labels and every record right |
| `Workloads.QuietMeansUpToDate` | pkg/manager/component/utils.go:210-239 | if a pass finds nothing to do, the stored pods, labels, strategy and scale are the desired ones, and the pods' annotations but for the record |
| `Workloads.SelectorMatchesIff` | pkg/manager/component/utils.go:245-256 | a selector matches iff it is absent or its pairs are among those of the labels |
| `Workloads.GoneIff` | pkg/manager/component/component.go:529-532 | an object that must not exist is gone iff it was not there or its deletion takes effect, and is gone after a reported success |
| `Workloads.WantedIsThere` | pkg/manager/component/component.go:507-542 | one that must exist is there after a sync that reports no failure |
| `Workloads.SelectorImmutable` | pkg/manager/component/component.go:562-588 | a stored selector changes only if a deletion took effect |
| `Workloads.SyncMetadata` | pkg/manager/component/component.go:562-588 | a new object carries the desired labels and annotations, an updated one keeps its own, records aside |
| `Workloads.SuccessIff` | pkg/manager/component/component.go:507-588 | success is reported iff every call that the store asks for is done, the hook succeeds and a Deployment was not missing |
| `Workloads.RequeueIff` | pkg/manager/component/component.go:509-523 | a requeue is reported iff a missing Deployment is created and its hook succeeds |
| `Workloads.DeploymentsStaySound` | pkg/manager/component/component.go:459-588 | the same over passes of any components with changing specs and any failures, companions included |
| `Workloads.DaemonSetsStaySound` | pkg/manager/component/component.go:326-397 | the same for DaemonSets |
| `Workloads.CompanionWellFormed` | pkg/manager/component/component.go:818-833 | a clone's selector picks its own pods and its name is another one, whatever it is cloned from |
| `Workloads.DeploymentSettlesIff` | pkg/manager/component/component.go:562-588 | from any store, the pass after an error-free pass is quiet iff a created Deployment's selector picks its own pods |
| `Workloads.MainWrittenOnce` | pkg/manager/component/component.go:507-548 | with a fixed desired spec the main Deployment is written in at most one pass, whatever its companion does |
| `Workloads.ContaminatedIff` | pkg/manager/component/utils.go:107-126 | the first clone carries the main Deployment's record iff that pass created it, or updated it and the pod-annotation map existed |
| `Workloads.CompanionWrittenTwice` | pkg/manager/component/component.go:545-558 | the companion is written in at most two passes, in the second iff the first cloned a contaminated spec |
| `Workloads.SecondWriteKeepsTemplate` | pkg/manager/component/component.go:575-586 | that second write leaves the stored pod template unchanged |
| `Workloads.SuccessMeansSettled` | pkg/manager/component/component.go:507-588 | a sync that reports success, whatever its outcomes, leaves a Deployment that needs no write, and a DaemonSet that needs one iff it was created |
| `Workloads.PassOkIff` | pkg/manager/component/component.go:544-560 | with no call failing, every pass but the first reports success, and the first one iff it creates nothing |
| `Workloads.DaemonSetNext` | pkg/manager/component/component.go:351-397 | the pass after an error-free pass updates iff that pass created the DaemonSet, and else is quiet |
| `Workloads.DaemonSetWrites` | pkg/manager/component/component.go:351-397 | a DaemonSet is written in at most two passes; the second one adds the record to its pod template |
| `Workloads.GoneComponent` | pkg/manager/component/component.go:544-558 | after an error-free pass a component that must not exist has neither Deployment, and one without read-only replicas no companion |
| `Workloads.StoredMain` | pkg/manager/component/component.go:507-548 | a wanted main Deployment is stored as desired from the first error-free pass on |
| `Workloads.StoredCompanion` | pkg/manager/component/component.go:818-833 | a wanted companion is stored with its own scale and labels, no init containers, and the slave flag on the first of the main one's containers |
| `Workloads.StoredCompanionLabels` | pkg/manager/component/component.go:828-831 | a created companion carries its own object labels |
| `WorkloadManagement.WorkloadObject.SetLastApplied` | pkg/manager/component/utils.go:107-146 | missing annotation maps are made, existing ones are written in place; the result is the stamped object |
| `WorkloadManagement.WorkloadObject.GenReadonly` | pkg/manager/component/component.go:818-833 | a new object without shared maps: other name, replicas and labels, no init containers, the slave flag on the first container |
| `WorkloadManagement.SelectorMatchesLabels` | pkg/manager/component/utils.go:245-256 | true iff the selector is absent or all its pairs are among the labels |
| `WorkloadManagement.ComponentManager.UpdatedCopy` | pkg/manager/component/component.go:575-583 | the updated object, and the record that its shared annotation map carries into the desired object |
| `WorkloadManagement.ComponentManager.RecreateDeployment` | pkg/manager/component/component.go:565-574 | delete, then stamp and create; a failed deletion leaves the desired object untouched |
| `WorkloadManagement.ComponentManager.UpdateDeployment` | pkg/manager/component/component.go:562-588 | recreate, update or nothing, the error it returns, and what is left in the desired object |
| `WorkloadManagement.ComponentManager.SyncOne` | pkg/manager/component/component.go:507-542 | create, remove or update, the result with the post-sync hook (a created Deployment is always requeued), and what is left in the desired object |
| `WorkloadManagement.ComponentManager.SyncDeployment` | pkg/manager/component/component.go:544-560 | the companion is cloned from the desired object as the main sync left it, and synced whatever became of the main one; an error iff one of the two reports one |
| `WorkloadManagement.ComponentManager.SyncDaemonSet` | pkg/manager/component/component.go:326-397 | created and recreated without a record, updated with one; the error it returns |
| `Services.FirstUnsettled` | pkg/manager/component/component.go:140-164 | all services before the returned position are recorded equal, the one at it is not |
| `Services.ServiceClient.SyncService` | pkg/manager/component/component.go:124-179 | one call for the first service that is missing or differs; error iff its record does not decode or the call failed |
| `Services.PassTouchesFirst` | pkg/manager/component/component.go:140-178 | a pass changes no other service |
| `Services.HandledSettlesIff` | pkg/manager/component/component.go:144-176 | a successful call settles the service iff it is missing, or readable with the desired address; else it stays blocked |
| `Services.QuietAfterUpdateIff` | pkg/manager/component/component.go:166-176 | after an update the next pass is quiet iff the desired cluster IP is the stored one |
| `Services.SettlesOnePerPass` | pkg/manager/component/component.go:140-178 | with nothing blocked, each pass settles exactly one service until all are |
| `Services.BlockedForGood` | pkg/manager/component/component.go:166-176 | a blocked service is blocked after any number of passes |
| `Services.ConvergesIff` | pkg/manager/component/component.go:124-179 | all services are settled after n passes iff none was blocked and n has reached the number of unsettled ones |
| `Services.LaterServicesStarve` | pkg/manager/component/component.go:140-178 | if the first unsettled service is blocked, no pass ever touches another one |
| `Services.OnlyFirstRetired` | pkg/manager/component/component.go:144-158 | outside the product version only the first service of the list is ever removed |
| `Services.HandledIsDesired` | pkg/manager/component/component.go:144-176 | after a call that took effect the stored service is the desired one at the address it had, or at the desired or assigned one if new |
| `Services.HandledNothing` | pkg/manager/component/component.go:162-165 | a call without effect, or a record that does not decode, changes no service |
| `Services.ServicesStaySound` | pkg/manager/component/component.go:124-179 | over any passes and outcomes, every decodable record describes its stored service up to the address |
| `Services.SettledMeansUpToDate` | pkg/manager/component/utils.go:169-180 | so a service found equal is stored as desired, up to the address |
| `Services.ConvergedIsDesired` | pkg/manager/component/component.go:124-179 | once converged, all services are stored as desired |
| `GlobalSettings.DefaultsCover` | pkg/service-init/component/yunoinconf.go:250-336 | a product version's new features are among its defaults, and the enterprise edition only adds to the defaults |
| `GlobalSettings.FullStackCovers` | pkg/service-init/component/yunoinconf.go:250-336 | the full stack has every feature of the other product versions but AI, in either edition |
| `GlobalSettings.EnterpriseAdds` | pkg/service-init/component/yunoinconf.go:320-335 | what the enterprise edition adds to each product version |
| `GlobalSettings.GlobalSettingsValue.constructor` | pkg/service-init/component/yunoinconf.go:142-154 | every default feature is on |
| `GlobalSettings.GlobalSettingsValue.SwitchOffNew` | pkg/service-init/component/yunoinconf.go:188-192 | exactly the default features that the stored value lacked are off |
| `GlobalSettings.GlobalSettingsValue.CollectKeys` | pkg/service-init/component/yunoinconf.go:211-218 | the key list is ascending and holds exactly the keys that are on |
| `GlobalSettings.GlobalSettingsValue.CalculateSetupKeys` | pkg/service-init/component/yunoinconf.go:174-219 | the loops compute the merge given by one rule per key, with the stored dictionary |
| `GlobalSettings.OverwritesMerge` | pkg/service-init/component/yunoinconf.go:176-210 | the overwrites in program order amount to the rule "first that applies": user choice, new feature, stored key, closed default, default |
| `GlobalSettings.ParameterStore.SystemInit` | pkg/service-init/component/yunoinconf.go:338-366 | creates, updates iff the set-up differs, or leaves the stored value |
| `GlobalSettings.LegacyUpgrade` | pkg/service-init/component/yunoinconf.go:186-205 | a value without user keys gets its old keys plus the product version's new features, nothing else |
| `GlobalSettings.InitWritesOwnForm` | pkg/service-init/component/yunoinconf.go:338-366 | whatever was stored, a written value has user keys and sets up exactly those that are on |
| `GlobalSettings.ChoicesExtended` | pkg/service-init/component/yunoinconf.go:174-219 | with user keys recorded, a merge adds only defaults never decided before, switched on |
| `GlobalSettings.SecondRunIsQuiet` | pkg/service-init/component/yunoinconf.go:156-172 | a second run with the same inputs writes nothing, from any stored value or none |
| `GlobalSettings.InitStoresInputs` | pkg/service-init/component/yunoinconf.go:156-172 | after a run that took effect the stored versions are those of the run, also when no key is new |
| `GlobalSettings.WritesIff` | pkg/service-init/component/yunoinconf.go:156-172 | a value of the operator's own is rewritten iff its versions differ or a default was never offered |
| `GlobalSettings.ChoicesFrozen` | pkg/service-init/component/yunoinconf.go:208-210 | over any runs, versions, editions and failures, a recorded choice never changes |
| `GlobalSettings.DictionaryKept` | pkg/service-init/component/yunoinconf.go:182-183 | over any runs the stored dictionary is never touched |
| `GlobalSettings.RunExtendsChoices` | pkg/service-init/component/yunoinconf.go:338-366 | one run keeps the operator's own form and switches on exactly the defaults not decided before |
| `GlobalSettings.FeaturesAccumulate` | pkg/service-init/component/yunoinconf.go:174-366 | over any runs the keys set up are those on at the start plus all defaults offered since and not decided before |
| `StringOrder.Insert` | pkg/service-init/component/yunoinconf.go:217 | insertion keeps a list ascending and adds exactly one element |
| `StringOrder.AscendingUnique` | pkg/service-init/component/yunoinconf.go:217-218 | an ascending list is determined by its elements, so the map's iteration order does not show |
| `SystemAlerts.MatchFromAlerts` | pkg/controller/onecloud_control.go:1317-1341 | the loop finds the first matching alert and returns the others in order; it fails on an alert without metadata before a match |
| `SystemAlerts.SystemInit` | pkg/controller/onecloud_control.go:1285-1314 | update or create per template, then delete what is left |
| `SystemAlerts.ScanTakesOne` | pkg/controller/onecloud_control.go:1317-1341 | a scan takes out exactly the first match |
| `SystemAlerts.Conservation` | pkg/controller/onecloud_control.go:1285-1314 | updated and deleted alerts partition the list, each template is updated or created exactly once, and updates match |
| `SystemAlerts.SecondRunIsQuiet` | pkg/controller/onecloud_control.go:1285-1341 | with exactly one alert per template, known by name or metadata, a run creates and deletes none |
| `SystemAlerts.ScanFailsIff` | pkg/controller/onecloud_control.go:1323-1328 | a scan fails iff it meets an alert without metadata before a match |
| `SystemAlerts.FailedDeletesNothing` | pkg/controller/onecloud_control.go:1288-1290 | a run that fails deletes nothing |
| `SystemAlerts.ClosedForm` | pkg/controller/onecloud_control.go:1285-1314 | if no two templates share a first match, each gets its first match in the whole list and the rest is deleted in list order |
| `SystemAlerts.OrderDoesNotMatter` | pkg/controller/onecloud_control.go:1286 | then the iteration order of the templates does not matter |
| `SystemAlerts.ContentionMatters` | pkg/controller/onecloud_control.go:1286-1298 | with a shared first match, two orders give two pairings |
| `EtcdCerts.SecretClient.DeleteSecrets` | pkg/controller/onecloud_etcd_cert.go:144-149 | errors of deletions are passed over |
| `EtcdCerts.SecretClient.CreateSecret` | pkg/controller/onecloud_etcd_cert.go:160-177 | sign, then create; an existing secret makes the creation fail |
| `EtcdCerts.SecretClient.CreateEtcdCert` | pkg/controller/onecloud_etcd_cert.go:143-218 | delete all, make a CA, create server, client and peer until an error; every store on the way |
| `EtcdCerts.SecretClient.CreateOrUpdate` | pkg/manager/certs/manager.go:42-84 | makes the cluster certificate only, if it is missing; else regenerates iff etcd TLS is on and some secret is missing |
| `EtcdCerts.OneCAAtEveryPoint` | pkg/controller/onecloud_etcd_cert.go:143-218 | if deletions of existing secrets take effect, all secrets share one CA at every point of the run, and success leaves all three under the new CA |
| `EtcdCerts.RegenerateOkIff` | pkg/controller/onecloud_etcd_cert.go:143-218 | success is reported iff no secret survived its deletion and all calls are done |
| `EtcdCerts.MaintainOkIff` | pkg/manager/certs/manager.go:42-84 | a pass reports success iff nothing is to be made or all of it is made without a failure |
| `EtcdCerts.DisabledTouchesNothing` | pkg/manager/certs/manager.go:60-63 | with etcd or its TLS off, the etcd secrets are left alone |
| `EtcdCerts.TwoPassesMakeAll` | pkg/manager/certs/manager.go:42-84 | from nothing, the first error-free pass makes the cluster certificate and the second one all three etcd secrets |
| `EtcdCerts.NeverMixed` | pkg/manager/certs/manager.go:42-84 | the same over any sequence of passes |
| `EtcdCerts.OneCAAfterRegenerationIff` | pkg/controller/onecloud_etcd_cert.go:143-218 | one CA remains iff no secret survived its deletion, or the server's did, or no new server secret was stored, whatever else fails |
| `EtcdCerts.MixRepairedIff` | pkg/manager/certs/manager.go:60-84 | an error-free pass over secrets of several CAs leaves one CA iff some secret is missing |
| `EtcdCerts.CompleteIsPermanent` | pkg/manager/certs/manager.go:64-80 | three existing secrets stay as they are through any passes with any outcomes |
| `EtcdCerts.RegenerationMixPermanentIff` | pkg/controller/onecloud_etcd_cert.go:143-218 | a mix that a regeneration has made is never repaired if the peer's secret survived and the client's survived or was stored anew, and else by the next error-free pass; with all creations done, the peer's secret alone decides |
| `SqlUrls.DBOptions.SetMysqlOptions` | pkg/util/option/optionutil.go:65-69 | prints the MySQL URL with the host formatted, which reads back as database, user and password iff these and the host are proper |
| `SqlUrls.DBOptions.SetDamengOptions` | pkg/util/option/optionutil.go:71-75 | the same for Dameng |
| `SqlUrls.Fields` | pkg/service-init/component/dbutil.go:100-101 | the split yields fields without separators, and only the first and last may be empty |
| `SqlUrls.PrintedFields` | pkg/util/option/optionutil.go:65-75 | a printed URL splits into scheme, user, password, the pieces of the host, port and the rest |
| `SqlUrls.DecimalReadsBack` | pkg/util/option/optionutil.go:65-75 | a printed number is read back |
| `SqlUrls.PrintedAddress` | pkg/util/option/optionutil.go:65-75 | host and port are in the printed URL, in their places |
| `SqlUrls.ParsedIsClean` | pkg/service-init/component/dbutil.go:95-134 | what comes back from any URL is free of separators, with user and password not empty |
| `SqlUrls.MysqlRoundTripIff` | pkg/service-init/component/dbutil.go:95-134 | parsing a printed MySQL URL gives back database, user and password iff they are not empty and free of `/`, `@`, `:` (the database also of `?`) and the host is one piece |
| `SqlUrls.DamengRoundTripIff` | pkg/service-init/component/dbutil.go:95-134 | the same for Dameng, where an empty database comes back too |
| `SqlUrls.Ipv6NeverRoundTrips` | pkg/util/dbutil/db.go:11-20 | a bracketed IPv6 host never round-trips |
| `SqlUrls.PrintedPieces` | pkg/util/option/optionutil.go:65-75 | the pieces of a printed URL between separators, for any parts |
| `SqlUrls.FieldsArePieces` | pkg/service-init/component/dbutil.go:100-101 | the split of a string that starts with a piece is its pieces, and an empty field if it ends in a separator |
| `SqlUrls.DamengPanicsIff` | pkg/service-init/component/dbutil.go:95-127 | for any parts, parsing a printed Dameng URL panics iff they have four pieces in all and the last, which ends the database name, has its only `?` at its end and not at its start |
| `SqlUrls.CleanDamengPanicsIff` | pkg/service-init/component/dbutil.go:95-127 | for a proper login and a name without separators, iff the name's only `?` is its last character and not its first |
| `SqlUrls.MysqlNeverPanics` | pkg/service-init/component/dbutil.go:107-127 | parsing a printed MySQL URL never panics, whatever was printed |
| `SqlUrls.MysqlOptions` | pkg/util/option/optionutil.go:68 | every MySQL URL ends in the three connection options |
| `SqlUrls.DamengQuery` | pkg/service-init/component/dbutil.go:107-124 | a query after the database name is passed over if it parses, and an error if not |

## Left out

- The roughly 50 component managers, the service-init option builders, and the construction of pods, volumes, probes and containers: large literals with no property to prove.
- ConfigMap, Ingress and CronJob synchronisation: they would repeat the pattern of Deployments with fewer branches. Of the post-sync hooks only success or failure is modelled.
- Update conflicts: writes do not conflict in the model, although the retry of pkg/controller/deployment_control.go:81-84 drops the annotation.
- Informer caches: a pass reads what is stored, not a stale copy. Fields that the API server fills in on its own are not modelled, except the cluster IP of a created Service.
- JSON and YAML: encoding is injective and a text the operator did not write does not decode to a spec; for Services an undecodable record is kept apart from an absent one.
- Label maps are values, because nothing writes to them after they are built; annotation maps, which are written in place, are references.
- The user's pod annotations in the cluster object, which a desired Deployment shares its map with: the theorems take the desired spec of every pass as given.
- Listing errors of the Kubernetes caches, event recording, logging, timers, defragmentation, leader election and the work queue.
- The contents of volume claims, and the ready and unready lists and versions in the etcd status.
- Certificate bytes, alternative names and the `CreatedSecrets` field; a CA is an identifier.
- EtcdManagement.EtcdManager.Run: models any finite number of ticks of the endless loop; the fatal branch after `updateEtcdStatus` is kept in the value functions only, where it is shown to be unreachable.
- EtcdManagement.EtcdManager.UpdateMembers: takes the names etcd reports as they are; how names are read from peer URLs is `MemberNames.MembersFromUrls`, and `MemberNames.GeneratedMemberRoundTripIff` says for which names both are the same.
- EtcdSafety.ViewAgreement: claims nothing about a view that has never been settled, where the seed's ID is not known; `EtcdDrift` states what holds of its names.
- EtcdConvergence.ConvergesExactly: needs an agreeing view or none at the start, every call to succeed and created pods to run by the next tick that acts; a created cluster with its seed's ID unknown is covered by `EtcdBootstrap` while it grows or is upgraded.
- SqlUrls.DBOptions.SetDamengOptions: whether the host is an IPv6 address is a parameter, as for MySQL.
- SqlUrls.DBOptions.SetMysqlOptions: whether the host is an IPv6 address is a parameter, since `net.ParseIP` is not modelled; the ClickHouse printer is left out, nothing reads its output back.
- MemberNames.GeneratedName: the random suffix is a parameter of ten characters without a dash.
