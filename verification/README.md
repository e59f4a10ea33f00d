# Verified model of the failover operator

This project models the two-cluster failover operator and proves what its parts promise together: a
transition is driven to its end through crashes and edits, traffic moves only when it may, the two clusters
come to agree, and old connections are cut before a transition leaves its flush. `dafny verify
dfyconfig.toml` checks everything.

## How it is built

| file | what it holds |
|---|---|
| `Api.dfy` | the FailoverService and FailoverEvent objects |
| `ServiceManager.dfy` | Service and EndpointSlice writes, each reconcile cut off after any write |
| `Controller.dfy` | one reconcile as a function from stored state and environment to stored state |
| `Reconciler.dfy` | the same reconcile as a class that changes its copy of the object step by step; every method is proved equal to its function in `Controller` |
| `Laws.dfy` | what one reconcile does in every case, told over the stored fields alone |
| `Progress.dfy` | cursor invariant, termination measure, discipline of pre- and post-actions, force-advance |
| `Traffic.dfy` | where the Service points in every state of every run |
| `Events.dfy` | the outcome history of FailoverEvents |
| `Syncer.dfy`, `Pair.dfy`, `Convergence.dfy` | conflict resolution, two clusters at once, coming to rest |
| `WaitRemote.dfy`, `Barrier.dfy` | the wait for the remote cluster and the barrier it gives |
| `KillKeys.dfy`, `Discovery.dfy`, `Signaler.dfy`, `Agent.dfy` | the ConfigMap protocol between the controller and the node agents, and which nodes take part |
| `Flush.dfy`, `Memory.dfy`, `Targets.dfy`, `Stranded.dfy` | the whole flush, interleaved step by step: its safety, what agents remember, whose connections they cut, and two ways it can hang |
| `Jobs.dfy` | job names, idempotent creation, jobs over the runs of a transition |
| `DeafRun.dfy`, `JobTwice.dfy`, `JobShared.dfy`, `StaleBarrier.dfy`, `LostFlip.dfy` | concrete runs in which a promise is not kept |

A reconcile reads the stored object, acts on the outside and then commits or does not. The outside effect is one
executor call, one signal, one look at the acks, up to four writes of the Service manager, or, when it
completes a transition, the removal of its jobs and signals and one Sync. The `Env`
of a reconcile says which writes succeed and what every collaborator answers; a crash is an environment in
which all later writes fail, and a write against a stale object is a failed write. Users (and the other
cluster) may edit the spec and the force-advance annotation between any two reconciles. A *run* is any
sequence of such steps, and the main theorems hold for all runs.

## Where the code does less than it or its documentation says

Each of these is kept as the code has it, with the exact condition under which the promise fails; where that
takes more than one step there is a concrete run as well.

- A comment calls a repeated force-advance idempotent (`failoverservice_controller.go:147-149`). When the
  removal of the annotation fails, the retry skips a second action or phase unless nothing is left to skip:
  `Progress.ForceAdvanceRetry`. Forced out of the resource update, a transition skips its connection flush as
  well: `Progress.ForceAdvanceSkipsFlush`.
- Signal sequence numbers are documented as monotonic (`docs/guide/connection-killer.md:71`). They start
  over after a cleanup while a live agent keeps its memory. A signal goes unheard exactly if the agent
  remembers its number (`Memory.SignalGoesUnheard`), and then the transition leaves its flush only by force or
  after a restart of that agent (`Memory.DeafForever`). A failover and its failback, without any failure, lead
  there: `DeafRun.FailbackIsDeaf`.
- The same page says that seeding from the acks prevents an agent from replaying completed kills after a
  restart. It does exactly if the new process can read the acks; after a failed read it starts with no memory,
  and a signal whose ack is on record runs again: `Memory.RestartRepeats`, with a run in
  `Targets.UnreadRestartRunsAgain`. Without a restart, an ack that landed while its write was reported as failed
  has the same effect: `Agent.UnreportedAckRepeats`. What holds in every interleaving is `Memory.NeverRunsTwice`.
- A kill signal is meant for the address that traffic has left. The current signal keeps to that
  (`Targets.CurrentSignalSparesActive`). A signal left over by a lost cleanup, or held since before it, is run
  against the address in use exactly if its number is new to the agent and the Service points there
  (`Targets.StaleSignalHits`). An unreported ack and a lost cleanup before a failback are enough:
  `Targets.FailbackCutsItsOwn`.
- `completeTransition` removes signals and acks before it persists (line 836 before line 918). In a transition
  without post-actions, a completion that finds all acks strands the flush exactly if its writes fail, the
  cleanup landed and no agent still holds the signal: `Stranded.FailedCompletionStrands`,
  `Stranded.StrandedForever`, with the smallest case in `Stranded.StrandingHappens`.
- The documentation says the signaller discovers all ready agents (`docs/guide/connection-killer.md:13`). The
  code expects every eligible Linux node once there is any agent pod. The two agree exactly if no agent is
  missing and none runs on an ineligible node: `Discovery.ExpectedAreReady`, with two nodes and one agent in
  `Discovery.UnservedNodeIsExpected`. An expected node without an agent holds the flush:
  `Memory.UnservedNodeHolds`.
- Job names leave the phase out. A post-action job with the index of an earlier pre-action job of the same
  transition is never created; it is given the earlier job's verdict: `Jobs.PostActionReusesJob`, with a run in
  `JobShared.WarmIsNeverRun`.
- A job is created once per transition only while nobody removes it. A completion removes jobs before it
  persists, so an action runs twice if its hook list is emptied and restored around a lost write:
  `JobTwice.TheSameJobTwice`. In general a name is created again exactly as often as it was removed:
  `Jobs.CreationsBalance`.
- A wait for the remote accepts a transition that began before the local one exactly if its start was never
  written to its event and the event shows a late enough completion, or else creation:
  `WaitRemote.StaleTransitionAccepted`. A run that passes the barrier this way is
  `StaleBarrier.BarrierIsPassedEarly`. This is why the barrier comes in two forms.
- Two clusters that each wait for the other to reach its resource update in the same direction never get
  there: `Barrier.MutualWaitHoldsTraffic`.
- A flip that its own cluster has not stamped yet is reverted by a Sync of the other cluster exactly if that
  cluster's rank is not beaten by the flipped one's old rank: `Pair.UnstampedFlipReverted`. In
  `LostFlip.FlipLeavesNoTrace` this happens between two healthy clusters at rest and brings back exactly the
  state before the request.
- Two Syncs that interleave swap the values of the clusters, and so do not settle their conflict, exactly if a
  completion not yet persisted makes each side believe that it wins: `Syncer.InterleavedSyncsSwap`.
- Without spec change times the winner relation is not an order: transitivity fails exactly as
  `Syncer.TransitivityIsExact` says, and it can run in a circle (`Syncer.BeatsWithoutTimesCanCycle`).
- While the Service is replaced by one of the other kind, traffic goes nowhere for a moment, exactly as
  `ServiceManager.GoesDark` says. In the traffic invariant this is the third possibility during the resource
  update, and it is limited to a switch between an IP address and a host name.

## Model

| member | source | states |
|---|---|---|
| ServiceManager.ReconcileKeepsShape | internal/service/manager.go:71-260 | a reconcile cut off after any write keeps every owned slice beside an owned Service that is not of type ExternalName |
| ServiceManager.SuccessSettles | internal/service/manager.go:71-242 | a reconcile that reports success leaves exactly the desired Service and slice, field by field, and traffic goes to the address |
| ServiceManager.CutOffPointsAt | internal/service/manager.go:80-170 | wherever it is cut off, traffic goes where it went before, to the new address or nowhere; traffic already at the address stays there |
| ServiceManager.RenameInPlace | internal/service/manager.go:80-122 | an owned ExternalName Service gets the new name and loses its ports, in one write |
| ServiceManager.GoesDark | internal/service/manager.go:96-160 | traffic is lost exactly if the Service changes between IP and host name and the cut falls inside the replacement, or a foreign slice blocks its end |
| ServiceManager.CutOffRuns | internal/service/manager.go:71-260 | the above over any sequence of cut-off reconciles to arbitrary addresses; objects of other owners are never changed |
| ServiceManager.RetryConverges | internal/service/manager.go:71-260 | from whatever such a sequence left, one uncut reconcile reaches the desired objects, and another one changes nothing |
| ServiceManager.Manager.Reconcile | internal/service/manager.go:71-78 | the step-by-step reconcile equals the specified one, writes and success included |
| ServiceManager.Manager.ReconcileExternalNameService | internal/service/manager.go:80-122 | the same for the ExternalName branch |
| ServiceManager.Manager.ReconcileClusterIPService | internal/service/manager.go:124-170 | the same for the ClusterIP branch |
| ServiceManager.Manager.ReconcileEndpointSlice | internal/service/manager.go:172-242 | the same for the slice |
| ServiceManager.Manager.DeleteEndpointSlice | internal/service/manager.go:244-260 | the same for the removal of the slice |
| ServiceManager.Manager.IsOwnedBy | internal/service/manager.go:281-289 | true exactly if the service's UID is among the owners |
| Reconciler.FailoverServiceReconciler.Reconcile | internal/controller/failoverservice_controller.go:125-171 | for an object that is not being deleted and has its finalizer: stored object, Service, events, outside calls and completion are those of `Controller.Reconcile`, for every environment |
| Reconciler.FailoverServiceReconciler.ReconcileIdle | internal/controller/failoverservice_controller.go:195-244 | equal to the specified reconcile at rest |
| Reconciler.FailoverServiceReconciler.BeginTransition | internal/controller/failoverservice_controller.go:247-313 | persists a new transition with both addresses snapshotted, or nothing |
| Reconciler.FailoverServiceReconciler.ExecuteActionPhase | internal/controller/failoverservice_controller.go:316-386 | equal to the specified action phase, edited hook lists included |
| Reconciler.FailoverServiceReconciler.HandleActionState | internal/controller/failoverservice_controller.go:390-506 | commits, halts or hands over to the executor as `Controller.Decide` says |
| Reconciler.FailoverServiceReconciler.RunAction | internal/controller/failoverservice_controller.go:530-613 | records the executor's answer, retries and failure as specified |
| Reconciler.FailoverServiceReconciler.ReconcileUpdatingResources | internal/controller/failoverservice_controller.go:616-649 | moves on only after the Service manager succeeded |
| Reconciler.FailoverServiceReconciler.ReconcileFlushingConnections | internal/controller/failoverservice_controller.go:652-820 | signals, polls and leaves the flush as specified |
| Reconciler.FailoverServiceReconciler.CompleteTransition | internal/controller/failoverservice_controller.go:823-942 | cleanup, counting up, Sync, adoption and event in the specified order, with every write allowed to fail |
| Reconciler.FailoverServiceReconciler.CleanupTransitionJobs | internal/controller/failoverservice_controller.go:1279-1293 | asks for the removal of every recorded job, in order |
| Reconciler.FailoverServiceReconciler.ReconcileSteadyState | internal/controller/failoverservice_controller.go:945-1018 | equal to the specified steady state |
| Reconciler.FailoverServiceReconciler.HandleForceAdvance | internal/controller/failoverservice_controller.go:1045-1100 | moves the transition on in memory as specified and records it in the event |
| Reconciler.FailoverServiceReconciler.UpdateFailoverEvent | internal/controller/failoverservice_controller.go:1153-1221 | changes the event only where an outcome may replace the one on record |
| Laws.StartsByRole | internal/controller/failoverservice_controller.go:247-313 | whenever a transition is started, by a flip or by adoption, it goes by its own role's fields: the two mode addresses as snapshots, one untouched result per action of the direction's two lists under its name, and pre-actions first exactly if there are any |
| Laws.RestServesOwnAddress | internal/service/manager.go:43-78 | a reconcile at rest points the Service at its own role's address for the mode of the spec |
| Laws.TrafficByRole | internal/controller/failoverservice_controller.go:1240-1252 | the addresses of the traffic invariant are those of the own role and the direction |
| Laws.FallbackAddresses | internal/controller/failoverservice_controller.go:1257-1275 | without snapshots a transition goes by the live fields of the own role |
| Laws.EachByItsRole | internal/controller/failoverservice_controller.go:1224-1252 | two clusters with one spec of four addresses: each serves its own in each mode, and on failback only the one with failback hooks runs any |
| Laws.ActionLaw | internal/controller/failoverservice_controller.go:377-613 | while the own list of the direction names an action at the cursor: it is executed exactly if it is running and not past its deadline (its own, or 300 seconds), and its result and the cursor become exactly what its status, the clock and the answer demand; an error fails it exactly if it exceeds its retries, or 5 |
| Laws.ActionsEnd | internal/controller/failoverservice_controller.go:335-376 | past the own list or the results, pre-actions lead to the update and post-actions to the completion |
| Laws.UpdateLaw | internal/controller/failoverservice_controller.go:616-649 | the update serves the snapshotted new address and then moves to the flush if its write lands |
| Laws.FlushLaw | internal/controller/failoverservice_controller.go:652-820 | in every case of signaller, address, kill status and answers: what is signalled, polled and persisted, and when the flush goes on to the own post-actions or the completion |
| Laws.CompletionLaw | internal/controller/failoverservice_controller.go:823-942 | what a completion removes and passes to Sync, which writes it needs, and the whole status it leaves, with and without a winning remote |
| Laws.JobsAreRecorded | internal/controller/failoverservice_controller.go:1279-1293 | a completion asks for the removal of exactly the recorded jobs |
| Laws.SteadyLaw | internal/controller/failoverservice_controller.go:945-1018 | what a reconcile at rest passes to Sync, and the whole status it leaves |
| Laws.AdoptionLands | internal/controller/failoverservice_controller.go:1022-1040 | wherever a remote winner is adopted: value, generation, time of change and cluster are the remote's (an empty cluster name changes nothing), and the old value is the baseline |
| Laws.AdoptionAgrees | internal/remotecluster/syncer.go:83-143 | in the pair, an adoption leaves both clusters with the same value, generation and time of change, and the remote untouched |
| Laws.ForceLaw | internal/controller/failoverservice_controller.go:1045-1100 | a force-advance moves the transition by exactly one action or one phase, calls nobody, and drops its annotation only after its status write |
| Progress.RunKeepsInv | internal/controller/failoverservice_controller.go:335-443 | cursor invariant of every reachable state: all before the cursor finished, the one at it open (if running, started and within its retries), all later ones untouched |
| Progress.DecideMoves | internal/controller/failoverservice_controller.go:335-443 | whatever an action phase decides keeps the cursor invariant and lowers the measure, or leaves the control state alone |
| Progress.ReconcileInFlight | internal/controller/failoverservice_controller.go:156-190 | what any reconcile of an in-flight transition may leave: the same transition with a smaller measure, or its completion with the snapshotted direction as baseline |
| Progress.ReconcileAtRest | internal/controller/failoverservice_controller.go:195-313 | a reconcile at rest never completes anything, and starts a transition only against the baseline |
| Progress.StepMoves | internal/controller/failoverservice_controller.go:315-613 | every step that changes the control state strictly lowers the measure, under arbitrary edits of the hooks |
| Progress.BoundedProgress | internal/controller/failoverservice_controller.go:315-613 | a transition takes at most 54 control-changing steps per action plus five, in every run |
| Progress.FlipsAreNotAbsorbed | internal/controller/failoverservice_controller.go:843-850 | only a completion changes the baseline, and then to the snapshotted direction; a flip made meanwhile is pending exactly if the spec differs from it |
| Progress.PendingFlipStarts | internal/controller/failoverservice_controller.go:195-313 | a pending flip starts its transition before the Service is touched |
| Progress.PersistedBeforeExecuted | internal/controller/failoverservice_controller.go:434-443 | an executor is only called for the action that the stored status shows as running |
| Progress.NoBypass | internal/controller/failoverservice_controller.go:361-432 | with unedited hooks, past the pre-action phase every pre-action succeeded, may fail, or was skipped by an operator, in every run |
| Progress.NoPostBypass | internal/controller/failoverservice_controller.go:335-443 | with unedited hooks, in every run, whatever was forced: a persisted completion leaves every post-action succeeded, allowed to fail, or skipped by an operator |
| Progress.UnforcedStep | internal/controller/failoverservice_controller.go:549-607 | without force-advance an action becomes Succeeded only in the reconcile in which its executor said so |
| Progress.HaltIsForever | internal/controller/failoverservice_controller.go:397-432 | a failed action whose failure counts blocks the transition in every run without force-advance or hook edits |
| Progress.ForceAdvanceRetry | internal/controller/failoverservice_controller.go:137-153 | a retried force-advance changes nothing exactly if the first one left nothing to skip |
| Progress.ForcedTwice | internal/controller/failoverservice_controller.go:1045-1100 | advancing twice equals advancing once exactly if nothing is left to skip |
| Progress.ForceAdvanceSkipsFlush | internal/controller/failoverservice_controller.go:137-153 | a force-advance out of the resource update whose annotation stays also skips the flush, without a signal |
| Traffic.TrafficOverRuns | internal/controller/failoverservice_controller.go:616-649 | from any state where it holds, with fixed addresses and no force-advance out of a resource update from there on: old address through the pre-actions, old or new during the update (nowhere only between the two kinds), new from the flush on, baseline address at rest |
| Traffic.RestHeals | internal/controller/failoverservice_controller.go:209-244 | after a skipped update or edited addresses, a reconcile at rest without a pending flip whose Service writes succeed brings traffic back in line, whatever else fails |
| Traffic.FreshObject | internal/controller/failoverservice_controller.go:195-244 | a new object satisfies all invariants of the runs, whatever foreign Service is in its place |
| Traffic.StepKeepsSwitched | internal/controller/failoverservice_controller.go:616-649 | traffic is at the snapshotted new address from the flush on, even with edited addresses, after exactly the steps that do not skip the update, or skip it with traffic there already |
| Traffic.SwitchedOverRuns | internal/controller/failoverservice_controller.go:616-649 | the same in every run, whatever was forced or edited before, if the transition in flight was not itself forced out of its update |
| Traffic.UpdateSwitches | internal/controller/failoverservice_controller.go:616-649 | the update phase is left only with traffic at the new address |
| Traffic.StoreKeptElsewhere | internal/controller/failoverservice_controller.go:316-386 | no other phase of a transition writes the Service |
| Traffic.RestWrites | internal/controller/failoverservice_controller.go:209-244 | at rest the Service is written only without a pending flip, and the baseline is first set only after a success |
| Events.OutcomeHistory | internal/controller/failoverservice_controller.go:1153-1221 | over every run: no event is lost, Succeeded is final, Failed and ForceAdvanced never become Succeeded, nothing returns to InProgress |
| Events.ForcedIsNeverCleanSuccess | internal/controller/failoverservice_controller.go:1045-1058 | a force-advance that reached the event rules out a recorded clean success for the rest of the run |
| Events.ReconcileAddsCurrent | internal/controller/failoverservice_controller.go:1102-1148 | a new event belongs to the transition in flight and is open: in progress with the generation at the start and the right trigger, or without outcome if the write of its status was lost |
| Events.UpdateLaw | internal/controller/failoverservice_controller.go:1153-1221 | which outcomes replace which, what an update records, and that it touches one event only |
| Events.StartsAreRecorded | internal/controller/failoverservice_controller.go:1115-1148 | a started transition has its event if the creation landed |
| Events.SucceededMeansCompleted | internal/controller/failoverservice_controller.go:923-935 | in every run from an empty record, an event reads Succeeded only if a reconcile persisted the completion of its transition |
| Events.HaltIsRecorded | internal/controller/failoverservice_controller.go:405-432 | a halt whose event update lands is on record as Failed with its results and generation, unless the event already reads Succeeded |
| Events.ForceIsRecorded | internal/controller/failoverservice_controller.go:1045-1058 | so is a force-advance as ForceAdvanced, with the results and generation before it and without an end |
| Events.CompletionIsRecorded | internal/controller/failoverservice_controller.go:1153-1221 | a completion whose event update lands is on record as Succeeded exactly if the event was still open, with the final results and the new generation unless it had failed |
| Syncer.OneWinner | internal/remotecluster/syncer.go:83-121 | of two states with distinct cluster IDs exactly one beats the other |
| Syncer.BeatsIsStrictOrder | internal/remotecluster/syncer.go:83-121 | with both times known the relation is a strict total order |
| Syncer.BeatsWithoutTimesCanCycle | internal/remotecluster/syncer.go:96-121 | with times missing it can run in a circle |
| Syncer.TransitivityIsExact | internal/remotecluster/syncer.go:88-121 | for any three states, two wins in a row fail to be a win exactly if generations are equal and a missing time hides the later one |
| Syncer.WinnerAgreement | internal/remotecluster/syncer.go:83-143 | on one snapshot both sides name the same single winner: one adopts exactly if the other pushes |
| Syncer.InterleavedSyncsSwap | internal/remotecluster/syncer.go:83-143 | two Syncs that both read before either pushes swap the values exactly if a completion makes each side believe that it wins; two clusters at rest never do |
| Syncer.Syncer.Sync | internal/remotecluster/syncer.go:47-154 | answers and changes the remote spec as specified, unreachable remote and failed push included |
| Pair.Projection | internal/remotecluster/syncer.go:126-143 | each cluster of a pair runs like a cluster on its own, a push being an edit of `failoverActive` and of nothing else |
| Pair.ReconcileSyncs | internal/controller/failoverservice_controller.go:862-935 | what a reconcile passes to Sync, and what it does to generation and spec for every answer |
| Pair.GenerationStep | internal/controller/failoverservice_controller.go:862-935 | no step lowers a generation; a completion raises it by one, or adopts the remote's when that is at least as high |
| Pair.GenerationsNeverDecrease | docs/reference/crd.md:101 | generations never decrease on either side of any run of the pair |
| Pair.CompletionCountsOnce | internal/controller/failoverservice_controller.go:823-942 | however often a completion is tried and fails, the generation rises once: by exactly one over that at the start of the transition, unless a higher remote generation is adopted |
| Pair.SyncAgrees | internal/remotecluster/syncer.go:83-143 | one successful Sync, by either side, ends every disagreement |
| Pair.AgreementStep | internal/remotecluster/syncer.go:83-143 | agreement survives every reconcile, and no remote wins while it lasts |
| Pair.BoundedConvergence | internal/controller/failoverservice_controller.go:886-914 | after edits stop and the clusters agree, they agree forever; each completes exactly the transitions it still owed, at most two, and owes none exactly when at rest at the common value |
| Pair.SyncConverges | internal/remotecluster/syncer.go:83-143 | without further edits, the first successful Sync of either side makes the values equal for good, and each cluster then completes exactly the transitions it still owes, at most two |
| Pair.UnstampedFlipReverted | internal/remotecluster/syncer.go:113-143 | a flip not yet stamped is reverted by the other side's Sync exactly if the old rank of the flipped side does not beat that side's rank |
| LostFlip.FlipLeavesNoTrace | internal/remotecluster/syncer.go:113-143 | a concrete flip, unstamped and pending, that one reconcile of the other cluster undoes, back to the state before it |
| Convergence.BudgetStep | internal/controller/failoverservice_controller.go:156-190 | a reconcile that is not overruled lowers a cluster's budget or leaves its control state as it was |
| Convergence.BoundedMoves | internal/controller/failoverservice_controller.go:156-190 | in every such run at most `Budget` steps move the cluster |
| Convergence.CooperationMoves | internal/controller/failoverservice_controller.go:195-820 | a reconcile whose writes and action succeed, whose signalled nodes (any) have acked and which the remote does not overrule moves the cluster unless it is settled or halted |
| Convergence.CooperationSettles | internal/controller/failoverservice_controller.go:195-942 | in any run without edits or overruling, once as many reconciles were cooperative as the cluster had budget, wherever they fell, it is at rest with the baseline equal to the spec, or halted on a failed action |
| Convergence.PairSettles | internal/controller/failoverservice_controller.go:195-942 | the same for both clusters of an agreeing pair in any interleaving: each is at rest at the common value, or halted |
| WaitRemote.FindRecentRemoteEvent | internal/action/waitremote.go:226-258 | the loop finds the first among the latest matching events |
| WaitRemote.RecentIsExact | internal/action/waitremote.go:226-258 | that is a matching event of maximal timestamp, or nothing exactly when none matches |
| WaitRemote.RecentIsIt | internal/action/waitremote.go:226-292 | the search finds the first in the list among the matching events ranked latest, by completion, or else start, or else creation |
| WaitRemote.MatchIsExact | internal/action/waitremote.go:260-274 | a match has the service, the direction, and a start (or end, or creation) not before the local start |
| WaitRemote.EventMatchesTransition | internal/action/waitremote.go:260-274 | a match has the right direction and does not predate the local start |
| WaitRemote.StaleTransitionAccepted | internal/action/waitremote.go:260-274 | an event of an older transition is accepted exactly if its start is unrecorded and it completed (or was created) late enough |
| WaitRemote.FindActionResult | internal/action/waitremote.go:294-320 | the two loops find what the joined list of results defines |
| WaitRemote.FindInIsExact | internal/action/waitremote.go:294-320 | missing, found or ambiguous exactly if the name occurs never, once, or at least twice |
| WaitRemote.LookupIsUnique | internal/action/waitremote.go:294-320 | the three answers exclude each other |
| WaitRemote.PhaseCheckIsSound | internal/action/waitremote.go:79-157 | a phase wait succeeds only on evidence of the right direction that does not predate the start, and does succeed on it unless a matching event is still open |
| WaitRemote.PhaseCheckIsExact | internal/action/waitremote.go:79-157 | a phase wait never fails, and is over exactly if the correlating transition in flight is at or past the target, or the remote is idle and the event to go by is terminal |
| WaitRemote.ActionCheckIsSound | internal/action/waitremote.go:159-224 | an action wait succeeds only if matching results name the action exactly once, as succeeded or skipped |
| WaitRemote.ActionCheckIsExact | internal/action/waitremote.go:159-224 | the answer of an action wait in every case: by a unique result's status, by ambiguity, and by whether further results can still come |
| WaitRemote.ExecutorIsExact | internal/action/waitremote.go:29-77 | an unreachable remote keeps the action waiting, a phase goes before a name, and without either it fails |
| Barrier.RecordedStep | internal/controller/failoverservice_controller.go:1102-1221 | every event on record belongs to the transition in flight or to one that has finished its pre-actions |
| Barrier.WaitingStep | internal/action/waitremote.go:79-157 | the waiting action becomes Succeeded only with evidence in the remote's history, which stays |
| Barrier.CrossClusterBarrier | internal/action/waitremote.go:79-157 | in every run of the pair with unedited hooks and no force-advance of the waiting side, its traffic stays at the old address until the remote was seen past its pre-actions in the same direction, in a transition that began no earlier, or whose event had no start and showed a completion (or else creation) no earlier |
| Barrier.CrossClusterBarrierStrict | internal/action/waitremote.go:79-157 | the same without the last escape if every event created got its start written |
| StaleBarrier.BarrierIsPassedEarly | internal/action/waitremote.go:260-274 | a concrete run of the pair in which the barrier is passed on a transition that began earlier |
| Barrier.MutualWaitDeadlocks | internal/action/waitremote.go:79-157 | if each side's pre-actions wait for the other in the same direction, no transition in that direction ever leaves its pre-actions on either side |
| Barrier.MutualWaitHoldsTraffic | internal/action/waitremote.go:79-157 | so both sides keep their traffic at the old address |
| KillKeys.KeysShareSuffix | internal/connkill/signaler.go:70-114 | kill and ack key share one suffix, plain or truncated, keep their prefixes apart and never exceed 253 characters |
| KillKeys.SuffixInjective | internal/connkill/signaler.go:85-104 | untruncated keys of names without the separator are injective in node, namespace and name |
| KillKeys.KeysSpelledOut | internal/connkill/signaler.go:85-114 | the two keys of a node and service, spelled out |
| KillKeys.TruncatedCollide | internal/connkill/signaler.go:85-104 | two truncated keys collide exactly if they share the first 231 characters of their bodies and the digest |
| Signaler.NodeSignalled | internal/connkill/signaler.go:270-291 | signalling gives every node's key the new token and address and a higher sequence number |
| Signaler.NumbersGrow | internal/connkill/signaler.go:270-291 | no key loses or lowers its number, and all other keys keep their value |
| Discovery.DiscoverAgentNodes | internal/connkill/signaler.go:315-383 | the loops over pods and nodes find the expected nodes and those without a ready agent; a failed listing is an error |
| Discovery.IsNodeEligible | internal/connkill/signaler.go:394-407 | not deleted, schedulable, Linux, and the first Ready condition, if any, is true |
| Discovery.IsPodReady | internal/connkill/signaler.go:385-392 | some Ready condition is true |
| Discovery.SortedIsSorted | internal/connkill/signaler.go:372 | the expected names are a sorted permutation of the eligible ones |
| Discovery.ExpectedIsExact | internal/connkill/signaler.go:315-383 | once there is any agent pod, exactly the eligible nodes are expected |
| Discovery.IneligibleNodes | internal/connkill/signaler.go:394-407 | deleted, cordoned, non-Linux and not ready nodes are not eligible; one without conditions is |
| Discovery.UnreadyAgents | internal/connkill/signaler.go:336-345 | pods without a node, deleted, not running or without a true Ready condition are no ready agents |
| Discovery.ExpectedAreReady | docs/guide/connection-killer.md:13 | these are the nodes with a ready agent exactly if no agent is missing and none runs on an ineligible node |
| Discovery.UnservedNodeIsExpected | internal/connkill/signaler.go:350-383 | two eligible nodes and one agent, where both nodes are expected |
| Signaler.ExpectedNeedsLists | internal/connkill/signaler.go:315-383 | discovery fails exactly if the pods cannot be listed, or there are some and the nodes cannot; otherwise exactly the eligible nodes are expected, or none without pods |
| Signaler.Signaler.SignalKill | internal/connkill/signaler.go:122-169 | finds the nodes and writes all their signals in one update, or none; errors of listing, reading and writing, and an update that lands although it is reported as failed |
| Signaler.Signaler.CheckAcks | internal/connkill/signaler.go:173-220 | pending, failed and clean nodes in order; done exactly if every node acked this token without errors |
| Signaler.ReportsPartition | internal/connkill/signaler.go:190-218 | every node is in exactly one list, and the kill is done exactly if nobody is pending or failed |
| Signaler.Signaler.CleanupSignals | internal/connkill/signaler.go:224-268 | removes the matching entries, and the ack beside every matching signal, in whatever order keys are visited |
| Signaler.CleanupIsExact | internal/connkill/signaler.go:224-313 | on a well-formed map that is exactly the entries of the service, and the rest is unchanged |
| Signaler.LegacyMatchIsExact | internal/connkill/signaler.go:293-313 | an entry whose payload names no service is matched exactly by the end of its key, one that does by nothing else |
| Signaler.CleanupTakesPairs | internal/connkill/signaler.go:238-262 | of all entries exactly the matching signals and acks go, and the ack beside a matching signal, whatever it says |
| Agent.Agent.RunOnce | internal/connkill/agent.go:41-113 | the outcome of a pass does not depend on the order of the map; the read may fail, acks may be lost, or land without the agent being told, and only the ones it is told of advance its memory |
| Agent.PassWritesAcks | internal/connkill/agent.go:55-144 | a pass writes nothing but acks, each for a readable signal for this node at an IP address with a new number, and each ack says number, token, service, node and report |
| Agent.PassAnswersAll | internal/connkill/agent.go:55-110 | and every such signal whose ack gets through is answered |
| Agent.LegacyNodeIsExact | internal/connkill/agent.go:67-73 | signals and acks that name no node belong to the node that begins their key |
| Agent.Agent.InitFromConfigMap | internal/connkill/agent.go:149-187 | a new process remembers what the node's acks say, or nothing if they could not be read |
| Agent.SeededIsExact | internal/connkill/agent.go:149-187 | the seeded number of a key is that of its ack, or zero without one of this node |
| Agent.PassKeepsCover | internal/connkill/agent.go:41-113 | what an agent remembers, its acks show, whichever acks get written and whatever it is told |
| Agent.LifeMovesForward | internal/connkill/agent.go:41-187 | over any passes, signals and restarts the acks cover the memory and no signal's number goes back; neither does the memory, unless a restarted agent could not read its acks |
| Agent.NeverRepeats | internal/connkill/agent.go:75-110 | once the agent was told of a signal's ack it never runs that signal again, only a higher number, unless it was restarted and could not read its acks |
| Agent.UnackedIsDue | internal/connkill/agent.go:75-110 | at any time a signal for the node whose ack is behind is due; one whose ack is on record is due exactly if the agent does not know of it; exactly the signals ahead of their acks are due after a restart that reads them, and all after one that does not |
| Agent.RestartIsTransparent | internal/connkill/agent.go:149-187 | a crash and restart, with or without a successful read, leaves the same signals due exactly if no signal lies between what the agent remembered before and after |
| Agent.SamePassAfterRestart | internal/connkill/agent.go:149-187 | then the next pass writes the same |
| Agent.UnreportedAckRepeats | internal/connkill/agent.go:99-110 | an ack that landed unreported leaves its signal due until a restart that reads the ack |
| Agent.FirstSignalAfterCleanup | internal/connkill/agent.go:75-83 | the first signal after a cleanup has number one and is handled exactly by an agent without memory of the key; a restarted agent handles it |
| Agent.GoneAfterCleanup | internal/connkill/signaler.go:224-268 | cleanup leaves neither entry of any node of the service |
| Memory.NeverRunsTwice | internal/connkill/agent.go:41-187 | the same as `Agent.NeverRepeats` with every pass taken apart and interleaved with everything else, as long as the ack is not cleaned up |
| Memory.RestartRepeats | docs/guide/connection-killer.md:71 | a signal known and acked becomes due again with a restart exactly if the new process cannot read the ack |
| Targets.UnreadRestartRunsAgain | internal/connkill/agent.go:149-158 | a concrete run from rest to an agent that is about to run an acked signal again |
| Memory.UnservedNodeHolds | internal/connkill/signaler.go:173-220 | a flush that signalled is left unforced only if every expected node has an agent |
| Memory.SignalGoesUnheard | internal/connkill/agent.go:75-83 | a signal just given to a resting agent goes unheard exactly if the agent remembers a number at or above its own |
| Memory.DeafForever | internal/connkill/agent.go:75-83 | from then on no run leaves the flush without a force-advance or a restart of that agent |
| Memory.RestartHears | internal/connkill/agent.go:149-187 | after a restart the agent hears the signal, if it has not acked it or cannot read its acks |
| DeafRun.FailbackIsDeaf | internal/connkill/signaler.go:270-291 | a concrete run without any failure, from rest through a failover and its cleanup to the failback's signal, which goes unheard |
| Targets.CurrentSignalSparesActive | internal/controller/failoverservice_controller.go:652-820 | in every run, a pass for the current signal of a transition not forced out of its update begins with the signal at the old address and the Service at the new |
| Targets.StaleSignalHits | internal/connkill/agent.go:75-97 | a signal an agent holds, of whatever age, is run against the address in use exactly if its number is new to the agent and the Service points there |
| Targets.NoneAfterCleanup | internal/connkill/signaler.go:224-268 | after a cleanup that landed and until the next signal there is no signal to be found, in every run |
| Targets.StaleIsHeldSince | internal/connkill/agent.go:41-113 | a signal acted on in that time has been held by its agent since before the cleanup |
| Targets.FailbackCutsItsOwn | internal/connkill/agent.go:99-110 | a concrete run in which an unreported ack and a lost cleanup make a failback's agent cut the connections to the address in use |
| Flush.PlainScene | internal/connkill/signaler.go:85-104 | separator-free names with untruncated keys satisfy the scene assumption |
| Flush.ReconcileKillFacts | internal/controller/failoverservice_controller.go:652-820 | a reconcile signals only the snapshotted old address with a fresh token, polls only the stored token and nodes, and leaves the flush only when it may |
| Flush.StepKeepsWorldInv | internal/connkill/agent.go:41-187 | the protocol invariant survives every step of controller, agents, users and other services |
| Flush.FlushSafety | internal/controller/failoverservice_controller.go:652-820 | in every interleaving, an unforced exit from the flush with an IP old address means every expected node's agent finished an error-free pass for it under this signal, begun with the Service pointing where it does now; or there was no node to signal |
| Flush.FlushAfterSwitch | internal/controller/failoverservice_controller.go:616-820 | and begun with the Service at the new address, if this transition was not forced out of its resource update |
| Stranded.CompletionNeedsItsWrites | internal/controller/failoverservice_controller.go:823-942 | a completion straight from the flush succeeds exactly if its writes land |
| Stranded.FailedCompletionStrands | internal/controller/failoverservice_controller.go:831-920 | it strands the transition exactly if they fail, the cleanup landed and no agent holds the signal any more |
| Stranded.StrandedForever | internal/controller/failoverservice_controller.go:729-800 | no run leads out of a stranded flush without a force-advance |
| Stranded.StrandingHappens | internal/controller/failoverservice_controller.go:831-920 | a concrete state with one node, all acks in, whose completion loses its status write and is stranded |
| Jobs.NamesFit | internal/action/job.go:34-55 | job names and labels have at most 63 characters and are unchanged exactly if they fit |
| Jobs.DecimalInjective | internal/action/job.go:35 | decimal numerals are injective |
| Jobs.NamesAreInjective | internal/controller/failoverservice_controller.go:540 | one service's untruncated job names are injective in direction, transition and index |
| Jobs.NamesSpelledOut | internal/action/job.go:34-38 | job names spelled out for both directions |
| Jobs.CutNamesCollide | internal/action/job.go:39-44 | two names that are cut collide exactly if they share the first 54 characters and the digest |
| Jobs.VerdictIsFirst | internal/action/job.go:81-93 | a job has ended exactly if a condition decides, and the first one that does says how |
| Jobs.VerdictsSpelledOut | internal/action/job.go:81-93 | lists of conditions and their verdicts, spelled out |
| Jobs.ExecutionLaw | internal/action/job.go:57-79 | one execution in every case: when it fails, what it answers, and the one job it may add, with its label |
| Jobs.JobExecutor.Execute | internal/action/job.go:57-79 | creates the job exactly if none of that name exists, and otherwise answers with its verdict |
| Jobs.JobExecutor.CheckJobStatus | internal/action/job.go:81-93 | the loop finds the verdict |
| Jobs.JobExecutor.Cleanup | internal/action/job.go:154-168 | removes the job or reports why not; a missing one is fine |
| Jobs.AtMostOneJob | internal/action/job.go:57-79 | over every run of one transition with unedited hooks, every name is created at most once, however often actions are executed again and completions retried |
| Jobs.CreationsBalance | internal/action/job.go:57-79 | over every run, any transitions and any edits, a name was created exactly as often as its job was removed, by the controller or anybody else, plus once if the job exists now and did not at the start |
| JobTwice.TheSameJobTwice | internal/controller/failoverservice_controller.go:1279-1293 | a concrete run of one transition whose only action creates its job twice, after a lost write and two edits of its hooks |
| Jobs.PhasesShareNames | internal/controller/failoverservice_controller.go:540-548 | a pre-action and a post-action of one transition share a job name exactly if they share an index |
| Jobs.PostActionReusesJob | internal/action/job.go:61-78 | such a post-action never gets its own job and is answered with the verdict on the pre-action's |
| JobShared.WarmIsNeverRun | internal/controller/failoverservice_controller.go:540-548 | a concrete run in which a post-action succeeds with the pre-action's job |

## Left out

What the model assumes:

- One reconcile is one step. Other writers of the FailoverService between its read and its commit make the
  commit fail. Steps of agents between a signal and the status write that follows it are placed after that
  write, with which they commute: agents never look at the FailoverService.
- One reconcile reads the clock once, and all clocks are one clock; times have whole seconds.
- In the runs of a pair a Sync is one step with the reconcile that calls it; what two interleaved Syncs do is
  stated on its own.
- Kill tokens are fresh, and a transition ID is the start time. Addresses are classified by their constructor
  instead of being parsed.
- The client's Update replaces the object in memory by the stored one. A client that decodes the answer into
  the existing object could write through pointers that were saved before. That matters in one place:
  `completeTransition` stores a pointer to its local `transitionedToFailover` (line 850), updates the object when
  the remote wins, and then still reads that variable
  (internal/controller/failoverservice_controller.go:843-914).
- Digests are arbitrary functions of the right length; nothing is claimed about collisions of truncated keys
  or names. `Flush.Scene.Valid` and `Signaler.NodesApart` ask that truncated keys of one service differ.
- Integers are unbounded where the program has 64 bits.
- Retry limits are at most 50, as the schema has it (api/v1alpha1/failoverservice_types.go:47-51).

What is weaker than one might want:

- Reconciler.FailoverServiceReconciler.Reconcile: leaves out deletion, the write that adds the finalizer and the reset of an unknown phase, which the cited function also handles.
- Traffic.TrafficOverRuns: excludes a force-advance out of a resource update between its two states, because the Service then stays where it was until `Traffic.RestHeals` applies; `Traffic.SwitchedOverRuns` excludes it only for the transition in flight.
- Stranded.StrandedForever: excludes a force-advance, because it is the way out; so does `Memory.DeafForever`, which also excludes a restart of the deaf agent.
- Barrier.CrossClusterBarrier: names the transition that crossed by direction and start second, so two transitions of the same direction within one second count as one.
- Convergence.CooperationSettles: needs as many cooperative reconciles as there is budget, because nothing else forces progress.
- Jobs.AtMostOneJob: covers one transition with unedited hooks and no deletion by others; `JobTwice.TheSameJobTwice` shows why, and `Jobs.CreationsBalance` covers the rest.
- Agent.Agent.RunOnce: reads and writes in one step; `Flush` and `Memory` take the pass apart.
- ServiceManager.RetryConverges: assumes that the address type of an existing slice can be updated in place, as the code tries to; the Kubernetes API rejects that change, so a switch between IPv4 and IPv6 would keep failing there.

What is not part of the model:

- Kubernetes client, work queue, watches, kubeconfig caching (internal/remotecluster/client.go, watcher.go).
- Netlink and namespace calls: a kill pass is a step that yields a count of killed connections and errors.
- HTTP, Scale and WaitReady executors: their answers are arbitrary. The pod template of a Job is left out.
- Nodes that come and go while the flush runs: `Flush` takes any list of expected nodes and a fixed set of agents.
- Requeue times and the ack timeout, which change conditions and scheduling but not the transition.
- Status conditions, the per-cluster status list (whose phase lags after a force-advance), the recorded remote
  state, `lastTransitionTime`, `observedGeneration`, metrics, logs, JSON and Helm charts.
- The reset of an unknown phase (internal/controller/failoverservice_controller.go:172-189): a phase is a
  datatype with five constructors, so the model cannot express an unknown one; nothing is proved about it.
- Finalizers and deletion of a FailoverService, labels and cluster IPs of the Service.
