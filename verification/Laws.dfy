/**
 * What one reconcile does in every case, told over the stored fields alone: which cluster's addresses and
 * which hook list it goes by, what it makes of an executor's answer, and what it persists.
 */
module Laws {
  import opened Api
  import opened Controller
  import opened Progress
  import Convergence
  import Pair
  import Syncer
  import Traffic
  import SM = ServiceManager

  // ----- Whose addresses, whose hooks -----

  /** The address a cluster serves: that of its own role, for the mode it is in. */
  function OwnAddress(role: Role, spec: Spec, active: bool): Address {
    match (role, active)
    case (PrimaryRole, true) => spec.primaryCluster.failoverModeAddress
    case (PrimaryRole, false) => spec.primaryCluster.primaryModeAddress
    case (FailoverRole, true) => spec.failoverCluster.failoverModeAddress
    case (FailoverRole, false) => spec.failoverCluster.primaryModeAddress
  }

  /** The hooks a cluster runs: those of its own role, for the direction. */
  function OwnHooks(role: Role, spec: Spec, d: Direction): Option<Hooks> {
    match (role, d)
    case (PrimaryRole, Failover) => spec.primaryCluster.onFailover
    case (PrimaryRole, Failback) => spec.primaryCluster.onFailback
    case (FailoverRole, Failover) => spec.failoverCluster.onFailover
    case (FailoverRole, Failback) => spec.failoverCluster.onFailback
  }

  function OwnActions(role: Role, spec: Spec, d: Direction, isPre: bool): seq<Action> {
    match OwnHooks(role, spec, d)
    case None => []
    case Some(Hooks(pre, post)) => if isPre then pre else post
  }

  lemma LookupsAreOwn(cfg: Config, spec: Spec, d: Direction, isPre: bool, active: bool)
    ensures ActionsFor(cfg, spec, d, isPre) == OwnActions(cfg.role, spec, d, isPre)
    ensures Resolve(cfg, spec, active) == OwnAddress(cfg.role, spec, active)
  {
  }

  /** Transitions persisted without snapshots go by the live fields of the own role. */
  lemma FallbackAddresses(cfg: Config, spec: Spec, t: Transition)
    requires t.oldAddress.None? && t.newAddress.None?
    ensures OldAddress(cfg, spec, t) == OwnAddress(cfg.role, spec, t.direction == Failback)
    ensures NewAddress(cfg, spec, t) == OwnAddress(cfg.role, spec, t.direction == Failover)
  {
  }

  /** This reconcile gets past the cluster-ID annotation and is not a force-advance. */
  predicate Looks(cfg: Config, c: Cluster, e: Env) {
    !c.fs.forceAdvance && (c.fs.clusterID == cfg.id || e.idWrite)
  }

  function Stamped(cfg: Config, c: Cluster): Cluster {
    c.(fs := c.fs.(clusterID := cfg.id))
  }

  // ----- Starting a transition -----

  /** One untouched result per action, in order and under its name. */
  predicate Prepared(rs: seq<ActionResult>, actions: seq<Action>) {
    |rs| == |actions| &&
    forall i :: 0 <= i < |rs| ==> rs[i] == ActionResult(actions[i].name, Pending, NoNote, None, None, "", 0)
  }

  predicate StartsRight(role: Role, spec: Spec, t: Transition, now: Time) {
    && (t.direction == Failover <==> spec.failoverActive)
    && t.oldAddress == Some(OwnAddress(role, spec, !spec.failoverActive))
    && t.newAddress == Some(OwnAddress(role, spec, spec.failoverActive))
    && Prepared(t.pre, OwnActions(role, spec, t.direction, true))
    && Prepared(t.post, OwnActions(role, spec, t.direction, false))
    && t.phase == (if OwnActions(role, spec, t.direction, true) != [] then ExecutingPreActions else UpdatingResources)
    && t.index == 0 && t.connectionKill.None?
    && t.startedAt == Some(now) && t.transitionID == now && t.eventName == EventName(t.direction, now)
  }

  lemma NewTransitionStartsRight(cfg: Config, spec: Spec, now: Time)
    ensures StartsRight(cfg.role, spec, NewTransition(cfg, spec, now), now)
  {
    LookupsAreOwn(cfg, spec, DirectionOf(spec.failoverActive), true, spec.failoverActive);
    LookupsAreOwn(cfg, spec, DirectionOf(spec.failoverActive), false, !spec.failoverActive);
  }

  /** Whenever a reconcile starts a transition, by hand or by adoption, it snapshots its own role's fields. */
  lemma StartsByRole(cfg: Config, c: Cluster, e: Env)
    requires Inv(c)
    ensures var o := Reconcile(cfg, c, e);
            (c.fs.status.transition.None? || o.completed) && o.cluster.fs.status.transition.Some? ==>
              StartsRight(cfg.role, o.cluster.fs.spec, o.cluster.fs.status.transition.value, e.now)
  {
    hide Reconcile, NewTransition, StartsRight;
    NewTransitionStartsRight(cfg, Reconcile(cfg, c, e).cluster.fs.spec, e.now);
    if c.fs.status.transition.Some? {
      ReconcileInFlight(cfg, c, e);
    } else {
      ReconcileAtRest(cfg, c, e);
    }
  }

  // ----- At rest and updating -----

  /** A reconcile at rest points the Service at its own role's address for the mode of the spec. */
  lemma RestServesOwnAddress(cfg: Config, c: Cluster, e: Env)
    requires Inv(c) && Convergence.Unclaimed(c) && Looks(cfg, c, e) && e.serviceWrites >= 4
    requires c.fs.status.transition.None? && !FlipPending(c.fs)
    ensures Traffic.At(Reconcile(cfg, c, e).cluster) == Some(OwnAddress(cfg.role, c.fs.spec, c.fs.spec.failoverActive))
  {
    hide SM.ReconcileWithAddress, SM.PointsAt, SM.WellShaped, NewTransition, CreateEvent;
    var a := Resolve(cfg, c.fs.spec, c.fs.spec.failoverActive);
    LookupsAreOwn(cfg, c.fs.spec, Failover, true, c.fs.spec.failoverActive);
    Convergence.ServiceWriteSucceeds(c.fs.uid, c.fs.spec.ports, c.store, a, e.serviceWrites);
    SM.SuccessSettles(c.fs.uid, c.fs.spec.ports, c.store, a, e.serviceWrites);
  }

  /** The addresses of the traffic invariant are those of the own role. */
  lemma TrafficByRole(cfg: Config, c: Cluster)
    requires Traffic.TrafficInv(cfg, c)
    ensures c.fs.status.transition.None? && c.fs.status.lastKnown.Some? ==>
              Traffic.At(c) == Some(OwnAddress(cfg.role, c.fs.spec, c.fs.status.lastKnown.value))
    ensures c.fs.status.transition.Some? ==>
              var t := c.fs.status.transition.value;
              && t.oldAddress == Some(OwnAddress(cfg.role, c.fs.spec, t.direction == Failback))
              && t.newAddress == Some(OwnAddress(cfg.role, c.fs.spec, t.direction == Failover))
  {
    hide SM.PointsAt, SM.WellShaped;
  }

  /** The update serves the snapshotted address and only then moves on. */
  lemma UpdateLaw(cfg: Config, c: Cluster, e: Env)
    requires Inv(c) && Convergence.Unclaimed(c) && Looks(cfg, c, e) && e.serviceWrites >= 4
    requires c.fs.status.transition.Some? && c.fs.status.transition.value.phase == UpdatingResources
    ensures var t, d := c.fs.status.transition.value, Reconcile(cfg, c, e).cluster;
            && Traffic.At(d) == t.newAddress
            && d.fs.status.transition ==
               Some(if e.statusWrite then t.(phase := FlushingConnections, index := 0) else t)
  {
    hide SM.ReconcileWithAddress, SM.PointsAt, SM.WellShaped;
    var a := NewAddress(cfg, c.fs.spec, c.fs.status.transition.value);
    Convergence.ServiceWriteSucceeds(c.fs.uid, c.fs.spec.ports, c.store, a, e.serviceWrites);
    SM.SuccessSettles(c.fs.uid, c.fs.spec.ports, c.store, a, e.serviceWrites);
  }

  // ----- One action -----

  /** The deadline of the waiting kinds has passed: what the action sets, or 300 seconds. */
  predicate TimedOutBy(a: Action, r: ActionResult, now: Time) {
    r.startedAt.Some? &&
    match a.kind
    case WaitReady(Some(x)) => now > r.startedAt.value + x
    case WaitReady(None) => now > r.startedAt.value + 300
    case Scale(true, Some(x)) => now > r.startedAt.value + x
    case Scale(true, None) => now > r.startedAt.value + 300
    case WaitRemote(_, _, Some(x)) => now > r.startedAt.value + x
    case WaitRemote(_, _, None) => now > r.startedAt.value + 300
    case _ => false
  }

  /** What an executor's answer makes of a running result. */
  predicate AnswerLaw(a: Action, r: ActionResult, x: ExecResult, now: Time, q: ActionResult) {
    && q.name == r.name && q.startedAt == r.startedAt
    && match x
       case ExecResult(true, true, job, message) =>
         && q.status == Succeeded && q.completedAt == Some(now)
         && q.jobName == job && q.note == FromExecutor(message) && q.retryCount == r.retryCount
       case ExecResult(true, false, job, message) =>
         && q.status == Failed && q.completedAt == Some(now)
         && q.jobName == job && q.note == FromExecutor(message) && q.retryCount == r.retryCount
       case ExecResult(false, _, job, message) =>
         && q.status == Running && q.completedAt == r.completedAt
         && q.jobName == job && q.note == FromExecutor(message) && q.retryCount == r.retryCount
       case ExecError =>
         var exhausted := r.retryCount + 1 > match a.maxRetries { case Some(n) => n case None => 5 };
         && q.retryCount == r.retryCount + 1 && q.jobName == r.jobName
         && (q.status == Failed <==> exhausted) && (q.status == Running <==> !exhausted)
         && q.completedAt == (if exhausted then Some(now) else r.completedAt)
         && q.note == if exhausted then RetriesExhausted else Retrying
  }

  /** `u` is `t` up to the cursor and the result `q` that it was at. */
  predicate OnlyAtCursor(t: Transition, u: Transition, isPre: bool, q: ActionResult, next: int)
    requires 0 <= t.index < |Results(t, isPre)|
  {
    u == (if isPre then t.(pre := t.pre[t.index := q], index := next) else t.(post := t.post[t.index := q], index := next))
  }

  /** What one reconcile whose write lands makes of the action at the cursor. */
  predicate CursorLaw(actions: seq<Action>, t: Transition, isPre: bool, e: Env, u: Transition)
    requires 0 <= t.index < |Results(t, isPre)| && t.index < |actions|
  {
    var a, r := actions[t.index], Results(t, isPre)[t.index];
    match r.status
    case Succeeded => u == t.(index := t.index + 1)
    case Skipped => u == t.(index := t.index + 1)
    case Failed =>
      if a.ignoreFailure then OnlyAtCursor(t, u, isPre, r.(status := Skipped, completedAt := Some(e.now)), t.index + 1)
      else u == t
    case Pending => OnlyAtCursor(t, u, isPre, r.(status := Running, startedAt := Some(e.now)), t.index)
    case Running =>
      if TimedOutBy(a, r, e.now) then
        OnlyAtCursor(t, u, isPre, r.(status := Failed, completedAt := Some(e.now), note := TimedOut), t.index)
      else
        && |Results(u, isPre)| == |Results(t, isPre)|
        && var q := Results(u, isPre)[t.index];
        && AnswerLaw(a, r, e.exec, e.now, q)
        && OnlyAtCursor(t, u, isPre, q, if q.status == Succeeded then t.index + 1 else t.index)
  }

  lemma OverdueIsTimedOut(a: Action, r: ActionResult, now: Time)
    ensures Overdue(a, r, now) <==> TimedOutBy(a, r, now)
  {
  }

  lemma ExecutedIsLawful(a: Action, r: ActionResult, x: ExecResult, now: Time)
    requires r.status == Running
    ensures AnswerLaw(a, r, x, now, Executed(a, r, x, now))
  {
  }

  lemma DecideIsLawful(actions: seq<Action>, t: Transition, isPre: bool, e: Env)
    requires 0 <= t.index < |Results(t, isPre)| && t.index < |actions|
    ensures match Decide(actions, t, isPre, e.now)
            case Commit(u) => CursorLaw(actions, t, isPre, e, u)
            case HaltOnFailure(u) => CursorLaw(actions, t, isPre, e, u) && u == t
            case Execute(a) =>
              && a == actions[t.index] && Results(t, isPre)[t.index].status == Running
              && !TimedOutBy(a, Results(t, isPre)[t.index], e.now)
              && CursorLaw(actions, t, isPre, e, AfterExecution(t, isPre, a, e.exec, e.now))
            case Finish => false
    ensures Decide(actions, t, isPre, e.now).Execute? <==>
              Results(t, isPre)[t.index].status == Running
              && !TimedOutBy(actions[t.index], Results(t, isPre)[t.index], e.now)
  {
    var a, r := actions[t.index], Results(t, isPre)[t.index];
    OverdueIsTimedOut(a, r, e.now);
    hide TimedOutBy, Overdue, AnswerLaw;
    if r.status == Running {
      ExecutedIsLawful(a, r, e.exec, e.now);
      hide Executed;
    }
  }

  /** Such a reconcile is its action phase. */
  lemma ReachesActions(cfg: Config, c: Cluster, e: Env, isPre: bool)
    requires Looks(cfg, c, e) && c.fs.status.transition.Some? && c.fs.status.transition.value.phase == PhaseOf(isPre)
    ensures Reconcile(cfg, c, e) == ExecuteActionPhase(cfg, Stamped(cfg, c), isPre, e)
  {
    hide ExecuteActionPhase;
  }

  /**
   * While the own hook list still names an action at the cursor, that action is handled: executed exactly
   * if it is running and in time, and persisted as its status, the clock and the answer demand.
   */
  lemma ActionLaw(cfg: Config, c: Cluster, e: Env, isPre: bool)
    requires Inv(c) && Looks(cfg, c, e)
    requires c.fs.status.transition.Some? && c.fs.status.transition.value.phase == PhaseOf(isPre)
    requires var t := c.fs.status.transition.value;
             t.index < |OwnActions(cfg.role, c.fs.spec, t.direction, isPre)| && t.index < |Results(t, isPre)|
    ensures var t, o := c.fs.status.transition.value, Reconcile(cfg, c, e);
            var actions := OwnActions(cfg.role, c.fs.spec, t.direction, isPre);
            var running := Results(t, isPre)[t.index].status == Running
                           && !TimedOutBy(actions[t.index], Results(t, isPre)[t.index], e.now);
            && o.cluster.fs.status.transition.Some? && !o.completed
            && (e.statusWrite ==> CursorLaw(actions, t, isPre, e, o.cluster.fs.status.transition.value))
            && (!e.statusWrite ==> o.cluster.fs.status == c.fs.status)
            && o.calls == if running then NoCalls.(exec := Some(ExecCall(actions[t.index], isPre, t.index, t))) else NoCalls
  {
    var t := c.fs.status.transition.value;
    ReachesActions(cfg, c, e, isPre);
    LookupsAreOwn(cfg, c.fs.spec, t.direction, isPre, true);
    DecideIsLawful(OwnActions(cfg.role, c.fs.spec, t.direction, isPre), t, isPre, e);
    hide Reconcile, ActionsFor, OwnActions, Decide, AfterExecution, CursorLaw, TimedOutBy, UpdateEvent, Complete;
  }

  /** Past the own list, or past the results, the phase ends: with the update, or with the completion. */
  lemma ActionsEnd(cfg: Config, c: Cluster, e: Env, isPre: bool)
    requires Inv(c) && Looks(cfg, c, e)
    requires c.fs.status.transition.Some? && c.fs.status.transition.value.phase == PhaseOf(isPre)
    requires var t := c.fs.status.transition.value;
             t.index >= |OwnActions(cfg.role, c.fs.spec, t.direction, isPre)| || t.index >= |Results(t, isPre)|
    ensures var t, o := c.fs.status.transition.value, Reconcile(cfg, c, e);
            if isPre then
              && o.calls == NoCalls
              && o.cluster.fs.status == (if e.statusWrite
                 then c.fs.status.(transition := Some(t.(phase := UpdatingResources, index := 0))) else c.fs.status)
            else o == Complete(cfg, Stamped(cfg, c), t, NoCalls, e)
  {
    var t := c.fs.status.transition.value;
    ReachesActions(cfg, c, e, isPre);
    LookupsAreOwn(cfg, c.fs.spec, t.direction, isPre, true);
    hide Reconcile, ActionsFor, OwnActions, UpdateEvent, Complete;
  }

  // ----- Flush -----

  /** How one reconcile flushes: what it asks, what it persists, and when it goes on. */
  lemma FlushLaw(cfg: Config, c: Cluster, e: Env)
    requires Inv(c) && Looks(cfg, c, e)
    requires c.fs.status.transition.Some? && c.fs.status.transition.value.phase == FlushingConnections
    ensures var t, o := c.fs.status.transition.value, Reconcile(cfg, c, e);
            var kills := cfg.signaler && t.oldAddress.value.IsIP();
            var ck := t.connectionKill;
            var signal := if kills && ck.None? then Some(SignalCall(t.oldAddress.value, e.token)) else None;
            var acks := if kills && ck.Some? then Some(AckCall(ck.value.token, ck.value.expectedNodes)) else None;
            var calls := NoCalls.(signal := signal, acks := acks);
            if !kills then GoesOn(cfg, c, t, calls, e, o)
            else if ck.None? then
              match e.signal
              case SignalError => o == Outcome(Stamped(cfg, c), calls, false)
              case Signaled(nodes) =>
                if nodes == [] then GoesOn(cfg, c, t, calls, e, o)
                else
                  var u := t.(connectionKill := Some(ConnectionKill(true, e.token, nodes, [])));
                  o == Outcome(Save(Stamped(cfg, c), u, e.statusWrite), calls, false)
            else
              match e.acks
              case AckError => o == Outcome(Stamped(cfg, c), calls, false)
              case Acks(all, acked) =>
                var u := t.(connectionKill := Some(ck.value.(ackedNodes := acked)));
                if all then GoesOn(cfg, c, u, calls, e, o) else o == Outcome(Save(Stamped(cfg, c), u, e.statusWrite), calls, false)
  {
    LookupsAreOwn(cfg, c.fs.spec, c.fs.status.transition.value.direction, false, true);
    hide Complete, ActionsFor, OwnActions;
  }

  /** After the flush: the own post-actions if there are any, or else the completion. */
  predicate GoesOn(cfg: Config, c: Cluster, t: Transition, calls: Calls, e: Env, o: Outcome) {
    if OwnActions(cfg.role, c.fs.spec, t.direction, false) != [] then
      o == Outcome(Save(Stamped(cfg, c), t.(phase := ExecutingPostActions, index := 0), e.statusWrite), calls, false)
    else o == Complete(cfg, Stamped(cfg, c), t, calls, e)
  }

  // ----- Completion, steady state and adoption -----

  /** The stored status after a remote winner was adopted: its rank and cluster, with the old value as baseline. */
  predicate AdoptedFrom(before: Status, after: Status, r: RemoteState, previous: bool) {
    && after.activeGeneration == r.activeGeneration
    && after.specChangeTime == r.specChangeTime
    && after.activeCluster == (if r.activeCluster == "" then before.activeCluster else r.activeCluster)
    && after.lastKnown == Some(previous)
  }

  /** A completion: what it removes and passes to Sync, and what its writes persist. */
  lemma CompletionLaw(cfg: Config, c: Cluster, t: Transition, calls: Calls, e: Env)
    ensures var o, done := Complete(cfg, c, t, calls, e), t.direction == Failover;
            && o.calls.cleanup == cfg.signaler && o.calls.jobs == Some(JobNames(t.pre + t.post))
            && o.calls.sync == (if cfg.syncer
               then Some(SyncView(c.fs.spec.failoverActive, c.fs.status.activeGeneration + 1, c.fs.status.specChangeTime)) else None)
            && (if cfg.syncer && e.sync.RemoteWins? then
                  var r := e.sync.state;
                  && (o.completed <==> e.specWrite && e.adoptWrite)
                  && o.cluster.fs.spec.failoverActive == (if e.specWrite then r.failoverActive else c.fs.spec.failoverActive)
                  && (!o.completed ==> o.cluster.fs.status == c.fs.status)
                  && (o.completed ==>
                        && AdoptedFrom(c.fs.status, o.cluster.fs.status, r, done)
                        && (o.cluster.fs.status.transition.Some? <==> done != r.failoverActive && e.beginWrite))
                else
                  && (o.completed <==> e.statusWrite)
                  && o.cluster.fs.spec == c.fs.spec
                  && o.cluster.fs.status == (if o.completed
                     then Status(Some(done), c.fs.status.specChangeTime, c.fs.status.activeGeneration + 1, cfg.id, None)
                     else c.fs.status))
  {
    hide NewTransition, CreateEvent, UpdateEvent, JobNames;
  }

  /** The jobs that a completion removes are all that are recorded, and no others. */
  lemma {:induction false} JobsAreRecorded(rs: seq<ActionResult>, name: string)
    ensures name in JobNames(rs) <==> name != "" && exists i :: 0 <= i < |rs| && rs[i].jobName == name
  {
    if rs != [] {
      var init := rs[..|rs| - 1];
      JobsAreRecorded(init, name);
      assert rs == init + [rs[|rs| - 1]];
    }
  }

  /** At rest without a pending flip: what is passed to Sync and what is persisted. */
  lemma SteadyLaw(cfg: Config, c: Cluster, e: Env)
    requires Inv(c) && Convergence.Unclaimed(c) && Looks(cfg, c, e) && e.serviceWrites >= 4
    requires c.fs.status.transition.None? && !FlipPending(c.fs)
    ensures var o, active := Reconcile(cfg, c, e), c.fs.spec.failoverActive;
            && o.calls == NoCalls.(sync := if cfg.syncer
               then Some(SyncView(active, c.fs.status.activeGeneration, c.fs.status.specChangeTime)) else None)
            && (if cfg.syncer && e.sync.RemoteWins? then
                  var r := e.sync.state;
                  && o.cluster.fs.spec.failoverActive == (if e.specWrite then r.failoverActive else active)
                  && (!e.specWrite || !e.adoptWrite ==> o.cluster.fs.status == c.fs.status)
                  && (e.specWrite && e.adoptWrite ==>
                        && AdoptedFrom(c.fs.status, o.cluster.fs.status, r, active)
                        && (o.cluster.fs.status.transition.Some? <==> active != r.failoverActive && e.beginWrite))
                else
                  && o.cluster.fs.spec == c.fs.spec
                  && o.cluster.fs.status == if e.statusWrite then c.fs.status.(lastKnown := Some(active)) else c.fs.status)
  {
    hide SM.ReconcileWithAddress, NewTransition, CreateEvent;
    Convergence.ServiceWriteSucceeds(c.fs.uid, c.fs.spec.ports, c.store,
                                     Resolve(cfg, c.fs.spec, c.fs.spec.failoverActive), e.serviceWrites);
  }

  /** In the pair, an adoption makes the two clusters equal in value, generation and time of change. */
  lemma AdoptionAgrees(setup: Pair.Setup, w: Pair.World, l: Pair.WorldLabel)
    requires setup.Valid() && l.Reconciling? && Pair.Enabled(setup, w, l) && Inv(w.Of(l.side))
    requires l.env.specWrite && l.env.adoptWrite
    requires var o := Reconcile(setup.Of(l.side), w.Of(l.side), l.env); o.calls.sync.Some? && l.env.sync.RemoteWins?
    ensures var v := Pair.WorldStep(setup, w, l);
            var mine, theirs := v.Of(l.side).fs, v.Of(Pair.Other(l.side)).fs;
            && theirs == w.Of(Pair.Other(l.side)).fs
            && mine.spec.failoverActive == theirs.spec.failoverActive
            && Syncer.RankOf(mine).generation == Syncer.RankOf(theirs).generation
            && Syncer.RankOf(mine).time == Syncer.RankOf(theirs).time
            && mine.status.activeCluster ==
               (if theirs.status.activeCluster == "" then w.Of(l.side).fs.status.activeCluster else theirs.status.activeCluster)
  {
    hide Reconcile;
    var cfg, c := setup.Of(l.side), w.Of(l.side);
    if c.fs.clusterID == cfg.id || l.env.idWrite {
      AdoptionLands(cfg, c, l.env);
    } else {
      NothingUnstamped(cfg, c, l.env);
    }
  }

  /** The value that an adoption keeps as its baseline. */
  function Previous(c: Cluster): bool {
    match c.fs.status.transition
    case Some(t) => t.direction == Failover
    case None => c.fs.spec.failoverActive
  }

  /** The ID is kept, and if a remote winner was adopted, it is what is stored. */
  predicate AdoptsRight(c: Cluster, o: Outcome, e: Env) {
    && o.cluster.fs.clusterID == c.fs.clusterID
    && (o.calls.sync.Some? && e.sync.RemoteWins? && e.specWrite && e.adoptWrite ==>
          && o.cluster.fs.spec.failoverActive == e.sync.state.failoverActive
          && AdoptedFrom(c.fs.status, o.cluster.fs.status, e.sync.state, Previous(c)))
  }

  lemma CompletionAdopts(cfg: Config, c: Cluster, t: Transition, calls: Calls, e: Env)
    requires c.fs.status.transition.Some? && c.fs.status.transition.value.direction == t.direction && calls.sync.None?
    ensures AdoptsRight(c, Complete(cfg, c, t, calls, e), e)
  {
    hide NewTransition, CreateEvent, UpdateEvent, JobNames;
  }

  lemma ActionsAdopt(cfg: Config, c: Cluster, isPre: bool, e: Env)
    requires c.fs.status.transition.Some?
    ensures AdoptsRight(c, ExecuteActionPhase(cfg, c, isPre, e), e)
  {
    hide Complete, Decide, AfterExecution, UpdateEvent;
    CompletionAdopts(cfg, c, c.fs.status.transition.value, NoCalls, e);
  }

  lemma FlushAdopts(cfg: Config, c: Cluster, e: Env)
    requires c.fs.status.transition.Some?
    ensures AdoptsRight(c, FlushConnections(cfg, c, e), e)
  {
    hide Complete;
    var d := c.fs.status.transition.value.direction;
    forall t: Transition, calls: Calls | t.direction == d && calls.sync.None? ensures AdoptsRight(c, Complete(cfg, c, t, calls, e), e) {
      CompletionAdopts(cfg, c, t, calls, e);
    }
  }

  lemma IdleAdopts(cfg: Config, c: Cluster, e: Env)
    requires c.fs.status.transition.None?
    ensures AdoptsRight(c, ReconcileIdle(cfg, c, e), e)
  {
    hide NewTransition, CreateEvent, SM.ReconcileWithAddress;
  }

  /** Wherever in a reconcile a remote winner is adopted, and whoever looked at the object before. */
  lemma AdoptionLands(cfg: Config, c: Cluster, e: Env)
    requires Inv(c) && (c.fs.clusterID == cfg.id || e.idWrite)
    ensures AdoptsRight(Stamped(cfg, c), Reconcile(cfg, c, e), e) && Reconcile(cfg, c, e).cluster.fs.clusterID == cfg.id
  {
    hide ExecuteActionPhase, FlushConnections, ReconcileIdle, SM.ReconcileWithAddress, UpdateEvent, Advanced;
    var d := Stamped(cfg, c);
    if c.fs.status.transition.Some? {
      ActionsAdopt(cfg, d, c.fs.status.transition.value.phase == ExecutingPreActions, e);
      FlushAdopts(cfg, d, e);
    } else {
      IdleAdopts(cfg, d, e);
    }
  }

  /** Without the annotation nothing happens at all. */
  lemma NothingUnstamped(cfg: Config, c: Cluster, e: Env)
    requires c.fs.clusterID != cfg.id && !e.idWrite
    ensures Reconcile(cfg, c, e) == Outcome(c, NoCalls, false)
  {
  }

  // ----- Force-advance -----

  /** The action at the cursor, if there is one, is skipped on the operator's account. */
  predicate SkippedByOperator(t: Transition, isPre: bool, now: Time, u: Transition) {
    if 0 <= t.index < |Results(t, isPre)| then
      OnlyAtCursor(t, u, isPre,
        Results(t, isPre)[t.index].(status := Skipped, completedAt := Some(now), note := ForcedByOperator), t.index + 1)
    else u == t
  }

  /** A force-advance moves the transition by one action or one phase, and does nothing else to it. */
  lemma ForceLaw(cfg: Config, c: Cluster, e: Env)
    requires Inv(c) && c.fs.forceAdvance && (c.fs.clusterID == cfg.id || e.idWrite)
    ensures var o := Reconcile(cfg, c, e);
            && o.calls == NoCalls && !o.completed && o.cluster.store == c.store && o.cluster.fs.spec == c.fs.spec
            && match c.fs.status.transition
               case None => o.cluster.fs.status == c.fs.status && (o.cluster.fs.forceAdvance <==> !e.annotationWrite)
               case Some(t) =>
                 && (o.cluster.fs.forceAdvance <==> !e.statusWrite || !e.annotationWrite)
                 && (!e.statusWrite ==> o.cluster.fs.status == c.fs.status)
                 && (e.statusWrite ==>
                       && o.cluster.fs.status.transition.Some?
                       && var u := o.cluster.fs.status.transition.value;
                       && o.cluster.fs.status == c.fs.status.(transition := Some(u))
                       && match t.phase
                          case Idle => u == t
                          case ExecutingPreActions => SkippedByOperator(t, true, e.now, u)
                          case UpdatingResources => u == t.(phase := FlushingConnections, index := 0)
                          case FlushingConnections => u == t.(phase := ExecutingPostActions, index := 0)
                          case ExecutingPostActions => SkippedByOperator(t, false, e.now, u))
  {
    hide UpdateEvent;
  }

  // ----- Four different addresses -----

  function FourAddresses(active: bool): Spec {
    Spec(active, [],
         ClusterTarget(Hostname("east-primary"), Hostname("east-failover"),
                       None, Some(Hooks([Action("demote", Http, false, None)], []))),
         ClusterTarget(Hostname("west-primary"), Hostname("west-failover"),
                       Some(Hooks([Action("promote", Http, false, None)], [])), None))
  }

  function AtRest(active: bool, known: bool): Cluster {
    Cluster(FailoverService("db", "uid", FourAddresses(active), false, "", Status(Some(known), None, 0, "", None)),
            SM.Store(None, None), map[])
  }

  /** Two clusters with one spec: each serves its own address in each mode, and each runs its own hooks. */
  lemma EachByItsRole(e: Env)
    requires e.idWrite && e.serviceWrites >= 4 && e.beginWrite
    ensures forall active :: Traffic.At(Reconcile(Config(PrimaryRole, "east", false, false), AtRest(active, active), e).cluster) ==
              Some(Hostname(if active then "east-failover" else "east-primary"))
    ensures forall active :: Traffic.At(Reconcile(Config(FailoverRole, "west", false, false), AtRest(active, active), e).cluster) ==
              Some(Hostname(if active then "west-failover" else "west-primary"))
    ensures var t := Reconcile(Config(PrimaryRole, "east", false, false), AtRest(false, true), e).cluster.fs.status.transition;
            && t.Some? && t.value.phase == ExecutingPreActions && |t.value.pre| == 1 && t.value.pre[0].name == "demote"
            && t.value.oldAddress == Some(Hostname("east-failover")) && t.value.newAddress == Some(Hostname("east-primary"))
    ensures var t := Reconcile(Config(FailoverRole, "west", false, false), AtRest(false, true), e).cluster.fs.status.transition;
            && t.Some? && t.value.phase == UpdatingResources && t.value.pre == []
            && t.value.oldAddress == Some(Hostname("west-failover")) && t.value.newAddress == Some(Hostname("west-primary"))
  {
    forall role: Role, id: string, active: bool
      ensures Traffic.At(Reconcile(Config(role, id, false, false), AtRest(active, active), e).cluster) ==
              Some(OwnAddress(role, FourAddresses(active), active))
    {
      RestServesOwnAddress(Config(role, id, false, false), AtRest(active, active), e);
    }
    StartsByRole(Config(PrimaryRole, "east", false, false), AtRest(false, true), e);
    StartsByRole(Config(FailoverRole, "west", false, false), AtRest(false, true), e);
    PendingFlipStarts(Config(PrimaryRole, "east", false, false), AtRest(false, true), e);
    PendingFlipStarts(Config(FailoverRole, "west", false, false), AtRest(false, true), e);
    hide Reconcile, SM.PointsAt;
  }
}
