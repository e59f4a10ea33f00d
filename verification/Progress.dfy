/**
 * The transition state machine over whole runs: the action cursor, bounded progress, no bypass of
 * pre-actions, and what a flip of `failoverActive` can and cannot change.
 */
module Progress {
  import opened Api
  import opened Controller
  import SM = ServiceManager

  /** The largest `maxRetries` the API schema admits. */
  const MAX_RETRIES := 50

  predicate ValidActions(actions: seq<Action>) {
    forall i :: 0 <= i < |actions| && actions[i].maxRetries.Some? ==> 0 <= actions[i].maxRetries.value <= MAX_RETRIES
  }

  predicate ValidHooks(h: Option<Hooks>) {
    h.Some? ==> ValidActions(h.value.preActions) && ValidActions(h.value.postActions)
  }

  predicate ValidTarget(target: ClusterTarget) {
    ValidHooks(target.onFailover) && ValidHooks(target.onFailback)
  }

  /** What the API schema guarantees about every stored spec. */
  predicate ValidSpec(spec: Spec) {
    ValidTarget(spec.primaryCluster) && ValidTarget(spec.failoverCluster)
  }

  // ----- The cursor -----

  predicate Finished(r: ActionResult) {
    r.status == Succeeded || r.status == Skipped
  }

  predicate Untouched(r: ActionResult) {
    r.status == Pending && r.retryCount == 0
  }

  predicate AtCursor(r: ActionResult) {
    || Untouched(r)
    || (r.status == Running && r.startedAt.Some? && 0 <= r.retryCount <= MAX_RETRIES)
    || r.status == Failed
  }

  /** Everything before the cursor is finished, everything after it has not been touched. */
  predicate CursorAt(rs: seq<ActionResult>, index: int) {
    && 0 <= index <= |rs|
    && (forall k :: 0 <= k < index ==> Finished(rs[k]))
    && (index < |rs| ==> AtCursor(rs[index]))
    && (forall k :: index < k < |rs| ==> Untouched(rs[k]))
  }

  predicate AllUntouched(rs: seq<ActionResult>) {
    forall k :: 0 <= k < |rs| ==> Untouched(rs[k])
  }

  predicate TransitionInv(t: Transition) {
    && t.eventName == EventName(t.direction, t.transitionID)
    && t.startedAt == Some(t.transitionID)
    && t.oldAddress.Some? && t.newAddress.Some?
    && match t.phase
       case Idle => false
       case ExecutingPreActions => CursorAt(t.pre, t.index) && AllUntouched(t.post) && t.connectionKill.None?
       case UpdatingResources => t.index == 0 && AllUntouched(t.post) && t.connectionKill.None?
       case FlushingConnections => t.index == 0 && AllUntouched(t.post) && (t.connectionKill.Some? ==> t.connectionKill.value.signalSent)
       case ExecutingPostActions => CursorAt(t.post, t.index)
  }

  predicate Inv(c: Cluster) {
    && ValidSpec(c.fs.spec)
    && (c.fs.status.transition.Some? ==> TransitionInv(c.fs.status.transition.value))
  }

  predicate ValidLabel(l: Label) {
    l.Edits? ==> ValidSpec(l.spec)
  }

  /** The same transition, possibly further along. */
  predicate SameTransition(t: Transition, u: Transition) {
    && u.direction == t.direction
    && u.oldAddress == t.oldAddress
    && u.newAddress == t.newAddress
    && u.transitionID == t.transitionID
    && u.startedAt == t.startedAt
    && u.eventName == t.eventName
    && |u.pre| == |t.pre| && |u.post| == |t.post|
  }

  // ----- The measure -----

  /** Commits an action result can still take: it is above 1 until the result failed or finished. */
  function Weight(r: ActionResult): int {
    match r.status
    case Pending => 54
    case Running => 53 - r.retryCount
    case _ => 1
  }

  function PhaseCost(rs: seq<ActionResult>, index: int): int {
    if 0 <= index < |rs| then Weight(rs[index]) + 54 * (|rs| - index - 1) else 0
  }

  /** An upper bound on the control-changing commits left in a transition. */
  function StepsLeft(t: Transition): int {
    match t.phase
    case Idle => 0
    case ExecutingPreActions => PhaseCost(t.pre, t.index) + 54 * |t.post| + 5
    case UpdatingResources => 54 * |t.post| + 4
    case FlushingConnections => 54 * |t.post| + if SignalPending(t) then 3 else 2
    case ExecutingPostActions => PhaseCost(t.post, t.index) + 1
  }

  predicate SameProgress(rs: seq<ActionResult>, qs: seq<ActionResult>) {
    |rs| == |qs| && forall k :: 0 <= k < |rs| ==> rs[k].status == qs[k].status && rs[k].retryCount == qs[k].retryCount
  }

  /** Equal up to messages, times, job names and the list of nodes that acknowledged so far. */
  predicate SameControl(t: Transition, u: Transition) {
    && u.phase == t.phase && u.index == t.index
    && SameProgress(t.pre, u.pre) && SameProgress(t.post, u.post)
    && SignalPending(t) == SignalPending(u)
  }

  /** `u` is `t` or a successor of `t` that cost at least one unit of the measure. */
  predicate Moves(t: Transition, u: Transition) {
    SameTransition(t, u) && (SameControl(t, u) || StepsLeft(u) < StepsLeft(t))
  }

  lemma StepsLeftBounded(t: Transition)
    requires TransitionInv(t)
    ensures 0 < StepsLeft(t) <= 54 * (|t.pre| + |t.post|) + 5
  {
  }

  // ----- One reconcile -----

  lemma HooksAreValid(cfg: Config, spec: Spec, d: Direction, isPre: bool)
    requires ValidSpec(spec)
    ensures ValidActions(ActionsFor(cfg, spec, d, isPre))
  {
  }

  /** The phase a result list belongs to. */
  function PhaseOf(isPre: bool): Phase {
    if isPre then ExecutingPreActions else ExecutingPostActions
  }

  /** Replacing the result at the cursor by a lighter one, possibly moving past it. */
  lemma CursorMoves(rs: seq<ActionResult>, index: int, r: ActionResult, next: int)
    requires CursorAt(rs, index) && index < |rs|
    requires if next == index + 1 then Finished(r) else next == index && AtCursor(r) && Weight(r) < Weight(rs[index])
    ensures CursorAt(rs[index := r], next)
    ensures PhaseCost(rs[index := r], next) < PhaseCost(rs, index)
  {
  }

  lemma DecideMoves(actions: seq<Action>, t: Transition, isPre: bool, now: Time)
    requires TransitionInv(t) && t.phase == PhaseOf(isPre)
    ensures match Decide(actions, t, isPre, now)
            case Commit(u) =>
              && TransitionInv(u) && SameTransition(t, u) && StepsLeft(u) < StepsLeft(t)
              && (!isPre ==> u.pre == t.pre && u.phase == t.phase)
            case HaltOnFailure(u) => u == t
            case Execute(a) =>
              && t.index < |Results(t, isPre)| && t.index < |actions|
              && a == actions[t.index]
              && Results(t, isPre)[t.index].status == Running
            case Finish => !isPre
  {
    var i, rs := t.index, Results(t, isPre);
    if i < |actions| && i < |rs| {
      match rs[i].status {
        case Failed => CursorMoves(rs, i, rs[i].(status := Skipped, completedAt := Some(now)), i + 1);
        case Pending => CursorMoves(rs, i, rs[i].(status := Running, startedAt := Some(now)), i);
        case Running => CursorMoves(rs, i, rs[i].(status := Failed, completedAt := Some(now), note := TimedOut), i);
        case _ =>
      }
    }
  }

  lemma ExecutionMoves(t: Transition, isPre: bool, a: Action, x: ExecResult, now: Time)
    requires TransitionInv(t) && t.phase == PhaseOf(isPre)
    requires t.index < |Results(t, isPre)| && Results(t, isPre)[t.index].status == Running
    requires a.maxRetries.Some? ==> 0 <= a.maxRetries.value <= MAX_RETRIES
    ensures var u := AfterExecution(t, isPre, a, x, now);
            TransitionInv(u) && Moves(t, u) && u.phase == t.phase && (!isPre ==> u.pre == t.pre)
  {
  }

  lemma ForcedMoves(t: Transition, now: Time)
    requires TransitionInv(t)
    ensures TransitionInv(Advanced(t, now)) && Moves(t, Advanced(t, now))
  {
  }

  lemma NewTransitionInv(cfg: Config, spec: Spec, now: Time)
    ensures TransitionInv(NewTransition(cfg, spec, now))
  {
  }

  /** The same object, with the same spec up to `failoverActive`. */
  predicate SameObject(c: Cluster, d: Cluster) {
    && d.fs.uid == c.fs.uid && d.fs.name == c.fs.name
    && (d.fs.forceAdvance ==> c.fs.forceAdvance)
    && d.fs.spec == c.fs.spec.(failoverActive := d.fs.spec.failoverActive)
  }

  predicate PreFrozen(t: Transition, u: Transition) {
    u.pre == t.pre && u.phase != ExecutingPreActions
  }

  /** What a reconcile that finds transition `t` in flight may leave behind. */
  predicate InFlightOutcome(cfg: Config, c: Cluster, t: Transition, o: Outcome, now: Time) {
    && Inv(o.cluster)
    && SameObject(c, o.cluster)
    && (!o.completed ==>
          && o.cluster.fs.status.transition.Some?
          && Moves(t, o.cluster.fs.status.transition.value)
          && (t.phase != ExecutingPreActions ==> PreFrozen(t, o.cluster.fs.status.transition.value))
          && o.cluster.fs.status == c.fs.status.(transition := o.cluster.fs.status.transition))
    && (o.completed ==>
          && t.phase in {FlushingConnections, ExecutingPostActions}
          && o.cluster.fs.status.lastKnown == Some(t.direction == Failover)
          && (o.cluster.fs.status.transition.Some? ==>
                var u := o.cluster.fs.status.transition.value;
                u == NewTransition(cfg, o.cluster.fs.spec, now) && u.direction != t.direction))
  }

  lemma AdoptionOutcome(cfg: Config, c: Cluster, t: Transition, u: Transition, calls: Calls, e: Env)
    requires Inv(c) && c.fs.status.transition == Some(t) && u.direction == t.direction
    requires t.phase in {FlushingConnections, ExecutingPostActions}
    requires e.sync.RemoteWins?
    ensures InFlightOutcome(cfg, c, t, CompleteAdopting(cfg, c, u, calls, e), e.now)
  {
    NewTransitionInv(cfg, SetFailoverActive(c, e.sync.state.failoverActive).fs.spec, e.now);
  }

  lemma CompletionOutcome(cfg: Config, c: Cluster, t: Transition, u: Transition, calls: Calls, e: Env)
    requires Inv(c) && c.fs.status.transition == Some(t) && u.direction == t.direction
    requires t.phase in {FlushingConnections, ExecutingPostActions}
    ensures InFlightOutcome(cfg, c, t, Complete(cfg, c, u, calls, e), e.now)
  {
    if cfg.syncer && e.sync.RemoteWins? {
      AdoptionOutcome(cfg, c, t, u, Complete(cfg, c, u, calls, e).calls, e);
    }
  }

  lemma ActionPhaseOutcome(cfg: Config, c: Cluster, isPre: bool, e: Env)
    requires Inv(c) && c.fs.status.transition.Some? && c.fs.status.transition.value.phase == PhaseOf(isPre)
    ensures InFlightOutcome(cfg, c, c.fs.status.transition.value, ExecuteActionPhase(cfg, c, isPre, e), e.now)
  {
    hide Complete, NewTransition, UpdateEvent, StepsLeft, AfterExecution, Decide, ActionsFor;
    var t := c.fs.status.transition.value;
    var actions := ActionsFor(cfg, c.fs.spec, t.direction, isPre);
    DecideMoves(actions, t, isPre, e.now);
    HooksAreValid(cfg, c.fs.spec, t.direction, isPre);
    match Decide(actions, t, isPre, e.now) {
      case Commit(u) =>
      case HaltOnFailure(u) =>
      case Execute(a) => ExecutionMoves(t, isPre, a, e.exec, e.now);
      case Finish => CompletionOutcome(cfg, c, t, t, NoCalls, e);
    }
  }

  lemma AfterFlushOutcome(cfg: Config, c: Cluster, t: Transition, ck: Option<ConnectionKill>, calls: Calls, e: Env)
    requires Inv(c) && c.fs.status.transition == Some(t) && t.phase == FlushingConnections
    ensures InFlightOutcome(cfg, c, t, AfterFlush(cfg, c, t.(connectionKill := ck), calls, e), e.now)
  {
    var u := t.(connectionKill := ck);
    if ActionsFor(cfg, c.fs.spec, t.direction, false) == [] {
      CompletionOutcome(cfg, c, t, u, calls, e);
    }
  }

  lemma FlushOutcome(cfg: Config, c: Cluster, e: Env)
    requires Inv(c) && c.fs.status.transition.Some? && c.fs.status.transition.value.phase == FlushingConnections
    ensures InFlightOutcome(cfg, c, c.fs.status.transition.value, FlushConnections(cfg, c, e), e.now)
  {
    hide AfterFlush, NewTransition;
    var t := c.fs.status.transition.value;
    if !KillApplies(cfg, c.fs.spec, t) {
      AfterFlushOutcome(cfg, c, t, t.connectionKill, NoCalls, e);
    } else if SignalPending(t) {
      AfterFlushOutcome(cfg, c, t, None, NoCalls.(signal := Some(SignalCall(OldAddress(cfg, c.fs.spec, t), e.token))), e);
    } else {
      var ck := t.connectionKill.value;
      if e.acks.Acks? && e.acks.allAcked {
        AfterFlushOutcome(cfg, c, t, Some(ck.(ackedNodes := e.acks.acked)),
                          NoCalls.(acks := Some(AckCall(ck.token, ck.expectedNodes))), e);
      }
    }
  }

  lemma ReconcileInFlight(cfg: Config, c: Cluster, e: Env)
    requires Inv(c) && c.fs.status.transition.Some?
    ensures InFlightOutcome(cfg, c, c.fs.status.transition.value, Reconcile(cfg, c, e), e.now)
  {
    hide FlushConnections, ExecuteActionPhase, NewTransition;
    var stamped := c.(fs := c.fs.(clusterID := cfg.id));
    var t := c.fs.status.transition.value;
    if c.fs.clusterID != cfg.id && !e.idWrite {
    } else if c.fs.forceAdvance {
      ForcedMoves(t, e.now);
    } else {
      match t.phase {
        case ExecutingPreActions => ActionPhaseOutcome(cfg, stamped, true, e);
        case UpdatingResources =>
        case FlushingConnections => FlushOutcome(cfg, stamped, e);
        case ExecutingPostActions => ActionPhaseOutcome(cfg, stamped, false, e);
      }
    }
  }

  /** What a reconcile that finds no transition in flight may leave behind. */
  predicate IdleOutcome(cfg: Config, c: Cluster, o: Outcome, now: Time) {
    && Inv(o.cluster)
    && SameObject(c, o.cluster)
    && !o.completed
    && (c.fs.status.lastKnown.Some? ==> o.cluster.fs.status.lastKnown == c.fs.status.lastKnown)
    && (o.cluster.fs.status.transition.Some? ==>
          && o.cluster.fs.status.transition.value == NewTransition(cfg, o.cluster.fs.spec, now)
          && o.cluster.fs.status.lastKnown == Some(!o.cluster.fs.spec.failoverActive))
  }

  lemma SteadyOutcome(cfg: Config, c: Cluster, e: Env)
    requires Inv(c) && c.fs.status.transition.None? && !FlipPending(c.fs)
    ensures IdleOutcome(cfg, c, SteadyState(cfg, c, e), e.now)
  {
    hide NewTransition, CreateEvent;
    if e.sync.RemoteWins? {
      NewTransitionInv(cfg, SetFailoverActive(c, e.sync.state.failoverActive).fs.spec, e.now);
    }
  }

  lemma ReconcileAtRest(cfg: Config, c: Cluster, e: Env)
    requires Inv(c) && c.fs.status.transition.None?
    ensures IdleOutcome(cfg, c, Reconcile(cfg, c, e), e.now)
  {
    hide NewTransition, CreateEvent, SteadyState, SM.ReconcileWithAddress;
    NewTransitionInv(cfg, c.fs.spec, e.now);
    var stamped := c.(fs := c.fs.(clusterID := cfg.id));
    var address := Resolve(cfg, c.fs.spec, c.fs.spec.failoverActive);
    var attempt := SM.ReconcileWithAddress(c.fs.uid, c.fs.spec.ports, c.store, address, e.serviceWrites);
    if !FlipPending(c.fs) {
      SteadyOutcome(cfg, stamped.(store := attempt.store), e);
    }
  }

  lemma StepKeepsInv(cfg: Config, c: Cluster, l: Label)
    requires Inv(c) && ValidLabel(l)
    ensures Inv(Step(cfg, c, l))
  {
    if l.Reconciles? {
      if c.fs.status.transition.Some? {
        ReconcileInFlight(cfg, c, l.env);
      } else {
        ReconcileAtRest(cfg, c, l.env);
      }
    }
  }

  /** The cursor invariant holds in every state of every run, whatever is edited and whatever fails. */
  lemma {:induction false} RunKeepsInv(cfg: Config, cs: seq<Cluster>, ls: seq<Label>, k: nat)
    requires IsRun(cfg, cs, ls) && Inv(cs[0]) && (forall i :: 0 <= i < |ls| ==> ValidLabel(ls[i]))
    requires k < |cs|
    ensures Inv(cs[k])
  {
    hide Step, Inv;
    if k > 0 {
      RunKeepsInv(cfg, cs, ls, k - 1);
      StepKeepsInv(cfg, cs[k - 1], ls[k - 1]);
    }
  }

  // ----- Bounded progress -----

  predicate Completes(cfg: Config, c: Cluster, l: Label) {
    l.Reconciles? && Reconcile(cfg, c, l.env).completed
  }

  predicate ChangesControl(c: Cluster, d: Cluster)
    requires c.fs.status.transition.Some? && d.fs.status.transition.Some?
  {
    !SameControl(c.fs.status.transition.value, d.fs.status.transition.value)
  }

  /** How many of the first `k` steps changed the control state of the transition. */
  function Changes(cs: seq<Cluster>, k: nat): nat
    requires k < |cs|
    requires forall i :: 0 <= i <= k ==> cs[i].fs.status.transition.Some?
  {
    if k == 0 then 0 else Changes(cs, k - 1) + if ChangesControl(cs[k - 1], cs[k]) then 1 else 0
  }

  lemma SameControlCostsNothing(t: Transition, u: Transition)
    requires SameControl(t, u)
    ensures StepsLeft(t) == StepsLeft(u)
  {
  }

  lemma StepMoves(cfg: Config, c: Cluster, l: Label)
    requires Inv(c) && ValidLabel(l) && c.fs.status.transition.Some? && !Completes(cfg, c, l)
    ensures Inv(Step(cfg, c, l)) && Step(cfg, c, l).fs.status.transition.Some?
    ensures Moves(c.fs.status.transition.value, Step(cfg, c, l).fs.status.transition.value)
  {
    StepKeepsInv(cfg, c, l);
    if l.Reconciles? {
      ReconcileInFlight(cfg, c, l.env);
    }
  }

  /**
   * As long as a transition has not completed it stays the same transition, and all but at most
   * 54 * (number of actions) + 5 steps leave its control state alone: hook edits, crashes, retries
   * and force-advances cannot keep it moving for longer.
   */
  lemma {:induction false} BoundedProgress(cfg: Config, cs: seq<Cluster>, ls: seq<Label>, k: nat)
    requires IsRun(cfg, cs, ls) && Inv(cs[0]) && (forall i :: 0 <= i < |ls| ==> ValidLabel(ls[i]))
    requires cs[0].fs.status.transition.Some?
    requires k < |cs| && forall i :: 0 <= i < k ==> !Completes(cfg, cs[i], ls[i])
    ensures forall i :: 0 <= i <= k ==> cs[i].fs.status.transition.Some?
    ensures var t, u := cs[0].fs.status.transition.value, cs[k].fs.status.transition.value;
            && Inv(cs[k])
            && SameTransition(t, u)
            && Changes(cs, k) + StepsLeft(u) <= StepsLeft(t)
            && Changes(cs, k) < 54 * (|t.pre| + |t.post|) + 5
  {
    hide Step;
    hide Completes;
    hide StepsLeft;
    StepsLeftBounded(cs[0].fs.status.transition.value);
    if k > 0 {
      BoundedProgress(cfg, cs, ls, k - 1);
      var c, l := cs[k - 1], ls[k - 1];
      StepMoves(cfg, c, l);
      StepsLeftBounded(cs[k].fs.status.transition.value);
      if !ChangesControl(c, cs[k]) {
        SameControlCostsNothing(c.fs.status.transition.value, cs[k].fs.status.transition.value);
      }
    }
  }

  // ----- Flips of failoverActive -----

  /**
   * Once the baseline is set, only the persisted completion of a transition changes
   * `LastKnownFailoverActive`, and then to the direction snapshotted when it started. A flip made
   * meanwhile is neither absorbed nor applied early: it is pending after the completion exactly when
   * the spec differs from that direction, unless a transition for it was started on the spot.
   */
  lemma FlipsAreNotAbsorbed(cfg: Config, c: Cluster, l: Label)
    requires Inv(c) && ValidLabel(l) && c.fs.status.lastKnown.Some?
    ensures var d := Step(cfg, c, l);
            && (!Completes(cfg, c, l) ==> d.fs.status.lastKnown == c.fs.status.lastKnown)
            && (Completes(cfg, c, l) ==>
                  && c.fs.status.transition.Some?
                  && var toFailover := c.fs.status.transition.value.direction == Failover;
                  && d.fs.status.lastKnown == Some(toFailover)
                  && (FlipPending(d.fs) <==> d.fs.spec.failoverActive != toFailover)
                  && (d.fs.status.transition.Some? ==>
                        && FlipPending(d.fs)
                        && d.fs.status.transition.value.direction == DirectionOf(d.fs.spec.failoverActive)))
  {
    if l.Reconciles? {
      if c.fs.status.transition.Some? {
        ReconcileInFlight(cfg, c, l.env);
      } else {
        ReconcileAtRest(cfg, c, l.env);
      }
    }
  }

  /** A pending flip found at rest starts its transition before the Service is touched. */
  lemma PendingFlipStarts(cfg: Config, c: Cluster, e: Env)
    requires c.fs.status.transition.None? && FlipPending(c.fs) && !c.fs.forceAdvance
    requires c.fs.clusterID == cfg.id || e.idWrite
    ensures var d := Reconcile(cfg, c, e).cluster;
            && d.store == c.store
            && Reconcile(cfg, c, e).calls == NoCalls
            && (d.fs.status.transition.Some? <==> e.beginWrite)
            && (e.beginWrite ==>
                  && d.fs.status.transition.value.direction == DirectionOf(c.fs.spec.failoverActive)
                  && d.fs.status.transition.value.oldAddress == Some(Resolve(cfg, c.fs.spec, c.fs.status.lastKnown.value))
                  && d.fs.status.transition.value.newAddress == Some(Resolve(cfg, c.fs.spec, c.fs.spec.failoverActive))
                  && d.fs.status.specChangeTime == Some(e.now))
  {
  }

  // ----- Persist before execute -----

  lemma OnlyActionPhasesExecute(cfg: Config, c: Cluster, e: Env)
    requires c.fs.status.transition.Some? ==>
               c.fs.status.transition.value.phase !in {ExecutingPreActions, ExecutingPostActions}
    ensures Reconcile(cfg, c, e).calls.exec.None?
  {
    hide ExecuteActionPhase, UpdateEvent, Begin, SM.ReconcileWithAddress, JobNames;
  }

  predicate RunningInStatus(c: Cluster, call: ExecCall) {
    && c.fs.status.transition == Some(call.transition)
    && call.index == call.transition.index
    && call.transition.phase == PhaseOf(call.isPre)
    && 0 <= call.index < |Results(call.transition, call.isPre)|
    && Results(call.transition, call.isPre)[call.index].status == Running
    && Results(call.transition, call.isPre)[call.index].startedAt.Some?
  }

  predicate NamedByHooks(cfg: Config, c: Cluster, call: ExecCall) {
    var actions := ActionsFor(cfg, c.fs.spec, call.transition.direction, call.isPre);
    0 <= call.index < |actions| && call.action == actions[call.index]
  }

  lemma ActionPhaseExecutes(cfg: Config, c: Cluster, isPre: bool, e: Env)
    requires Inv(c) && c.fs.status.transition.Some? && c.fs.status.transition.value.phase == PhaseOf(isPre)
    requires ExecuteActionPhase(cfg, c, isPre, e).calls.exec.Some?
    ensures var call := ExecuteActionPhase(cfg, c, isPre, e).calls.exec.value;
            RunningInStatus(c, call) && NamedByHooks(cfg, c, call) && call.isPre == isPre
  {
    var t := c.fs.status.transition.value;
    var actions := ActionsFor(cfg, c.fs.spec, t.direction, isPre);
    DecideMoves(actions, t, isPre, e.now);
    assert Decide(actions, t, isPre, e.now).Execute?;
  }

  /** An executor is only ever called for the action that the stored status shows as running. */
  lemma PersistedBeforeExecuted(cfg: Config, c: Cluster, e: Env)
    requires Inv(c) && Reconcile(cfg, c, e).calls.exec.Some?
    ensures var call := Reconcile(cfg, c, e).calls.exec.value; RunningInStatus(c, call) && NamedByHooks(cfg, c, call)
  {
    var stamped := c.(fs := c.fs.(clusterID := cfg.id));
    if c.fs.status.transition.Some? && c.fs.status.transition.value.phase == ExecutingPreActions {
      ActionPhaseExecutes(cfg, stamped, true, e);
    } else if c.fs.status.transition.Some? && c.fs.status.transition.value.phase == ExecutingPostActions {
      ActionPhaseExecutes(cfg, stamped, false, e);
    } else {
      OnlyActionPhasesExecute(cfg, c, e);
    }
  }

  // ----- No bypass of pre-actions -----

  predicate SameHooks(s: Spec, r: Spec) {
    && s.primaryCluster.onFailover == r.primaryCluster.onFailover
    && s.primaryCluster.onFailback == r.primaryCluster.onFailback
    && s.failoverCluster.onFailover == r.failoverCluster.onFailover
    && s.failoverCluster.onFailback == r.failoverCluster.onFailback
  }

  predicate HooksUnedited(spec: Spec, ls: seq<Label>) {
    forall i :: 0 <= i < |ls| && ls[i].Edits? ==> SameHooks(spec, ls[i].spec)
  }

  /** How an action may be passed: it succeeded, its failure is ignored, or an operator skipped it. */
  predicate Honored(a: Action, r: ActionResult) {
    r.status == Succeeded || (r.status == Skipped && (a.ignoreFailure || r.note == ForcedByOperator))
  }

  predicate HonoredUpTo(actions: seq<Action>, rs: seq<ActionResult>, n: int) {
    && |rs| == |actions|
    && forall k :: 0 <= k < n <= |rs| ==> Honored(actions[k], rs[k])
  }

  predicate PreActionsHonored(cfg: Config, c: Cluster) {
    c.fs.status.transition.Some? ==>
      var t := c.fs.status.transition.value;
      HonoredUpTo(ActionsFor(cfg, c.fs.spec, t.direction, true), t.pre,
                  if t.phase == ExecutingPreActions then t.index else |t.pre|)
  }

  lemma StepHonorsPreActions(cfg: Config, c: Cluster, l: Label)
    requires Inv(c) && ValidLabel(l) && PreActionsHonored(cfg, c)
    requires l.Edits? ==> SameHooks(c.fs.spec, l.spec)
    ensures PreActionsHonored(cfg, Step(cfg, c, l))
    ensures SameHooks(c.fs.spec, Step(cfg, c, l).fs.spec)
  {
    hide Reconcile;
    if l.Reconciles? {
      if c.fs.status.transition.None? {
        ReconcileAtRest(cfg, c, l.env);
      } else {
        ReconcileInFlight(cfg, c, l.env);
        InFlightHonorsPreActions(cfg, c, l.env);
      }
    }
  }

  lemma DecideHonors(actions: seq<Action>, t: Transition, now: Time)
    requires TransitionInv(t) && t.phase == ExecutingPreActions && HonoredUpTo(actions, t.pre, t.index)
    ensures match Decide(actions, t, true, now)
            case Commit(u) => HonoredUpTo(actions, u.pre, if u.phase == ExecutingPreActions then u.index else |u.pre|)
            case _ => true
  {
  }

  lemma ExecutionHonors(actions: seq<Action>, t: Transition, a: Action, x: ExecResult, now: Time)
    requires TransitionInv(t) && t.phase == ExecutingPreActions && t.index < |t.pre|
    requires t.pre[t.index].status == Running && HonoredUpTo(actions, t.pre, t.index)
    ensures var u := AfterExecution(t, true, a, x, now);
            HonoredUpTo(actions, u.pre, u.index) && u.phase == ExecutingPreActions && u.direction == t.direction
  {
  }

  lemma InFlightHonorsPreActions(cfg: Config, c: Cluster, e: Env)
    requires Inv(c) && PreActionsHonored(cfg, c) && c.fs.status.transition.Some?
    ensures PreActionsHonored(cfg, Reconcile(cfg, c, e).cluster)
  {
    var t := c.fs.status.transition.value;
    ReconcileInFlight(cfg, c, e);
    if t.phase == ExecutingPreActions {
      PrePhaseHonors(cfg, c, e);
    } else {
      hide Reconcile;
    }
  }

  lemma PrePhaseHonors(cfg: Config, c: Cluster, e: Env)
    requires Inv(c) && PreActionsHonored(cfg, c)
    requires c.fs.status.transition.Some? && c.fs.status.transition.value.phase == ExecutingPreActions
    ensures PreActionsHonored(cfg, Reconcile(cfg, c, e).cluster)
  {
    hide Complete, UpdateEvent, AfterExecution, Decide, StepsLeft, ActionsFor;
    var t := c.fs.status.transition.value;
    var actions := ActionsFor(cfg, c.fs.spec, t.direction, true);
    DecideMoves(actions, t, true, e.now);
    DecideHonors(actions, t, e.now);
    if Decide(actions, t, true, e.now).Execute? {
      ExecutionHonors(actions, t, actions[t.index], e.exec, e.now);
    }
  }

  /**
   * With unedited hooks, in every state of every run every pre-action before the cursor, and every
   * pre-action at all once the resources are being updated, has succeeded, is allowed to fail, or was
   * skipped by an operator.
   */
  lemma {:induction false} NoBypass(cfg: Config, cs: seq<Cluster>, ls: seq<Label>, k: nat)
    requires IsRun(cfg, cs, ls) && Inv(cs[0]) && (forall i :: 0 <= i < |ls| ==> ValidLabel(ls[i]))
    requires HooksUnedited(cs[0].fs.spec, ls) && cs[0].fs.status.transition.None?
    requires k < |cs|
    ensures Inv(cs[k]) && PreActionsHonored(cfg, cs[k]) && SameHooks(cs[0].fs.spec, cs[k].fs.spec)
  {
    hide Step, PreActionsHonored, Inv;
    if k == 0 {
      NoTransitionHonors(cfg, cs[0]);
    } else {
      NoBypass(cfg, cs, ls, k - 1);
      RunKeepsInv(cfg, cs, ls, k);
      StepHonorsPreActions(cfg, cs[k - 1], ls[k - 1]);
    }
  }

  // ----- No bypass of post-actions -----

  predicate PostActionsHonored(cfg: Config, c: Cluster) {
    c.fs.status.transition.Some? ==>
      var t := c.fs.status.transition.value;
      HonoredUpTo(ActionsFor(cfg, c.fs.spec, t.direction, false), t.post, if t.phase == ExecutingPostActions then t.index else 0)
  }

  /** Every post-action of the transition may be passed. */
  predicate AllPostHonored(cfg: Config, c: Cluster) {
    c.fs.status.transition.Some? &&
    var t := c.fs.status.transition.value;
    HonoredUpTo(ActionsFor(cfg, c.fs.spec, t.direction, false), t.post, |t.post|)
  }

  /** What a reconcile of transition `t` does about its post-actions. */
  predicate PostOutcome(cfg: Config, c: Cluster, o: Outcome) {
    && (!o.completed ==> PostActionsHonored(cfg, o.cluster))
    && (o.completed ==> AllPostHonored(cfg, c))
  }

  lemma DecideHonorsPost(actions: seq<Action>, t: Transition, now: Time)
    requires TransitionInv(t) && t.phase == ExecutingPostActions && HonoredUpTo(actions, t.post, t.index)
    ensures match Decide(actions, t, false, now)
            case Commit(u) => HonoredUpTo(actions, u.post, u.index) && u.phase == t.phase && u.direction == t.direction
            case Finish => HonoredUpTo(actions, t.post, |t.post|)
            case _ => true
  {
  }

  lemma ExecutionHonorsPost(actions: seq<Action>, t: Transition, a: Action, x: ExecResult, now: Time)
    requires TransitionInv(t) && t.phase == ExecutingPostActions && t.index < |t.post|
    requires t.post[t.index].status == Running && HonoredUpTo(actions, t.post, t.index)
    ensures var u := AfterExecution(t, false, a, x, now);
            HonoredUpTo(actions, u.post, u.index) && u.phase == t.phase && u.direction == t.direction
  {
  }

  /** An attempt to complete that fails leaves the transition as it is. */
  lemma FailedCompletionKeeps(cfg: Config, c: Cluster, t: Transition, calls: Calls, e: Env)
    ensures var o := Complete(cfg, c, t, calls, e);
            !o.completed ==>
              o.cluster.fs.status == c.fs.status
              && o.cluster.fs.spec == c.fs.spec.(failoverActive := o.cluster.fs.spec.failoverActive)
  {
    hide UpdateEvent, NewTransition, JobNames;
  }

  lemma PostPhaseHonors(cfg: Config, c: Cluster, e: Env)
    requires Inv(c) && PostActionsHonored(cfg, c)
    requires c.fs.status.transition.Some? && c.fs.status.transition.value.phase == ExecutingPostActions
    ensures PostOutcome(cfg, c, ExecuteActionPhase(cfg, c, false, e))
  {
    var t := c.fs.status.transition.value;
    var actions := ActionsFor(cfg, c.fs.spec, t.direction, false);
    DecideMoves(actions, t, false, e.now);
    DecideHonorsPost(actions, t, e.now);
    if Decide(actions, t, false, e.now).Execute? {
      ExecutionHonorsPost(actions, t, actions[t.index], e.exec, e.now);
    }
    FailedCompletionKeeps(cfg, c, t, NoCalls, e);
    hide Complete, UpdateEvent, AfterExecution, Decide, StepsLeft, HonoredUpTo;
  }

  lemma FlushHonorsPost(cfg: Config, c: Cluster, e: Env)
    requires Inv(c) && PostActionsHonored(cfg, c)
    requires c.fs.status.transition.Some? && c.fs.status.transition.value.phase == FlushingConnections
    ensures PostOutcome(cfg, c, FlushConnections(cfg, c, e))
  {
    hide Complete;
    forall t: Transition, calls: Calls
      ensures var o := Complete(cfg, c, t, calls, e);
              !o.completed ==>
                o.cluster.fs.status == c.fs.status
                && o.cluster.fs.spec == c.fs.spec.(failoverActive := o.cluster.fs.spec.failoverActive)
    {
      FailedCompletionKeeps(cfg, c, t, calls, e);
    }
  }

  /** Before its post-actions a transition has not touched them. */
  lemma EarlyPhaseHonorsPost(cfg: Config, c: Cluster, e: Env)
    requires Inv(c) && PostActionsHonored(cfg, c)
    requires c.fs.status.transition.Some? && c.fs.status.transition.value.phase in {ExecutingPreActions, UpdatingResources}
    requires !c.fs.forceAdvance
    ensures PostOutcome(cfg, c, Reconcile(cfg, c, e))
  {
    hide Decide, AfterExecution, Complete, UpdateEvent, SM.ReconcileWithAddress, StepsLeft, ActionsFor;
    var t := c.fs.status.transition.value;
    ReconcileInFlight(cfg, c, e);
    if t.phase == ExecutingPreActions {
      DecideMoves(ActionsFor(cfg, c.fs.spec, t.direction, true), t, true, e.now);
      ExecutionKeepsPost(ActionsFor(cfg, c.fs.spec, t.direction, true), t, e);
    }
  }

  lemma ExecutionKeepsPost(actions: seq<Action>, t: Transition, e: Env)
    requires TransitionInv(t) && t.phase == ExecutingPreActions
    ensures match Decide(actions, t, true, e.now)
            case Commit(u) => u.phase != ExecutingPostActions
            case Execute(a) =>
              && 0 <= t.index < |Results(t, true)|
              && AfterExecution(t, true, a, e.exec, e.now).phase == t.phase
            case _ => true
  {
  }

  /** Forced or not, a reconcile never passes a post-action that may not be passed. */
  lemma ReconcileHonorsPost(cfg: Config, c: Cluster, e: Env)
    requires Inv(c) && PostActionsHonored(cfg, c) && c.fs.status.transition.Some?
    ensures PostOutcome(cfg, c, Reconcile(cfg, c, e))
  {
    var t := c.fs.status.transition.value;
    if !c.fs.forceAdvance && t.phase in {ExecutingPreActions, UpdatingResources} {
      EarlyPhaseHonorsPost(cfg, c, e);
    } else {
      hide FlushConnections, ExecuteActionPhase, UpdateEvent, ActionsFor;
      var stamped := c.(fs := c.fs.(clusterID := cfg.id));
      if t.phase == FlushingConnections {
        FlushHonorsPost(cfg, stamped, e);
      } else if t.phase == ExecutingPostActions {
        PostPhaseHonors(cfg, stamped, e);
      }
    }
  }

  lemma NewTransitionHonorsPost(cfg: Config, c: Cluster, now: Time)
    requires c.fs.status.transition == Some(NewTransition(cfg, c.fs.spec, now))
    ensures PostActionsHonored(cfg, c)
  {
  }

  lemma StepHonorsPost(cfg: Config, c: Cluster, l: Label)
    requires Inv(c) && ValidLabel(l) && PostActionsHonored(cfg, c)
    requires l.Edits? ==> SameHooks(c.fs.spec, l.spec)
    ensures PostActionsHonored(cfg, Step(cfg, c, l)) && SameHooks(c.fs.spec, Step(cfg, c, l).fs.spec)
    ensures Completes(cfg, c, l) ==> AllPostHonored(cfg, c)
  {
    hide Reconcile, NewTransition, HonoredUpTo;
    if l.Reconciles? {
      var o := Reconcile(cfg, c, l.env);
      if c.fs.status.transition.None? {
        ReconcileAtRest(cfg, c, l.env);
      } else {
        ReconcileInFlight(cfg, c, l.env);
        ReconcileHonorsPost(cfg, c, l.env);
      }
      if (c.fs.status.transition.None? || o.completed) && o.cluster.fs.status.transition.Some? {
        NewTransitionHonorsPost(cfg, o.cluster, l.env.now);
      }
    }
  }

  /**
   * With unedited hooks, in every run, whatever was forced: when a completion is persisted, every post-action
   * of the transition has succeeded, is allowed to fail, or was skipped by an operator.
   */
  lemma {:induction false} NoPostBypass(cfg: Config, cs: seq<Cluster>, ls: seq<Label>, k: nat)
    requires IsRun(cfg, cs, ls) && Inv(cs[0]) && (forall i :: 0 <= i < |ls| ==> ValidLabel(ls[i]))
    requires HooksUnedited(cs[0].fs.spec, ls) && cs[0].fs.status.transition.None?
    requires k < |cs|
    ensures Inv(cs[k]) && PostActionsHonored(cfg, cs[k]) && SameHooks(cs[0].fs.spec, cs[k].fs.spec)
    ensures k < |ls| && Completes(cfg, cs[k], ls[k]) ==> AllPostHonored(cfg, cs[k])
  {
    hide Step, Completes, PostActionsHonored, AllPostHonored;
    RunKeepsInv(cfg, cs, ls, k);
    if k > 0 {
      NoPostBypass(cfg, cs, ls, k - 1);
      StepHonorsPost(cfg, cs[k - 1], ls[k - 1]);
    } else {
      NoTransitionHonors(cfg, cs[0]);
    }
    if k < |ls| {
      StepHonorsPost(cfg, cs[k], ls[k]);
    }
  }

  lemma NoTransitionHonors(cfg: Config, c: Cluster)
    requires c.fs.status.transition.None?
    ensures PreActionsHonored(cfg, c) && PostActionsHonored(cfg, c)
  {
  }

  /** Nobody skipped a pre-action by force. */
  predicate NoneForced(c: Cluster) {
    c.fs.status.transition.Some? ==>
      forall k :: 0 <= k < |c.fs.status.transition.value.pre| ==>
        c.fs.status.transition.value.pre[k].note != ForcedByOperator
  }

  /** A pre-action that a reconcile turned into a success was executed by it, with that answer. */
  predicate SuccessesWereExecuted(t: Transition, u: Transition, o: Outcome, e: Env) {
    forall k {:trigger u.pre[k]} ::
      0 <= k < |t.pre| == |u.pre| && u.pre[k].status == Succeeded && t.pre[k].status != Succeeded ==>
        && o.calls.exec.Some? && o.calls.exec.value.isPre && o.calls.exec.value.index == k
        && o.calls.exec.value.transition == t
        && e.exec.ExecResult? && e.exec.completed && e.exec.succeeded
  }

  lemma UnforcedExecution(t: Transition, a: Action, x: ExecResult, now: Time)
    requires 0 <= t.index < |t.pre| && t.pre[t.index].note != ForcedByOperator
    ensures var u := AfterExecution(t, true, a, x, now);
            && |u.pre| == |t.pre|
            && (forall k :: 0 <= k < |t.pre| && k != t.index ==> u.pre[k] == t.pre[k])
            && u.pre[t.index].note != ForcedByOperator
            && (u.pre[t.index].status == Succeeded && t.pre[t.index].status != Succeeded ==>
                  x.ExecResult? && x.completed && x.succeeded)
  {
  }

  lemma UnforcedDecision(actions: seq<Action>, t: Transition, now: Time)
    ensures match Decide(actions, t, true, now)
            case Commit(u) =>
              && |u.pre| == |t.pre|
              && forall k :: 0 <= k < |t.pre| ==>
                   && (u.pre[k].note == ForcedByOperator ==> t.pre[k].note == ForcedByOperator)
                   && (u.pre[k].status == Succeeded ==> t.pre[k].status == Succeeded)
            case _ => true
  {
  }

  predicate UnforcedOutcome(t: Transition, o: Outcome, e: Env) {
    && NoneForced(o.cluster)
    && o.cluster.fs.status.transition.Some?
    && SuccessesWereExecuted(t, o.cluster.fs.status.transition.value, o, e)
  }

  lemma UnforcedActions(cfg: Config, c: Cluster, e: Env)
    requires Inv(c) && NoneForced(c)
    requires c.fs.status.transition.Some? && c.fs.status.transition.value.phase == ExecutingPreActions
    ensures UnforcedOutcome(c.fs.status.transition.value, ExecuteActionPhase(cfg, c, true, e), e)
  {
    var t := c.fs.status.transition.value;
    hide AfterExecution, UpdateEvent, Complete, Decide, StepsLeft, ActionsFor;
    var actions := ActionsFor(cfg, c.fs.spec, t.direction, true);
    DecideMoves(actions, t, true, e.now);
    UnforcedDecision(actions, t, e.now);
    if Decide(actions, t, true, e.now).Execute? {
      UnforcedExecution(t, actions[t.index], e.exec, e.now);
    }
  }

  lemma UnforcedPrePhase(cfg: Config, c: Cluster, e: Env)
    requires Inv(c) && NoneForced(c) && !c.fs.forceAdvance
    requires c.fs.status.transition.Some? && c.fs.status.transition.value.phase == ExecutingPreActions
    ensures UnforcedOutcome(c.fs.status.transition.value, Reconcile(cfg, c, e), e)
  {
    hide ExecuteActionPhase;
    UnforcedActions(cfg, c.(fs := c.fs.(clusterID := cfg.id)), e);
  }

  lemma UnforcedStep(cfg: Config, c: Cluster, e: Env)
    requires Inv(c) && NoneForced(c) && !c.fs.forceAdvance
    ensures NoneForced(Reconcile(cfg, c, e).cluster)
    ensures var o := Reconcile(cfg, c, e);
            c.fs.status.transition.Some? && o.cluster.fs.status.transition.Some? && !o.completed ==>
              SuccessesWereExecuted(c.fs.status.transition.value, o.cluster.fs.status.transition.value, o, e)
  {
    hide Reconcile;
    if c.fs.status.transition.None? {
      ReconcileAtRest(cfg, c, e);
    } else {
      ReconcileInFlight(cfg, c, e);
      if c.fs.status.transition.value.phase == ExecutingPreActions {
        UnforcedPrePhase(cfg, c, e);
      }
    }
  }

  /** The action at the cursor has failed and its failure is not ignored. */
  predicate Halted(cfg: Config, c: Cluster) {
    c.fs.status.transition.Some? &&
    var t := c.fs.status.transition.value;
    var isPre := t.phase == ExecutingPreActions;
    && (isPre || t.phase == ExecutingPostActions)
    && 0 <= t.index < |Results(t, isPre)|
    && Results(t, isPre)[t.index].status == Failed
    && t.index < |ActionsFor(cfg, c.fs.spec, t.direction, isPre)|
    && !ActionsFor(cfg, c.fs.spec, t.direction, isPre)[t.index].ignoreFailure
  }

  predicate HaltKept(cfg: Config, c: Cluster, d: Cluster) {
    Halted(cfg, d) && d.fs.status == c.fs.status && d.store == c.store && !d.fs.forceAdvance && SameHooks(c.fs.spec, d.fs.spec)
  }

  lemma ActionPhaseKeepsHalt(cfg: Config, c: Cluster, isPre: bool, e: Env)
    requires Inv(c) && Halted(cfg, c) && !c.fs.forceAdvance && c.fs.status.transition.value.phase == PhaseOf(isPre)
    ensures HaltKept(cfg, c, ExecuteActionPhase(cfg, c, isPre, e).cluster)
  {
    hide Complete, UpdateEvent, AfterExecution;
  }

  lemma StepKeepsHalt(cfg: Config, c: Cluster, l: Label)
    requires Inv(c) && Halted(cfg, c) && !c.fs.forceAdvance
    requires l.Edits? ==> SameHooks(c.fs.spec, l.spec) && !l.forceAdvance
    ensures HaltKept(cfg, c, Step(cfg, c, l))
  {
    hide ExecuteActionPhase;
    if l.Reconciles? {
      var isPre := c.fs.status.transition.value.phase == ExecutingPreActions;
      ActionPhaseKeepsHalt(cfg, c.(fs := c.fs.(clusterID := cfg.id)), isPre, l.env);
    }
  }

  /** Without a force-advance or an edit of the hooks, a halted transition never moves again. */
  lemma {:induction false} HaltIsForever(cfg: Config, cs: seq<Cluster>, ls: seq<Label>, k: nat)
    requires IsRun(cfg, cs, ls) && Inv(cs[0]) && (forall i :: 0 <= i < |ls| ==> ValidLabel(ls[i]))
    requires HooksUnedited(cs[0].fs.spec, ls)
    requires !cs[0].fs.forceAdvance && forall i :: 0 <= i < |ls| && ls[i].Edits? ==> !ls[i].forceAdvance
    requires Halted(cfg, cs[0]) && k < |cs|
    ensures cs[k].fs.status == cs[0].fs.status && cs[k].store == cs[0].store
    ensures Halted(cfg, cs[k]) && !cs[k].fs.forceAdvance && SameHooks(cs[0].fs.spec, cs[k].fs.spec)
  {
    hide Step;
    if k > 0 {
      HaltIsForever(cfg, cs, ls, k - 1);
      RunKeepsInv(cfg, cs, ls, k - 1);
      StepKeepsHalt(cfg, cs[k - 1], ls[k - 1]);
    }
  }

  // ----- Repeated force-advance -----

  /** When a second force-advance would find nothing left to skip. */
  predicate AdvanceExhausted(t: Transition) {
    match t.phase
    case Idle => true
    case ExecutingPreActions => t.index + 1 >= |t.pre|
    case UpdatingResources => false
    case FlushingConnections => t.post == []
    case ExecutingPostActions => t.index + 1 >= |t.post|
  }

  /**
   * The status write of a force-advance is persisted before its annotation is removed. When the
   * removal fails the next reconcile advances again, so the retry is idempotent exactly when the
   * first attempt left nothing to skip; otherwise it skips a second action or phase.
   */
  lemma ForceAdvanceRetry(cfg: Config, c: Cluster, first: Env, second: Env)
    requires Inv(c) && c.fs.status.transition.Some? && c.fs.forceAdvance && c.fs.clusterID == cfg.id
    requires first.statusWrite && !first.annotationWrite && second.statusWrite && second.annotationWrite
    ensures var once := Reconcile(cfg, c, first).cluster;
            var twice := Reconcile(cfg, once, second).cluster;
            && once.fs.forceAdvance && !twice.fs.forceAdvance
            && once.fs.status.transition == Some(Advanced(c.fs.status.transition.value, first.now))
            && (twice.fs.status == once.fs.status <==> AdvanceExhausted(c.fs.status.transition.value))
  {
    var t := c.fs.status.transition.value;
    ForcedMoves(t, first.now);
    ForcedTwice(t, first.now, second.now);
  }

  lemma ForcedTwice(t: Transition, now: Time, later: Time)
    requires TransitionInv(t)
    ensures Advanced(Advanced(t, now), later) == Advanced(t, now) <==> AdvanceExhausted(t)
  {
    var u := Advanced(t, now);
    if AdvanceExhausted(t) {
      assert u.index >= |Results(u, u.phase == ExecutingPreActions)|;
    } else {
      assert Advanced(u, later).index != u.index || Advanced(u, later).phase != u.phase;
    }
  }

  /**
   * For example: forcing a transition out of the resource update while the annotation cannot be removed
   * skips the connection flush as well, without a signal being sent.
   */
  lemma ForceAdvanceSkipsFlush(cfg: Config, c: Cluster, first: Env, second: Env)
    requires Inv(c) && c.fs.status.transition.Some? && c.fs.forceAdvance && c.fs.clusterID == cfg.id
    requires c.fs.status.transition.value.phase == UpdatingResources
    requires first.statusWrite && !first.annotationWrite && second.statusWrite
    ensures var once := Reconcile(cfg, c, first);
            var twice := Reconcile(cfg, once.cluster, second);
            && once.calls == NoCalls && twice.calls == NoCalls
            && twice.cluster.store == c.store
            && twice.cluster.fs.status.transition.Some?
            && twice.cluster.fs.status.transition.value.phase == ExecutingPostActions
  {
    hide UpdateEvent;
  }
}
