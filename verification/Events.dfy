/** The outcome history of FailoverEvents over whole runs of the controller. */
module Events {
  import opened Api
  import opened Controller
  import Progress
  import SM = ServiceManager

  /** The only ways an outcome may change. */
  predicate Evolves(from: EventOutcome, to: EventOutcome) {
    || from == to
    || (from in {Unset, InProgress} && to in {EventSucceeded, EventFailed, EventForceAdvanced})
    || (from in {EventFailed, EventForceAdvanced} && to in {EventFailed, EventForceAdvanced})
  }

  /** Every recorded event is still there, keeps its identity, and its outcome evolved. */
  predicate HistoryGrows(before: map<EventName, Event>, after: map<EventName, Event>) {
    forall n :: n in before ==>
      && n in after
      && Evolves(before[n].outcome, after[n].outcome)
      && after[n].direction == before[n].direction
      && after[n].serviceRef == before[n].serviceRef
      && after[n].createdAt == before[n].createdAt
      && after[n].startedAt == before[n].startedAt
  }

  lemma NothingGrows(events: map<EventName, Event>)
    ensures HistoryGrows(events, events)
  {
  }

  lemma UpdateGrows(events: map<EventName, Event>, t: Transition, outcome: EventOutcome, generation: int, e: Env)
    requires outcome in {EventSucceeded, EventFailed, EventForceAdvanced}
    ensures HistoryGrows(events, UpdateEvent(events, t, outcome, generation, e))
  {
  }

  lemma GrowthIsTransitive(a: map<EventName, Event>, b: map<EventName, Event>, c: map<EventName, Event>)
    requires HistoryGrows(a, b) && HistoryGrows(b, c)
    ensures HistoryGrows(a, c)
  {
  }

  lemma CompletionGrows(cfg: Config, c: Cluster, t: Transition, calls: Calls, e: Env)
    ensures HistoryGrows(c.events, Complete(cfg, c, t, calls, e).cluster.events)
  {
    hide HistoryGrows, UpdateEvent, Begin, JobNames;
    NothingGrows(c.events);
    UpdateGrows(c.events, t, EventSucceeded, c.fs.status.activeGeneration + 1, e);
    if cfg.syncer && e.sync.RemoteWins? {
      AdoptionGrows(cfg, c, t, e);
    }
  }

  lemma AdoptionGrows(cfg: Config, c: Cluster, t: Transition, e: Env)
    requires e.sync.RemoteWins?
    ensures forall made :: HistoryGrows(c.events, CompleteAdopting(cfg, c, t, made, e).cluster.events)
  {
    hide HistoryGrows, UpdateEvent, Begin;
    var noted := UpdateEvent(c.events, t, EventSucceeded, e.sync.state.activeGeneration, e);
    NothingGrows(c.events);
    UpdateGrows(c.events, t, EventSucceeded, e.sync.state.activeGeneration, e);
    forall d: Cluster, status: Status | d.events == noted
      ensures HistoryGrows(c.events, Begin(cfg, d, status, RemoteSync, e).events)
    {
      BeginGrows(cfg, d, status, RemoteSync, e);
      GrowthIsTransitive(c.events, noted, Begin(cfg, d, status, RemoteSync, e).events);
    }
  }

  lemma ActionPhaseGrows(cfg: Config, c: Cluster, isPre: bool, e: Env)
    requires c.fs.status.transition.Some?
    ensures HistoryGrows(c.events, ExecuteActionPhase(cfg, c, isPre, e).cluster.events)
  {
    hide Complete, Decide, AfterExecution, HistoryGrows, UpdateEvent;
    var t := c.fs.status.transition.value;
    NothingGrows(c.events);
    UpdateGrows(c.events, t, EventFailed, c.fs.status.activeGeneration, e);
    CompletionGrows(cfg, c, t, NoCalls, e);
  }

  lemma FlushGrows(cfg: Config, c: Cluster, e: Env)
    requires c.fs.status.transition.Some?
    ensures HistoryGrows(c.events, FlushConnections(cfg, c, e).cluster.events)
  {
    hide Complete, HistoryGrows;
    NothingGrows(c.events);
    forall t: Transition, calls: Calls
      ensures HistoryGrows(c.events, Complete(cfg, c, t, calls, e).cluster.events)
    {
      CompletionGrows(cfg, c, t, calls, e);
    }
  }

  lemma BeginGrows(cfg: Config, c: Cluster, status: Status, trigger: Trigger, e: Env)
    ensures HistoryGrows(c.events, Begin(cfg, c, status, trigger, e).events)
  {
  }

  lemma IdleGrows(cfg: Config, c: Cluster, e: Env)
    ensures HistoryGrows(c.events, ReconcileIdle(cfg, c, e).cluster.events)
  {
    hide Begin, SM.ReconcileWithAddress, HistoryGrows;
    NothingGrows(c.events);
    forall d: Cluster, status: Status, trigger: Trigger
      ensures HistoryGrows(d.events, Begin(cfg, d, status, trigger, e).events)
    {
      BeginGrows(cfg, d, status, trigger, e);
    }
  }

  lemma ReconcileGrows(cfg: Config, c: Cluster, e: Env)
    ensures HistoryGrows(c.events, Reconcile(cfg, c, e).cluster.events)
  {
    hide ExecuteActionPhase, FlushConnections, ReconcileIdle, SM.ReconcileWithAddress, HistoryGrows, UpdateEvent, Advanced;
    var stamped := c.(fs := c.fs.(clusterID := cfg.id));
    NothingGrows(c.events);
    IdleGrows(cfg, stamped, e);
    if c.fs.status.transition.Some? {
      var t := c.fs.status.transition.value;
      UpdateGrows(c.events, t, EventForceAdvanced, c.fs.status.activeGeneration, e);
      match t.phase {
        case ExecutingPreActions => ActionPhaseGrows(cfg, stamped, true, e);
        case ExecutingPostActions => ActionPhaseGrows(cfg, stamped, false, e);
        case FlushingConnections => FlushGrows(cfg, stamped, e);
        case _ =>
      }
    }
  }

  /**
   * Over every run: no event disappears, Succeeded is final, an event once Failed or ForceAdvanced
   * never becomes Succeeded, and none returns to InProgress.
   */
  lemma {:induction false} OutcomeHistory(cfg: Config, cs: seq<Cluster>, ls: seq<Label>, i: nat, k: nat)
    requires IsRun(cfg, cs, ls) && i <= k < |cs|
    ensures HistoryGrows(cs[i].events, cs[k].events)
    decreases k
  {
    hide Reconcile;
    if i < k {
      OutcomeHistory(cfg, cs, ls, i, k - 1);
      if ls[k - 1].Reconciles? {
        ReconcileGrows(cfg, cs[k - 1], ls[k - 1].env);
      }
      GrowthIsTransitive(cs[i].events, cs[k - 1].events, cs[k].events);
    }
  }

  /** A force-advance that reached the transition's event rules out a clean success for good. */
  lemma ForcedIsNeverCleanSuccess(cfg: Config, cs: seq<Cluster>, ls: seq<Label>, i: nat, k: nat)
    requires IsRun(cfg, cs, ls) && i < k < |cs|
    requires ls[i].Reconciles? && ls[i].env.eventUpdate
    requires cs[i].fs.forceAdvance && cs[i].fs.clusterID == cfg.id && cs[i].fs.status.transition.Some?
    requires var n := cs[i].fs.status.transition.value.eventName;
             n in cs[i].events && cs[i].events[n].outcome != EventSucceeded
    ensures var n := cs[i].fs.status.transition.value.eventName;
            n in cs[k].events && cs[k].events[n].outcome in {EventForceAdvanced, EventFailed}
  {
    OutcomeHistory(cfg, cs, ls, i + 1, k);
    assert cs[i + 1] == Step(cfg, cs[i], ls[i]);
  }

  // ----- One update -----

  /** What the record shows of a transition after an update. */
  predicate Records(event: Event, t: Transition, generation: int) {
    event.pre == t.pre && event.post == t.post && event.generationAfter == generation
  }

  /**
   * An update touches the event of the transition only, and that in exactly these cases: an open event takes
   * any outcome, a failed one can be forced, and a forced one can fail or be completed without becoming a
   * success. A force-advance leaves the time of completion alone.
   */
  lemma UpdateLaw(events: map<EventName, Event>, t: Transition, outcome: EventOutcome, generation: int, e: Env)
    requires outcome in {EventSucceeded, EventFailed, EventForceAdvanced}
    ensures var after := UpdateEvent(events, t, outcome, generation, e);
            && after.Keys == events.Keys
            && (forall n :: n in events && n != t.eventName ==> after[n] == events[n])
            && (t.eventName in events ==>
                  var x, y := events[t.eventName], after[t.eventName];
                  && (!e.eventUpdate ==> y == x)
                  && (e.eventUpdate ==>
                        match (x.outcome, outcome)
                        case (EventFailed, EventFailed) => y == x
                        case (EventFailed, EventSucceeded) => y == x
                        case (EventSucceeded, _) => y == x
                        case (EventForceAdvanced, EventForceAdvanced) => y == x
                        case (EventForceAdvanced, EventSucceeded) =>
                          Records(y, t, generation) && y.outcome == EventForceAdvanced && y.completedAt == Some(e.now)
                        case (_, EventForceAdvanced) =>
                          Records(y, t, generation) && y.outcome == EventForceAdvanced && y.completedAt == x.completedAt
                        case _ =>
                          Records(y, t, generation) && y.outcome == outcome && y.completedAt == Some(e.now)))
  {
  }

  // ----- Where new events come from -----

  /** A reconcile that finds a flip pending starts the transition itself; any other start is an adoption. */
  function TriggerOf(c: Cluster): Trigger {
    if FlipPending(c.fs) && (c.fs.status.transition.None? || c.fs.status.transition.value.phase == Idle)
    then Manual else RemoteSync
  }

  /**
   * Every event that is new belongs to the transition in flight and is open: in progress with the generation
   * at the start, or without any outcome if the write of its status was lost.
   */
  predicate NewEventsAreCurrent(c: Cluster, d: Cluster, trigger: Trigger, e: Env) {
    && d.fs.name == c.fs.name
    && forall n :: n in d.events && n !in c.events ==>
         && d.fs.status.transition.Some? && d.fs.status.transition.value.eventName == n
         && n.startedAt == e.now && e.eventCreate
         && d.events[n] == if e.eventStatus
            then Event(c.fs.name, n.direction, trigger, e.now, Some(e.now), None, InProgress, [], [], d.fs.status.activeGeneration, 0)
            else Event(c.fs.name, n.direction, trigger, e.now, None, None, Unset, [], [], 0, 0)
  }

  lemma UpdateAddsNothing(events: map<EventName, Event>, t: Transition, outcome: EventOutcome, generation: int, e: Env)
    ensures UpdateEvent(events, t, outcome, generation, e).Keys == events.Keys
  {
  }

  lemma BeginAddsCurrent(cfg: Config, c: Cluster, status: Status, trigger: Trigger, e: Env)
    ensures NewEventsAreCurrent(c, Begin(cfg, c, status, trigger, e), trigger, e)
  {
  }

  lemma CompletionAddsCurrent(cfg: Config, c: Cluster, t: Transition, calls: Calls, e: Env)
    ensures NewEventsAreCurrent(c, Complete(cfg, c, t, calls, e).cluster, RemoteSync, e)
  {
    hide Begin, UpdateEvent, JobNames;
    forall d: Cluster, status: Status
      ensures NewEventsAreCurrent(d, Begin(cfg, d, status, RemoteSync, e), RemoteSync, e)
    {
      BeginAddsCurrent(cfg, d, status, RemoteSync, e);
    }
    UpdateAddsNothing(c.events, t, EventSucceeded, c.fs.status.activeGeneration + 1, e);
    if e.sync.RemoteWins? {
      UpdateAddsNothing(c.events, t, EventSucceeded, e.sync.state.activeGeneration, e);
    }
  }

  lemma IdleAddsCurrent(cfg: Config, c: Cluster, e: Env)
    ensures NewEventsAreCurrent(c, ReconcileIdle(cfg, c, e).cluster, if FlipPending(c.fs) then Manual else RemoteSync, e)
  {
    hide Begin, SM.ReconcileWithAddress;
    forall d: Cluster, status: Status, trigger: Trigger
      ensures NewEventsAreCurrent(d, Begin(cfg, d, status, trigger, e), trigger, e)
    {
      BeginAddsCurrent(cfg, d, status, trigger, e);
    }
  }

  lemma ActionPhaseAddsCurrent(cfg: Config, c: Cluster, isPre: bool, e: Env)
    requires c.fs.status.transition.Some?
    ensures NewEventsAreCurrent(c, ExecuteActionPhase(cfg, c, isPre, e).cluster, RemoteSync, e)
  {
    hide Complete, Decide, AfterExecution, UpdateEvent;
    var t := c.fs.status.transition.value;
    UpdateAddsNothing(c.events, t, EventFailed, c.fs.status.activeGeneration, e);
    CompletionAddsCurrent(cfg, c, t, NoCalls, e);
  }

  lemma FlushAddsCurrent(cfg: Config, c: Cluster, e: Env)
    requires c.fs.status.transition.Some?
    ensures NewEventsAreCurrent(c, FlushConnections(cfg, c, e).cluster, RemoteSync, e)
  {
    hide Complete;
    forall t: Transition, calls: Calls
      ensures NewEventsAreCurrent(c, Complete(cfg, c, t, calls, e).cluster, RemoteSync, e)
    {
      CompletionAddsCurrent(cfg, c, t, calls, e);
    }
  }

  lemma ReconcileAddsCurrent(cfg: Config, c: Cluster, e: Env)
    ensures NewEventsAreCurrent(c, Reconcile(cfg, c, e).cluster, TriggerOf(c), e)
  {
    hide ExecuteActionPhase, FlushConnections, ReconcileIdle, SM.ReconcileWithAddress, UpdateEvent, Advanced;
    var stamped := c.(fs := c.fs.(clusterID := cfg.id));
    IdleAddsCurrent(cfg, stamped, e);
    if c.fs.status.transition.Some? {
      var t := c.fs.status.transition.value;
      UpdateAddsNothing(c.events, t, EventForceAdvanced, c.fs.status.activeGeneration, e);
      match t.phase {
        case ExecutingPreActions => ActionPhaseAddsCurrent(cfg, stamped, true, e);
        case ExecutingPostActions => ActionPhaseAddsCurrent(cfg, stamped, false, e);
        case FlushingConnections => FlushAddsCurrent(cfg, stamped, e);
        case _ =>
      }
    }
  }

  /** A started transition has its event, if the creation landed. */
  predicate StartIsRecorded(c: Cluster, o: Outcome, e: Env) {
    (c.fs.status.transition.None? || o.completed) && o.cluster.fs.status.transition.Some? && e.eventCreate ==>
      o.cluster.fs.status.transition.value.eventName in o.cluster.events
  }

  lemma CompletionRecordsStart(cfg: Config, c: Cluster, t: Transition, calls: Calls, e: Env)
    requires c.fs.status.transition.Some?
    ensures StartIsRecorded(c, Complete(cfg, c, t, calls, e), e)
  {
    hide UpdateEvent, NewTransition, JobNames;
  }

  lemma StartsAreRecorded(cfg: Config, c: Cluster, e: Env)
    ensures StartIsRecorded(c, Reconcile(cfg, c, e), e)
  {
    hide NewTransition, UpdateEvent, SM.ReconcileWithAddress, AfterExecution, Decide, Complete, Advanced;
    forall d: Cluster, t: Transition, calls: Calls | d.fs.status.transition.Some?
      ensures StartIsRecorded(d, Complete(cfg, d, t, calls, e), e)
    {
      CompletionRecordsStart(cfg, d, t, calls, e);
    }
  }

  // ----- What a recorded outcome means -----

  /** An event that becomes a success is that of a transition whose completion this reconcile persisted. */
  predicate SuccessIsEarned(c: Cluster, o: Outcome) {
    forall n :: n in o.cluster.events && o.cluster.events[n].outcome == EventSucceeded
                && !(n in c.events && c.events[n].outcome == EventSucceeded) ==>
      o.completed && c.fs.status.transition.Some? && c.fs.status.transition.value.eventName == n
  }

  lemma CompletionEarns(cfg: Config, c: Cluster, t: Transition, calls: Calls, e: Env)
    requires c.fs.status.transition.Some? && c.fs.status.transition.value.eventName == t.eventName
    ensures SuccessIsEarned(c, Complete(cfg, c, t, calls, e))
  {
    hide NewTransition, JobNames;
  }

  lemma ActionsEarn(cfg: Config, c: Cluster, isPre: bool, e: Env)
    requires c.fs.status.transition.Some?
    ensures SuccessIsEarned(c, ExecuteActionPhase(cfg, c, isPre, e))
  {
    hide Complete, Decide, AfterExecution;
    CompletionEarns(cfg, c, c.fs.status.transition.value, NoCalls, e);
  }

  lemma FlushEarns(cfg: Config, c: Cluster, e: Env)
    requires c.fs.status.transition.Some?
    ensures SuccessIsEarned(c, FlushConnections(cfg, c, e))
  {
    hide Complete;
    var n := c.fs.status.transition.value.eventName;
    forall t: Transition, calls: Calls | t.eventName == n ensures SuccessIsEarned(c, Complete(cfg, c, t, calls, e)) {
      CompletionEarns(cfg, c, t, calls, e);
    }
  }

  lemma IdleEarns(cfg: Config, c: Cluster, e: Env)
    ensures SuccessIsEarned(c, ReconcileIdle(cfg, c, e))
  {
    hide NewTransition, SM.ReconcileWithAddress;
  }

  lemma ReconcileEarns(cfg: Config, c: Cluster, e: Env)
    ensures SuccessIsEarned(c, Reconcile(cfg, c, e))
  {
    hide ExecuteActionPhase, FlushConnections, ReconcileIdle, SM.ReconcileWithAddress, Advanced;
    var stamped := c.(fs := c.fs.(clusterID := cfg.id));
    IdleEarns(cfg, stamped, e);
    if c.fs.status.transition.Some? {
      match c.fs.status.transition.value.phase {
        case ExecutingPreActions => ActionsEarn(cfg, stamped, true, e);
        case ExecutingPostActions => ActionsEarn(cfg, stamped, false, e);
        case FlushingConnections => FlushEarns(cfg, stamped, e);
        case _ =>
      }
    }
  }

  /** By step `k` the completion of the transition with this event was persisted. */
  predicate CompletedBy(cfg: Config, cs: seq<Cluster>, ls: seq<Label>, n: EventName, k: nat)
    requires k <= |ls| < |cs|
  {
    exists i {:trigger ls[i]} :: 0 <= i < k && ls[i].Reconciles? && Reconcile(cfg, cs[i], ls[i].env).completed
              && cs[i].fs.status.transition.Some? && cs[i].fs.status.transition.value.eventName == n
  }

  /** In every run from an empty record, an event reads Succeeded only if its transition was completed. */
  lemma {:induction false} SucceededMeansCompleted(cfg: Config, cs: seq<Cluster>, ls: seq<Label>, n: EventName, k: nat)
    requires IsRun(cfg, cs, ls) && cs[0].events == map[] && k < |cs|
    requires n in cs[k].events && cs[k].events[n].outcome == EventSucceeded
    ensures CompletedBy(cfg, cs, ls, n, k)
  {
    hide Reconcile;
    var l := ls[k - 1];
    if l.Reconciles? {
      ReconcileEarns(cfg, cs[k - 1], l.env);
    }
    if n in cs[k - 1].events && cs[k - 1].events[n].outcome == EventSucceeded {
      SucceededMeansCompleted(cfg, cs, ls, n, k - 1);
      var i :| 0 <= i < k - 1 && ls[i].Reconciles? && Reconcile(cfg, cs[i], ls[i].env).completed
               && cs[i].fs.status.transition.Some? && cs[i].fs.status.transition.value.eventName == n;
    }
  }

  /** A halt whose event update lands is on record as a failure, unless the event already reads Succeeded. */
  lemma HaltIsRecorded(cfg: Config, c: Cluster, e: Env)
    requires Progress.Halted(cfg, c) && !c.fs.forceAdvance && (c.fs.clusterID == cfg.id || e.idWrite) && e.eventUpdate
    requires c.fs.status.transition.value.eventName in c.events
    ensures var n, d := c.fs.status.transition.value.eventName, Reconcile(cfg, c, e).cluster;
            && n in d.events
            && d.events[n].outcome == (if c.events[n].outcome == EventSucceeded then EventSucceeded else EventFailed)
            && (c.events[n].outcome !in {EventFailed, EventSucceeded} ==>
                  Records(d.events[n], c.fs.status.transition.value, c.fs.status.activeGeneration)
                  && d.events[n].completedAt == Some(e.now))
  {
    hide Complete, AfterExecution;
  }

  /** So is a force-advance, unless the event already reads Succeeded; it does not end the event. */
  lemma ForceIsRecorded(cfg: Config, c: Cluster, e: Env)
    requires c.fs.forceAdvance && c.fs.status.transition.Some? && (c.fs.clusterID == cfg.id || e.idWrite) && e.eventUpdate
    requires c.fs.status.transition.value.eventName in c.events
    ensures var n, d := c.fs.status.transition.value.eventName, Reconcile(cfg, c, e).cluster;
            && n in d.events && d.events[n].completedAt == c.events[n].completedAt
            && d.events[n].outcome == (if c.events[n].outcome == EventSucceeded then EventSucceeded else EventForceAdvanced)
            && (c.events[n].outcome !in {EventForceAdvanced, EventSucceeded} ==>
                  Records(d.events[n], c.fs.status.transition.value, c.fs.status.activeGeneration))
  {
  }

  /** A completion whose event update lands is on record as a success exactly if the event was still open. */
  lemma CompletionIsRecorded(cfg: Config, c: Cluster, t: Transition, calls: Calls, e: Env)
    requires t.eventName in c.events && e.eventUpdate && Complete(cfg, c, t, calls, e).completed
    requires c.events[t.eventName].outcome != EventSucceeded
    ensures var d := Complete(cfg, c, t, calls, e).cluster;
            && t.eventName in d.events
            && (d.events[t.eventName].outcome == EventSucceeded <==> c.events[t.eventName].outcome in {Unset, InProgress})
            && (c.events[t.eventName].outcome == EventForceAdvanced ==> d.events[t.eventName].outcome == EventForceAdvanced)
            && (c.events[t.eventName].outcome != EventFailed ==>
                  Records(d.events[t.eventName], t, d.fs.status.activeGeneration) && d.events[t.eventName].completedAt == Some(e.now))
  {
    hide NewTransition, JobNames;
  }
}
