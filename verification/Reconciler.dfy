/**
 * The reconciler as it runs: it reads the stored object, changes its in-memory copy step by step
 * and writes it back (internal/controller/failoverservice_controller.go). Every method is proved
 * against the function of the same purpose in module Controller.
 */
module Reconciler {
  import opened Api
  import opened Controller
  import SM = ServiceManager

  /** The cursor is not part of what an event records. */
  lemma EventIgnoresIndex(events: map<EventName, Event>, t: Transition, generation: int, e: Env)
    ensures UpdateEvent(events, t.(index := 0), EventFailed, generation, e) == UpdateEvent(events, t, EventFailed, generation, e)
  {
  }

  class FailoverServiceReconciler {
    const cfg: Config
    const manager: SM.Manager

    // what the API server stores
    var stored: FailoverService
    var events: map<EventName, Event>

    // what the running reconcile works on
    var fs: FailoverService
    var calls: Calls
    var completed: bool

    constructor (cfg: Config, manager: SM.Manager, stored: FailoverService, events: map<EventName, Event>)
      ensures this.cfg == cfg && this.manager == manager
      ensures State() == Cluster(stored, manager.store, events)
    {
      this.cfg := cfg;
      this.manager := manager;
      this.stored := stored;
      this.events := events;
      this.fs := stored;
      this.calls := NoCalls;
      this.completed := false;
    }

    function State(): Cluster
      reads this, manager
    {
      Cluster(stored, manager.store, events)
    }

    /** The in-memory copy is fresh and no outside call was made yet. */
    ghost predicate Fresh()
      reads this, manager
    {
      fs == stored && calls == NoCalls && !completed && manager.uid == fs.uid
    }

    ghost predicate InFlight()
      reads this
    {
      fs.status.transition.Some?
    }

    // ----- Writes -----

    /** Writes the status of the in-memory copy. */
    method UpdateStatus(ok: bool)
      modifies this`stored
      ensures stored == if ok then old(stored).(status := fs.status) else old(stored)
    {
      if ok {
        stored := stored.(status := fs.status);
      }
    }

    /** Writes spec and annotations; the answer of the server replaces the in-memory copy. */
    method Update(ok: bool)
      modifies this`stored, this`fs
      ensures ok ==> stored == old(fs).(status := old(stored).status) && fs == stored
      ensures !ok ==> stored == old(stored) && fs == old(fs)
    {
      if ok {
        stored := fs.(status := stored.status);
        fs := stored;
      }
    }

    method SetTransition(t: Option<Transition>)
      modifies this`fs
      ensures fs == old(fs).(status := old(fs).status.(transition := t))
    {
      fs := fs.(status := fs.status.(transition := t));
    }

    method UpdateFailoverEvent(outcome: EventOutcome, e: Env)
      requires InFlight()
      modifies this`events
      ensures events == UpdateEvent(old(events), fs.status.transition.value, outcome, fs.status.activeGeneration, e)
    {
      var t := fs.status.transition.value;
      if t.eventName !in events || !e.eventUpdate {
        return;
      }
      var event := events[t.eventName];
      var current := event.outcome;
      if current != Unset && current != InProgress {
        if current == EventFailed && outcome == EventForceAdvanced {
        } else if current == EventForceAdvanced && outcome == EventFailed {
        } else if current == EventForceAdvanced && outcome == EventSucceeded {
        } else {
          return;
        }
      }
      event := event.(pre := t.pre, post := t.post);
      event := event.(generationAfter := fs.status.activeGeneration);
      if !(outcome == EventSucceeded && current == EventForceAdvanced) {
        event := event.(outcome := outcome);
      }
      if outcome != EventForceAdvanced {
        event := event.(completedAt := Some(e.now));
      }
      events := events[t.eventName := event];
    }

    method CreateFailoverEvent(trigger: Trigger, e: Env)
      requires InFlight()
      modifies this`events
      ensures events == CreateEvent(Cluster(fs, manager.store, old(events)), fs.status.transition.value, trigger, e)
    {
      var t := fs.status.transition.value;
      if t.eventName in events || !e.eventCreate {
        return;
      }
      var event := Event(fs.name, t.direction, trigger, e.now, None, None, Unset, [], [], 0, 0);
      events := events[t.eventName := event];
      if e.eventStatus {
        event := event.(startedAt := Some(e.now));
        event := event.(outcome := InProgress);
        event := event.(generationBefore := fs.status.activeGeneration);
        events := events[t.eventName := event];
      }
    }

    // ----- One reconcile -----

    method Reconcile(e: Env)
      requires manager.uid == stored.uid && manager.writes == e.serviceWrites
      modifies this, manager
      ensures Outcome(State(), calls, completed) ==
              Controller.Reconcile(cfg, old(State()), e)
    {
      fs := stored;
      calls := NoCalls;
      completed := false;
      if fs.clusterID != cfg.id {
        fs := fs.(clusterID := cfg.id);
        Update(e.idWrite);
        if !e.idWrite {
          return;
        }
      }
      if fs.forceAdvance {
        HandleForceAdvance(e);
        return;
      }
      var phase := Idle;
      if fs.status.transition.Some? {
        phase := fs.status.transition.value.phase;
      }
      match phase {
        case Idle => ReconcileIdle(e);
        case ExecutingPreActions => ExecuteActionPhase(true, e);
        case UpdatingResources => ReconcileUpdatingResources(e);
        case FlushingConnections => ReconcileFlushingConnections(e);
        case ExecutingPostActions => ExecuteActionPhase(false, e);
      }
    }

    method HandleForceAdvance(e: Env)
      requires Fresh() && fs.forceAdvance
      modifies this`stored, this`fs, this`events
      ensures State() == ForceAdvance(old(State()), e)
    {
      if fs.status.transition.Some? {
        UpdateFailoverEvent(EventForceAdvanced, e);
        var t := fs.status.transition.value;
        match t.phase {
          case Idle =>
          case ExecutingPreActions => t := ForceAdvanceActionPhase(t, true, e.now);
          case ExecutingPostActions => t := ForceAdvanceActionPhase(t, false, e.now);
          case UpdatingResources =>
            t := t.(phase := FlushingConnections);
            t := t.(index := 0);
          case FlushingConnections =>
            t := t.(phase := ExecutingPostActions);
            t := t.(index := 0);
        }
        SetTransition(Some(t));
        UpdateStatus(e.statusWrite);
        if !e.statusWrite {
          return;
        }
      }
      fs := fs.(forceAdvance := false);
      Update(e.annotationWrite);
    }

    method ForceAdvanceActionPhase(t: Transition, isPre: bool, now: Time) returns (u: Transition)
      ensures u == SkipCurrent(t, isPre, now)
    {
      u := t;
      var i := t.index;
      if 0 <= i < |Results(u, isPre)| {
        var r := Results(u, isPre)[i];
        r := r.(status := Skipped);
        r := r.(completedAt := Some(now));
        r := r.(note := ForcedByOperator);
        u := SetResult(u, isPre, i, r);
        u := u.(index := u.index + 1);
      }
    }

    method BeginTransition(trigger: Trigger, e: Env)
      requires fs.(status := stored.status) == stored
      modifies this`stored, this`fs, this`events
      ensures State() == Begin(cfg, old(State()), old(fs).status, trigger, e)
    {
      var direction := if fs.spec.failoverActive then Failover else Failback;
      var hooks := HooksFor(cfg, fs.spec, direction);
      var oldAddress := Resolve(cfg, fs.spec, direction == Failback);
      var newAddress := Resolve(cfg, fs.spec, direction == Failover);
      var t := Transition(Idle, direction, Some(oldAddress), Some(newAddress), e.now, 0, [], [], Some(e.now), None,
                          EventName(direction, e.now));
      t := t.(pre := NewResults(hooks.preActions), post := NewResults(hooks.postActions));
      if |hooks.preActions| > 0 {
        t := t.(phase := ExecutingPreActions);
      } else {
        t := t.(phase := UpdatingResources);
      }
      SetTransition(Some(t));
      UpdateStatus(e.beginWrite);
      if !e.beginWrite {
        return;
      }
      CreateFailoverEvent(trigger, e);
    }

    method ReconcileIdle(e: Env)
      requires Fresh() && manager.writes == e.serviceWrites
      modifies this, manager
      ensures Outcome(State(), calls, completed) ==
              Controller.ReconcileIdle(cfg, old(State()), e)
    {
      if fs.status.lastKnown.Some? && fs.status.lastKnown.value != fs.spec.failoverActive {
        fs := fs.(status := fs.status.(specChangeTime := Some(e.now)));
        BeginTransition(Manual, e);
        return;
      }
      var ok := manager.Reconcile(fs.spec.ports, Resolve(cfg, fs.spec, fs.spec.failoverActive));
      if !ok {
        return;
      }
      ReconcileSteadyState(e);
    }

    method ReconcileSteadyState(e: Env)
      requires Fresh()
      modifies this
      ensures Outcome(State(), calls, completed) == SteadyState(cfg, old(State()), e)
    {
      var current := fs.spec.failoverActive;
      if cfg.syncer {
        calls := calls.(sync := Some(SyncView(current, fs.status.activeGeneration, fs.status.specChangeTime)));
        if e.sync.RemoteWins? {
          fs := fs.(spec := fs.spec.(failoverActive := e.sync.state.failoverActive));
          Update(e.specWrite);
          if !e.specWrite {
            return;
          }
          ApplyRemoteWinnerState(e.sync.state, current);
          UpdateStatus(e.adoptWrite);
          if !e.adoptWrite {
            return;
          }
          if current != fs.spec.failoverActive {
            BeginTransition(RemoteSync, e);
          }
          return;
        }
      }
      fs := fs.(status := fs.status.(lastKnown := Some(fs.spec.failoverActive)));
      UpdateStatus(e.statusWrite);
    }

    method ApplyRemoteWinnerState(r: RemoteState, previous: bool)
      modifies this`fs
      ensures fs == old(fs).(status := Adopted(old(fs).status, r, previous))
    {
      fs := fs.(status := fs.status.(lastKnown := Some(previous)));
      fs := fs.(status := fs.status.(specChangeTime := r.specChangeTime));
      fs := fs.(status := fs.status.(activeGeneration := r.activeGeneration));
      if r.activeCluster != "" {
        fs := fs.(status := fs.status.(activeCluster := r.activeCluster));
      }
    }

    // ----- Actions -----

    method ExecuteActionPhase(isPre: bool, e: Env)
      requires Fresh() && InFlight()
      modifies this
      ensures Outcome(State(), calls, completed) == Controller.ExecuteActionPhase(cfg, old(State()), isPre, e)
    {
      hide Complete, UpdateEvent, AfterExecution;
      EventIgnoresIndex(events, fs.status.transition.value, fs.status.activeGeneration, e);
      var t := fs.status.transition.value;
      var actions := ActionsFor(cfg, fs.spec, t.direction, isPre);
      if t.index < 0 {
        t := t.(index := 0);
      }
      var idx := t.index;
      // the hooks were edited mid-transition: what is left of the phase is skipped
      var diverged := idx < |actions| && idx >= |Results(t, isPre)|;
      if diverged || idx >= |actions| {
        EndActionPhase(t, isPre, e);
        return;
      }
      SetTransition(Some(t));
      var handled := HandleActionState(actions[idx], isPre, e);
      if !handled {
        RunAction(actions[idx], isPre, e);
      }
    }

    method EndActionPhase(t: Transition, isPre: bool, e: Env)
      requires Fresh() && InFlight()
      modifies this
      ensures Outcome(State(), calls, completed) ==
              Act(cfg, old(State()), old(fs).status.transition.value, isPre,
                  if isPre then Commit(t.(phase := UpdatingResources, index := 0)) else Finish, e)
    {
      if isPre {
        var u := t.(phase := UpdatingResources);
        u := u.(index := 0);
        SetTransition(Some(u));
        UpdateStatus(e.statusWrite);
      } else {
        CompleteTransition(e);
      }
    }

    /** The states that need no executor call: finished, failed, not yet started, overdue. */
    method HandleActionState(a: Action, isPre: bool, e: Env) returns (handled: bool)
      requires InFlight()
      requires var t := fs.status.transition.value;
               && 0 <= t.index < |Results(t, isPre)|
               && t.index < |ActionsFor(cfg, fs.spec, t.direction, isPre)|
               && a == ActionsFor(cfg, fs.spec, t.direction, isPre)[t.index]
      requires fs.status.activeGeneration == stored.status.activeGeneration
      requires stored.(status := fs.status) == fs
      modifies this`stored, this`fs, this`events
      ensures var t := old(fs).status.transition.value;
              match Decide(ActionsFor(cfg, old(fs).spec, t.direction, isPre), t, isPre, e.now)
              case Commit(u) =>
                && handled
                && events == old(events)
                && stored == (if e.statusWrite
                              then old(stored).(status := old(fs).status.(transition := Some(u))) else old(stored))
              case HaltOnFailure(u) =>
                && handled
                && events == UpdateEvent(old(events), t, EventFailed, old(fs).status.activeGeneration, e)
                && stored == (if e.statusWrite
                              then old(stored).(status := old(fs).status.(transition := Some(u))) else old(stored))
              case Execute(b) => !handled && b == a && stored == old(stored) && fs == old(fs) && events == old(events)
              case Finish => false
    {
      hide UpdateEvent, Overdue;
      var t := fs.status.transition.value;
      var r := Results(t, isPre)[t.index];
      handled := true;
      if r.status == Succeeded || r.status == Skipped {
        t := t.(index := t.index + 1);
        SetTransition(Some(t));
        UpdateStatus(e.statusWrite);
        return;
      }
      if r.status == Failed {
        if a.ignoreFailure {
          r := r.(status := Skipped);
          r := r.(completedAt := Some(e.now));
          t := SetResult(t, isPre, t.index, r);
          t := t.(index := t.index + 1);
          SetTransition(Some(t));
          UpdateStatus(e.statusWrite);
          return;
        }
        UpdateFailoverEvent(EventFailed, e);
        UpdateStatus(e.statusWrite);
        return;
      }
      if r.status == Pending {
        r := r.(status := Running);
        r := r.(startedAt := Some(e.now));
        SetTransition(Some(SetResult(t, isPre, t.index, r)));
        UpdateStatus(e.statusWrite);
        return;
      }
      var timedOut := CheckDeadlines(a, r, e.now);
      if timedOut {
        r := r.(status := Failed);
        r := r.(completedAt := Some(e.now));
        r := r.(note := TimedOut);
        SetTransition(Some(SetResult(t, isPre, t.index, r)));
        UpdateStatus(e.statusWrite);
        return;
      }
      handled := false;
    }

    method CheckDeadlines(a: Action, r: ActionResult, now: Time) returns (timedOut: bool)
      ensures timedOut <==> Overdue(a, r, now)
    {
      if a.kind.WaitReady? && r.startedAt.Some? {
        var timeout := 300;
        if a.kind.timeout.Some? {
          timeout := a.kind.timeout.value;
        }
        if now > r.startedAt.value + timeout {
          return true;
        }
      }
      if a.kind.Scale? && a.kind.waitReady && r.startedAt.Some? {
        var timeout := 300;
        if a.kind.timeout.Some? {
          timeout := a.kind.timeout.value;
        }
        if now > r.startedAt.value + timeout {
          return true;
        }
      }
      if a.kind.WaitRemote? && r.startedAt.Some? {
        var timeout := 300;
        if a.kind.timeout.Some? {
          timeout := a.kind.timeout.value;
        }
        if now > r.startedAt.value + timeout {
          return true;
        }
      }
      return false;
    }

    method RunAction(a: Action, isPre: bool, e: Env)
      requires InFlight() && 0 <= fs.status.transition.value.index < |Results(fs.status.transition.value, isPre)|
      requires Results(fs.status.transition.value, isPre)[fs.status.transition.value.index].status == Running
      modifies this`stored, this`fs, this`calls
      ensures var t := old(fs).status.transition.value;
              && calls == old(calls).(exec := Some(ExecCall(a, isPre, t.index, t)))
              && stored == (if e.statusWrite
                            then old(stored).(status := old(fs).status.(transition := Some(AfterExecution(t, isPre, a, e.exec, e.now))))
                            else old(stored))
    {
      var t := fs.status.transition.value;
      var idx := t.index;
      var r := Results(t, isPre)[idx];
      calls := calls.(exec := Some(ExecCall(a, isPre, idx, t)));
      if e.exec.ExecError? {
        r := r.(retryCount := r.retryCount + 1);
        if r.retryCount > MaxRetries(a) {
          r := r.(status := Failed);
          r := r.(completedAt := Some(e.now));
          r := r.(note := RetriesExhausted);
        } else {
          r := r.(note := Retrying);
        }
        SetTransition(Some(SetResult(t, isPre, idx, r)));
        UpdateStatus(e.statusWrite);
        return;
      }
      r := r.(jobName := e.exec.jobName);
      r := r.(note := FromExecutor(e.exec.message));
      if e.exec.completed {
        r := r.(completedAt := Some(e.now));
        if e.exec.succeeded {
          r := r.(status := Succeeded);
        } else {
          r := r.(status := Failed);
        }
      }
      t := SetResult(t, isPre, idx, r);
      if r.status == Succeeded {
        t := t.(index := idx + 1);
      }
      SetTransition(Some(t));
      UpdateStatus(e.statusWrite);
    }

    // ----- Resources and connections -----

    method ReconcileUpdatingResources(e: Env)
      requires Fresh() && InFlight() && manager.writes == e.serviceWrites
      modifies this, manager
      ensures Outcome(State(), calls, completed) ==
              UpdateResources(cfg, old(State()), e)
    {
      var t := fs.status.transition.value;
      var ok := manager.Reconcile(fs.spec.ports, NewAddress(cfg, fs.spec, t));
      if !ok {
        return;
      }
      t := t.(phase := FlushingConnections);
      t := t.(index := 0);
      SetTransition(Some(t));
      UpdateStatus(e.statusWrite);
    }

    method ReconcileFlushingConnections(e: Env)
      requires Fresh() && InFlight()
      modifies this
      ensures Outcome(State(), calls, completed) == FlushConnections(cfg, old(State()), e)
    {
      var t := fs.status.transition.value;
      var oldAddress := OldAddress(cfg, fs.spec, t);
      if cfg.signaler && oldAddress.IsIP() {
        if t.connectionKill.None? || !t.connectionKill.value.signalSent {
          calls := calls.(signal := Some(SignalCall(oldAddress, e.token)));
          if e.signal.SignalError? {
            return;
          }
          if |e.signal.nodes| == 0 {
            t := t.(connectionKill := None);
            SetTransition(Some(t));
          } else {
            t := t.(connectionKill := Some(ConnectionKill(true, e.token, e.signal.nodes, [])));
            SetTransition(Some(t));
            UpdateStatus(e.statusWrite);
            return;
          }
        }
        if t.connectionKill.Some? && t.connectionKill.value.signalSent {
          var ck := t.connectionKill.value;
          calls := calls.(acks := Some(AckCall(ck.token, ck.expectedNodes)));
          if e.acks.AckError? {
            return;
          }
          t := t.(connectionKill := Some(ck.(ackedNodes := e.acks.acked)));
          SetTransition(Some(t));
          if !e.acks.allAcked {
            UpdateStatus(e.statusWrite);
            return;
          }
        }
      }
      if |ActionsFor(cfg, fs.spec, t.direction, false)| > 0 {
        t := t.(phase := ExecutingPostActions);
        t := t.(index := 0);
        SetTransition(Some(t));
        UpdateStatus(e.statusWrite);
      } else {
        CompleteTransition(e);
      }
    }

    // ----- Completion -----

    method CleanupTransitionJobs(t: Transition)
      modifies this`calls
      ensures calls == old(calls).(jobs := Some(JobNames(t.pre + t.post)))
    {
      var results := t.pre + t.post;
      var names := [];
      for i := 0 to |results|
        invariant names == JobNames(results[..i])
      {
        assert results[..i + 1][..i] == results[..i];
        if results[i].jobName != "" {
          names := names + [results[i].jobName];
        }
      }
      assert results[..|results|] == results;
      calls := calls.(jobs := Some(names));
    }

    method CompleteTransition(e: Env)
      requires InFlight() && !completed && calls.sync.None? && !calls.cleanup
      requires fs == stored.(status := stored.status.(transition := fs.status.transition))
      modifies this
      ensures Outcome(State(), calls, completed) ==
              Complete(cfg, old(State()), old(fs).status.transition.value, old(calls), e)
    {
      hide JobNames, UpdateEvent, Begin, NewTransition, CompleteAdopting, CompleteLocally;
      var saved := fs.status.transition;
      CleanupTransitionJobs(saved.value);
      calls := calls.(cleanup := cfg.signaler);
      var done := saved.value.direction == Failover;
      fs := fs.(status := fs.status.(lastKnown := Some(done)));
      SetTransition(None);
      fs := fs.(status := fs.status.(activeGeneration := fs.status.activeGeneration + 1));
      fs := fs.(status := fs.status.(activeCluster := cfg.id));
      if cfg.syncer {
        calls := calls.(sync :=
          Some(SyncView(fs.spec.failoverActive, fs.status.activeGeneration, fs.status.specChangeTime)));
        if e.sync.RemoteWins? {
          CompleteWithRemoteWinner(saved.value, e);
          return;
        }
      }
      PersistCompletion(saved.value, e);
    }

    /** Persists the completed status and only then records the outcome of transition `saved`. */
    method PersistCompletion(saved: Transition, e: Env)
      requires !completed && fs.status.transition.None?
      requires fs == stored.(status := fs.status)
      modifies this
      ensures Outcome(State(), calls, completed) == CompleteLocally(old(State()), saved, old(fs).status, old(calls), e)
    {
      UpdateStatus(e.statusWrite);
      if !e.statusWrite {
        return;
      }
      completed := true;
      SetTransition(Some(saved));
      UpdateFailoverEvent(EventSucceeded, e);
      SetTransition(None);
    }

    /** The remote won the sync at the end of transition `saved`: adopt its value and maybe start over. */
    method CompleteWithRemoteWinner(saved: Transition, e: Env)
      requires !completed && e.sync.RemoteWins?
      requires fs.(status := stored.status) == stored
      modifies this
      ensures Outcome(State(), calls, completed) == CompleteAdopting(cfg, old(State()), saved, old(calls), e)
    {
      var done := saved.direction == Failover;
      fs := fs.(spec := fs.spec.(failoverActive := e.sync.state.failoverActive));
      Update(e.specWrite);
      if !e.specWrite {
        return;
      }
      ApplyRemoteWinnerState(e.sync.state, done);
      SetTransition(None);
      UpdateStatus(e.adoptWrite);
      if !e.adoptWrite {
        return;
      }
      completed := true;
      SetTransition(Some(saved));
      UpdateFailoverEvent(EventSucceeded, e);
      SetTransition(None);
      if done != fs.spec.failoverActive {
        BeginTransition(RemoteSync, e);
      }
    }
  }
}
