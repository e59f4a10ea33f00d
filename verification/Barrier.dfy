/**
 * The cross-cluster barrier: a pre-action that waits for the remote to reach UpdatingResources keeps
 * local traffic at the old address until the remote has passed its own pre-actions.
 */
module Barrier {
  import opened Api
  import opened Controller
  import opened Progress
  import opened Pair
  import Events
  import Traffic
  import Wait = WaitRemote

  // ----- The claim -----

  /** A pre-action that waits for the remote's UpdatingResources phase and must not fail. */
  predicate IsBarrier(a: Action) {
    a.kind.WaitRemote? && a.kind.phase == Some(UpdatingResources) && !a.ignoreFailure
  }

  /** Transition `n` is in flight, past its pre-action phase, with every pre-action finished. */
  predicate Crossed(c: Cluster, n: EventName) {
    && c.fs.status.transition.Some?
    && var t := c.fs.status.transition.value;
    && t.eventName == n && t.direction == n.direction && t.startedAt == Some(n.startedAt)
    && t.phase in {UpdatingResources, FlushingConnections, ExecutingPostActions}
    && forall k :: 0 <= k < |t.pre| ==> Finished(t.pre[k])
  }

  predicate CrossedBy(ws: seq<World>, s: Side, k: nat, n: EventName) {
    exists j {:trigger ws[j]} :: 0 <= j <= k && j < |ws| && Crossed(ws[j].Of(s), n)
  }

  /** The start of the transition was never written to its event. */
  predicate StartUnrecorded(c: Cluster, n: EventName) {
    n in c.events && c.events[n].startedAt.None?
  }

  /** By step `k` the event without its start was, at some time, completed (or else created) late enough. */
  predicate PassesForLater(ws: seq<World>, s: Side, k: nat, n: EventName, since: Time) {
    exists m {:trigger ws[m]} ::
      0 <= m <= k && m < |ws| && StartUnrecorded(ws[m].Of(s), n) && Wait.NotBefore(ws[m].Of(s).events[n], Some(since))
  }

  /**
   * By step `k` a transition of `s` in direction `d` has crossed that did not start before `since`, or that
   * passed for one because its start was never written.
   */
  ghost predicate Evidence(ws: seq<World>, s: Side, k: nat, d: Direction, since: Time)
    requires k < |ws|
  {
    exists n: EventName :: CrossedBy(ws, s, k, n) && n.direction == d
                           && (n.startedAt >= since || PassesForLater(ws, s, k, n, since))
  }

  // ----- The runs -----

  predicate WaitsIn(cfg: Config, spec: Spec, d: Direction, i: nat) {
    i < |ActionsFor(cfg, spec, d, true)| && IsBarrier(ActionsFor(cfg, spec, d, true)[i])
  }

  predicate StartsAtRest(c: Cluster) {
    Inv(c) && c.fs.status.transition.None? && c.events == map[]
  }

  /** Edits keep the hooks (of both sides) and the addresses (of the waiting side), and never force it. */
  predicate AdmissibleEdit(w0: World, waiting: Side, l: WorldLabel) {
    l.Editing? ==>
      && ValidSpec(l.spec)
      && SameHooks(w0.Of(l.side).fs.spec, l.spec)
      && (l.side == waiting ==> !l.forceAdvance && Traffic.SameAddresses(w0.Of(l.side).fs.spec, l.spec))
  }

  predicate BarrierRun(setup: Setup, ws: seq<World>, ls: seq<WorldLabel>, waiting: Side, d: Direction, i: nat) {
    && IsWorldRun(setup, ws, ls)
    && StartsAtRest(ws[0].a) && StartsAtRest(ws[0].b)
    && !ws[0].Of(waiting).fs.forceAdvance
    && Traffic.TrafficInv(setup.Of(waiting), ws[0].Of(waiting))
    && WaitsIn(setup.Of(waiting), ws[0].Of(waiting).fs.spec, d, i)
    && forall m :: 0 <= m < |ls| ==> AdmissibleEdit(ws[0], waiting, ls[m])
  }

  // ----- What holds of each cluster on its own -----

  predicate Local(cfg: Config, c0: Cluster, c: Cluster) {
    Inv(c) && PreActionsHonored(cfg, c) && SameHooks(c0.fs.spec, c.fs.spec)
  }

  predicate Unforced(cfg: Config, c0: Cluster, c: Cluster) {
    NoneForced(c) && !c.fs.forceAdvance && Traffic.TrafficInv(cfg, c) && Traffic.SameAddresses(c0.fs.spec, c.fs.spec)
  }

  lemma LocalStep(setup: Setup, w0: World, w: World, l: WorldLabel, s: Side, waiting: Side)
    requires Local(setup.Of(s), w0.Of(s), w.Of(s)) && AdmissibleEdit(w0, waiting, l)
    ensures Local(setup.Of(s), w0.Of(s), WorldStep(setup, w, l).Of(s))
  {
    hide WorldStep, Step, PreActionsHonored;
    Projection(setup, w, l, s);
    var m := LabelOf(setup, w, l, s);
    StepKeepsInv(setup.Of(s), w.Of(s), m);
    StepHonorsPreActions(setup.Of(s), w.Of(s), m);
  }

  lemma UnforcedWorldStep(setup: Setup, w0: World, w: World, l: WorldLabel, s: Side)
    requires Local(setup.Of(s), w0.Of(s), w.Of(s)) && Unforced(setup.Of(s), w0.Of(s), w.Of(s)) && AdmissibleEdit(w0, s, l)
    ensures Unforced(setup.Of(s), w0.Of(s), WorldStep(setup, w, l).Of(s))
  {
    hide WorldStep, Reconcile, Traffic.TrafficInv, PreActionsHonored;
    Projection(setup, w, l, s);
    var m := LabelOf(setup, w, l, s);
    Traffic.StepKeepsTraffic(setup.Of(s), w.Of(s), m);
    if m.Reconciles? {
      UnforcedStep(setup.Of(s), w.Of(s), m.env);
      ForceAdvanceStaysOff(setup.Of(s), w.Of(s), m.env);
    }
  }

  lemma ForceAdvanceStaysOff(cfg: Config, c: Cluster, e: Env)
    requires Inv(c) && !c.fs.forceAdvance
    ensures !Reconcile(cfg, c, e).cluster.fs.forceAdvance
  {
    hide Reconcile;
    if c.fs.status.transition.Some? {
      ReconcileInFlight(cfg, c, e);
    } else {
      ReconcileAtRest(cfg, c, e);
    }
  }

  // ----- The remote side: every event on record belongs to a transition that has crossed -----

  predicate OnRecord(c: Cluster, n: EventName) {
    && n in c.events
    && c.events[n].direction == n.direction
    && c.events[n].startedAt in {None, Some(n.startedAt)}
  }

  predicate InFlightAs(c: Cluster, n: EventName) {
    c.fs.status.transition.Some? && c.fs.status.transition.value.eventName == n
  }

  predicate Recorded(ws: seq<World>, s: Side, k: nat)
    requires k < |ws|
  {
    forall n :: n in ws[k].Of(s).events ==>
      OnRecord(ws[k].Of(s), n) && (InFlightAs(ws[k].Of(s), n) || CrossedBy(ws, s, k, n))
  }

  lemma PastPhaseHasCrossed(cfg: Config, c0: Cluster, c: Cluster)
    requires Local(cfg, c0, c) && c.fs.status.transition.Some? && c.fs.status.transition.value.phase != ExecutingPreActions
    ensures Crossed(c, c.fs.status.transition.value.eventName)
  {
  }

  /** The transition a cluster leaves behind has crossed. */
  lemma LeavingMeansCrossed(cfg: Config, c0: Cluster, c: Cluster, l: Label, n: EventName)
    requires Local(cfg, c0, c) && InFlightAs(c, n) && !InFlightAs(Step(cfg, c, l), n)
    ensures Crossed(c, n)
  {
    hide Reconcile;
    if l.Reconciles? {
      ReconcileInFlight(cfg, c, l.env);
      PastPhaseHasCrossed(cfg, c0, c);
    }
  }

  lemma RecordedStep(setup: Setup, ws: seq<World>, ls: seq<WorldLabel>, s: Side, k: nat)
    requires IsWorldRun(setup, ws, ls) && k < |ls| && Recorded(ws, s, k)
    requires Local(setup.Of(s), ws[0].Of(s), ws[k].Of(s))
    ensures Recorded(ws, s, k + 1)
    ensures Events.HistoryGrows(ws[k].Of(s).events, ws[k + 1].Of(s).events)
  {
    hide WorldStep, Reconcile, Enabled, Local, Crossed;
    var c, d := ws[k].Of(s), ws[k + 1].Of(s);
    var m := LabelOf(setup, ws[k], ls[k], s);
    Projection(setup, ws[k], ls[k], s);
    assert d == Step(setup.Of(s), c, m);
    if m.Reconciles? {
      Events.ReconcileGrows(setup.Of(s), c, m.env);
      Events.ReconcileAddsCurrent(setup.Of(s), c, m.env);
    }
    forall n | n in d.events
      ensures OnRecord(d, n) && (InFlightAs(d, n) || CrossedBy(ws, s, k + 1, n))
    {
      if n in c.events && !InFlightAs(d, n) {
        if InFlightAs(c, n) {
          LeavingMeansCrossed(setup.Of(s), ws[0].Of(s), c, m, n);
        } else {
          var j :| 0 <= j <= k && j < |ws| && Crossed(ws[j].Of(s), n);
        }
      }
    }
  }

  // ----- The waiting side -----

  /** If the barrier has been passed by the transition in flight, there is evidence. */
  ghost predicate PassedWithEvidence(ws: seq<World>, waiting: Side, k: nat, d: Direction, i: nat)
    requires k < |ws|
  {
    var c := ws[k].Of(waiting);
    c.fs.status.transition.Some? && c.fs.status.transition.value.direction == d
    && i < |c.fs.status.transition.value.pre| && c.fs.status.transition.value.pre[i].status == Succeeded ==>
      Evidence(ws, Other(waiting), k, d, c.fs.status.transition.value.transitionID)
  }

  lemma EvidenceStays(ws: seq<World>, s: Side, k: nat, d: Direction, since: Time)
    requires k + 1 < |ws| && Evidence(ws, s, k, d, since)
    ensures Evidence(ws, s, k + 1, d, since)
  {
    hide Crossed;
    var n :| CrossedBy(ws, s, k, n) && n.direction == d && (n.startedAt >= since || PassesForLater(ws, s, k, n, since));
    var j :| 0 <= j <= k && j < |ws| && Crossed(ws[j].Of(s), n);
    assert CrossedBy(ws, s, k + 1, n);
    if PassesForLater(ws, s, k, n, since) {
      var m :| 0 <= m <= k && m < |ws| && StartUnrecorded(ws[m].Of(s), n) && Wait.NotBefore(ws[m].Of(s).events[n], Some(since));
      assert PassesForLater(ws, s, k + 1, n, since);
    }
  }

  /** A fulfilled wait is evidence in the remote state it was checked against. */
  lemma FulfilledIsEvidence(
    setup: Setup, ws: seq<World>, s: Side, k: nat, list: seq<Event>, since: Time, d: Direction)
    requires k < |ws| && Recorded(ws, s, k) && Local(setup.Of(s), ws[0].Of(s), ws[k].Of(s))
    requires Lists(list, ws[k].Of(s).events)
    requires Wait.CheckPhase(ws[k].Of(s).fs, list, UpdatingResources, Some(since), Some(d)) == Wait.Fulfilled
    ensures Evidence(ws, s, k, d, since)
  {
    var c := ws[k].Of(s);
    Wait.PhaseCheckIsSound(c.fs, list, UpdatingResources, Some(since), Some(d));
    if c.fs.status.transition.Some? {
      var n := c.fs.status.transition.value.eventName;
      PastPhaseHasCrossed(setup.Of(s), ws[0].Of(s), c);
      assert CrossedBy(ws, s, k, n);
    } else {
      var m :| 0 <= m < |list| && Wait.Matches(list[m], c.fs.name, Some(since), Some(d)) && Wait.Terminal(list[m]);
      var n :| n in c.events && c.events[n] == list[m];
      assert OnRecord(c, n) && CrossedBy(ws, s, k, n);
      assert StartUnrecorded(ws[k].Of(s), n) ==> PassesForLater(ws, s, k, n, since);
    }
  }

  lemma WaitingStep(setup: Setup, ws: seq<World>, ls: seq<WorldLabel>, waiting: Side, d: Direction, i: nat, k: nat)
    requires BarrierRun(setup, ws, ls, waiting, d, i) && k < |ls|
    requires Local(setup.Of(waiting), ws[0].Of(waiting), ws[k].Of(waiting))
    requires Unforced(setup.Of(waiting), ws[0].Of(waiting), ws[k].Of(waiting))
    requires Local(setup.Of(Other(waiting)), ws[0].Of(Other(waiting)), ws[k].Of(Other(waiting)))
    requires Recorded(ws, Other(waiting), k) && PassedWithEvidence(ws, waiting, k, d, i)
    ensures PassedWithEvidence(ws, waiting, k + 1, d, i)
  {
    hide WorldStep, Reconcile, Evidence, Crossed, Recorded, Traffic.TrafficInv;
    var cfg, remote := setup.Of(waiting), Other(waiting);
    var c, next := ws[k].Of(waiting), ws[k + 1].Of(waiting);
    var m := LabelOf(setup, ws[k], ls[k], waiting);
    Projection(setup, ws[k], ls[k], waiting);
    assert next == Step(cfg, c, m);
    RecordedStep(setup, ws, ls, remote, k);
    if next.fs.status.transition.Some? && next.fs.status.transition.value.direction == d
       && i < |next.fs.status.transition.value.pre| && next.fs.status.transition.value.pre[i].status == Succeeded
    {
      var u := next.fs.status.transition.value;
      if m.Edits? {
        EvidenceStays(ws, remote, k, d, u.transitionID);
      } else if c.fs.status.transition.None? {
        ReconcileAtRest(cfg, c, m.env);
        assert false;
      } else {
        var t := c.fs.status.transition.value;
        ReconcileInFlight(cfg, c, m.env);
        assert !Reconcile(cfg, c, m.env).completed;
        UnforcedStep(cfg, c, m.env);
        if t.pre[i].status != Succeeded {
          assert u.pre[i].status == Succeeded;
          PersistedBeforeExecuted(cfg, c, m.env);
          FulfilledIsEvidence(setup, ws, remote, k, ls[k].net.events, t.transitionID, d);
        }
        EvidenceStays(ws, remote, k, d, t.transitionID);
      }
    }
  }

  // ----- The barrier -----

  lemma {:induction false} BarrierInvariant(
    setup: Setup, ws: seq<World>, ls: seq<WorldLabel>, waiting: Side, d: Direction, i: nat, k: nat)
    requires BarrierRun(setup, ws, ls, waiting, d, i) && k < |ws|
    ensures Local(setup.Of(waiting), ws[0].Of(waiting), ws[k].Of(waiting))
    ensures Unforced(setup.Of(waiting), ws[0].Of(waiting), ws[k].Of(waiting))
    ensures Local(setup.Of(Other(waiting)), ws[0].Of(Other(waiting)), ws[k].Of(Other(waiting)))
    ensures Recorded(ws, Other(waiting), k) && PassedWithEvidence(ws, waiting, k, d, i)
  {
    hide WorldStep, Crossed, Traffic.TrafficInv;
    if k > 0 {
      BarrierInvariant(setup, ws, ls, waiting, d, i, k - 1);
      hide Local, Unforced, Recorded, PassedWithEvidence;
      LocalStep(setup, ws[0], ws[k - 1], ls[k - 1], waiting, waiting);
      LocalStep(setup, ws[0], ws[k - 1], ls[k - 1], Other(waiting), waiting);
      UnforcedWorldStep(setup, ws[0], ws[k - 1], ls[k - 1], waiting);
      RecordedStep(setup, ws, ls, Other(waiting), k - 1);
      WaitingStep(setup, ws, ls, waiting, d, i, k - 1);
    }
  }

  /**
   * In every run of the pair with unedited hooks and no force-advance of the waiting cluster, while it
   * has a transition in direction `d` in flight its traffic goes to the old address, unless by then a
   * transition of the remote in the same direction was seen past its pre-action phase with every
   * pre-action finished. That transition did not start before the local one; or else its start was never
   * written to its event, which at some time showed a completion (or else a creation) no earlier than that.
   */
  lemma CrossClusterBarrier(
    setup: Setup, ws: seq<World>, ls: seq<WorldLabel>, waiting: Side, d: Direction, i: nat, k: nat)
    requires BarrierRun(setup, ws, ls, waiting, d, i) && k < |ws|
    requires ws[k].Of(waiting).fs.status.transition.Some? && ws[k].Of(waiting).fs.status.transition.value.direction == d
    ensures var t := ws[k].Of(waiting).fs.status.transition.value;
            && t.startedAt.Some?
            && (|| (t.phase == ExecutingPreActions && Traffic.At(ws[k].Of(waiting)) == t.oldAddress)
                || Evidence(ws, Other(waiting), k, d, t.startedAt.value))
  {
    BarrierInvariant(setup, ws, ls, waiting, d, i, k);
    var cfg, c := setup.Of(waiting), ws[k].Of(waiting);
    var t := c.fs.status.transition.value;
    if t.phase != ExecutingPreActions {
      var actions := ActionsFor(cfg, c.fs.spec, d, true);
      assert actions == ActionsFor(cfg, ws[0].Of(waiting).fs.spec, d, true);
      assert Honored(actions[i], t.pre[i]);
    }
  }

  // ----- Runs in which every start is recorded -----

  /** No reconcile of `s` creates an event and then fails to write its start. */
  predicate StartsAreWritten(ls: seq<WorldLabel>, s: Side) {
    forall m :: 0 <= m < |ls| && ls[m].Reconciling? && ls[m].side == s ==> (ls[m].env.eventCreate ==> ls[m].env.eventStatus)
  }

  lemma {:induction false} NoUnrecordedStarts(setup: Setup, ws: seq<World>, ls: seq<WorldLabel>, s: Side, k: nat)
    requires IsWorldRun(setup, ws, ls) && StartsAtRest(ws[0].Of(s)) && StartsAreWritten(ls, s) && k < |ws|
    ensures forall n :: !StartUnrecorded(ws[k].Of(s), n)
  {
    hide WorldStep, Reconcile, Enabled;
    if k > 0 {
      NoUnrecordedStarts(setup, ws, ls, s, k - 1);
      var c := ws[k - 1].Of(s);
      var m := LabelOf(setup, ws[k - 1], ls[k - 1], s);
      Projection(setup, ws[k - 1], ls[k - 1], s);
      assert ws[k].Of(s) == Step(setup.Of(s), c, m);
      if m.Reconciles? {
        Events.ReconcileGrows(setup.Of(s), c, m.env);
        Events.ReconcileAddsCurrent(setup.Of(s), c, m.env);
        assert ls[k - 1].Reconciling? && ls[k - 1].side == s && m.env == ls[k - 1].env;
      }
      forall n ensures !StartUnrecorded(ws[k].Of(s), n) {
        assert !StartUnrecorded(c, n);
      }
    }
  }

  /** The barrier without the escape: the remote transition did not start before the local one. */
  lemma CrossClusterBarrierStrict(
    setup: Setup, ws: seq<World>, ls: seq<WorldLabel>, waiting: Side, d: Direction, i: nat, k: nat)
    requires BarrierRun(setup, ws, ls, waiting, d, i) && StartsAreWritten(ls, Other(waiting)) && k < |ws|
    requires ws[k].Of(waiting).fs.status.transition.Some? && ws[k].Of(waiting).fs.status.transition.value.direction == d
    ensures var t := ws[k].Of(waiting).fs.status.transition.value;
            && t.startedAt.Some?
            && (|| (t.phase == ExecutingPreActions && Traffic.At(ws[k].Of(waiting)) == t.oldAddress)
                || exists n: EventName ::
                     CrossedBy(ws, Other(waiting), k, n) && n.direction == d && n.startedAt >= t.startedAt.value)
  {
    hide BarrierRun, CrossedBy, StartUnrecorded;
    CrossClusterBarrier(setup, ws, ls, waiting, d, i, k);
    RunStartsAtRest(setup, ws, ls, waiting, d, i);
    forall m | 0 <= m <= k ensures forall n :: !StartUnrecorded(ws[m].Of(Other(waiting)), n) {
      NoUnrecordedStarts(setup, ws, ls, Other(waiting), m);
    }
  }

  lemma RunStartsAtRest(setup: Setup, ws: seq<World>, ls: seq<WorldLabel>, waiting: Side, d: Direction, i: nat)
    requires BarrierRun(setup, ws, ls, waiting, d, i)
    ensures IsWorldRun(setup, ws, ls) && StartsAtRest(ws[0].Of(Other(waiting)))
  {
  }

  // ----- Waiting for each other -----

  /** A step changes the status of one cluster only. */
  lemma OneSideMoves(setup: Setup, w: World, l: WorldLabel, n: EventName)
    ensures Crossed(WorldStep(setup, w, l).Of(Other(l.side)), n) <==> Crossed(w.Of(Other(l.side)), n)
  {
    hide Reconcile;
  }

  /** Nobody has crossed in direction `d` up to step `k`. */
  ghost predicate NobodyCrossed(ws: seq<World>, d: Direction, k: nat) {
    forall s, n: EventName :: n.direction == d ==> !CrossedBy(ws, s, k, n)
  }

  /** Without a crossing of the other side there is none of this side. */
  lemma CrossingNeedsEvidence(
    setup: Setup, ws: seq<World>, ls: seq<WorldLabel>, waiting: Side, d: Direction, i: nat, k: nat, n: EventName)
    requires BarrierRun(setup, ws, ls, waiting, d, i) && k < |ws|
    requires Crossed(ws[k].Of(waiting), n) && n.direction == d
    ensures exists m: EventName :: CrossedBy(ws, Other(waiting), k, m) && m.direction == d
  {
    hide BarrierRun, CrossedBy;
    CrossClusterBarrier(setup, ws, ls, waiting, d, i, k);
  }

  /**
   * When each cluster's pre-actions wait for the other to reach its resource update in the same direction,
   * neither ever does: both keep their traffic at the old address for as long as nobody forces or edits them.
   */
  lemma MutualWaitDeadlocks(
    setup: Setup, ws: seq<World>, ls: seq<WorldLabel>, d: Direction, i: nat, j: nat, k: nat)
    requires BarrierRun(setup, ws, ls, SideA, d, i) && BarrierRun(setup, ws, ls, SideB, d, j) && k < |ws|
    ensures NobodyCrossed(ws, d, k)
  {
    hide BarrierRun, Crossed;
    forall s: Side, n: EventName, m: nat | n.direction == d && m <= k
      ensures !Crossed(ws[m].Of(s), n)
    {
      NeverCrosses(setup, ws, ls, d, i, j, s, n, m);
    }
  }

  lemma {:induction false} NeverCrosses(
    setup: Setup, ws: seq<World>, ls: seq<WorldLabel>, d: Direction, i: nat, j: nat, s: Side, n: EventName, m: nat)
    requires BarrierRun(setup, ws, ls, SideA, d, i) && BarrierRun(setup, ws, ls, SideB, d, j) && m < |ws|
    requires n.direction == d
    ensures !Crossed(ws[m].Of(s), n)
    decreases m
  {
    hide Crossed, WorldStep;
    if m == 0 {
      NotCrossedAtRest(ws[0].Of(s), n);
    } else if ls[m - 1].side != s {
      OneSideMoves(setup, ws[m - 1], ls[m - 1], n);
      NeverCrosses(setup, ws, ls, d, i, j, s, n, m - 1);
    } else if Crossed(ws[m].Of(s), n) {
      CrossingNeedsEvidence(setup, ws, ls, s, d, if s == SideA then i else j, m, n);
      var o: EventName :| CrossedBy(ws, Other(s), m, o) && o.direction == d;
      var q :| 0 <= q <= m && q < |ws| && Crossed(ws[q].Of(Other(s)), o);
      if q == m {
        OneSideMoves(setup, ws[m - 1], ls[m - 1], o);
      }
      NeverCrosses(setup, ws, ls, d, i, j, Other(s), o, if q == m then m - 1 else q);
    }
  }

  lemma NotCrossedAtRest(c: Cluster, n: EventName)
    requires StartsAtRest(c)
    ensures !Crossed(c, n)
  {
  }

  /** So in a mutual wait every transition in that direction stays in its pre-actions. */
  lemma MutualWaitHoldsTraffic(
    setup: Setup, ws: seq<World>, ls: seq<WorldLabel>, d: Direction, i: nat, j: nat, k: nat, s: Side)
    requires BarrierRun(setup, ws, ls, SideA, d, i) && BarrierRun(setup, ws, ls, SideB, d, j) && k < |ws|
    requires ws[k].Of(s).fs.status.transition.Some? && ws[k].Of(s).fs.status.transition.value.direction == d
    ensures var t := ws[k].Of(s).fs.status.transition.value;
            t.phase == ExecutingPreActions && Traffic.At(ws[k].Of(s)) == t.oldAddress
  {
    hide BarrierRun, CrossedBy;
    MutualWaitDeadlocks(setup, ws, ls, d, i, j, k);
    CrossClusterBarrier(setup, ws, ls, s, d, if s == SideA then i else j, k);
  }
}
