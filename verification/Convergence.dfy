/**
 * How long a cluster can keep moving once nobody edits its spec and the remote no longer overrules
 * it, and where it comes to rest.
 */
module Convergence {
  import opened Api
  import opened Controller
  import opened Progress
  import Pair
  import Traffic
  import SM = ServiceManager

  /** The cost of a whole transition in direction `d` with the current hooks. */
  function FullCost(cfg: Config, spec: Spec, d: Direction): nat {
    54 * (|ActionsFor(cfg, spec, d, true)| + |ActionsFor(cfg, spec, d, false)|) + 5
  }

  /** An upper bound on the steps that can still change the control state of the cluster. */
  function Budget(cfg: Config, c: Cluster): int {
    var v := c.fs.spec.failoverActive;
    match c.fs.status.transition
    case Some(t) =>
      StepsLeft(t) + 1 + if t.direction == DirectionOf(v) then 0 else FullCost(cfg, c.fs.spec, DirectionOf(v)) + 2
    case None =>
      if c.fs.status.lastKnown == Some(v) then 0
      else if c.fs.status.lastKnown.None? then 1
      else FullCost(cfg, c.fs.spec, DirectionOf(v)) + 2
  }

  predicate Settled(c: Cluster) {
    c.fs.status.transition.None? && c.fs.status.lastKnown == Some(c.fs.spec.failoverActive)
  }

  /** Nothing moved: at rest as before, or the same transition in the same control state. */
  predicate Unmoved(c: Cluster, d: Cluster) {
    match (c.fs.status.transition, d.fs.status.transition)
    case (None, None) => c.fs.status.lastKnown == d.fs.status.lastKnown
    case (Some(t), Some(u)) => SameTransition(t, u) && SameControl(t, u)
    case _ => false
  }

  predicate Overruled(o: Outcome, e: Env) {
    o.calls.sync.Some? && e.sync.RemoteWins?
  }

  lemma BudgetMeans(cfg: Config, c: Cluster)
    requires Inv(c)
    ensures Budget(cfg, c) >= 0
    ensures Budget(cfg, c) == 0 <==> Settled(c)
  {
    if c.fs.status.transition.Some? {
      StepsLeftBounded(c.fs.status.transition.value);
    }
  }

  lemma NewTransitionCost(cfg: Config, spec: Spec, now: Time)
    ensures StepsLeft(NewTransition(cfg, spec, now)) <= FullCost(cfg, spec, DirectionOf(spec.failoverActive))
    ensures NewTransition(cfg, spec, now).direction == DirectionOf(spec.failoverActive)
  {
    NewTransitionInv(cfg, spec, now);
    StepsLeftBounded(NewTransition(cfg, spec, now));
  }

  /** Every reconcile that is not overruled moves the cluster at the expense of its budget, or not at all. */
  lemma BudgetStep(cfg: Config, c: Cluster, e: Env)
    requires Inv(c) && !Overruled(Reconcile(cfg, c, e), e)
    ensures var d := Reconcile(cfg, c, e).cluster;
            && Inv(d)
            && d.fs.spec == c.fs.spec
            && (Unmoved(c, d) || Budget(cfg, d) < Budget(cfg, c))
            && (Unmoved(c, d) ==> Budget(cfg, d) == Budget(cfg, c))
  {
    hide Reconcile, NewTransition;
    Pair.ReconcileSyncs(cfg, c, e);
    var d := Reconcile(cfg, c, e).cluster;
    NewTransitionCost(cfg, d.fs.spec, e.now);
    if c.fs.status.transition.Some? {
      var t := c.fs.status.transition.value;
      ReconcileInFlight(cfg, c, e);
      StepsLeftBounded(t);
      if d.fs.status.transition.Some? && SameControl(t, d.fs.status.transition.value) {
        SameControlCostsNothing(t, d.fs.status.transition.value);
      }
    } else {
      ReconcileAtRest(cfg, c, e);
      if c.fs.status.lastKnown.None? {
        Pair.RestLearns(cfg, c, e);
      }
    }
  }

  // ----- Runs -----

  predicate Undisturbed(cfg: Config, cs: seq<Cluster>, ls: seq<Label>)
    requires |ls| <= |cs|
  {
    forall i {:trigger ls[i]} :: 0 <= i < |ls| ==> ls[i].Reconciles? && !Overruled(Reconcile(cfg, cs[i], ls[i].env), ls[i].env)
  }

  function Moves(cs: seq<Cluster>, k: nat): nat
    requires k < |cs|
  {
    if k == 0 then 0 else Moves(cs, k - 1) + if Unmoved(cs[k - 1], cs[k]) then 0 else 1
  }

  /** In any undisturbed run, at most `Budget` steps move the cluster; the rest are waits. */
  lemma {:induction false} BoundedMoves(cfg: Config, cs: seq<Cluster>, ls: seq<Label>, k: nat)
    requires IsRun(cfg, cs, ls) && Inv(cs[0])
    requires |cs| == |ls| + 1 && Undisturbed(cfg, cs, ls) && k < |cs|
    ensures Inv(cs[k]) && cs[k].fs.spec == cs[0].fs.spec
    ensures Moves(cs, k) + Budget(cfg, cs[k]) <= Budget(cfg, cs[0])
    ensures Moves(cs, k) <= Budget(cfg, cs[0])
  {
    hide Reconcile, Budget;
    BudgetMeans(cfg, cs[0]);
    if k > 0 {
      BoundedMoves(cfg, cs, ls, k - 1);
      BudgetStep(cfg, cs[k - 1], ls[k - 1].env);
      BudgetMeans(cfg, cs[k]);
    }
  }

  // ----- Coming to rest -----

  /**
   * The writes of the transition succeed, the action does, every signalled node has acked, and the remote
   * does not overrule. Nothing is said about which nodes are signalled, jobs, tokens, times or events.
   */
  predicate Cooperative(e: Env) {
    && e.idWrite && e.statusWrite && e.beginWrite && e.serviceWrites >= 4
    && e.exec.ExecResult? && e.exec.completed && e.exec.succeeded
    && e.signal.Signaled?
    && e.acks.Acks? && e.acks.allAcked
    && e.sync.LocalStands?
  }

  /** No Service or slice of somebody else is in the way. */
  predicate Unclaimed(c: Cluster) {
    && SM.WellShaped(c.fs.uid, c.store)
    && (c.store.service.Some? ==> c.fs.uid in c.store.service.value.owners)
    && (c.store.slice.Some? ==> c.fs.uid in c.store.slice.value.owners)
  }

  lemma ServiceWriteSucceeds(uid: string, ports: seq<Port>, s: SM.Store, a: Address, writes: nat)
    requires s.service.Some? ==> uid in s.service.value.owners
    requires s.slice.Some? ==> uid in s.slice.value.owners
    ensures writes >= 4 ==> SM.ReconcileWithAddress(uid, ports, s, a, writes).ok
    ensures var t := SM.ReconcileWithAddress(uid, ports, s, a, writes).store;
            && (t.service.Some? ==> uid in t.service.value.owners)
            && (t.slice.Some? ==> uid in t.slice.value.owners)
  {
  }

  lemma StaysUnclaimed(cfg: Config, c: Cluster, e: Env)
    requires Inv(c) && Unclaimed(c) && !c.fs.forceAdvance
    ensures Unclaimed(Reconcile(cfg, c, e).cluster)
  {
    hide Reconcile, SM.ReconcileWithAddress, SM.WellShaped, SM.PointsAt;
    if c.fs.status.transition.None? {
      ReconcileAtRest(cfg, c, e);
      Traffic.RestWrites(cfg, c, e);
      Traffic.RestKeepsShape(cfg, c, e);
      ServiceWriteSucceeds(c.fs.uid, c.fs.spec.ports, c.store, Resolve(cfg, c.fs.spec, c.fs.spec.failoverActive), e.serviceWrites);
    } else {
      ReconcileInFlight(cfg, c, e);
      if c.fs.status.transition.value.phase == UpdatingResources {
        Traffic.UpdateSwitches(cfg, c, e);
        UpdateWrites(cfg, c, e);
        ServiceWriteSucceeds(c.fs.uid, c.fs.spec.ports, c.store, NewAddress(cfg, c.fs.spec, c.fs.status.transition.value), e.serviceWrites);
      } else {
        Traffic.StoreKeptElsewhere(cfg, c, e);
      }
    }
  }

  /** The write made while resources are being updated. */
  lemma UpdateWrites(cfg: Config, c: Cluster, e: Env)
    requires c.fs.status.transition.Some? && c.fs.status.transition.value.phase == UpdatingResources && !c.fs.forceAdvance
    ensures var attempt := SM.ReconcileWithAddress(c.fs.uid, c.fs.spec.ports, c.store,
                                                   NewAddress(cfg, c.fs.spec, c.fs.status.transition.value), e.serviceWrites);
            Reconcile(cfg, c, e).cluster.store in {c.store, attempt.store}
  {
    hide SM.ReconcileWithAddress;
  }

  /** A cooperative reconcile always moves the cluster, unless it is settled or halted on a failed action. */
  lemma CooperationMoves(cfg: Config, c: Cluster, e: Env)
    requires Inv(c) && Unclaimed(c) && !c.fs.forceAdvance && Cooperative(e)
    requires !Settled(c) && !Halted(cfg, c)
    ensures !Unmoved(c, Reconcile(cfg, c, e).cluster)
  {
    hide SM.ReconcileWithAddress, NewTransition, CreateEvent, UpdateEvent, JobNames;
    if c.fs.status.transition.None? {
      ServiceWriteSucceeds(c.fs.uid, c.fs.spec.ports, c.store, Resolve(cfg, c.fs.spec, c.fs.spec.failoverActive), e.serviceWrites);
    } else {
      var t := c.fs.status.transition.value;
      match t.phase {
        case ExecutingPreActions => ActionsCooperate(cfg, c, true, e);
        case ExecutingPostActions => ActionsCooperate(cfg, c, false, e);
        case UpdatingResources =>
          ServiceWriteSucceeds(c.fs.uid, c.fs.spec.ports, c.store, NewAddress(cfg, c.fs.spec, t), e.serviceWrites);
        case FlushingConnections =>
      }
    }
  }

  lemma ActionsCooperate(cfg: Config, c: Cluster, isPre: bool, e: Env)
    requires Inv(c) && !c.fs.forceAdvance && !Halted(cfg, c) && Cooperative(e)
    requires c.fs.status.transition.Some? && c.fs.status.transition.value.phase == PhaseOf(isPre)
    ensures !Unmoved(c, Reconcile(cfg, c, e).cluster)
  {
    hide CreateEvent, UpdateEvent, JobNames;
    var t := c.fs.status.transition.value;
    DecideMoves(ActionsFor(cfg, c.fs.spec, t.direction, isPre), t, isPre, e.now);
    match Decide(ActionsFor(cfg, c.fs.spec, t.direction, isPre), t, isPre, e.now) {
      case Commit(u) =>
        if SameControl(t, u) {
          SameControlCostsNothing(t, u);
        }
      case _ =>
    }
  }

  /** Good standing: nothing but a failed action can keep the cluster from coming to rest. */
  predicate Unimpeded(c: Cluster) {
    Inv(c) && Unclaimed(c) && !c.fs.forceAdvance
  }

  /** Cooperative or not, a reconcile that is not overruled never sets the cluster back. */
  lemma UnimpededStep(cfg: Config, c: Cluster, e: Env)
    requires Unimpeded(c) && !Overruled(Reconcile(cfg, c, e), e)
    ensures var d := Reconcile(cfg, c, e).cluster;
            && Unimpeded(d) && d.fs.spec == c.fs.spec
            && 0 <= Budget(cfg, d) <= Budget(cfg, c)
            && (Cooperative(e) && !Halted(cfg, c) && Budget(cfg, c) > 0 ==> Budget(cfg, d) < Budget(cfg, c))
  {
    hide Reconcile, Halted, Unclaimed, Budget, Cooperative;
    BudgetStep(cfg, c, e);
    BudgetMeans(cfg, c);
    BudgetMeans(cfg, Reconcile(cfg, c, e).cluster);
    StaysUnclaimed(cfg, c, e);
    if c.fs.status.transition.Some? {
      ReconcileInFlight(cfg, c, e);
    } else {
      ReconcileAtRest(cfg, c, e);
    }
    if Cooperative(e) && !Settled(c) && !Halted(cfg, c) {
      CooperationMoves(cfg, c, e);
    }
  }

  /** How many of the first `k` reconciles were cooperative. */
  function Helped(ls: seq<Label>, k: nat): nat
    requires k <= |ls|
  {
    if k == 0 then 0 else Helped(ls, k - 1) + if ls[k - 1].Reconciles? && Cooperative(ls[k - 1].env) then 1 else 0
  }

  ghost predicate HaltsBefore(cfg: Config, cs: seq<Cluster>, k: nat)
    requires k <= |cs|
  {
    exists m {:trigger cs[m]} :: 0 <= m < k && Halted(cfg, cs[m])
  }

  /**
   * In every run in which nobody edits the spec and the remote does not overrule: once as many reconciles
   * were cooperative as the cluster had budget at the start, wherever in the run they fell, the cluster is
   * at rest with LastKnownFailoverActive equal to the spec, unless it halted on a failed action on the way.
   */
  lemma {:induction false} CooperationSettles(cfg: Config, cs: seq<Cluster>, ls: seq<Label>, k: nat)
    requires IsRun(cfg, cs, ls) && Unimpeded(cs[0])
    requires |cs| == |ls| + 1 && Undisturbed(cfg, cs, ls) && k < |cs|
    ensures Unimpeded(cs[k]) && cs[k].fs.spec == cs[0].fs.spec && 0 <= Budget(cfg, cs[k])
    ensures !HaltsBefore(cfg, cs, k) ==> Budget(cfg, cs[k]) == 0 || Budget(cfg, cs[k]) + Helped(ls, k) <= Budget(cfg, cs[0])
    ensures !HaltsBefore(cfg, cs, k) && Helped(ls, k) >= Budget(cfg, cs[0]) ==> Settled(cs[k])
  {
    hide Step, Budget, Halted, Unimpeded, Cooperative, Settled, Reconcile, Overruled;
    ImpededOrNot(cfg, cs[0]);
    if k > 0 {
      CooperationSettles(cfg, cs, ls, k - 1);
      StepIsReconcile(cfg, cs[k - 1], ls[k - 1]);
      UnimpededStep(cfg, cs[k - 1], ls[k - 1].env);
      assert !HaltsBefore(cfg, cs, k) ==> !HaltsBefore(cfg, cs, k - 1) && !Halted(cfg, cs[k - 1]);
    }
    ImpededOrNot(cfg, cs[k]);
  }

  lemma StepIsReconcile(cfg: Config, c: Cluster, l: Label)
    requires l.Reconciles?
    ensures Step(cfg, c, l) == Reconcile(cfg, c, l.env).cluster
  {
    hide Reconcile;
  }

  lemma ImpededOrNot(cfg: Config, c: Cluster)
    requires Unimpeded(c)
    ensures 0 <= Budget(cfg, c) && (Budget(cfg, c) == 0 <==> Settled(c))
  {
    BudgetMeans(cfg, c);
  }

  // ----- Both clusters of a pair -----

  /** How many of the first `k` steps were cooperative reconciles of `s`. */
  function HelpedOf(ls: seq<Pair.WorldLabel>, s: Pair.Side, k: nat): nat
    requires k <= |ls|
  {
    if k == 0 then 0
    else HelpedOf(ls, s, k - 1) +
         if ls[k - 1].Reconciling? && ls[k - 1].side == s && Cooperative(ls[k - 1].env) then 1 else 0
  }

  ghost predicate SideHaltsBefore(setup: Pair.Setup, ws: seq<Pair.World>, s: Pair.Side, k: nat)
    requires k <= |ws|
  {
    exists m {:trigger ws[m]} :: 0 <= m < k && Halted(setup.Of(s), ws[m].Of(s))
  }

  lemma PairStep(setup: Pair.Setup, w: Pair.World, l: Pair.WorldLabel, s: Pair.Side)
    requires setup.Valid() && Pair.Enabled(setup, w, l) && Pair.Agree(w) && l.Reconciling? && Unimpeded(w.Of(s))
    ensures var d := Pair.WorldStep(setup, w, l).Of(s);
            && Unimpeded(d) && Pair.Active(d) == Pair.Active(w.Of(s))
            && 0 <= Budget(setup.Of(s), d) <= Budget(setup.Of(s), w.Of(s))
            && (l.side == s && Cooperative(l.env) && !Halted(setup.Of(s), w.Of(s)) && Budget(setup.Of(s), w.Of(s)) > 0 ==>
                  Budget(setup.Of(s), d) < Budget(setup.Of(s), w.Of(s)))
  {
    hide Reconcile, Budget, Halted, Cooperative, Unclaimed;
    Pair.AgreementStep(setup, w, l);
    Pair.Projection(setup, w, l, s);
    if l.side == s {
      UnimpededStep(setup.Of(s), w.Of(s), l.env);
    } else {
      assert Pair.WorldStep(setup, w, l).Of(s) == w.Of(s);
      BudgetMeans(setup.Of(s), w.Of(s));
    }
  }

  /**
   * Both clusters agree and nobody edits them: once each has had as many cooperative reconciles as it had
   * budget, in any interleaving with any others, each is at rest at the common value, unless it halted.
   */
  lemma {:induction false} PairSettles(setup: Pair.Setup, ws: seq<Pair.World>, ls: seq<Pair.WorldLabel>, s: Pair.Side, k: nat)
    requires Pair.IsWorldRun(setup, ws, ls) && Pair.NoEdits(ls) && Pair.Agree(ws[0]) && Unimpeded(ws[0].Of(s)) && k < |ws|
    ensures Pair.Agree(ws[k]) && Pair.Active(ws[k].Of(s)) == Pair.Active(ws[0].Of(s)) && Unimpeded(ws[k].Of(s))
    ensures 0 <= Budget(setup.Of(s), ws[k].Of(s))
    ensures !SideHaltsBefore(setup, ws, s, k) ==>
              || Budget(setup.Of(s), ws[k].Of(s)) == 0
              || Budget(setup.Of(s), ws[k].Of(s)) + HelpedOf(ls, s, k) <= Budget(setup.Of(s), ws[0].Of(s))
    ensures !SideHaltsBefore(setup, ws, s, k) && HelpedOf(ls, s, k) >= Budget(setup.Of(s), ws[0].Of(s)) ==>
              && ws[k].Of(s).fs.status.transition.None?
              && ws[k].Of(s).fs.status.lastKnown == Some(Pair.Active(ws[0].Of(s)))
  {
    hide Pair.WorldStep, Pair.Enabled, Budget, Halted, Unimpeded, Cooperative;
    ImpededOrNot(setup.Of(s), ws[0].Of(s));
    if k > 0 {
      PairSettles(setup, ws, ls, s, k - 1);
      assert ls[k - 1].Reconciling?;
      Pair.AgreementStep(setup, ws[k - 1], ls[k - 1]);
      PairStep(setup, ws[k - 1], ls[k - 1], s);
      assert !SideHaltsBefore(setup, ws, s, k) ==> !SideHaltsBefore(setup, ws, s, k - 1) && !Halted(setup.Of(s), ws[k - 1].Of(s));
    }
    ImpededOrNot(setup.Of(s), ws[k].Of(s));
  }
}
