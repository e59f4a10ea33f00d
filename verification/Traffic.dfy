/** Where traffic goes in every state of every run, with crashes, flips and cut-off Service writes. */
module Traffic {
  import opened Api
  import opened Controller
  import opened Progress
  import SM = ServiceManager

  function At(c: Cluster): Option<Address> {
    SM.PointsAt(c.fs.uid, c.store)
  }

  predicate Shaped(c: Cluster) {
    SM.WellShaped(c.fs.uid, c.store)
  }

  /** An operator skips the resource update itself. */
  predicate SkipsUpdate(c: Cluster, l: Label) {
    && l.Reconciles? && c.fs.forceAdvance
    && c.fs.status.transition.Some? && c.fs.status.transition.value.phase == UpdatingResources
  }

  // ----- Only two places write the Service -----

  lemma StoreKeptElsewhere(cfg: Config, c: Cluster, e: Env)
    requires Inv(c) && c.fs.status.transition.Some?
    requires c.fs.status.transition.value.phase != UpdatingResources || c.fs.forceAdvance
    ensures Reconcile(cfg, c, e).cluster.store == c.store
  {
    hide NewTransition, CreateEvent, UpdateEvent, SM.ReconcileWithAddress, Decide, AfterExecution, JobNames;
  }

  // ----- After the switch: no assumption on edits -----

  /** Once connections are being flushed, traffic goes to the snapshotted new address. */
  predicate Switched(c: Cluster) {
    && Shaped(c)
    && (c.fs.status.transition.Some? && c.fs.status.transition.value.phase in {FlushingConnections, ExecutingPostActions} ==>
          At(c) == c.fs.status.transition.value.newAddress)
  }

  lemma UpdateSwitches(cfg: Config, c: Cluster, e: Env)
    requires Inv(c) && Shaped(c)
    requires c.fs.status.transition.Some? && c.fs.status.transition.value.phase == UpdatingResources && !c.fs.forceAdvance
    ensures var d := Reconcile(cfg, c, e).cluster;
            && Shaped(d)
            && At(d) in {At(c), c.fs.status.transition.value.newAddress, None}
            && (At(c).Some? && At(d).None? ==> At(c).value.IsIP() != c.fs.status.transition.value.newAddress.value.IsIP())
            && d.fs.status.transition.Some?
            && (d.fs.status.transition.value.phase == UpdatingResources
                || (d.fs.status.transition.value.phase == FlushingConnections
                    && At(d) == c.fs.status.transition.value.newAddress))
  {
    hide SM.ReconcileWithAddress, SM.WellShaped, SM.PointsAt;
    var a := NewAddress(cfg, c.fs.spec, c.fs.status.transition.value);
    SM.ReconcileKeepsShape(c.fs.uid, c.fs.spec.ports, c.store, a, e.serviceWrites);
    SM.CutOffPointsAt(c.fs.uid, c.fs.spec.ports, c.store, a, e.serviceWrites);
    if At(c).Some? {
      SM.GoesDark(c.fs.uid, c.fs.spec.ports, c.store, a, e.serviceWrites);
    }
    if SM.ReconcileWithAddress(c.fs.uid, c.fs.spec.ports, c.store, a, e.serviceWrites).ok {
      SM.SuccessSettles(c.fs.uid, c.fs.spec.ports, c.store, a, e.serviceWrites);
    }
  }

  /** The write a reconcile at rest makes: none, or one attempt at the address of the current spec. */
  lemma RestWrites(cfg: Config, c: Cluster, e: Env)
    requires c.fs.status.transition.None?
    ensures var d := Reconcile(cfg, c, e).cluster;
            var attempt := SM.ReconcileWithAddress(c.fs.uid, c.fs.spec.ports, c.store,
                                                   Resolve(cfg, c.fs.spec, c.fs.spec.failoverActive), e.serviceWrites);
            && d.fs.uid == c.fs.uid
            && d.store in {c.store, attempt.store}
            && (d.store != c.store ==> !FlipPending(c.fs))
            && (c.fs.status.lastKnown.None? && d.fs.status.lastKnown.Some? ==>
                  && d.store == attempt.store && attempt.ok
                  && d.fs.status.lastKnown == Some(c.fs.spec.failoverActive))
  {
    hide NewTransition, CreateEvent, SM.ReconcileWithAddress;
  }

  lemma RestKeepsShape(cfg: Config, c: Cluster, e: Env)
    requires c.fs.status.transition.None? && Shaped(c)
    ensures Shaped(Reconcile(cfg, c, e).cluster)
  {
    hide Reconcile, SM.ReconcileWithAddress, SM.WellShaped;
    RestWrites(cfg, c, e);
    SM.ReconcileKeepsShape(c.fs.uid, c.fs.spec.ports, c.store, Resolve(cfg, c.fs.spec, c.fs.spec.failoverActive), e.serviceWrites);
  }

  lemma StepKeepsShape(cfg: Config, c: Cluster, l: Label)
    requires Inv(c) && Shaped(c)
    ensures Shaped(Step(cfg, c, l))
  {
    hide Reconcile, SM.PointsAt, SM.WellShaped;
    if l.Reconciles? {
      if c.fs.status.transition.None? {
        ReconcileAtRest(cfg, c, l.env);
        RestKeepsShape(cfg, c, l.env);
      } else {
        ReconcileInFlight(cfg, c, l.env);
        if c.fs.status.transition.value.phase == UpdatingResources && !c.fs.forceAdvance {
          UpdateSwitches(cfg, c, l.env);
        } else {
          StoreKeptElsewhere(cfg, c, l.env);
        }
      }
    }
  }

  /** An operator skips the resource update, and the skip is persisted. */
  predicate SkipLands(cfg: Config, c: Cluster, l: Label) {
    SkipsUpdate(c, l) && l.env.statusWrite && (c.fs.clusterID == cfg.id || l.env.idWrite)
  }

  lemma ForcedSkip(cfg: Config, c: Cluster, l: Label)
    requires Inv(c) && SkipsUpdate(c, l)
    ensures var t, u := c.fs.status.transition.value, Step(cfg, c, l).fs.status.transition;
            u == if SkipLands(cfg, c, l) then Some(t.(phase := FlushingConnections, index := 0)) else Some(t)
  {
    hide UpdateEvent;
  }

  /** The only step after which a flush may run beside unswitched traffic is one that skips the update. */
  lemma StepKeepsSwitched(cfg: Config, c: Cluster, l: Label)
    requires Inv(c) && ValidLabel(l) && Switched(c)
    ensures Switched(Step(cfg, c, l)) <==>
            !SkipLands(cfg, c, l) || At(c) == c.fs.status.transition.value.newAddress
  {
    hide Reconcile, SM.PointsAt, SM.WellShaped;
    StepKeepsShape(cfg, c, l);
    if l.Reconciles? {
      if c.fs.status.transition.None? {
        ReconcileAtRest(cfg, c, l.env);
      } else {
        ReconcileInFlight(cfg, c, l.env);
        var t := c.fs.status.transition.value;
        if t.phase == UpdatingResources && !c.fs.forceAdvance {
          UpdateSwitches(cfg, c, l.env);
        } else {
          StoreKeptElsewhere(cfg, c, l.env);
          if t.phase == ExecutingPreActions {
            PreLeadsToUpdate(cfg, c, l.env);
          } else if t.phase == UpdatingResources {
            ForcedSkip(cfg, c, l);
          }
        }
      }
    }
  }

  /** The transition in flight, if any, has not reached its flush. */
  predicate BeforeFlush(c: Cluster) {
    c.fs.status.transition.Some? ==> c.fs.status.transition.value.phase !in {FlushingConnections, ExecutingPostActions}
  }

  /**
   * In every run, whatever was forced or edited: from the flush on, traffic goes to the snapshotted new
   * address, if the transition in flight was not itself forced out of its update (since some state `i`
   * before its flush).
   */
  lemma {:induction false} SwitchedOverRuns(cfg: Config, cs: seq<Cluster>, ls: seq<Label>, i: nat, k: nat)
    requires IsRun(cfg, cs, ls) && Inv(cs[0]) && Shaped(cs[0]) && (forall m :: 0 <= m < |ls| ==> ValidLabel(ls[m]))
    requires i <= k < |cs| && BeforeFlush(cs[i])
    requires forall m :: i <= m < k ==> !SkipsUpdate(cs[m], ls[m])
    ensures Switched(cs[k])
    decreases k
  {
    hide Step;
    RunKeepsShape(cfg, cs, ls, k);
    if i < k {
      SwitchedOverRuns(cfg, cs, ls, i, k - 1);
      RunKeepsInv(cfg, cs, ls, k - 1);
      StepKeepsSwitched(cfg, cs[k - 1], ls[k - 1]);
    }
  }

  lemma {:induction false} RunKeepsShape(cfg: Config, cs: seq<Cluster>, ls: seq<Label>, k: nat)
    requires IsRun(cfg, cs, ls) && Inv(cs[0]) && Shaped(cs[0]) && (forall m :: 0 <= m < |ls| ==> ValidLabel(ls[m]))
    requires k < |cs|
    ensures Shaped(cs[k])
  {
    hide Step;
    if k > 0 {
      RunKeepsShape(cfg, cs, ls, k - 1);
      RunKeepsInv(cfg, cs, ls, k - 1);
      StepKeepsShape(cfg, cs[k - 1], ls[k - 1]);
    }
  }

  /** The pre-action phase leads nowhere but to the resource update. */
  lemma PreLeadsToUpdate(cfg: Config, c: Cluster, e: Env)
    requires Inv(c) && c.fs.status.transition.Some? && c.fs.status.transition.value.phase == ExecutingPreActions
    ensures Reconcile(cfg, c, e).cluster.fs.status.transition.Some?
    ensures Reconcile(cfg, c, e).cluster.fs.status.transition.value.phase in {ExecutingPreActions, UpdatingResources}
  {
    var t := c.fs.status.transition.value;
    DecideMoves(ActionsFor(cfg, c.fs.spec, t.direction, true), t, true, e.now);
  }

  // ----- The whole invariant, with fixed addresses -----

  predicate SameAddresses(s: Spec, r: Spec) {
    && s.primaryCluster.primaryModeAddress == r.primaryCluster.primaryModeAddress
    && s.primaryCluster.failoverModeAddress == r.primaryCluster.failoverModeAddress
    && s.failoverCluster.primaryModeAddress == r.failoverCluster.primaryModeAddress
    && s.failoverCluster.failoverModeAddress == r.failoverCluster.failoverModeAddress
  }

  predicate TrafficInv(cfg: Config, c: Cluster) {
    && Shaped(c)
    && match c.fs.status.transition
       case None => c.fs.status.lastKnown.Some? ==> At(c) == Some(Resolve(cfg, c.fs.spec, c.fs.status.lastKnown.value))
       case Some(t) =>
         && t.oldAddress == Some(Resolve(cfg, c.fs.spec, t.direction == Failback))
         && t.newAddress == Some(Resolve(cfg, c.fs.spec, t.direction == Failover))
         && match t.phase
            case Idle => false
            case ExecutingPreActions => At(c) == t.oldAddress
            case UpdatingResources =>
              At(c) in {t.oldAddress, t.newAddress} || (At(c).None? && t.oldAddress.value.IsIP() != t.newAddress.value.IsIP())
            case _ => At(c) == t.newAddress
  }

  lemma RestKeepsTraffic(cfg: Config, c: Cluster, e: Env)
    requires Inv(c) && TrafficInv(cfg, c) && c.fs.status.transition.None?
    ensures TrafficInv(cfg, Reconcile(cfg, c, e).cluster)
  {
    hide Reconcile, SM.ReconcileWithAddress, SM.PointsAt, SM.WellShaped;
    var a := Resolve(cfg, c.fs.spec, c.fs.spec.failoverActive);
    ReconcileAtRest(cfg, c, e);
    RestWrites(cfg, c, e);
    RestKeepsShape(cfg, c, e);
    SM.CutOffPointsAt(c.fs.uid, c.fs.spec.ports, c.store, a, e.serviceWrites);
    if SM.ReconcileWithAddress(c.fs.uid, c.fs.spec.ports, c.store, a, e.serviceWrites).ok {
      SM.SuccessSettles(c.fs.uid, c.fs.spec.ports, c.store, a, e.serviceWrites);
    }
  }

  lemma StepKeepsTraffic(cfg: Config, c: Cluster, l: Label)
    requires Inv(c) && ValidLabel(l) && TrafficInv(cfg, c) && !SkipsUpdate(c, l)
    requires l.Edits? ==> SameAddresses(c.fs.spec, l.spec)
    ensures TrafficInv(cfg, Step(cfg, c, l)) && SameAddresses(c.fs.spec, Step(cfg, c, l).fs.spec)
  {
    hide Reconcile, SM.PointsAt, SM.WellShaped;
    if l.Reconciles? {
      if c.fs.status.transition.None? {
        ReconcileAtRest(cfg, c, l.env);
        RestKeepsTraffic(cfg, c, l.env);
      } else {
        ReconcileInFlight(cfg, c, l.env);
        var t := c.fs.status.transition.value;
        if t.phase == UpdatingResources && !c.fs.forceAdvance {
          UpdateSwitches(cfg, c, l.env);
        } else {
          StoreKeptElsewhere(cfg, c, l.env);
          if t.phase == ExecutingPreActions {
            PreLeadsToUpdate(cfg, c, l.env);
          } else if !Reconcile(cfg, c, l.env).completed {
            PhaseOnlyAdvances(cfg, c, l.env);
          }
        }
      }
    }
  }

  /** After the resource update a transition only moves forward or completes. */
  lemma PhaseOnlyAdvances(cfg: Config, c: Cluster, e: Env)
    requires Inv(c) && c.fs.status.transition.Some?
    requires c.fs.status.transition.value.phase in {FlushingConnections, ExecutingPostActions}
    requires !Reconcile(cfg, c, e).completed
    ensures Reconcile(cfg, c, e).cluster.fs.status.transition.Some?
    ensures Reconcile(cfg, c, e).cluster.fs.status.transition.value.phase in {FlushingConnections, ExecutingPostActions}
  {
    var t := c.fs.status.transition.value;
    ReconcileInFlight(cfg, c, e);
    if t.phase == ExecutingPostActions {
      DecideMoves(ActionsFor(cfg, c.fs.spec, t.direction, false), t, false, e.now);
    }
  }

  /**
   * From any state `i` of any run where it holds, with fixed addresses and no further force-advance out of
   * a resource update: traffic stays at the old address through all pre-actions, goes to the old or the new
   * address during the update (or nowhere, but only between an IP address and a host name, while the Service
   * is being replaced), to the new address from the flush on, and at rest to the address of the last
   * completed direction.
   */
  lemma {:induction false} TrafficOverRuns(cfg: Config, cs: seq<Cluster>, ls: seq<Label>, i: nat, k: nat)
    requires IsRun(cfg, cs, ls) && Inv(cs[0]) && (forall m :: 0 <= m < |ls| ==> ValidLabel(ls[m]))
    requires i <= k < |cs| && TrafficInv(cfg, cs[i])
    requires forall m :: i <= m < k ==> !SkipsUpdate(cs[m], ls[m])
    requires forall m :: i <= m < k && ls[m].Edits? ==> SameAddresses(cs[i].fs.spec, ls[m].spec)
    ensures Inv(cs[k]) && TrafficInv(cfg, cs[k]) && SameAddresses(cs[i].fs.spec, cs[k].fs.spec)
    decreases k
  {
    hide Step, TrafficInv;
    RunKeepsInv(cfg, cs, ls, k);
    if i < k {
      TrafficOverRuns(cfg, cs, ls, i, k - 1);
      StepKeepsTraffic(cfg, cs[k - 1], ls[k - 1]);
    }
  }

  /**
   * After a skipped update or an edited address, traffic is back in line with the next reconcile at rest
   * that finds no flip pending and gets its Service writes through, whatever else fails in it.
   */
  lemma RestHeals(cfg: Config, c: Cluster, e: Env)
    requires Inv(c) && Shaped(c) && c.fs.status.transition.None? && !FlipPending(c.fs) && !c.fs.forceAdvance
    requires c.fs.clusterID == cfg.id || e.idWrite
    requires SM.ReconcileWithAddress(c.fs.uid, c.fs.spec.ports, c.store,
                                     Resolve(cfg, c.fs.spec, c.fs.spec.failoverActive), e.serviceWrites).ok
    ensures TrafficInv(cfg, Reconcile(cfg, c, e).cluster)
  {
    hide NewTransition, CreateEvent, SM.ReconcileWithAddress, SM.PointsAt, SM.WellShaped;
    var a := Resolve(cfg, c.fs.spec, c.fs.spec.failoverActive);
    SM.ReconcileKeepsShape(c.fs.uid, c.fs.spec.ports, c.store, a, e.serviceWrites);
    SM.SuccessSettles(c.fs.uid, c.fs.spec.ports, c.store, a, e.serviceWrites);
    var stamped := c.(fs := c.fs.(clusterID := cfg.id));
    SteadyIsInLine(cfg, stamped.(store := SM.ReconcileWithAddress(c.fs.uid, c.fs.spec.ports, c.store, a, e.serviceWrites).store), e);
  }

  lemma SteadyIsInLine(cfg: Config, c: Cluster, e: Env)
    requires c.fs.status.transition.None? && !FlipPending(c.fs) && Shaped(c)
    requires At(c) == Some(Resolve(cfg, c.fs.spec, c.fs.spec.failoverActive))
    ensures TrafficInv(cfg, SteadyState(cfg, c, e).cluster)
  {
    hide CreateEvent, SM.PointsAt, SM.WellShaped;
  }

  /** A new FailoverService satisfies the invariants, whatever unrelated Service is in its place. */
  lemma FreshObject(cfg: Config, c: Cluster)
    requires ValidSpec(c.fs.spec) && c.fs.status.transition.None? && c.fs.status.lastKnown.None?
    requires c.store.slice.None? && (c.store.service.Some? ==> c.fs.uid !in c.store.service.value.owners)
    ensures Inv(c) && TrafficInv(cfg, c) && Switched(c)
  {
  }
}
