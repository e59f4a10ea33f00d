/**
 * Two clusters that reconcile the same FailoverService and sync with each other. A Sync is one step
 * with the reconcile that calls it: nobody writes between the read of the two objects and the push.
 */
module Pair {
  import opened Api
  import opened Controller
  import opened Progress
  import opened Syncer
  import Wait = WaitRemote
  import SM = ServiceManager

  datatype Side = SideA | SideB

  function Other(s: Side): Side { if s == SideA then SideB else SideA }

  datatype Setup = Setup(a: Config, b: Config) {
    function Of(s: Side): Config { if s == SideA then a else b }
    predicate Valid() { a.syncer && b.syncer }
  }

  datatype World = World(a: Cluster, b: Cluster) {
    function Of(s: Side): Cluster { if s == SideA then a else b }
  }

  function Put(s: Side, mine: Cluster, theirs: Cluster): World {
    if s == SideA then World(mine, theirs) else World(theirs, mine)
  }

  /** How the network treats one reconcile, and the order in which the remote lists its events. */
  datatype Network = Network(reachable: bool, pushOk: bool, listed: bool, events: seq<Event>)

  datatype WorldLabel =
    | Reconciling(side: Side, env: Env, net: Network)
    | Editing(side: Side, spec: Spec, forceAdvance: bool)

  /** The list holds exactly the stored events. */
  predicate Lists(list: seq<Event>, events: map<EventName, Event>) {
    && (forall k :: 0 <= k < |list| ==> list[k] in events.Values)
    && (forall n :: n in events ==> events[n] in list)
  }

  function WaitAnswer(call: ExecCall, theirs: Cluster, net: Network): Wait.Answer
    requires call.action.kind.WaitRemote?
  {
    Wait.Execute(call.action.kind, net.listed, theirs.fs, net.events, call.transition.startedAt, Some(call.transition.direction))
  }

  /** The environment of a reconcile answers what the other cluster's state dictates. */
  predicate Honest(cfg: Config, mine: Cluster, theirs: Cluster, e: Env, net: Network) {
    var calls := Reconcile(cfg, mine, e).calls;
    && Lists(net.events, theirs.events)
    && (calls.sync.Some? ==> e.sync == SyncAnswer(calls.sync.value, theirs.fs, cfg.id, net.reachable, net.pushOk))
    && (calls.exec.Some? && calls.exec.value.action.kind.WaitRemote? ==>
          var answer := WaitAnswer(calls.exec.value, theirs, net);
          && e.exec.ExecResult?
          && e.exec.completed == !answer.Waiting?
          && e.exec.succeeded == answer.Fulfilled?)
  }

  function Pushed(cfg: Config, mine: Cluster, theirs: Cluster, e: Env, net: Network): Cluster {
    var sync := Reconcile(cfg, mine, e).calls.sync;
    if sync.None? then theirs
    else theirs.(fs := RemoteAfterSync(sync.value, theirs.fs, cfg.id, net.reachable, net.pushOk))
  }

  predicate Enabled(setup: Setup, w: World, l: WorldLabel) {
    l.Reconciling? ==> Honest(setup.Of(l.side), w.Of(l.side), w.Of(Other(l.side)), l.env, l.net)
  }

  function WorldStep(setup: Setup, w: World, l: WorldLabel): World {
    var mine, theirs := w.Of(l.side), w.Of(Other(l.side));
    match l
    case Reconciling(s, e, net) => Put(s, Reconcile(setup.Of(s), mine, e).cluster, Pushed(setup.Of(s), mine, theirs, e, net))
    case Editing(s, spec, forceAdvance) => Put(s, Step(setup.Of(s), mine, Edits(spec, forceAdvance)), theirs)
  }

  predicate IsWorldRun(setup: Setup, ws: seq<World>, ls: seq<WorldLabel>) {
    && setup.Valid()
    && |ws| == |ls| + 1
    && forall i {:trigger ls[i]} :: 0 <= i < |ls| ==> Enabled(setup, ws[i], ls[i]) && ws[i + 1] == WorldStep(setup, ws[i], ls[i])
  }

  // ----- Each cluster of a pair runs like a cluster on its own -----

  /** What a step of the pair is to one of its clusters: a push of the other side is an edit. */
  function LabelOf(setup: Setup, w: World, l: WorldLabel, s: Side): Label {
    if l.side == s then
      match l
      case Reconciling(_, e, _) => Reconciles(e)
      case Editing(_, spec, forceAdvance) => Edits(spec, forceAdvance)
    else
      Edits(WorldStep(setup, w, l).Of(s).fs.spec, w.Of(s).fs.forceAdvance)
  }

  lemma Projection(setup: Setup, w: World, l: WorldLabel, s: Side)
    ensures WorldStep(setup, w, l).Of(s) == Step(setup.Of(s), w.Of(s), LabelOf(setup, w, l, s))
    ensures l.side != s ==>
              WorldStep(setup, w, l).Of(s).fs.spec ==
              w.Of(s).fs.spec.(failoverActive := WorldStep(setup, w, l).Of(s).fs.spec.failoverActive)
  {
    hide Reconcile;
  }

  // ----- What a reconcile can do to generation and spec -----

  predicate SyncFacts(c: Cluster, o: Outcome, e: Env) {
    var before, after := c.fs, o.cluster.fs;
    var adopts := o.calls.sync.Some? && e.sync.RemoteWins?;
    && (o.calls.sync.Some? ==>
          && o.calls.sync.value.failoverActive == before.spec.failoverActive
          && o.calls.sync.value.specChangeTime == before.status.specChangeTime
          && before.status.activeGeneration <= o.calls.sync.value.activeGeneration <= before.status.activeGeneration + 1
          && (o.completed ==> o.calls.sync.value.activeGeneration == before.status.activeGeneration + 1))
    && (!adopts ==>
          && after.spec.failoverActive == before.spec.failoverActive
          && after.status.activeGeneration == before.status.activeGeneration + if o.completed then 1 else 0)
    && (adopts ==>
          && (e.specWrite ==> after.spec.failoverActive == e.sync.state.failoverActive)
          && (!e.specWrite ==> after.spec.failoverActive == before.spec.failoverActive)
          && after.status.activeGeneration in {before.status.activeGeneration, e.sync.state.activeGeneration}
          && (o.completed ==> after.status.activeGeneration == e.sync.state.activeGeneration))
  }

  lemma CompleteSyncs(cfg: Config, c: Cluster, t: Transition, calls: Calls, e: Env)
    ensures SyncFacts(c, Complete(cfg, c, t, calls, e), e)
  {
    hide NewTransition, CreateEvent, UpdateEvent;
  }

  lemma ActionPhaseSyncs(cfg: Config, c: Cluster, isPre: bool, e: Env)
    requires c.fs.status.transition.Some?
    ensures SyncFacts(c, ExecuteActionPhase(cfg, c, isPre, e), e)
  {
    hide Complete, Decide, AfterExecution, UpdateEvent;
    CompleteSyncs(cfg, c, c.fs.status.transition.value, NoCalls, e);
  }

  lemma FlushSyncs(cfg: Config, c: Cluster, e: Env)
    requires c.fs.status.transition.Some?
    ensures SyncFacts(c, FlushConnections(cfg, c, e), e)
  {
    hide Complete;
    forall t: Transition, calls: Calls
      ensures SyncFacts(c, Complete(cfg, c, t, calls, e), e)
    {
      CompleteSyncs(cfg, c, t, calls, e);
    }
  }

  lemma IdleSyncs(cfg: Config, c: Cluster, e: Env)
    ensures SyncFacts(c, ReconcileIdle(cfg, c, e), e)
  {
    hide NewTransition, CreateEvent, SM.ReconcileWithAddress;
  }

  lemma ReconcileSyncs(cfg: Config, c: Cluster, e: Env)
    ensures SyncFacts(c, Reconcile(cfg, c, e), e)
  {
    hide ExecuteActionPhase, FlushConnections, ReconcileIdle, SM.ReconcileWithAddress, UpdateEvent, Advanced;
    var stamped := c.(fs := c.fs.(clusterID := cfg.id));
    IdleSyncs(cfg, stamped, e);
    if c.fs.status.transition.Some? {
      match c.fs.status.transition.value.phase {
        case ExecutingPreActions => ActionPhaseSyncs(cfg, stamped, true, e);
        case ExecutingPostActions => ActionPhaseSyncs(cfg, stamped, false, e);
        case FlushingConnections => FlushSyncs(cfg, stamped, e);
        case _ =>
      }
    }
  }

  // ----- Generations -----

  function Generation(c: Cluster): int { c.fs.status.activeGeneration }

  predicate CompletesAt(setup: Setup, w: World, l: WorldLabel, s: Side) {
    l.Reconciling? && l.side == s && Reconcile(setup.Of(s), w.Of(s), l.env).completed
  }

  /**
   * No step lowers a generation. A completed transition raises it by exactly one, unless the remote
   * wins, when the adopted generation is at least that high and is the remote's own.
   */
  lemma GenerationStep(setup: Setup, w: World, l: WorldLabel, s: Side)
    requires setup.Valid() && Enabled(setup, w, l)
    ensures var before, after := w.Of(s), WorldStep(setup, w, l).Of(s);
            && Generation(before) <= Generation(after)
            && (CompletesAt(setup, w, l, s) ==>
                  && Generation(before) + 1 <= Generation(after)
                  && (Generation(after) == Generation(before) + 1 || Generation(after) == Generation(w.Of(Other(s)))))
  {
    hide Reconcile;
    if l.Reconciling? && l.side == s {
      ReconcileSyncs(setup.Of(s), w.Of(s), l.env);
    }
  }

  lemma {:induction false} GenerationsNeverDecrease(setup: Setup, ws: seq<World>, ls: seq<WorldLabel>, s: Side, i: nat, k: nat)
    requires IsWorldRun(setup, ws, ls) && i <= k < |ws|
    ensures Generation(ws[i].Of(s)) <= Generation(ws[k].Of(s))
    decreases k
  {
    hide WorldStep, Enabled;
    if i < k {
      GenerationsNeverDecrease(setup, ws, ls, s, i, k - 1);
      GenerationStep(setup, ws[k - 1], ls[k - 1], s);
    }
  }

  /** User edits keep to the schema. */
  predicate ValidEdits(ls: seq<WorldLabel>) {
    forall i :: 0 <= i < |ls| ==> ls[i].Editing? ==> ValidSpec(ls[i].spec)
  }

  /** Until a transition completes, no step touches the generation of its cluster. */
  lemma InFlightKeepsGeneration(setup: Setup, w: World, l: WorldLabel, s: Side)
    requires setup.Valid() && Enabled(setup, w, l) && Inv(w.Of(s)) && (l.Editing? ==> ValidSpec(l.spec))
    requires w.Of(s).fs.status.transition.Some? && !CompletesAt(setup, w, l, s)
    ensures var after := WorldStep(setup, w, l).Of(s);
            Inv(after) && after.fs.status.transition.Some? && Generation(after) == Generation(w.Of(s))
  {
    hide Reconcile;
    if l.Reconciling? && l.side == s {
      ReconcileInFlight(setup.Of(s), w.Of(s), l.env);
    }
  }

  /**
   * However often a completion is tried and fails, it counts once: when a transition in flight at step `i`
   * completes at step `k`, its cluster's generation is one above that of step `i`, or the remote's own and
   * at least that high.
   */
  lemma {:induction false} CompletionCountsOnce(
    setup: Setup, ws: seq<World>, ls: seq<WorldLabel>, s: Side, i: nat, j: nat, k: nat)
    requires IsWorldRun(setup, ws, ls) && ValidEdits(ls) && i <= j <= k < |ls|
    requires Inv(ws[i].Of(s)) && ws[i].Of(s).fs.status.transition.Some?
    requires forall m :: i <= m < k ==> !CompletesAt(setup, ws[m], ls[m], s)
    ensures Inv(ws[j].Of(s)) && ws[j].Of(s).fs.status.transition.Some? && Generation(ws[j].Of(s)) == Generation(ws[i].Of(s))
    ensures j == k && CompletesAt(setup, ws[k], ls[k], s) ==>
              var before, after := Generation(ws[i].Of(s)), Generation(ws[k + 1].Of(s));
              after == before + 1 || (after == Generation(ws[k].Of(Other(s))) && after > before + 1)
    decreases j
  {
    hide WorldStep, Enabled, CompletesAt, Inv;
    if i < j {
      CompletionCountsOnce(setup, ws, ls, s, i, j - 1, k);
      InFlightKeepsGeneration(setup, ws[j - 1], ls[j - 1], s);
    }
    GenerationStep(setup, ws[j], ls[j], s);
  }

  // ----- Agreement on failoverActive -----

  function Active(c: Cluster): bool { c.fs.spec.failoverActive }

  predicate Agree(w: World) { Active(w.a) == Active(w.b) }

  /** A reconcile whose Sync went through, including the write that adopts a remote winner. */
  predicate Synced(setup: Setup, w: World, l: WorldLabel) {
    && l.Reconciling?
    && Reconcile(setup.Of(l.side), w.Of(l.side), l.env).calls.sync.Some?
    && !l.env.sync.SyncError?
    && (l.env.sync.RemoteWins? ==> l.env.specWrite)
  }

  /** The first successful Sync of either cluster ends every disagreement. */
  lemma SyncAgrees(setup: Setup, w: World, l: WorldLabel)
    requires setup.Valid() && Enabled(setup, w, l) && Synced(setup, w, l)
    ensures Agree(WorldStep(setup, w, l))
  {
    hide Reconcile;
    ReconcileSyncs(setup.Of(l.side), w.Of(l.side), l.env);
  }

  lemma AgreementStep(setup: Setup, w: World, l: WorldLabel)
    requires setup.Valid() && Enabled(setup, w, l) && Agree(w) && l.Reconciling?
    ensures Active(WorldStep(setup, w, l).a) == Active(WorldStep(setup, w, l).b) == Active(w.a)
    ensures Reconcile(setup.Of(l.side), w.Of(l.side), l.env).calls.sync.Some? ==> !l.env.sync.RemoteWins?
  {
    hide Reconcile;
    ReconcileSyncs(setup.Of(l.side), w.Of(l.side), l.env);
  }

  predicate NoEdits(ls: seq<WorldLabel>) {
    forall i :: 0 <= i < |ls| ==> ls[i].Reconciling?
  }

  /** Transitions a cluster still has to complete before it rests at `v`. */
  function Remaining(c: Cluster, v: bool): nat {
    match c.fs.status.transition
    case Some(t) => if t.direction == DirectionOf(v) then 1 else 2
    case None => if c.fs.status.lastKnown in {None, Some(v)} then 0 else 1
  }

  /** How many of the first `k` steps persisted the completion of a transition of `s`. */
  function Completions(setup: Setup, ws: seq<World>, ls: seq<WorldLabel>, s: Side, k: nat): nat
    requires k <= |ls| < |ws|
  {
    if k == 0 then 0
    else Completions(setup, ws, ls, s, k - 1) + if CompletesAt(setup, ws[k - 1], ls[k - 1], s) then 1 else 0
  }

  lemma RemainingStep(setup: Setup, w: World, l: WorldLabel, s: Side)
    requires setup.Valid() && Enabled(setup, w, l) && Agree(w) && l.Reconciling? && Inv(w.Of(s))
    ensures Remaining(WorldStep(setup, w, l).Of(s), Active(w.a)) + (if CompletesAt(setup, w, l, s) then 1 else 0)
            == Remaining(w.Of(s), Active(w.a))
    ensures Inv(WorldStep(setup, w, l).Of(s))
  {
    hide Reconcile;
    AgreementStep(setup, w, l);
    Projection(setup, w, l, s);
    if l.side == s {
      var cfg, c := setup.Of(s), w.Of(s);
      ReconcileSyncs(cfg, c, l.env);
      if c.fs.status.transition.Some? {
        ReconcileInFlight(cfg, c, l.env);
      } else {
        ReconcileAtRest(cfg, c, l.env);
        if c.fs.status.lastKnown.None? {
          RestLearns(cfg, c, l.env);
        }
      }
    }
  }

  /** A cluster at rest that learns its baseline learns the value of its spec. */
  lemma RestLearns(cfg: Config, c: Cluster, e: Env)
    requires c.fs.status.transition.None? && c.fs.status.lastKnown.None?
    requires Reconcile(cfg, c, e).calls.sync.Some? ==> !e.sync.RemoteWins?
    ensures Reconcile(cfg, c, e).cluster.fs.status.lastKnown in {None, Some(c.fs.spec.failoverActive)}
    ensures Reconcile(cfg, c, e).cluster.fs.status.transition.None?
  {
    hide NewTransition, CreateEvent, SM.ReconcileWithAddress;
  }

  /**
   * Once the clusters agree and user edits stop, they agree on that value forever, and each completes
   * at most two more transitions: exactly those it still had to complete, so that with none left it is
   * at rest at the common value.
   */
  lemma {:induction false} BoundedConvergence(setup: Setup, ws: seq<World>, ls: seq<WorldLabel>, s: Side, k: nat)
    requires IsWorldRun(setup, ws, ls) && NoEdits(ls) && Agree(ws[0]) && Inv(ws[0].Of(s))
    requires k < |ws|
    ensures Active(ws[k].a) == Active(ws[k].b) == Active(ws[0].a)
    ensures Inv(ws[k].Of(s))
    ensures Completions(setup, ws, ls, s, k) + Remaining(ws[k].Of(s), Active(ws[0].a)) == Remaining(ws[0].Of(s), Active(ws[0].a))
    ensures Completions(setup, ws, ls, s, k) <= 2
    ensures Remaining(ws[k].Of(s), Active(ws[0].a)) == 0 <==>
              && ws[k].Of(s).fs.status.transition.None?
              && ws[k].Of(s).fs.status.lastKnown in {None, Some(Active(ws[0].a))}
  {
    hide WorldStep, Enabled, CompletesAt;
    if k > 0 {
      BoundedConvergence(setup, ws, ls, s, k - 1);
      AgreementStep(setup, ws[k - 1], ls[k - 1]);
      RemainingStep(setup, ws[k - 1], ls[k - 1], s);
    }
  }

  /** The rest of a run is a run. */
  lemma RestIsRun(setup: Setup, ws: seq<World>, ls: seq<WorldLabel>, m: nat)
    requires IsWorldRun(setup, ws, ls) && m <= |ls|
    ensures IsWorldRun(setup, ws[m..], ls[m..])
  {
    hide WorldStep, Enabled;
    forall i {:trigger ls[m..][i]} | 0 <= i < |ls[m..]|
      ensures Enabled(setup, ws[m..][i], ls[m..][i]) && ws[m..][i + 1] == WorldStep(setup, ws[m..][i], ls[m..][i])
    {
      assert ls[m..][i] == ls[m + i] && ws[m..][i] == ws[m + i] && ws[m..][i + 1] == ws[m + i + 1];
    }
  }

  /**
   * When user edits have stopped, the first successful Sync of either cluster makes the values equal for
   * good, and from then on each cluster completes at most two more transitions.
   */
  lemma SyncConverges(setup: Setup, ws: seq<World>, ls: seq<WorldLabel>, s: Side, m: nat, k: nat)
    requires IsWorldRun(setup, ws, ls) && NoEdits(ls) && m < k < |ws|
    requires Inv(ws[m + 1].Of(s)) && Synced(setup, ws[m], ls[m])
    ensures Active(ws[k].a) == Active(ws[k].b) == Active(ws[m + 1].a)
    ensures Completions(setup, ws[m + 1..], ls[m + 1..], s, k - m - 1) <= 2
    ensures Completions(setup, ws[m + 1..], ls[m + 1..], s, k - m - 1) + Remaining(ws[k].Of(s), Active(ws[k].a))
            == Remaining(ws[m + 1].Of(s), Active(ws[k].a))
  {
    hide WorldStep, Synced, Completions, Remaining, Inv;
    assert Enabled(setup, ws[m], ls[m]) && ws[m + 1] == WorldStep(setup, ws[m], ls[m]);
    hide Enabled;
    SyncAgrees(setup, ws[m], ls[m]);
    RestIsRun(setup, ws, ls, m + 1);
    assert ws[m + 1..][0] == ws[m + 1] && ws[m + 1..][k - m - 1] == ws[k];
    BoundedConvergence(setup, ws[m + 1..], ls[m + 1..], s, k - m - 1);
  }

  // ----- A fresh flip can be lost -----

  /**
   * The time of a flip is stamped by the flipped cluster's own reconcile. When the other cluster at
   * rest syncs first, with the flip not yet stamped, it reverts the flip exactly when its own rank is
   * not beaten by the flipped cluster's old rank: the flip being the more recent change does not help.
   */
  lemma UnstampedFlipReverted(setup: Setup, w: World, flipped: Side, e: Env, net: Network)
    requires setup.Valid()
    requires !Agree(w)
    requires Reconcile(setup.Of(Other(flipped)), w.Of(Other(flipped)), e).calls.sync == Some(RestView(w.Of(Other(flipped)).fs))
    requires w.Of(Other(flipped)).fs.clusterID == setup.Of(Other(flipped)).id
    requires net.reachable && net.pushOk && Honest(setup.Of(Other(flipped)), w.Of(Other(flipped)), w.Of(flipped), e, net)
    ensures var after := WorldStep(setup, w, Reconciling(Other(flipped), e, net));
            Active(after.Of(flipped)) != Active(w.Of(flipped)) <==>
            !Beats(RankOf(w.Of(flipped).fs), RankOf(w.Of(Other(flipped)).fs))
  {
    hide Reconcile;
  }
}
