/**
 * The connection flush end to end: one controller, the shared ConfigMap and an agent on every node,
 * all interleaved step by step, with crashes, lost writes, stale acks, renewed signals and edits.
 */
module Flush {
  import opened Api
  import opened Controller
  import opened Progress
  import opened KillKeys
  import Signaler
  import Agent
  import Traffic
  import SM = ServiceManager

  /** The fixed surroundings: `ns` is the namespace of the service, `nodes` all nodes there ever are. */
  datatype Scene = Scene(cfg: Config, h: Digest, ns: string, name: string, nodes: set<string>) {
    ghost predicate Valid() {
      && "" !in nodes
      && forall x, y :: x in nodes && y in nodes && x != y ==> Suffix(h, x, ns, name) != Suffix(h, y, ns, name)
    }
    function Kill(node: string): string { KillKey(h, node, ns, name) }
    function Ack(node: string): string { AckKey(h, node, ns, name) }
  }

  /** Untruncated keys of separator-free names make a valid scene. */
  lemma PlainScene(s: Scene)
    requires "" !in s.nodes && Plain(s.ns) && forall n :: n in s.nodes ==> Plain(n) && Fits(n, s.ns, s.name)
    ensures s.Valid()
  {
    forall x, y | x in s.nodes && y in s.nodes && x != y
      ensures Suffix(s.h, x, s.ns, s.name) != Suffix(s.h, y, s.ns, s.name)
    {
      if Suffix(s.h, x, s.ns, s.name) == Suffix(s.h, y, s.ns, s.name) {
        SuffixInjective(s.h, x, s.ns, s.name, y, s.ns, s.name);
      }
    }
  }

  /** A finished kill pass. `start` is the controller's state when the pass began. */
  datatype Pass = Pass(node: string, key: string, signal: Payload, start: Cluster, errors: nat)

  /** What an agent is doing with the snapshot it read. */
  datatype Stage =
    | Resting
    | Scanning(snapshot: ConfigMap)
    | Killing(snapshot: ConfigMap, key: string, signal: Payload, start: Cluster)
    | Acking(snapshot: ConfigMap, key: string, signal: Payload, report: Agent.Report)

  datatype AgentState = AgentState(lastSeq: Agent.Progress, stage: Stage)

  datatype World = World(
    c: Cluster,
    cm: Option<ConfigMap>,
    agents: map<string, AgentState>,
    log: seq<Pass>,
    nextToken: Token)

  datatype WorldLabel =
    | Controls(env: Env, nodes: seq<string>, signalLands: bool, cleanupLands: bool)
    | EditsSpec(spec: Spec, forceAdvance: bool)
    | Others(cm: Option<ConfigMap>)
    | Fetches(node: string)
    | StartsPass(node: string, key: string)
    | FinishesPass(node: string, killed: int, errors: nat)
    | WritesAck(node: string, lands: bool, seen: bool)
    | EndsScan(node: string)
    | Restarts(node: string, read: bool)

  // ----- Steps of the controller -----

  /** Even a signalling attempt that reports an error may have landed. */
  function AfterSignal(s: Scene, cm: Option<ConfigMap>, calls: Calls, l: WorldLabel): Option<ConfigMap>
    requires l.Controls?
  {
    if calls.signal.Some? && l.signalLands && l.nodes != [] then
      Some(Signaler.Populate(s.h, Contents(cm), l.nodes, calls.signal.value.ip, calls.signal.value.token, s.ns, s.name))
    else cm
  }

  function AfterCleanup(s: Scene, cm: Option<ConfigMap>, calls: Calls, l: WorldLabel): Option<ConfigMap>
    requires l.Controls?
  {
    if calls.cleanup && l.cleanupLands && cm.Some? then Some(Signaler.Cleaned(cm.value, s.ns, s.name)) else cm
  }

  /** The answers the controller gets are those of the signaler. */
  ghost predicate ControlsEnabled(s: Scene, w: World, l: WorldLabel)
    requires l.Controls?
  {
    var calls := Reconcile(s.cfg, w.c, l.env).calls;
    && l.env.token == w.nextToken
    && (forall i :: 0 <= i < |l.nodes| ==> l.nodes[i] in s.nodes)
    && (l.env.signal.Signaled? ==> l.env.signal.nodes == l.nodes && l.signalLands)
    && (calls.acks.Some? ==>
          || l.env.acks.AckError?
          || (l.env.acks.allAcked <==>
                forall i :: 0 <= i < |calls.acks.value.nodes| ==>
                  Signaler.AckedClean(s.h, Contents(w.cm), calls.acks.value.nodes[i], calls.acks.value.token, s.ns, s.name)))
  }

  // ----- Everybody's steps -----

  /** Other services, and whoever deletes the ConfigMap: they never write under the keys of this one. */
  ghost predicate LeavesOursAlone(s: Scene, before: ConfigMap, after: ConfigMap) {
    forall n :: n in s.nodes ==>
      && (s.Kill(n) in after ==> s.Kill(n) in before && after[s.Kill(n)] == before[s.Kill(n)])
      && (s.Ack(n) in after ==> s.Ack(n) in before && after[s.Ack(n)] == before[s.Ack(n)])
  }

  ghost predicate Enabled(s: Scene, w: World, l: WorldLabel) {
    match l
    case Controls(_, _, _, _) => ControlsEnabled(s, w, l)
    case EditsSpec(spec, _) => ValidSpec(spec)
    case Others(cm) => LeavesOursAlone(s, Contents(w.cm), Contents(cm))
    case Fetches(n) => n in w.agents && w.agents[n].stage.Resting? && w.cm.Some?
    case StartsPass(n, key) =>
      && n in w.agents && w.agents[n].stage.Scanning?
      && key in w.agents[n].stage.snapshot
      && Agent.Due(n, w.agents[n].lastSeq, key, w.agents[n].stage.snapshot[key])
    case FinishesPass(n, _, _) => n in w.agents && w.agents[n].stage.Killing?
    case WritesAck(n, lands, seen) =>
      && n in w.agents && w.agents[n].stage.Acking? && IsKill(w.agents[n].stage.key) && w.agents[n].stage.signal.Payload?
      && (lands ==> w.cm.Some?) && (seen ==> lands)
    case EndsScan(n) => n in w.agents && w.agents[n].stage.Scanning?
    case Restarts(n, _) => n in w.agents
  }

  function SetAgent(w: World, n: string, a: AgentState): World {
    w.(agents := w.agents[n := a])
  }

  ghost function Next(s: Scene, w: World, l: WorldLabel): World
    requires Enabled(s, w, l)
  {
    match l
    case Controls(e, _, _, _) =>
      var o := Reconcile(s.cfg, w.c, e);
      w.(c := o.cluster,
         cm := AfterCleanup(s, AfterSignal(s, w.cm, o.calls, l), o.calls, l),
         nextToken := w.nextToken + 1)
    case EditsSpec(spec, forceAdvance) => w.(c := Step(s.cfg, w.c, Edits(spec, forceAdvance)))
    case Others(cm) => w.(cm := cm)
    case Fetches(n) => SetAgent(w, n, w.agents[n].(stage := Scanning(w.cm.value)))
    case StartsPass(n, key) =>
      var m := w.agents[n].stage.snapshot;
      SetAgent(w, n, w.agents[n].(stage := Killing(m, key, m[key], w.c)))
    case FinishesPass(n, killed, errors) =>
      var k := w.agents[n].stage;
      SetAgent(w, n, w.agents[n].(stage := Acking(k.snapshot, k.key, k.signal, Agent.Report(killed, errors))))
      .(log := w.log + [Pass(n, k.key, k.signal, k.start, errors)])
    case WritesAck(n, lands, seen) =>
      var a := w.agents[n].stage;
      var suffix := SuffixOf(a.key);
      var memory := if seen then w.agents[n].lastSeq[suffix := a.signal.number] else w.agents[n].lastSeq;
      SetAgent(w, n, AgentState(memory, Scanning(a.snapshot)))
      .(cm := if lands then Some(w.cm.value[ACK + suffix := Agent.AckOf(n, a.signal, a.report)]) else w.cm)
    case EndsScan(n) => SetAgent(w, n, w.agents[n].(stage := Resting))
    case Restarts(n, read) => SetAgent(w, n, AgentState(Agent.Reborn(n, Contents(w.cm), read), Resting))
  }

  ghost predicate IsWorldRun(s: Scene, ws: seq<World>, ls: seq<WorldLabel>) {
    s.Valid() && |ws| == |ls| + 1 && forall i :: 0 <= i < |ls| ==> StepAt(s, ws, ls, i)
  }

  ghost predicate StepAt(s: Scene, ws: seq<World>, ls: seq<WorldLabel>, i: nat)
    requires i < |ls| < |ws|
  {
    Enabled(s, ws[i], ls[i]) && ws[i + 1] == Next(s, ws[i], ls[i])
  }

  // ----- The invariant -----

  /** The signal of the transition in flight carries this token. */
  predicate Current(c: Cluster, token: Option<Token>) {
    && c.fs.status.transition.Some? && c.fs.status.transition.value.connectionKill.Some?
    && token == Some(c.fs.status.transition.value.connectionKill.value.token)
  }

  /** A signal of node `n`: if it is the current one, it names the snapshotted old address. */
  predicate SignalOK(s: Scene, c: Cluster, limit: Token, n: string, p: Payload) {
    p.Payload? ==>
      && p.node == n && p.fsNamespace == s.ns && p.fsName == s.name
      && p.token.Some? && p.token.value < limit
      && (Current(c, p.token) ==> Some(p.ip) == c.fs.status.transition.value.oldAddress)
  }

  /** In this state the signal is out and the Service points at `to`. */
  predicate FlushUnderWay(c: Cluster, token: Option<Token>, to: Option<Address>) {
    && Current(c, token)
    && c.fs.status.transition.value.phase in {FlushingConnections, ExecutingPostActions}
    && Traffic.At(c) == to
  }

  /** A pass for the current signal began with that signal out and the Service pointing where it does now. */
  predicate PassOK(c: Cluster, signal: Payload, start: Cluster) {
    signal.Payload? && Current(c, signal.token) ==> FlushUnderWay(start, signal.token, Traffic.At(c))
  }

  predicate SignalsOK(s: Scene, c: Cluster, limit: Token, m: ConfigMap) {
    forall n :: n in s.nodes && s.Kill(n) in m ==> SignalOK(s, c, limit, n, m[s.Kill(n)])
  }

  predicate LogHas(s: Scene, log: seq<Pass>, n: string, token: Option<Token>, errors: int) {
    exists i :: 0 <= i < |log| && log[i].key == s.Kill(n) && log[i].signal.Payload?
                && log[i].signal.token == token && log[i].errors == errors
  }

  predicate StageOK(s: Scene, c: Cluster, limit: Token, log: seq<Pass>, m: string, stage: Stage) {
    match stage
    case Resting => true
    case Scanning(snapshot) => SignalsOK(s, c, limit, snapshot)
    case Killing(snapshot, key, signal, start) =>
      && SignalsOK(s, c, limit, snapshot)
      && IsKill(key) && signal.Payload?
      && forall n :: n in s.nodes && key == s.Kill(n) ==>
           m == n && SignalOK(s, c, limit, n, signal) && PassOK(c, signal, start)
    case Acking(snapshot, key, signal, report) =>
      && SignalsOK(s, c, limit, snapshot)
      && IsKill(key) && signal.Payload?
      && forall n :: n in s.nodes && key == s.Kill(n) ==>
           m == n && SignalOK(s, c, limit, n, signal) && LogHas(s, log, n, signal.token, report.errors)
  }

  predicate LogOK(s: Scene, c: Cluster, limit: Token, log: seq<Pass>) {
    forall i, n :: 0 <= i < |log| && n in s.nodes && log[i].key == s.Kill(n) ==>
      log[i].node == n && SignalOK(s, c, limit, n, log[i].signal) && PassOK(c, log[i].signal, log[i].start)
  }

  /** Every ack on record was earned by a finished pass. */
  predicate AcksOK(s: Scene, limit: Token, log: seq<Pass>, m: ConfigMap) {
    forall n :: n in s.nodes && s.Ack(n) in m && m[s.Ack(n)].Payload? ==>
      && m[s.Ack(n)].token.Some? && m[s.Ack(n)].token.value < limit
      && m[s.Ack(n)].errors >= 0
      && m[s.Ack(n)].fsNamespace == s.ns && m[s.Ack(n)].fsName == s.name
      && LogHas(s, log, n, m[s.Ack(n)].token, m[s.Ack(n)].errors)
  }

  /** The kill status names an issued token and at least one node, all of them real. */
  predicate KillOK(s: Scene, c: Cluster, limit: Token) {
    c.fs.status.transition.Some? && c.fs.status.transition.value.connectionKill.Some? ==>
      var ck := c.fs.status.transition.value.connectionKill.value;
      && ck.token < limit
      && ck.expectedNodes != []
      && forall i :: 0 <= i < |ck.expectedNodes| ==> ck.expectedNodes[i] in s.nodes
  }

  predicate ClusterOK(s: Scene, w: World) {
    Inv(w.c) && KillOK(s, w.c, w.nextToken)
  }

  ghost predicate WorldInv(s: Scene, w: World) {
    && ClusterOK(s, w)
    && SignalsOK(s, w.c, w.nextToken, Contents(w.cm))
    && AcksOK(s, w.nextToken, w.log, Contents(w.cm))
    && LogOK(s, w.c, w.nextToken, w.log)
    && forall m :: m in w.agents ==> StageOK(s, w.c, w.nextToken, w.log, m, w.agents[m].stage)
  }

  // ----- What survives a step of the controller -----

  /** The current signal of `d` is that of `c`, in the same transition, or it is newer than `limit`. */
  predicate CurrentKept(c: Cluster, d: Cluster, limit: Token) {
    d.fs.status.transition.Some? && d.fs.status.transition.value.connectionKill.Some? ==>
      var u := d.fs.status.transition.value;
      || u.connectionKill.value.token >= limit
      || (&& Current(c, Some(u.connectionKill.value.token))
          && u.oldAddress == c.fs.status.transition.value.oldAddress
          && Traffic.At(d) == Traffic.At(c))
  }

  lemma StageKept(s: Scene, c: Cluster, d: Cluster, limit: Token, later: Token, log: seq<Pass>, more: seq<Pass>, m: string, stage: Stage)
    requires StageOK(s, c, limit, log, m, stage) && CurrentKept(c, d, limit) && limit <= later && log <= more
    ensures StageOK(s, d, later, more, m, stage)
  {
    hide Scene.Kill;
    forall n, token, errors | LogHas(s, log, n, token, errors) ensures LogHas(s, more, n, token, errors) {
      LogHasMore(s, log, more, n, token, errors);
    }
  }

  lemma LogHasMore(s: Scene, log: seq<Pass>, more: seq<Pass>, n: string, token: Option<Token>, errors: int)
    requires LogHas(s, log, n, token, errors) && log <= more
    ensures LogHas(s, more, n, token, errors)
  {
    var i :| 0 <= i < |log| && log[i].key == s.Kill(n) && log[i].signal.Payload?
             && log[i].signal.token == token && log[i].errors == errors;
    assert more[i] == log[i];
  }

  lemma MapKept(s: Scene, c: Cluster, d: Cluster, limit: Token, later: Token, log: seq<Pass>, m: ConfigMap)
    requires SignalsOK(s, c, limit, m) && AcksOK(s, limit, log, m)
    requires CurrentKept(c, d, limit) && limit <= later
    ensures SignalsOK(s, d, later, m) && AcksOK(s, later, log, m)
  {
    hide Scene.Kill, Scene.Ack, LogHas;
  }

  lemma LogKept(s: Scene, c: Cluster, d: Cluster, limit: Token, later: Token, log: seq<Pass>)
    requires LogOK(s, c, limit, log) && CurrentKept(c, d, limit) && limit <= later
    ensures LogOK(s, d, later, log)
  {
    hide Scene.Kill;
  }

  lemma AgentsKept(s: Scene, w: World, d: Cluster, later: Token)
    requires WorldInv(s, w) && CurrentKept(w.c, d, w.nextToken) && w.nextToken <= later
    ensures forall m :: m in w.agents ==> StageOK(s, d, later, w.log, m, w.agents[m].stage)
    ensures LogOK(s, d, later, w.log)
    ensures SignalsOK(s, d, later, Contents(w.cm)) && AcksOK(s, later, w.log, Contents(w.cm))
  {
    hide StageOK, LogOK, SignalsOK, AcksOK, CurrentKept, ClusterOK;
    forall m | m in w.agents ensures StageOK(s, d, later, w.log, m, w.agents[m].stage) {
      StageKept(s, w.c, d, w.nextToken, later, w.log, w.log, m, w.agents[m].stage);
    }
    LogKept(s, w.c, d, w.nextToken, later, w.log);
    MapKept(s, w.c, d, w.nextToken, later, w.log, Contents(w.cm));
  }

  // ----- What a reconcile does about the kill -----

  /** How the kill status and the outside calls of one reconcile hang together. */
  predicate KillFacts(c: Cluster, o: Outcome, e: Env) {
    && (o.calls.signal.Some? ==>
          && c.fs.status.transition.Some? && c.fs.status.transition.value.phase == FlushingConnections
          && SignalPending(c.fs.status.transition.value)
          && o.calls.signal.value.token == e.token
          && Some(o.calls.signal.value.ip) == c.fs.status.transition.value.oldAddress)
    && (o.calls.acks.Some? ==>
          && c.fs.status.transition.Some? && c.fs.status.transition.value.connectionKill.Some?
          && o.calls.acks.value.token == c.fs.status.transition.value.connectionKill.value.token
          && o.calls.acks.value.nodes == c.fs.status.transition.value.connectionKill.value.expectedNodes)
    && (!o.completed && c.fs.status.transition.Some? && o.cluster.fs.status.transition.Some?
        && o.cluster.fs.status.transition.value.connectionKill.Some? ==>
          var t, ck := c.fs.status.transition.value, o.cluster.fs.status.transition.value.connectionKill.value;
          || (&& t.connectionKill.Some?
              && ck.token == t.connectionKill.value.token && ck.expectedNodes == t.connectionKill.value.expectedNodes)
          || (&& ck.token == e.token && SignalPending(t) && t.phase == FlushingConnections
              && e.signal == Signaled(ck.expectedNodes) && ck.expectedNodes != []))
  }

  /** When a reconcile may leave the flush on its own. */
  predicate LeavesFlushRightly(cfg: Config, c: Cluster, o: Outcome, e: Env) {
    c.fs.status.transition.Some? && c.fs.status.transition.value.phase == FlushingConnections && !c.fs.forceAdvance
    && (o.completed || (o.cluster.fs.status.transition.Some? && o.cluster.fs.status.transition.value.phase != FlushingConnections))
    ==>
      var t := c.fs.status.transition.value;
      || !KillApplies(cfg, c.fs.spec, t)
      || (SignalPending(t) && e.signal == Signaled([]))
      || (t.connectionKill.Some? && o.calls.acks.Some? && e.acks.Acks? && e.acks.allAcked)
  }

  lemma CompleteCalls(cfg: Config, c: Cluster, t: Transition, calls: Calls, e: Env)
    ensures var o := Complete(cfg, c, t, calls, e);
            && o.calls.signal == calls.signal && o.calls.acks == calls.acks && o.calls.exec == calls.exec
            && (!o.completed ==> o.cluster.fs.status.transition == c.fs.status.transition)
  {
    hide NewTransition, CreateEvent, UpdateEvent;
  }

  lemma FlushKillFacts(cfg: Config, c: Cluster, e: Env)
    requires Inv(c) && c.fs.status.transition.Some? && c.fs.status.transition.value.phase == FlushingConnections
    requires !c.fs.forceAdvance
    ensures KillFacts(c, FlushConnections(cfg, c, e), e) && LeavesFlushRightly(cfg, c, FlushConnections(cfg, c, e), e)
  {
    hide Complete;
    forall t: Transition, calls: Calls
      ensures var o := Complete(cfg, c, t, calls, e);
              && o.calls.signal == calls.signal && o.calls.acks == calls.acks
              && (!o.completed ==> o.cluster.fs.status.transition == c.fs.status.transition)
    {
      CompleteCalls(cfg, c, t, calls, e);
    }
  }

  lemma ActionPhaseKillFacts(cfg: Config, c: Cluster, isPre: bool, e: Env)
    requires Inv(c) && c.fs.status.transition.Some? && c.fs.status.transition.value.phase == PhaseOf(isPre)
    ensures KillFacts(c, ExecuteActionPhase(cfg, c, isPre, e), e)
  {
    hide Complete, UpdateEvent;
    CompleteCalls(cfg, c, c.fs.status.transition.value, NoCalls, e);
  }

  lemma ReconcileKillFacts(cfg: Config, c: Cluster, e: Env)
    requires Inv(c)
    ensures KillFacts(c, Reconcile(cfg, c, e), e) && LeavesFlushRightly(cfg, c, Reconcile(cfg, c, e), e)
  {
    hide FlushConnections, ExecuteActionPhase, NewTransition, CreateEvent, UpdateEvent, SM.ReconcileWithAddress;
    var stamped := c.(fs := c.fs.(clusterID := cfg.id));
    if c.fs.status.transition.Some? && !c.fs.forceAdvance {
      match c.fs.status.transition.value.phase {
        case ExecutingPreActions => ActionPhaseKillFacts(cfg, stamped, true, e);
        case ExecutingPostActions => ActionPhaseKillFacts(cfg, stamped, false, e);
        case FlushingConnections => FlushKillFacts(cfg, stamped, e);
        case _ =>
      }
    }
  }

  lemma FreshTransitionHasNoKill(cfg: Config, spec: Spec, now: Time)
    ensures NewTransition(cfg, spec, now).connectionKill.None?
  {
  }

  lemma ReconcileKeepsCurrent(s: Scene, cfg: Config, c: Cluster, e: Env, limit: Token)
    requires Inv(c) && KillOK(s, c, limit) && e.token == limit
    requires e.signal.Signaled? ==> forall i :: 0 <= i < |e.signal.nodes| ==> e.signal.nodes[i] in s.nodes
    ensures CurrentKept(c, Reconcile(cfg, c, e).cluster, limit)
    ensures KillOK(s, Reconcile(cfg, c, e).cluster, limit + 1)
  {
    hide Reconcile, NewTransition;
    ReconcileKillFacts(cfg, c, e);
    FreshTransitionHasNoKill(cfg, Reconcile(cfg, c, e).cluster.fs.spec, e.now);
    if c.fs.status.transition.Some? {
      ReconcileInFlight(cfg, c, e);
      if c.fs.status.transition.value.connectionKill.Some? {
        Traffic.StoreKeptElsewhere(cfg, c, e);
      }
    } else {
      ReconcileAtRest(cfg, c, e);
    }
  }

  // ----- Steps keep the invariant -----

  lemma AckOnlyOurs(s: Scene, key: string, n: string)
    requires IsKill(key)
    ensures ACK + SuffixOf(key) == s.Ack(n) <==> key == s.Kill(n)
    ensures ACK + SuffixOf(key) != s.Kill(n)
  {
    var x := Suffix(s.h, n, s.ns, s.name);
    hide Suffix;
    Rejoined(key);
    SuffixesAreFaithful(SuffixOf(key), x);
    SuffixesAreFaithful(x, SuffixOf(key));
  }

  lemma SignalLands(s: Scene, w: World, d: Cluster, l: WorldLabel)
    requires s.Valid() && l.Controls? && ControlsEnabled(s, w, l) && Inv(w.c)
    requires SignalsOK(s, d, w.nextToken + 1, Contents(w.cm)) && AcksOK(s, w.nextToken + 1, w.log, Contents(w.cm))
    requires KillFacts(w.c, Reconcile(s.cfg, w.c, l.env), l.env)
    requires Current(d, Some(w.nextToken)) ==>
               w.c.fs.status.transition.Some?
               && d.fs.status.transition.value.oldAddress == w.c.fs.status.transition.value.oldAddress
    ensures var m := Contents(AfterSignal(s, w.cm, Reconcile(s.cfg, w.c, l.env).calls, l));
            SignalsOK(s, d, w.nextToken + 1, m) && AcksOK(s, w.nextToken + 1, w.log, m)
  {
    hide Reconcile, Suffix, Signaler.Populate, LogHas;
    var calls := Reconcile(s.cfg, w.c, l.env).calls;
    if calls.signal.Some? && l.signalLands && l.nodes != [] {
      var ip, token := calls.signal.value.ip, calls.signal.value.token;
      var before, after := Contents(w.cm), Signaler.Populate(s.h, Contents(w.cm), l.nodes, ip, token, s.ns, s.name);
      forall n | n in s.nodes
        ensures s.Kill(n) in after ==> SignalOK(s, d, w.nextToken + 1, n, after[s.Kill(n)])
        ensures s.Ack(n) in after ==> s.Ack(n) in before && after[s.Ack(n)] == before[s.Ack(n)]
      {
        forall i | 0 <= i < |l.nodes|
          ensures s.Ack(n) != s.Kill(l.nodes[i])
          ensures l.nodes[i] != n ==> s.Kill(n) != s.Kill(l.nodes[i])
        {
          SuffixesAreFaithful(Suffix(s.h, l.nodes[i], s.ns, s.name), Suffix(s.h, n, s.ns, s.name));
        }
        Signaler.NumbersGrow(s.h, before, l.nodes, ip, token, s.ns, s.name, s.Ack(n));
        Signaler.NumbersGrow(s.h, before, l.nodes, ip, token, s.ns, s.name, s.Kill(n));
        if n in l.nodes {
          var i :| 0 <= i < |l.nodes| && l.nodes[i] == n;
          Signaler.NodeSignalled(s.h, before, l.nodes, ip, token, s.ns, s.name, i);
        }
      }
    }
  }

  lemma ControlsKeepsInv(s: Scene, w: World, l: WorldLabel)
    requires s.Valid() && WorldInv(s, w) && Enabled(s, w, l) && l.Controls?
    ensures WorldInv(s, Next(s, w, l))
  {
    hide Reconcile, StageOK, LogOK, AcksOK, SignalsOK, AfterSignal;
    var d := Reconcile(s.cfg, w.c, l.env).cluster;
    var calls := Reconcile(s.cfg, w.c, l.env).calls;
    ReconcileKillFacts(s.cfg, w.c, l.env);
    ReconcileKeepsCurrent(s, s.cfg, w.c, l.env, w.nextToken);
    StepKeepsInv(s.cfg, w.c, Reconciles(l.env));
    AgentsKept(s, w, d, w.nextToken + 1);
    FreshSignalSameTransition(s, w, l);
    SignalLands(s, w, d, l);
    var m := AfterSignal(s, w.cm, calls, l);
    CleanupKeeps(s, d, w.nextToken + 1, w.log, m, calls, l);
  }

  lemma FreshSignalSameTransition(s: Scene, w: World, l: WorldLabel)
    requires WorldInv(s, w) && Enabled(s, w, l) && l.Controls?
    ensures var d := Reconcile(s.cfg, w.c, l.env).cluster;
            Current(d, Some(w.nextToken)) ==>
              w.c.fs.status.transition.Some?
              && d.fs.status.transition.value.oldAddress == w.c.fs.status.transition.value.oldAddress
  {
    hide Reconcile, NewTransition, StageOK, LogOK, AcksOK, SignalsOK;
    FreshTransitionHasNoKill(s.cfg, Reconcile(s.cfg, w.c, l.env).cluster.fs.spec, l.env.now);
    if w.c.fs.status.transition.Some? {
      ReconcileInFlight(s.cfg, w.c, l.env);
    } else {
      ReconcileAtRest(s.cfg, w.c, l.env);
    }
  }

  lemma CleanupKeeps(s: Scene, c: Cluster, limit: Token, log: seq<Pass>, cm: Option<ConfigMap>, calls: Calls, l: WorldLabel)
    requires l.Controls? && SignalsOK(s, c, limit, Contents(cm)) && AcksOK(s, limit, log, Contents(cm))
    ensures var m := Contents(AfterCleanup(s, cm, calls, l)); SignalsOK(s, c, limit, m) && AcksOK(s, limit, log, m)
  {
    hide Scene.Kill, Scene.Ack, LogHas, Signaler.Doomed;
  }

  lemma OthersKeepsInv(s: Scene, w: World, l: WorldLabel)
    requires s.Valid() && WorldInv(s, w) && Enabled(s, w, l) && (l.Others? || l.EditsSpec?)
    ensures WorldInv(s, Next(s, w, l))
  {
    hide Reconcile, Scene.Kill, Scene.Ack, LogHas, SM.PointsAt;
    if l.EditsSpec? {
      var d := Next(s, w, l).c;
      assert Traffic.At(d) == Traffic.At(w.c);
      hide StageOK, LogOK, AcksOK, SignalsOK;
      AgentsKept(s, w, d, w.nextToken);
    }
  }

  lemma AgentReadsKeepInv(s: Scene, w: World, l: WorldLabel)
    requires s.Valid() && WorldInv(s, w) && Enabled(s, w, l)
    requires l.Fetches? || l.StartsPass? || l.EndsScan? || l.Restarts?
    ensures WorldInv(s, Next(s, w, l))
  {
    var w' := Next(s, w, l);
    if l.StartsPass? {
      PassStarts(s, w, l);
    }
    assert StageOK(s, w.c, w.nextToken, w.log, l.node, w.agents[l.node].stage);
    hide Scene.Kill, Scene.Ack, LogHas, ClusterOK, Agent.Seeded, LogOK, AcksOK, SignalsOK, SignalOK, PassOK, Agent.Due;
    assert StageOK(s, w.c, w.nextToken, w.log, l.node, w'.agents[l.node].stage);
    forall m | m in w'.agents ensures StageOK(s, w'.c, w'.nextToken, w'.log, m, w'.agents[m].stage) {
    }
  }

  /** A pass for the current signal starts while the transition is being flushed or later. */
  lemma PassStarts(s: Scene, w: World, l: WorldLabel)
    requires s.Valid() && WorldInv(s, w) && Enabled(s, w, l) && l.StartsPass?
    ensures StageOK(s, w.c, w.nextToken, w.log, l.node, Next(s, w, l).agents[l.node].stage)
  {
    hide Scene.Kill, LogHas, Traffic.At, LogOK, AcksOK;
    var m := w.agents[l.node].stage.snapshot;
    assert StageOK(s, w.c, w.nextToken, w.log, l.node, w.agents[l.node].stage);
    forall n | n in s.nodes && l.key == s.Kill(n)
      ensures l.node == n && PassOK(w.c, m[l.key], w.c)
    {
      assert SignalOK(s, w.c, w.nextToken, n, m[l.key]);
    }
  }

  lemma PassFinishes(s: Scene, w: World, l: WorldLabel)
    requires s.Valid() && WorldInv(s, w) && Enabled(s, w, l) && l.FinishesPass?
    ensures WorldInv(s, Next(s, w, l))
  {
    var w' := Next(s, w, l);
    var k := w.agents[l.node].stage;
    assert StageOK(s, w.c, w.nextToken, w.log, l.node, k);
    assert w'.log[|w.log|] == Pass(l.node, k.key, k.signal, k.start, l.errors);
    hide Scene.Kill, Scene.Ack, SignalOK, PassOK, ClusterOK;
    assert StageOK(s, w.c, w.nextToken, w'.log, l.node, w'.agents[l.node].stage);
    forall m | m in w'.agents ensures StageOK(s, w'.c, w'.nextToken, w'.log, m, w'.agents[m].stage) {
      if m != l.node {
        StageKept(s, w.c, w.c, w.nextToken, w.nextToken, w.log, w'.log, m, w.agents[m].stage);
      }
    }
    AcksKeptByLog(s, w, w'.log);
    assert LogOK(s, w'.c, w'.nextToken, w'.log) by {
      forall i, n | 0 <= i < |w'.log| && n in s.nodes && w'.log[i].key == s.Kill(n)
        ensures w'.log[i].node == n && SignalOK(s, w.c, w.nextToken, n, w'.log[i].signal)
                && PassOK(w.c, w'.log[i].signal, w'.log[i].start)
      {
        if i < |w.log| {
          assert w'.log[i] == w.log[i];
        }
      }
    }
  }

  lemma AcksKeptByLog(s: Scene, w: World, more: seq<Pass>)
    requires AcksOK(s, w.nextToken, w.log, Contents(w.cm)) && w.log <= more
    ensures AcksOK(s, w.nextToken, more, Contents(w.cm))
  {
    hide Scene.Ack, LogHas;
    forall n, token, errors | LogHas(s, w.log, n, token, errors) ensures LogHas(s, more, n, token, errors) {
      LogHasMore(s, w.log, more, n, token, errors);
    }
  }

  lemma AckIsWritten(s: Scene, w: World, l: WorldLabel)
    requires s.Valid() && WorldInv(s, w) && Enabled(s, w, l) && l.WritesAck?
    ensures WorldInv(s, Next(s, w, l))
  {
    var a := w.agents[l.node].stage;
    assert StageOK(s, w.c, w.nextToken, w.log, l.node, a);
    forall n
      ensures ACK + SuffixOf(a.key) == s.Ack(n) <==> a.key == s.Kill(n)
      ensures ACK + SuffixOf(a.key) != s.Kill(n)
    {
      AckOnlyOurs(s, a.key, n);
    }
    hide Scene.Kill, Scene.Ack, LogHas, PassOK, ClusterOK, LogOK;
  }

  lemma StepKeepsWorldInv(s: Scene, w: World, l: WorldLabel)
    requires s.Valid() && WorldInv(s, w) && Enabled(s, w, l)
    ensures WorldInv(s, Next(s, w, l))
  {
    hide WorldInv, Next;
    match l {
      case Controls(_, _, _, _) => ControlsKeepsInv(s, w, l);
      case EditsSpec(_, _) => OthersKeepsInv(s, w, l);
      case Others(_) => OthersKeepsInv(s, w, l);
      case FinishesPass(_, _, _) => PassFinishes(s, w, l);
      case WritesAck(_, _, _) => AckIsWritten(s, w, l);
      case _ => AgentReadsKeepInv(s, w, l);
    }
  }

  // ----- The flush is safe -----

  /**
   * Node `n` was flushed by the signal of transition `t`: its agent finished an error-free pass over
   * the old address, begun when the signal was out and the Service pointed at `to`.
   */
  predicate Flushed(s: Scene, log: seq<Pass>, n: string, t: Transition, to: Option<Address>)
    requires t.connectionKill.Some?
  {
    exists i :: 0 <= i < |log| && log[i].node == n && log[i].signal.Payload? && log[i].errors == 0
                && log[i].signal.token == Some(t.connectionKill.value.token)
                && Some(log[i].signal.ip) == t.oldAddress
                && FlushUnderWay(log[i].start, log[i].signal.token, to)
  }

  /** The step takes a transition out of the flush. */
  predicate LeavesFlush(s: Scene, c: Cluster, l: WorldLabel) {
    && l.Controls? && !c.fs.forceAdvance
    && c.fs.status.transition.Some? && c.fs.status.transition.value.phase == FlushingConnections
    && var o := Reconcile(s.cfg, c, l.env);
    (o.completed || (o.cluster.fs.status.transition.Some? && o.cluster.fs.status.transition.value.phase != FlushingConnections))
  }

  predicate AllFlushed(s: Scene, log: seq<Pass>, t: Transition, to: Option<Address>) {
    && t.connectionKill.Some? && t.connectionKill.value.expectedNodes != []
    && forall i :: 0 <= i < |t.connectionKill.value.expectedNodes| ==>
         Flushed(s, log, t.connectionKill.value.expectedNodes[i], t, to)
  }

  /** Every expected node was flushed, or the signaller found none. */
  predicate FlushedOrNobody(s: Scene, w: World, l: WorldLabel, to: Option<Address>)
    requires LeavesFlush(s, w.c, l)
  {
    var t := w.c.fs.status.transition.value;
    AllFlushed(s, w.log, t, to) || (t.connectionKill.None? && l.env.signal == Signaled([]))
  }

  lemma FlushStepIsSafe(s: Scene, w: World, l: WorldLabel)
    requires s.Valid() && WorldInv(s, w) && Enabled(s, w, l) && LeavesFlush(s, w.c, l)
    requires KillApplies(s.cfg, w.c.fs.spec, w.c.fs.status.transition.value)
    ensures FlushedOrNobody(s, w, l, Traffic.At(w.c))
  {
    hide Reconcile, StageOK, SignalsOK, Scene.Kill, SM.PointsAt;
    ReconcileKillFacts(s.cfg, w.c, l.env);
    var t := w.c.fs.status.transition.value;
    if t.connectionKill.Some? {
      var ck := t.connectionKill.value;
      forall i | 0 <= i < |ck.expectedNodes| ensures Flushed(s, w.log, ck.expectedNodes[i], t, Traffic.At(w.c)) {
        var n := ck.expectedNodes[i];
        assert Signaler.AckedClean(s.h, Contents(w.cm), n, ck.token, s.ns, s.name);
        assert LogHas(s, w.log, n, Some(ck.token), 0);
        var j :| 0 <= j < |w.log| && w.log[j].key == s.Kill(n) && w.log[j].signal.Payload?
                 && w.log[j].signal.token == Some(ck.token) && w.log[j].errors == 0;
      }
    }
  }

  /** Before any flush of this service: nothing under its keys, no agent at work. */
  predicate Fresh(s: Scene, w: World) {
    && Inv(w.c) && Traffic.Shaped(w.c) && w.c.fs.status.transition.None?
    && (forall n :: n in s.nodes ==> s.Kill(n) !in Contents(w.cm) && s.Ack(n) !in Contents(w.cm))
    && (forall m :: m in w.agents ==> w.agents[m].stage.Resting?)
    && w.log == []
  }

  lemma {:induction false} RunKeepsWorldInv(s: Scene, ws: seq<World>, ls: seq<WorldLabel>, k: nat)
    requires IsWorldRun(s, ws, ls) && Fresh(s, ws[0]) && k < |ws|
    ensures WorldInv(s, ws[k]) && Traffic.Shaped(ws[k].c)
  {
    if k == 0 {
      hide Scene.Kill, Scene.Ack, Traffic.Shaped;
    } else {
      hide Enabled, Next, WorldInv, Fresh, Traffic.Shaped;
      assert StepAt(s, ws, ls, k - 1);
      RunKeepsWorldInv(s, ws, ls, k - 1);
      StepKeepsWorldInv(s, ws[k - 1], ls[k - 1]);
      StepKeepsServiceShape(s, ws[k - 1], ls[k - 1]);
    }
  }

  /** To the cluster, a step of the world is one of its own steps or nothing. */
  lemma ClusterMoves(s: Scene, w: World, l: WorldLabel)
    requires Enabled(s, w, l)
    ensures Next(s, w, l).c ==
            match l
            case Controls(e, _, _, _) => Step(s.cfg, w.c, Reconciles(e))
            case EditsSpec(spec, force) => Step(s.cfg, w.c, Edits(spec, force))
            case _ => w.c
  {
    hide Reconcile;
  }

  lemma StepKeepsServiceShape(s: Scene, w: World, l: WorldLabel)
    requires Enabled(s, w, l) && WorldInv(s, w) && Traffic.Shaped(w.c)
    ensures Traffic.Shaped(Next(s, w, l).c)
  {
    hide Step, Traffic.Shaped, Next, Enabled;
    ClusterMoves(s, w, l);
    match l {
      case Controls(e, _, _, _) => Traffic.StepKeepsShape(s.cfg, w.c, Reconciles(e));
      case EditsSpec(spec, force) => Traffic.StepKeepsShape(s.cfg, w.c, Edits(spec, force));
      case _ =>
    }
  }

  /**
   * Whenever, in any interleaving of crashes, lost writes, stale snapshots, repeated signals, restarts,
   * edits and force-advances, a transition with an IP old address leaves the flush other than by force,
   * every expected node was flushed for it, with the Service pointing where it points now; or the signaller
   * found no node to signal.
   */
  lemma FlushSafety(s: Scene, ws: seq<World>, ls: seq<WorldLabel>, k: nat)
    requires IsWorldRun(s, ws, ls) && Fresh(s, ws[0]) && k < |ls|
    requires LeavesFlush(s, ws[k].c, ls[k])
    requires KillApplies(s.cfg, ws[k].c.fs.spec, ws[k].c.fs.status.transition.value)
    ensures FlushedOrNobody(s, ws[k], ls[k], Traffic.At(ws[k].c))
  {
    hide Enabled, Next, WorldInv, Fresh;
    RunKeepsWorldInv(s, ws, ls, k);
    assert StepAt(s, ws, ls, k);
    FlushStepIsSafe(s, ws[k], ls[k]);
  }

  /** The step forces the transition out of its resource update. */
  predicate SkipsUpdate(w: World, l: WorldLabel) {
    l.Controls? && Traffic.SkipsUpdate(w.c, Reconciles(l.env))
  }

  lemma {:induction false} SwitchedOverRuns(s: Scene, ws: seq<World>, ls: seq<WorldLabel>, i: nat, k: nat)
    requires IsWorldRun(s, ws, ls) && Fresh(s, ws[0]) && i <= k < |ws| && Traffic.BeforeFlush(ws[i].c)
    requires forall m :: i <= m < k ==> !SkipsUpdate(ws[m], ls[m])
    ensures Traffic.Switched(ws[k].c)
    decreases k
  {
    hide Next, Enabled, WorldInv, Fresh, SkipsUpdate, Traffic.Shaped;
    RunKeepsWorldInv(s, ws, ls, k);
    if i < k {
      hide Traffic.Switched, Traffic.BeforeFlush;
      assert StepAt(s, ws, ls, k - 1);
      SwitchedOverRuns(s, ws, ls, i, k - 1);
      RunKeepsWorldInv(s, ws, ls, k - 1);
      StepKeepsServiceSwitched(s, ws[k - 1], ls[k - 1]);
    }
  }

  lemma StepKeepsServiceSwitched(s: Scene, w: World, l: WorldLabel)
    requires Enabled(s, w, l) && WorldInv(s, w) && Traffic.Switched(w.c) && !SkipsUpdate(w, l)
    ensures Traffic.Switched(Next(s, w, l).c)
  {
    hide Step, Traffic.Switched, Next, ControlsEnabled, LeavesOursAlone;
    ClusterMoves(s, w, l);
    match l {
      case Controls(e, _, _, _) => Traffic.StepKeepsSwitched(s.cfg, w.c, Reconciles(e));
      case EditsSpec(spec, force) => Traffic.StepKeepsSwitched(s.cfg, w.c, Edits(spec, force));
      case _ =>
    }
  }

  /**
   * And if the transition that leaves its flush was not forced out of its resource update (since some state
   * `i` before its flush), all these passes were begun with the Service at the new address.
   */
  lemma FlushAfterSwitch(s: Scene, ws: seq<World>, ls: seq<WorldLabel>, i: nat, k: nat)
    requires IsWorldRun(s, ws, ls) && Fresh(s, ws[0]) && i <= k < |ls|
    requires Traffic.BeforeFlush(ws[i].c) && forall m :: i <= m < k ==> !SkipsUpdate(ws[m], ls[m])
    requires LeavesFlush(s, ws[k].c, ls[k])
    requires KillApplies(s.cfg, ws[k].c.fs.spec, ws[k].c.fs.status.transition.value)
    ensures FlushedOrNobody(s, ws[k], ls[k], ws[k].c.fs.status.transition.value.newAddress)
  {
    hide Enabled, Next, Fresh, FlushedOrNobody;
    FlushSafety(s, ws, ls, k);
    SwitchedOverRuns(s, ws, ls, i, k);
  }
}
