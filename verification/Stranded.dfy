/**
 * A flush that can no longer end: completion removes the acks before it persists, so a completion whose
 * status write fails leaves a transition that waits for acks nobody will write again.
 */
module Stranded {
  import opened Api
  import opened Controller
  import opened Progress
  import opened KillKeys
  import opened Flush
  import Signaler
  import Agent
  import SM = ServiceManager

  // ----- The stranded states -----

  predicate Carries(p: Payload, token: Token) {
    p.Payload? && p.token == Some(token)
  }

  /** No signal and no ack of this service carries the token. */
  predicate Absent(s: Scene, m: ConfigMap, token: Token) {
    forall n :: n in s.nodes ==>
      && (s.Kill(n) in m ==> !Carries(m[s.Kill(n)], token))
      && (s.Ack(n) in m ==> !Carries(m[s.Ack(n)], token))
  }

  /** The agent is not about to act on a signal with the token. */
  predicate Forgotten(s: Scene, stage: Stage, token: Token) {
    match stage
    case Resting => true
    case Scanning(snapshot) => Absent(s, snapshot, token)
    case Killing(snapshot, key, signal, _) => Absent(s, snapshot, token) && NotOurs(s, key, signal, token)
    case Acking(snapshot, key, signal, _) => Absent(s, snapshot, token) && NotOurs(s, key, signal, token)
  }

  predicate NotOurs(s: Scene, key: string, signal: Payload, token: Token) {
    IsKill(key) && forall n :: n in s.nodes && key == s.Kill(n) ==> !Carries(signal, token)
  }

  /** Waiting for the acks of this token. */
  predicate Awaits(s: Scene, c: Cluster, token: Token) {
    && s.cfg.signaler && !c.fs.forceAdvance
    && c.fs.status.transition.Some?
    && var t := c.fs.status.transition.value;
    && t.phase == FlushingConnections
    && t.oldAddress.Some? && t.oldAddress.value.IsIP()
    && Current(c, Some(token))
    && t.connectionKill.value.signalSent
    && t.connectionKill.value.expectedNodes != []
    && forall i :: 0 <= i < |t.connectionKill.value.expectedNodes| ==> t.connectionKill.value.expectedNodes[i] in s.nodes
  }

  ghost predicate Stuck(s: Scene, w: World, token: Token) {
    && Inv(w.c) && Awaits(s, w.c, token)
    && Absent(s, Contents(w.cm), token)
    && forall m :: m in w.agents ==> Forgotten(s, w.agents[m].stage, token)
  }

  /** Nobody forces the transition on. */
  predicate Unforced(l: WorldLabel) {
    l.EditsSpec? ==> !l.forceAdvance
  }

  // ----- They are never left -----

  lemma WaitsOn(s: Scene, c: Cluster, e: Env, token: Token)
    requires Inv(c) && Awaits(s, c, token)
    requires Reconcile(s.cfg, c, e).calls.acks.Some? ==> e.acks.AckError? || !e.acks.allAcked
    ensures var o := Reconcile(s.cfg, c, e);
            && Awaits(s, o.cluster, token)
            && o.cluster.fs.status.transition.value.connectionKill.value.expectedNodes ==
               c.fs.status.transition.value.connectionKill.value.expectedNodes
            && o.calls.signal.None? && !o.calls.cleanup
  {
  }

  lemma NoAckCanCount(s: Scene, w: World, l: WorldLabel, token: Token)
    requires s.Valid() && Stuck(s, w, token) && Enabled(s, w, l) && l.Controls?
    ensures var o := Reconcile(s.cfg, w.c, l.env);
            Awaits(s, o.cluster, token) && o.calls.signal.None? && !o.calls.cleanup
  {
    hide Scene.Kill, Reconcile;
    var calls := Reconcile(s.cfg, w.c, l.env).calls;
    if calls.acks.Some? {
      ReconcileKillFacts(s.cfg, w.c, l.env);
      if l.env.acks.Acks? {
        var nodes := calls.acks.value.nodes;
        assert nodes[0] in s.nodes;
        assert !Signaler.AckedClean(s.h, Contents(w.cm), nodes[0], token, s.ns, s.name);
      }
    }
    WaitsOn(s, w.c, l.env, token);
  }

  lemma ControlsKeepsStuck(s: Scene, w: World, l: WorldLabel, token: Token)
    requires s.Valid() && Stuck(s, w, token) && Enabled(s, w, l) && l.Controls?
    ensures Stuck(s, Next(s, w, l), token)
  {
    hide Reconcile, Absent, Awaits, Forgotten;
    NoAckCanCount(s, w, l, token);
    StepKeepsInv(s.cfg, w.c, Reconciles(l.env));
  }

  lemma AckKeepsStuck(s: Scene, w: World, l: WorldLabel, token: Token)
    requires s.Valid() && Stuck(s, w, token) && Enabled(s, w, l) && l.WritesAck?
    ensures Stuck(s, Next(s, w, l), token)
  {
    var a := w.agents[l.node].stage;
    assert Forgotten(s, a, token);
    forall n
      ensures ACK + SuffixOf(a.key) == s.Ack(n) <==> a.key == s.Kill(n)
      ensures ACK + SuffixOf(a.key) != s.Kill(n)
    {
      AckOnlyOurs(s, a.key, n);
    }
    hide Scene.Kill, Scene.Ack, Awaits;
  }

  lemma AgentKeepsStuck(s: Scene, w: World, l: WorldLabel, token: Token)
    requires s.Valid() && Stuck(s, w, token) && Enabled(s, w, l)
    requires l.Fetches? || l.StartsPass? || l.FinishesPass? || l.EndsScan? || l.Restarts?
    ensures Stuck(s, Next(s, w, l), token)
  {
    var w' := Next(s, w, l);
    assert Forgotten(s, w.agents[l.node].stage, token);
    hide Scene.Kill, Scene.Ack, Awaits, Agent.Seeded;
    assert Forgotten(s, w'.agents[l.node].stage, token);
    hide Forgotten, Absent, Enabled;
    assert forall m :: m in w'.agents && m != l.node ==> w'.agents[m] == w.agents[m];
  }

  lemma StepKeepsStuck(s: Scene, w: World, l: WorldLabel, token: Token)
    requires s.Valid() && Stuck(s, w, token) && Enabled(s, w, l) && Unforced(l)
    ensures Stuck(s, Next(s, w, l), token)
  {
    match l {
      case Controls(_, _, _, _) => ControlsKeepsStuck(s, w, l, token);
      case WritesAck(_, _, _) => AckKeepsStuck(s, w, l, token);
      case EditsSpec(_, _) => hide Scene.Kill, Scene.Ack, Forgotten;
      case Others(_) => hide Scene.Kill, Scene.Ack, Forgotten, Awaits;
      case _ => hide Stuck, Next, Enabled; AgentKeepsStuck(s, w, l, token);
    }
  }

  /** No run leads out of a stranded flush unless somebody forces it. */
  lemma {:induction false} StrandedForever(s: Scene, ws: seq<World>, ls: seq<WorldLabel>, token: Token, k: nat)
    requires IsWorldRun(s, ws, ls) && Stuck(s, ws[0], token) && k < |ws|
    requires forall i :: 0 <= i < |ls| ==> Unforced(ls[i])
    ensures Stuck(s, ws[k], token) && ws[k].c.fs.status.transition.value.phase == FlushingConnections
  {
    if k > 0 {
      assert StepAt(s, ws, ls, k - 1);
      StrandedForever(s, ws, ls, token, k - 1);
      hide Stuck, Next, Enabled;
      StepKeepsStuck(s, ws[k - 1], ls[k - 1], token);
    }
  }

  // ----- How a flush gets there -----

  /** The writes that persist a completion. */
  predicate WritesLand(cfg: Config, e: Env) {
    if cfg.syncer && e.sync.RemoteWins? then e.specWrite && e.adoptWrite else e.statusWrite
  }

  /** This reconcile finds all acks and tries to complete. */
  predicate TriesToComplete(s: Scene, c: Cluster, e: Env, token: Token) {
    && Awaits(s, c, token)
    && (c.fs.clusterID == s.cfg.id || e.idWrite)
    && ActionsFor(s.cfg, c.fs.spec, c.fs.status.transition.value.direction, false) == []
    && e.acks.Acks? && e.acks.allAcked
  }

  lemma CompletionNeedsItsWrites(s: Scene, c: Cluster, e: Env, token: Token)
    requires Inv(c) && TriesToComplete(s, c, e, token)
    ensures var o := Reconcile(s.cfg, c, e);
            && o.calls.cleanup && o.calls.signal.None?
            && (o.completed <==> WritesLand(s.cfg, e))
            && (!o.completed ==> Awaits(s, o.cluster, token))
  {
    hide Begin, UpdateEvent;
  }

  /** Cleanup takes every entry of the service that carries the current token. */
  lemma CleanupTakesTheToken(s: Scene, w: World, token: Token)
    requires s.Valid() && WorldInv(s, w) && s.name != ""
    ensures Absent(s, Signaler.Cleaned(Contents(w.cm), s.ns, s.name), token)
  {
    hide StageOK, LogOK, LogHas, ClusterOK;
    var m := Contents(w.cm);
    forall n | n in s.nodes
      ensures s.Kill(n) in m ==> !Carries(m[s.Kill(n)], token) || Signaler.Doomed(m, s.Kill(n), s.ns, s.name)
      ensures s.Ack(n) in m ==> !Carries(m[s.Ack(n)], token) || Signaler.Doomed(m, s.Ack(n), s.ns, s.name)
    {
      SuffixesAreFaithful(Suffix(s.h, n, s.ns, s.name), Suffix(s.h, n, s.ns, s.name));
      assert s.Kill(n) in m ==> SignalOK(s, w.c, w.nextToken, n, m[s.Kill(n)]);
    }
    hide Scene.Kill, Scene.Ack, SignalsOK, AcksOK, Signaler.Doomed;
  }

  /** Without a cleanup the acks that were found are still there. */
  lemma UncleanedAcksStay(s: Scene, w: World, l: WorldLabel, token: Token)
    requires s.Valid() && WorldInv(s, w) && Enabled(s, w, l) && l.Controls? && TriesToComplete(s, w.c, l.env, token)
    ensures !Absent(s, Contents(w.cm), token)
  {
    hide WorldInv, Suffix;
    var nodes := w.c.fs.status.transition.value.connectionKill.value.expectedNodes;
    PollsBeforeCompleting(s, w.c, l.env, token);
    hide Reconcile;
    assert Signaler.AckedClean(s.h, Contents(w.cm), nodes[0], token, s.ns, s.name);
    assert nodes[0] in s.nodes;
  }

  lemma PollsBeforeCompleting(s: Scene, c: Cluster, e: Env, token: Token)
    requires TriesToComplete(s, c, e, token)
    ensures Reconcile(s.cfg, c, e).calls.acks ==
            Some(AckCall(token, c.fs.status.transition.value.connectionKill.value.expectedNodes))
  {
    hide Begin, UpdateEvent, JobNames;
  }

  /** A completed transition awaits no acks. */
  lemma CompletedAwaitsNothing(s: Scene, c: Cluster, e: Env, token: Token)
    requires Inv(c) && c.fs.status.transition.Some? && Reconcile(s.cfg, c, e).completed
    ensures !Awaits(s, Reconcile(s.cfg, c, e).cluster, token)
  {
    hide Reconcile, NewTransition;
    ReconcileInFlight(s.cfg, c, e);
    FreshTransitionHasNoKill(s.cfg, Reconcile(s.cfg, c, e).cluster.fs.spec, e.now);
  }

  /**
   * A completion straight from the flush succeeds exactly when its writes land. It strands the transition
   * exactly when they fail, the cleanup before them landed, and no agent still holds the signal.
   */
  lemma FailedCompletionStrands(s: Scene, w: World, l: WorldLabel, token: Token)
    requires s.Valid() && WorldInv(s, w) && Enabled(s, w, l) && s.name != ""
    requires l.Controls? && TriesToComplete(s, w.c, l.env, token)
    ensures Reconcile(s.cfg, w.c, l.env).completed <==> WritesLand(s.cfg, l.env)
    ensures Stuck(s, Next(s, w, l), token) <==>
              && !WritesLand(s.cfg, l.env)
              && l.cleanupLands
              && forall m :: m in w.agents ==> Forgotten(s, w.agents[m].stage, token)
  {
    CompletionNeedsItsWrites(s, w.c, l.env, token);
    CleanupTakesTheToken(s, w, token);
    UncleanedAcksStay(s, w, l, token);
    if WritesLand(s.cfg, l.env) {
      CompletedAwaitsNothing(s, w.c, l.env, token);
    }
    hide Reconcile, Absent, Awaits, Forgotten, StageOK, LogOK, AcksOK, SignalsOK;
    StepKeepsInv(s.cfg, w.c, Reconciles(l.env));
  }

  // ----- The smallest case -----

  const OLD := IPv4("10.0.0.1")
  const NEW := Hostname("standby.example")

  /** One node, no hooks, no remote. */
  function OneNode(h: Digest): Scene {
    Scene(Config(PrimaryRole, "east", true, false), h, "apps", "db", {"node"})
  }

  /** Failing over from `OLD` to `NEW`: the Service is switched, the signal is out. */
  function Flushing(): Cluster {
    var target := ClusterTarget(OLD, NEW, None, None);
    var t := Transition(FlushingConnections, Failover, Some(OLD), Some(NEW), 7, 0, [], [], Some(7),
                        Some(ConnectionKill(true, 0, ["node"], [])), EventName(Failover, 7));
    Cluster(FailoverService("db", "uid", Spec(true, [], target, target), false, "east",
                            Status(Some(false), Some(7), 3, "east", Some(t))),
            SM.Store(Some(SM.Service(SM.ExternalName, "standby.example", [], ["uid"])), None),
            map[])
  }

  /** The only node has acked the signal without errors. */
  function AllAcked(h: Digest): World {
    var signal := Payload(OLD, 1, Some(0), "node", "apps", "db", 0, 0);
    var cm := map[KillKey(h, "node", "apps", "db") := signal,
                  AckKey(h, "node", "apps", "db") := Agent.AckOf("node", signal, Agent.Report(2, 0))];
    World(Flushing(), Some(cm), map["node" := AgentState(map[], Resting)],
          [Pass("node", KillKey(h, "node", "apps", "db"), signal, Flushing(), 0)], 1)
  }

  /** The controller sees the ack, cleans up, and its status write fails. */
  function LosesTheWrite(): WorldLabel {
    var e := Env(9, true, true, false, true, true, true, true, true, true, 4, ExecError, 1, SignalError,
                 Acks(true, ["node"]), SyncError);
    Controls(e, [], false, true)
  }

  lemma AllAckedIsInvariant(h: Digest)
    ensures OneNode(h).Valid() && WorldInv(OneNode(h), AllAcked(h))
  {
    var s, w := OneNode(h), AllAcked(h);
    SuffixesAreFaithful(Suffix(h, "node", "apps", "db"), Suffix(h, "node", "apps", "db"));
    assert w.log[0].key == s.Kill("node");
    hide Suffix;
  }

  lemma StrandingHappens(h: Digest)
    ensures WorldInv(OneNode(h), AllAcked(h)) && Enabled(OneNode(h), AllAcked(h), LosesTheWrite())
    ensures Stuck(OneNode(h), Next(OneNode(h), AllAcked(h), LosesTheWrite()), 0)
  {
    AllAckedIsInvariant(h);
    hide WorldInv, Stuck, Next, Suffix;
    FailedCompletionStrands(OneNode(h), AllAcked(h), LosesTheWrite(), 0);
  }
}
