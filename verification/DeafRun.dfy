/**
 * A run from a service at rest through one whole failover and its cleanup to the signal of the failback
 * after it, which the only agent ignores.
 */
module DeafRun {
  import opened Api
  import opened Controller
  import opened Progress
  import opened KillKeys
  import opened Flush
  import Signaler
  import Agent
  import Memory
  import SM = ServiceManager

  // ----- Reaching a world step by step -----

  ghost predicate Reaches(s: Scene, w: World, v: World) {
    exists ws, ls :: IsWorldRun(s, ws, ls) && ws[0] == w && ws[|ls|] == v
  }

  lemma ReachesItself(s: Scene, w: World)
    requires s.Valid()
    ensures Reaches(s, w, w)
  {
    assert IsWorldRun(s, [w], []);
  }

  lemma ReachesNext(s: Scene, w: World, v: World, l: WorldLabel)
    requires Reaches(s, w, v) && Enabled(s, v, l)
    ensures Reaches(s, w, Next(s, v, l))
  {
    hide Enabled, Next;
    var ws, ls :| IsWorldRun(s, ws, ls) && ws[0] == w && ws[|ls|] == v;
    var ws', ls' := ws + [Next(s, v, l)], ls + [l];
    forall i | 0 <= i < |ls'| ensures StepAt(s, ws', ls', i) {
      if i < |ls| {
        assert StepAt(s, ws, ls, i);
      }
    }
    assert IsWorldRun(s, ws', ls');
  }

  // ----- The cluster -----

  const HERE := IPv4("10.0.0.1")
  const THERE := IPv4("10.0.0.2")

  function OneNode(h: Digest): Scene {
    Scene(Config(PrimaryRole, "east", true, false), h, "apps", "db", {"node"})
  }

  function SpecOf(active: bool): Spec {
    var target := ClusterTarget(HERE, THERE, None, None);
    Spec(active, [], target, target)
  }

  function AddressOf(active: bool): Address {
    if active then THERE else HERE
  }

  function StoreAt(a: Address): SM.Store {
    SM.Store(Some(SM.Service(SM.ClusterIP, "", [], ["uid"])), Some(SM.EndpointSlice(SM.FamilyIPv4, [a], [], ["uid"])))
  }

  /** Towards `active`, since `start`. */
  function Moving(active: bool, phase: Phase, start: Time, kill: Option<ConnectionKill>): Transition {
    var d := DirectionOf(active);
    Transition(phase, d, Some(AddressOf(!active)), Some(AddressOf(active)), start, 0, [], [], Some(start), kill, EventName(d, start))
  }

  function ClusterOf(active: bool, at: bool, s: Status): Cluster {
    Cluster(FailoverService("db", "uid", SpecOf(active), false, "east", s), StoreAt(AddressOf(at)), map[])
  }

  /** Everything succeeds; no events are created. */
  function Calm(now: Time, token: Token, signal: SignalResult, acks: AckResult): Env {
    Env(now, true, true, true, true, true, true, false, false, false, 4, ExecError, token, signal, acks, SyncError)
  }

  function Cfg(): Config { Config(PrimaryRole, "east", true, false) }

  lemma BeginStep(active: bool, s: Status, now: Time, token: Token)
    requires s.lastKnown == Some(!active) && s.transition.None?
    ensures var o := Reconcile(Cfg(), ClusterOf(active, !active, s), Calm(now, token, SignalError, AckError));
            && o.calls == NoCalls
            && o.cluster == ClusterOf(active, !active,
                 s.(specChangeTime := Some(now), transition := Some(Moving(active, UpdatingResources, now, None))))
  {
  }

  lemma UpdateStep(active: bool, s: Status, start: Time, now: Time, token: Token)
    requires s.transition == Some(Moving(active, UpdatingResources, start, None))
    ensures var o := Reconcile(Cfg(), ClusterOf(active, !active, s), Calm(now, token, SignalError, AckError));
            && o.calls == NoCalls
            && o.cluster == ClusterOf(active, active, s.(transition := Some(Moving(active, FlushingConnections, start, None))))
  {
  }

  function Killing(token: Token): Option<ConnectionKill> {
    Some(ConnectionKill(true, token, ["node"], []))
  }

  lemma SignalStep(active: bool, s: Status, start: Time, now: Time, token: Token)
    requires s.transition == Some(Moving(active, FlushingConnections, start, None))
    ensures var o := Reconcile(Cfg(), ClusterOf(active, active, s), Calm(now, token, Signaled(["node"]), AckError));
            && o.calls == NoCalls.(signal := Some(SignalCall(AddressOf(!active), token)))
            && o.cluster == ClusterOf(active, active, s.(transition := Some(Moving(active, FlushingConnections, start, Killing(token)))))
  {
  }

  lemma CompleteStep(active: bool, s: Status, start: Time, kill: Token, now: Time, token: Token)
    requires s.transition == Some(Moving(active, FlushingConnections, start, Killing(kill)))
    ensures var o := Reconcile(Cfg(), ClusterOf(active, active, s), Calm(now, token, SignalError, Acks(true, ["node"])));
            && o.calls.acks == Some(AckCall(kill, ["node"])) && o.calls.signal.None? && o.calls.exec.None? && o.calls.cleanup
            && o.cluster == ClusterOf(active, active,
                 Status(Some(active), s.specChangeTime, s.activeGeneration + 1, "east", None))
  {
  }

  // ----- The worlds -----

  function Kill(h: Digest): string { KillKey(h, "node", "apps", "db") }
  function Ack(h: Digest): string { AckKey(h, "node", "apps", "db") }
  function SignalTo(ip: Address, token: Token): Payload { Payload(ip, 1, Some(token), "node", "apps", "db", 0, 0) }
  function Signalled(h: Digest, ip: Address, token: Token): ConfigMap { map[Kill(h) := SignalTo(ip, token)] }
  function Report(): Agent.Report { Agent.Report(1, 0) }
  function AckFor(ip: Address, token: Token): Payload { Agent.AckOf("node", SignalTo(ip, token), Report()) }

  /** The status `s`, with the transition towards `active` waiting for its ack. */
  function InFlush(active: bool, s: Status, start: Time, token: Token): Cluster {
    ClusterOf(active, active,
      s.(specChangeTime := Some(start), transition := Some(Moving(active, FlushingConnections, start, Killing(token)))))
  }

  function Quiet(now: Time, token: Token): WorldLabel {
    Controls(Calm(now, token, SignalError, AckError), [], false, true)
  }

  /** A reconcile that makes no outside calls. */
  lemma QuietStep(h: Digest, v: World, now: Time)
    requires Reconcile(Cfg(), v.c, Calm(now, v.nextToken, SignalError, AckError)).calls == NoCalls
    ensures var l := Quiet(now, v.nextToken);
            && Enabled(OneNode(h), v, l)
            && Next(OneNode(h), v, l) == v.(c := Reconcile(Cfg(), v.c, l.env).cluster, nextToken := v.nextToken + 1)
  {
    hide Reconcile, Suffix;
  }

  function Signalling(now: Time, token: Token): WorldLabel {
    Controls(Calm(now, token, Signaled(["node"]), AckError), ["node"], true, true)
  }

  /** A reconcile that signals, with no entries in the way. */
  lemma SignallingStep(h: Digest, v: World, now: Time, ip: Address)
    requires Reconcile(Cfg(), v.c, Signalling(now, v.nextToken).env).calls == NoCalls.(signal := Some(SignalCall(ip, v.nextToken)))
    requires Contents(v.cm) == map[]
    ensures var l := Signalling(now, v.nextToken);
            && Enabled(OneNode(h), v, l)
            && Next(OneNode(h), v, l) == v.(c := Reconcile(Cfg(), v.c, l.env).cluster,
                                            cm := Some(Signalled(h, ip, v.nextToken)), nextToken := v.nextToken + 1)
  {
    hide Reconcile, Suffix;
    assert ["node"][..0] == [];
    assert Signaler.Populate(h, map[], ["node"][..0], ip, v.nextToken, "apps", "db") == map[];
    assert Signaler.Populate(h, map[], ["node"], ip, v.nextToken, "apps", "db") == Signalled(h, ip, v.nextToken);
  }

  /** The status `s`, with the transition towards `active` about to signal. */
  function Switched(active: bool, s: Status, start: Time): Cluster {
    ClusterOf(active, active,
      s.(specChangeTime := Some(start), transition := Some(Moving(active, FlushingConnections, start, None))))
  }

  /** From rest with a pending flip to the switched Service: two reconciles. */
  lemma ToSwitched(h: Digest, w: World, v: World, active: bool, s: Status, now: Time)
    requires Reaches(OneNode(h), w, v)
    requires v.c == ClusterOf(active, !active, s) && s.lastKnown == Some(!active) && s.transition.None?
    ensures Reaches(OneNode(h), w, v.(c := Switched(active, s, now), nextToken := v.nextToken + 2))
  {
    hide Reconcile, Suffix, Enabled, Next, Reaches, OneNode;
    var scene, token := OneNode(h), v.nextToken;
    BeginStep(active, s, now, token);
    QuietStep(h, v, now);
    ReachesNext(scene, w, v, Quiet(now, token));
    var v1 := Next(scene, v, Quiet(now, token));
    UpdateStep(active, v1.c.fs.status, now, now + 1, token + 1);
    QuietStep(h, v1, now + 1);
    ReachesNext(scene, w, v1, Quiet(now + 1, token + 1));
  }

  /** With no entries left, the next reconcile signals. */
  lemma ToSignal(h: Digest, w: World, v: World, active: bool, s: Status, now: Time)
    requires Reaches(OneNode(h), w, v)
    requires v.c == ClusterOf(active, !active, s) && s.lastKnown == Some(!active) && s.transition.None?
    requires Contents(v.cm) == map[]
    ensures Reaches(OneNode(h), w, v.(c := InFlush(active, s, now, v.nextToken + 2),
                                      cm := Some(Signalled(h, AddressOf(!active), v.nextToken + 2)),
                                      nextToken := v.nextToken + 3))
  {
    hide Reconcile, Suffix, Enabled, Next, Reaches, OneNode;
    ToSwitched(h, w, v, active, s, now);
    var v2 := v.(c := Switched(active, s, now), nextToken := v.nextToken + 2);
    SignalStep(active, v2.c.fs.status, now, now + 2, v2.nextToken);
    SignallingStep(h, v2, now + 2, AddressOf(!active));
    ReachesNext(OneNode(h), w, v2, Signalling(now + 2, v2.nextToken));
  }

  // ----- The agent's pass, the completion and the way back -----

  function Suffix1(h: Digest): string { Suffix(h, "node", "apps", "db") }

  /** The agent has acked number one, and knows it if it was told. */
  function Remembering(h: Digest, told: bool): map<string, AgentState> {
    map["node" := AgentState(if told then map[Suffix1(h) := 1] else map[], Resting)]
  }

  function AckedMap(h: Digest, ip: Address, token: Token): ConfigMap {
    map[Kill(h) := SignalTo(ip, token), Ack(h) := AckFor(ip, token)]
  }

  /** The agent handles the signal: five steps. */
  lemma ToAck(h: Digest, w: World, v: World, ip: Address, token: Token, told: bool)
    requires Reaches(OneNode(h), w, v) && ip.IsIP()
    requires v.cm == Some(Signalled(h, ip, token)) && v.agents == map["node" := AgentState(map[], Resting)]
    ensures Reaches(OneNode(h), w, v.(cm := Some(AckedMap(h, ip, token)), agents := Remembering(h, told),
                                      log := v.log + [Pass("node", Kill(h), SignalTo(ip, token), v.c, 0)]))
  {
    hide Suffix, Reaches, ControlsEnabled, LeavesOursAlone, Reconcile;
    SuffixesAreFaithful(Suffix1(h), Suffix1(h));
    var s := OneNode(h);
    var m, p := Signalled(h, ip, token), SignalTo(ip, token);
    ReachesNext(s, w, v, Fetches("node"));
    var v1 := v.(agents := map["node" := AgentState(map[], Scanning(m))]);
    assert Next(s, v, Fetches("node")) == v1;
    ReachesNext(s, w, v1, StartsPass("node", Kill(h)));
    var v2 := v.(agents := map["node" := AgentState(map[], Stage.Killing(m, Kill(h), p, v.c))]);
    assert Next(s, v1, StartsPass("node", Kill(h))) == v2;
    ReachesNext(s, w, v2, FinishesPass("node", 1, 0));
    var v3 := v.(agents := map["node" := AgentState(map[], Acking(m, Kill(h), p, Report()))],
                 log := v.log + [Pass("node", Kill(h), p, v.c, 0)]);
    assert Next(s, v2, FinishesPass("node", 1, 0)) == v3;
    ReachesNext(s, w, v3, WritesAck("node", true, told));
    var memory: Agent.Progress := if told then map[Suffix1(h) := 1] else map[];
    var v4 := v3.(agents := map["node" := AgentState(memory, Scanning(m))], cm := Some(AckedMap(h, ip, token)));
    assert Next(s, v3, WritesAck("node", true, told)) == v4;
    ReachesNext(s, w, v4, EndsScan("node"));
    assert Next(s, v4, EndsScan("node")).agents == Remembering(h, told);
  }

  function Completing(now: Time, token: Token, cleaned: bool): WorldLabel {
    Controls(Calm(now, token, SignalError, Acks(true, ["node"])), [], false, cleaned)
  }

  lemma CleanedIsEmpty(h: Digest, ip: Address, token: Token)
    ensures Signaler.Cleaned(AckedMap(h, ip, token), "apps", "db") == map[]
  {
    hide Suffix;
    SuffixesAreFaithful(Suffix1(h), Suffix1(h));
  }

  /** The controller sees the ack, tries to clean up and completes; then the way back is requested. */
  lemma ToFlip(h: Digest, w: World, v: World, s: Status, start: Time, kill: Token, now: Time, cleaned: bool)
    requires Reaches(OneNode(h), w, v)
    requires v.c == InFlush(true, s, start, kill) && v.cm == Some(AckedMap(h, HERE, kill))
    ensures Reaches(OneNode(h), w, v.(
              c := ClusterOf(false, true, Status(Some(true), Some(start), s.activeGeneration + 1, "east", None)),
              cm := if cleaned then Some(map[]) else v.cm, nextToken := v.nextToken + 1))
  {
    hide Suffix, Reaches, Reconcile;
    var scene, l := OneNode(h), Completing(now, v.nextToken, cleaned);
    CompleteStep(true, v.c.fs.status, start, kill, now, v.nextToken);
    CleanedIsEmpty(h, HERE, kill);
    SuffixesAreFaithful(Suffix1(h), Suffix1(h));
    assert Enabled(scene, v, l);
    ReachesNext(scene, w, v, l);
    var v1 := Next(scene, v, l);
    assert v1.cm == if cleaned then Some(map[]) else v.cm;
    ReachesNext(scene, w, v1, EditsSpec(SpecOf(false), false));
  }

  // ----- The whole run -----

  /** At rest on this cluster, with the failover requested. */
  function Start(): World {
    World(ClusterOf(true, false, Status(Some(false), None, 0, "", None)), None, map["node" := AgentState(map[], Resting)], [], 0)
  }

  /** The failback waits for an ack to its signal, which has number one again. */
  function Finish(h: Digest): World {
    var s := Status(Some(true), Some(1), 1, "east", None);
    World(InFlush(false, s, 5, 6), Some(Signalled(h, THERE, 6)), Remembering(h, true),
          [Pass("node", Kill(h), SignalTo(HERE, 2), InFlush(true, Start().c.fs.status, 1, 2), 0)], 7)
  }

  lemma StartIsFresh(h: Digest)
    ensures OneNode(h).Valid() && Fresh(OneNode(h), Start())
  {
  }

  lemma FinishIsDeaf(h: Digest)
    ensures Memory.Deaf(OneNode(h), Finish(h), "node", 6)
  {
    hide Suffix;
    SuffixesAreFaithful(Suffix1(h), Suffix1(h));
  }

  /** A healthy failover and its failback request lead, without any failure, into a flush that never ends. */
  lemma FailbackIsDeaf(h: Digest)
    ensures Fresh(OneNode(h), Start()) && Reaches(OneNode(h), Start(), Finish(h))
    ensures Memory.Deaf(OneNode(h), Finish(h), "node", 6)
  {
    hide Suffix, Reaches, Fresh, Memory.Deaf;
    StartIsFresh(h);
    FinishIsDeaf(h);
    var s0 := Start().c.fs.status;
    ReachesItself(OneNode(h), Start());
    ToSignal(h, Start(), Start(), true, s0, 1);
    var v1 := Start().(c := InFlush(true, s0, 1, 2), cm := Some(Signalled(h, HERE, 2)), nextToken := 3);
    ToAck(h, Start(), v1, HERE, 2, true);
    var v2 := v1.(cm := Some(AckedMap(h, HERE, 2)), agents := Remembering(h, true),
                  log := v1.log + [Pass("node", Kill(h), SignalTo(HERE, 2), v1.c, 0)]);
    ToFlip(h, Start(), v2, s0, 1, 2, 4, true);
    var s1 := Status(Some(true), Some(1), 1, "east", None);
    var v3 := v2.(c := ClusterOf(false, true, s1), cm := Some(map[]), nextToken := 4);
    ToSignal(h, Start(), v3, false, s1, 5);
    assert v3.log == Finish(h).log;
  }
}
