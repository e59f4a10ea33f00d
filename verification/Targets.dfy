/** Whose connections a kill pass cuts: those to the old address, or, with a stale signal, those in use. */
module Targets {
  import opened Api
  import opened Controller
  import opened Progress
  import opened KillKeys
  import opened Flush
  import opened Memory
  import Signaler
  import Agent
  import Traffic
  import DeafRun

  // ----- The current signal spares the active address -----

  /** The signal that agent `n` would act on, from what it read. */
  function Held(s: Scene, w: World, n: string): Option<Payload> {
    if n in w.agents && w.agents[n].stage.Scanning? && s.Kill(n) in w.agents[n].stage.snapshot
    then Some(w.agents[n].stage.snapshot[s.Kill(n)]) else None
  }

  /** It names the address that the Service uses. */
  predicate HitsActive(c: Cluster, p: Payload) {
    p.Payload? && Some(p.ip) == Traffic.At(c)
  }

  lemma HeldSignalIsOK(s: Scene, w: World, n: string)
    requires WorldInv(s, w) && n in s.nodes && Held(s, w, n).Some?
    ensures SignalOK(s, w.c, w.nextToken, n, Held(s, w, n).value)
  {
    assert StageOK(s, w.c, w.nextToken, w.log, n, w.agents[n].stage);
  }

  /**
   * In every run, a pass for the current signal of a transition that was not forced out of its update (since
   * some state `i` before its flush) begins with that signal at the old address and the Service at the new.
   */
  lemma CurrentSignalSparesActive(s: Scene, ws: seq<World>, ls: seq<WorldLabel>, i: nat, k: nat, n: string)
    requires IsWorldRun(s, ws, ls) && Fresh(s, ws[0]) && n in s.nodes && i <= k < |ls|
    requires Traffic.BeforeFlush(ws[i].c) && forall m :: i <= m < k ==> !SkipsUpdate(ws[m], ls[m])
    requires ls[k] == StartsPass(n, s.Kill(n))
    requires Held(s, ws[k], n).Some? && Held(s, ws[k], n).value.Payload? && Current(ws[k].c, Held(s, ws[k], n).value.token)
    ensures var t, p := ws[k].c.fs.status.transition.value, Held(s, ws[k], n).value;
            && Some(p.ip) == t.oldAddress
            && Traffic.At(ws[k].c) == t.newAddress
            && (t.oldAddress != t.newAddress ==> !HitsActive(ws[k].c, p))
  {
    hide Enabled, Next, Fresh, Scene.Kill, Held, WorldInv;
    RunKeepsWorldInv(s, ws, ls, k);
    SwitchedOverRuns(s, ws, ls, i, k);
    HeldSignalIsOK(s, ws[k], n);
    CurrentMeansFlushing(s, ws[k], Held(s, ws[k], n).value.token);
  }

  lemma CurrentMeansFlushing(s: Scene, w: World, token: Option<Token>)
    requires WorldInv(s, w) && Current(w.c, token)
    ensures w.c.fs.status.transition.value.phase in {FlushingConnections, ExecutingPostActions}
  {
  }

  // ----- A stale signal may not -----

  /**
   * What an agent holds, of whatever age, is run against the address in use exactly if the agent does not
   * remember its number and the Service points there at that time.
   */
  lemma StaleSignalHits(s: Scene, w: World, n: string)
    requires s.Valid() && WorldInv(s, w) && n in s.nodes
    requires Held(s, w, n).Some? && Held(s, w, n).value.Payload? && Held(s, w, n).value.ip.IsIP()
    ensures var p := Held(s, w, n).value;
            Enabled(s, w, StartsPass(n, s.Kill(n))) && HitsActive(w.c, p) <==>
              p.number > Agent.Last(w.agents[n].lastSeq, SuffixFor(s, n)) && Some(p.ip) == Traffic.At(w.c)
  {
    hide Suffix, WorldInv;
    HeldSignalIsOK(s, w, n);
    SuffixesAreFaithful(SuffixFor(s, n), SuffixFor(s, n));
  }

  // ----- Where a stale signal comes from -----

  /** The step tries to signal. */
  predicate TriesToSignal(s: Scene, w: World, l: WorldLabel) {
    l.Controls? && Reconcile(s.cfg, w.c, l.env).calls.signal.Some?
  }

  /** The step removes the entries of the service. */
  predicate CleansUp(s: Scene, w: World, l: WorldLabel) {
    l.Controls? && Reconcile(s.cfg, w.c, l.env).calls.cleanup && l.cleanupLands
  }

  predicate NoSignal(s: Scene, m: ConfigMap, n: string) {
    s.Kill(n) in m ==> m[s.Kill(n)].Malformed?
  }

  /** The cleanup takes every signal, also one that the same reconcile has just given. */
  lemma CleanupRemovesSignal(s: Scene, w: World, l: WorldLabel, n: string)
    requires s.Valid() && WorldInv(s, w) && Enabled(s, w, l) && n in s.nodes && s.name != "" && CleansUp(s, w, l)
    ensures NoSignal(s, Contents(Next(s, w, l).cm), n)
  {
    var before := AfterSignal(s, w.cm, Reconcile(s.cfg, w.c, l.env).calls, l);
    SignalsNameTheService(s, w, l, n);
    hide Reconcile, WorldInv, Suffix, AfterSignal;
    SuffixesAreFaithful(SuffixFor(s, n), SuffixFor(s, n));
    assert Contents(Next(s, w, l).cm) == if before.Some? then Signaler.Cleaned(before.value, s.ns, s.name) else map[];
  }

  lemma SignalsNameTheService(s: Scene, w: World, l: WorldLabel, n: string)
    requires s.Valid() && WorldInv(s, w) && Enabled(s, w, l) && n in s.nodes && l.Controls?
    ensures var m := Contents(AfterSignal(s, w.cm, Reconcile(s.cfg, w.c, l.env).calls, l));
            s.Kill(n) in m && m[s.Kill(n)].Payload? ==> m[s.Kill(n)].fsNamespace == s.ns && m[s.Kill(n)].fsName == s.name
  {
    hide Reconcile, StageOK, LogOK, AcksOK, AfterSignal, Scene.Kill;
    var d := Reconcile(s.cfg, w.c, l.env).cluster;
    ReconcileKillFacts(s.cfg, w.c, l.env);
    ReconcileKeepsCurrent(s, s.cfg, w.c, l.env, w.nextToken);
    AgentsKept(s, w, d, w.nextToken + 1);
    FreshSignalSameTransition(s, w, l);
    SignalLands(s, w, d, l);
  }

  /** Only the controller gives signals. */
  lemma NoNewSignal(s: Scene, w: World, l: WorldLabel, n: string)
    requires s.Valid() && WorldInv(s, w) && Enabled(s, w, l) && n in s.nodes && NoSignal(s, Contents(w.cm), n)
    requires !TriesToSignal(s, w, l)
    ensures NoSignal(s, Contents(Next(s, w, l).cm), n)
  {
    if l.WritesAck? {
      OwnAck(s, w, l, n);
    }
    hide Reconcile, WorldInv, Suffix, Signaler.Doomed;
  }

  /** After a cleanup that landed, and until the next signal, there is none to be found. */
  lemma {:induction false} NoneAfterCleanup(s: Scene, ws: seq<World>, ls: seq<WorldLabel>, n: string, j: nat, k: nat)
    requires IsWorldRun(s, ws, ls) && Fresh(s, ws[0]) && n in s.nodes && s.name != "" && j < k < |ws|
    requires CleansUp(s, ws[j], ls[j]) && forall m :: j < m < k ==> !TriesToSignal(s, ws[m], ls[m])
    ensures NoSignal(s, Contents(ws[k].cm), n)
    decreases k
  {
    hide Enabled, Next, WorldInv, Fresh, NoSignal, CleansUp, TriesToSignal;
    assert StepAt(s, ws, ls, k - 1);
    RunKeepsWorldInv(s, ws, ls, k - 1);
    if k == j + 1 {
      CleanupRemovesSignal(s, ws[j], ls[j], n);
    } else {
      NoneAfterCleanup(s, ws, ls, n, j, k - 1);
      NoNewSignal(s, ws[k - 1], ls[k - 1], n);
    }
  }

  /** The agent holds no signal. */
  predicate HoldsNone(s: Scene, w: World, n: string) {
    n in w.agents && match w.agents[n].stage
    case Resting => true
    case Scanning(m) => NoSignal(s, m, n)
    case Killing(m, _, _, _) => NoSignal(s, m, n)
    case Acking(m, _, _, _) => NoSignal(s, m, n)
  }

  lemma StepKeepsNone(s: Scene, w: World, l: WorldLabel, n: string)
    requires Enabled(s, w, l) && HoldsNone(s, w, n) && NoSignal(s, Contents(w.cm), n)
    ensures HoldsNone(s, Next(s, w, l), n)
  {
    hide Reconcile, ControlsEnabled, AfterSignal, AfterCleanup, NoSignal, Agent.Due, Agent.Reborn;
  }

  /** Without a signal in the ConfigMap, an agent that holds none after its fetch never comes to hold one. */
  lemma {:induction false} HoldsNoneSince(s: Scene, ws: seq<World>, ls: seq<WorldLabel>, n: string, f: nat, k: nat)
    requires IsWorldRun(s, ws, ls) && f < k < |ws| && ls[f] == Fetches(n)
    requires forall m :: f <= m < k ==> NoSignal(s, Contents(ws[m].cm), n)
    ensures HoldsNone(s, ws[k], n)
    decreases k
  {
    assert StepAt(s, ws, ls, k - 1);
    if k == f + 1 {
      hide Reconcile;
    } else {
      hide Enabled, Next, NoSignal, HoldsNone;
      HoldsNoneSince(s, ws, ls, n, f, k - 1);
      StepKeepsNone(s, ws[k - 1], ls[k - 1], n);
    }
  }

  /**
   * So when a signal is acted on although the last signals were cleaned up and no new ones given, the agent
   * has held it since before that cleanup.
   */
  lemma StaleIsHeldSince(s: Scene, ws: seq<World>, ls: seq<WorldLabel>, n: string, j: nat, k: nat)
    requires IsWorldRun(s, ws, ls) && Fresh(s, ws[0]) && n in s.nodes && s.name != "" && j < k < |ls|
    requires CleansUp(s, ws[j], ls[j]) && forall m :: j < m < k ==> !TriesToSignal(s, ws[m], ls[m])
    requires ls[k] == StartsPass(n, s.Kill(n))
    ensures forall f :: j < f < k ==> ls[f] != Fetches(n)
  {
    hide Enabled, Next, WorldInv, Fresh, NoSignal, CleansUp, TriesToSignal, HoldsNone;
    assert StepAt(s, ws, ls, k);
    StartNeedsSignal(s, ws[k], n);
    forall f | j < f < k ensures ls[f] != Fetches(n) {
      if ls[f] == Fetches(n) {
        forall m | f <= m < k ensures NoSignal(s, Contents(ws[m].cm), n) {
          NoneAfterCleanup(s, ws, ls, n, j, m);
        }
        HoldsNoneSince(s, ws, ls, n, f, k);
      }
    }
  }

  lemma StartNeedsSignal(s: Scene, w: World, n: string)
    requires Enabled(s, w, StartsPass(n, s.Kill(n)))
    ensures !HoldsNone(s, w, n)
  {
  }

  // ----- Two failures are enough -----

  /** The failback has switched the Service back; the signal of the failover is still there. */
  function BackHome(h: Digest): World {
    var s := Status(Some(true), Some(1), 1, "east", None);
    World(DeafRun.Switched(false, s, 5), Some(DeafRun.AckedMap(h, DeafRun.HERE, 2)), DeafRun.Remembering(h, false),
          [Pass("node", DeafRun.Kill(h), DeafRun.SignalTo(DeafRun.HERE, 2),
                DeafRun.InFlush(true, DeafRun.Start().c.fs.status, 1, 2), 0)], 6)
  }

  lemma ToBackHome(h: Digest)
    ensures DeafRun.Reaches(DeafRun.OneNode(h), DeafRun.Start(), BackHome(h))
  {
    hide Suffix, DeafRun.Reaches, Fresh, Reconcile;
    var scene, w := DeafRun.OneNode(h), DeafRun.Start();
    var s0 := w.c.fs.status;
    DeafRun.StartIsFresh(h);
    DeafRun.ReachesItself(scene, w);
    DeafRun.ToSignal(h, w, w, true, s0, 1);
    var v1 := w.(c := DeafRun.InFlush(true, s0, 1, 2), cm := Some(DeafRun.Signalled(h, DeafRun.HERE, 2)), nextToken := 3);
    DeafRun.ToAck(h, w, v1, DeafRun.HERE, 2, false);
    var v2 := v1.(cm := Some(DeafRun.AckedMap(h, DeafRun.HERE, 2)), agents := DeafRun.Remembering(h, false),
                  log := v1.log + [Pass("node", DeafRun.Kill(h), DeafRun.SignalTo(DeafRun.HERE, 2), v1.c, 0)]);
    DeafRun.ToFlip(h, w, v2, s0, 1, 2, 4, false);
    var s1 := Status(Some(true), Some(1), 1, "east", None);
    var v3 := v2.(c := DeafRun.ClusterOf(false, true, s1), nextToken := 4);
    DeafRun.ToSwitched(h, w, v3, false, s1, 5);
    assert v3.log == BackHome(h).log;
  }

  /**
   * A failover whose agent is not told of its ack and whose cleanup is lost, then a failback: the agent's
   * next pass cuts the connections to the address that the Service has just been switched to.
   */
  lemma FailbackCutsItsOwn(h: Digest)
    ensures DeafRun.Reaches(DeafRun.OneNode(h), DeafRun.Start(), BackHome(h)) && Fresh(DeafRun.OneNode(h), DeafRun.Start())
    ensures var s := DeafRun.OneNode(h);
            && Enabled(s, BackHome(h), Fetches("node"))
            && var v := Next(s, BackHome(h), Fetches("node"));
            && Enabled(s, v, StartsPass("node", s.Kill("node")))
            && Held(s, v, "node").Some? && HitsActive(v.c, Held(s, v, "node").value)
  {
    ToBackHome(h);
    DeafRun.StartIsFresh(h);
    hide Suffix, DeafRun.Reaches, Fresh, Reconcile;
    SuffixesAreFaithful(DeafRun.Suffix1(h), DeafRun.Suffix1(h));
  }

  /** After the failover's ack the agent is restarted and cannot read it: it runs the acked signal again. */
  lemma UnreadRestartRunsAgain(h: Digest)
    ensures exists v :: DeafRun.Reaches(DeafRun.OneNode(h), DeafRun.Start(), v) && RunsAckedAgain(DeafRun.OneNode(h), v, "node")
  {
    hide Suffix, DeafRun.Reaches, Fresh, Reconcile, RunsAckedAgain;
    var scene, w := DeafRun.OneNode(h), DeafRun.Start();
    var s0 := w.c.fs.status;
    DeafRun.StartIsFresh(h);
    DeafRun.ReachesItself(scene, w);
    DeafRun.ToSignal(h, w, w, true, s0, 1);
    var v1 := w.(c := DeafRun.InFlush(true, s0, 1, 2), cm := Some(DeafRun.Signalled(h, DeafRun.HERE, 2)), nextToken := 3);
    DeafRun.ToAck(h, w, v1, DeafRun.HERE, 2, true);
    var v2 := v1.(cm := Some(DeafRun.AckedMap(h, DeafRun.HERE, 2)), agents := DeafRun.Remembering(h, true),
                  log := v1.log + [Pass("node", DeafRun.Kill(h), DeafRun.SignalTo(DeafRun.HERE, 2), v1.c, 0)]);
    DeafRun.ReachesNext(scene, w, v2, Restarts("node", false));
    var v3 := v2.(agents := DeafRun.Remembering(h, false));
    assert Next(scene, v2, Restarts("node", false)) == v3;
    RunsAgain(h, v3);
  }

  /** The agent is about to start with a signal whose ack is on record. */
  predicate RunsAckedAgain(s: Scene, w: World, n: string) {
    && n in w.agents && w.agents[n].stage.Resting?
    && s.Kill(n) in Contents(w.cm) && s.Ack(n) in Contents(w.cm)
    && var p, ack := Contents(w.cm)[s.Kill(n)], Contents(w.cm)[s.Ack(n)];
    && p.Payload? && ack.Payload? && ack.node == n && ack.number == p.number && ack.token == p.token
    && Agent.Due(n, w.agents[n].lastSeq, s.Kill(n), p)
  }

  lemma RunsAgain(h: Digest, v: World)
    requires v.cm == Some(DeafRun.AckedMap(h, DeafRun.HERE, 2)) && v.agents == DeafRun.Remembering(h, false)
    ensures RunsAckedAgain(DeafRun.OneNode(h), v, "node")
  {
    hide Suffix;
    SuffixesAreFaithful(DeafRun.Suffix1(h), DeafRun.Suffix1(h));
  }
}
