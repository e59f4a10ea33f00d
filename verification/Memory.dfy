/**
 * What agents remember while everything is interleaved: no signal is run twice, and why a signal with a
 * number that was used before goes unheard.
 */
module Memory {
  import opened Api
  import opened Controller
  import opened Progress
  import opened KillKeys
  import opened Flush
  import opened Stranded
  import Signaler
  import Agent
  import Traffic

  // ----- What an agent works on was due when it started -----

  predicate WorksOnDue(a: AgentState) {
    match a.stage
    case Killing(_, key, signal, _) => IsKill(key) && signal.Payload? && signal.number > Agent.Last(a.lastSeq, SuffixOf(key))
    case Acking(_, key, signal, _) => IsKill(key) && signal.Payload? && signal.number > Agent.Last(a.lastSeq, SuffixOf(key))
    case _ => true
  }

  lemma StepKeepsWork(s: Scene, w: World, l: WorldLabel, n: string)
    requires Enabled(s, w, l) && n in w.agents && WorksOnDue(w.agents[n])
    ensures n in Next(s, w, l).agents && WorksOnDue(Next(s, w, l).agents[n])
  {
    hide Reconcile, ControlsEnabled, LeavesOursAlone, AfterSignal, AfterCleanup, Agent.Last, Agent.Seeded;
  }

  lemma {:induction false} AgentsStay(s: Scene, ws: seq<World>, ls: seq<WorldLabel>, k: nat)
    requires IsWorldRun(s, ws, ls) && k < |ws|
    ensures ws[k].agents.Keys == ws[0].agents.Keys
  {
    if k > 0 {
      AgentsStay(s, ws, ls, k - 1);
      hide Reconcile, ControlsEnabled, LeavesOursAlone, AfterSignal, AfterCleanup;
      assert StepAt(s, ws, ls, k - 1);
    }
  }

  // ----- No signal is run twice -----

  function SuffixFor(s: Scene, n: string): string {
    Suffix(s.h, n, s.ns, s.name)
  }

  /** The agent of node `n` knows that it has done everything up to `number`, and so does its ack. */
  predicate Knows(s: Scene, w: World, n: string, number: int) {
    && n in w.agents && WorksOnDue(w.agents[n])
    && Agent.Last(w.agents[n].lastSeq, SuffixFor(s, n)) >= number
    && s.Ack(n) in Contents(w.cm)
    && var ack := Contents(w.cm)[s.Ack(n)];
    ack.Payload? && ack.node == n && ack.number >= number
  }

  lemma AckKept(s: Scene, w: World, l: WorldLabel, n: string)
    requires s.Valid() && WorldInv(s, w) && Enabled(s, w, l) && n in s.nodes
    requires l.Controls? || l.Others?
    requires s.Ack(n) in Contents(Next(s, w, l).cm)
    ensures s.Ack(n) in Contents(w.cm) && Contents(Next(s, w, l).cm)[s.Ack(n)] == Contents(w.cm)[s.Ack(n)]
  {
    hide Reconcile, Suffix, Signaler.Populate, Signaler.Doomed, WorldInv;
    if l.Controls? {
      var calls := Reconcile(s.cfg, w.c, l.env).calls;
      if calls.signal.Some? && l.signalLands && l.nodes != [] {
        forall i | 0 <= i < |l.nodes| ensures s.Ack(n) != s.Kill(l.nodes[i]) {
          SuffixesAreFaithful(SuffixFor(s, l.nodes[i]), SuffixFor(s, n));
        }
        Signaler.NumbersGrow(s.h, Contents(w.cm), l.nodes, calls.signal.value.ip, calls.signal.value.token, s.ns, s.name, s.Ack(n));
      }
    }
  }

  /** An ack written under `n`'s key is written by `n`'s agent, for the signal it works on. */
  lemma OwnAck(s: Scene, w: World, l: WorldLabel, n: string)
    requires s.Valid() && WorldInv(s, w) && Enabled(s, w, l) && n in s.nodes && l.WritesAck?
    ensures var key := w.agents[l.node].stage.key;
            && (ACK + SuffixOf(key) == s.Ack(n) <==> key == s.Kill(n))
            && ACK + SuffixOf(key) != s.Kill(n)
            && (key == s.Kill(n) ==> l.node == n && SuffixOf(key) == SuffixFor(s, n))
            && (l.node == n && SuffixOf(key) == SuffixFor(s, n) ==> key == s.Kill(n))
  {
    hide Reconcile, Suffix, ClusterOK;
    var stage := w.agents[l.node].stage;
    assert StageOK(s, w.c, w.nextToken, w.log, l.node, stage);
    AckOnlyOurs(s, stage.key, n);
    SuffixesAreFaithful(SuffixFor(s, n), SuffixFor(s, n));
  }

  lemma StepKeepsKnowledge(s: Scene, w: World, l: WorldLabel, n: string, number: int)
    requires s.Valid() && WorldInv(s, w) && Enabled(s, w, l) && n in s.nodes
    requires Knows(s, w, n, number) && s.Ack(n) in Contents(Next(s, w, l).cm) && l != Restarts(n, false)
    ensures Knows(s, Next(s, w, l), n, number)
  {
    StepKeepsWork(s, w, l, n);
    match l {
      case Controls(_, _, _, _) => hide Reconcile, Suffix, WorldInv; AckKept(s, w, l, n);
      case Others(_) => hide Reconcile, Suffix, WorldInv; AckKept(s, w, l, n);
      case WritesAck(_, _, _) =>
        OwnAck(s, w, l, n);
        hide Reconcile, Suffix, WorldInv;
      case Restarts(_, _) =>
        hide Reconcile, Suffix, WorldInv, Agent.Seeded;
        Agent.SeededIsExact(n, Contents(w.cm), SuffixFor(s, n));
        SuffixesAreFaithful(SuffixFor(s, n), SuffixFor(s, n));
      case _ => hide Reconcile, Suffix, WorldInv;
    }
  }

  /** Between `i` and `j` the agent of `n` was restarted and could not read its acks. */
  ghost predicate ForgetsBetween(ls: seq<WorldLabel>, n: string, i: nat, j: nat)
    requires j <= |ls|
  {
    exists m {:trigger ls[m]} :: i <= m < j && ls[m] == Restarts(n, false)
  }

  lemma {:induction false} KnowledgeLasts(s: Scene, ws: seq<World>, ls: seq<WorldLabel>, n: string, number: int, i: nat, k: nat)
    requires IsWorldRun(s, ws, ls) && Fresh(s, ws[0]) && n in s.nodes && i <= k < |ws|
    requires Knows(s, ws[i], n, number) && forall m :: i <= m <= k ==> s.Ack(n) in Contents(ws[m].cm)
    requires !ForgetsBetween(ls, n, i, k)
    ensures Knows(s, ws[k], n, number)
    decreases k
  {
    hide Enabled, Next, Knows, WorldInv, Fresh, Scene.Ack;
    if i < k {
      assert StepAt(s, ws, ls, k - 1);
      KnowledgeLasts(s, ws, ls, n, number, i, k - 1);
      RunKeepsWorldInv(s, ws, ls, k - 1);
      StepKeepsKnowledge(s, ws[k - 1], ls[k - 1], n, number);
    }
  }

  /** An agent that is told of its ack knows. */
  lemma ConfirmedAckIsKnown(s: Scene, w: World, l: WorldLabel, n: string)
    requires s.Valid() && WorldInv(s, w) && Enabled(s, w, l) && n in s.nodes
    requires l == WritesAck(n, true, true) && w.agents[n].stage.key == s.Kill(n)
    ensures Knows(s, Next(s, w, l), n, w.agents[n].stage.signal.number)
  {
    OwnAck(s, w, l, n);
    hide Reconcile, Suffix, WorldInv;
  }

  /**
   * In every interleaving, through restarts, stale snapshots and lost or unreported acks: once the agent was
   * told of the ack of a signal, and as long as that ack is not cleaned up, every pass it starts under the
   * same key is for a signal with a higher sequence number, unless a restarted agent could not read its acks.
   */
  lemma NeverRunsTwice(s: Scene, ws: seq<World>, ls: seq<WorldLabel>, n: string, i: nat, j: nat)
    requires IsWorldRun(s, ws, ls) && Fresh(s, ws[0]) && n in s.nodes && i < j < |ls|
    requires ls[i] == WritesAck(n, true, true) && ls[j] == StartsPass(n, s.Kill(n))
    requires n in ws[i].agents && ws[i].agents[n].stage.Acking? && ws[i].agents[n].stage.key == s.Kill(n)
    requires ws[i].agents[n].stage.signal.Payload?
    requires forall m :: i < m <= j ==> s.Ack(n) in Contents(ws[m].cm)
    ensures n in ws[j].agents && ws[j].agents[n].stage.Scanning?
    ensures var snapshot := ws[j].agents[n].stage.snapshot;
            && s.Kill(n) in snapshot && snapshot[s.Kill(n)].Payload?
            && (snapshot[s.Kill(n)].number > ws[i].agents[n].stage.signal.number || ForgetsBetween(ls, n, i + 1, j))
  {
    hide Next, Enabled, Knows, WorldInv, Fresh, Scene.Ack, Scene.Kill, Agent.Due;
    assert StepAt(s, ws, ls, i) && StepAt(s, ws, ls, j);
    StartIsDue(s, ws[j], n, s.Kill(n));
    RunKeepsWorldInv(s, ws, ls, i);
    ConfirmedAckIsKnown(s, ws[i], ls[i], n);
    if !ForgetsBetween(ls, n, i + 1, j) {
      KnowledgeLasts(s, ws, ls, n, ws[i].agents[n].stage.signal.number, i + 1, j);
      KnownIsNotDue(s, ws[j], n, ws[i].agents[n].stage.signal.number);
    }
  }

  lemma StartIsDue(s: Scene, w: World, n: string, key: string)
    requires Enabled(s, w, StartsPass(n, key))
    ensures n in w.agents && w.agents[n].stage.Scanning? && key in w.agents[n].stage.snapshot
    ensures w.agents[n].stage.snapshot[key].Payload?
    ensures Agent.Due(n, w.agents[n].lastSeq, key, w.agents[n].stage.snapshot[key])
  {
  }

  lemma KnownIsNotDue(s: Scene, w: World, n: string, number: int)
    requires Knows(s, w, n, number)
    ensures n in w.agents
    ensures forall p: Payload :: Agent.Due(n, w.agents[n].lastSeq, s.Kill(n), p) ==> p.Payload? && p.number > number
  {
    SuffixesAreFaithful(SuffixFor(s, n), SuffixFor(s, n));
  }

  /**
   * A signal that the agent knows to be done, with its ack on record, becomes due again with a restart
   * exactly if the new process cannot read that ack.
   */
  lemma RestartRepeats(s: Scene, w: World, n: string, read: bool)
    requires s.Valid() && WorldInv(s, w) && n in s.nodes
    requires s.Kill(n) in Contents(w.cm) && Contents(w.cm)[s.Kill(n)].Payload?
    requires Contents(w.cm)[s.Kill(n)].number >= 1 && Contents(w.cm)[s.Kill(n)].ip.IsIP()
    requires Knows(s, w, n, Contents(w.cm)[s.Kill(n)].number)
    ensures var v := Next(s, w, Restarts(n, read));
            Agent.Due(n, v.agents[n].lastSeq, s.Kill(n), Contents(v.cm)[s.Kill(n)]) <==> !read
  {
    hide Suffix, Agent.Seeded, StageOK, LogOK, AcksOK, WorksOnDue, ClusterOK;
    SuffixesAreFaithful(SuffixFor(s, n), SuffixFor(s, n));
    Agent.SeededIsExact(n, Contents(w.cm), SuffixFor(s, n));
    assert SignalOK(s, w.c, w.nextToken, n, Contents(w.cm)[s.Kill(n)]);
  }

  // ----- Only agents let a flush go -----

  lemma {:induction false} PassesAreAgents(s: Scene, ws: seq<World>, ls: seq<WorldLabel>, k: nat)
    requires IsWorldRun(s, ws, ls) && Fresh(s, ws[0]) && k < |ws|
    ensures forall i :: 0 <= i < |ws[k].log| ==> ws[k].log[i].node in ws[0].agents
  {
    if k > 0 {
      PassesAreAgents(s, ws, ls, k - 1);
      AgentsStay(s, ws, ls, k - 1);
      hide Reconcile, ControlsEnabled, LeavesOursAlone, AfterSignal, AfterCleanup, Agent.Due, Agent.Seeded;
      assert StepAt(s, ws, ls, k - 1);
    }
  }

  /** An expected node without an agent holds the flush until it is forced. */
  lemma UnservedNodeHolds(s: Scene, ws: seq<World>, ls: seq<WorldLabel>, k: nat)
    requires IsWorldRun(s, ws, ls) && Fresh(s, ws[0]) && k < |ls|
    requires LeavesFlush(s, ws[k].c, ls[k])
    requires KillApplies(s.cfg, ws[k].c.fs.spec, ws[k].c.fs.status.transition.value)
    ensures var kill := ws[k].c.fs.status.transition.value.connectionKill;
            kill.Some? ==> forall i :: 0 <= i < |kill.value.expectedNodes| ==> kill.value.expectedNodes[i] in ws[0].agents
  {
    hide Enabled, Next, Fresh, FlushUnderWay;
    FlushSafety(s, ws, ls, k);
    PassesAreAgents(s, ws, ls, k);
    var t := ws[k].c.fs.status.transition.value;
    if t.connectionKill.Some? {
      var nodes := t.connectionKill.value.expectedNodes;
      forall i | 0 <= i < |nodes| ensures nodes[i] in ws[0].agents {
        assert Flushed(s, ws[k].log, nodes[i], t, Traffic.At(ws[k].c));
      }
    }
  }

  // ----- A signal that is not heard -----

  /** Wherever it is found, the signal with this token has a number the agent has already done. */
  predicate OldNumber(s: Scene, m: ConfigMap, n: string, token: Token, last: int) {
    s.Kill(n) in m && Carries(m[s.Kill(n)], token) ==> m[s.Kill(n)].number <= last
  }

  predicate StageIsDeaf(s: Scene, a: AgentState, n: string, token: Token) {
    var last := Agent.Last(a.lastSeq, SuffixFor(s, n));
    match a.stage
    case Resting => true
    case Scanning(snapshot) => OldNumber(s, snapshot, n, token, last)
    case Killing(snapshot, key, signal, _) => OldNumber(s, snapshot, n, token, last) && (key == s.Kill(n) ==> !Carries(signal, token))
    case Acking(snapshot, key, signal, _) => OldNumber(s, snapshot, n, token, last) && (key == s.Kill(n) ==> !Carries(signal, token))
  }

  /**
   * The transition waits for the ack of node `n`, whose agent remembers a number at or above that of its
   * current signal and has not acked it.
   */
  predicate Deaf(s: Scene, w: World, n: string, token: Token) {
    && Awaits(s, w.c, token) && n in w.c.fs.status.transition.value.connectionKill.value.expectedNodes
    && n in w.agents && WorksOnDue(w.agents[n]) && StageIsDeaf(s, w.agents[n], n, token)
    && OldNumber(s, Contents(w.cm), n, token, Agent.Last(w.agents[n].lastSeq, SuffixFor(s, n)))
    && (s.Ack(n) in Contents(w.cm) ==> !Carries(Contents(w.cm)[s.Ack(n)], token))
  }

  /** Nobody forces the transition on or restarts that agent. */
  predicate LeftAlone(l: WorldLabel, n: string) {
    Unforced(l) && !(l.Restarts? && l.node == n)
  }

  /** The missing ack keeps the transition in its flush. */
  lemma StillWaits(s: Scene, w: World, l: WorldLabel, n: string, token: Token)
    requires s.Valid() && WorldInv(s, w) && Enabled(s, w, l) && l.Controls? && n in s.nodes && Deaf(s, w, n, token)
    ensures var o := Reconcile(s.cfg, w.c, l.env);
            && Awaits(s, o.cluster, token)
            && n in o.cluster.fs.status.transition.value.connectionKill.value.expectedNodes
            && o.calls.signal.None? && !o.calls.cleanup
  {
    hide Reconcile, Suffix, StageOK, LogOK, AcksOK, SignalsOK, OldNumber, StageIsDeaf, WorksOnDue;
    var calls := Reconcile(s.cfg, w.c, l.env).calls;
    if calls.acks.Some? {
      ReconcileKillFacts(s.cfg, w.c, l.env);
      if l.env.acks.Acks? {
        var nodes := calls.acks.value.nodes;
        var i :| 0 <= i < |nodes| && nodes[i] == n;
        assert !Signaler.AckedClean(s.h, Contents(w.cm), nodes[i], token, s.ns, s.name);
      }
    }
    WaitsOn(s, w.c, l.env, token);
  }

  lemma StepKeepsDeaf(s: Scene, w: World, l: WorldLabel, n: string, token: Token)
    requires s.Valid() && WorldInv(s, w) && Enabled(s, w, l) && n in s.nodes && LeftAlone(l, n) && Deaf(s, w, n, token)
    ensures Deaf(s, Next(s, w, l), n, token)
  {
    StepKeepsWork(s, w, l, n);
    match l {
      case Controls(_, _, _, _) =>
        StillWaits(s, w, l, n, token);
        hide Reconcile, Suffix, WorldInv, StageIsDeaf, OldNumber, WorksOnDue, Awaits;
      case WritesAck(_, _, _) =>
        OwnAck(s, w, l, n);
        hide Reconcile, Suffix, WorldInv, Awaits;
      case StartsPass(_, _) =>
        SuffixesAreFaithful(SuffixFor(s, n), SuffixFor(s, n));
        hide Reconcile, Suffix, WorldInv, Awaits;
      case _ => hide Reconcile, Suffix, WorldInv;
    }
  }

  /**
   * No run leads out of such a flush unless somebody forces it or restarts that agent: sequence numbers
   * start over after every cleanup, and the agent ignores what it takes for old signals.
   */
  lemma {:induction false} DeafForever(s: Scene, ws: seq<World>, ls: seq<WorldLabel>, n: string, token: Token, k: nat)
    requires IsWorldRun(s, ws, ls) && WorldInv(s, ws[0]) && n in s.nodes && Deaf(s, ws[0], n, token) && k < |ws|
    requires forall i :: 0 <= i < |ls| ==> LeftAlone(ls[i], n)
    ensures WorldInv(s, ws[k]) && Deaf(s, ws[k], n, token)
    ensures ws[k].c.fs.status.transition.Some? && ws[k].c.fs.status.transition.value.phase == FlushingConnections
  {
    if k > 0 {
      assert StepAt(s, ws, ls, k - 1);
      DeafForever(s, ws, ls, n, token, k - 1);
      hide Deaf, Next, Enabled, WorldInv;
      StepKeepsWorldInv(s, ws[k - 1], ls[k - 1]);
      StepKeepsDeaf(s, ws[k - 1], ls[k - 1], n, token);
    }
    hide Reconcile, WorldInv, StageIsDeaf, WorksOnDue, OldNumber;
  }

  /** A signal that is out and persisted is awaited. */
  lemma SignalIsAwaited(s: Scene, c: Cluster, e: Env)
    requires Inv(c) && Reconcile(s.cfg, c, e).calls.signal.Some? && e.statusWrite
    requires e.signal.Signaled? && e.signal.nodes != [] && forall i :: 0 <= i < |e.signal.nodes| ==> e.signal.nodes[i] in s.nodes
    ensures var d := Reconcile(s.cfg, c, e).cluster;
            && Awaits(s, d, e.token)
            && d.fs.status.transition.value.connectionKill.value.expectedNodes == e.signal.nodes
            && !Reconcile(s.cfg, c, e).calls.cleanup
  {
    ReconcileKillFacts(s.cfg, c, e);
    hide ExecuteActionPhase, ReconcileIdle, UpdateResources, ForceAdvance, AfterFlush;
  }

  lemma AllApart(s: Scene, nodes: seq<string>)
    requires s.Valid() && forall i :: 0 <= i < |nodes| ==> nodes[i] in s.nodes
    ensures Signaler.NodesApart(s.h, nodes, s.ns, s.name)
  {
    hide Suffix;
  }

  /** A signal just given to a resting agent goes unheard exactly if the agent remembers its number. */
  lemma SignalGoesUnheard(s: Scene, w: World, l: WorldLabel, n: string)
    requires s.Valid() && WorldInv(s, w) && Enabled(s, w, l) && l.Controls? && l.env.statusWrite
    requires Reconcile(s.cfg, w.c, l.env).calls.signal.Some? && l.env.signal == Signaled(l.nodes) && n in l.nodes
    requires n in w.agents && w.agents[n].stage.Resting?
    ensures var v := Next(s, w, l);
            && s.Kill(n) in Contents(v.cm) && Carries(Contents(v.cm)[s.Kill(n)], w.nextToken)
            && (Deaf(s, v, n, w.nextToken) <==>
                  Agent.Last(w.agents[n].lastSeq, SuffixFor(s, n)) >= Contents(v.cm)[s.Kill(n)].number)
  {
    SignalIsAwaited(s, w.c, l.env);
    ReconcileKillFacts(s.cfg, w.c, l.env);
    hide Reconcile, Suffix, Awaits, StageOK, LogOK, SignalsOK, ClusterOK, Signaler.Populate, Agent.Last, Signaler.NodesApart;
    assert Signaler.NodesApart(s.h, l.nodes, s.ns, s.name) by { AllApart(s, l.nodes); }
    var call := Reconcile(s.cfg, w.c, l.env).calls.signal.value;
    var before, after := Contents(w.cm), Signaler.Populate(s.h, Contents(w.cm), l.nodes, call.ip, call.token, s.ns, s.name);
    var i :| 0 <= i < |l.nodes| && l.nodes[i] == n;
    Signaler.NodeSignalled(s.h, before, l.nodes, call.ip, call.token, s.ns, s.name, i);
    forall j | 0 <= j < |l.nodes| ensures s.Ack(n) != s.Kill(l.nodes[j]) {
      SuffixesAreFaithful(SuffixFor(s, l.nodes[j]), SuffixFor(s, n));
    }
    Signaler.NumbersGrow(s.h, before, l.nodes, call.ip, call.token, s.ns, s.name, s.Ack(n));
    assert Contents(Next(s, w, l).cm) == after;
  }

  /** A restart is the cure: an agent without an ack on record, or unable to read it, hears the signal. */
  lemma RestartHears(s: Scene, w: World, n: string, token: Token, read: bool)
    requires s.Valid() && WorldInv(s, w) && n in s.nodes && Deaf(s, w, n, token)
    requires read ==> s.Ack(n) !in Contents(w.cm)
    requires s.Kill(n) in Contents(w.cm) && Carries(Contents(w.cm)[s.Kill(n)], token) && Contents(w.cm)[s.Kill(n)].number >= 1
    ensures var v := Next(s, w, Restarts(n, read));
            Agent.Due(n, v.agents[n].lastSeq, s.Kill(n), Contents(v.cm)[s.Kill(n)])
  {
    hide Suffix, Agent.Seeded, StageOK, LogOK, AcksOK, StageIsDeaf, WorksOnDue;
    SuffixesAreFaithful(SuffixFor(s, n), SuffixFor(s, n));
    Agent.SeededIsExact(n, Contents(w.cm), SuffixFor(s, n));
    assert SignalOK(s, w.c, w.nextToken, n, Contents(w.cm)[s.Kill(n)]);
  }
}
