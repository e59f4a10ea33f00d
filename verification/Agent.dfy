/** The per-node agent of the kill protocol (internal/connkill/agent.go). */
module Agent {
  import opened Api
  import opened KillKeys
  import Signaler

  /** The last processed sequence number per key suffix. */
  type Progress = map<string, int>

  function Last(progress: Progress, suffix: string): int {
    if suffix in progress then progress[suffix] else 0
  }

  /** The outcome of one kill pass; a failed pass counts as one more error. */
  datatype Report = Report(killed: int, errors: int)

  // ----- Which signals an agent handles -----

  /** New signals name their node; old ones are matched by the start of their key. */
  predicate Addressed(node: string, key: string, p: Payload) {
    IsKill(key) && p.Payload? && if p.node != "" then p.node == node else KILL + node + "_" <= key
  }

  predicate Due(node: string, progress: Progress, key: string, p: Payload) {
    Addressed(node, key, p) && p.number > Last(progress, SuffixOf(key)) && p.ip.IsIP()
  }

  function AckOf(node: string, p: Payload, r: Report): Payload
    requires p.Payload?
  {
    Payload(Hostname(""), p.number, p.token, node, p.fsNamespace, p.fsName, r.killed, r.errors)
  }

  /**
   * What the environment does to one pass: the report for each key, which acks get written, and for which
   * of these the agent is told. An update that landed may still be reported as failed.
   */
  datatype Fate = Fate(report: string -> Report, landed: string -> bool, reported: string -> bool)

  /** The signal under `key` was looked at, was due, and its ack was written. */
  predicate Acked(node: string, progress: Progress, cm: ConfigMap, seen: set<string>, key: string, fate: Fate) {
    key in seen && key in cm && Due(node, progress, key, cm[key]) && fate.landed(key)
  }

  /** And the agent knows. */
  predicate Confirmed(node: string, progress: Progress, cm: ConfigMap, seen: set<string>, key: string, fate: Fate) {
    Acked(node, progress, cm, seen, key, fate) && fate.reported(key)
  }

  /** The ConfigMap once the keys in `seen` were looked at: an ack under the suffix of every signal handled. */
  function Acknowledged(node: string, progress: Progress, cm: ConfigMap, seen: set<string>, fate: Fate): ConfigMap {
    map k | k in cm.Keys + (set q | q in cm && Acked(node, progress, cm, seen, q, fate) :: ACK + SuffixOf(q)) ::
      if IsAck(k) && Acked(node, progress, cm, seen, KILL + SuffixOf(k), fate)
      then AckOf(node, cm[KILL + SuffixOf(k)], fate.report(KILL + SuffixOf(k)))
      else if k in cm then cm[k] else Malformed
  }

  /** The agent's memory once the keys in `seen` were looked at. */
  function Advanced(node: string, before: Progress, cm: ConfigMap, seen: set<string>, fate: Fate): Progress {
    map s | s in before.Keys + (set q | q in cm && Confirmed(node, before, cm, seen, q, fate) :: SuffixOf(q)) ::
      if Confirmed(node, before, cm, seen, KILL + s, fate) then cm[KILL + s].number else Last(before, s)
  }

  lemma SeenNothing(node: string, progress: Progress, cm: ConfigMap, fate: Fate)
    ensures Acknowledged(node, progress, cm, {}, fate) == cm
    ensures Advanced(node, progress, cm, {}, fate) == progress
  {
  }

  /** A kill key and the ack key under the same suffix determine each other. */
  lemma Partners(kill: string, ack: string)
    ensures IsKill(kill) && ack == ACK + SuffixOf(kill) ==> IsAck(ack) && kill == KILL + SuffixOf(ack)
    ensures IsAck(ack) && kill == KILL + SuffixOf(ack) ==> IsKill(kill) && ack == ACK + SuffixOf(kill)
  {
    SuffixesTellApart();
  }

  lemma AcknowledgedAt(node: string, progress: Progress, cm: ConfigMap, seen: set<string>, fate: Fate, k: string)
    ensures k in Acknowledged(node, progress, cm, seen, fate) <==>
              k in cm || (IsAck(k) && Acked(node, progress, cm, seen, KILL + SuffixOf(k), fate))
    ensures k in Acknowledged(node, progress, cm, seen, fate) ==>
              Acknowledged(node, progress, cm, seen, fate)[k] ==
              if IsAck(k) && Acked(node, progress, cm, seen, KILL + SuffixOf(k), fate)
              then AckOf(node, cm[KILL + SuffixOf(k)], fate.report(KILL + SuffixOf(k)))
              else cm[k]
  {
    if k in Acknowledged(node, progress, cm, seen, fate) && k !in cm {
      var q :| q in cm && Acked(node, progress, cm, seen, q, fate) && k == ACK + SuffixOf(q);
      Partners(q, k);
    }
    if IsAck(k) {
      Partners(KILL + SuffixOf(k), k);
    }
  }

  lemma AdvancedAt(node: string, before: Progress, cm: ConfigMap, seen: set<string>, fate: Fate, s: string)
    ensures s in Advanced(node, before, cm, seen, fate) <==> s in before || Confirmed(node, before, cm, seen, KILL + s, fate)
    ensures s in Advanced(node, before, cm, seen, fate) ==>
              Advanced(node, before, cm, seen, fate)[s] ==
              if Confirmed(node, before, cm, seen, KILL + s, fate) then cm[KILL + s].number else Last(before, s)
  {
    SuffixesAreFaithful(s, s);
    if s in Advanced(node, before, cm, seen, fate) && s !in before {
      var q :| q in cm && Confirmed(node, before, cm, seen, q, fate) && s == SuffixOf(q);
      Rejoined(q);
    }
  }

  lemma SeenOneMore(node: string, progress: Progress, cm: ConfigMap, seen: set<string>, key: string, fate: Fate)
    requires key in cm && key !in seen
    ensures Acknowledged(node, progress, cm, seen + {key}, fate) ==
            if Acked(node, progress, cm, seen + {key}, key, fate)
            then Acknowledged(node, progress, cm, seen, fate)[ACK + SuffixOf(key) := AckOf(node, cm[key], fate.report(key))]
            else Acknowledged(node, progress, cm, seen, fate)
    ensures Advanced(node, progress, cm, seen + {key}, fate) ==
            if Confirmed(node, progress, cm, seen + {key}, key, fate)
            then Advanced(node, progress, cm, seen, fate)[SuffixOf(key) := cm[key].number]
            else Advanced(node, progress, cm, seen, fate)
  {
    hide Due, AckOf, IsKill, IsAck;
    OneMoreAck(node, progress, cm, seen, key, fate);
    OneMoreAdvance(node, progress, cm, seen, key, fate);
  }

  lemma OneMoreAck(node: string, progress: Progress, cm: ConfigMap, seen: set<string>, key: string, fate: Fate)
    requires key in cm && key !in seen
    ensures Acknowledged(node, progress, cm, seen + {key}, fate) ==
            if Acked(node, progress, cm, seen + {key}, key, fate)
            then Acknowledged(node, progress, cm, seen, fate)[ACK + SuffixOf(key) := AckOf(node, cm[key], fate.report(key))]
            else Acknowledged(node, progress, cm, seen, fate)
  {
    hide Acknowledged, Due, SuffixOf, IsKill, IsAck, AckOf;
    var acked := Acked(node, progress, cm, seen + {key}, key, fate);
    AckedAreKills(node, progress, cm, seen + {key}, key, fate);
    var before := Acknowledged(node, progress, cm, seen, fate);
    var after := Acknowledged(node, progress, cm, seen + {key}, fate);
    var expected := if acked then before[ACK + SuffixOf(key) := AckOf(node, cm[key], fate.report(key))] else before;
    forall k
      ensures k in after <==> k in expected
      ensures k in after ==> after[k] == expected[k]
    {
      AcknowledgedAt(node, progress, cm, seen + {key}, fate, k);
      AcknowledgedAt(node, progress, cm, seen, fate, k);
      Partners(key, k);
      if IsAck(k) {
        Partners(KILL + SuffixOf(k), k);
      }
    }
    assert after == expected;
  }

  lemma AckedAreKills(node: string, progress: Progress, cm: ConfigMap, seen: set<string>, key: string, fate: Fate)
    ensures Acked(node, progress, cm, seen, key, fate) ==> IsKill(key) && key in cm && cm[key].Payload?
  {
  }

  lemma OneMoreAdvance(node: string, progress: Progress, cm: ConfigMap, seen: set<string>, key: string, fate: Fate)
    requires key in cm && key !in seen
    ensures Advanced(node, progress, cm, seen + {key}, fate) ==
            if Confirmed(node, progress, cm, seen + {key}, key, fate)
            then Advanced(node, progress, cm, seen, fate)[SuffixOf(key) := cm[key].number]
            else Advanced(node, progress, cm, seen, fate)
  {
    hide Advanced, Due, SuffixOf, IsKill;
    var confirmed := Confirmed(node, progress, cm, seen + {key}, key, fate);
    AckedAreKills(node, progress, cm, seen + {key}, key, fate);
    var before := Advanced(node, progress, cm, seen, fate);
    var after := Advanced(node, progress, cm, seen + {key}, fate);
    var expected := if confirmed then before[SuffixOf(key) := cm[key].number] else before;
    Rejoined(key);
    forall s
      ensures s in after <==> s in expected
      ensures s in after ==> after[s] == expected[s]
    {
      AdvancedAt(node, progress, cm, seen + {key}, fate, s);
      AdvancedAt(node, progress, cm, seen, fate, s);
      SuffixesAreFaithful(s, s);
    }
    assert after == expected;
  }

  lemma SuffixesTellApart()
    ensures forall k, q :: IsKill(k) && IsKill(q) && SuffixOf(k) == SuffixOf(q) ==> k == q
    ensures forall s :: SuffixOf(KILL + s) == s
    ensures forall s :: IsAck(ACK + s) && SuffixOf(ACK + s) == s
    ensures forall k :: IsAck(k) ==> ACK + SuffixOf(k) == k
    ensures forall k :: IsKill(k) ==> KILL + SuffixOf(k) == k
  {
    forall k ensures (IsAck(k) ==> ACK + SuffixOf(k) == k) && (IsKill(k) ==> KILL + SuffixOf(k) == k) {
      Rejoined(k);
    }
    forall s ensures IsKill(KILL + s) && SuffixOf(KILL + s) == s && IsAck(ACK + s) && SuffixOf(ACK + s) == s {
      SuffixesAreFaithful(s, s);
    }
  }

  lemma LastUntilSeen(node: string, progress: Progress, cm: ConfigMap, seen: set<string>, key: string, fate: Fate)
    requires key !in seen
    ensures IsKill(key) ==> Last(Advanced(node, progress, cm, seen, fate), SuffixOf(key)) == Last(progress, SuffixOf(key))
  {
    SuffixesTellApart();
  }

  // ----- What a pass acts on and what it writes -----

  /** A signal that names no node is for the node that begins its key. */
  lemma LegacyNodeIsExact(h: Digest, node: string, p: Payload, node': string, ns: string, name: string)
    requires Plain(node) && Plain(node') && Fits(node', ns, name) && p.Payload? && p.node == ""
    ensures Addressed(node, KillKey(h, node', ns, name), p) <==> node == node'
    ensures Seeds(node, AckKey(h, node', ns, name), p) <==> node == node'
  {
    SuffixesAreFaithful(Suffix(h, node', ns, name), Suffix(h, node', ns, name));
    StartTellsNode(h, KILL, node', ns, name, node);
    StartTellsNode(h, "", node', ns, name, node);
    assert "" + node + "_" == node + "_" && "" + Suffix(h, node', ns, name) == Suffix(h, node', ns, name);
    hide Suffix;
  }

  /**
   * A pass writes nothing but acks, and an ack says what was done: the signal's number, token and service,
   * this node, and the report. It answers a readable signal for this node, at an IP address, whose number is
   * new to the agent.
   */
  lemma PassWritesAcks(node: string, progress: Progress, cm: ConfigMap, seen: set<string>, fate: Fate, k: string)
    ensures var after := Acknowledged(node, progress, cm, seen, fate);
            k in after && (k !in cm || after[k] != cm[k]) ==>
              && IsAck(k) && KILL + SuffixOf(k) in cm && cm[KILL + SuffixOf(k)].Payload?
              && var p := cm[KILL + SuffixOf(k)];
              && (p.node == node || p.node == "") && (p.ip.IPv4? || p.ip.IPv6?)
              && p.number > (if SuffixOf(k) in progress then progress[SuffixOf(k)] else 0)
              && after[k].Payload? && after[k].number == p.number && after[k].token == p.token && after[k].node == node
              && after[k].fsNamespace == p.fsNamespace && after[k].fsName == p.fsName
              && after[k].killed == fate.report(KILL + SuffixOf(k)).killed
              && after[k].errors == fate.report(KILL + SuffixOf(k)).errors
    ensures k in cm ==> k in Acknowledged(node, progress, cm, seen, fate)
  {
    AcknowledgedAt(node, progress, cm, seen, fate, k);
    if IsAck(k) {
      SuffixesAreFaithful(SuffixOf(k), SuffixOf(k));
    }
    hide Acknowledged;
  }

  /** And it answers every such signal whose ack gets through. */
  lemma PassAnswersAll(node: string, progress: Progress, cm: ConfigMap, fate: Fate, s: string)
    requires KILL + s in cm && cm[KILL + s].Payload? && cm[KILL + s].node == node != "" && cm[KILL + s].ip.IsIP()
    requires cm[KILL + s].number > Last(progress, s) && fate.landed(KILL + s)
    ensures var after := Acknowledged(node, progress, cm, cm.Keys, fate);
            ACK + s in after && after[ACK + s].Payload? && after[ACK + s].token == cm[KILL + s].token
  {
    SuffixesAreFaithful(s, s);
    AcknowledgedAt(node, progress, cm, cm.Keys, fate, ACK + s);
    hide Acknowledged;
  }

  // ----- Restart -----

  predicate Seeds(node: string, key: string, p: Payload) {
    IsAck(key) && p.Payload? && if p.node != "" then p.node == node else node + "_" <= SuffixOf(key)
  }

  /** The memory of a freshly started agent: the acks it finds. */
  function Seeded(node: string, cm: ConfigMap): Progress {
    map s | s in (set k | k in cm && Seeds(node, k, cm[k]) :: SuffixOf(k)) ::
      if ACK + s in cm && cm[ACK + s].Payload? then cm[ACK + s].number else 0
  }

  lemma SeededIsExact(node: string, cm: ConfigMap, s: string)
    ensures Last(Seeded(node, cm), s) ==
            if ACK + s in cm && Seeds(node, ACK + s, cm[ACK + s]) then cm[ACK + s].number else 0
  {
    SuffixesAreFaithful(s, s);
    if s in Seeded(node, cm) {
      var k :| k in cm && Seeds(node, k, cm[k]) && SuffixOf(k) == s;
      Rejoined(k);
    }
  }

  /** The memory of a new process: that of the acks, or none if the ConfigMap could not be read. */
  function Reborn(node: string, cm: ConfigMap, read: bool): Progress {
    if read then Seeded(node, cm) else map[]
  }

  /** The sequence number that this node's ack shows. */
  function AckedNumber(node: string, cm: ConfigMap, s: string): int {
    if ACK + s in cm && Seeds(node, ACK + s, cm[ACK + s]) then cm[ACK + s].number else 0
  }

  /** What the agent remembers, its acks show; they may show more, when it was not told. */
  ghost predicate Covered(node: string, progress: Progress, cm: ConfigMap) {
    forall s :: 0 <= Last(progress, s) <= AckedNumber(node, cm, s)
  }

  /** A start, with acks such as agents write them. */
  lemma StartIsCovered(node: string, cm: ConfigMap, read: bool)
    requires forall s :: AckedNumber(node, cm, s) >= 0
    ensures Covered(node, Reborn(node, cm, read), cm)
  {
    hide Seeded, Seeds;
    forall s ensures 0 <= Last(Reborn(node, cm, read), s) <= AckedNumber(node, cm, s) {
      SeededIsExact(node, cm, s);
      assert AckedNumber(node, cm, s) >= 0;
    }
  }

  /** A pass keeps that, whichever acks get written and whatever the agent is told. */
  lemma PassKeepsCover(node: string, progress: Progress, cm: ConfigMap, seen: set<string>, fate: Fate)
    requires node != "" && Covered(node, progress, cm)
    ensures Covered(node, Advanced(node, progress, cm, seen, fate), Acknowledged(node, progress, cm, seen, fate))
  {
    forall s
      ensures 0 <= Last(Advanced(node, progress, cm, seen, fate), s) <=
              AckedNumber(node, Acknowledged(node, progress, cm, seen, fate), s)
    {
      PassAt(node, progress, cm, seen, fate, s);
    }
  }

  /** What a pass does to the memory and the ack of one key. */
  lemma PassAt(node: string, progress: Progress, cm: ConfigMap, seen: set<string>, fate: Fate, s: string)
    requires node != ""
    ensures AckedNumber(node, Acknowledged(node, progress, cm, seen, fate), s) ==
            if Acked(node, progress, cm, seen, KILL + s, fate) then cm[KILL + s].number else AckedNumber(node, cm, s)
    ensures Last(Advanced(node, progress, cm, seen, fate), s) ==
            if Confirmed(node, progress, cm, seen, KILL + s, fate) then cm[KILL + s].number else Last(progress, s)
    ensures Acked(node, progress, cm, seen, KILL + s, fate) ==> cm[KILL + s].number > Last(progress, s)
  {
    hide Acknowledged, Advanced;
    SuffixesAreFaithful(s, s);
    AcknowledgedAt(node, progress, cm, seen, fate, ACK + s);
    AdvancedAt(node, progress, cm, seen, fate, s);
    AckedAreKills(node, progress, cm, seen, KILL + s, fate);
  }

  /** Signalling leaves all acks alone. */
  lemma SignallingKeepsAcks(
    h: Digest, node: string, cm: ConfigMap, nodes: seq<string>, ip: Address, token: Token, ns: string, name: string, s: string)
    ensures AckedNumber(node, Signaler.Populate(h, cm, nodes, ip, token, ns, name), s) == AckedNumber(node, cm, s)
  {
    hide Signaler.Populate, Suffix, Seeds;
    forall i | 0 <= i < |nodes| ensures ACK + s != KillKey(h, nodes[i], ns, name) {
      SuffixesAreFaithful(Suffix(h, nodes[i], ns, name), s);
    }
    Signaler.NumbersGrow(h, cm, nodes, ip, token, ns, name, ACK + s);
  }

  // ----- Whole lives of an agent, between cleanups -----

  /** What an agent remembers and what the ConfigMap holds. */
  datatype Local = Local(progress: Progress, cm: ConfigMap)

  datatype AgentStep =
    | Passes(fate: Fate)
    | Signals(nodes: seq<string>, ip: Address, token: Token, ns: string, name: string)
    | Restarts(read: bool)
    | OthersWrite(cm: ConfigMap)

  /** Others leave this node's acks alone and never take a sequence number back. */
  ghost predicate OthersBehave(node: string, before: ConfigMap, after: ConfigMap) {
    && (forall s :: AckedNumber(node, before, s) == AckedNumber(node, after, s))
    && (forall k :: k in before && before[k].Payload? && IsKill(k) ==>
          k in after && after[k].Payload? && after[k].number >= before[k].number)
  }

  function Lived(h: Digest, node: string, x: Local, l: AgentStep): Local {
    match l
    case Passes(fate) =>
      Local(Advanced(node, x.progress, x.cm, x.cm.Keys, fate), Acknowledged(node, x.progress, x.cm, x.cm.Keys, fate))
    case Signals(nodes, ip, token, ns, name) => x.(cm := Signaler.Populate(h, x.cm, nodes, ip, token, ns, name))
    case Restarts(read) => x.(progress := Reborn(node, x.cm, read))
    case OthersWrite(cm) => x.(cm := cm)
  }

  ghost predicate IsLife(h: Digest, node: string, xs: seq<Local>, ls: seq<AgentStep>) {
    && node != "" && |xs| == |ls| + 1
    && Covered(node, xs[0].progress, xs[0].cm)
    && forall i :: 0 <= i < |ls| ==> LifeStep(h, node, xs, ls, i)
  }

  ghost predicate LifeStep(h: Digest, node: string, xs: seq<Local>, ls: seq<AgentStep>, i: nat)
    requires i < |ls| < |xs|
  {
    && xs[i + 1] == Lived(h, node, xs[i], ls[i])
    && (ls[i].OthersWrite? ==> OthersBehave(node, xs[i].cm, ls[i].cm))
  }

  lemma StepKeepsCover(h: Digest, node: string, x: Local, l: AgentStep, s: string)
    requires node != "" && Covered(node, x.progress, x.cm)
    requires l.OthersWrite? ==> OthersBehave(node, x.cm, l.cm)
    ensures var y := Lived(h, node, x, l);
            Covered(node, y.progress, y.cm) && (l != Restarts(false) ==> Last(y.progress, s) >= Last(x.progress, s))
  {
    hide Acknowledged, Advanced, Seeded, Due, AckedNumber, Signaler.Populate;
    match l {
      case Passes(fate) =>
        PassKeepsCover(node, x.progress, x.cm, x.cm.Keys, fate);
        PassAt(node, x.progress, x.cm, x.cm.Keys, fate, s);
      case Signals(nodes, ip, token, ns, name) =>
        forall q ensures AckedNumber(node, Signaler.Populate(h, x.cm, nodes, ip, token, ns, name), q) == AckedNumber(node, x.cm, q) {
          SignallingKeepsAcks(h, node, x.cm, nodes, ip, token, ns, name, q);
        }
      case Restarts(read) =>
        assert forall q :: 0 <= Last(x.progress, q) <= AckedNumber(node, x.cm, q);
        StartIsCovered(node, x.cm, read);
        SeedsTheAcks(node, x.cm, s);
      case OthersWrite(cm) =>
    }
  }

  lemma SeedsTheAcks(node: string, cm: ConfigMap, s: string)
    ensures Last(Seeded(node, cm), s) == AckedNumber(node, cm, s)
  {
    SeededIsExact(node, cm, s);
  }

  predicate KeepsNumber(before: ConfigMap, after: ConfigMap, key: string) {
    IsKill(key) && key in before && before[key].Payload? ==>
      key in after && after[key].Payload? && after[key].number >= before[key].number
  }

  lemma StepKeepsNumber(h: Digest, node: string, x: Local, l: AgentStep, key: string)
    requires l.OthersWrite? ==> OthersBehave(node, x.cm, l.cm)
    ensures KeepsNumber(x.cm, Lived(h, node, x, l).cm, key)
  {
    hide Acknowledged, Advanced, Seeded, Due, Signaler.Populate;
    Rejoined(key);
    match l {
      case Passes(fate) => AcknowledgedAt(node, x.progress, x.cm, x.cm.Keys, fate, key);
      case Signals(nodes, ip, token, ns, name) => Signaler.NumbersGrow(h, x.cm, nodes, ip, token, ns, name, key);
      case _ =>
    }
  }

  /** Between `i` and `j` the agent was restarted and could not read the acks. */
  ghost predicate ForgetsBetween(ls: seq<AgentStep>, i: nat, j: nat)
    requires j <= |ls|
  {
    exists m {:trigger ls[m]} :: i <= m < j && ls[m] == Restarts(false)
  }

  /**
   * The acks cover the memory throughout; a signal's sequence number never goes back, and neither does the
   * memory, unless a restarted agent could not read its acks.
   */
  lemma {:induction false} LifeMovesForward(
    h: Digest, node: string, xs: seq<Local>, ls: seq<AgentStep>, i: nat, j: nat, key: string)
    requires IsLife(h, node, xs, ls) && i <= j < |xs| && (IsKill(key) || IsAck(key))
    ensures Covered(node, xs[j].progress, xs[j].cm)
    ensures !ForgetsBetween(ls, i, j) ==> Last(xs[j].progress, SuffixOf(key)) >= Last(xs[i].progress, SuffixOf(key))
    ensures KeepsNumber(xs[i].cm, xs[j].cm, key)
    decreases j
  {
    hide Lived, Covered, OthersBehave;
    if j > 0 {
      assert LifeStep(h, node, xs, ls, j - 1);
      LifeMovesForward(h, node, xs, ls, if i < j then i else j - 1, j - 1, key);
      StepKeepsCover(h, node, xs[j - 1], ls[j - 1], SuffixOf(key));
      StepKeepsNumber(h, node, xs[j - 1], ls[j - 1], key);
    }
  }

  /**
   * Between cleanups, through any passes, lost acks, unreported acks, restarts and new signals: once the
   * agent knows of a signal's ack it never runs that signal again, only one with a higher sequence number,
   * unless it was restarted in between and could not read its acks.
   */
  lemma NeverRepeats(h: Digest, node: string, xs: seq<Local>, ls: seq<AgentStep>, i: nat, j: nat, key: string)
    requires IsLife(h, node, xs, ls) && i < j < |xs| && ls[i].Passes?
    requires Confirmed(node, xs[i].progress, xs[i].cm, xs[i].cm.Keys, key, ls[i].fate)
    requires key in xs[j].cm && Due(node, xs[j].progress, key, xs[j].cm[key])
    ensures xs[j].cm[key].number > xs[i].cm[key].number || ForgetsBetween(ls, i + 1, j)
  {
    hide Due, LifeStep, Confirmed, Last, Covered, KeepsNumber, SuffixOf, IsKill, Seeded, Addressed, ForgetsBetween;
    RemembersPass(h, node, xs, ls, i, key);
    DueIsNewer(node, xs[j].progress, key, xs[j].cm[key]);
    LifeMovesForward(h, node, xs, ls, i + 1, j, key);
  }

  lemma DueIsNewer(node: string, progress: Progress, key: string, p: Payload)
    requires Due(node, progress, key, p)
    ensures IsKill(key) && p.Payload? && p.number > Last(progress, SuffixOf(key))
  {
  }

  lemma RemembersPass(h: Digest, node: string, xs: seq<Local>, ls: seq<AgentStep>, i: nat, key: string)
    requires IsLife(h, node, xs, ls) && i < |ls| && ls[i].Passes?
    requires Confirmed(node, xs[i].progress, xs[i].cm, xs[i].cm.Keys, key, ls[i].fate)
    ensures IsKill(key) && xs[i].cm[key].Payload?
    ensures Last(xs[i + 1].progress, SuffixOf(key)) == xs[i].cm[key].number
  {
    hide Lived, Confirmed, Covered, Last, Due;
    RemembersConfirmed(h, node, xs[i], ls[i].fate, key);
    assert LifeStep(h, node, xs, ls, i);
  }

  lemma RemembersConfirmed(h: Digest, node: string, x: Local, fate: Fate, key: string)
    requires Confirmed(node, x.progress, x.cm, x.cm.Keys, key, fate)
    ensures IsKill(key) && x.cm[key].Payload?
    ensures Last(Lived(h, node, x, Passes(fate)).progress, SuffixOf(key)) == x.cm[key].number
  {
    hide Acknowledged, Advanced;
    Rejoined(key);
    AdvancedAt(node, x.progress, x.cm, x.cm.Keys, fate, SuffixOf(key));
  }

  /**
   * At any time a signal for this node that its ack is behind of is due. One whose ack is on record is due
   * exactly if the agent does not know of that ack. A restart that reads the acks settles this; one that
   * does not makes every signal due.
   */
  lemma UnackedIsDue(h: Digest, node: string, xs: seq<Local>, ls: seq<AgentStep>, j: nat, key: string)
    requires IsLife(h, node, xs, ls) && j < |xs|
    requires key in xs[j].cm && Addressed(node, key, xs[j].cm[key]) && xs[j].cm[key].ip.IsIP()
    ensures var x, p := xs[j], xs[j].cm[key];
            var acked := AckedNumber(node, x.cm, SuffixOf(key));
            && (Due(node, x.progress, key, p) <==> p.number > acked || Last(x.progress, SuffixOf(key)) < p.number <= acked)
            && (Due(node, Reborn(node, x.cm, true), key, p) <==> p.number > acked)
            && (Due(node, Reborn(node, x.cm, false), key, p) <==> p.number > 0)
  {
    LifeMovesForward(h, node, xs, ls, j, j, key);
    SeedsTheAcks(node, xs[j].cm, SuffixOf(key));
  }

  /** The signal lies between what two memories hold. */
  predicate InGap(before: Progress, after: Progress, key: string, p: Payload)
    requires IsKill(key) && p.Payload?
  {
    var x, y := Last(before, SuffixOf(key)), Last(after, SuffixOf(key));
    x < p.number <= y || y < p.number <= x
  }

  /** No signal for this node does. */
  predicate NoGap(node: string, before: Progress, after: Progress, cm: ConfigMap) {
    forall k :: k in cm && Addressed(node, k, cm[k]) && cm[k].ip.IsIP() ==> !InGap(before, after, k, cm[k])
  }

  /**
   * A crash and restart before a pass leaves the same signals due exactly if none lies between what the agent
   * remembered and what it remembers then: what its acks show, or nothing if it could not read them.
   */
  lemma RestartIsTransparent(node: string, progress: Progress, cm: ConfigMap, read: bool)
    ensures NoGap(node, progress, Reborn(node, cm, read), cm) <==>
            forall k :: k in cm ==> (Due(node, progress, k, cm[k]) <==> Due(node, Reborn(node, cm, read), k, cm[k]))
    ensures forall s :: Last(Reborn(node, cm, read), s) == if read then AckedNumber(node, cm, s) else 0
  {
    forall s ensures Last(Seeded(node, cm), s) == AckedNumber(node, cm, s) {
      SeedsTheAcks(node, cm, s);
    }
    hide Seeded, AckedNumber;
    var after := Reborn(node, cm, read);
    if NoGap(node, progress, after, cm) {
      forall k | k in cm ensures Due(node, progress, k, cm[k]) <==> Due(node, after, k, cm[k]) {
        if Addressed(node, k, cm[k]) && cm[k].ip.IsIP() {
          assert !InGap(progress, after, k, cm[k]);
        }
      }
    } else {
      var k :| k in cm && Addressed(node, k, cm[k]) && cm[k].ip.IsIP() && InGap(progress, after, k, cm[k]);
      assert Due(node, progress, k, cm[k]) <==> !Due(node, after, k, cm[k]);
    }
  }

  /** Then the pass itself is the same. */
  lemma SamePassAfterRestart(node: string, progress: Progress, cm: ConfigMap, seen: set<string>, fate: Fate, read: bool)
    requires NoGap(node, progress, Reborn(node, cm, read), cm)
    ensures Acknowledged(node, progress, cm, seen, fate) == Acknowledged(node, Reborn(node, cm, read), cm, seen, fate)
  {
    hide Reborn, Due, NoGap;
    RestartIsTransparent(node, progress, cm, read);
    var after := Reborn(node, cm, read);
    assert forall k :: Acked(node, progress, cm, seen, k, fate) <==> Acked(node, after, cm, seen, k, fate);
    var a, b := Acknowledged(node, progress, cm, seen, fate), Acknowledged(node, after, cm, seen, fate);
    forall k ensures (k in a <==> k in b) && (k in a ==> a[k] == b[k]) {
      AcknowledgedAt(node, progress, cm, seen, fate, k);
      AcknowledgedAt(node, after, cm, seen, fate, k);
    }
  }

  /** An unreported ack makes a gap: the signal stays due, until a restart that reads the ack. */
  lemma UnreportedAckRepeats(node: string, progress: Progress, cm: ConfigMap, seen: set<string>, key: string, fate: Fate)
    requires node != "" && Acked(node, progress, cm, seen, key, fate) && !fate.reported(key)
    ensures var after := Acknowledged(node, progress, cm, seen, fate);
            && key in after && after[key] == cm[key] && IsKill(key) && after[key].Payload?
            && AckedNumber(node, after, SuffixOf(key)) == cm[key].number
            && Due(node, Advanced(node, progress, cm, seen, fate), key, after[key])
            && (forall read :: Due(node, Reborn(node, after, read), key, after[key]) <==> !read && cm[key].number > 0)
  {
    hide Acknowledged, Advanced, Seeded;
    Rejoined(key);
    PassAt(node, progress, cm, seen, fate, SuffixOf(key));
    AcknowledgedAt(node, progress, cm, seen, fate, key);
    SeedsTheAcks(node, Acknowledged(node, progress, cm, seen, fate), SuffixOf(key));
  }

  /**
   * Sequence numbers start over after a cleanup, but a live agent keeps its memory: the first signal
   * after a cleanup is handled exactly by an agent that has not yet processed any signal of that key.
   * An agent restarted after the cleanup always handles it.
   */
  lemma FirstSignalAfterCleanup(
    h: Digest, progress: Progress, cm: ConfigMap, nodes: seq<string>, i: nat, ip: Address, token: Token, ns: string, name: string)
    requires WellFormedForCleanup(h, cm, nodes, ns, name) && ip.IsIP() && i < |nodes| && nodes[i] != "" && ns != ""
    requires forall j :: 0 <= j < |nodes| && j != i ==> nodes[j] != nodes[i]
    ensures var cleaned := Signaler.Cleaned(cm, ns, name);
            var signalled := Signaler.Populate(h, cleaned, nodes, ip, token, ns, name);
            var key := KillKey(h, nodes[i], ns, name);
            && key in signalled && signalled[key].Payload? && signalled[key].number == 1
            && (Due(nodes[i], progress, key, signalled[key]) <==> Last(progress, SuffixOf(key)) <= 0)
            && Due(nodes[i], Seeded(nodes[i], signalled), key, signalled[key])
  {
    hide Suffix, Signaler.Populate, Signaler.Doomed, Fits, Seeded, Signaler.WellFormed;
    var cleaned := Signaler.Cleaned(cm, ns, name);
    var key, ack := KillKey(h, nodes[i], ns, name), AckKey(h, nodes[i], ns, name);
    var suffix := Suffix(h, nodes[i], ns, name);
    SuffixesAreFaithful(suffix, suffix);
    GoneAfterCleanup(h, cm, nodes[i], ns, name);
    Signaler.NodeSignalled(h, cleaned, nodes, ip, token, ns, name, i);
    forall j | 0 <= j < |nodes| ensures ack != KillKey(h, nodes[j], ns, name) {
      SuffixesAreFaithful(Suffix(h, nodes[j], ns, name), suffix);
    }
    Signaler.NumbersGrow(h, cleaned, nodes, ip, token, ns, name, ack);
    SeededIsExact(nodes[i], Signaler.Populate(h, cleaned, nodes, ip, token, ns, name), suffix);
  }

  ghost predicate WellFormedForCleanup(h: Digest, cm: ConfigMap, nodes: seq<string>, ns: string, name: string) {
    && Signaler.WellFormed(h, cm)
    && Signaler.NodesApart(h, nodes, ns, name)
    && Plain(ns) && Plain(name)
    && forall j :: 0 <= j < |nodes| ==> Plain(nodes[j]) && Fits(nodes[j], ns, name)
  }

  /** Cleanup leaves neither the kill nor the ack entry of any node of the service. */
  lemma GoneAfterCleanup(h: Digest, cm: ConfigMap, node: string, ns: string, name: string)
    requires Signaler.WellFormed(h, cm) && Plain(node) && Plain(ns) && Plain(name) && Fits(node, ns, name)
    ensures KillKey(h, node, ns, name) !in Signaler.Cleaned(cm, ns, name)
    ensures AckKey(h, node, ns, name) !in Signaler.Cleaned(cm, ns, name)
  {
    hide Suffix, Signaler.Doomed, Signaler.Cleaned;
    var suffix := Suffix(h, node, ns, name);
    SuffixesAreFaithful(suffix, suffix);
    Signaler.CleanupIsExact(h, cm, ns, name);
    forall k | k in {KILL + suffix, ACK + suffix} && k in cm
      ensures Signaler.Belongs(cm[k], ns, name)
    {
      var p := cm[k];
      SuffixInjective(h, node, ns, name, p.node, p.fsNamespace, p.fsName);
    }
  }

  // ----- The agent at work -----

  class Agent {
    const node: string
    const store: ConfigMapStore
    var lastSeq: Progress

    constructor (node: string, store: ConfigMapStore)
      ensures this.node == node && this.store == store && lastSeq == map[]
    {
      this.node := node;
      this.store := store;
      this.lastSeq := map[];
    }

    /**
     * One pass over the signals, in whatever order the map yields them: the result is the same for
     * every order.
     */
    method RunOnce(read: bool, fate: Fate)
      modifies this, store
      ensures !read || old(store.data).None? ==> store.data == old(store.data) && lastSeq == old(lastSeq)
      ensures read && old(store.data).Some? ==>
                var cm := old(store.data).value;
                && store.data == Some(Acknowledged(node, old(lastSeq), cm, cm.Keys, fate))
                && lastSeq == Advanced(node, old(lastSeq), cm, cm.Keys, fate)
    {
      hide Acknowledged, Advanced;
      if !read || store.data.None? {
        return;
      }
      var cm := store.data.value;
      var todo := cm.Keys;
      ghost var seen: set<string> := {};
      SeenNothing(node, lastSeq, cm, fate);
      while todo != {}
        invariant todo == cm.Keys - seen && seen <= cm.Keys
        invariant store.data == Some(Acknowledged(node, old(lastSeq), cm, seen, fate))
        invariant lastSeq == Advanced(node, old(lastSeq), cm, seen, fate)
        decreases |todo|
      {
        var key :| key in todo;
        todo := todo - {key};
        SeenOneMore(node, old(lastSeq), cm, seen, key, fate);
        LastUntilSeen(node, old(lastSeq), cm, seen, key, fate);
        seen := seen + {key};
        var signal := cm[key];
        if !IsKill(key) {
          continue;
        }
        if signal.Malformed? {
          continue;
        }
        if signal.node != "" {
          if signal.node != node {
            continue;
          }
        } else if !(KILL + node + "_" <= key) {
          continue;
        }
        var suffix := SuffixOf(key);
        if signal.number <= Last(lastSeq, suffix) {
          continue;
        }
        if !signal.ip.IsIP() {
          continue;
        }
        var report := fate.report(key);
        var written := WriteAck(ACK + suffix, signal, report, fate.landed(key), fate.reported(key));
        if !written {
          continue;
        }
        lastSeq := lastSeq[suffix := signal.number];
      }
      assert seen == cm.Keys;
    }

    /** The update may land although its answer is an error. */
    method WriteAck(key: string, signal: Payload, report: Report, landed: bool, reported: bool) returns (ok: bool)
      requires store.data.Some? && signal.Payload?
      modifies store
      ensures ok == (landed && reported)
      ensures store.data == if landed then Some(old(store.data).value[key := AckOf(node, signal, report)]) else old(store.data)
    {
      var ack := Payload(Hostname(""), signal.number, signal.token, node, signal.fsNamespace, signal.fsName,
                         report.killed, report.errors);
      if landed {
        store.data := Some(store.data.value[key := ack]);
      }
      ok := landed && reported;
    }

    /** A start: the memory becomes what the acks say, or stays what it was if they could not be read. */
    method InitFromConfigMap(read: bool)
      modifies this
      ensures !read || store.data.None? ==> lastSeq == old(lastSeq)
      ensures read && store.data.Some? ==> lastSeq == Seeded(node, store.data.value)
      ensures old(lastSeq) == map[] ==> lastSeq == Reborn(node, Contents(store.data), read)
    {
      if !read || store.data.None? {
        return;
      }
      var cm := store.data.value;
      lastSeq := map[];
      var todo := cm.Keys;
      while todo != {}
        invariant todo <= cm.Keys
        invariant forall s :: s in lastSeq <==> exists k :: k in cm.Keys - todo && Seeds(node, k, cm[k]) && SuffixOf(k) == s
        invariant forall s :: s in lastSeq ==> ACK + s in cm && cm[ACK + s].Payload? && lastSeq[s] == cm[ACK + s].number
        decreases |todo|
      {
        var key :| key in todo;
        todo := todo - {key};
        if !IsAck(key) {
          continue;
        }
        Rejoined(key);
        var suffix := SuffixOf(key);
        var ack := cm[key];
        if ack.Malformed? {
          continue;
        }
        if ack.node != "" {
          if ack.node != node {
            continue;
          }
        } else if !(node + "_" <= suffix) {
          continue;
        }
        lastSeq := lastSeq[suffix := ack.number];
      }
      assert lastSeq == Seeded(node, cm);
    }
  }
}
