/** The controller side of the kill protocol (internal/connkill/signaler.go). */
module Signaler {
  import opened Api
  import opened KillKeys
  import Controller
  import Discovery

  // ----- Signalling -----

  function NextNumber(cm: ConfigMap, key: string): int {
    if key in cm && cm[key].Payload? then cm[key].number + 1 else 1
  }

  function Signal(ip: Address, number: int, token: Token, node: string, ns: string, name: string): Payload {
    Payload(ip, number, Some(token), node, ns, name, 0, 0)
  }

  function Populate(
    h: Digest, cm: ConfigMap, nodes: seq<string>, ip: Address, token: Token, ns: string, name: string): ConfigMap
  {
    if nodes == [] then cm
    else
      var init, node := nodes[..|nodes| - 1], nodes[|nodes| - 1];
      var done := Populate(h, cm, init, ip, token, ns, name);
      var key := KillKey(h, node, ns, name);
      done[key := Signal(ip, NextNumber(done, key), token, node, ns, name)]
  }

  /** Keys are told apart by the node alone: no truncated suffix collides with another one. */
  ghost predicate NodesApart(h: Digest, nodes: seq<string>, ns: string, name: string) {
    forall i, j :: 0 <= i < |nodes| && 0 <= j < |nodes| && nodes[i] != nodes[j] ==>
      Suffix(h, nodes[i], ns, name) != Suffix(h, nodes[j], ns, name)
  }

  /** The signal that a key holds after signalling, given what it held before. */
  predicate Signalled(
    cm: ConfigMap, done: ConfigMap, key: string, ip: Address, token: Token, node: string, ns: string, name: string)
  {
    && key in done && done[key].Payload?
    && done[key] == Signal(ip, done[key].number, token, node, ns, name)
    && (key in cm && cm[key].Payload? ==> done[key].number > cm[key].number)
    && (key !in cm ==> done[key].number >= 1)
  }

  /** Keys of other nodes keep their value; no key loses its sequence number or lowers it. */
  lemma {:induction false} NumbersGrow(
    h: Digest, cm: ConfigMap, nodes: seq<string>, ip: Address, token: Token, ns: string, name: string, key: string)
    ensures var done := Populate(h, cm, nodes, ip, token, ns, name);
            && (key in cm ==> key in done)
            && (key in cm && cm[key].Payload? ==> done[key].Payload? && done[key].number >= cm[key].number)
            && (key !in cm && key in done ==> done[key].Payload? && done[key].number >= 1)
            && (key in done && (forall i :: 0 <= i < |nodes| ==> key != KillKey(h, nodes[i], ns, name)) ==>
                  key in cm && done[key] == cm[key])
  {
    hide KillKey;
    if nodes != [] {
      var init := nodes[..|nodes| - 1];
      NumbersGrow(h, cm, init, ip, token, ns, name, key);
      assert forall i :: 0 <= i < |init| ==> init[i] == nodes[i];
    }
  }

  /**
   * Signalling gives the kill key of every signalled node the new token and address, and a sequence
   * number above the one it had.
   */
  lemma {:induction false} NodeSignalled(
    h: Digest, cm: ConfigMap, nodes: seq<string>, ip: Address, token: Token, ns: string, name: string, i: nat)
    requires NodesApart(h, nodes, ns, name) && i < |nodes|
    ensures Signalled(cm, Populate(h, cm, nodes, ip, token, ns, name), KillKey(h, nodes[i], ns, name), ip, token, nodes[i], ns, name)
    ensures (forall j :: 0 <= j < |nodes| && j != i ==> nodes[j] != nodes[i]) ==>
              Populate(h, cm, nodes, ip, token, ns, name)[KillKey(h, nodes[i], ns, name)].number ==
              NextNumber(cm, KillKey(h, nodes[i], ns, name))
  {
    hide Suffix, KillKey;
    var init, node := nodes[..|nodes| - 1], nodes[|nodes| - 1];
    NumbersGrow(h, cm, init, ip, token, ns, name, KillKey(h, node, ns, name));
    if i == |nodes| - 1 && forall j :: 0 <= j < |init| ==> init[j] != node {
      forall j | 0 <= j < |init| ensures KillKey(h, init[j], ns, name) != KillKey(h, node, ns, name) {
        assert nodes[j] == init[j];
        KeysApart(h, init[j], node, ns, name);
      }
    }
    if nodes[i] != node {
      assert forall j :: 0 <= j < |init| ==> init[j] == nodes[j];
      NodeSignalled(h, cm, init, ip, token, ns, name, i);
      KeysApart(h, nodes[i], node, ns, name);
    }
  }

  // ----- Acks -----

  /** The node's ack carries the token. */
  predicate Acked(h: Digest, cm: ConfigMap, node: string, token: Token, ns: string, name: string) {
    var key := AckKey(h, node, ns, name);
    key in cm && cm[key].Payload? && cm[key].token == Some(token)
  }

  predicate AckedClean(h: Digest, cm: ConfigMap, node: string, token: Token, ns: string, name: string) {
    Acked(h, cm, node, token, ns, name) && cm[AckKey(h, node, ns, name)].errors <= 0
  }

  datatype AckStatus = AckStatus(allAcked: bool, acked: seq<string>, pending: seq<string>, errors: seq<string>)

  /** The status a list of nodes has to get: every node in exactly one list, in order. */
  predicate Reports(h: Digest, cm: ConfigMap, token: Token, nodes: seq<string>, ns: string, name: string, r: AckStatus) {
    && r.acked == Select(nodes, n => AckedClean(h, cm, n, token, ns, name))
    && r.pending == Select(nodes, n => !Acked(h, cm, n, token, ns, name))
    && r.errors == Select(nodes, n => Acked(h, cm, n, token, ns, name) && !AckedClean(h, cm, n, token, ns, name))
    && (r.allAcked <==> forall i :: 0 <= i < |nodes| ==> AckedClean(h, cm, nodes[i], token, ns, name))
  }

  function Select(nodes: seq<string>, p: string -> bool): seq<string> {
    if nodes == [] then []
    else
      var init, node := nodes[..|nodes| - 1], nodes[|nodes| - 1];
      Select(init, p) + if p(node) then [node] else []
  }

  lemma {:induction false} SelectEmpty(nodes: seq<string>, p: string -> bool)
    ensures Select(nodes, p) == [] <==> forall i :: 0 <= i < |nodes| ==> !p(nodes[i])
  {
    if nodes != [] {
      var init, last := nodes[..|nodes| - 1], nodes[|nodes| - 1];
      SelectEmpty(init, p);
      assert forall i :: 0 <= i < |nodes| ==> nodes[i] == if i < |init| then init[i] else last;
      assert forall i :: 0 <= i < |init| ==> init[i] == nodes[i];
    }
  }

  /** Every node is in exactly one list, and the kill is over exactly when nobody is pending or failed. */
  lemma ReportsPartition(h: Digest, cm: ConfigMap, token: Token, nodes: seq<string>, ns: string, name: string, r: AckStatus)
    requires Reports(h, cm, token, nodes, ns, name, r)
    ensures r.allAcked <==> r.pending == [] && r.errors == []
    ensures forall n: string :: multiset(nodes)[n] == multiset(r.acked)[n] + multiset(r.pending)[n] + multiset(r.errors)[n]
  {
    var clean := n => AckedClean(h, cm, n, token, ns, name);
    var open := n => !Acked(h, cm, n, token, ns, name);
    var failed := n => Acked(h, cm, n, token, ns, name) && !AckedClean(h, cm, n, token, ns, name);
    SelectEmpty(nodes, open);
    SelectEmpty(nodes, failed);
    forall n: string
      ensures multiset(nodes)[n] == multiset(r.acked)[n] + multiset(r.pending)[n] + multiset(r.errors)[n]
    {
      SelectCounts(nodes, clean, n);
      SelectCounts(nodes, open, n);
      SelectCounts(nodes, failed, n);
    }
  }

  lemma {:induction false} SelectCounts(nodes: seq<string>, p: string -> bool, n: string)
    ensures multiset(Select(nodes, p))[n] == if p(n) then multiset(nodes)[n] else 0
  {
    if nodes != [] {
      var init := nodes[..|nodes| - 1];
      SelectCounts(init, p, n);
      assert nodes == init + [nodes[|nodes| - 1]];
    }
  }

  // ----- Cleanup -----

  /** The entry belongs to the service: by its payload, or for old entries by the end of its key. */
  predicate MatchesService(key: string, p: Payload, ns: string, name: string) {
    if p.Payload? && (p.fsNamespace != "" || p.fsName != "") then p.fsNamespace == ns && p.fsName == name
    else EndsWith(key, ServiceEnd(ns, name))
  }

  /** A matching kill entry takes the ack under the same suffix with it. */
  predicate Doomed(cm: ConfigMap, key: string, ns: string, name: string) {
    || (key in cm && (IsKill(key) || IsAck(key)) && MatchesService(key, cm[key], ns, name))
    || (IsAck(key) && KILL + SuffixOf(key) in cm && MatchesService(KILL + SuffixOf(key), cm[KILL + SuffixOf(key)], ns, name))
  }

  function Cleaned(cm: ConfigMap, ns: string, name: string): ConfigMap {
    map k | k in cm && !Doomed(cm, k, ns, name) :: cm[k]
  }

  predicate Belongs(p: Payload, ns: string, name: string) {
    p.Payload? && p.fsNamespace == ns && p.fsName == name
  }

  /** Every kill and ack entry names its node and service, under the key made from them. */
  predicate WellFormed(h: Digest, cm: ConfigMap) {
    forall k :: k in cm && (IsKill(k) || IsAck(k)) ==>
      var p := cm[k];
      && p.Payload? && p.fsNamespace != ""
      && Plain(p.node) && Plain(p.fsNamespace) && Plain(p.fsName)
      && Fits(p.node, p.fsNamespace, p.fsName)
      && SuffixOf(k) == Suffix(h, p.node, p.fsNamespace, p.fsName)
  }

  /**
   * Entries written before payloads named their service are told apart by their keys, and entries whose
   * payload does name one by nothing else.
   */
  lemma LegacyMatchIsExact(
    h: Digest, prefix: string, p: Payload, node: string, ns: string, name: string, ns': string, name': string)
    requires Plain(ns) && Plain(name) && Plain(ns') && Plain(name') && Fits(node, ns, name)
    requires p.Malformed? || (p.fsNamespace == "" && p.fsName == "")
    ensures MatchesService(prefix + Suffix(h, node, ns, name), p, ns', name') <==> ns == ns' && name == name'
    ensures forall key, q: Payload :: q.Payload? && q.fsName != "" ==>
              (MatchesService(key, q, ns', name') <==> q.fsNamespace == ns' && q.fsName == name')
  {
    EndTellsService(h, prefix, node, ns, name, ns', name');
  }

  /** Of signals and acks, whatever their payloads, cleanup removes those that match and the acks beside them. */
  lemma CleanupTakesPairs(cm: ConfigMap, suffix: string, ns: string, name: string)
    ensures var kill, ack := KILL + suffix, ACK + suffix;
            var signalGoes := kill in cm && MatchesService(kill, cm[kill], ns, name);
            && (kill in Cleaned(cm, ns, name) <==> kill in cm && !signalGoes)
            && (ack in Cleaned(cm, ns, name) <==> ack in cm && !MatchesService(ack, cm[ack], ns, name) && !signalGoes)
    ensures forall k :: k in cm && !IsKill(k) && !IsAck(k) ==> k in Cleaned(cm, ns, name)
    ensures forall k :: k in Cleaned(cm, ns, name) ==> k in cm && Cleaned(cm, ns, name)[k] == cm[k]
  {
    SuffixesAreFaithful(suffix, suffix);
    hide MatchesService;
  }

  /** On a well-formed map, cleanup removes exactly the kill and ack entries of the service. */
  lemma CleanupIsExact(h: Digest, cm: ConfigMap, ns: string, name: string)
    requires WellFormed(h, cm)
    ensures forall k :: k in Cleaned(cm, ns, name) <==>
                        k in cm && !((IsKill(k) || IsAck(k)) && Belongs(cm[k], ns, name))
    ensures forall k :: k in Cleaned(cm, ns, name) ==> Cleaned(cm, ns, name)[k] == cm[k]
    ensures WellFormed(h, Cleaned(cm, ns, name))
  {
    hide Suffix, Fits;
    forall k | k in cm
      ensures Doomed(cm, k, ns, name) <==> (IsKill(k) || IsAck(k)) && Belongs(cm[k], ns, name)
    {
      if IsAck(k) && KILL + SuffixOf(k) in cm {
        var kill := KILL + SuffixOf(k);
        SuffixesAreFaithful(SuffixOf(k), SuffixOf(k));
        var p, q := cm[k], cm[kill];
        SuffixInjective(h, p.node, p.fsNamespace, p.fsName, q.node, q.fsNamespace, q.fsName);
      }
    }
  }

  // ----- The signaler at work -----

  /** The nodes to signal; nothing when pods or nodes could not be listed. */
  function Expected(pods: Option<seq<Discovery.Pod>>, nodes: Option<seq<Discovery.Node>>): Option<seq<string>> {
    if pods.None? then None
    else if pods.value == [] then Some([])
    else if nodes.None? then None
    else Some(Discovery.Expected(pods.value, nodes.value))
  }

  /** Signalling fails for want of a list exactly if pods cannot be listed, or there are some and nodes cannot. */
  lemma ExpectedNeedsLists(pods: Option<seq<Discovery.Pod>>, nodes: Option<seq<Discovery.Node>>)
    ensures Expected(pods, nodes).None? <==> pods.None? || (pods.value != [] && nodes.None?)
    ensures pods == Some([]) ==> Expected(pods, nodes) == Some([])
    ensures Expected(pods, nodes).Some? && pods != Some([]) ==>
              forall n :: n in Expected(pods, nodes).value <==>
                exists i :: 0 <= i < |nodes.value| && Discovery.Eligible(nodes.value[i]) && nodes.value[i].name == n
  {
    if pods.Some? && nodes.Some? {
      Discovery.ExpectedIsExact(pods.value, nodes.value);
    }
  }

  class Signaler {
    const digest: Digest
    const store: ConfigMapStore

    constructor (digest: Digest, store: ConfigMapStore)
      ensures this.digest == digest && this.store == store
    {
      this.digest := digest;
      this.store := store;
    }

    /**
     * Finds the nodes and writes one signal for each in a single update; a missing ConfigMap is created.
     * The update may land although its answer is an error.
     */
    method SignalKill(
      pods: Option<seq<Discovery.Pod>>, nodes: Option<seq<Discovery.Node>>,
      ip: Address, token: Token, ns: string, name: string, read: bool, landed: bool, reported: bool)
      returns (r: Controller.SignalResult)
      modifies store
      ensures var expected := Expected(pods, nodes);
              && r == (if expected.None? then Controller.SignalError
                       else if expected.value == [] then Controller.Signaled([])
                       else if read && landed && reported then Controller.Signaled(expected.value)
                       else Controller.SignalError)
              && store.data == (if expected.Some? && expected.value != [] && read && landed
                                then Some(Populate(digest, Contents(old(store.data)), expected.value, ip, token, ns, name))
                                else old(store.data))
    {
      var expected, _ := Discovery.DiscoverAgentNodes(pods, nodes);
      if expected.None? {
        return Controller.SignalError;
      }
      if expected.value == [] {
        return Controller.Signaled([]);
      }
      if !read {
        return Controller.SignalError;
      }
      var cm: ConfigMap := map[];
      if store.data.Some? {
        cm := store.data.value;
      }
      cm := PopulateKillSignals(cm, expected.value, ip, token, ns, name);
      if landed {
        store.data := Some(cm);
      }
      return if landed && reported then Controller.Signaled(expected.value) else Controller.SignalError;
    }

    method PopulateKillSignals(before: ConfigMap, nodes: seq<string>, ip: Address, token: Token, ns: string, name: string)
      returns (cm: ConfigMap)
      ensures cm == Populate(digest, before, nodes, ip, token, ns, name)
    {
      hide KillKey;
      cm := before;
      for i := 0 to |nodes|
        invariant cm == Populate(digest, before, nodes[..i], ip, token, ns, name)
      {
        var key := KillKey(digest, nodes[i], ns, name);
        var number := 1;
        if key in cm && cm[key].Payload? {
          number := cm[key].number + 1;
        }
        assert nodes[..i + 1][..i] == nodes[..i];
        cm := cm[key := Payload(ip, number, Some(token), nodes[i], ns, name, 0, 0)];
      }
      assert nodes[..|nodes|] == nodes;
    }

    /** A missing ConfigMap leaves every node pending. */
    method CheckAcks(token: Token, nodes: seq<string>, ns: string, name: string) returns (r: AckStatus)
      ensures Reports(digest, Contents(store.data), token, nodes, ns, name, r)
    {
      hide AckKey;
      var cm := Contents(store.data);
      var clean := n => AckedClean(digest, cm, n, token, ns, name);
      var open := n => !Acked(digest, cm, n, token, ns, name);
      var failed := n => Acked(digest, cm, n, token, ns, name) && !AckedClean(digest, cm, n, token, ns, name);
      var acked, pending, errors := [], [], [];
      for i := 0 to |nodes|
        invariant acked == Select(nodes[..i], clean)
        invariant pending == Select(nodes[..i], open)
        invariant errors == Select(nodes[..i], failed)
        invariant |pending| == 0 && |errors| == 0 <==> forall j :: 0 <= j < i ==> clean(nodes[j])
      {
        assert nodes[..i + 1][..i] == nodes[..i];
        var node := nodes[i];
        var key := AckKey(digest, node, ns, name);
        if key !in cm {
          pending := pending + [node];
        } else if cm[key].Malformed? {
          pending := pending + [node];
        } else if cm[key].token != Some(token) {
          pending := pending + [node];
        } else if cm[key].errors > 0 {
          errors := errors + [node];
        } else {
          acked := acked + [node];
        }
      }
      assert nodes[..|nodes|] == nodes;
      r := AckStatus(|pending| == 0 && |errors| == 0, acked, pending, errors);
    }

    method SignalMatches(key: string, p: Payload, ns: string, name: string) returns (matches: bool)
      ensures matches <==> MatchesService(key, p, ns, name)
    {
      if p.Payload? {
        if p.fsNamespace != "" || p.fsName != "" {
          return p.fsNamespace == ns && p.fsName == name;
        }
      }
      return EndsWith(key, ServiceEnd(ns, name));
    }

    /** Keys are visited in any order. */
    method CleanupSignals(ns: string, name: string)
      modifies store
      ensures store.data == (if old(store.data).Some? then Some(Cleaned(old(store.data).value, ns, name)) else None)
    {
      if store.data.None? {
        return;
      }
      var cm := store.data.value;
      var todo := cm.Keys;
      var doomed: set<string> := {};
      while todo != {}
        invariant todo <= cm.Keys
        invariant forall k :: k in doomed ==> Doomed(cm, k, ns, name)
        invariant forall k :: k in cm.Keys - todo && (IsKill(k) || IsAck(k)) && MatchesService(k, cm[k], ns, name) ==>
                                k in doomed && (IsKill(k) ==> ACK + SuffixOf(k) in doomed)
        decreases |todo|
      {
        var key :| key in todo;
        todo := todo - {key};
        var matches := SignalMatches(key, cm[key], ns, name);
        Rejoined(key);
        if IsKill(key) {
          if matches {
            doomed := doomed + {key, ACK + SuffixOf(key)};
          }
        } else if IsAck(key) {
          if matches {
            doomed := doomed + {key};
          }
        }
      }
      forall k | k in cm && Doomed(cm, k, ns, name)
        ensures k in doomed
      {
        if IsAck(k) {
          SuffixesAreFaithful(SuffixOf(k), SuffixOf(k));
          Rejoined(k);
        }
      }
      var kept := map k | k in cm && k !in doomed :: cm[k];
      assert forall k :: k in cm ==> (k in doomed <==> Doomed(cm, k, ns, name));
      assert kept == Cleaned(cm, ns, name);
      store.data := Some(kept);
    }
  }
}
