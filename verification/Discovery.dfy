/** Which nodes a kill signal expects an ack from (internal/connkill/signaler.go). */
module Discovery {
  import opened Api
  import Syncer

  /** A condition of a pod or node: is it the Ready condition, and is its status True? */
  datatype Condition = Condition(ready: bool, holds: bool)

  /** An agent pod, selected by namespace and label. */
  datatype Pod = Pod(node: string, deleting: bool, running: bool, conditions: seq<Condition>)

  datatype Node = Node(name: string, deleting: bool, unschedulable: bool, linux: bool, conditions: seq<Condition>)

  // ----- Ready agents and eligible nodes -----

  predicate PodReady(conditions: seq<Condition>) {
    exists i :: 0 <= i < |conditions| && conditions[i].ready && conditions[i].holds
  }

  predicate ReadyAgent(p: Pod) {
    p.node != "" && !p.deleting && p.running && PodReady(p.conditions)
  }

  /** The first Ready condition decides; a node without one counts as ready. */
  predicate NodeReady(conditions: seq<Condition>) {
    forall i :: 0 <= i < |conditions| && conditions[i].ready && (forall j :: 0 <= j < i ==> !conditions[j].ready) ==>
      conditions[i].holds
  }

  predicate Eligible(n: Node) {
    !n.deleting && !n.unschedulable && n.linux && NodeReady(n.conditions)
  }

  function ReadyNodes(pods: seq<Pod>): set<string> {
    set i | 0 <= i < |pods| && ReadyAgent(pods[i]) :: pods[i].node
  }

  function EligibleNames(nodes: seq<Node>): seq<string> {
    if nodes == [] then []
    else
      var init, last := nodes[..|nodes| - 1], nodes[|nodes| - 1];
      EligibleNames(init) + if Eligible(last) then [last.name] else []
  }

  /** Eligible nodes without a ready agent, in the order of the list. */
  function Missing(names: seq<string>, ready: set<string>): seq<string> {
    if names == [] then []
    else
      var init, last := names[..|names| - 1], names[|names| - 1];
      Missing(init, ready) + if last in ready then [] else [last]
  }

  // ----- Sorting -----

  predicate IsSorted(names: seq<string>) {
    forall i, j :: 0 <= i < j < |names| ==> !Syncer.Before(names[j], names[i])
  }

  function Insert(name: string, names: seq<string>): seq<string> {
    if names == [] then [name]
    else if Syncer.Before(names[0], name) then [names[0]] + Insert(name, names[1..])
    else [name] + names
  }

  function Sorted(names: seq<string>): seq<string> {
    if names == [] then [] else Insert(names[0], Sorted(names[1..]))
  }

  lemma {:induction false} InsertAdds(name: string, names: seq<string>)
    ensures multiset(Insert(name, names)) == multiset(names) + multiset{name}
  {
    if names != [] {
      assert names == [names[0]] + names[1..];
      if Syncer.Before(names[0], name) {
        InsertAdds(name, names[1..]);
      }
    }
  }

  /** Not after: the order used for sorting. */
  predicate UpTo(a: string, b: string) {
    !Syncer.Before(b, a)
  }

  lemma UpToIsTransitive(a: string, b: string, c: string)
    requires UpTo(a, b) && UpTo(b, c)
    ensures UpTo(a, c)
  {
    if Syncer.Before(c, a) {
      if b != c {
        Syncer.BeforeIsTotal(b, c);
        Syncer.BeforeIsTransitive(b, c, a);
      }
    }
  }

  lemma {:induction false} InsertSorts(name: string, names: seq<string>)
    requires IsSorted(names)
    ensures IsSorted(Insert(name, names))
  {
    if names != [] {
      var rest := names[1..];
      assert IsSorted(rest) by {
        assert forall i :: 0 <= i < |rest| ==> rest[i] == names[i + 1];
      }
      if Syncer.Before(names[0], name) {
        InsertSorts(name, rest);
        Syncer.BeforeIsAsymmetric(names[0], name);
        var inserted := Insert(name, rest);
        forall j | 0 <= j < |inserted| ensures UpTo(names[0], inserted[j]) {
          InsertAdds(name, rest);
          assert inserted[j] in multiset(inserted);
          if inserted[j] != name {
            assert inserted[j] in multiset(rest);
            var i :| 0 <= i < |rest| && rest[i] == inserted[j];
            assert names[i + 1] == rest[i];
          }
        }
      } else {
        forall j | 0 <= j < |names| ensures UpTo(name, names[j]) {
          if j > 0 {
            UpToIsTransitive(name, names[0], names[j]);
          }
        }
      }
    }
  }

  lemma {:induction false} SortedIsSorted(names: seq<string>)
    ensures IsSorted(Sorted(names)) && multiset(Sorted(names)) == multiset(names)
  {
    if names != [] {
      assert names == [names[0]] + names[1..];
      SortedIsSorted(names[1..]);
      InsertSorts(names[0], Sorted(names[1..]));
      InsertAdds(names[0], Sorted(names[1..]));
    }
  }

  // ----- The expected nodes -----

  function Expected(pods: seq<Pod>, nodes: seq<Node>): seq<string> {
    if pods == [] then [] else Sorted(EligibleNames(nodes))
  }

  lemma {:induction false} EligibleNamesAre(nodes: seq<Node>, name: string)
    ensures name in EligibleNames(nodes) <==> exists i :: 0 <= i < |nodes| && Eligible(nodes[i]) && nodes[i].name == name
  {
    if nodes != [] {
      var init := nodes[..|nodes| - 1];
      EligibleNamesAre(init, name);
      assert forall i :: 0 <= i < |init| ==> init[i] == nodes[i];
    }
  }

  /** If there is any agent pod at all, ready or not, exactly the eligible nodes are expected, in order. */
  lemma ExpectedIsExact(pods: seq<Pod>, nodes: seq<Node>)
    ensures IsSorted(Expected(pods, nodes))
    ensures forall name :: name in Expected(pods, nodes) <==>
              pods != [] && exists i :: 0 <= i < |nodes| && Eligible(nodes[i]) && nodes[i].name == name
  {
    SortedIsSorted(EligibleNames(nodes));
    forall name
      ensures name in Sorted(EligibleNames(nodes)) <==> exists i :: 0 <= i < |nodes| && Eligible(nodes[i]) && nodes[i].name == name
    {
      EligibleNamesAre(nodes, name);
      assert name in multiset(Sorted(EligibleNames(nodes))) <==> name in multiset(EligibleNames(nodes));
    }
  }

  lemma {:induction false} MissingAre(names: seq<string>, ready: set<string>)
    ensures Missing(names, ready) == [] <==> forall name :: name in names ==> name in ready
  {
    if names != [] {
      var init := names[..|names| - 1];
      MissingAre(init, ready);
      assert names == init + [names[|names| - 1]];
    }
  }

  /** Some ready agent runs on a node that is not eligible. */
  predicate Stray(pods: seq<Pod>, nodes: seq<Node>) {
    exists i :: 0 <= i < |pods| && ReadyAgent(pods[i]) && pods[i].node !in EligibleNames(nodes)
  }

  /**
   * The nodes expected are the nodes with a ready agent exactly if no agent is missing, which is only logged,
   * and none runs on an ineligible node, which goes unnoticed.
   */
  lemma ExpectedAreReady(pods: seq<Pod>, nodes: seq<Node>)
    requires pods != []
    ensures (set name | name in Expected(pods, nodes)) == ReadyNodes(pods) <==>
            Missing(EligibleNames(nodes), ReadyNodes(pods)) == [] && !Stray(pods, nodes)
  {
    var names := EligibleNames(nodes);
    SortedIsSorted(names);
    forall name ensures name in Sorted(names) <==> name in names {
      assert name in multiset(Sorted(names)) <==> name in multiset(names);
    }
    MissingAre(names, ReadyNodes(pods));
    var expected := set name | name in Expected(pods, nodes);
    if expected == ReadyNodes(pods) {
      forall name | name in names ensures name in ReadyNodes(pods) {
        assert name in expected;
      }
      forall i | 0 <= i < |pods| && ReadyAgent(pods[i]) ensures pods[i].node in names {
        assert pods[i].node in ReadyNodes(pods);
        assert pods[i].node in expected;
      }
    }
  }

  /** Two eligible nodes, one of them with an agent: both are expected. */
  lemma UnservedNodeIsExpected()
    ensures var up := [Condition(true, true)];
            var pods := [Pod("a", false, true, up)];
            var nodes := [Node("b", false, false, true, up), Node("a", false, false, true, up)];
            Expected(pods, nodes) == ["a", "b"] && ReadyNodes(pods) == {"a"}
  {
    var up := [Condition(true, true)];
    var pods := [Pod("a", false, true, up)];
    var nodes := [Node("b", false, false, true, up), Node("a", false, false, true, up)];
    assert up[0].ready && ReadyAgent(pods[0]);
    assert EligibleNames(nodes[..0]) == [];
    assert nodes[..1][..0] == nodes[..0] && EligibleNames(nodes[..1]) == ["b"];
    assert nodes[..2][..1] == nodes[..1] && nodes[..2] == nodes && EligibleNames(nodes) == ["b", "a"];
    assert ["b", "a"][1..] == ["a"] && ["a"][1..] == [];
    assert Sorted(["a"]) == ["a"];
    assert !Syncer.Before("b", "a") by {
      Syncer.BeforeIsAsymmetric("a", "b");
    }
    assert "a"[0] < "b"[0];
    assert Sorted(["b", "a"]) == Insert("b", ["a"]) == ["a"] + Insert("b", []);
  }

  /** Nodes that are deleted, cordoned, not Linux, or not ready first are not expected; one without conditions is. */
  lemma IneligibleNodes()
    ensures var up, down := Condition(true, true), Condition(true, false);
            && Eligible(Node("n", false, false, true, [])) && Eligible(Node("n", false, false, true, [Condition(false, false), up, down]))
            && !Eligible(Node("n", true, false, true, [])) && !Eligible(Node("n", false, true, true, []))
            && !Eligible(Node("n", false, false, false, [])) && !Eligible(Node("n", false, false, true, [down, up]))
  {
    var up, down := Condition(true, true), Condition(true, false);
    var mixed, bad := [Condition(false, false), up, down], [down, up];
    assert mixed[1].ready && !mixed[0].ready;
    assert bad[0].ready && !bad[0].holds;
  }

  /** Pods without a node, deleted, not running, or with no true Ready condition are no ready agents. */
  lemma UnreadyAgents()
    ensures var up, down := Condition(true, true), Condition(true, false);
            && ReadyAgent(Pod("n", false, true, [down, up])) && !ReadyAgent(Pod("", false, true, [up]))
            && !ReadyAgent(Pod("n", true, true, [up])) && !ReadyAgent(Pod("n", false, false, [up]))
            && !ReadyAgent(Pod("n", false, true, [down])) && !ReadyAgent(Pod("n", false, true, []))
  {
    var mixed := [Condition(true, false), Condition(true, true)];
    assert mixed[1].ready && mixed[1].holds;
  }

  // ----- Discovery at work -----

  method IsPodReady(conditions: seq<Condition>) returns (ready: bool)
    ensures ready <==> PodReady(conditions)
  {
    for i := 0 to |conditions|
      invariant forall j :: 0 <= j < i ==> !(conditions[j].ready && conditions[j].holds)
    {
      if conditions[i].ready && conditions[i].holds {
        return true;
      }
    }
    return false;
  }

  method IsNodeEligible(n: Node) returns (eligible: bool)
    ensures eligible <==> Eligible(n)
  {
    if n.deleting || n.unschedulable {
      return false;
    }
    if !n.linux {
      return false;
    }
    for i := 0 to |n.conditions|
      invariant forall j :: 0 <= j < i ==> !n.conditions[j].ready
    {
      if n.conditions[i].ready {
        return n.conditions[i].holds;
      }
    }
    return true;
  }

  /** `None` as a list is a failed listing; `None` as a result is an error. */
  method DiscoverAgentNodes(pods: Option<seq<Pod>>, nodes: Option<seq<Node>>)
    returns (expected: Option<seq<string>>, missing: seq<string>)
    ensures expected ==
            if pods.None? then None
            else if pods.value == [] then Some([])
            else if nodes.None? then None
            else Some(Expected(pods.value, nodes.value))
    ensures missing ==
            if pods.None? || pods.value == [] || nodes.None? then []
            else Missing(EligibleNames(nodes.value), ReadyNodes(pods.value))
  {
    missing := [];
    if pods.None? {
      return None, [];
    }
    if pods.value == [] {
      return Some([]), [];
    }
    var ready: set<string> := {};
    for i := 0 to |pods.value|
      invariant ready == ReadyNodes(pods.value[..i])
    {
      var pod := pods.value[i];
      OneMorePod(pods.value, i);
      if pod.node == "" || pod.deleting {
        continue;
      }
      var conditionsOk := IsPodReady(pod.conditions);
      if !pod.running || !conditionsOk {
        continue;
      }
      ready := ready + {pod.node};
    }
    assert pods.value[..|pods.value|] == pods.value;
    if nodes.None? {
      return None, [];
    }
    var names := [];
    for i := 0 to |nodes.value|
      invariant names == EligibleNames(nodes.value[..i])
      invariant missing == Missing(names, ready)
    {
      assert nodes.value[..i + 1][..i] == nodes.value[..i];
      var node := nodes.value[i];
      var eligible := IsNodeEligible(node);
      if !eligible {
        continue;
      }
      assert (names + [node.name])[..|names|] == names;
      names := names + [node.name];
      if node.name !in ready {
        missing := missing + [node.name];
      }
    }
    assert nodes.value[..|nodes.value|] == nodes.value;
    if names == [] {
      return Some([]), [];
    }
    expected := Some(Sorted(names));
  }

  lemma OneMorePod(pods: seq<Pod>, i: nat)
    requires i < |pods|
    ensures ReadyNodes(pods[..i + 1]) == ReadyNodes(pods[..i]) + if ReadyAgent(pods[i]) then {pods[i].node} else {}
  {
    assert forall j :: 0 <= j < i ==> pods[..i][j] == pods[..i + 1][j];
    forall n | n in ReadyNodes(pods[..i]) ensures n in ReadyNodes(pods[..i + 1]) {
      var j :| 0 <= j < i && ReadyAgent(pods[..i][j]) && pods[..i][j].node == n;
      assert pods[..i + 1][j].node == n;
    }
    assert pods[..i + 1][i] == pods[i];
  }
}
