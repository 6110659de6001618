/** Publish validation of a workflow: the depth-first reachability walk and the issues it reports. */
module PublishCheck {
  import opened Text
  import opened Graphs
  import opened RunContexts
  import opened WorkflowGraphs

  datatype Issue =
    | StartFansOut
    | Unreachable(node: Id)
    | MissingBranchTarget(node: Id, target: Id)

  /** Edges the walk follows: it skips blank ids and nodes that do not exist. */
  ghost function Followed(g: Graph): Rel {
    set e | e in g.edges && TrimSpace(e.dst.name) != "" && e.dst in g.nodes :: (e.src, e.dst)
  }

  predicate Enters(g: Graph, n: Id) {
    !Blank(n) && n in g.nodes
  }

  ghost predicate Found(g: Graph, n: Id) {
    TrimSpace(g.entry.name) != "" && g.entry in g.nodes && Reaches(Followed(g), g.entry, n)
  }

  class Reachability {
    const graph: Graph
    var reachable: set<Id>

    constructor (graph: Graph)
      ensures this.graph == graph && reachable == {}
    {
      this.graph, reachable := graph, {};
    }

    /** Every node marked before this visit stays marked, and all successors of newly marked ones get marked. */
    method Visit(n: Id)
      requires Enters(graph, n) ==> Found(graph, n)
      requires forall m :: m in reachable ==> Found(graph, m)
      modifies this`reachable
      ensures old(reachable) <= reachable
      ensures TrimSpace(n.name) != "" && n in graph.nodes ==> n in reachable
      ensures forall m :: m in reachable ==> Found(graph, m)
      ensures forall e :: e in Followed(graph) && e.0 in reachable - old(reachable) ==> e.1 in reachable
      decreases graph.nodes.Keys - reachable
    {
      if Blank(n) || n in reachable || n !in graph.nodes { return; }
      reachable := reachable + {n};
      var i := 0;
      while i < |graph.edges|
        invariant 0 <= i <= |graph.edges|
        invariant old(reachable) + {n} <= reachable
        invariant forall m :: m in reachable ==> Found(graph, m)
        invariant forall j :: 0 <= j < i && graph.edges[j].src == n && Enters(graph, graph.edges[j].dst) ==>
                    graph.edges[j].dst in reachable
        invariant forall e :: e in Followed(graph) && e.0 in reachable - old(reachable) && e.0 != n ==> e.1 in reachable
      {
        var e := graph.edges[i];
        if e.src == n {
          if Enters(graph, e.dst) {
            assert (n, e.dst) in Followed(graph);
            ReachesEdge(Followed(graph), n, e.dst);
            ReachesTrans(Followed(graph), graph.entry, n, e.dst);
          }
          Visit(e.dst);
        }
        i := i + 1;
      }
    }
  }

  method FindReachable(g: Graph) returns (reachable: set<Id>)
    ensures forall n :: n in reachable <==> Found(g, n)
  {
    var walk := new Reachability(g);
    if Enters(g, g.entry) { ReachesSelf(Followed(g), g.entry); }
    walk.Visit(g.entry);
    reachable := walk.reachable;
    forall n | Found(g, n) ensures n in reachable {
      ClosedContainsReach(Followed(g), reachable, g.entry, n);
    }
  }

  /** How many edges leave a node. */
  ghost function FanOut(edges: seq<FlowEdge>, n: Id): nat {
    if edges == [] then 0
    else FanOut(edges[..|edges| - 1], n) + if edges[|edges| - 1].src == n then 1 else 0
  }

  method CountFanOut(edges: seq<FlowEdge>, n: Id) returns (count: nat)
    ensures count == FanOut(edges, n)
  {
    count := 0;
    for i := 0 to |edges|
      invariant count == FanOut(edges[..i], n)
    {
      assert edges[..i + 1][..i] == edges[..i];
      if edges[i].src == n { count := count + 1; }
    }
    assert edges[..|edges|] == edges;
  }

  /** `validateWorkflowReachability` reports a node as unreachable exactly when the walk does not find it. */
  method ValidateReachability(g: Graph) returns (issues: seq<Issue>)
    ensures StartFansOut in issues <==> FanOut(g.edges, g.entry) > 1 && g.entry == Id("start")
    ensures forall n :: Unreachable(n) in issues <==> n in g.nodes && !Found(g, n)
    ensures forall n, t :: MissingBranchTarget(n, t) in issues <==>
              n in g.nodes && g.nodes[n].kind == "condition" && t in g.nodes[n].branchTargets && t !in g.nodes
  {
    hide Found, FanOut;
    issues := [];
    var fanOut := CountFanOut(g.edges, g.entry);
    var fans := fanOut > 1 && g.entry == Id("start");
    if fans {
      issues := [StartFansOut];
    }
    var reachable := FindReachable(g);
    var remaining := g.nodes.Keys;
    while remaining != {}
      invariant remaining <= g.nodes.Keys
      invariant StartFansOut in issues <==> fans
      invariant forall n :: Unreachable(n) in issues <==> n in g.nodes && n !in remaining && !Found(g, n)
      invariant forall n, t :: MissingBranchTarget(n, t) in issues <==>
                  n in g.nodes && n !in remaining
                  && g.nodes[n].kind == "condition" && t in g.nodes[n].branchTargets && t !in g.nodes
      decreases remaining
    {
      var n :| n in remaining;
      remaining := remaining - {n};
      if n !in reachable {
        issues := issues + [Unreachable(n)];
      }
      if g.nodes[n].kind == "condition" {
        var missing := MissingTargets(g, n);
        issues := issues + missing;
      }
    }
  }

  method MissingTargets(g: Graph, n: Id) returns (issues: seq<Issue>)
    requires n in g.nodes
    ensures forall issue :: issue in issues <==>
              issue.MissingBranchTarget? && issue.node == n
              && issue.target in g.nodes[n].branchTargets && issue.target !in g.nodes
  {
    issues := [];
    var targets := g.nodes[n].branchTargets;
    for i := 0 to |targets|
      invariant forall issue :: issue in issues <==>
                  issue.MissingBranchTarget? && issue.node == n && issue.target in targets[..i] && issue.target !in g.nodes
    {
      assert targets[..i + 1] == targets[..i] + [targets[i]];
      if targets[i] !in g.nodes {
        issues := issues + [MissingBranchTarget(n, targets[i])];
      }
    }
    assert targets[..|targets|] == targets;
  }

  /** On a validated graph the walk finds what the plain edges reach. */
  lemma FoundIsReachable(g: Graph, n: Id)
    requires ValidGraph(g)
    ensures Found(g, n) <==> Reaches(Arrows(g), g.entry, n)
  {
    forall e | e in Arrows(g) ensures e in Followed(g) {
      var edge :| edge in g.edges && e == (edge.src, edge.dst);
      assert Connected(g, edge);
    }
    assert Followed(g) == Arrows(g);
  }
}
