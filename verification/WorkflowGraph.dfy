/** Workflow graphs: what the validator accepts, and which next nodes a finished node selects. */
module WorkflowGraphs {
  import opened Text
  import opened Graphs
  import opened RunContexts
  import opened Sequences
  import Cycles = CycleSearch

  datatype FlowEdge = FlowEdge(src: Id, dst: Id, condition: Option<Condition>)

  datatype FlowNode = FlowNode(id: Id, kind: string, branchTargets: seq<Id>)

  datatype Graph = Graph(entry: Id, nodes: map<Id, FlowNode>, edges: seq<FlowEdge>)

  ghost function Arrows(g: Graph): Rel {
    set e | e in g.edges :: (e.src, e.dst)
  }

  /** `ID.Empty` */
  predicate Blank(n: Id) { TrimSpace(n.name) == "" }

  ghost predicate WellNamed(g: Graph) {
    forall n :: n in g.nodes ==> TrimSpace(n.name) != "" && g.nodes[n].id == n && g.nodes[n].kind != ""
  }

  ghost predicate Connected(g: Graph, e: FlowEdge) {
    TrimSpace(e.src.name) != "" && TrimSpace(e.dst.name) != "" && e.src in g.nodes && e.dst in g.nodes
  }

  ghost predicate ValidGraph(g: Graph) {
    && TrimSpace(g.entry.name) != "" && g.nodes != map[] && g.entry in g.nodes
    && WellNamed(g)
    && (forall e :: e in g.edges ==> Connected(g, e))
    && Acyclic(Arrows(g))
  }

  datatype GraphError =
    | EntryRequired | NodesRequired | EntryMissing
    | NodeIdRequired | KeyMismatch | TypeRequired
    | EndpointsRequired | FromMissing | ToMissing
    | Cyclic

  /** What is wrong with a graph that is refused with this error. */
  ghost predicate Explains(err: GraphError, g: Graph) {
    match err
    case EntryRequired => TrimSpace(g.entry.name) == ""
    case NodesRequired => g.nodes == map[]
    case EntryMissing => g.entry !in g.nodes
    case NodeIdRequired => exists n :: n in g.nodes && TrimSpace(g.nodes[n].id.name) == ""
    case KeyMismatch => exists n :: n in g.nodes && g.nodes[n].id != n
    case TypeRequired => exists n :: n in g.nodes && g.nodes[n].kind == ""
    case EndpointsRequired => exists e :: e in g.edges && (TrimSpace(e.src.name) == "" || TrimSpace(e.dst.name) == "")
    case FromMissing => exists e :: e in g.edges && e.src !in g.nodes
    case ToMissing => exists e :: e in g.edges && e.dst !in g.nodes
    case Cyclic => !Acyclic(Arrows(g))
  }

  method CheckNodes(g: Graph) returns (err: Option<GraphError>)
    ensures err.None? <==> WellNamed(g)
    ensures err.Some? ==> Explains(err.value, g)
  {
    var remaining := g.nodes.Keys;
    while remaining != {}
      invariant remaining <= g.nodes.Keys
      invariant forall n :: n in g.nodes && n !in remaining ==>
                  TrimSpace(n.name) != "" && g.nodes[n].id == n && g.nodes[n].kind != ""
      decreases remaining
    {
      var n :| n in remaining;
      var node := g.nodes[n];
      if Blank(node.id) { return Some(NodeIdRequired); }
      if n != node.id { return Some(KeyMismatch); }
      if node.kind == "" { return Some(TypeRequired); }
      remaining := remaining - {n};
    }
    return None;
  }

  method CheckEdges(g: Graph) returns (err: Option<GraphError>)
    ensures err.None? <==> forall e :: e in g.edges ==> Connected(g, e)
    ensures err.Some? ==> Explains(err.value, g)
  {
    for i := 0 to |g.edges|
      invariant forall j :: 0 <= j < i ==> Connected(g, g.edges[j])
    {
      var e := g.edges[i];
      assert e in g.edges;
      if Blank(e.src) || Blank(e.dst) { return Some(EndpointsRequired); }
      if e.src !in g.nodes { return Some(FromMissing); }
      if e.dst !in g.nodes { return Some(ToMissing); }
    }
    return None;
  }

  /** `ValidateGraph` accepts exactly the valid graphs, and says of another one something that is wrong with it. */
  method ValidateGraph(g: Graph) returns (err: Option<GraphError>)
    ensures err.None? <==> ValidGraph(g)
    ensures err.Some? ==> Explains(err.value, g)
  {
    if Blank(g.entry) { return Some(EntryRequired); }
    if g.nodes == map[] { return Some(NodesRequired); }
    if g.entry !in g.nodes { return Some(EntryMissing); }
    err := CheckNodes(g);
    if err.Some? { return; }
    err := CheckEdges(g);
    if err.Some? { return; }
    var plain := seq(|g.edges|, i requires 0 <= i < |g.edges| => Edge(g.edges[i].src, g.edges[i].dst));
    PlainEdgesAreArrows(g, plain);
    var cyclic, _ := Cycles.HasCycle(g.nodes.Keys, plain);
    if cyclic { return Some(Cyclic); }
    return None;
  }

  lemma PlainEdgesAreArrows(g: Graph, plain: seq<Edge>)
    requires |plain| == |g.edges|
    requires forall i :: 0 <= i < |plain| ==> plain[i] == Edge(g.edges[i].src, g.edges[i].dst)
    ensures RelOf(plain) == Arrows(g)
  {
  }

  // ---------- routing ----------

  datatype Routing = Next(ids: seq<Id>) | NotConnected(id: Id)

  /** The evaluator of edge conditions: `RunContexts.EdgeMatches` for the rendering at hand. */
  type Matcher = (Condition, Snapshot) -> bool

  /** The targets of the matching edges out of a node, in edge order. */
  function MatchingTargets(edges: seq<FlowEdge>, n: Id, s: Snapshot, matches: Matcher): seq<Id> {
    if edges == [] then []
    else
      var rest := MatchingTargets(edges[..|edges| - 1], n, s, matches);
      var e := edges[|edges| - 1];
      if e.src == n && (e.condition.None? || matches(e.condition.value, s)) then rest + [e.dst] else rest
  }

  /** The id is the first one that no edge leads to. */
  ghost predicate FirstUnconnected(g: Graph, n: Id, ids: seq<Id>, t: Id) {
    exists k :: 0 <= k < |ids| && ids[k] == t && (n, t) !in Arrows(g) && forall j :: 0 <= j < k ==> (n, ids[j]) in Arrows(g)
  }

  /** What `nextNodes` must answer. */
  ghost predicate Routes(g: Graph, n: Id, result: NodeResult, s: Snapshot, matches: Matcher, r: Routing) {
    if result.stop then r == Next([])
    else match result.next
      case Some(ids) =>
        (match r
         case Next(chosen) => chosen == ids && forall t :: t in ids ==> (n, t) in Arrows(g)
         case NotConnected(t) => FirstUnconnected(g, n, ids, t))
      case None => r == Next(MatchingTargets(g.edges, n, s, matches))
  }

  method NextNodes(g: Graph, n: Id, result: NodeResult, s: Snapshot, matches: Matcher) returns (r: Routing)
    ensures Routes(g, n, result, s, matches, r)
  {
    if result.stop { return Next([]); }
    if result.next.Some? {
      var allowed := OutgoingTargets(g, n);
      var ids, next := result.next.value, [];
      for i := 0 to |ids|
        invariant next == ids[..i]
        invariant forall t :: t in next ==> (n, t) in Arrows(g)
      {
        if ids[i] !in allowed {
          assert forall j :: 0 <= j < i ==> ids[j] in next;
          assert FirstUnconnected(g, n, ids, ids[i]);
          return NotConnected(ids[i]);
        }
        next := next + [ids[i]];
      }
      return Next(next);
    }
    var next := [];
    for i := 0 to |g.edges|
      invariant next == MatchingTargets(g.edges[..i], n, s, matches)
    {
      var e := g.edges[i];
      assert g.edges[..i + 1][..i] == g.edges[..i];
      if e.src == n && (e.condition.None? || matches(e.condition.value, s)) {
        next := next + [e.dst];
      }
    }
    assert g.edges[..|g.edges|] == g.edges;
    return Next(next);
  }

  method OutgoingTargets(g: Graph, n: Id) returns (targets: set<Id>)
    ensures forall t :: t in targets <==> (n, t) in Arrows(g)
  {
    targets := {};
    for i := 0 to |g.edges|
      invariant forall t :: t in targets <==> exists j :: 0 <= j < i && g.edges[j].src == n && g.edges[j].dst == t
    {
      if g.edges[i].src == n {
        targets := targets + {g.edges[i].dst};
      }
    }
  }

  /** Matching targets are targets of edges; without conditions they are all of them. */
  lemma {:induction false} MatchingTargetsAre(edges: seq<FlowEdge>, n: Id, s: Snapshot, matches: Matcher)
    ensures forall t :: t in MatchingTargets(edges, n, s, matches) <==>
              exists e :: e in edges && e.src == n && e.dst == t && (e.condition.None? || matches(e.condition.value, s))
  {
    if edges != [] {
      var front, last := edges[..|edges| - 1], edges[|edges| - 1];
      assert edges == front + [last];
      MatchingTargetsAre(front, n, s, matches);
    }
  }

  /** They are the targets of the matching edges, in edge order, as often as these are listed. */
  lemma {:induction false} MatchingTargetsInOrder(edges: seq<FlowEdge>, n: Id, s: Snapshot, matches: Matcher)
    ensures GivenBy(edges, MatchingTargets(edges, n, s, matches), (e: FlowEdge, t: Id) =>
                      e.src == n && e.dst == t && (e.condition.None? || matches(e.condition.value, s)))
  {
    var gives := (e: FlowEdge, t: Id) => e.src == n && e.dst == t && (e.condition.None? || matches(e.condition.value, s));
    if edges == [] {
      NothingGiven(gives);
    } else {
      var front, e := edges[..|edges| - 1], edges[|edges| - 1];
      MatchingTargetsInOrder(front, n, s, matches);
      assert edges == front + [e];
      if gives(e, e.dst) {
        OneMoreGiven(front, MatchingTargets(front, n, s, matches), gives, e, e.dst);
      } else {
        NoneMoreGiven(front, MatchingTargets(front, n, s, matches), gives, e);
      }
    }
  }

  lemma RoutesAlongEdges(g: Graph, n: Id, result: NodeResult, s: Snapshot, matches: Matcher, r: Routing)
    requires Routes(g, n, result, s, matches, r) && r.Next?
    ensures forall t :: t in r.ids ==> (n, t) in Arrows(g)
  {
    MatchingTargetsAre(g.edges, n, s, matches);
  }
}
