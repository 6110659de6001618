/**
 The recursive agent graph: how the persisted graph is compiled, checked for cycles, and
 measured for depth before anything runs.
 */
module AgentGraph {
  import opened Text
  import opened Graphs
  import opened Sequences
  import Cycles = CycleSearch

  const HARD_MAX_DEPTH := 16
  const DEFAULT_MAX_DEPTH := 4
  const DEFAULT_MAX_SUB_AGENT_CALLS := 5

  datatype AgentNode = AgentNode(isAgent: bool, isExisting: bool)

  datatype AgentFlow = AgentFlow(entry: Id, nodes: map<Id, AgentNode>, edges: seq<Edge>)

  function Entry(g: AgentFlow): Id {
    if TrimSpace(g.entry.name) == "" then Id("start") else g.entry
  }

  /** `runtimeSupervisorNodeID`: where the first edge out of the entry leads. */
  function Root(g: AgentFlow): Option<Id> {
    var first := Outgoing(g.edges, Entry(g));
    if first == [] then None else Some(first[0])
  }

  /** The root is where the first edge leads that leaves the entry, which is "start" unless the graph names one. */
  lemma RootExactly(g: AgentFlow, r: Id)
    ensures var entry := if TrimSpace(g.entry.name) != "" then g.entry else Id("start");
            Root(g) == Some(r) <==> exists k :: 0 <= k < |g.edges| && g.edges[k] == Edge(entry, r)
                                                && forall j :: 0 <= j < k ==> g.edges[j].src != entry
  {
    var entry, out := Entry(g), Outgoing(g.edges, Entry(g));
    var gives := (e: Edge, t: Id) => e.src == entry && e.dst == t;
    OutgoingInOrder(g.edges, entry);
    var picks :| GivenAt(g.edges, out, gives, picks);
    forall j | 0 <= j < |g.edges| && g.edges[j].src == entry ensures j in picks {
      assert gives(g.edges[j], g.edges[j].dst);
    }
    if out != [] {
      var k := picks[0];
      assert gives(g.edges[k], out[0]);
      assert forall i :: 0 <= i < |picks| ==> k <= picks[i];
    }
  }

  /** The edges the depth is measured along: all but those out of the entry. */
  function Inner(g: AgentFlow, edges: seq<Edge>): seq<Edge> {
    if edges == [] then []
    else
      var front, e := Inner(g, edges[..|edges| - 1]), edges[|edges| - 1];
      if e.src == Entry(g) then front else front + [e]
  }

  predicate JoinsNodes(g: AgentFlow, e: Edge) {
    e.src != Entry(g) && e.src in g.nodes && e.dst in g.nodes
  }

  /** The edges of the compiled graph: those that join two existing nodes. */
  function AgentEdges(g: AgentFlow, edges: seq<Edge>): seq<Edge> {
    if edges == [] then []
    else
      var front, e := AgentEdges(g, edges[..|edges| - 1]), edges[|edges| - 1];
      if JoinsNodes(g, e) then front + [e] else front
  }

  /** The compiled edges are those between two nodes other than out of the entry, in order; the depth counts dangling ones too. */
  lemma {:induction false} CompiledEdgesInOrder(g: AgentFlow, edges: seq<Edge>)
    ensures GivenBy(edges, AgentEdges(g, edges), (e: Edge, f: Edge) =>
                      e == f && e.src != Entry(g) && e.src in g.nodes && e.dst in g.nodes)
    ensures GivenBy(edges, Inner(g, edges), (e: Edge, f: Edge) => e == f && e.src != Entry(g))
  {
    var joins := (e: Edge, f: Edge) => e == f && e.src != Entry(g) && e.src in g.nodes && e.dst in g.nodes;
    var stays := (e: Edge, f: Edge) => e == f && e.src != Entry(g);
    if edges == [] {
      NothingGiven(joins);
      NothingGiven(stays);
    } else {
      var front, e := edges[..|edges| - 1], edges[|edges| - 1];
      CompiledEdgesInOrder(g, front);
      assert edges == front + [e];
      if joins(e, e) {
        OneMoreGiven(front, AgentEdges(g, front), joins, e, e);
      } else {
        NoneMoreGiven(front, AgentEdges(g, front), joins, e);
      }
      if stays(e, e) {
        OneMoreGiven(front, Inner(g, front), stays, e, e);
      } else {
        NoneMoreGiven(front, Inner(g, front), stays, e);
      }
    }
  }

  predicate AgentToAgent(g: AgentFlow, e: Edge) {
    JoinsNodes(g, e) ==> g.nodes[e.src].isAgent && g.nodes[e.dst].isAgent
  }

  lemma {:induction false} AgentEdgesAreInner(g: AgentFlow, edges: seq<Edge>)
    ensures forall e :: e in AgentEdges(g, edges) <==> e in edges && JoinsNodes(g, e)
    ensures forall e :: e in Inner(g, edges) <==> e in edges && e.src != Entry(g)
  {
    if edges != [] {
      assert edges == edges[..|edges| - 1] + [edges[|edges| - 1]];
      AgentEdgesAreInner(g, edges[..|edges| - 1]);
    }
  }

  // ---------- depth ----------

  ghost function Members(path: seq<Id>): set<Id> {
    set k | k in path
  }

  ghost function DepthVia(edges: seq<Edge>, n: Id, visiting: set<Id>, universe: set<Id>): nat
    requires n in universe && Endpoints(RelOf(edges)) <= universe
    decreases universe - visiting, 1, 0
  {
    if n in visiting then HARD_MAX_DEPTH + 1
    else
      OutgoingInUniverse(edges, n, universe);
      DeepestOf(edges, Outgoing(edges, n), visiting + {n}, universe)
  }

  ghost function DeepestOf(edges: seq<Edge>, ids: seq<Id>, visiting: set<Id>, universe: set<Id>): nat
    requires Endpoints(RelOf(edges)) <= universe
    requires forall t :: t in ids ==> t in universe
    decreases universe - visiting, 2, |ids|
  {
    if ids == [] then 0
    else
      var front := DeepestOf(edges, ids[..|ids| - 1], visiting, universe);
      var last := 1 + DepthVia(edges, ids[|ids| - 1], visiting, universe);
      if last > front then last else front
  }

  lemma OutgoingInUniverse(edges: seq<Edge>, n: Id, universe: set<Id>)
    requires Endpoints(RelOf(edges)) <= universe
    ensures forall t :: t in Outgoing(edges, n) ==> t in universe && (n, t) in RelOf(edges)
  {
    forall t | t in Outgoing(edges, n) ensures t in universe && (n, t) in RelOf(edges) {
      OutgoingIsEdge(edges, n, t);
      assert (n, t) in RelOf(edges);
    }
  }

  class DepthSearch {
    const edges: seq<Edge>
    var visiting: set<Id>

    constructor (edges: seq<Edge>)
      ensures this.edges == edges && visiting == {}
    {
      this.edges, visiting := edges, {};
    }

    /** The recursive closure of `runtimeAgentGraphDepth`; the set is restored on return. */
    method Depth(n: Id, ghost universe: set<Id>) returns (d: nat)
      requires n in universe && Endpoints(RelOf(edges)) <= universe
      modifies this
      ensures visiting == old(visiting)
      ensures d == DepthVia(edges, n, old(visiting), universe)
      decreases universe - visiting
    {
      if n in visiting { return HARD_MAX_DEPTH + 1; }
      ghost var above := visiting;
      visiting := visiting + {n};
      d := 0;
      var children := Outgoing(edges, n);
      OutgoingInUniverse(edges, n, universe);
      for i := 0 to |children|
        invariant visiting == above + {n}
        invariant d == DeepestOf(edges, children[..i], above + {n}, universe)
      {
        assert children[..i + 1][..i] == children[..i];
        var child := Depth(children[i], universe);
        if 1 + child > d { d := 1 + child; }
      }
      assert children[..|children|] == children;
      visiting := visiting - {n};
    }
  }

  lemma {:induction false} DeepestBounds(edges: seq<Edge>, ids: seq<Id>, visiting: set<Id>, universe: set<Id>, t: Id)
    requires Endpoints(RelOf(edges)) <= universe
    requires (forall s :: s in ids ==> s in universe) && t in ids
    ensures DeepestOf(edges, ids, visiting, universe) >= 1 + DepthVia(edges, t, visiting, universe)
    decreases |ids|
  {
    assert ids == ids[..|ids| - 1] + [ids[|ids| - 1]];
    if t != ids[|ids| - 1] { DeepestBounds(edges, ids[..|ids| - 1], visiting, universe, t); }
  }

  lemma {:induction false} DeepestIsReached(edges: seq<Edge>, ids: seq<Id>, visiting: set<Id>, universe: set<Id>)
    returns (t: Id)
    requires Endpoints(RelOf(edges)) <= universe
    requires (forall s :: s in ids ==> s in universe) && ids != []
    ensures t in ids && DeepestOf(edges, ids, visiting, universe) == 1 + DepthVia(edges, t, visiting, universe)
    decreases |ids|
  {
    var front := ids[..|ids| - 1];
    t := ids[|ids| - 1];
    if DeepestOf(edges, front, visiting, universe) >= 1 + DepthVia(edges, t, visiting, universe) {
      t := DeepestIsReached(edges, front, visiting, universe);
    }
  }

  /** A walk whose last node has been visited before makes the measured depth exceed the hard limit. */
  lemma {:induction false} RepeatExceedsLimit(edges: seq<Edge>, w: seq<Id>, visiting: set<Id>, universe: set<Id>)
    requires Endpoints(RelOf(edges)) <= universe && Walk(RelOf(edges), w) && w[0] in universe
    requires w[|w| - 1] in visiting || w[|w| - 1] in w[..|w| - 1]
    ensures DepthVia(edges, w[0], visiting, universe) > HARD_MAX_DEPTH
    decreases |w|
  {
    if w[0] !in visiting {
      assert |w| > 1;
      var rest := w[1..];
      WalkUnfolds(RelOf(edges), w);
      OutgoingInUniverse(edges, w[0], universe);
      OutgoingIsEdge(edges, w[0], w[1]);
      assert Edge(w[0], w[1]) in edges;
      assert w[..|w| - 1] == [w[0]] + rest[..|rest| - 1];
      RepeatExceedsLimit(edges, rest, visiting + {w[0]}, universe);
      DeepestBounds(edges, Outgoing(edges, w[0]), visiting + {w[0]}, universe, w[1]);
    }
  }

  /** No walk from n is longer than the measured depth, as long as no cycle is in reach. */
  lemma {:induction false} DepthBoundsWalks(edges: seq<Edge>, root: Id, path: seq<Id>, w: seq<Id>, universe: set<Id>)
    requires Endpoints(RelOf(edges)) <= universe && Walk(RelOf(edges), w) && w[0] in universe
    requires Cycles.Trail(RelOf(edges), root, path, w[0]) && !Cycles.CycleFrom(RelOf(edges), {root})
    ensures |w| - 1 <= DepthVia(edges, w[0], Members(path), universe)
    decreases |w|
  {
    var r, visiting := RelOf(edges), Members(path);
    if w[0] in path {
      Cycles.TrailClosesCycle(r, root, path, w[0]);
    } else if |w| > 1 {
      WalkUnfolds(r, w);
      OutgoingInUniverse(edges, w[0], universe);
      OutgoingIsEdge(edges, w[0], w[1]);
      assert Edge(w[0], w[1]) in edges;
      Cycles.TrailGrows(r, root, path, w[0], w[1]);
      DepthBoundsWalks(edges, root, path + [w[0]], w[1..], universe);
      assert Members(path + [w[0]]) == visiting + {w[0]};
      DeepestBounds(edges, Outgoing(edges, w[0]), visiting + {w[0]}, universe, w[1]);
    }
  }

  /** Some walk from n is as long as the measured depth. */
  lemma {:induction false} DepthIsWalked(edges: seq<Edge>, root: Id, path: seq<Id>, n: Id, universe: set<Id>)
    returns (w: seq<Id>)
    requires Endpoints(RelOf(edges)) <= universe && n in universe
    requires Cycles.Trail(RelOf(edges), root, path, n) && !Cycles.CycleFrom(RelOf(edges), {root})
    ensures Walk(RelOf(edges), w) && w[0] == n && |w| - 1 == DepthVia(edges, n, Members(path), universe)
    decreases universe - Members(path)
  {
    var r, visiting := RelOf(edges), Members(path);
    if n in path {
      Cycles.TrailClosesCycle(r, root, path, n);
      w := [n];
    } else {
      OutgoingInUniverse(edges, n, universe);
      var out := Outgoing(edges, n);
      w := [n];
      if out != [] {
        var t := DeepestIsReached(edges, out, visiting + {n}, universe);
        Cycles.TrailGrows(r, root, path, n, t);
        assert Members(path + [n]) == visiting + {n};
        var rest := DepthIsWalked(edges, root, path + [n], t, universe);
        w := [n] + rest;
        WalkUnfolds(r, w);
      }
    }
  }

  /** `w` is a longest walk from the root, of `d` steps. */
  ghost predicate LongestWalk(r: Rel, root: Id, d: nat) {
    && (exists w :: Walk(r, w) && w[0] == root && |w| - 1 == d)
    && (forall w :: Walk(r, w) && w[0] == root ==> |w| - 1 <= d)
  }

  /** The measured depth is the length of the longest path when no cycle is in reach, and over the limit otherwise. */
  lemma DepthExactly(edges: seq<Edge>, root: Id, universe: set<Id>)
    requires root in universe && Endpoints(RelOf(edges)) <= universe
    ensures var d := DepthVia(edges, root, {}, universe);
            if Cycles.CycleFrom(RelOf(edges), {root}) then d > HARD_MAX_DEPTH
            else LongestWalk(RelOf(edges), root, d)
  {
    var r, d := RelOf(edges), DepthVia(edges, root, {}, universe);
    var none: seq<Id> := [];
    assert Members(none) == {};
    if Cycles.CycleFrom(r, {root}) {
      var s, p :| s in {root} && Cycles.CycleVia(r, s, p);
      var q :| WalkBetween(r, q, root, p[0]);
      var w := q + p[1..];
      forall i | 0 <= i < |w| - 1 ensures (w[i], w[i + 1]) in r {
        if i >= |q| - 1 { assert w[i] == p[i - (|q| - 1)] && w[i + 1] == p[i - (|q| - 1) + 1]; }
      }
      assert w[|q| - 1] == p[0] == w[|w| - 1] && w[|q| - 1] in w[..|w| - 1];
      RepeatExceedsLimit(edges, w, {}, universe);
    } else {
      var w := DepthIsWalked(edges, root, none, root, universe);
      forall v | Walk(r, v) && v[0] == root ensures |v| - 1 <= d {
        DepthBoundsWalks(edges, root, none, v, universe);
      }
    }
  }

  // ---------- compiling the graph ----------

  datatype BuildError =
    | ExistingNotLeaf(node: Id)
    | RootRequired | RootMissing | RootNotAgent
    | NotAgentToAgent(edge: Edge)
    | Cyclic | TooDeep

  /** The compiled graph: children are the targets of its edges, in edge order. */
  datatype RuntimeGraph = RuntimeGraph(root: Id, edges: seq<Edge>)

  ghost function Universe(g: AgentFlow, root: Id): set<Id> {
    Endpoints(RelOf(Inner(g, g.edges))) + {root}
  }

  /** The depth the runner measures. */
  ghost function GraphDepth(g: AgentFlow): nat {
    match Root(g)
    case None => 0
    case Some(root) => DepthVia(Inner(g, g.edges), root, {}, Universe(g, root))
  }

  ghost predicate Compiles(g: AgentFlow) {
    && Root(g).Some? && Root(g).value in g.nodes && g.nodes[Root(g).value].isAgent
    && (forall e :: e in g.edges && e.src != Entry(g) && e.src in g.nodes && e.dst in g.nodes ==>
          g.nodes[e.src].isAgent && g.nodes[e.dst].isAgent)
    && !Cycles.CycleFrom(RelOf(AgentEdges(g, g.edges)), {Root(g).value})
    && GraphDepth(g) <= 16
  }

  ghost function Compiled(g: AgentFlow): RuntimeGraph
    requires Root(g).Some?
  {
    RuntimeGraph(Root(g).value, AgentEdges(g, g.edges))
  }

  method RuntimeAgentGraphDepth(g: AgentFlow) returns (d: nat)
    ensures d == GraphDepth(g)
  {
    var root := Root(g);
    if root.None? { return 0; }
    var search := new DepthSearch(Inner(g, g.edges));
    d := search.Depth(root.value, Universe(g, root.value));
  }

  /** What is wrong with a graph that is refused with this error. */
  ghost predicate Explains(err: BuildError, g: AgentFlow) {
    match err
    case RootRequired => Root(g).None?
    case RootMissing => Root(g).Some? && Root(g).value !in g.nodes
    case RootNotAgent => Root(g).Some? && Root(g).value in g.nodes && !g.nodes[Root(g).value].isAgent
    case NotAgentToAgent(e) =>
      && e in g.edges && e.src != Entry(g) && e.src in g.nodes && e.dst in g.nodes
      && !(g.nodes[e.src].isAgent && g.nodes[e.dst].isAgent)
    case Cyclic => Root(g).Some? && Cycles.CycleFrom(RelOf(AgentEdges(g, g.edges)), {Root(g).value})
    case TooDeep => GraphDepth(g) > 16
    case ExistingNotLeaf(n) => n in g.nodes && g.nodes[n].isExisting && exists e :: e in g.edges && e.src == n
  }

  /** `buildRuntimeAgentGraph` */
  method BuildRuntimeAgentGraph(g: AgentFlow) returns (err: Option<BuildError>, compiled: RuntimeGraph)
    ensures err.None? <==> Compiles(g)
    ensures err.None? ==> compiled == Compiled(g)
    ensures err.Some? ==> Explains(err.value, g)
  {
    var root := Root(g);
    compiled := RuntimeGraph(Id(""), []);
    if root.None? { return Some(RootRequired), compiled; }
    if root.value !in g.nodes { return Some(RootMissing), compiled; }
    if !g.nodes[root.value].isAgent { return Some(RootNotAgent), compiled; }
    for i := 0 to |g.edges|
      invariant forall j :: 0 <= j < i ==> AgentToAgent(g, g.edges[j])
    {
      if !AgentToAgent(g, g.edges[i]) {
        assert g.edges[i] in g.edges;
        return Some(NotAgentToAgent(g.edges[i])), compiled;
      }
    }
    var search := new Cycles.Search(AgentEdges(g, g.edges));
    var cyclic := search.VisitAll({root.value});
    if cyclic { return Some(Cyclic), compiled; }
    var depth := RuntimeAgentGraphDepth(g);
    if depth > HARD_MAX_DEPTH { return Some(TooDeep), compiled; }
    return None, RuntimeGraph(root.value, AgentEdges(g, g.edges));
  }

  /** `validateRuntimeAgentGraph`: moreover, agents that exist elsewhere must be leaves. */
  method ValidateRuntimeAgentGraph(g: AgentFlow) returns (err: Option<BuildError>)
    ensures err.None? <==> Compiles(g) && forall e :: e in g.edges && e.src in g.nodes ==> !g.nodes[e.src].isExisting
    ensures err.Some? ==> Explains(err.value, g)
  {
    for i := 0 to |g.edges|
      invariant forall j :: 0 <= j < i && g.edges[j].src in g.nodes ==> !g.nodes[g.edges[j].src].isExisting
    {
      assert g.edges[i] in g.edges;
      if g.edges[i].src in g.nodes && g.nodes[g.edges[i].src].isExisting {
        return Some(ExistingNotLeaf(g.edges[i].src));
      }
    }
    var built, _ := BuildRuntimeAgentGraph(g);
    err := built;
  }

  /** Every walk of a compiled graph from its root is within the measured depth. */
  lemma CompiledWalksFit(g: AgentFlow, w: seq<Id>)
    requires Compiles(g) && Walk(RelOf(Compiled(g).edges), w) && w[0] == Compiled(g).root
    ensures |w| - 1 <= GraphDepth(g)
  {
    var root, inner := Compiled(g).root, Inner(g, g.edges);
    DepthExactly(inner, root, Universe(g, root));
    AgentEdgesAreInner(g, g.edges);
    forall i | 0 <= i < |w| - 1 ensures (w[i], w[i + 1]) in RelOf(inner) {
      assert Edge(w[i], w[i + 1]) in AgentEdges(g, g.edges);
    }
  }

  // ---------- configuration ----------

  datatype SupervisorConfig = SupervisorConfig(agentId: string, maxDepth: int, maxSubAgentCalls: int)

  /** `normalizedSupervisorConfig`: defaults, and a depth limit the graph fits into. */
  method NormalizeConfig(g: AgentFlow, config: SupervisorConfig) returns (result: SupervisorConfig)
    ensures var asked := if config.maxDepth == 0 then 4 else config.maxDepth;
            result.maxDepth == if GraphDepth(g) > asked then GraphDepth(g) else asked
    ensures result.maxSubAgentCalls == if config.maxSubAgentCalls == 0 then 5 else config.maxSubAgentCalls
    ensures result.agentId == config.agentId
  {
    result := config;
    if result.maxDepth == 0 { result := result.(maxDepth := DEFAULT_MAX_DEPTH); }
    var depth := RuntimeAgentGraphDepth(g);
    if depth > result.maxDepth { result := result.(maxDepth := depth); }
    if result.maxSubAgentCalls == 0 { result := result.(maxSubAgentCalls := DEFAULT_MAX_SUB_AGENT_CALLS); }
  }

  datatype ConfigError = SupervisorRequired | DepthNegative | DepthOverLimit

  function ValidateConfig(config: SupervisorConfig): Option<ConfigError> {
    if TrimSpace(config.agentId) == "" then Some(SupervisorRequired)
    else if config.maxDepth < 0 then Some(DepthNegative)
    else if config.maxDepth > HARD_MAX_DEPTH then Some(DepthOverLimit)
    else None
  }
}
