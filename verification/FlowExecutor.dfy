/**
 The stateless flow executor: a queue seeded with the source nodes, each node executed at
 most once, its selected successors appended to the queue.
 */
module FlowExecutor {
  import opened Text
  import opened Graphs
  import opened Sequences
  import opened TokenModel
  import Safety = TokenSafety
  import Potential = TokenPotential

  datatype FlowError =
    | InvalidSpec
    | NoSource
    | LimitExceeded
    | UnknownNode(node: Id)
    | InputFailed(node: Id)
    | ExecutionFailed(node: Id)

  type JsonObject = Safety.JsonObject

  // ---------- validation ----------

  method CheckNodes(spec: FlowSpec, p: Plugins) returns (ok: bool)
    ensures ok <==>
      && (forall i :: 0 <= i < |spec.nodes| ==>
            spec.nodes[i].id != NO_NODE && p.registered(spec.nodes[i].kind) && p.validates(spec.nodes[i]))
      && (forall i, j :: 0 <= i < j < |spec.nodes| ==> spec.nodes[i].id != spec.nodes[j].id)
  {
    var seen: set<Id> := {};
    for k := 0 to |spec.nodes|
      invariant forall i :: 0 <= i < k ==>
        spec.nodes[i].id != NO_NODE && p.registered(spec.nodes[i].kind) && p.validates(spec.nodes[i])
      invariant forall i, j :: 0 <= i < j < k ==> spec.nodes[i].id != spec.nodes[j].id
      invariant seen == set i | 0 <= i < k :: spec.nodes[i].id
    {
      var node := spec.nodes[k];
      if node.id == NO_NODE { return false; }
      if node.id in seen { return false; }
      seen := seen + {node.id};
      if !p.registered(node.kind) || !p.validates(node) { return false; }
    }
    return true;
  }

  method CheckEdges(spec: FlowSpec, p: Plugins) returns (ok: bool)
    ensures ok <==> forall e :: e in spec.edges ==> HasNode(spec, e.src) && HasNode(spec, e.dst)
  {
    var seen := set i | 0 <= i < |spec.nodes| :: spec.nodes[i].id;
    assert forall n :: n in seen <==> HasNode(spec, n);
    for k := 0 to |spec.edges|
      invariant forall j :: 0 <= j < k ==> HasNode(spec, spec.edges[j].src) && HasNode(spec, spec.edges[j].dst)
    {
      assert spec.edges[k] in spec.edges;
      if spec.edges[k].src !in seen || spec.edges[k].dst !in seen { return false; }
    }
    return true;
  }

  method Validate(spec: FlowSpec, p: Plugins) returns (valid: bool)
    ensures valid <==> ValidSpec(spec, p)
  {
    if spec.id == "" { return false; }
    var nodes := CheckNodes(spec, p);
    var edges := CheckEdges(spec, p);
    return nodes && edges;
  }

  // ---------- the queue ----------

  type Picks = map<Id, seq<Id>>

  /** The successors that executed nodes selected. */
  ghost function Selected(picks: Picks): Rel {
    set n, t | n in picks && t in picks[n] :: (n, t)
  }

  ghost predicate FromSource(r: Rel, sources: seq<Id>, n: Id) {
    exists s :: s in sources && Reaches(r, s, n)
  }

  /** Executed and queued nodes have been led to; what an executed node selected is executed or queued. */
  ghost predicate Explored(sources: seq<Id>, picks: Picks, order: seq<Id>, queue: seq<Id>) {
    && Distinct(order) && (forall n :: n in order <==> n in picks)
    && (forall s :: s in sources ==> s in order || s in queue)
    && (forall n :: n in order || n in queue ==> FromSource(Selected(picks), sources, n))
    && (forall n, t :: n in picks && t in picks[n] ==> t in order || t in queue)
  }

  lemma ExploredAtStart(sources: seq<Id>)
    ensures Explored(sources, map[], [], sources)
  {
    forall n | n in sources ensures FromSource(Selected(map[]), sources, n) {
      ReachesSelf(Selected(map[]), n);
    }
  }

  lemma ExploredOrder(spec: FlowSpec, sources: seq<Id>, picks: Picks, order: seq<Id>, queue: seq<Id>)
    requires Explored(sources, picks, order, queue) && forall n :: n in order ==> HasNode(spec, n)
    ensures Distinct(order) && picks.Keys == (set n | n in order) && |order| <= |spec.nodes|
  {
    OrderFits(spec, order);
  }

  lemma NothingExecuted(spec: FlowSpec, p: Plugins, input: Data, configured: int)
    ensures Distinct<Id>([]) && 0 <= Limit(spec, configured) && FollowsPlugins(spec, p, [], map[], [input])
  {
  }

  lemma SkippingKeepsExplored(sources: seq<Id>, picks: Picks, order: seq<Id>, queue: seq<Id>)
    requires Explored(sources, picks, order, queue) && queue != [] && queue[0] in order
    ensures Explored(sources, picks, order, queue[1..])
  {
    assert queue == [queue[0]] + queue[1..];
    assert forall m :: m in queue <==> m == queue[0] || m in queue[1..];
    hide Selected, FromSource, Distinct;
  }

  lemma ExecutingKeepsExplored(sources: seq<Id>, picks: Picks, order: seq<Id>, queue: seq<Id>, next: seq<Id>)
    requires Explored(sources, picks, order, queue) && queue != [] && queue[0] !in order
    ensures Explored(sources, picks[queue[0] := next], order + [queue[0]], queue[1..] + next)
  {
    hide Reaches;
    var n := queue[0];
    var picks' := picks[n := next];
    assert queue == [n] + queue[1..];
    assert Selected(picks) <= Selected(picks');
    forall m | m in order + [n] || m in queue[1..] + next ensures FromSource(Selected(picks'), sources, m) {
      if m in order || m in queue {
        var s :| s in sources && Reaches(Selected(picks), s, m);
        ReachesMono(Selected(picks), Selected(picks'), s, m);
      } else {
        assert n in queue;
        var s :| s in sources && Reaches(Selected(picks), s, n);
        ReachesMono(Selected(picks), Selected(picks'), s, n);
        assert m in picks'[n];
        ReachesEdge(Selected(picks'), n, m);
        ReachesTrans(Selected(picks'), s, n, m);
      }
    }
  }

  /** With an empty queue, the executed nodes are exactly those the selections lead to from the sources. */
  lemma ExploredIsReachable(sources: seq<Id>, picks: Picks, order: seq<Id>, n: Id)
    requires Explored(sources, picks, order, [])
    ensures n in order <==> FromSource(Selected(picks), sources, n)
  {
    if FromSource(Selected(picks), sources, n) {
      var s :| s in sources && Reaches(Selected(picks), s, n);
      assert ClosedUnder(Selected(picks), picks.Keys);
      ClosedContainsReach(Selected(picks), picks.Keys, s, n);
    }
  }

  lemma OrderFits(spec: FlowSpec, order: seq<Id>)
    requires Distinct(order) && forall n :: n in order ==> HasNode(spec, n)
    ensures |order| <= |spec.nodes|
  {
    var ids := set i | 0 <= i < |spec.nodes| :: spec.nodes[i].id;
    forall i | 0 <= i < |order| ensures order[i] in ids { assert HasNode(spec, order[i]); }
    RepeatFreeFits(order, ids);
    NodeIdsFit(spec.nodes);
  }

  lemma {:induction false} NodeIdsFit(nodes: seq<NodeSpec>)
    ensures |set i | 0 <= i < |nodes| :: nodes[i].id| <= |nodes|
  {
    if nodes != [] {
      var k := |nodes| - 1;
      var front := nodes[..k];
      NodeIdsFit(front);
      var ids := set i | 0 <= i < |front| :: front[i].id;
      forall n | n in set i | 0 <= i < |nodes| :: nodes[i].id ensures n in ids + {nodes[k].id} {
        var i :| 0 <= i < |nodes| && nodes[i].id == n;
        if i < k { assert front[i].id == n; }
      }
      forall n | n in ids + {nodes[k].id} ensures n in set i | 0 <= i < |nodes| :: nodes[i].id {
        if n in ids { var i :| 0 <= i < |front| && front[i].id == n; assert nodes[i].id == n; }
      }
      assert (set i | 0 <= i < |nodes| :: nodes[i].id) == ids + {nodes[k].id};
    }
  }

  /** The most executions a run may make: the configured limit, or twice the number of nodes. */
  function Limit(spec: FlowSpec, configured: int): int {
    if configured <= 0 then |spec.nodes| * 2 else configured
  }

  // ---------- one node ----------

  /**
   Visit number v, of node n: its input was built, its executor returned, its writes were
   accepted and left this data, and it selected these successors, or all where it made no choice.
   */
  ghost predicate Visited(spec: FlowSpec, p: Plugins, v: nat, n: Id, before: Data, after: Data, next: seq<Id>) {
    var found := FindNode(spec.nodes, n);
    && found.Some? && p.buildInput(found.value, before).Some?
    && var told := p.execute(v, found.value, p.buildInput(found.value, before).value, before);
    && told.Returned? && p.applyWrites(found.value, told.output, told.data) == (after, true)
    && next == match told.next case Some(chosen) => chosen case None => Outgoing(spec.edges, n)
  }

  /** Visit number v fails: for want of the node or its input, or with what its executor or its writes leave. */
  ghost predicate FailedVisit(spec: FlowSpec, p: Plugins, v: nat, before: Data, err: FlowError, after: Data)
    requires !err.LimitExceeded? && !err.InvalidSpec? && !err.NoSource?
  {
    var found := FindNode(spec.nodes, err.node);
    match err
    case UnknownNode(_) => found.None? && after == before
    case InputFailed(_) => found.Some? && p.buildInput(found.value, before).None? && after == before
    case _ =>
      && found.Some? && p.buildInput(found.value, before).Some?
      && match p.execute(v, found.value, p.buildInput(found.value, before).value, before)
         case Threw(data) => after == data
         case Returned(output, _, data) => p.applyWrites(found.value, output, data) == (after, false)
  }

  /** The k-th executed node ran on the k-th data of the trail, left the next one and selected its picks. */
  ghost predicate FollowsPlugins(spec: FlowSpec, p: Plugins, order: seq<Id>, picks: Picks, trail: seq<Data>) {
    && |trail| == |order| + 1
    && forall k :: 0 <= k < |order| ==>
         order[k] in picks && Visited(spec, p, k, order[k], trail[k], trail[k + 1], picks[order[k]])
  }

  lemma VisitExtendsTrail(spec: FlowSpec, p: Plugins, order: seq<Id>, picks: Picks, trail: seq<Data>, n: Id, data: Data,
      next: seq<Id>)
    requires FollowsPlugins(spec, p, order, picks, trail) && n !in order
    requires Visited(spec, p, |order|, n, trail[|order|], data, next)
    ensures FollowsPlugins(spec, p, order + [n], picks[n := next], trail + [data])
  {
    hide Visited;
  }

  /** With static routing the selections of a run that follows its plugins are all the outgoing edges. */
  lemma StaticPicks(spec: FlowSpec, p: Plugins, order: seq<Id>, picks: Picks, trail: seq<Data>)
    requires FollowsPlugins(spec, p, order, picks, trail) && Potential.Static(spec, p)
    ensures forall n :: n in order ==> n in picks && picks[n] == Outgoing(spec.edges, n)
  {
    forall k | 0 <= k < |order| ensures picks[order[k]] == Outgoing(spec.edges, order[k]) {
      assert Visited(spec, p, k, order[k], trail[k], trail[k + 1], picks[order[k]]);
    }
  }

  // ---------- the run ----------

  /**
   `Execute`. The run ends on every valid spec, cyclic ones included; no node is executed
   twice; the default limit never stops a run. Every executed node ran on the data its
   predecessors in the order left, and selected what its plugins decided on that data; a
   run without error executes exactly the nodes those selections lead to from the
   sources and returns the data the last one left; a failing run returns the error and
   the data of the visit that failed.
   */
  method Execute(spec: FlowSpec, p: Plugins, input: Data, maxNodeExecutions: int)
    returns (err: Option<FlowError>, order: seq<Id>, data: Data, ghost picks: Picks, ghost trail: seq<Data>)
    ensures err == Some(InvalidSpec) <==> !ValidSpec(spec, p)
    ensures err == Some(NoSource) <==> ValidSpec(spec, p) && Sources(spec.nodes, spec.edges) == []
    ensures err == Some(LimitExceeded) ==> maxNodeExecutions > 0 && |order| >= maxNodeExecutions
    ensures Distinct(order) && forall n :: n in order ==> HasNode(spec, n)
    ensures |order| <= if maxNodeExecutions > 0 then maxNodeExecutions else 2 * |spec.nodes|
    ensures picks.Keys == set n | n in order
    ensures FollowsPlugins(spec, p, order, picks, trail) && trail[0] == input
    ensures err.None? || err.value.LimitExceeded? || err.value.InvalidSpec? || err.value.NoSource? ==>
              data == trail[|order|]
    ensures err.Some? && !err.value.LimitExceeded? && !err.value.InvalidSpec? && !err.value.NoSource? ==>
              && FromSource(Selected(picks), Sources(spec.nodes, spec.edges), err.value.node)
              && FailedVisit(spec, p, |order|, trail[|order|], err.value, data)
    ensures err.None? ==>
              forall n :: n in order <==> FromSource(Selected(picks), Sources(spec.nodes, spec.edges), n)
    ensures Potential.Static(spec, p) ==> forall n :: n in picks ==> picks[n] == Outgoing(spec.edges, n)
  {
    hide Explored, FollowsPlugins, Distinct, Selected, FromSource, Reaches, ValidSpec, Sources, Outgoing, FindNode,
      Limit, HasNode, Potential.Static;
    order, data, picks, trail := [], input, map[], [input];
    ghost var sources := Sources(spec.nodes, spec.edges);
    var queue := Sources(spec.nodes, spec.edges);
    NothingExecuted(spec, p, input, maxNodeExecutions);
    var valid := Validate(spec, p);
    if !valid { return Some(InvalidSpec), order, data, picks, trail; }
    if queue == [] { return Some(NoSource), order, data, picks, trail; }
    ExploredAtStart(sources);
    var limit := Limit(spec, maxNodeExecutions);
    LimitIsPositive(spec, maxNodeExecutions);
    while queue != []
      invariant Explored(sources, picks, order, queue)
      invariant forall n :: n in order ==> HasNode(spec, n)
      invariant |order| <= limit
      invariant FollowsPlugins(spec, p, order, picks, trail) && |trail| == |order| + 1
      invariant trail[0] == input && data == trail[|order|]
      decreases |spec.nodes| - |order|, |queue|
    {
      ExploredOrder(spec, sources, picks, order, queue);
      RunIsStatic(spec, p, order, picks, trail);
      if |order| >= limit { return Some(LimitExceeded), order, data, picks, trail; }
      var n := queue[0];
      if n in order {
        SkippingKeepsExplored(sources, picks, order, queue);
        queue := queue[1..];
        continue;
      }
      QueuedIsLedTo(sources, picks, order, queue);
      var found := FindNode(spec.nodes, n);
      if found.None? { return Some(UnknownNode(n)), order, data, picks, trail; }
      var node := found.value;
      FoundNodeIsANode(spec, n);
      var nodeInput := p.buildInput(node, data);
      if nodeInput.None? { return Some(InputFailed(n)), order, data, picks, trail; }
      var result := p.execute(|order|, node, nodeInput.value, data);
      data := result.data;
      if result.Threw? { return Some(ExecutionFailed(n)), order, data, picks, trail; }
      var (written, ok) := p.applyWrites(node, result.output, data);
      data := written;
      if !ok { return Some(ExecutionFailed(n)), order, data, picks, trail; }
      var next := if result.next.None? then Outgoing(spec.edges, n) else result.next.value;
      ExecutingKeepsExplored(sources, picks, order, queue, next);
      VisitExtendsTrail(spec, p, order, picks, trail, n, data, next);
      picks, trail := picks[n := next], trail + [data];
      order, queue := order + [n], queue[1..] + next;
      ExploredOrder(spec, sources, picks, order, queue);
    }
    ExploredOrder(spec, sources, picks, order, queue);
    RunIsStatic(spec, p, order, picks, trail);
    forall n ensures n in order <==> FromSource(Selected(picks), sources, n) {
      ExploredIsReachable(sources, picks, order, n);
    }
    err := None;
  }

  lemma RunIsStatic(spec: FlowSpec, p: Plugins, order: seq<Id>, picks: Picks, trail: seq<Data>)
    requires FollowsPlugins(spec, p, order, picks, trail) && picks.Keys == set n | n in order
    ensures Potential.Static(spec, p) ==> forall n :: n in picks ==> picks[n] == Outgoing(spec.edges, n)
  {
    if Potential.Static(spec, p) { StaticPicks(spec, p, order, picks, trail); }
  }

  lemma QueuedIsLedTo(sources: seq<Id>, picks: Picks, order: seq<Id>, queue: seq<Id>)
    requires Explored(sources, picks, order, queue) && queue != []
    ensures FromSource(Selected(picks), sources, queue[0])
  {
  }

  lemma LimitIsPositive(spec: FlowSpec, configured: int)
    requires Sources(spec.nodes, spec.edges) != []
    ensures Limit(spec, configured) > 0 && (configured > 0 ==> Limit(spec, configured) == configured)
    ensures configured <= 0 ==> Limit(spec, configured) > |spec.nodes|
  {
  }

  lemma FoundNodeIsANode(spec: FlowSpec, n: Id)
    requires FindNode(spec.nodes, n).Some?
    ensures HasNode(spec, n)
  {
    FoundAt(spec.nodes, n);
  }

  lemma {:induction false} FoundAt(nodes: seq<NodeSpec>, n: Id)
    requires FindNode(nodes, n).Some?
    ensures exists i :: 0 <= i < |nodes| && nodes[i].id == n
  {
    if nodes[|nodes| - 1].id != n {
      FoundAt(nodes[..|nodes| - 1], n);
      var i :| 0 <= i < |nodes| - 1 && nodes[..|nodes| - 1][i].id == n;
      assert nodes[i].id == n;
    }
  }

  // ---------- static routing ----------

  /** With static routing a successful run executes exactly the nodes the sources reach. */
  lemma StaticRunExecutesReachable(spec: FlowSpec, picks: Picks, order: seq<Id>, n: Id)
    requires forall m :: m in picks <==> m in order
    requires forall m :: m in picks ==> picks[m] == Outgoing(spec.edges, m)
    requires forall m :: m in order <==> FromSource(Selected(picks), Sources(spec.nodes, spec.edges), m)
    ensures n in order <==> FromSource(RelOf(spec.edges), Sources(spec.nodes, spec.edges), n)
  {
    var r, sources := RelOf(spec.edges), Sources(spec.nodes, spec.edges);
    forall e | e in Selected(picks) ensures e in r {
      OutgoingIsEdge(spec.edges, e.0, e.1);
    }
    if n in order {
      var s :| s in sources && Reaches(Selected(picks), s, n);
      ReachesMono(Selected(picks), r, s, n);
    }
    if FromSource(r, sources, n) {
      var s :| s in sources && Reaches(r, s, n);
      ReachesSelf(Selected(picks), s);
      forall e | e in r && e.0 in picks ensures e.1 in picks {
        OutgoingIsEdge(spec.edges, e.0, e.1);
        assert e in Selected(picks);
        var s' :| s' in sources && Reaches(Selected(picks), s', e.0);
        ReachesEdge(Selected(picks), e.0, e.1);
        ReachesTrans(Selected(picks), s', e.0, e.1);
      }
      ClosedContainsReach(r, picks.Keys, s, n);
    }
  }

  lemma {:induction false} SourceHasNoPredecessor(nodes: seq<NodeSpec>, edges: seq<Edge>, n: Id)
    ensures n in Sources(nodes, edges) <==>
              Incoming(edges, n) == [] && exists i :: 0 <= i < |nodes| && nodes[i].id == n
  {
    if nodes != [] {
      var k := |nodes| - 1;
      SourceHasNoPredecessor(nodes[..k], edges, n);
      if i :| 0 <= i < k && nodes[..k][i].id == n { assert nodes[i].id == n; }
      if i :| 0 <= i < |nodes| && nodes[i].id == n {
        if i < k { assert nodes[..k][i].id == n; }
      }
    }
  }

  /** In an acyclic spec every node is reachable from a source, so a static run executes them all. */
  lemma AcyclicSpecIsReachable(spec: FlowSpec, p: Plugins, n: Id)
    requires ValidSpec(spec, p) && Acyclic(RelOf(spec.edges)) && HasNode(spec, n)
    ensures FromSource(RelOf(spec.edges), Sources(spec.nodes, spec.edges), n)
  {
    var r := RelOf(spec.edges);
    var ids := set i | 0 <= i < |spec.nodes| :: spec.nodes[i].id;
    var above := set m | m in ids && Reaches(r, m, n);
    ReachesSelf(r, n);
    assert n in above;
    var s := AcyclicHasSource(r, above);
    SourceHasNoPredecessor(spec.nodes, spec.edges, s);
    if Incoming(spec.edges, s) != [] {
      PredecessorIsAbove(spec, p, above, s, n, Incoming(spec.edges, s)[0]);
    }
  }

  lemma PredecessorIsAbove(spec: FlowSpec, p: Plugins, above: set<Id>, s: Id, n: Id, m: Id)
    requires ValidSpec(spec, p) && m in Incoming(spec.edges, s) && Reaches(RelOf(spec.edges), s, n)
    requires forall k :: HasNode(spec, k) && Reaches(RelOf(spec.edges), k, n) ==> k in above
    ensures m in above && (m, s) in RelOf(spec.edges)
  {
    var r := RelOf(spec.edges);
    Safety.IncomingIsEdge(spec.edges, s, m);
    assert HasNode(spec, Edge(m, s).src);
    ReachesEdge(r, m, s);
    ReachesTrans(r, m, s, n);
  }

  /** On an acyclic spec a successful static run executes every node, once. */
  lemma AcyclicStaticRunExecutesAll(spec: FlowSpec, p: Plugins, picks: Picks, order: seq<Id>, n: Id)
    requires ValidSpec(spec, p) && Acyclic(RelOf(spec.edges))
    requires forall m :: m in order ==> HasNode(spec, m)
    requires forall m :: m in picks <==> m in order
    requires forall m :: m in picks ==> picks[m] == Outgoing(spec.edges, m)
    requires forall m :: m in order <==> FromSource(Selected(picks), Sources(spec.nodes, spec.edges), m)
    ensures n in order <==> HasNode(spec, n)
  {
    StaticRunExecutesReachable(spec, picks, order, n);
    if HasNode(spec, n) { AcyclicSpecIsReachable(spec, p, n); }
  }
}
