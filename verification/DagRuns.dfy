/** Whole runs of the workflow executor on graphs of interest. */
module DagRuns {
  import opened Text
  import opened Graphs
  import opened Sequences
  import opened RunContexts
  import opened RunContextObjects
  import opened WorkflowGraphs
  import opened DagScheduler
  import opened DagExecutor
  import Publish = PublishCheck

  predicate FourNodes(a: Id, b: Id, c: Id, d: Id) {
    && !Blank(a) && !Blank(b) && !Blank(c) && !Blank(d)
    && a != b && a != c && a != d && b != c && b != d && c != d
  }

  /** A->B and A->C, C->D, D->B: B has a predecessor that is scheduled only after C. */
  function LateGraph(a: Id, b: Id, c: Id, d: Id): Graph {
    Graph(a,
          map[a := FlowNode(a, "task", []), b := FlowNode(b, "task", []),
              c := FlowNode(c, "task", []), d := FlowNode(d, "task", [])],
          [FlowEdge(a, b, None), FlowEdge(a, c, None), FlowEdge(c, d, None), FlowEdge(d, b, None)])
  }

  lemma LateArrows(a: Id, b: Id, c: Id, d: Id)
    ensures Arrows(LateGraph(a, b, c, d)) == {(a, b), (a, c), (c, d), (d, b)}
  {
    var edges := LateGraph(a, b, c, d).edges;
    assert edges[0] in edges && edges[1] in edges && edges[2] in edges && edges[3] in edges;
  }

  lemma LateShape(a: Id, b: Id, c: Id, d: Id)
    ensures LateGraph(a, b, c, d).entry == a && LateGraph(a, b, c, d).nodes.Keys == {a, b, c, d}
  {
  }

  lemma LateGraphIsValid(a: Id, b: Id, c: Id, d: Id)
    requires FourNodes(a, b, c, d)
    ensures ValidGraph(LateGraph(a, b, c, d))
  {
    hide Acyclic, Arrows, TrimSpace;
    var g := LateGraph(a, b, c, d);
    LateArrows(a, b, c, d);
    RankedIsAcyclic(Arrows(g), map[a := 3, c := 2, d := 1, b := 0]);
  }

  lemma OnlyOne(nodes: seq<Id>, n: Id)
    requires Distinct(nodes) && nodes != [] && forall m :: m in nodes ==> m == n
    ensures nodes == [n]
  {
    forall i | 0 <= i < |nodes| ensures nodes[i] == n { assert nodes[i] in nodes; }
    RepeatFreeFits(nodes, {n});
  }

  lemma StartsOfOne(b: Batch)
    ensures Starts([b]) == b.nodes
  {
    assert [b][..0] == [];
  }

  lemma ClosedByOne(g: Graph, s: Snapshot, first: seq<Completion>, b: Batch, n: Id)
    requires |first| == 1 && Closes(g, s, first, b) && b.nodes == [n]
    ensures first[0].node == n
  {
    assert first[0..] == first && NodesOf(first) == [first[0].node];
    assert first[0].node in multiset(b.nodes);
  }

  /** The first batch is the entry alone. */
  lemma EntryComesFirst(g: Graph, s: Snapshot, batches: seq<Batch>, log: seq<Completion>, limit: int)
    requires SoundBatches(g, batches, limit) && History(g, s, batches, log) && batches != []
    ensures batches[0].nodes == [g.entry] && batches[0].scheduled == {g.entry}
    ensures Starts(batches[..1]) == [g.entry] && |log| > 0 && log[0].node == g.entry
  {
    hide Closes, ScheduledBy, PendingUpstream;
    var b := batches[0];
    assert batches[..0] == [] && log[..0] == [] && batches[..1] == [b] && [b][..0] == [];
    assert b.scheduled == {g.entry} by {
      hide SoundBatches;
      HistoryUpTo(g, s, batches, log, 0);
      LedAtEntry(g);
    }
    assert b.nodes == [g.entry] by {
      hide History;
      assert SoundBatch(g, batches[..0], b, limit);
      OnlyOne(b.nodes, g.entry);
    }
    StartsOfOne(b);
    hide SoundBatches;
    HistoryUpTo(g, s, batches, log, 1);
    assert Closes(g, s, log[..1], b);
    ClosedByOne(g, s, log[..1], b, g.entry);
  }

  lemma FirstSchedules(g: Graph, log: seq<Completion>, run: Executors, matches: Matcher, n: Id)
    requires ValidGraph(g) && StaticRouting(g, run) && Ran(run, log) && Routed(g, log, matches)
    requires |log| > 0 && log[0].node == g.entry
    ensures n in ScheduledBy(g, log[..1]) <==> n == g.entry || (g.entry, n) in Arrows(g)
  {
    var c := log[0];
    assert c in log && log[..1] == [c];
    assert run(c.node, c.base) == Some(c.result);
    MatchingTargetsAre(g.edges, c.node, c.seen, matches);
    if (g.entry, n) in Arrows(g) {
      var e :| e in g.edges && (e.src, e.dst) == (g.entry, n);
      assert Connected(g, e) && !Blank(n);
    }
  }

  lemma TwoOfTwo(s: seq<Id>, b: Id, c: Id)
    requires Distinct(s) && |s| >= 2 && forall n :: n in s ==> n == b || n == c
    ensures b in s && c in s
  {
    assert s[0] in s && s[1] in s && s[0] != s[1];
  }

  /** With room for two nodes, the second batch of the run is B and C. */
  lemma SecondBatch(a: Id, b: Id, c: Id, d: Id, s: Snapshot, batches: seq<Batch>, log: seq<Completion>, limit: int,
                    run: Executors, matches: Matcher)
    requires FourNodes(a, b, c, d) && limit >= 2 && |batches| > 1
    requires var g := LateGraph(a, b, c, d);
             && SoundBatches(g, batches, limit) && History(g, s, batches, log)
             && StaticRouting(g, run) && Ran(run, log) && Routed(g, log, matches)
    ensures batches[1].scheduled == {a, b, c} && b in batches[1].nodes
  {
    hide History, Closes, ScheduledBy, StaticRouting, Ran, Routed, ValidGraph, LateGraph;
    var g := LateGraph(a, b, c, d);
    LateGraphIsValid(a, b, c, d);
    LateArrows(a, b, c, d);
    EntryComesFirst(g, s, batches, log, limit);
    HistoryUpTo(g, s, batches, log, 1);
    assert g.entry == a by { LateShape(a, b, c, d); }
    forall n ensures n in batches[1].scheduled <==> n in {a, b, c} {
      FirstSchedules(g, log, run, matches, n);
    }
    assert batches[1].scheduled == {a, b, c};
    LateBatch(g, a, b, c, d, batches, limit);
  }

  lemma LateBatch(g: Graph, a: Id, b: Id, c: Id, d: Id, batches: seq<Batch>, limit: int)
    requires FourNodes(a, b, c, d) && limit >= 2 && |batches| > 1 && SoundBatches(g, batches, limit)
    requires Arrows(g) == {(a, b), (a, c), (c, d), (d, b)}
    requires batches[1].scheduled == {a, b, c} && Starts(batches[..1]) == [a]
    ensures b in batches[1].nodes
  {
    var done := Members(Starts(batches[..1]));
    assert SoundBatch(g, batches[..1], batches[1], limit) && done == {a};
    var batch := batches[1];
    forall e | e in g.edges && (e.dst == b || e.dst == c) && e.src in batch.scheduled ensures e.src in done {
      assert (e.src, e.dst) in Arrows(g);
    }
    assert Ready(g, batch.scheduled, done, done, b) && Ready(g, batch.scheduled, done, done, c);
    if |batch.nodes| >= limit { TwoOfTwo(batch.nodes, b, c); }
  }

  // ---------- the run ----------

  lemma StartsPristine(state: ExecutionState)
    requires ValidGraph(state.graph) && state.context.Valid()
    requires state !in state.context.at && state !in state.context.others
    requires state.scheduled == state.started == state.completed == {} && state.log == [] && state.batches == []
    requires state.start == state.context.View()
    ensures state.Pristine()
  {
  }

  predicate LeavesRouting(outcome: Option<NodeResult>) {
    outcome.Some? && !outcome.value.stop && outcome.value.next.None?
  }

  /** No executor fails, stops the run or selects a node. */
  ghost predicate NeverFails(run: Executors) {
    forall n, s :: LeavesRouting(run(n, s))
  }

  lemma LateRouting(a: Id, b: Id, c: Id, d: Id, run: Executors)
    requires NeverFails(run)
    ensures StaticRouting(LateGraph(a, b, c, d), run)
  {
    forall n, s ensures LeavesRouting(run(n, s)) {
    }
  }

  lemma NeverStuck(g: Graph, matches: Matcher, before: Snapshot, c: Completion, run: Executors)
    requires NeverFails(run) && run(c.node, c.base) == Some(c.result)
    ensures !Stuck(g, matches, before, c)
  {
    hide Merging;
    assert LeavesRouting(run(c.node, c.base));
  }

  lemma NeverFailsAt(executor: Executor, state: ExecutionState, n: Id)
    requires NeverFails(executor.run)
    ensures !executor.FailsAt(state, n)
  {
    hide History, ContextAfter;
    assert LeavesRouting(executor.run(n, ContextAfter(state.start, state.log)));
  }

  lemma LateFits(a: Id, b: Id, c: Id, d: Id, state: ExecutionState)
    requires state.graph == LateGraph(a, b, c, d) && state.Coherent()
    ensures |state.completed| < 64
  {
    hide ExecutionState.Holding, ExecutionState.Coherent;
    state.CoherentBounds();
    SubsetSize(state.completed, {a, b, c, d});
  }

  /** All four nodes complete, as the entry reaches them all. */
  lemma LateCompletes(a: Id, b: Id, c: Id, d: Id, state: ExecutionState)
    requires FourNodes(a, b, c, d) && state.graph == LateGraph(a, b, c, d) && state.Coherent()
    requires forall n :: n in state.completed <==> Publish.Found(state.graph, n)
    ensures state.completed == {a, b, c, d}
  {
    hide *;
    var g, r := state.graph, Arrows(state.graph);
    LateArrows(a, b, c, d);
    LateGraphIsValid(a, b, c, d);
    LateShape(a, b, c, d);
    state.CoherentBounds();
    ReachesSelf(r, a);
    ReachesEdge(r, a, b);
    ReachesEdge(r, a, c);
    ReachesEdge(r, c, d);
    ReachesTrans(r, a, c, d);
    forall n | n in {a, b, c, d} ensures n in state.completed { Publish.FoundIsReachable(g, n); }
  }

  lemma LateOrder(a: Id, b: Id, c: Id, d: Id, run: Executors, state: ExecutionState, limit: int)
    requires FourNodes(a, b, c, d) && state.graph == LateGraph(a, b, c, d) && limit >= 2
    requires state.Coherent() && state.completed == state.started == {a, b, c, d}
    requires SoundBatches(state.graph, state.batches, limit)
    requires History(state.graph, state.start, state.batches, state.log)
    requires StaticRouting(state.graph, run) && Ran(run, state.log)
    requires Recorded(state.graph, state.matches, state.start, state.log)
    ensures exists i, k :: 0 <= i < k < |state.batches| && b in state.batches[i].nodes && d in state.batches[k].nodes
  {
    hide History, ExecutionState.Holding, Told, ValidGraph, Ran, Routed, StaticRouting, Chained, Once;
    var batches := state.batches;
    StartsOfBatches(batches, d);
    assert d in Starts(batches);
    var k :| 0 <= k < |batches| && d in batches[k].nodes;
    EntryComesFirst(state.graph, state.start, batches, state.log, limit);
    LateShape(a, b, c, d);
    assert k > 0;
    SecondBatch(a, b, c, d, state.start, batches, state.log, limit, run, state.matches);
    assert SoundBatch(state.graph, batches[..1], batches[1], limit);
    assert d !in batches[1].nodes;
    assert b in batches[1].nodes && 1 < k;
  }

  lemma FinishedRun(executor: Executor, state: ExecutionState)
    requires executor.Finishes(state)
    ensures state.completed == state.started
    ensures History(state.graph, state.start, state.batches, state.log)
  {
  }

  /**
   Only predecessors that are already scheduled are awaited: whatever the executors do and
   however the scheduler chooses, as long as two nodes may run at once, B runs before its
   predecessor D, although both run.
   */
  method LatePredecessorIsNotAwaited(a: Id, b: Id, c: Id, d: Id, executor: Executor, matches: Matcher,
                                     context: RunContext, maxParallelism: int)
    returns (state: ExecutionState, err: Option<RunError>)
    requires FourNodes(a, b, c, d) && context.Valid() && maxParallelism != 1
    requires NeverFails(executor.run)
    ensures err.None? && (d, b) in Arrows(state.graph) && state.completed == {a, b, c, d}
    ensures exists i, k :: 0 <= i < k < |state.batches| && b in state.batches[i].nodes && d in state.batches[k].nodes
  {
    hide *;
    LateGraphIsValid(a, b, c, d);
    LateArrows(a, b, c, d);
    state := new ExecutionState(LateGraph(a, b, c, d), matches, context);
    StartsPristine(state);
    LateRouting(a, b, c, d, executor.run);
    ghost var stuck;
    err, stuck := executor.ExecuteGraph(state, 0, maxParallelism);
    if err.Some? {
      match err.value
      case StepsExceeded => LateFits(a, b, c, d, state);
      case NodeFailed(n) => NeverFailsAt(executor, state, n);
      case SelectedUnconnected(_) =>
        NeverStuck(state.graph, state.matches, ContextAfter(state.start, state.log), stuck.value, executor.run);
      case _ =>
    }
    FinishedRun(executor, state);
    LateCompletes(a, b, c, d, state);
    LateOrder(a, b, c, d, executor.run, state, if maxParallelism > 0 then maxParallelism else 4);
  }
}
