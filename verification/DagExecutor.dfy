/** The run state of a workflow and the executor that drives it, updating the state in place. */
module DagExecutor {
  import opened Text
  import opened Graphs
  import opened JsonValues
  import opened RunContexts
  import opened RunContextObjects
  import opened Sequences
  import opened WorkflowGraphs
  import opened DagScheduler
  import Publish = PublishCheck

  /** The log of completions accounts for what is scheduled and what has completed. */
  ghost predicate Told(g: Graph, matches: Matcher, log: seq<Completion>, scheduled: set<Id>, completed: set<Id>) {
    && Led(g, log) && scheduled == ScheduledBy(g, log) && scheduled <= g.nodes.Keys
    && Finished(log) == completed && Once(log) && Routed(g, log, matches)
  }

  lemma NextNodesExist(g: Graph, c: Completion, matches: Matcher)
    requires ValidGraph(g) && Routes(g, c.node, c.result, c.seen, matches, Next(c.next))
    ensures forall t :: t in c.next ==> t in g.nodes && !Blank(t)
  {
    hide Routes;
    RoutesAlongEdges(g, c.node, c.result, c.seen, matches, Next(c.next));
    forall t | t in c.next ensures t in g.nodes && !Blank(t) {
      var e :| e in g.edges && (e.src, e.dst) == (c.node, t);
      assert Connected(g, e);
    }
  }

  lemma ToldGrows(g: Graph, matches: Matcher, log: seq<Completion>, scheduled: set<Id>, completed: set<Id>,
                  c: Completion)
    requires ValidGraph(g) && Told(g, matches, log, scheduled, completed)
    requires c.node in scheduled && c.node !in completed
    requires Routes(g, c.node, c.result, c.seen, matches, Next(c.next))
    ensures forall t :: t in c.next ==> t in g.nodes && !Blank(t)
    ensures Told(g, matches, log + [c], scheduled + Scheduling(c.next), completed + {c.node})
  {
    hide ValidGraph, Routes, Led, ScheduledBy;
    LedGrows(g, log, c);
    ScheduledGrows(g, log, c);
    NextNodesExist(g, c, matches);
    assert forall d :: d in log ==> d.node in completed;
  }

  class ExecutionState {
    const graph: Graph
    const matches: Matcher
    var context: RunContext
    var scheduled: set<Id>
    var started: set<Id>
    var completed: set<Id>
    // The history of the run: the context it started on, completions in merge order, and starts batch by batch.
    ghost const start: Snapshot
    ghost var log: seq<Completion>
    ghost var batches: seq<Batch>

    constructor (graph: Graph, matches: Matcher, context: RunContext)
      ensures this.graph == graph && this.matches == matches && this.context == context
      ensures scheduled == started == completed == {} && log == [] && batches == [] && start == context.View()
    {
      this.graph, this.matches, this.context := graph, matches, context;
      scheduled, started, completed := {}, {}, {};
      start, log, batches := context.View(), [], [];
    }

    /** The context is the state's own, and holds what the merges so far have made of the initial one. */
    ghost predicate Holding()
      reads `context, `log, context, context.at.Keys, context.others
    {
      && this !in context.at && this !in context.others && context.Valid()
      && Chained(start, log) && context.View() == ContextAfter(start, log)
    }

    /** What holds of a run of a validated graph between any two completions. */
    ghost predicate Coherent()
      reads this, context, context.at.Keys, context.others
    {
      && ValidGraph(graph)
      && Told(graph, matches, log, scheduled, completed)
      && completed <= started <= scheduled
      && (forall n :: n in Starts(batches) <==> n in started)
      && (forall b :: b in batches ==> b.scheduled <= scheduled)
      && Holding()
    }

    /** Nothing has been scheduled yet. */
    ghost predicate Pristine()
      reads this, context, context.at.Keys, context.others
    {
      && ValidGraph(graph) && scheduled == started == completed == {} && log == [] && batches == []
      && Holding()
    }

    lemma CoherentBounds()
      requires Coherent()
      ensures completed <= started <= scheduled <= graph.nodes.Keys && scheduled == ScheduledBy(graph, log)
      ensures context.View() == ContextAfter(start, log) && context.Valid()
    {
    }

    lemma CoherentRecords()
      requires Coherent()
      ensures Recorded(graph, matches, start, log)
    {
    }

    lemma HoldingContext()
      requires Coherent()
      ensures this !in context.at && this !in context.others && context.Valid()
      ensures Chained(start, log) && context.View() == ContextAfter(start, log)
    {
    }

    lemma PristineStarts()
      requires Pristine()
      ensures ValidGraph(graph) && !Blank(graph.entry) && graph.entry in graph.nodes && Holding()
      ensures scheduled == started == completed == {} && log == [] && batches == []
    {
    }

    lemma CoherentAtEntry()
      requires ValidGraph(graph) && Holding()
      requires scheduled == {graph.entry} && started == completed == {} && log == [] && batches == []
      ensures Coherent()
    {
      LedAtEntry(graph);
    }

    method Schedule(n: Id) returns (missing: bool)
      modifies this`scheduled
      ensures missing <==> !Blank(n) && n !in graph.nodes
      ensures scheduled == if Blank(n) || missing then old(scheduled) else old(scheduled) + {n}
    {
      if Blank(n) { return false; }
      if n !in graph.nodes { return true; }
      scheduled := scheduled + {n};
      return false;
    }

    method MarkStarted(n: Id)
      modifies this`started
      ensures started == old(started) + {n}
    {
      started := started + {n};
    }

    method Complete(n: Id, result: NodeResult) returns (ghost order: seq<Write>)
      requires this !in context.at && this !in context.others && context.Valid()
      modifies this`completed, this`context
      ensures completed == old(completed) + {n}
      ensures WritesInSomeOrder(order, result)
      ensures fresh(context) && fresh(context.at.Keys) && fresh(context.others) && context.Valid()
      ensures context.View() == Merged(old(context.View()), n, result, order)
    {
      hide *;
      completed := completed + {n};
      context, order := context.WithNodeResult(n, result);
    }

    method HasPendingScheduledUpstream(n: Id) returns (pending: bool)
      ensures pending <==> PendingUpstream(graph, scheduled, completed, n)
    {
      for i := 0 to |graph.edges|
        invariant forall j :: 0 <= j < i ==>
          !(graph.edges[j].dst == n && graph.edges[j].src in scheduled && graph.edges[j].src !in completed)
      {
        var e := graph.edges[i];
        if e.dst == n && e.src in scheduled && e.src !in completed {
          return true;
        }
      }
      return false;
    }

    method ReadyNodes() returns (ready: seq<Id>)
      ensures Distinct(ready)
      ensures forall n :: n in ready <==> Ready(graph, scheduled, started, completed, n)
    {
      ready := [];
      var remaining := scheduled;
      while remaining != {}
        invariant remaining <= scheduled && Distinct(ready)
        invariant forall n :: n in ready ==> n in scheduled && n !in remaining
        invariant forall n :: n in scheduled - remaining ==>
          (n in ready <==> Ready(graph, scheduled, started, completed, n))
        decreases remaining
      {
        var n :| n in remaining;
        remaining := remaining - {n};
        if n !in started && n !in completed {
          var pending := HasPendingScheduledUpstream(n);
          if !pending {
            ready := ready + [n];
          }
        }
      }
    }
  }

  datatype RunError =
    | NextNodeMissing
    | StepsExceeded
    | NoScheduledNodeReady
    | NodeFailed(node: Id)
    | SelectedUnconnected(node: Id)

  lemma DistinctIsASet(ids: seq<Id>)
    requires Distinct(ids)
    ensures multiset(ids) == multiset(Members(ids)) && |ids| == |Members(ids)|
  {
    if ids != [] {
      var k := |ids| - 1;
      var front := ids[..k];
      DistinctIsASet(front);
      assert ids == front + [ids[k]];
      assert Members(ids) == Members(front) + {ids[k]};
      assert ids[k] !in front;
    }
  }

  /** Part of a batch has been merged, in this order. */
  ghost predicate Partly(g: Graph, s: Snapshot, batch: seq<Id>, results: map<Id, NodeResult>, matches: Matcher,
                         remaining: set<Id>, merged: seq<Completion>) {
    && multiset(NodesOf(merged)) + multiset(remaining) == multiset(batch)
    && (forall c :: c in merged ==> c.node in results && c.result == results[c.node] && c.base == s)
    && Chained(s, merged) && Routed(g, merged, matches)
  }

  lemma NothingMerged(g: Graph, s: Snapshot, batch: seq<Id>, results: map<Id, NodeResult>, matches: Matcher)
    requires Distinct(batch)
    ensures Partly(g, s, batch, results, matches, Members(batch), []) && ContextAfter(s, []) == s
  {
    DistinctIsASet(batch);
  }

  lemma OneMoreMerged(g: Graph, s: Snapshot, batch: seq<Id>, results: map<Id, NodeResult>, matches: Matcher,
                      remaining: set<Id>, merged: seq<Completion>, c: Completion)
    requires Partly(g, s, batch, results, matches, remaining, merged)
    requires c.node in remaining && c.node in results && c.result == results[c.node] && c.base == s
    requires Merging(ContextAfter(s, merged), c) && Routes(g, c.node, c.result, c.seen, matches, Next(c.next))
    ensures Partly(g, s, batch, results, matches, remaining - {c.node}, merged + [c])
    ensures ContextAfter(s, merged + [c]) == c.seen
  {
    hide Chained, Merging, Routes, ContextAfter;
    ChainGrows(s, merged, c);
    assert NodesOf(merged + [c]) == NodesOf(merged) + [c.node];
    assert multiset(remaining) == multiset(remaining - {c.node}) + multiset{c.node};
  }

  lemma MergedSoFar(g: Graph, s: Snapshot, batch: seq<Id>, results: map<Id, NodeResult>, matches: Matcher,
                    remaining: set<Id>, merged: seq<Completion>)
    requires Partly(g, s, batch, results, matches, remaining, merged)
    ensures forall c :: c in merged ==> c.node in results && c.result == results[c.node] && c.base == s
  {
  }

  lemma AllMerged(g: Graph, s: Snapshot, batch: seq<Id>, results: map<Id, NodeResult>, matches: Matcher,
                  merged: seq<Completion>)
    requires Partly(g, s, batch, results, matches, {}, merged) && results.Keys == Members(batch)
    ensures BatchMerge(g, s, batch, results, matches, merged)
    ensures forall c :: c in merged ==> c.base == s
  {
  }

  /** What is true of the completions of a run even after it has failed. */
  ghost predicate Recorded(g: Graph, matches: Matcher, s: Snapshot, log: seq<Completion>) {
    Routed(g, log, matches) && Once(log) && Chained(s, log)
  }

  /** A merged result that selected a node its edges do not lead to. */
  ghost predicate Stuck(g: Graph, matches: Matcher, before: Snapshot, c: Completion) {
    Merging(before, c) && exists t :: Routes(g, c.node, c.result, c.seen, matches, NotConnected(t))
  }

  class Executor {
    // What executing a node does, given the context its batch started with; None is an error.
    // A node runs at most once in a run, so every run of any executors is covered.
    const run: Executors

    constructor (run: Executors)
      ensures this.run == run
    {
      this.run := run;
    }

    method ScheduleAll(state: ExecutionState, next: seq<Id>)
      requires forall t :: t in next ==> t in state.graph.nodes
      modifies state`scheduled
      ensures state.scheduled == old(state.scheduled) + Scheduling(next)
    {
      for i := 0 to |next|
        invariant state.scheduled == old(state.scheduled) + Scheduling(next[..i])
      {
        assert next[i] in next && next[..i + 1] == next[..i] + [next[i]];
        var missing := state.Schedule(next[i]);
        assert !missing;
      }
      assert next[..|next|] == next;
    }

    /** Merges one result: complete the node, select its next nodes, schedule them. */
    method Merge(state: ExecutionState, n: Id, result: NodeResult, ghost base: Snapshot)
      returns (err: Option<RunError>, ghost c: Completion)
      requires state.Coherent() && n in state.started && n !in state.completed
      modifies state`completed, state`context, state`scheduled, state`log
      ensures c.node == n && c.base == base && c.result == result
      ensures Merging(old(state.context.View()), c) && state.context.View() == c.seen
      ensures state.completed == old(state.completed) + {n}
      ensures Recorded(state.graph, state.matches, state.start, state.log)
      ensures err.None? ==>
                && state.Coherent() && state.log == old(state.log) + [c]
                && Routes(state.graph, n, result, c.seen, state.matches, Next(c.next))
      ensures err.Some? ==>
                && err == Some(SelectedUnconnected(n)) && state.log == old(state.log)
                && Stuck(state.graph, state.matches, old(state.context.View()), c)
    {
      hide Told, Routes, WritesInSomeOrder, ValidGraph, Chained, Merged, ContextAfter, Recorded, RunContext.Valid,
        RunContext.View, Scheduling, ScheduledBy, Starts, ApplyAll;
      state.CoherentRecords();
      state.HoldingContext();
      ghost var order := state.Complete(n, result);
      var seen := state.context.Take();
      var routing := NextNodes(state.graph, n, result, seen, state.matches);
      if routing.NotConnected? {
        return Some(SelectedUnconnected(n)), Completion(n, base, result, order, seen, []);
      }
      c := Completion(n, base, result, order, seen, routing.ids);
      ToldGrows(state.graph, state.matches, state.log, state.scheduled, old(state.completed), c);
      ChainGrows(state.start, state.log, c);
      ScheduleAll(state, routing.ids);
      state.log := state.log + [c];
      state.CoherentRecords();
      err := None;
    }

    /** Every node of the batch runs against the same context; a failure keeps all results unmerged. */
    method RunBatch(state: ExecutionState, batch: seq<Id>) returns (err: Option<RunError>, results: map<Id, NodeResult>)
      requires state.context.Valid()
      modifies state`started
      ensures state.started == old(state.started) + Members(batch)
      ensures err.Some? ==>
                err.value.NodeFailed? && err.value.node in batch && run(err.value.node, state.context.View()).None?
      ensures err.None? ==> Outcomes(batch, state.context.View(), results)
    {
      hide RunContext.Valid;
      results := map[];
      err := None;
      var context := state.context.Take();
      for i := 0 to |batch|
        invariant state.started == old(state.started) + Members(batch[..i])
        invariant err.Some? ==> err.value.NodeFailed? && err.value.node in batch && run(err.value.node, context).None?
        invariant err.None? ==> Outcomes(batch[..i], context, results)
      {
        assert batch[..i + 1] == batch[..i] + [batch[i]];
        state.MarkStarted(batch[i]);
        var outcome := run(batch[i], context);
        if outcome.None? {
          err := Some(NodeFailed(batch[i]));
        } else {
          results := results[batch[i] := outcome.value];
        }
      }
      assert batch[..|batch|] == batch;
    }

    /** The results of executing each node of the batch against one context. */
    ghost predicate Outcomes(batch: seq<Id>, s: Snapshot, results: map<Id, NodeResult>) {
      results.Keys == Members(batch) && forall n :: n in batch ==> run(n, s) == Some(results[n])
    }

    /** Merges the results of a batch in whatever order they arrive. */
    method MergeAll(state: ExecutionState, batch: seq<Id>, results: map<Id, NodeResult>)
      returns (err: Option<RunError>, ghost merged: seq<Completion>, ghost stuck: Option<Completion>)
      requires state.Coherent() && Distinct(batch) && results.Keys == Members(batch)
      requires Members(batch) <= state.started && Members(batch) !! state.completed
      modifies state`completed, state`context, state`scheduled, state`log
      ensures old(state.completed) <= state.completed <= old(state.completed) + Members(batch)
      ensures state.log == old(state.log) + merged && Recorded(state.graph, state.matches, state.start, state.log)
      ensures forall c :: c in merged ==>
                c.node in results && c.result == results[c.node] && c.base == old(state.context.View())
      ensures err.None? ==> state.Coherent() && state.completed == old(state.completed) + Members(batch)
      ensures err.None? ==> BatchMerge(state.graph, old(state.context.View()), batch, results, state.matches, merged)
      ensures err.Some? ==>
                && stuck.Some? && err == Some(SelectedUnconnected(stuck.value.node))
                && stuck.value.node in results && stuck.value.result == results[stuck.value.node]
                && stuck.value.base == old(state.context.View()) && state.context.View() == stuck.value.seen
                && Stuck(state.graph, state.matches, ContextAfter(state.start, state.log), stuck.value)
    {
      err, merged, stuck := None, [], None;
      hide *;
      ghost var before, done, log := state.context.View(), state.completed, state.log;
      var remaining := Members(batch);
      NothingMerged(state.graph, before, batch, results, state.matches);
      state.CoherentRecords();
      while remaining != {}
        invariant err.None? && stuck.None? && remaining <= Members(batch)
        invariant state.Coherent() && remaining <= state.started
        invariant done <= state.completed && state.completed !! remaining
        invariant state.completed + remaining == done + Members(batch)
        invariant state.log == log + merged && Recorded(state.graph, state.matches, state.start, state.log)
        invariant Partly(state.graph, before, batch, results, state.matches, remaining, merged)
        invariant state.context.View() == ContextAfter(before, merged)
        decreases remaining
      {
        var n :| n in remaining;
        state.CoherentBounds();
        MergedSoFar(state.graph, before, batch, results, state.matches, remaining, merged);
        ghost var c;
        err, c := Merge(state, n, results[n], before);
        if err.Some? {
          stuck := Some(c);
          return;
        }
        OneMoreMerged(state.graph, before, batch, results, state.matches, remaining, merged, c);
        assert log + merged + [c] == log + (merged + [c]);
        merged := merged + [c];
        remaining := remaining - {n};
      }
      AllMerged(state.graph, before, batch, results, state.matches, merged);
    }

    /** `executeReadyNodes`: run a batch, then merge its results. */
    method ExecuteReadyNodes(state: ExecutionState, batch: seq<Id>)
      returns (err: Option<RunError>, ghost results: map<Id, NodeResult>, ghost merged: seq<Completion>,
               ghost stuck: Option<Completion>)
      requires state.Coherent() && state.started == state.completed && Distinct(batch)
      requires Members(batch) <= state.scheduled && Members(batch) !! state.started
      modifies state`started, state`completed, state`context, state`scheduled, state`log, state`batches
      ensures state.batches == old(state.batches) + [Batch(batch, old(state.scheduled))]
      ensures state.started == old(state.started) + Members(batch)
      ensures old(state.completed) <= state.completed <= state.started
      ensures state.log == old(state.log) + merged && Recorded(state.graph, state.matches, state.start, state.log)
      ensures forall c :: c in merged ==>
                run(c.node, c.base) == Some(c.result) && c.base == old(state.context.View())
      ensures err.None? ==> state.Coherent() && state.completed == state.started
      ensures err.None? ==> Outcomes(batch, old(state.context.View()), results)
      ensures err.None? ==> BatchMerge(state.graph, old(state.context.View()), batch, results, state.matches, merged)
      ensures err.Some? ==> err.value.NodeFailed? || err.value.SelectedUnconnected?
      ensures err.Some? && err.value.NodeFailed? ==>
                && merged == [] && err.value.node in batch && run(err.value.node, old(state.context.View())).None?
                && state.context == old(state.context)
      ensures err.Some? && err.value.SelectedUnconnected? ==>
                && stuck.Some? && stuck.value.node == err.value.node && stuck.value.node in batch
                && run(stuck.value.node, stuck.value.base) == Some(stuck.value.result)
                && stuck.value.base == old(state.context.View()) && state.context.View() == stuck.value.seen
                && Stuck(state.graph, state.matches, ContextAfter(state.start, state.log), stuck.value)
    {
      hide Told, ExecutionState.Holding, RunContext.Valid, ValidGraph, Recorded, BatchMerge, Stuck, ContextAfter;
      ghost var was := state.batches;
      var found;
      merged, stuck := [], None;
      state.HoldingContext();
      state.CoherentRecords();
      err, found := RunBatch(state, batch);
      results := found;
      state.batches := state.batches + [Batch(batch, state.scheduled)];
      assert (was + [Batch(batch, state.scheduled)])[..|was|] == was;
      if err.Some? { return; }
      err, merged, stuck := MergeAll(state, batch, found);
    }

    /** The ready nodes, at most `limit` of them. */
    method NextBatch(state: ExecutionState, limit: int) returns (ready: seq<Id>)
      requires state.Coherent() && state.started == state.completed && limit > 0
      requires SoundBatches(state.graph, state.batches, limit)
      ensures Distinct(ready) && Members(ready) <= state.scheduled && Members(ready) !! state.started
      ensures |Members(ready)| <= limit
      ensures state.completed != state.scheduled ==> 0 < |ready| && 0 < |Members(ready)|
      ensures state.completed != state.scheduled ==>
                SoundBatches(state.graph, state.batches + [Batch(ready, state.scheduled)], limit)
    {
      hide Led, Once, Routed, Finished, ScheduledBy, ExecutionState.Holding;
      ready := state.ReadyNodes();
      if state.completed != state.scheduled {
        ghost var waiting := state.scheduled - state.completed;
        assert state.scheduled == state.completed + waiting;
        SomePendingNodeIsReady(state.graph, waiting);
        ghost var n :| n in waiting && forall e :: e in state.graph.edges && e.dst == n ==> e.src !in waiting;
        assert Ready(state.graph, state.scheduled, state.started, state.completed, n);
      }
      if |ready| > limit {
        ready := ready[..limit];
      }
      DistinctIsASet(ready);
      ReadyNodesAreParallel(state.graph, state.scheduled, state.started, state.completed, ready);
      if ready != [] {
        assert Members(Starts(state.batches)) == state.started;
        BatchesGrow(state.graph, state.batches, Batch(ready, state.scheduled), limit);
      }
    }

    /** The state that a run of a graph ends in without an error. */
    ghost predicate Finishes(state: ExecutionState)
      reads state, state.context
    {
      && state.completed == state.started == state.scheduled == Finished(state.log)
      && History(state.graph, state.start, state.batches, state.log)
      && (forall n :: n in state.completed <==> Reaches(Chosen(state.log), state.graph.entry, n))
      && state.context.View() == ContextAfter(state.start, state.log)
      && state.context.View().ctx == ApplyAll(state.start.ctx, Trace(state.log))
      && multiset(Trace(state.log)) == LogWrites(state.log)
    }

    /** How a run of a graph ends with an error of a node. */
    ghost predicate FailsAt(state: ExecutionState, n: Id)
      reads state
    {
      && state.batches != [] && var last := |state.batches| - 1;
      && n in state.batches[last].nodes
      && History(state.graph, state.start, state.batches[..last], state.log)
      && run(n, ContextAfter(state.start, state.log)).None?
    }

    lemma NothingRan(g: Graph, s: Snapshot, limit: int, steps: int)
      ensures SoundBatches(g, [], limit) && OrderedAsScheduled(g, []) && History(g, s, [], []) && Ran(run, [])
      ensures BegunBelow([], steps)
    {
    }

    /** Everything started has completed, so another batch begins on fewer completions than the limit. */
    lemma StartedBelow(state: ExecutionState, limit: int, steps: int, b: Batch)
      requires state.Coherent() && state.started == state.completed && SoundBatches(state.graph, state.batches, limit)
      requires BegunBelow(state.batches, steps) && |state.completed| < steps
      ensures BegunBelow(state.batches + [b], steps)
    {
      hide ExecutionState.Holding, Told, ValidGraph, SoundBatch;
      var more := state.batches + [b];
      DistinctIsASet(Starts(state.batches));
      assert Members(Starts(state.batches)) == state.completed;
      forall k | 0 <= k < |more| ensures |Starts(more[..k])| < steps {
        assert more[..k] == state.batches[..k];
        if k == |state.batches| { assert more[..k] == state.batches; }
      }
    }

    lemma RanFurther(log: seq<Completion>, merged: seq<Completion>)
      requires Ran(run, log) && forall c :: c in merged ==> run(c.node, c.base) == Some(c.result)
      ensures Ran(run, log + merged)
    {
    }

    lemma BatchClosed(state: ExecutionState, s: Snapshot, batches: seq<Batch>, log: seq<Completion>, b: Batch,
                      results: map<Id, NodeResult>, merged: seq<Completion>)
      requires History(state.graph, s, batches, log) && b.scheduled == ScheduledBy(state.graph, log)
      requires BatchMerge(state.graph, ContextAfter(s, log), b.nodes, results, state.matches, merged)
      requires forall c :: c in merged ==> c.base == ContextAfter(s, log)
      ensures History(state.graph, s, batches + [b], log + merged)
    {
      hide History, ContextAfter, ScheduledBy;
      HistoryGrows(state.graph, s, batches, log, b, merged);
    }

    lemma BatchFailed(state: ExecutionState, batches: seq<Batch>, b: Batch, n: Id)
      requires state.batches == batches + [b] && n in b.nodes && History(state.graph, state.start, batches, state.log)
      requires run(n, ContextAfter(state.start, state.log)).None?
      ensures FailsAt(state, n)
    {
      assert (batches + [b])[..|batches|] == batches;
    }

    lemma RunFinished(state: ExecutionState)
      requires state.Coherent() && state.completed == state.started == state.scheduled
      requires History(state.graph, state.start, state.batches, state.log) && Ran(run, state.log)
      ensures Finishes(state)
      ensures StaticRouting(state.graph, run) ==> forall n :: n in state.completed <==> Publish.Found(state.graph, n)
      ensures NamedWrites(state.log) ==>
                && SameAt(state.start.ctx, state.context.View().ctx, "flow_input")
                && ((forall c :: c in state.log ==> c.result.responseWrites == map[]) ==>
                      SameAt(state.start.ctx, state.context.View().ctx, "responses"))
    {
      hide Led, Routed, ScheduledBy, Chained, RunContext.Valid, NamedWrites, SameAt, History, Trace, LogWrites, ApplyAll,
        ContextAfter, Reaches, Publish.Found, StaticRouting, Ran, ValidGraph;
      var g, log := state.graph, state.log;
      ContextIsTraced(state.start, log);
      forall n ensures n in state.completed <==> Reaches(Chosen(log), g.entry, n) {
        CompletedIsLeastClosure(g, log, n);
      }
      if StaticRouting(g, run) {
        forall n ensures n in state.completed <==> Publish.Found(g, n) {
          StaticRunCompletesReachable(g, run, log, state.matches, n);
          Publish.FoundIsReachable(g, n);
        }
      }
      if NamedWrites(log) { RunRespectsReadOnlyDomains(state.start, log); }
    }

    /**
     `executeGraph` on a validated graph. Whatever the executors do, in whatever order
     results arrive and maps are iterated: the run ends, never for want of a ready node or
     a missing one; no node starts twice; every completion is what the executors made of
     the context its batch started on, and its writes went on top of the previous ones; an
     edge is respected exactly when its source was scheduled in time. A run without error
     completes exactly the nodes its selections lead to from the entry, which with static
     routing are those that publishing finds, and leaves the initial context with exactly
     the results' writes applied, so none in the flow input.
     */
    method ExecuteGraph(state: ExecutionState, maxSteps: int, maxParallelism: int)
      returns (err: Option<RunError>, ghost stuck: Option<Completion>)
      requires state.Pristine()
      modifies state`started, state`completed, state`context, state`scheduled, state`log, state`batches
      ensures err != Some(NoScheduledNodeReady) && err != Some(NextNodeMissing)
      ensures err == Some(StepsExceeded) ==>
                && state.Coherent() && |state.completed| >= (if maxSteps > 0 then maxSteps else 64)
                && state.completed != state.scheduled
      ensures BegunBelow(state.batches, if maxSteps > 0 then maxSteps else 64)
      ensures |state.graph.nodes| <= (if maxSteps > 0 then maxSteps else 64) ==> err != Some(StepsExceeded)
      ensures SoundBatches(state.graph, state.batches, if maxParallelism > 0 then maxParallelism else 4)
      ensures OrderedAsScheduled(state.graph, state.batches)
      ensures state.completed <= state.started
      ensures |state.completed| <= (if maxSteps > 0 then maxSteps else 64) - 1
                                   + (if maxParallelism > 0 then maxParallelism else 4)
      ensures Ran(run, state.log) && Recorded(state.graph, state.matches, state.start, state.log)
      ensures err.None? ==> state.Coherent() && Finishes(state)
      ensures err.None? && StaticRouting(state.graph, run) ==>
                forall n :: n in state.completed <==> Publish.Found(state.graph, n)
      ensures err.None? && NamedWrites(state.log) ==>
                && SameAt(state.start.ctx, state.context.View().ctx, "flow_input")
                && ((forall c :: c in state.log ==> c.result.responseWrites == map[]) ==>
                      SameAt(state.start.ctx, state.context.View().ctx, "responses"))
      ensures err.Some? && err.value.NodeFailed? ==> FailsAt(state, err.value.node)
      ensures err.Some? && err.value.SelectedUnconnected? ==>
                && stuck.Some? && stuck.value.node == err.value.node
                && run(stuck.value.node, stuck.value.base) == Some(stuck.value.result)
                && state.context.View() == stuck.value.seen
                && Stuck(state.graph, state.matches, ContextAfter(state.start, state.log), stuck.value)
    {
      hide *;
      stuck := None;
      state.PristineStarts();
      var steps := if maxSteps <= 0 then DEFAULT_MAX_STEPS else maxSteps;
      var limit := if maxParallelism <= 0 then DEFAULT_MAX_PARALLELISM else maxParallelism;
      LimitsAre();
      NothingRan(state.graph, state.start, limit, steps);
      var missing := state.Schedule(state.graph.entry);
      if missing { assert false; }
      state.CoherentAtEntry();
      ghost var graph, nodes := state.graph, state.graph.nodes.Keys;
      while |state.completed| < |state.scheduled|
        invariant state.Coherent() && state.started == state.completed
        invariant SoundBatches(state.graph, state.batches, limit)
        invariant History(state.graph, state.start, state.batches, state.log) && Ran(run, state.log)
        invariant |state.completed| <= steps - 1 + limit && BegunBelow(state.batches, steps)
        decreases |nodes| - |state.completed|
      {
        state.CoherentBounds();
        state.CoherentRecords();
        SoundBatchesAreOrdered(state.graph, state.batches, limit);
        if |state.completed| >= steps {
          SubsetSize(state.scheduled, nodes);
          return Some(StepsExceeded), stuck;
        }
        var ready := NextBatch(state, limit);
        if |ready| == 0 { assert false; }
        ghost var done, batches, log := state.completed, state.batches, state.log;
        ghost var b := Batch(ready, state.scheduled);
        StartedBelow(state, limit, steps, b);
        ghost var results, merged;
        err, results, merged, stuck := ExecuteReadyNodes(state, ready);
        SubsetSize(state.completed, done + Members(ready));
        RanFurther(log, merged);
        SoundBatchesAreOrdered(state.graph, state.batches, limit);
        if err.Some? {
          if err.value.NodeFailed? {
            assert log + merged == log;
            BatchFailed(state, batches, b, err.value.node);
          }
          return;
        }
        BatchClosed(state, state.start, batches, log, b, results, merged);
        state.CoherentBounds();
        SubsetSize(state.completed, nodes);
      }
      state.CoherentBounds();
      state.CoherentRecords();
      SoundBatchesAreOrdered(state.graph, state.batches, limit);
      SubsetSize(state.completed, state.scheduled);
      RunFinished(state);
      err := None;
    }
  }

  const DEFAULT_MAX_STEPS := 64
  const DEFAULT_MAX_PARALLELISM := 4

  lemma LimitsAre()
    ensures DEFAULT_MAX_STEPS == 64 && DEFAULT_MAX_PARALLELISM == 4
  {
  }

  lemma SubsetSize(a: set<Id>, b: set<Id>)
    requires a <= b
    ensures |a| <= |b| && (|a| == |b| ==> a == b)
  {
    assert b == a + (b - a);
  }
}
