/**
 The workflow DAG scheduler: batches of ready nodes run in parallel, their results are
 merged one by one, and each merged node schedules the nodes it selects.
 Goroutine completion order and Go map iteration order are arbitrary choices.
 */
module DagScheduler {
  import opened Text
  import opened Graphs
  import opened JsonValues
  import opened RunContexts
  import opened Sequences
  import opened WorkflowGraphs

  /** What executing a node on a context does; None is an error. */
  type Executors = (Id, Snapshot) -> Option<NodeResult>

  /**
   One completed node: the context it ran on, what it returned, its writes in the order they
   were merged, the context its routing saw, and what it selected.
   */
  datatype Completion = Completion(
    node: Id,
    base: Snapshot,
    result: NodeResult,
    writes: seq<Write>,
    seen: Snapshot,
    next: seq<Id>)

  /** The nodes that were started together, and what was scheduled when they were picked. */
  datatype Batch = Batch(nodes: seq<Id>, scheduled: set<Id>)

  /** The edges along which nodes were scheduled. */
  ghost function Chosen(log: seq<Completion>): Rel {
    set c, t | c in log && t in c.next && !Blank(t) :: (c.node, t)
  }

  /** The nodes a selection schedules; blank ids are ignored. */
  ghost function Scheduling(next: seq<Id>): set<Id> {
    set t | t in next && !Blank(t)
  }

  ghost function Finished(log: seq<Completion>): set<Id> {
    set c | c in log :: c.node
  }

  /** Every completion selected its next nodes as the routing rules say. */
  ghost predicate Routed(g: Graph, log: seq<Completion>, matches: Matcher) {
    forall c :: c in log ==> Routes(g, c.node, c.result, c.seen, matches, Next(c.next))
  }

  ghost predicate Once(log: seq<Completion>) {
    forall i, j :: 0 <= i < j < |log| ==> log[i].node != log[j].node
  }

  /** What the completions have scheduled. */
  ghost function ScheduledBy(g: Graph, log: seq<Completion>): set<Id> {
    {g.entry} + set c, t | c in log && t in c.next && !Blank(t) :: t
  }

  /** What was scheduled is what the completions have led to from the entry. */
  ghost predicate Led(g: Graph, log: seq<Completion>) {
    && Finished(log) <= ScheduledBy(g, log)
    && ClosedUnder(Chosen(log), ScheduledBy(g, log))
    && (forall n :: n in ScheduledBy(g, log) ==> Reaches(Chosen(log), g.entry, n))
  }

  lemma LedAtEntry(g: Graph)
    ensures Led(g, []) && ScheduledBy(g, []) == {g.entry}
  {
    ReachesSelf(Chosen([]), g.entry);
  }

  lemma ScheduledGrows(g: Graph, log: seq<Completion>, c: Completion)
    ensures ScheduledBy(g, log + [c]) == ScheduledBy(g, log) + Scheduling(c.next)
    ensures Chosen(log + [c]) == Chosen(log) + set t | t in c.next && !Blank(t) :: (c.node, t)
    ensures Finished(log + [c]) == Finished(log) + {c.node}
  {
    assert c in log + [c];
    assert forall d :: d in log + [c] <==> d in log || d == c;
  }

  lemma LedGrows(g: Graph, log: seq<Completion>, c: Completion)
    requires Led(g, log) && c.node in ScheduledBy(g, log)
    ensures Led(g, log + [c])
  {
    hide ScheduledBy;
    var log' := log + [c];
    ScheduledGrows(g, log, c);
    forall e | e in Chosen(log') && e.0 in ScheduledBy(g, log') ensures e.1 in ScheduledBy(g, log') {
      if e in Chosen(log) { assert e.0 in Finished(log); }
    }
    forall n | n in ScheduledBy(g, log') ensures Reaches(Chosen(log'), g.entry, n) {
      ReachesMono(Chosen(log), Chosen(log'), g.entry, c.node);
      if n in ScheduledBy(g, log) {
        ReachesMono(Chosen(log), Chosen(log'), g.entry, n);
      } else {
        assert (c.node, n) in Chosen(log');
        ReachesEdge(Chosen(log'), c.node, n);
        ReachesTrans(Chosen(log'), g.entry, c.node, n);
      }
    }
  }

  lemma ChosenAlongEdges(g: Graph, log: seq<Completion>, matches: Matcher)
    requires Routed(g, log, matches)
    ensures Chosen(log) <= Arrows(g)
  {
    forall e | e in Chosen(log) ensures e in Arrows(g) {
      var c, t :| c in log && t in c.next && !Blank(t) && e == (c.node, t);
      RoutesAlongEdges(g, c.node, c.result, c.seen, matches, Next(c.next));
    }
  }

  /** At the end of a run the completed nodes are the least set with the entry that is closed under selection. */
  lemma CompletedIsLeastClosure(g: Graph, log: seq<Completion>, n: Id)
    requires Led(g, log) && Finished(log) == ScheduledBy(g, log)
    ensures n in Finished(log) <==> Reaches(Chosen(log), g.entry, n)
  {
    if Reaches(Chosen(log), g.entry, n) {
      ClosedContainsReach(Chosen(log), Finished(log), g.entry, n);
    }
  }

  // ---------- what the executors returned ----------

  /** Every completion is what the executors made of the context that its batch started on. */
  ghost predicate Ran(run: Executors, log: seq<Completion>) {
    forall c :: c in log ==> run(c.node, c.base) == Some(c.result)
  }

  /** No edge has a condition, and no executor stops or selects: routing is left to the edges. */
  ghost predicate StaticRouting(g: Graph, run: Executors) {
    && (forall e :: e in g.edges ==> e.condition.None?)
    && (forall n, s :: run(n, s).Some? ==> !run(n, s).value.stop && run(n, s).value.next.None?)
  }

  /** With static routing a successful run completes exactly the nodes the graph reaches from its entry. */
  lemma StaticRunCompletesReachable(g: Graph, run: Executors, log: seq<Completion>, matches: Matcher, n: Id)
    requires ValidGraph(g) && StaticRouting(g, run)
    requires Ran(run, log) && Routed(g, log, matches) && Led(g, log) && Finished(log) == ScheduledBy(g, log)
    ensures n in Finished(log) <==> Reaches(Arrows(g), g.entry, n)
  {
    hide ScheduledBy;
    ChosenAlongEdges(g, log, matches);
    CompletedIsLeastClosure(g, log, n);
    if n in Finished(log) {
      ReachesMono(Chosen(log), Arrows(g), g.entry, n);
    } else if Reaches(Arrows(g), g.entry, n) {
      forall e | e in Arrows(g) && e.0 in Finished(log) ensures e.1 in Finished(log) {
        var edge :| edge in g.edges && e == (edge.src, edge.dst);
        var c :| c in log && c.node == e.0;
        assert run(c.node, c.base) == Some(c.result);
        MatchingTargetsAre(g.edges, c.node, c.seen, matches);
        assert Connected(g, edge) && !Blank(e.1);
        assert e in Chosen(log);
      }
      EntryIsScheduled(g, log);
      ClosedContainsReach(Arrows(g), Finished(log), g.entry, n);
    }
  }

  lemma EntryIsScheduled(g: Graph, log: seq<Completion>)
    ensures g.entry in ScheduledBy(g, log)
  {
  }

  /** A validated graph never deadlocks: among pending scheduled nodes one has no pending predecessor. */
  lemma SomePendingNodeIsReady(g: Graph, pending: set<Id>)
    requires Acyclic(Arrows(g)) && pending != {}
    ensures exists n :: n in pending && forall e :: e in g.edges && e.dst == n ==> e.src !in pending
  {
    var n := AcyclicHasSource(Arrows(g), pending);
    forall e | e in g.edges && e.dst == n ensures e.src !in pending {
      assert (e.src, e.dst) in Arrows(g);
    }
  }

  ghost predicate PendingUpstream(g: Graph, scheduled: set<Id>, completed: set<Id>, n: Id) {
    exists e :: e in g.edges && e.dst == n && e.src in scheduled && e.src !in completed
  }

  ghost predicate Ready(g: Graph, scheduled: set<Id>, started: set<Id>, completed: set<Id>, n: Id) {
    n in scheduled && n !in started && n !in completed && !PendingUpstream(g, scheduled, completed, n)
  }

  // ---------- batches ----------

  /** The nodes of a batch are different and no edge joins two of them. */
  ghost predicate Parallel(g: Graph, batch: seq<Id>) {
    && Distinct(batch)
    && (forall m, n :: m in batch && n in batch ==> (m, n) !in Arrows(g))
  }

  lemma ReadyNodesAreParallel(g: Graph, scheduled: set<Id>, started: set<Id>, completed: set<Id>, batch: seq<Id>)
    requires Distinct(batch)
    requires forall n :: n in batch ==> Ready(g, scheduled, started, completed, n)
    ensures Parallel(g, batch)
  {
  }

  /** All starts of a run, batch after batch. */
  ghost function Starts(batches: seq<Batch>): seq<Id> {
    if batches == [] then [] else Starts(batches[..|batches| - 1]) + batches[|batches| - 1].nodes
  }

  function Members(ids: seq<Id>): set<Id> {
    set n | n in ids
  }

  /** A batch is a full or exhaustive choice of nodes that were ready when all earlier batches had completed. */
  ghost predicate SoundBatch(g: Graph, earlier: seq<Batch>, b: Batch, limit: int) {
    var done := Members(Starts(earlier));
    && 0 < |b.nodes| <= limit && Parallel(g, b.nodes)
    && (forall n :: n in b.nodes ==> Ready(g, b.scheduled, done, done, n))
    && (|b.nodes| < limit ==> forall n :: Ready(g, b.scheduled, done, done, n) ==> n in b.nodes)
    && (forall e :: e in earlier ==> e.scheduled <= b.scheduled)
  }

  ghost predicate SoundBatches(g: Graph, batches: seq<Batch>, limit: int) {
    && Distinct(Starts(batches))
    && (forall k :: 0 <= k < |batches| ==> SoundBatch(g, batches[..k], batches[k], limit))
  }

  /** Every batch begins when fewer than `steps` nodes have been started. */
  ghost predicate BegunBelow(batches: seq<Batch>, steps: int) {
    forall k :: 0 <= k < |batches| ==> |Starts(batches[..k])| < steps
  }

  lemma BatchesGrow(g: Graph, batches: seq<Batch>, b: Batch, limit: int)
    requires SoundBatches(g, batches, limit) && SoundBatch(g, batches, b, limit)
    ensures SoundBatches(g, batches + [b], limit)
  {
    hide SoundBatch, Distinct;
    var more := batches + [b];
    assert more[..|batches|] == batches;
    StartsAreDistinct(g, batches, b, limit);
    forall k | 0 <= k < |more| ensures SoundBatch(g, more[..k], more[k], limit) {
      if k < |batches| { assert more[..k] == batches[..k]; }
    }
  }

  lemma StartsAreDistinct(g: Graph, batches: seq<Batch>, b: Batch, limit: int)
    requires Distinct(Starts(batches)) && SoundBatch(g, batches, b, limit)
    ensures Distinct(Starts(batches) + b.nodes)
  {
    var s := Starts(batches);
    forall i, j | 0 <= i < |s| && 0 <= j < |b.nodes| ensures s[i] != b.nodes[j] {
      assert s[i] in Members(s) && b.nodes[j] in b.nodes;
    }
    ConcatDistinct(s, b.nodes);
  }

  lemma {:induction false} StartsOfBatches(batches: seq<Batch>, n: Id)
    ensures n in Starts(batches) <==> exists k :: 0 <= k < |batches| && n in batches[k].nodes
    decreases |batches|
  {
    if batches != [] {
      var last := |batches| - 1;
      StartsOfBatches(batches[..last], n);
      if k :| 0 <= k < |batches| && n in batches[k].nodes {
        if k < last { assert batches[..last][k] == batches[k]; }
      }
    }
  }

  /** A node is in one batch only. */
  lemma {:induction false} OneBatchEach(batches: seq<Batch>, i: nat, k: nat, n: Id)
    requires Distinct(Starts(batches)) && i <= k < |batches|
    requires n in batches[i].nodes && n in batches[k].nodes
    ensures i == k
    decreases |batches|
  {
    hide Distinct;
    var last := |batches| - 1;
    var front := batches[..last];
    DistinctParts(Starts(front), batches[last].nodes);
    if k < last {
      OneBatchEach(front, i, k, n);
    } else {
      StartsOfBatches(front, n);
      forall j | 0 <= j < last ensures n !in batches[j].nodes {
        assert front[j] == batches[j];
      }
    }
  }

  /**
   The exact order of a run: the source of an edge runs in an earlier batch than its target
   if and only if it was scheduled by the time the target was picked.
   */
  ghost predicate OrderedAsScheduled(g: Graph, batches: seq<Batch>) {
    forall i, k, p, n ::
      (0 <= i < |batches| && 0 <= k < |batches| && p in batches[i].nodes && n in batches[k].nodes && (p, n) in Arrows(g))
      ==> (i < k <==> p in batches[k].scheduled)
  }

  lemma AwaitedExactlyWhenScheduled(g: Graph, batches: seq<Batch>, limit: int, i: nat, k: nat, p: Id, n: Id)
    requires SoundBatches(g, batches, limit) && i < |batches| && k < |batches|
    requires p in batches[i].nodes && n in batches[k].nodes && (p, n) in Arrows(g)
    ensures i < k <==> p in batches[k].scheduled
  {
    assert SoundBatch(g, batches[..i], batches[i], limit) && SoundBatch(g, batches[..k], batches[k], limit);
    if i < k {
      assert batches[..k][i] == batches[i];
    }
    if p in batches[k].scheduled {
      var e :| e in g.edges && (p, n) == (e.src, e.dst);
      var done := Members(Starts(batches[..k]));
      assert Ready(g, batches[k].scheduled, done, done, n);
      assert p in done;
      StartsOfBatches(batches[..k], p);
      var j :| 0 <= j < k && p in batches[..k][j].nodes;
      OneBatchEach(batches, if i < j then i else j, if i < j then j else i, p);
    }
  }

  lemma SoundBatchesAreOrdered(g: Graph, batches: seq<Batch>, limit: int)
    requires SoundBatches(g, batches, limit)
    ensures OrderedAsScheduled(g, batches)
  {
    forall i, k, p, n | 0 <= i < |batches| && 0 <= k < |batches|
      && p in batches[i].nodes && n in batches[k].nodes && (p, n) in Arrows(g)
      ensures i < k <==> p in batches[k].scheduled
    {
      AwaitedExactlyWhenScheduled(g, batches, limit, i, k, p, n);
    }
  }

  // ---------- the history of a run ----------

  /** The context before the completion at an index, for a run that started on s. */
  ghost function Before(s: Snapshot, log: seq<Completion>, i: nat): Snapshot
    requires i <= |log|
  {
    if i == 0 then s else log[i - 1].seen
  }

  /** What the completions leave of the context that the run started on. */
  ghost function ContextAfter(s: Snapshot, log: seq<Completion>): Snapshot {
    Before(s, log, |log|)
  }

  ghost predicate Merging(before: Snapshot, c: Completion) {
    WritesInSomeOrder(c.writes, c.result) && c.seen == Merged(before, c.node, c.result, c.writes)
  }

  /** Every completion merged its writes into the context that the previous one left. */
  ghost predicate Chained(s: Snapshot, log: seq<Completion>) {
    forall i :: 0 <= i < |log| ==> Merging(Before(s, log, i), log[i])
  }

  lemma ChainGrows(s: Snapshot, log: seq<Completion>, c: Completion)
    requires Chained(s, log) && Merging(ContextAfter(s, log), c)
    ensures Chained(s, log + [c]) && ContextAfter(s, log + [c]) == c.seen
  {
    hide Merging;
    var more := log + [c];
    forall i | 0 <= i < |more| ensures Merging(Before(s, more, i), more[i]) {
      if i < |log| { assert Before(s, more, i) == Before(s, log, i); }
    }
  }

  /** The writes of a run, in the order they were merged. */
  ghost function Trace(log: seq<Completion>): seq<Write> {
    if log == [] then [] else Trace(log[..|log| - 1]) + log[|log| - 1].writes
  }

  /** The writes that the results of a run asked for. */
  ghost function LogWrites(log: seq<Completion>): multiset<Write> {
    if log == [] then multiset{} else LogWrites(log[..|log| - 1]) + ResultWrites(log[|log| - 1].result)
  }

  /** A run leaves its initial context with exactly the writes of its results applied, in some order. */
  lemma {:induction false} ContextIsTraced(s: Snapshot, log: seq<Completion>)
    requires Chained(s, log)
    ensures ContextAfter(s, log) == Snapshot(s.input, ApplyAll(s.ctx, Trace(log)), s.vars, ContextAfter(s, log).last)
    ensures multiset(Trace(log)) == LogWrites(log)
    decreases |log|
  {
    hide ApplyAll, ResultWrites, WritesInSomeOrder;
    if log == [] {
      NothingIsApplied(s.ctx);
    } else {
      var k := |log| - 1;
      var front, c := log[..k], log[k];
      forall i | 0 <= i < |front| ensures Merging(Before(s, front, i), front[i]) {
        assert Merging(Before(s, log, i), log[i]);
      }
      ContextIsTraced(s, front);
      assert Merging(Before(s, log, k), c) && Before(s, log, k) == ContextAfter(s, front);
      ApplyAllConcat(s.ctx, Trace(front), c.writes);
      MergedWrites(c);
    }
  }

  lemma NothingIsApplied(ctx: Object)
    ensures ApplyAll(ctx, []) == ctx
  {
  }

  lemma MergedWrites(c: Completion)
    requires WritesInSomeOrder(c.writes, c.result)
    ensures multiset(c.writes) == ResultWrites(c.result)
  {
    WritesAreTheResults(c.writes, c.result);
  }

  lemma {:induction false} LogWritesAre(log: seq<Completion>, w: Write)
    ensures w in LogWrites(log) <==> exists c :: c in log && w in ResultWrites(c.result)
    decreases |log|
  {
    hide ResultWrites;
    if log != [] {
      var front, c := log[..|log| - 1], log[|log| - 1];
      assert log == front + [c];
      LogWritesAre(front, w);
    }
  }

  /** Every path that a result of the run writes names its segments. */
  ghost predicate NamedWrites(log: seq<Completion>) {
    forall c, w :: c in log && w in ResultWrites(c.result) ==> Named(w)
  }

  /** A whole run leaves the flow input alone, and the responses to the results' response writes. */
  lemma RunRespectsReadOnlyDomains(s: Snapshot, log: seq<Completion>)
    requires Chained(s, log) && NamedWrites(log)
    ensures SameAt(s.ctx, ContextAfter(s, log).ctx, "flow_input")
    ensures (forall c :: c in log ==> c.result.responseWrites == map[]) ==>
              SameAt(s.ctx, ContextAfter(s, log).ctx, "responses")
  {
    hide ApplyAll, ResultWrites, Chained, ContextAfter, SameAt, Named;
    ContextIsTraced(s, log);
    var ws := Trace(log);
    forall i | 0 <= i < |ws|
      ensures Named(ws[i]) && ((forall c :: c in log ==> c.result.responseWrites == map[]) ==> !ws[i].system)
    {
      assert ws[i] in multiset(ws);
      LogWritesAre(log, ws[i]);
      var c :| c in log && ws[i] in ResultWrites(c.result);
      ResponseWritesAreSystem(c.result, ws[i]);
    }
    MergeRespectsReadOnlyDomains(s.ctx, ws);
  }

  lemma ResponseWritesAreSystem(r: NodeResult, w: Write)
    requires w in ResultWrites(r)
    ensures r.responseWrites == map[] ==> !w.system
  {
    assert w in WritesOf(false, r.contextWrites) || w in WritesOf(true, r.responseWrites);
  }

  ghost function NodesOf(log: seq<Completion>): seq<Id> {
    seq(|log|, i requires 0 <= i < |log| => log[i].node)
  }

  /** The last completions of the log are those of the batch, each run on the context that the earlier ones left. */
  ghost predicate Closes(g: Graph, s: Snapshot, log: seq<Completion>, b: Batch) {
    |b.nodes| <= |log| &&
    var k := |log| - |b.nodes|;
    && multiset(NodesOf(log[k..])) == multiset(b.nodes)
    && b.scheduled == ScheduledBy(g, log[..k])
    && forall c :: c in log[k..] ==> c.base == ContextAfter(s, log[..k])
  }

  /** The log is the completions of the batches, batch after batch. */
  ghost predicate History(g: Graph, s: Snapshot, batches: seq<Batch>, log: seq<Completion>)
    decreases |batches|
  {
    if batches == [] then log == []
    else
      var last := |batches| - 1;
      && Closes(g, s, log, batches[last])
      && History(g, s, batches[..last], log[..|log| - |batches[last].nodes|])
  }

  /** What a batch found scheduled is what the completions of the earlier batches scheduled. */
  lemma {:induction false} HistoryUpTo(g: Graph, s: Snapshot, batches: seq<Batch>, log: seq<Completion>, k: nat)
    requires History(g, s, batches, log) && k <= |batches|
    ensures var m := |Starts(batches[..k])|;
            && m <= |log| && History(g, s, batches[..k], log[..m])
            && (k < |batches| ==> batches[k].scheduled == ScheduledBy(g, log[..m]))
    ensures |Starts(batches)| == |log|
    decreases |batches|
  {
    hide ScheduledBy, ContextAfter, NodesOf;
    if batches == [] {
      assert batches[..k] == [] && log[..0] == [];
    } else {
      var last := |batches| - 1;
      var front, before := batches[..last], log[..|log| - |batches[last].nodes|];
      HistoryUpTo(g, s, front, before, if k <= last then k else last);
      assert front[..last] == front && before[..|before|] == before;
      if k <= last {
        assert batches[..k] == front[..k];
        var m := |Starts(batches[..k])|;
        assert before[..m] == log[..m];
      } else {
        assert batches[..k] == batches && log[..|log|] == log;
      }
    }
  }

  lemma HistoryGrows(g: Graph, s: Snapshot, batches: seq<Batch>, log: seq<Completion>, b: Batch,
                     merged: seq<Completion>)
    requires History(g, s, batches, log) && b.scheduled == ScheduledBy(g, log)
    requires multiset(NodesOf(merged)) == multiset(b.nodes)
    requires forall c :: c in merged ==> c.base == ContextAfter(s, log)
    ensures History(g, s, batches + [b], log + merged)
  {
    hide ScheduledBy, ContextAfter;
    var more := batches + [b];
    assert |multiset(NodesOf(merged))| == |merged| && |multiset(b.nodes)| == |b.nodes|;
    assert (log + merged)[|log|..] == merged && (log + merged)[..|log|] == log;
    assert more[..|batches|] == batches;
  }

  // ---------- the writes of a batch ----------

  ghost function ResultWrites(r: NodeResult): multiset<Write> {
    multiset(WritesOf(false, r.contextWrites)) + multiset(WritesOf(true, r.responseWrites))
  }

  ghost function BatchWrites(order: seq<Id>, results: map<Id, NodeResult>): multiset<Write>
    requires forall n :: n in order ==> n in results
  {
    if order == [] then multiset{}
    else BatchWrites(order[..|order| - 1], results) + ResultWrites(results[order[|order| - 1]])
  }

  lemma {:induction false} BatchWritesConcat(a: seq<Id>, b: seq<Id>, results: map<Id, NodeResult>)
    requires forall n :: n in a + b ==> n in results
    ensures forall n :: n in a || n in b ==> n in results
    ensures BatchWrites(a + b, results) == BatchWrites(a, results) + BatchWrites(b, results)
    decreases |b|
  {
    forall n | n in a || n in b ensures n in results { assert n in a + b; }
    if b == [] {
      assert a + b == a;
    } else {
      var front := b[..|b| - 1];
      assert (a + b)[..|a + b| - 1] == a + front;
      forall n | n in a + front ensures n in results { assert n in a || n in b; }
      BatchWritesConcat(a, front, results);
    }
  }

  lemma OneFromTheMiddle(a: seq<Id>, x: Id, b: seq<Id>, results: map<Id, NodeResult>)
    requires forall n :: n in a + [x] + b ==> n in results
    ensures (forall n :: n in a + b ==> n in results) && x in results
    ensures BatchWrites(a + [x] + b, results) == BatchWrites([x], results) + BatchWrites(a + b, results)
  {
    hide BatchWrites;
    assert x in a + [x] + b;
    forall n | n in a + b ensures n in results { assert n in a + [x] + b; }
    BatchWritesConcat(a + [x], b, results);
    BatchWritesConcat(a, [x], results);
    BatchWritesConcat(a, b, results);
  }

  lemma {:induction false} BatchWritesOrderFree(xs: seq<Id>, ys: seq<Id>, results: map<Id, NodeResult>)
    requires multiset(xs) == multiset(ys) && forall n :: n in xs ==> n in results
    ensures forall n :: n in ys ==> n in results
    ensures BatchWrites(xs, results) == BatchWrites(ys, results)
    decreases |xs|
  {
    hide ResultWrites;
    forall n | n in ys ensures n in results { assert n in multiset(xs); }
    if xs == [] {
      assert |multiset(ys)| == 0;
    } else {
      var x := xs[0];
      assert xs == [x] + xs[1..];
      var k := RestOfPermutation(x, xs[1..], ys);
      assert ys == ys[..k] + [x] + ys[k + 1..];
      var others := ys[..k] + ys[k + 1..];
      BatchWritesOrderFree(xs[1..], others, results);
      BatchWritesConcat([x], xs[1..], results);
      OneFromTheMiddle(ys[..k], x, ys[k + 1..], results);
    }
  }

  /** A merge of a whole batch from one context: its results arrive in some order, and each is merged and routed in turn. */
  ghost predicate BatchMerge(g: Graph, s: Snapshot, batch: seq<Id>, results: map<Id, NodeResult>, matches: Matcher,
                             merged: seq<Completion>) {
    && (forall n :: n in batch ==> n in results)
    && multiset(NodesOf(merged)) == multiset(batch)
    && (forall c :: c in merged ==> c.node in results && c.result == results[c.node])
    && Chained(s, merged) && Routed(g, merged, matches)
  }

  lemma {:induction false} TraceIsTheBatch(merged: seq<Completion>, results: map<Id, NodeResult>)
    requires forall c :: c in merged ==> c.node in results && c.result == results[c.node]
    requires forall c :: c in merged ==> WritesInSomeOrder(c.writes, c.result)
    ensures forall n :: n in NodesOf(merged) ==> n in results
    ensures multiset(Trace(merged)) == BatchWrites(NodesOf(merged), results)
    decreases |merged|
  {
    hide ResultWrites, WritesInSomeOrder;
    forall n | n in NodesOf(merged) ensures n in results {
      var i :| 0 <= i < |merged| && NodesOf(merged)[i] == n;
      assert merged[i] in merged;
    }
    if merged != [] {
      var front, c := merged[..|merged| - 1], merged[|merged| - 1];
      TraceIsTheBatch(front, results);
      assert NodesOf(merged)[..|merged| - 1] == NodesOf(front);
      assert c in merged;
      MergedWrites(c);
    }
  }

  lemma BatchMergeUnfolds(g: Graph, s: Snapshot, batch: seq<Id>, results: map<Id, NodeResult>, matches: Matcher,
                          merged: seq<Completion>)
    requires BatchMerge(g, s, batch, results, matches, merged)
    ensures forall n :: n in NodesOf(merged) ==> n in results
    ensures multiset(Trace(merged)) == BatchWrites(NodesOf(merged), results)
    ensures ContextAfter(s, merged).ctx == ApplyAll(s.ctx, Trace(merged))
  {
    hide BatchWrites, Trace, ApplyAll, WritesInSomeOrder, Routed;
    ContextIsTraced(s, merged);
    forall c | c in merged ensures WritesInSomeOrder(c.writes, c.result) {
      var i :| 0 <= i < |merged| && merged[i] == c;
      assert Merging(Before(s, merged, i), merged[i]);
    }
    TraceIsTheBatch(merged, results);
  }

  /** Any two merges of one batch leave the same context, when its writes are apart from each other. */
  lemma BatchMergeOrderFree(g: Graph, s: Snapshot, batch: seq<Id>, results: map<Id, NodeResult>, matches: Matcher,
                            merged: seq<Completion>, merged': seq<Completion>)
    requires BatchMerge(g, s, batch, results, matches, merged) && BatchMerge(g, s, batch, results, matches, merged')
    requires Mergeable(Trace(merged))
    ensures multiset(Trace(merged)) == multiset(Trace(merged'))
    ensures ContextAfter(s, merged).ctx == ContextAfter(s, merged').ctx
  {
    hide BatchWrites, Trace, ApplyAll, Chained, Mergeable, ContextAfter, NodesOf;
    BatchMergeUnfolds(g, s, batch, results, matches, merged);
    BatchMergeUnfolds(g, s, batch, results, matches, merged');
    BatchWritesOrderFree(NodesOf(merged), NodesOf(merged'), results);
    MergeOrderFree(s.ctx, Trace(merged), Trace(merged'));
  }
}
