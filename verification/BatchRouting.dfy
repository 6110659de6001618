/**
 Routing inside a batch: when the order in which parallel results arrive decides nothing at
 all, neither what the context holds nor which nodes come next.
 */
module BatchRouting {
  import opened Text
  import opened Graphs
  import opened JsonValues
  import opened RunContexts
  import opened Sequences
  import opened WorkflowGraphs
  import opened DagScheduler
  import opened EdgeRouting

  /** The matcher is the evaluation of edge conditions with this rendering. */
  ghost predicate Evaluates(matches: Matcher, render: JsonRender) {
    forall c, s :: matches(c, s) == EdgeMatches(Some(c), s, render)
  }

  /** Every condition on an edge out of the batch is spared by what the other nodes of the batch write. */
  ghost predicate SparedBatch(g: Graph, batch: seq<Id>, results: map<Id, NodeResult>) {
    forall e, m, w ::
      (e in g.edges && e.condition.Some? && e.src in batch
       && m in batch && m != e.src && m in results && w in ResultWrites(results[m]))
      ==> Spared(e.condition.value, w)
  }

  lemma {:induction false} TraceMember(log: seq<Completion>, w: Write)
    ensures w in Trace(log) <==> exists c :: c in log && w in c.writes
    decreases |log|
  {
    if log != [] {
      var front, c := log[..|log| - 1], log[|log| - 1];
      assert log == front + [c];
      TraceMember(front, w);
    }
  }

  lemma {:induction false} TraceConcat(a: seq<Completion>, b: seq<Completion>)
    ensures Trace(a + b) == Trace(a) + Trace(b)
    decreases |b|
  {
    if b == [] {
      assert a + b == a;
    } else {
      assert (a + b)[..|a + b| - 1] == a + b[..|b| - 1];
      TraceConcat(a, b[..|b| - 1]);
    }
  }

  lemma {:induction false} SameMatches(edges: seq<FlowEdge>, n: Id, s: Snapshot, t: Snapshot, matches: Matcher)
    requires forall e :: e in edges && e.src == n && e.condition.Some? ==>
               matches(e.condition.value, s) == matches(e.condition.value, t)
    ensures MatchingTargets(edges, n, s, matches) == MatchingTargets(edges, n, t, matches)
  {
    if edges != [] {
      var front, e := edges[..|edges| - 1], edges[|edges| - 1];
      assert edges == front + [e];
      SameMatches(front, n, s, t, matches);
    }
  }

  /** The context that a completion alone would have been routed on. */
  ghost function Alone(s: Snapshot, c: Completion): Snapshot {
    Merged(s, c.node, c.result, c.writes)
  }

  lemma Prefix(g: Graph, s: Snapshot, batch: seq<Id>, results: map<Id, NodeResult>, matches: Matcher,
               merged: seq<Completion>, i: nat)
    requires BatchMerge(g, s, batch, results, matches, merged) && i < |merged|
    ensures Chained(s, merged[..i]) && Merging(ContextAfter(s, merged[..i]), merged[i])
  {
    ChainPrefix(s, merged, i);
  }

  lemma ChainPrefix(s: Snapshot, merged: seq<Completion>, i: nat)
    requires Chained(s, merged) && i < |merged|
    ensures Chained(s, merged[..i]) && Merging(ContextAfter(s, merged[..i]), merged[i])
  {
    hide Merging;
    forall j | 0 <= j < i ensures Merging(Before(s, merged[..i], j), merged[..i][j]) {
      assert Merging(Before(s, merged, j), merged[j]);
    }
    assert Merging(Before(s, merged, i), merged[i]);
  }

  /** What a completion was routed on: the context with the earlier siblings' writes and its own applied. */
  lemma SeenAfterSiblings(g: Graph, s: Snapshot, batch: seq<Id>, results: map<Id, NodeResult>, matches: Matcher,
                          merged: seq<Completion>, i: nat)
    requires BatchMerge(g, s, batch, results, matches, merged) && i < |merged|
    ensures var c := merged[i];
            c.seen == Alone(s, c).(ctx := ApplyAll(s.ctx, Trace(merged[..i]) + c.writes))
    ensures WritesInSomeOrder(merged[i].writes, merged[i].result)
  {
    hide Chained, BatchMerge, WritesInSomeOrder, Trace, ApplyAll, LastOf, ContextAfter;
    Prefix(g, s, batch, results, matches, merged, i);
    ContextIsTraced(s, merged[..i]);
    ApplyAllConcat(s.ctx, Trace(merged[..i]), merged[i].writes);
  }

  lemma TraceOfOne(c: Completion)
    ensures Trace([c]) == c.writes
  {
    assert [c][..0] == [];
  }

  lemma SplitTrace(merged: seq<Completion>, i: nat)
    requires i < |merged|
    ensures Trace(merged) == Trace(merged[..i]) + merged[i].writes + Trace(merged[i + 1..])
  {
    hide Trace;
    assert merged == merged[..i] + [merged[i]] + merged[i + 1..];
    TraceConcat(merged[..i] + [merged[i]], merged[i + 1..]);
    TraceConcat(merged[..i], [merged[i]]);
    TraceOfOne(merged[i]);
  }

  lemma SiblingsAreOthers(batch: seq<Id>, merged: seq<Completion>, i: nat, j: nat)
    requires Distinct(batch) && multiset(NodesOf(merged)) == multiset(batch) && i < |merged| && j < |merged| && i != j
    ensures merged[i].node != merged[j].node && merged[i].node in batch && merged[j].node in batch
  {
    hide Distinct;
    var ns := NodesOf(merged);
    OnceEach(batch, ns[i]);
    assert ns[i] in multiset(ns) && ns[j] in multiset(ns);
    if i < j { TwiceCounts(ns, i, j); } else { TwiceCounts(ns, j, i); }
  }

  lemma {:induction false} OnceEach(s: seq<Id>, n: Id)
    requires Distinct(s)
    ensures multiset(s)[n] <= 1
    decreases |s|
  {
    if s != [] {
      var front, last := s[..|s| - 1], s[|s| - 1];
      assert s == front + [last];
      OnceEach(front, n);
    }
  }

  lemma TwiceCounts(s: seq<Id>, i: nat, j: nat)
    requires i < j < |s|
    ensures s[i] == s[j] ==> multiset(s)[s[i]] >= 2
  {
    assert s == s[..i] + [s[i]] + s[i + 1..j] + [s[j]] + s[j + 1..];
  }

  lemma EarlierSpare(g: Graph, s: Snapshot, batch: seq<Id>, results: map<Id, NodeResult>, matches: Matcher,
                     merged: seq<Completion>, i: nat, e: FlowEdge, w: Write)
    requires BatchMerge(g, s, batch, results, matches, merged) && Distinct(batch) && SparedBatch(g, batch, results)
    requires i < |merged| && e in g.edges && e.src == merged[i].node && e.condition.Some? && w in Trace(merged[..i])
    ensures Spared(e.condition.value, w)
  {
    hide Spared, Trace, Distinct, Merged, Chained, Routed, WritesInSomeOrder;
    TraceMember(merged[..i], w);
    var c :| c in merged[..i] && w in c.writes;
    var j :| 0 <= j < i && merged[j] == c;
    SiblingsAreOthers(batch, merged, i, j);
    assert c in merged;
    SeenAfterSiblings(g, s, batch, results, matches, merged, j);
    MergedWrites(c);
    assert w in multiset(c.writes);
  }

  /** Siblings that were merged before do not change what a condition answers on a completion. */
  lemma AnswersAsAlone(g: Graph, s: Snapshot, batch: seq<Id>, results: map<Id, NodeResult>, matches: Matcher,
                       render: JsonRender, merged: seq<Completion>, i: nat, e: FlowEdge)
    requires BatchMerge(g, s, batch, results, matches, merged) && Distinct(batch) && SparedBatch(g, batch, results)
    requires Mergeable(Trace(merged)) && Evaluates(matches, render)
    requires i < |merged| && e in g.edges && e.src == merged[i].node && e.condition.Some?
    ensures matches(e.condition.value, merged[i].seen) == matches(e.condition.value, Alone(s, merged[i]))
  {
    hide *;
    var c, others := merged[i], Trace(merged[..i]);
    var alone := Alone(s, c);
    SeenAfterSiblings(g, s, batch, results, matches, merged, i);
    SplitTrace(merged, i);
    MergeablePart(others + c.writes, Trace(merged[i + 1..]));
    forall k | 0 <= k < |others| ensures Spared(e.condition.value, others[k]) {
      assert others[k] in others;
      EarlierSpare(g, s, batch, results, matches, merged, i, e, others[k]);
    }
    AloneIs(s, c);
    var plain := alone.(ctx := s.ctx);
    assert multiset(others + c.writes) == multiset(c.writes + others);
    RoutingIgnoresSiblings(e.condition.value, plain, c.writes, others, others + c.writes, render);
    Evaluated(matches, render, e.condition.value, c.seen);
    Evaluated(matches, render, e.condition.value, alone);
    assert plain.(ctx := ApplyAll(s.ctx, others + c.writes)) == c.seen;
    assert plain.(ctx := ApplyAll(s.ctx, c.writes)) == alone;
  }

  lemma AloneIs(s: Snapshot, c: Completion)
    ensures Alone(s, c) == Snapshot(s.input, ApplyAll(s.ctx, c.writes), s.vars, LastOf(c.node, c.result))
  {
  }

  lemma Evaluated(matches: Matcher, render: JsonRender, c: Condition, s: Snapshot)
    requires Evaluates(matches, render)
    ensures matches(c, s) == EdgeMatches(Some(c), s, render)
  {
  }

  /** Two completions of one node, whatever order its own maps were iterated in, look the same on their own. */
  lemma AloneTheSame(s: Snapshot, c: Completion, d: Completion, a: seq<Write>, b: seq<Write>)
    requires c.node == d.node && c.result == d.result
    requires WritesInSomeOrder(c.writes, c.result) && WritesInSomeOrder(d.writes, d.result)
    requires Mergeable(a + c.writes + b)
    ensures Alone(s, c) == Alone(s, d)
  {
    hide Mergeable, ApplyAll, WritesInSomeOrder, ResultWrites, LastOf;
    MergedWrites(c);
    MergedWrites(d);
    MergeablePart(a + c.writes, b);
    MergeablePart(a, c.writes);
    MergeOrderFree(s.ctx, c.writes, d.writes);
  }

  /** A completion selects the same nodes whichever siblings were merged before it. */
  lemma SelectsTheSame(g: Graph, s: Snapshot, batch: seq<Id>, results: map<Id, NodeResult>, matches: Matcher,
                       render: JsonRender, merged: seq<Completion>, merged': seq<Completion>, i: nat, j: nat)
    requires BatchMerge(g, s, batch, results, matches, merged) && BatchMerge(g, s, batch, results, matches, merged')
    requires Distinct(batch) && SparedBatch(g, batch, results)
    requires Mergeable(Trace(merged)) && Mergeable(Trace(merged')) && Evaluates(matches, render)
    requires i < |merged| && j < |merged'| && merged[i].node == merged'[j].node
    ensures merged[i].next == merged'[j].next
  {
    hide *;
    var c, d := merged[i], merged'[j];
    SeenAfterSiblings(g, s, batch, results, matches, merged, i);
    SeenAfterSiblings(g, s, batch, results, matches, merged', j);
    MergedAndRouted(g, s, batch, results, matches, merged, i);
    MergedAndRouted(g, s, batch, results, matches, merged', j);
    SplitTrace(merged, i);
    AloneTheSame(s, c, d, Trace(merged[..i]), Trace(merged[i + 1..]));
    forall e | e in g.edges && e.src == c.node && e.condition.Some?
      ensures matches(e.condition.value, c.seen) == matches(e.condition.value, d.seen)
    {
      AnswersAsAlone(g, s, batch, results, matches, render, merged, i, e);
      AnswersAsAlone(g, s, batch, results, matches, render, merged', j, e);
    }
    SameMatches(g.edges, c.node, c.seen, d.seen, matches);
    SameRoutes(g, c, d, matches);
  }

  lemma MergedAndRouted(g: Graph, s: Snapshot, batch: seq<Id>, results: map<Id, NodeResult>, matches: Matcher,
                        merged: seq<Completion>, i: nat)
    requires BatchMerge(g, s, batch, results, matches, merged) && i < |merged|
    ensures var c := merged[i];
            c.node in results && c.result == results[c.node] && Routes(g, c.node, c.result, c.seen, matches, Next(c.next))
  {
    assert merged[i] in merged;
  }

  lemma SameRoutes(g: Graph, c: Completion, d: Completion, matches: Matcher)
    requires c.node == d.node && c.result == d.result
    requires MatchingTargets(g.edges, c.node, c.seen, matches) == MatchingTargets(g.edges, c.node, d.seen, matches)
    requires Routes(g, c.node, c.result, c.seen, matches, Next(c.next))
    requires Routes(g, d.node, d.result, d.seen, matches, Next(d.next))
    ensures c.next == d.next
  {
  }

  lemma PartnerOf(batch: seq<Id>, merged: seq<Completion>, merged': seq<Completion>, i: nat) returns (j: nat)
    requires multiset(NodesOf(merged)) == multiset(batch) == multiset(NodesOf(merged')) && i < |merged|
    ensures j < |merged'| && merged[i].node == merged'[j].node
  {
    assert NodesOf(merged)[i] in multiset(batch);
    assert NodesOf(merged)[i] in NodesOf(merged');
    j :| 0 <= j < |merged'| && NodesOf(merged')[j] == NodesOf(merged)[i];
  }

  /**
   A batch is order free: when its writes are apart and its conditions spared by the
   siblings' writes, any two merges of its results leave the same context and schedule
   the same nodes, each node selecting the same ones.
   */
  lemma BatchOrderFree(g: Graph, s: Snapshot, batch: seq<Id>, results: map<Id, NodeResult>, matches: Matcher,
                       render: JsonRender, log: seq<Completion>, merged: seq<Completion>, merged': seq<Completion>)
    requires BatchMerge(g, s, batch, results, matches, merged) && BatchMerge(g, s, batch, results, matches, merged')
    requires Distinct(batch) && SparedBatch(g, batch, results)
    requires Mergeable(Trace(merged)) && Evaluates(matches, render)
    ensures ContextAfter(s, merged).ctx == ContextAfter(s, merged').ctx
    ensures forall c, d :: c in merged && d in merged' && c.node == d.node ==> c.next == d.next
    ensures ScheduledBy(g, log + merged) == ScheduledBy(g, log + merged')
  {
    hide *;
    BatchMergeOrderFree(g, s, batch, results, matches, merged, merged');
    MergeableOrderFree(Trace(merged), Trace(merged'));
    forall c, d | c in merged && d in merged' && c.node == d.node ensures c.next == d.next {
      var i :| 0 <= i < |merged| && merged[i] == c;
      var j :| 0 <= j < |merged'| && merged'[j] == d;
      SelectsTheSame(g, s, batch, results, matches, render, merged, merged', i, j);
    }
    SamePermuted(g, s, batch, results, matches, merged, merged');
    SchedulesNoMore(g, batch, log, merged, merged');
    SchedulesNoMore(g, batch, log, merged', merged);
  }

  lemma SamePermuted(g: Graph, s: Snapshot, batch: seq<Id>, results: map<Id, NodeResult>, matches: Matcher,
                     merged: seq<Completion>, merged': seq<Completion>)
    requires BatchMerge(g, s, batch, results, matches, merged) && BatchMerge(g, s, batch, results, matches, merged')
    ensures multiset(NodesOf(merged)) == multiset(batch) == multiset(NodesOf(merged'))
  {
  }

  lemma SchedulesNoMore(g: Graph, batch: seq<Id>, log: seq<Completion>, merged: seq<Completion>,
                        merged': seq<Completion>)
    requires multiset(NodesOf(merged)) == multiset(batch) == multiset(NodesOf(merged'))
    requires forall c, d :: c in merged && d in merged' && c.node == d.node ==> c.next == d.next
    ensures ScheduledBy(g, log + merged) <= ScheduledBy(g, log + merged')
  {
    hide NodesOf;
    forall n | n in ScheduledBy(g, log + merged) ensures n in ScheduledBy(g, log + merged') {
      if n != g.entry {
        var c :| c in log + merged && n in c.next && !Blank(n);
        if c in log {
          assert c in log + merged';
        } else {
          var i :| 0 <= i < |merged| && merged[i] == c;
          var j := PartnerOf(batch, merged, merged', i);
          assert merged'[j] in merged' && merged'[j] in log + merged';
        }
      }
    }
  }
}
