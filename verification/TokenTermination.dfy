/**
 The token engine does not reject cyclic specs. When no executor fails, waits or chooses
 next nodes, a run ends exactly when no cycle is reachable from the sources.
 */
module TokenTermination {
  import opened Text
  import opened Graphs
  import Cycles = CycleSearch
  import opened TokenModel
  import opened TokenSafety
  import opened TokenPotential

  ghost function SourceSet(spec: FlowSpec): set<Id> {
    set n | n in Sources(spec.nodes, spec.edges)
  }

  // ---------- no reachable cycle: there is a rank ----------

  ghost function ReachedFrom(r: Rel, roots: set<Id>): set<Id> {
    set n | n in roots + Endpoints(r) && exists s :: s in roots && Reaches(r, s, n)
  }

  lemma ReachedClosed(r: Rel, roots: set<Id>)
    ensures roots <= ReachedFrom(r, roots) && ClosedUnder(r, ReachedFrom(r, roots))
  {
    forall n | n in roots ensures n in ReachedFrom(r, roots) { ReachesSelf(r, n); }
    forall e | e in r && e.0 in ReachedFrom(r, roots) ensures e.1 in ReachedFrom(r, roots) {
      var s :| s in roots && Reaches(r, s, e.0);
      ReachesEdge(r, e.0, e.1);
      ReachesTrans(r, s, e.0, e.1);
    }
  }

  lemma InsideCycleIsReached(r: Rel, roots: set<Id>, p: seq<Id>)
    requires ClosedWalk((set e | e in r && e.0 in ReachedFrom(r, roots)), p)
    ensures Cycles.CycleFrom(r, roots)
  {
    var inside := set e | e in r && e.0 in ReachedFrom(r, roots);
    assert (p[0], p[1]) in inside;
    var s :| s in roots && Reaches(r, s, p[0]);
    assert Walk(r, p);
    assert Cycles.CycleVia(r, s, p);
  }

  lemma RankFromRoots(r: Rel, roots: set<Id>) returns (rank: map<Id, nat>)
    requires !Cycles.CycleFrom(r, roots)
    ensures Cycles.Settled(r, rank) && roots <= rank.Keys
  {
    var reached := ReachedFrom(r, roots);
    ReachedClosed(r, roots);
    var inside := set e | e in r && e.0 in reached;
    forall p ensures !ClosedWalk(inside, p) {
      if ClosedWalk(inside, p) { InsideCycleIsReached(r, roots, p); }
    }
    rank := RankWithin(inside, reached);
  }

  // ---------- a reachable cycle: there is always a ready token ----------

  /** Nodes from which a cycle can be reached. */
  ghost predicate Doomed(r: Rel, n: Id) {
    exists p :: Cycles.CycleVia(r, n, p)
  }

  lemma DoomedHasDoomedSuccessor(r: Rel, n: Id) returns (t: Id)
    requires Doomed(r, n)
    ensures (n, t) in r && Doomed(r, t)
  {
    var p :| Cycles.CycleVia(r, n, p);
    var w :| WalkBetween(r, w, n, p[0]);
    if |w| > 1 {
      t := w[1];
      WalkUnfolds(r, w);
      assert WalkBetween(r, w[1..], t, p[0]);
    } else {
      t := p[1];
      WalkUnfolds(r, p);
      assert WalkBetween(r, p[1..], t, p[0]);
    }
    assert Cycles.CycleVia(r, t, p);
  }

  /** Nothing a node calls out to ever fails, and no node waits. */
  ghost predicate Unfailing(spec: FlowSpec, p: Plugins) {
    && (forall node, data :: p.buildInput(node, data).Some?)
    && (forall v, node, input, data :: p.execute(v, node, input, data).Returned?)
    && (forall node, output, data :: p.applyWrites(node, output, data).1)
    && (forall node :: node in spec.nodes ==> node.kind != NODE_TYPE_WAIT)
  }

  lemma {:induction false} FindNodeFinds(nodes: seq<NodeSpec>, i: nat)
    requires i < |nodes|
    ensures FindNode(nodes, nodes[i].id).Some?
  {
    if i < |nodes| - 1 { FindNodeFinds(nodes[..|nodes| - 1], i); }
  }

  ghost predicate AtNodes(spec: FlowSpec, tokens: seq<Token>) {
    forall i :: 0 <= i < |tokens| ==> HasNode(spec, tokens[i].node)
  }

  lemma UnfailingRound(spec: FlowSpec, p: Plugins, inst: Instance, i: nat)
    requires ValidSpec(spec, p) && Static(spec, p) && Unfailing(spec, p)
    requires i < |inst.tokens| && inst.tokens[i].status == TokenReady && HasNode(spec, inst.tokens[i].node)
    ensures var step := ExecuteReady(spec, p, inst, i);
            var out := Outgoing(spec.edges, inst.tokens[i].node);
            && step.err.None?
            && step.inst.tokens == inst.tokens[i := step.inst.tokens[i]] + NewTokens(inst.tokens[i].node, out)
  {
    var k :| 0 <= k < |spec.nodes| && spec.nodes[k].id == inst.tokens[i].node;
    FindNodeFinds(spec.nodes, k);
    FindNodeHasId(spec.nodes, inst.tokens[i].node);
    var node := FindNode(spec.nodes, inst.tokens[i].node).value;
    var j :| 0 <= j < |spec.nodes| && spec.nodes[j] == node;
    var input := p.buildInput(node, inst.data).value;
    var started := StartToken(inst, i, node.id);
    UnfailingStarted(spec, p, started, i, node, input);
    ExecuteReadyStarts(spec, p, inst, i, node);
    var step := ExecuteReady(spec, p, inst, i);
    assert inst.tokens[i := started.tokens[i]][i := step.inst.tokens[i]] == inst.tokens[i := step.inst.tokens[i]];
  }

  lemma UnfailingStarted(spec: FlowSpec, p: Plugins, started: Instance, i: nat, node: NodeSpec, input: JsonObject)
    requires Static(spec, p) && Unfailing(spec, p) && i < |started.tokens|
    requires FindNode(spec.nodes, started.tokens[i].node) == Some(node)
    ensures var step := StartedStep(spec, p, started, i, node, input);
            && step.err.None?
            && Ends(spec, started, step.inst, i, Outgoing(spec.edges, node.id))
  {
    FindNodeHasId(spec.nodes, started.tokens[i].node);
    assert Legal(spec, p);
    if node.kind == NODE_TYPE_JOIN {
      var ids := JoinEnds(spec, started, i, node.id);
      assert Gathers(spec, node.id) <==> |Incoming(spec.edges, node.id)| > 1;
    } else {
      var ids := ExecutorEnds(spec, p, started, i, node, input);
    }
  }

  ghost predicate Haunted(spec: FlowSpec, tokens: seq<Token>) {
    && AtNodes(spec, tokens)
    && exists j :: 0 <= j < |tokens| && tokens[j].status == TokenReady && Doomed(RelOf(spec.edges), tokens[j].node)
  }

  lemma StillHaunted(spec: FlowSpec, p: Plugins, tokens: seq<Token>, i: nat, t: Token)
    requires ValidSpec(spec, p) && Haunted(spec, tokens) && i < |tokens| && t.node == tokens[i].node
    ensures Haunted(spec, tokens[i := t] + NewTokens(t.node, Outgoing(spec.edges, t.node)))
  {
    var out, r := Outgoing(spec.edges, t.node), RelOf(spec.edges);
    var tokens' := tokens[i := t] + NewTokens(t.node, out);
    forall k | 0 <= k < |tokens'| ensures HasNode(spec, tokens'[k].node) {
      if k >= |tokens| {
        OutgoingIsEdge(spec.edges, t.node, out[k - |tokens|]);
        assert HasNode(spec, Edge(t.node, out[k - |tokens|]).dst);
      }
    }
    var j :| 0 <= j < |tokens| && tokens[j].status == TokenReady && Doomed(r, tokens[j].node);
    if j == i {
      var next := DoomedHasDoomedSuccessor(r, t.node);
      OutgoingIsEdge(spec.edges, t.node, next);
      var k :| 0 <= k < |out| && out[k] == next;
      assert tokens'[|tokens| + k] == NewToken(next, t.node);
    } else {
      assert tokens'[j] == tokens[j];
    }
  }

  lemma HauntedIsReady(spec: FlowSpec, inst: Instance)
    requires Haunted(spec, inst.tokens)
    ensures FirstReady(inst.tokens, 0) < |inst.tokens|
    ensures HasNode(spec, inst.tokens[FirstReady(inst.tokens, 0)].node)
  {
  }

  lemma {:induction false} HauntedRunGoesOn(spec: FlowSpec, p: Plugins, inst: Instance, rounds: nat)
    requires ValidSpec(spec, p) && Static(spec, p) && Unfailing(spec, p) && Haunted(spec, inst.tokens)
    ensures Run(spec, p, inst, rounds).halt == StillReady
    decreases rounds
  {
    hide *;
    HauntedIsReady(spec, inst);
    RunByRounds(spec, p, inst, rounds);
    if rounds > 0 {
      var i := FirstReady(inst.tokens, 0);
      UnfailingRound(spec, p, inst, i);
      var step := ExecuteReady(spec, p, inst, i);
      EndedTokenStays(spec, p, inst, i);
      StillHaunted(spec, p, inst.tokens, i, step.inst.tokens[i]);
      HauntedRunGoesOn(spec, p, step.inst.(version := step.inst.version + 1), rounds - 1);
    }
  }

  lemma EndedTokenStays(spec: FlowSpec, p: Plugins, inst: Instance, i: nat)
    requires Static(spec, p) && i < |inst.tokens| && inst.tokens[i].status == TokenReady
    ensures var step := ExecuteReady(spec, p, inst, i);
            i < |step.inst.tokens| && step.inst.tokens[i].node == inst.tokens[i].node
  {
    assert Legal(spec, p);
    var t, ids := RoundSpends(spec, p, inst, i);
  }

  // ---------- the exact condition ----------

  lemma {:induction false} SourcesAreNodes(spec: FlowSpec, p: Plugins, nodes: seq<NodeSpec>)
    requires ValidSpec(spec, p) && nodes <= spec.nodes
    ensures forall n :: n in Sources(nodes, spec.edges) ==> HasNode(spec, n)
  {
    if nodes != [] {
      var k := |nodes| - 1;
      SourcesAreNodes(spec, p, nodes[..k]);
      assert spec.nodes[k].id == nodes[k].id;
    }
  }

  /** The first run of a flow ends exactly when no cycle is reachable from its sources. */
  lemma RunEndsExactlyWithoutCycles(spec: FlowSpec, p: Plugins, id: Id, input: JsonObject)
    requires ValidSpec(spec, p) && Static(spec, p) && Unfailing(spec, p)
    ensures (exists rounds: nat :: Ended(spec, p, Started(spec, id, input), rounds))
       <==> !Cycles.CycleFrom(RelOf(spec.edges), SourceSet(spec))
  {
    var start, r, sources := Started(spec, id, input), RelOf(spec.edges), Sources(spec.nodes, spec.edges);
    if Cycles.CycleFrom(r, SourceSet(spec)) {
      var s, w :| s in SourceSet(spec) && Cycles.CycleVia(r, s, w);
      var k :| 0 <= k < |sources| && sources[k] == s;
      SourcesAreNodes(spec, p, spec.nodes);
      assert start.tokens[k] == NewToken(s, NO_NODE);
      assert Haunted(spec, start.tokens);
      forall rounds: nat ensures !Ended(spec, p, start, rounds) {
        HauntedRunGoesOn(spec, p, start.(status := InstanceRunning), rounds);
      }
    } else {
      var rank := RankFromRoots(r, SourceSet(spec));
      assert Descends(spec.edges, rank);
      var rounds := Total(spec.edges, rank, sources);
      assert Legal(spec, p);
      EveryRunEnds(spec, p, rank, id, input, [], rounds);
      assert Ended(spec, p, start, rounds);
    }
  }

  ghost predicate Ended(spec: FlowSpec, p: Plugins, inst: Instance, rounds: nat) {
    !Run(spec, p, inst.(status := InstanceRunning), rounds).halt.StillReady?
  }
}
