/**
 Termination on cyclic specs. A gathering join fires at most once, so a flow whose cycles all
 pass through one still ends: every path may be followed as far as the next such join, plus
 once more from each join that has not fired yet.
 */
module TokenCycles {
  import opened Text
  import opened Graphs
  import opened TokenModel
  import opened TokenSafety
  import opened TokenPotential

  // ---------- the spec without the edges out of gathering joins ----------

  ghost function CutEdges(spec: FlowSpec, edges: seq<Edge>): seq<Edge> {
    if edges == [] then []
    else
      var front, e := CutEdges(spec, edges[..|edges| - 1]), edges[|edges| - 1];
      if Gathers(spec, e.src) then front else front + [e]
  }

  ghost function Cut(spec: FlowSpec): FlowSpec {
    spec.(edges := CutEdges(spec, spec.edges))
  }

  lemma {:induction false} CutOutgoing(spec: FlowSpec, edges: seq<Edge>, n: Id)
    ensures Outgoing(CutEdges(spec, edges), n) == if Gathers(spec, n) then [] else Outgoing(edges, n)
  {
    hide Gathers;
    if edges != [] {
      var front, e := edges[..|edges| - 1], edges[|edges| - 1];
      CutOutgoing(spec, front, n);
      if !Gathers(spec, e.src) {
        var cut := CutEdges(spec, front);
        assert (cut + [e])[..|cut|] == cut;
      }
    }
  }

  lemma {:induction false} CutMember(spec: FlowSpec, edges: seq<Edge>, e: Edge)
    ensures e in CutEdges(spec, edges) <==> e in edges && !Gathers(spec, e.src)
  {
    hide Gathers;
    if edges != [] {
      assert edges == edges[..|edges| - 1] + [edges[|edges| - 1]];
      CutMember(spec, edges[..|edges| - 1], e);
    }
  }

  /** Every cycle leaves a gathering join. */
  ghost predicate CyclesGather(spec: FlowSpec) {
    forall p :: ClosedWalk(RelOf(spec.edges), p) ==> exists i :: 0 <= i < |p| - 1 && Gathers(spec, p[i])
  }

  lemma CutWalksAvoidGatherers(spec: FlowSpec, p: seq<Id>)
    requires ClosedWalk(RelOf(Cut(spec).edges), p)
    ensures ClosedWalk(RelOf(spec.edges), p) && forall i :: 0 <= i < |p| - 1 ==> !Gathers(spec, p[i])
  {
    hide Gathers;
    forall i | 0 <= i < |p| - 1 ensures (p[i], p[i + 1]) in RelOf(spec.edges) && !Gathers(spec, p[i]) {
      assert (p[i], p[i + 1]) in RelOf(Cut(spec).edges);
      CutMember(spec, spec.edges, Edge(p[i], p[i + 1]));
    }
  }

  lemma CutIsAcyclic(spec: FlowSpec)
    requires CyclesGather(spec)
    ensures Acyclic(RelOf(Cut(spec).edges))
  {
    hide Gathers, Cut;
    forall p ensures !ClosedWalk(RelOf(Cut(spec).edges), p) {
      if ClosedWalk(RelOf(Cut(spec).edges), p) { CutWalksAvoidGatherers(spec, p); }
    }
  }

  // ---------- what the joins may still emit ----------

  /** The rank descends along the cut edges and covers the target of every edge. */
  ghost predicate Covers(spec: FlowSpec, rank: map<Id, nat>) {
    Descends(Cut(spec).edges, rank) && forall e :: e in spec.edges ==> e.dst in rank
  }

  lemma TargetsCovered(spec: FlowSpec, rank: map<Id, nat>, n: Id)
    requires Covers(spec, rank)
    ensures forall t :: t in Outgoing(spec.edges, n) ==> t in rank
  {
    forall t | t in Outgoing(spec.edges, n) ensures t in rank {
      OutgoingIsEdge(spec.edges, n, t);
    }
  }

  /** The weight that a join adds when it fires. */
  ghost function Burst(spec: FlowSpec, rank: map<Id, nat>, n: Id): nat
    requires Covers(spec, rank)
  {
    TargetsCovered(spec, rank, n);
    Total(Cut(spec).edges, rank, Outgoing(spec.edges, n))
  }

  /** The bursts of the joins among the nodes that have not fired yet. */
  ghost function Charge(spec: FlowSpec, rank: map<Id, nat>, nodes: seq<NodeSpec>, joins: Joins): nat
    requires Covers(spec, rank)
  {
    if nodes == [] then 0
    else
      var n := nodes[|nodes| - 1].id;
      Charge(spec, rank, nodes[..|nodes| - 1], joins)
      + if Gathers(spec, n) && !Fired(joins, n) then Burst(spec, rank, n) else 0
  }

  ghost predicate StillFired(joins: Joins, joins': Joins) {
    forall n :: Fired(joins, n) ==> Fired(joins', n)
  }

  lemma {:induction false} ChargeFalls(spec: FlowSpec, rank: map<Id, nat>, nodes: seq<NodeSpec>, joins: Joins,
                                       joins': Joins)
    requires Covers(spec, rank) && StillFired(joins, joins')
    ensures Charge(spec, rank, nodes, joins') <= Charge(spec, rank, nodes, joins)
  {
    hide Covers, Gathers, Burst, Fired;
    if nodes != [] { ChargeFalls(spec, rank, nodes[..|nodes| - 1], joins, joins'); }
  }

  lemma {:induction false} FiringIsPaid(spec: FlowSpec, rank: map<Id, nat>, nodes: seq<NodeSpec>, joins: Joins,
                                        joins': Joins, n: Id)
    requires Covers(spec, rank) && StillFired(joins, joins')
    requires Gathers(spec, n) && !Fired(joins, n) && Fired(joins', n)
    requires exists i :: 0 <= i < |nodes| && nodes[i].id == n
    ensures Charge(spec, rank, nodes, joins') + Burst(spec, rank, n) <= Charge(spec, rank, nodes, joins)
  {
    hide Covers, Gathers, Burst, Fired;
    var front := nodes[..|nodes| - 1];
    if nodes[|nodes| - 1].id == n {
      ChargeFalls(spec, rank, front, joins, joins');
    } else {
      var i :| 0 <= i < |nodes| && nodes[i].id == n;
      assert front[i].id == n;
      FiringIsPaid(spec, rank, front, joins, joins', n);
    }
  }

  // ---------- one round ----------

  ghost predicate Budgeted(spec: FlowSpec, rank: map<Id, nat>, tokens: seq<Token>) {
    Covers(spec, rank) && Placed(rank, tokens)
  }

  /** What an instance may still execute, the consumed tokens included. */
  ghost function Budget(spec: FlowSpec, rank: map<Id, nat>, inst: Instance): nat
    requires Budgeted(spec, rank, inst.tokens)
  {
    Potential(Cut(spec).edges, rank, inst.tokens) + Charge(spec, rank, spec.nodes, inst.joins)
  }

  ghost function ReadyBudget(spec: FlowSpec, rank: map<Id, nat>, inst: Instance): nat
    requires Budgeted(spec, rank, inst.tokens)
  {
    ReadyWeight(Cut(spec).edges, rank, inst.tokens) + Charge(spec, rank, spec.nodes, inst.joins)
  }

  lemma GathererIsANode(spec: FlowSpec, n: Id)
    requires Gathers(spec, n)
    ensures exists i :: 0 <= i < |spec.nodes| && spec.nodes[i].id == n
  {
    FindNodeHasId(spec.nodes, n);
    var node := FindNode(spec.nodes, n).value;
    var i :| 0 <= i < |spec.nodes| && spec.nodes[i] == node;
  }

  /** A gathering join that emits has just fired, as it emits once in its life. */
  lemma EmittingIsFiring(spec: FlowSpec, tokens: seq<Token>, joins: Joins, tokens': seq<Token>, joins': Joins,
                         i: nat, t: Token, ids: seq<Id>)
    requires Shape(spec, tokens, joins) && Shape(spec, tokens', joins')
    requires Spends(spec, tokens, tokens', i, t, ids) && t.source == tokens[i].source
    requires Gathers(spec, t.node) && ids != []
    ensures !Fired(joins, t.node) && Fired(joins', t.node)
  {
    hide Gathers, Fired;
    assert ExactEmission(spec, tokens, joins, t.node) && ExactEmission(spec, tokens', joins', t.node);
    EmittedUpdate(tokens, i, t, t.node);
    EmittedConcat(tokens[i := t], NewTokens(t.node, ids), t.node);
    EmittedNew(t.node, ids, t.node);
  }

  /** A join's burst pays for the tokens it emits. */
  lemma BurstIsEnough(spec: FlowSpec, rank: map<Id, nat>, n: Id, ids: seq<Id>)
    requires Covers(spec, rank) && multiset(ids) <= multiset(Outgoing(spec.edges, n))
    ensures forall t :: t in ids ==> t in rank
    ensures Total(Cut(spec).edges, rank, ids) <= Burst(spec, rank, n)
  {
    TargetsCovered(spec, rank, n);
    TotalMonotone(Cut(spec).edges, rank, ids, Outgoing(spec.edges, n));
  }

  lemma JoinWeighsOne(spec: FlowSpec, rank: map<Id, nat>, n: Id)
    requires Descends(Cut(spec).edges, rank) && n in rank && Gathers(spec, n)
    ensures Weight(Cut(spec).edges, rank, n) == 1
  {
    hide Gathers, Descends, Weight;
    WeightUnfolds(Cut(spec).edges, rank, n);
    CutOutgoing(spec, spec.edges, n);
    NoTotal(Cut(spec).edges, rank);
  }

  /** Spending at a gathering join, in the cut graph, where its token weighs one. */
  lemma SumsAtJoin(spec: FlowSpec, rank: map<Id, nat>, tokens: seq<Token>, tokens': seq<Token>, i: nat, t: Token,
                   ids: seq<Id>)
    requires Budgeted(spec, rank, tokens) && Spends(spec, tokens, tokens', i, t, ids) && Gathers(spec, t.node)
    requires tokens[i].status == TokenReady && t.status == TokenConsumed
    ensures Placed(rank, tokens') && forall s :: s in ids ==> s in rank
    ensures var cut := Cut(spec).edges;
            && Potential(cut, rank, tokens') == Potential(cut, rank, tokens) + Total(cut, rank, ids)
            && ReadyWeight(cut, rank, tokens') + 1 == ReadyWeight(cut, rank, tokens) + Total(cut, rank, ids)
  {
    hide Gathers, Covers, Potential, ReadyWeight, Total, Weight, Descends, Burst, Cut;
    var cut := Cut(spec).edges;
    assert Descends(cut, rank) && (forall s :: s in ids ==> s in rank) by {
      CoversDescends(spec, rank);
      BurstIsEnough(spec, rank, t.node, ids);
    }
    JoinWeighsOne(spec, rank, t.node);
    SumsOfNew(cut, rank, t.node, ids);
    SumsUpdate(cut, rank, tokens, i, t);
    SumsConcat(cut, rank, tokens[i := t], NewTokens(t.node, ids));
  }

  lemma CoversDescends(spec: FlowSpec, rank: map<Id, nat>)
    requires Covers(spec, rank)
    ensures Descends(Cut(spec).edges, rank)
  {
  }

  /** Spending elsewhere, or without emitting: the same in the cut graph. */
  lemma SpendsInCut(spec: FlowSpec, tokens: seq<Token>, tokens': seq<Token>, i: nat, t: Token, ids: seq<Id>)
    requires Spends(spec, tokens, tokens', i, t, ids) && (Gathers(spec, t.node) ==> ids == [])
    ensures Spends(Cut(spec), tokens, tokens', i, t, ids)
  {
    hide Gathers;
    CutOutgoing(spec, spec.edges, t.node);
  }

  /** A round that acts on the token at i as a spending does. */
  ghost predicate Round(spec: FlowSpec, inst: Instance, inst': Instance, i: nat, t: Token, ids: seq<Id>) {
    && Shape(spec, inst.tokens, inst.joins) && Shape(spec, inst'.tokens, inst'.joins)
    && StillFired(inst.joins, inst'.joins)
    && Spends(spec, inst.tokens, inst'.tokens, i, t, ids) && t.source == inst.tokens[i].source
    && inst.tokens[i].status == TokenReady && t.status != TokenReady
  }

  lemma RoundPays(spec: FlowSpec, rank: map<Id, nat>, inst: Instance, inst': Instance, i: nat, t: Token, ids: seq<Id>)
    requires Budgeted(spec, rank, inst.tokens) && Round(spec, inst, inst', i, t, ids)
    ensures Budgeted(spec, rank, inst'.tokens)
    ensures Budget(spec, rank, inst') <= Budget(spec, rank, inst)
    ensures ReadyBudget(spec, rank, inst') < ReadyBudget(spec, rank, inst)
  {
    hide Gathers, Covers, Potential, ReadyWeight, Total, Weight, Descends, Burst, Cut, Charge, Shape, Fired, StillFired;
    if Gathers(spec, t.node) && ids != [] {
      SumsAtJoin(spec, rank, inst.tokens, inst'.tokens, i, t, ids);
      BurstIsEnough(spec, rank, t.node, ids);
      EmittingIsFiring(spec, inst.tokens, inst.joins, inst'.tokens, inst'.joins, i, t, ids);
      GathererIsANode(spec, t.node);
      FiringIsPaid(spec, rank, spec.nodes, inst.joins, inst'.joins, t.node);
    } else {
      CoversDescends(spec, rank);
      SpendsInCut(spec, inst.tokens, inst'.tokens, i, t, ids);
      SumsAfterSpending(Cut(spec), rank, inst.tokens, inst'.tokens, i, t, ids);
      ChargeFalls(spec, rank, spec.nodes, inst.joins, inst'.joins);
    }
  }

  lemma ForwardKeepsFired(tokens: seq<Token>, joins: Joins, tokens': seq<Token>, joins': Joins)
    requires Forward(tokens, joins, tokens', joins')
    ensures StillFired(joins, joins')
  {
  }

  lemma RoundBudget(spec: FlowSpec, p: Plugins, rank: map<Id, nat>, inst: Instance, i: nat)
    requires Legal(spec, p) && Settled(spec, inst) && Budgeted(spec, rank, inst.tokens)
    requires i < |inst.tokens| && inst.tokens[i].status == TokenReady
    ensures var step := ExecuteReady(spec, p, inst, i);
            && Budgeted(spec, rank, step.inst.tokens)
            && Budget(spec, rank, step.inst) <= Budget(spec, rank, inst)
            && (step.err.None? ==> ReadyBudget(spec, rank, step.inst) < ReadyBudget(spec, rank, inst))
  {
    var t, ids := RoundSpends(spec, p, inst, i);
    RoundSafe(spec, p, inst, i);
    hide ExecuteReady, Legal, Gathers, Covers, Shape, Spends, Potential, ReadyWeight, Charge, Faithful;
    var step := ExecuteReady(spec, p, inst, i);
    ForwardKeepsFired(inst.tokens, inst.joins, step.inst.tokens, step.inst.joins);
    SpentKeepsSource(spec, inst, step.inst, i, t, ids);
    if t.status != TokenReady {
      RoundPays(spec, rank, inst, step.inst, i, t, ids);
    } else {
      ChargeFalls(spec, rank, spec.nodes, inst.joins, step.inst.joins);
    }
  }

  lemma SpentKeepsSource(spec: FlowSpec, inst: Instance, inst': Instance, i: nat, t: Token, ids: seq<Id>)
    requires Spends(spec, inst.tokens, inst'.tokens, i, t, ids)
    requires Forward(inst.tokens, inst.joins, inst'.tokens, inst'.joins)
    ensures t.source == inst.tokens[i].source
  {
    assert inst'.tokens[i] == t;
  }

  // ---------- runs and lives ----------

  lemma ReadyIsPaid(spec: FlowSpec, rank: map<Id, nat>, inst: Instance, i: nat)
    requires Budgeted(spec, rank, inst.tokens) && i < |inst.tokens| && inst.tokens[i].status == TokenReady
    ensures ReadyBudget(spec, rank, inst) > 0
  {
    ReadyCosts(Cut(spec), rank, inst.tokens, i);
  }

  lemma SameBudget(spec: FlowSpec, rank: map<Id, nat>, inst: Instance, inst': Instance)
    requires Budgeted(spec, rank, inst.tokens) && inst'.tokens == inst.tokens && inst'.joins == inst.joins
    ensures Budget(spec, rank, inst') == Budget(spec, rank, inst)
    ensures ReadyBudget(spec, rank, inst') == ReadyBudget(spec, rank, inst)
  {
  }

  lemma EndingKeepsJoins(inst: Instance)
    ensures Finalize(inst).tokens == inst.tokens && Finalize(inst).joins == inst.joins
    ensures forall failed, err :: Failed(failed, err).tokens == failed.tokens && Failed(failed, err).joins == failed.joins
  {
  }

  /** A run spends what the ready tokens and the open joins are worth, and no more. */
  lemma {:induction false} RunBudget(spec: FlowSpec, p: Plugins, rank: map<Id, nat>, inst: Instance, rounds: nat)
    requires Legal(spec, p) && Settled(spec, inst) && Budgeted(spec, rank, inst.tokens)
    ensures var r := Run(spec, p, inst, rounds);
            && Budgeted(spec, rank, r.inst.tokens)
            && Budget(spec, rank, r.inst) <= Budget(spec, rank, inst)
            && (rounds >= ReadyBudget(spec, rank, inst) ==> !r.halt.StillReady?)
    decreases rounds
  {
    hide *;
    var i := FirstReady(inst.tokens, 0);
    RunByRounds(spec, p, inst, rounds);
    EndingKeepsJoins(inst);
    if i == |inst.tokens| {
      SameBudget(spec, rank, inst, Finalize(inst));
    } else {
      ReadyIsPaid(spec, rank, inst, i);
      if rounds > 0 {
        RoundBudget(spec, p, rank, inst, i);
        RoundOutcome(spec, p, inst, i);
        var step := ExecuteReady(spec, p, inst, i);
        if step.err.None? {
          var next := step.inst.(version := step.inst.version + 1);
          SameBudget(spec, rank, step.inst, next);
          RunBudget(spec, p, rank, next, rounds - 1);
        } else {
          SameBudget(spec, rank, step.inst, Failed(step.inst, step.err.value));
        }
      }
    }
  }

  /** Waking a token completes its wait node, which is no join. */
  lemma WakingBudget(spec: FlowSpec, rank: map<Id, nat>, inst: Instance, i: nat, n: Id)
    requires Settled(spec, inst) && Budgeted(spec, rank, inst.tokens)
    requires i < |inst.tokens| && inst.tokens[i].status == TokenWaiting && inst.tokens[i].node == n
    ensures var next := Complete(inst, i, n, Outgoing(spec.edges, n));
            && Settled(spec, next) && Budgeted(spec, rank, next.tokens)
            && Budget(spec, rank, next) <= Budget(spec, rank, inst)
  {
    var next := Complete(inst, i, n, Outgoing(spec.edges, n));
    assert IsWait(spec, n) && !Gathers(spec, n);
    CompleteSafe(spec, inst, i, n, Outgoing(spec.edges, n));
    assert Idle(next.tokens);
    CutOutgoing(spec, spec.edges, n);
    hide Gathers, Covers, Shape, Potential, ReadyWeight, Charge, Faithful;
    CoversDescends(spec, rank);
    SumsAfterSpending(Cut(spec), rank, inst.tokens, next.tokens, i, next.tokens[i], Outgoing(spec.edges, n));
  }

  lemma {:induction false} WakeBudget(spec: FlowSpec, p: Plugins, rank: map<Id, nat>, inst: Instance,
                                      event: ExternalEvent, i: nat, end: nat)
    requires Settled(spec, inst) && Budgeted(spec, rank, inst.tokens) && end <= |inst.tokens|
    ensures var wake := WakeTokens(spec, p, inst, event, i, end);
            Budgeted(spec, rank, wake.inst.tokens) && Budget(spec, rank, wake.inst) <= Budget(spec, rank, inst)
    decreases end - i
  {
    hide Settled, Budgeted, Budget, Matches, Complete;
    if i < end {
      var token := inst.tokens[i];
      if token.status != TokenWaiting || !Matches(token.waitingFor, event) {
        WakeBudget(spec, p, rank, inst, event, i + 1, end);
      } else if FindNode(spec.nodes, token.node).Some? {
        var node := FindNode(spec.nodes, token.node).value;
        FindNodeHasId(spec.nodes, token.node);
        var (written, ok) := p.applyWrites(node, EventOutput(event), inst.data);
        var after := inst.(data := written);
        SameState(spec, rank, inst, after);
        if ok {
          WakingBudget(spec, rank, after, i, node.id);
          var next := Complete(after, i, node.id, Outgoing(spec.edges, node.id));
          CompleteGrows(after, i, node.id, Outgoing(spec.edges, node.id));
          WakeBudget(spec, p, rank, next, event, i + 1, end);
        }
      }
    }
  }

  lemma CompleteGrows(inst: Instance, i: nat, n: Id, next: seq<Id>)
    requires i < |inst.tokens|
    ensures |Complete(inst, i, n, next).tokens| >= |inst.tokens|
  {
  }

  lemma SameState(spec: FlowSpec, rank: map<Id, nat>, inst: Instance, after: Instance)
    requires Settled(spec, inst) && Budgeted(spec, rank, inst.tokens)
    requires after.tokens == inst.tokens && after.joins == inst.joins
    ensures Settled(spec, after) && Budgeted(spec, rank, after.tokens)
    ensures Budget(spec, rank, after) == Budget(spec, rank, inst)
  {
  }

  lemma AfterCallBudget(spec: FlowSpec, p: Plugins, rank: map<Id, nat>, stored: Instance, call: Call)
    requires Legal(spec, p) && Sound(spec, stored) && Budgeted(spec, rank, stored.tokens)
    ensures var after := AfterCall(spec, p, stored, call);
            Budgeted(spec, rank, after.tokens) && Budget(spec, rank, after) <= Budget(spec, rank, stored)
  {
    match call
    case CallRun(rounds) => AfterRunBudget(spec, p, rank, stored, rounds);
    case CallResume(event, rounds) =>
      var awake := Awaken(spec, p, stored, event);
      if awake.err.None? {
        WakeBudget(spec, p, rank, stored, event, 0, |stored.tokens|);
        WakeSafe(spec, p, stored, event, 0, |stored.tokens|);
        AfterRunBudget(spec, p, rank, awake.inst, rounds);
      }
  }

  lemma AfterRunBudget(spec: FlowSpec, p: Plugins, rank: map<Id, nat>, stored: Instance, rounds: nat)
    requires Legal(spec, p) && Sound(spec, stored) && Budgeted(spec, rank, stored.tokens)
    ensures var after := AfterRun(spec, p, stored, rounds);
            Budgeted(spec, rank, after.tokens) && Budget(spec, rank, after) <= Budget(spec, rank, stored)
  {
    hide Legal, Run, Budget, Covers, Placed, Shape;
    if !Terminal(stored.status) {
      var running := stored.(status := InstanceRunning);
      SameState(spec, rank, stored, running);
      RunBudget(spec, p, rank, running, rounds);
    }
  }

  /** What a flow may execute in its whole life: the paths of the cut graph from the sources, and each join's burst once. */
  ghost function LifeBudget(spec: FlowSpec, rank: map<Id, nat>): nat
    requires Covers(spec, rank) && forall n :: n in Sources(spec.nodes, spec.edges) ==> n in rank
  {
    Total(Cut(spec).edges, rank, Sources(spec.nodes, spec.edges)) + Charge(spec, rank, spec.nodes, map[])
  }

  lemma {:induction false} LifeWithinBudget(spec: FlowSpec, p: Plugins, rank: map<Id, nat>, id: Id, input: JsonObject,
                                            calls: seq<Call>)
    requires ValidSpec(spec, p) && Legal(spec, p) && Covers(spec, rank)
    requires forall n :: n in Sources(spec.nodes, spec.edges) ==> n in rank
    ensures var inst := Life(spec, p, Started(spec, id, input), calls);
            Budgeted(spec, rank, inst.tokens) && Budget(spec, rank, inst) <= LifeBudget(spec, rank)
    decreases |calls|
  {
    hide ValidSpec, Legal, Covers, Sound;
    var start := Started(spec, id, input);
    StartedIsSound(spec, p, id, input);
    if calls == [] {
      CoversDescends(spec, rank);
      SumsOfNew(Cut(spec).edges, rank, NO_NODE, Sources(spec.nodes, spec.edges));
    } else {
      var front := calls[..|calls| - 1];
      LifeWithinBudget(spec, p, rank, id, input, front);
      LifeSafe(spec, p, start, front);
      AfterCallBudget(spec, p, rank, Life(spec, p, start, front), calls[|calls| - 1]);
    }
  }

  /** Running the instance, unless it is over, ends within so many rounds. */
  ghost predicate EndsWithin(spec: FlowSpec, p: Plugins, inst: Instance, rounds: nat) {
    !Terminal(inst.status) ==> !Run(spec, p, inst.(status := InstanceRunning), rounds).halt.StillReady?
  }

  /** Every run of such a flow, at any point of its life, is over within its budget of rounds. */
  lemma EveryRunEndsWithinBudget(spec: FlowSpec, p: Plugins, rank: map<Id, nat>, id: Id, input: JsonObject,
                                 calls: seq<Call>, rounds: nat)
    requires ValidSpec(spec, p) && Legal(spec, p) && Covers(spec, rank)
    requires forall n :: n in Sources(spec.nodes, spec.edges) ==> n in rank
    requires rounds >= LifeBudget(spec, rank)
    ensures EndsWithin(spec, p, Life(spec, p, Started(spec, id, input), calls), rounds)
  {
    hide Legal, Covers, Run, LifeBudget, Life, ValidSpec;
    var start := Started(spec, id, input);
    var inst := Life(spec, p, start, calls);
    LifeWithinBudget(spec, p, rank, id, input, calls);
    StartedIsSound(spec, p, id, input);
    LifeSafe(spec, p, start, calls);
    if !Terminal(inst.status) {
      var running := inst.(status := InstanceRunning);
      SameState(spec, rank, inst, running);
      ReadyWithinBudget(spec, rank, running);
      RunBudget(spec, p, rank, running, rounds);
    }
  }

  lemma ReadyWithinBudget(spec: FlowSpec, rank: map<Id, nat>, inst: Instance)
    requires Budgeted(spec, rank, inst.tokens)
    ensures ReadyBudget(spec, rank, inst) <= Budget(spec, rank, inst)
  {
    ReadyWithinPotential(Cut(spec).edges, rank, inst.tokens);
  }

  ghost function NodeIds(spec: FlowSpec): set<Id> {
    set i | 0 <= i < |spec.nodes| :: spec.nodes[i].id
  }

  lemma {:induction false} SourcesHaveNodes(nodes: seq<NodeSpec>, edges: seq<Edge>, n: Id)
    requires n in Sources(nodes, edges)
    ensures exists i :: 0 <= i < |nodes| && nodes[i].id == n
  {
    var k := |nodes| - 1;
    if n in Sources(nodes[..k], edges) {
      SourcesHaveNodes(nodes[..k], edges, n);
      var i :| 0 <= i < k && nodes[..k][i].id == n;
      assert nodes[i].id == n;
    }
  }

  lemma RankOfCut(spec: FlowSpec, p: Plugins) returns (rank: map<Id, nat>)
    requires ValidSpec(spec, p) && CyclesGather(spec)
    ensures Covers(spec, rank) && forall n :: n in Sources(spec.nodes, spec.edges) ==> n in rank
  {
    hide CyclesGather, Acyclic, Gathers;
    var cut, ids := RelOf(Cut(spec).edges), NodeIds(spec);
    CutIsAcyclic(spec);
    rank := RankWithin(cut, ids);
    forall e | e in spec.edges ensures e.src in ids && e.dst in ids {
      assert HasNode(spec, e.src) && HasNode(spec, e.dst);
    }
    forall e | e in cut ensures e.0 in ids && e.1 in ids {
      CutMember(spec, spec.edges, Edge(e.0, e.1));
    }
    forall n | n in Sources(spec.nodes, spec.edges) ensures n in ids {
      SourcesHaveNodes(spec.nodes, spec.edges, n);
    }
  }

  /** A flow whose cycles all pass through a gathering join has a bound on every run it ever makes. */
  lemma GatheredCyclesEnd(spec: FlowSpec, p: Plugins) returns (bound: nat)
    requires ValidSpec(spec, p) && Legal(spec, p) && CyclesGather(spec)
    ensures forall id, input, calls, rounds: nat :: rounds >= bound ==>
              EndsWithin(spec, p, Life(spec, p, Started(spec, id, input), calls), rounds)
  {
    var rank := RankOfCut(spec, p);
    bound := LifeBudget(spec, rank);
    hide *;
    forall id, input, calls, rounds: nat | rounds >= bound
      ensures EndsWithin(spec, p, Life(spec, p, Started(spec, id, input), calls), rounds)
    {
      EveryRunEndsWithinBudget(spec, p, rank, id, input, calls, rounds);
    }
  }
}
