/**
 What every call on a flow instance keeps, for every spec and all plugins: tokens only
 grow and are never un-consumed, joins fire once and only when complete, and the stored
 status tells the truth about the tokens.
 */
module TokenSafety {
  import opened Text
  import opened Graphs
  import JsonValues
  import opened TokenModel

  type JsonObject = JsonValues.Object

  type Joins = map<Id, JoinState>

  // ---------- counting the tokens a node emitted ----------

  function EmittedBy(tokens: seq<Token>, n: Id): nat {
    if tokens == [] then 0
    else EmittedBy(tokens[..|tokens| - 1], n) + (if tokens[|tokens| - 1].source == n then 1 else 0)
  }

  lemma {:induction false} EmittedConcat(a: seq<Token>, b: seq<Token>, n: Id)
    ensures EmittedBy(a + b, n) == EmittedBy(a, n) + EmittedBy(b, n)
    decreases |b|
  {
    if b == [] {
      assert a + b == a;
    } else {
      assert (a + b)[..|a + b| - 1] == a + b[..|b| - 1];
      EmittedConcat(a, b[..|b| - 1], n);
    }
  }

  lemma EmittedUpdate(tokens: seq<Token>, i: nat, t: Token, n: Id)
    requires i < |tokens| && t.source == tokens[i].source
    ensures EmittedBy(tokens[i := t], n) == EmittedBy(tokens, n)
  {
    assert tokens == tokens[..i] + [tokens[i]] + tokens[i + 1..];
    assert tokens[i := t] == tokens[..i] + [t] + tokens[i + 1..];
    EmittedConcat(tokens[..i] + [tokens[i]], tokens[i + 1..], n);
    EmittedConcat(tokens[..i] + [t], tokens[i + 1..], n);
    EmittedConcat(tokens[..i], [tokens[i]], n);
    EmittedConcat(tokens[..i], [t], n);
    assert EmittedBy([t], n) == EmittedBy([tokens[i]], n);
  }

  lemma {:induction false} EmittedNew(source: Id, ids: seq<Id>, n: Id)
    ensures EmittedBy(NewTokens(source, ids), n) == if source == n then |ids| else 0
  {
    if ids != [] {
      EmittedNew(source, ids[..|ids| - 1], n);
      var ts := NewTokens(source, ids);
      assert ts[..|ts| - 1] == NewTokens(source, ids[..|ids| - 1]);
    }
  }

  // ---------- the shape of tokens and joins ----------

  /** A token from a has been used up at n. */
  ghost predicate Delivered(tokens: seq<Token>, n: Id, a: Id) {
    exists i :: 0 <= i < |tokens| && tokens[i].node == n && tokens[i].source == a && tokens[i].status == TokenConsumed
  }

  ghost predicate HonestJoin(spec: FlowSpec, tokens: seq<Token>, n: Id, join: JoinState) {
    && Gathers(spec, n)
    && join.expected == Incoming(spec.edges, n)
    && (forall a :: a in join.arrived ==> a != NO_NODE && Delivered(tokens, n, a))
    && (join.completed ==> ArrivedAll(join))
  }

  predicate Fired(joins: Joins, n: Id) {
    n in joins && joins[n].completed
  }

  /** A gathering join has emitted nothing before it fired, and one token per outgoing edge since. */
  ghost predicate ExactEmission(spec: FlowSpec, tokens: seq<Token>, joins: Joins, n: Id) {
    EmittedBy(tokens, n) == if Fired(joins, n) then |Outgoing(spec.edges, n)| else 0
  }

  ghost predicate Shape(spec: FlowSpec, tokens: seq<Token>, joins: Joins) {
    && (forall i :: 0 <= i < |tokens| && tokens[i].status == TokenWaiting ==> IsWait(spec, tokens[i].node))
    && (forall n :: n in joins ==> HonestJoin(spec, tokens, n, joins[n]))
    && (forall n :: Gathers(spec, n) ==> ExactEmission(spec, tokens, joins, n))
  }

  /** Tokens and joins move forward only. */
  ghost predicate Forward(tokens: seq<Token>, joins: Joins, tokens': seq<Token>, joins': Joins) {
    && |tokens| <= |tokens'|
    && (forall i :: 0 <= i < |tokens| ==>
          && tokens'[i].node == tokens[i].node && tokens'[i].source == tokens[i].source
          && (tokens[i].status == TokenConsumed ==> tokens'[i].status == TokenConsumed))
    && (forall n :: n in joins ==>
          n in joins' && joins[n].arrived <= joins'[n].arrived && (joins[n].completed ==> joins'[n].completed))
  }

  lemma ForwardTrans(t0: seq<Token>, j0: Joins, t1: seq<Token>, j1: Joins, t2: seq<Token>, j2: Joins)
    requires Forward(t0, j0, t1, j1) && Forward(t1, j1, t2, j2)
    ensures Forward(t0, j0, t2, j2)
  {
  }

  lemma DeliveredForward(tokens: seq<Token>, joins: Joins, tokens': seq<Token>, joins': Joins, n: Id, a: Id)
    requires Forward(tokens, joins, tokens', joins') && Delivered(tokens, n, a)
    ensures Delivered(tokens', n, a)
  {
  }

  ghost predicate Moves(spec: FlowSpec, before: Token, after: Token) {
    && after.node == before.node && after.source == before.source
    && before.status != TokenConsumed
    && (after.status == TokenWaiting ==> IsWait(spec, after.node))
  }

  lemma MoveKeepsShape(spec: FlowSpec, tokens: seq<Token>, joins: Joins, i: nat, t: Token)
    requires Shape(spec, tokens, joins) && i < |tokens| && Moves(spec, tokens[i], t)
    ensures Shape(spec, tokens[i := t], joins) && Forward(tokens, joins, tokens[i := t], joins)
  {
    var tokens' := tokens[i := t];
    forall n | n in joins ensures HonestJoin(spec, tokens', n, joins[n]) {
      forall a | a in joins[n].arrived ensures Delivered(tokens', n, a) {
        DeliveredForward(tokens, joins, tokens', joins, n, a);
      }
    }
    forall n | Gathers(spec, n) ensures ExactEmission(spec, tokens', joins, n) {
      EmittedUpdate(tokens, i, t, n);
    }
  }

  lemma EmitKeepsShape(spec: FlowSpec, tokens: seq<Token>, joins: Joins, source: Id, ids: seq<Id>)
    requires Shape(spec, tokens, joins) && !Gathers(spec, source)
    ensures var tokens' := tokens + NewTokens(source, ids);
            Shape(spec, tokens', joins) && Forward(tokens, joins, tokens', joins)
  {
    var tokens' := tokens + NewTokens(source, ids);
    forall n | n in joins ensures HonestJoin(spec, tokens', n, joins[n]) {
      forall a | a in joins[n].arrived ensures Delivered(tokens', n, a) {
        DeliveredForward(tokens, joins, tokens', joins, n, a);
      }
    }
    forall n | Gathers(spec, n) ensures ExactEmission(spec, tokens', joins, n) {
      EmittedConcat(tokens, NewTokens(source, ids), n);
      EmittedNew(source, ids, n);
    }
  }

  /** A join may note an arrival once the arriving token has been consumed. */
  lemma ArrivalKeepsShape(spec: FlowSpec, tokens: seq<Token>, joins: Joins, n: Id, join: JoinState)
    requires Shape(spec, tokens, joins) && !Fired(joins, n) && !join.completed
    requires HonestJoin(spec, tokens, n, join)
    requires n in joins ==> joins[n].arrived <= join.arrived
    ensures Shape(spec, tokens, joins[n := join]) && Forward(tokens, joins, tokens, joins[n := join])
  {
  }

  lemma FiringKeepsShape(spec: FlowSpec, tokens: seq<Token>, joins: Joins, n: Id)
    requires Shape(spec, tokens, joins) && n in joins && !joins[n].completed && ArrivedAll(joins[n])
    ensures var tokens' := tokens + NewTokens(n, Outgoing(spec.edges, n));
            var joins' := joins[n := joins[n].(completed := true)];
            Shape(spec, tokens', joins') && Forward(tokens, joins, tokens', joins')
  {
    hide HonestJoin, ExactEmission, Gathers;
    var tokens' := tokens + NewTokens(n, Outgoing(spec.edges, n));
    var joins' := joins[n := joins[n].(completed := true)];
    assert Forward(tokens, joins, tokens', joins');
    forall m | m in joins' ensures HonestJoin(spec, tokens', m, joins'[m]) {
      StaysHonest(spec, tokens, joins, tokens', joins', m, joins[m].(completed := joins'[m].completed));
    }
    forall m | Gathers(spec, m) ensures ExactEmission(spec, tokens', joins', m) {
      FiringEmits(spec, tokens, joins, n, m);
    }
  }

  lemma StaysHonest(spec: FlowSpec, tokens: seq<Token>, joins: Joins, tokens': seq<Token>, joins': Joins, m: Id,
                    join: JoinState)
    requires Forward(tokens, joins, tokens', joins') && m in joins && HonestJoin(spec, tokens, m, joins[m])
    requires join == joins[m].(completed := join.completed) && (join.completed ==> joins[m].completed || ArrivedAll(join))
    ensures HonestJoin(spec, tokens', m, join)
  {
    hide Gathers, Forward;
    forall a | a in join.arrived ensures Delivered(tokens', m, a) {
      DeliveredForward(tokens, joins, tokens', joins', m, a);
    }
  }

  lemma FiringEmits(spec: FlowSpec, tokens: seq<Token>, joins: Joins, n: Id, m: Id)
    requires n in joins && !joins[n].completed && ExactEmission(spec, tokens, joins, m)
    ensures var joins' := joins[n := joins[n].(completed := true)];
            ExactEmission(spec, tokens + NewTokens(n, Outgoing(spec.edges, n)), joins', m)
  {
    EmittedConcat(tokens, NewTokens(n, Outgoing(spec.edges, n)), m);
    EmittedNew(n, Outgoing(spec.edges, n), m);
  }

  // ---------- arrivals are never lost ----------

  ghost predicate Noted(spec: FlowSpec, t: Token, joins: Joins) {
    t.status == TokenConsumed && Gathers(spec, t.node) && t.source != NO_NODE ==>
      t.node in joins && (joins[t.node].completed || t.source in joins[t.node].arrived)
  }

  /** Joins have noted every token consumed at them, and fire as soon as they may. */
  ghost predicate Faithful(spec: FlowSpec, tokens: seq<Token>, joins: Joins) {
    && (forall i :: 0 <= i < |tokens| ==> Noted(spec, tokens[i], joins))
    && (forall n :: n in joins && ArrivedAll(joins[n]) ==> joins[n].completed)
  }

  /** A join has fired exactly when every expected predecessor has delivered a token to it. */
  lemma FiredExactlyWhenAllDelivered(spec: FlowSpec, p: Plugins, tokens: seq<Token>, joins: Joins, n: Id)
    requires ValidSpec(spec, p) && Gathers(spec, n)
    requires Shape(spec, tokens, joins) && Faithful(spec, tokens, joins)
    ensures Fired(joins, n) <==> forall a :: a in Incoming(spec.edges, n) ==> Delivered(tokens, n, a)
  {
    if n in joins {
      assert HonestJoin(spec, tokens, n, joins[n]);
    }
    if forall a :: a in Incoming(spec.edges, n) ==> Delivered(tokens, n, a) {
      forall a | a in Incoming(spec.edges, n) ensures n in joins && (joins[n].completed || a in joins[n].arrived) {
        IncomingIsNamed(spec, p, n, a);
        var i :| 0 <= i < |tokens| && tokens[i].node == n && tokens[i].source == a && tokens[i].status == TokenConsumed;
        assert Noted(spec, tokens[i], joins);
      }
      assert Incoming(spec.edges, n)[0] in Incoming(spec.edges, n);
    }
  }

  lemma {:induction false} IncomingIsEdge(edges: seq<Edge>, n: Id, a: Id)
    ensures a in Incoming(edges, n) <==> Edge(a, n) in edges
  {
    if edges != [] {
      assert edges == edges[..|edges| - 1] + [edges[|edges| - 1]];
      IncomingIsEdge(edges[..|edges| - 1], n, a);
    }
  }

  lemma IncomingIsNamed(spec: FlowSpec, p: Plugins, n: Id, a: Id)
    requires ValidSpec(spec, p) && a in Incoming(spec.edges, n)
    ensures a != NO_NODE
  {
    IncomingIsEdge(spec.edges, n, a);
    assert HasNode(spec, Edge(a, n).src);
  }

  // ---------- one round keeps the shape ----------

  ghost predicate Idle(tokens: seq<Token>) {
    forall i :: 0 <= i < |tokens| ==> tokens[i].status != TokenRunning
  }

  /** Only the token at i may be running. */
  ghost predicate IdleExcept(tokens: seq<Token>, i: nat) {
    forall k :: 0 <= k < |tokens| && k != i ==> tokens[k].status != TokenRunning
  }

  /** What one operation on the token at i of an instance preserves. */
  ghost predicate Preserves(spec: FlowSpec, inst: Instance, inst': Instance, i: nat) {
    && Shape(spec, inst'.tokens, inst'.joins)
    && Forward(inst.tokens, inst.joins, inst'.tokens, inst'.joins)
    && inst'.id == inst.id && inst'.version == inst.version && inst'.status == inst.status
    && IdleExcept(inst'.tokens, i)
    && (Faithful(spec, inst.tokens, inst.joins) ==> Faithful(spec, inst'.tokens, inst'.joins))
  }

  ghost predicate Executing(spec: FlowSpec, inst: Instance, i: nat) {
    && Shape(spec, inst.tokens, inst.joins)
    && i < |inst.tokens| && inst.tokens[i].status == TokenRunning && IdleExcept(inst.tokens, i)
  }

  lemma {:induction false} FindNodeHasId(nodes: seq<NodeSpec>, n: Id)
    ensures FindNode(nodes, n).Some? ==> FindNode(nodes, n).value.id == n && FindNode(nodes, n).value in nodes
  {
    if nodes != [] && nodes[|nodes| - 1].id != n { FindNodeHasId(nodes[..|nodes| - 1], n); }
  }

  lemma CompleteSafe(spec: FlowSpec, inst: Instance, i: nat, n: Id, next: seq<Id>)
    requires Shape(spec, inst.tokens, inst.joins) && IdleExcept(inst.tokens, i)
    requires i < |inst.tokens| && inst.tokens[i].status != TokenConsumed
    requires inst.tokens[i].node == n && !Gathers(spec, n)
    ensures var inst' := Complete(inst, i, n, next);
            Preserves(spec, inst, inst', i) && inst'.tokens[i].status == TokenConsumed
  {
    var t := inst.tokens[i].(status := TokenConsumed);
    MoveKeepsShape(spec, inst.tokens, inst.joins, i, t);
    EmitKeepsShape(spec, inst.tokens[i := t], inst.joins, n, next);
  }

  lemma FailSafe(spec: FlowSpec, inst: Instance, i: nat, n: Id)
    requires Executing(spec, inst, i) && inst.tokens[i].node == n && !Gathers(spec, n)
    ensures Preserves(spec, inst, Fail(inst, i, n), i)
  {
    MoveKeepsShape(spec, inst.tokens, inst.joins, i, inst.tokens[i].(status := TokenConsumed));
  }

  /** Consuming a token at an open join and noting where it came from. */
  lemma JoinNotesArrival(spec: FlowSpec, inst: Instance, i: nat, n: Id)
    requires Executing(spec, inst, i) && inst.tokens[i].node == n && Gathers(spec, n)
    requires !JoinOf(inst, n, Incoming(spec.edges, n)).completed
    ensures var tokens := inst.tokens[i := inst.tokens[i].(status := TokenConsumed)];
            var arrived := NoteArrival(JoinOf(inst, n, Incoming(spec.edges, n)), inst.tokens[i].source);
            && Shape(spec, tokens, inst.joins[n := arrived])
            && Forward(inst.tokens, inst.joins, tokens, inst.joins[n := arrived])
  {
    var t := inst.tokens[i].(status := TokenConsumed);
    var tokens := inst.tokens[i := t];
    var join := JoinOf(inst, n, Incoming(spec.edges, n));
    var arrived := NoteArrival(join, inst.tokens[i].source);
    MoveKeepsShape(spec, inst.tokens, inst.joins, i, t);
    assert Delivered(tokens, n, t.source) by { assert tokens[i] == t; }
    assert n in inst.joins ==> HonestJoin(spec, tokens, n, inst.joins[n]);
    assert HonestJoin(spec, tokens, n, arrived);
    ArrivalKeepsShape(spec, tokens, inst.joins, n, arrived);
  }

  lemma NotedArrivalsStay(spec: FlowSpec, inst: Instance, i: nat, n: Id)
    requires Executing(spec, inst, i) && inst.tokens[i].node == n && Gathers(spec, n)
    requires Faithful(spec, inst.tokens, inst.joins)
    ensures var tokens := inst.tokens[i := inst.tokens[i].(status := TokenConsumed)];
            var join := JoinOf(inst, n, Incoming(spec.edges, n));
            var arrived := if join.completed then join else NoteArrival(join, inst.tokens[i].source);
            forall k :: 0 <= k < |tokens| ==> Noted(spec, tokens[k], inst.joins[n := arrived])
  {
  }

  lemma FiredJoinSafe(spec: FlowSpec, inst: Instance, i: nat, n: Id)
    requires Executing(spec, inst, i) && inst.tokens[i].node == n && Gathers(spec, n)
    requires JoinOf(inst, n, Incoming(spec.edges, n)).completed
    ensures Preserves(spec, inst, ExecuteJoin(spec, inst, i, n), i)
  {
    var tokens := inst.tokens[i := inst.tokens[i].(status := TokenConsumed)];
    MoveKeepsShape(spec, inst.tokens, inst.joins, i, tokens[i]);
    assert inst.joins[n := inst.joins[n]] == inst.joins;
    if Faithful(spec, inst.tokens, inst.joins) { NotedArrivalsStay(spec, inst, i, n); }
  }

  lemma OpenJoinSafe(spec: FlowSpec, inst: Instance, i: nat, n: Id)
    requires Executing(spec, inst, i) && inst.tokens[i].node == n && Gathers(spec, n)
    requires var join := JoinOf(inst, n, Incoming(spec.edges, n));
             !join.completed && !ArrivedAll(NoteArrival(join, inst.tokens[i].source))
    ensures Preserves(spec, inst, ExecuteJoin(spec, inst, i, n), i)
  {
    JoinNotesArrival(spec, inst, i, n);
    if Faithful(spec, inst.tokens, inst.joins) { NotedArrivalsStay(spec, inst, i, n); }
  }

  lemma FiringStaysFaithful(spec: FlowSpec, tokens: seq<Token>, joins: Joins, n: Id, fired: JoinState, ids: seq<Id>)
    requires forall k :: 0 <= k < |tokens| ==> Noted(spec, tokens[k], joins)
    requires forall m :: m in joins && m != n && ArrivedAll(joins[m]) ==> joins[m].completed
    requires fired.completed
    ensures Faithful(spec, tokens + NewTokens(n, ids), joins[n := fired])
  {
  }

  lemma FiringMovesForward(spec: FlowSpec, inst: Instance, i: nat, n: Id, arrived: JoinState)
    requires i < |inst.tokens| && !arrived.completed && ArrivedAll(arrived)
    requires var tokens := inst.tokens[i := inst.tokens[i].(status := TokenConsumed)];
             && Shape(spec, tokens, inst.joins[n := arrived])
             && Forward(inst.tokens, inst.joins, tokens, inst.joins[n := arrived])
    ensures var tokens' := inst.tokens[i := inst.tokens[i].(status := TokenConsumed)] + NewTokens(n, Outgoing(spec.edges, n));
            var joins' := inst.joins[n := arrived][n := arrived.(completed := true)];
            Shape(spec, tokens', joins') && Forward(inst.tokens, inst.joins, tokens', joins')
  {
    var tokens, joins := inst.tokens[i := inst.tokens[i].(status := TokenConsumed)], inst.joins[n := arrived];
    FiringKeepsShape(spec, tokens, joins, n);
    ForwardTrans(inst.tokens, inst.joins, tokens, joins,
                 tokens + NewTokens(n, Outgoing(spec.edges, n)), joins[n := arrived.(completed := true)]);
  }

  lemma FiringJoinSafe(spec: FlowSpec, inst: Instance, i: nat, n: Id)
    requires Executing(spec, inst, i) && inst.tokens[i].node == n && Gathers(spec, n)
    requires var join := JoinOf(inst, n, Incoming(spec.edges, n));
             !join.completed && ArrivedAll(NoteArrival(join, inst.tokens[i].source))
    ensures Preserves(spec, inst, ExecuteJoin(spec, inst, i, n), i)
  {
    hide Shape, Forward;
    JoinNotesArrival(spec, inst, i, n);
    var tokens := inst.tokens[i := inst.tokens[i].(status := TokenConsumed)];
    var arrived := NoteArrival(JoinOf(inst, n, Incoming(spec.edges, n)), inst.tokens[i].source);
    FiringMovesForward(spec, inst, i, n, arrived);
    if Faithful(spec, inst.tokens, inst.joins) {
      NotedArrivalsStay(spec, inst, i, n);
      FiringStaysFaithful(spec, tokens, inst.joins[n := arrived], n, arrived.(completed := true), Outgoing(spec.edges, n));
    }
  }

  lemma JoinSafe(spec: FlowSpec, inst: Instance, i: nat, n: Id)
    requires Executing(spec, inst, i) && inst.tokens[i].node == n && Gathers(spec, n)
    ensures Preserves(spec, inst, ExecuteJoin(spec, inst, i, n), i)
    ensures ExecuteJoin(spec, inst, i, n).tokens[i].status == TokenConsumed
  {
    var join := JoinOf(inst, n, Incoming(spec.edges, n));
    assert ExecuteJoin(spec, inst, i, n).tokens[i].status == TokenConsumed;
    hide *;
    if join.completed {
      FiredJoinSafe(spec, inst, i, n);
    } else if ArrivedAll(NoteArrival(join, inst.tokens[i].source)) {
      FiringJoinSafe(spec, inst, i, n);
    } else {
      OpenJoinSafe(spec, inst, i, n);
    }
  }

  lemma BlockSafe(spec: FlowSpec, p: Plugins, inst: Instance, i: nat, node: NodeSpec)
    requires Executing(spec, inst, i) && inst.tokens[i].node == node.id && IsWait(spec, node.id)
    ensures var step := BlockOnWait(p, inst, i, node);
            Preserves(spec, inst, step.inst, i) && step.inst.tokens[i].status in {TokenWaiting, TokenConsumed}
  {
    match p.waitConfig(node, inst.data) {
      case None => FailSafe(spec, inst, i, node.id);
      case Some(condition) =>
        var t := inst.tokens[i].(status := TokenWaiting, waitingFor := [condition]);
        MoveKeepsShape(spec, inst.tokens, inst.joins, i, t);
    }
  }

  lemma ExecutorSafe(spec: FlowSpec, p: Plugins, inst: Instance, i: nat, node: NodeSpec, input: JsonObject)
    requires Executing(spec, inst, i) && inst.tokens[i].node == node.id && !Gathers(spec, node.id)
    ensures var step := RunExecutor(spec, p, inst, i, node, input);
            Preserves(spec, inst, step.inst, i) && step.inst.tokens[i].status == TokenConsumed
  {
    match p.execute(inst.version, node, input, inst.data) {
      case Threw(data) => FailSafe(spec, inst.(data := data), i, node.id);
      case Returned(output, next, data) =>
        var (written, ok) := p.applyWrites(node, output, data);
        var after := inst.(data := written);
        if !ok {
          FailSafe(spec, after, i, node.id);
        } else {
          var ids := if next.None? then Outgoing(spec.edges, node.id) else next.value;
          CompleteSafe(spec, after, i, node.id, ids);
        }
    }
  }

  ghost predicate Settled(spec: FlowSpec, inst: Instance) {
    Shape(spec, inst.tokens, inst.joins) && Idle(inst.tokens)
  }

  /** Starting a token: it runs, and its node is marked as running. */
  function StartToken(inst: Instance, i: nat, n: Id): Instance
    requires i < |inst.tokens|
  {
    Mark(SetStatus(inst, i, TokenRunning), n, NodeRunning, 1)
  }

  lemma StartSafe(spec: FlowSpec, inst: Instance, i: nat, n: Id)
    requires Settled(spec, inst) && i < |inst.tokens| && inst.tokens[i].status == TokenReady
    ensures Preserves(spec, inst, StartToken(inst, i, n), i)
    ensures Preserves(spec, inst, SetStatus(inst, i, TokenRunning), i)
    ensures Executing(spec, StartToken(inst, i, n), i)
    ensures StartToken(inst, i, n).tokens[i].node == inst.tokens[i].node
  {
    MoveKeepsShape(spec, inst.tokens, inst.joins, i, inst.tokens[i].(status := TokenRunning));
  }

  /** What `executeReadyToken` does with a started token. */
  function StartedStep(spec: FlowSpec, p: Plugins, started: Instance, i: nat, node: NodeSpec, input: JsonObject): Step
    requires i < |started.tokens|
  {
    if node.kind == NODE_TYPE_WAIT then BlockOnWait(p, started, i, node)
    else if node.kind == NODE_TYPE_JOIN then Step(ExecuteJoin(spec, started, i, node.id), None)
    else RunExecutor(spec, p, started, i, node, input)
  }

  lemma ExecuteReadyStarts(spec: FlowSpec, p: Plugins, inst: Instance, i: nat, node: NodeSpec)
    requires i < |inst.tokens| && FindNode(spec.nodes, inst.tokens[i].node) == Some(node)
    requires p.registered(node.kind) && p.buildInput(node, inst.data).Some?
    ensures ExecuteReady(spec, p, inst, i)
         == StartedStep(spec, p, StartToken(inst, i, node.id), i, node, p.buildInput(node, inst.data).value)
  {
  }

  lemma StartedNodeSafe(spec: FlowSpec, p: Plugins, started: Instance, i: nat, node: NodeSpec, input: JsonObject)
    requires Executing(spec, started, i) && FindNode(spec.nodes, started.tokens[i].node) == Some(node)
    ensures var step := StartedStep(spec, p, started, i, node, input);
            Preserves(spec, started, step.inst, i) && step.inst.tokens[i].status in {TokenWaiting, TokenConsumed}
  {
    FindNodeHasId(spec.nodes, started.tokens[i].node);
    if node.kind == NODE_TYPE_WAIT {
      BlockSafe(spec, p, started, i, node);
    } else if node.kind == NODE_TYPE_JOIN {
      if |Incoming(spec.edges, node.id)| <= 1 {
        CompleteSafe(spec, started, i, node.id, Outgoing(spec.edges, node.id));
      } else {
        JoinSafe(spec, started, i, node.id);
      }
    } else {
      ExecutorSafe(spec, p, started, i, node, input);
    }
  }

  lemma PreservesTrans(spec: FlowSpec, a: Instance, b: Instance, c: Instance, i: nat)
    requires Preserves(spec, a, b, i) && Preserves(spec, b, c, i)
    ensures Preserves(spec, a, c, i)
  {
    ForwardTrans(a.tokens, a.joins, b.tokens, b.joins, c.tokens, c.joins);
  }

  lemma PreservesSelf(spec: FlowSpec, inst: Instance, i: nat)
    requires Settled(spec, inst)
    ensures Preserves(spec, inst, inst, i)
  {
  }

  /** One round, whatever the node does: the shape is kept, and only a failing round leaves a token running. */
  lemma RoundSafe(spec: FlowSpec, p: Plugins, inst: Instance, i: nat)
    requires Settled(spec, inst) && i < |inst.tokens| && inst.tokens[i].status == TokenReady
    ensures var step := ExecuteReady(spec, p, inst, i);
            && Preserves(spec, inst, step.inst, i)
            && (step.err.None? ==> step.inst.tokens[i].status in {TokenWaiting, TokenConsumed})
  {
    hide Preserves, Settled, Executing, StartedStep, BlockOnWait, ExecuteJoin, RunExecutor;
    var found := FindNode(spec.nodes, inst.tokens[i].node);
    PreservesSelf(spec, inst, i);
    if found.Some? && p.registered(found.value.kind) {
      var node := found.value;
      StartSafe(spec, inst, i, node.id);
      if p.buildInput(node, inst.data).Some? {
        var started := StartToken(inst, i, node.id);
        StartedNodeSafe(spec, p, started, i, node, p.buildInput(node, inst.data).value);
        ExecuteReadyStarts(spec, p, inst, i, node);
        PreservesTrans(spec, inst, started, ExecuteReady(spec, p, inst, i).inst, i);
      }
    }
  }

  // ---------- runs, resumes and whole lives ----------

  /** The status of an instance tells the truth about its tokens. */
  ghost predicate Truthful(inst: Instance) {
    && (inst.status != InstanceFailed ==> Idle(inst.tokens))
    && (inst.status == InstanceCompleted ==> forall i :: 0 <= i < |inst.tokens| ==> inst.tokens[i].status == TokenConsumed)
    && (inst.status == InstanceWaiting ==>
          HasWaiting(inst.tokens) && forall i :: 0 <= i < |inst.tokens| ==> inst.tokens[i].status != TokenReady)
  }

  ghost predicate Sound(spec: FlowSpec, inst: Instance) {
    Shape(spec, inst.tokens, inst.joins) && Truthful(inst)
  }

  ghost predicate Progress(spec: FlowSpec, inst: Instance, inst': Instance) {
    && Forward(inst.tokens, inst.joins, inst'.tokens, inst'.joins)
    && inst'.id == inst.id && inst.version <= inst'.version
    && (Faithful(spec, inst.tokens, inst.joins) ==> Faithful(spec, inst'.tokens, inst'.joins))
  }

  lemma ProgressTrans(spec: FlowSpec, a: Instance, b: Instance, c: Instance)
    requires Progress(spec, a, b) && Progress(spec, b, c)
    ensures Progress(spec, a, c)
  {
  }

  /** A round that succeeds leaves an instance ready for the next; one that fails, a sound failed instance. */
  lemma RoundOutcome(spec: FlowSpec, p: Plugins, inst: Instance, i: nat)
    requires Settled(spec, inst) && i < |inst.tokens| && inst.tokens[i].status == TokenReady
    ensures var step := ExecuteReady(spec, p, inst, i);
            var next := step.inst.(version := step.inst.version + 1);
            && next.status == inst.status && Progress(spec, inst, next)
            && (step.err.None? ==> Settled(spec, next))
            && (step.err.Some? ==> Sound(spec, Failed(step.inst, step.err.value))
                                   && Progress(spec, inst, Failed(step.inst, step.err.value)))
  {
    RoundSafe(spec, p, inst, i);
  }

  lemma FinalizeSafe(spec: FlowSpec, inst: Instance)
    requires Settled(spec, inst) && FirstReady(inst.tokens, 0) == |inst.tokens|
    ensures Sound(spec, Finalize(inst)) && Progress(spec, inst, Finalize(inst))
  {
  }

  lemma SettledRunning(spec: FlowSpec, inst: Instance)
    requires Settled(spec, inst) && inst.status == InstanceRunning
    ensures Sound(spec, inst) && Progress(spec, inst, inst)
    ensures Finalize(inst).status in {InstanceWaiting, InstanceCompleted}
    ensures forall failed, err :: Failed(failed, err).status == InstanceFailed
  {
  }

  lemma RunByRounds(spec: FlowSpec, p: Plugins, inst: Instance, rounds: nat)
    ensures var i := FirstReady(inst.tokens, 0);
            && (i == |inst.tokens| ==> Run(spec, p, inst, rounds) == RunResult(Finalize(inst), Blocked))
            && (i < |inst.tokens| && rounds == 0 ==> Run(spec, p, inst, rounds) == RunResult(inst, StillReady))
            && (i < |inst.tokens| && rounds > 0 ==>
                  var step := ExecuteReady(spec, p, inst, i);
                  && (step.err.Some? ==>
                        Run(spec, p, inst, rounds) == RunResult(Failed(step.inst, step.err.value), Errored(step.err.value)))
                  && (step.err.None? ==>
                        Run(spec, p, inst, rounds)
                        == Run(spec, p, step.inst.(version := step.inst.version + 1), rounds - 1)))
  {
  }

  lemma {:induction false} RunSafe(spec: FlowSpec, p: Plugins, inst: Instance, rounds: nat)
    requires Settled(spec, inst) && inst.status == InstanceRunning
    ensures var r := Run(spec, p, inst, rounds);
            && Sound(spec, r.inst) && Progress(spec, inst, r.inst)
            && (r.halt.Blocked? ==> r.inst.status in {InstanceWaiting, InstanceCompleted})
            && (r.halt.Errored? <==> r.inst.status == InstanceFailed)
            && (r.halt.StillReady? ==> r.inst.status == InstanceRunning)
    decreases rounds
  {
    hide *;
    SettledRunning(spec, inst);
    RunByRounds(spec, p, inst, rounds);
    var i := FirstReady(inst.tokens, 0);
    if i == |inst.tokens| {
      FinalizeSafe(spec, inst);
    } else if rounds > 0 {
      RoundOutcome(spec, p, inst, i);
      var step := ExecuteReady(spec, p, inst, i);
      if step.err.None? {
        var next := step.inst.(version := step.inst.version + 1);
        RunSafe(spec, p, next, rounds - 1);
        ProgressTrans(spec, inst, next, Run(spec, p, next, rounds - 1).inst);
      }
    }
  }

  lemma {:induction false} WakeSafe(spec: FlowSpec, p: Plugins, inst: Instance, event: ExternalEvent, i: nat, end: nat)
    requires Settled(spec, inst) && end <= |inst.tokens|
    ensures var wake := WakeTokens(spec, p, inst, event, i, end);
            Settled(spec, wake.inst) && Progress(spec, inst, wake.inst) && wake.inst.status == inst.status
    decreases end - i
  {
    if i < end {
      var token := inst.tokens[i];
      if token.status != TokenWaiting || !Matches(token.waitingFor, event) {
        WakeSafe(spec, p, inst, event, i + 1, end);
      } else if FindNode(spec.nodes, token.node).Some? {
        var node := FindNode(spec.nodes, token.node).value;
        FindNodeHasId(spec.nodes, token.node);
        var (written, ok) := p.applyWrites(node, EventOutput(event), inst.data);
        if ok {
          var after := inst.(data := written);
          var next := Complete(after, i, node.id, Outgoing(spec.edges, node.id));
          assert IsWait(spec, node.id);
          CompleteSafe(spec, after, i, node.id, Outgoing(spec.edges, node.id));
          assert Idle(next.tokens);
          WakeSafe(spec, p, next, event, i + 1, end);
          ProgressTrans(spec, inst, next, WakeTokens(spec, p, next, event, i + 1, end).inst);
        }
      }
    }
  }

  lemma AfterRunSafe(spec: FlowSpec, p: Plugins, stored: Instance, rounds: nat)
    requires Sound(spec, stored)
    ensures var after := AfterRun(spec, p, stored, rounds);
            && Sound(spec, after) && Progress(spec, stored, after)
            && (Terminal(stored.status) ==> after == stored)
  {
    if !Terminal(stored.status) {
      RunSafe(spec, p, stored.(status := InstanceRunning), rounds);
    }
  }

  lemma AfterCallSafe(spec: FlowSpec, p: Plugins, stored: Instance, call: Call)
    requires Sound(spec, stored)
    ensures var after := AfterCall(spec, p, stored, call);
            && Sound(spec, after) && Progress(spec, stored, after)
            && (Terminal(stored.status) ==> after == stored)
  {
    match call {
      case CallRun(rounds) => AfterRunSafe(spec, p, stored, rounds);
      case CallResume(event, rounds) =>
        if !Terminal(stored.status) {
          WakeSafe(spec, p, stored, event, 0, |stored.tokens|);
          var awake := Awaken(spec, p, stored, event);
          if awake.err.None? {
            AfterRunSafe(spec, p, awake.inst, rounds);
            ProgressTrans(spec, stored, awake.inst, AfterRun(spec, p, awake.inst, rounds));
          }
        }
    }
  }

  lemma StartedIsSound(spec: FlowSpec, p: Plugins, id: Id, input: JsonObject)
    requires ValidSpec(spec, p)
    ensures Sound(spec, Started(spec, id, input))
  {
    var ids := Sources(spec.nodes, spec.edges);
    forall n | Gathers(spec, n) ensures ExactEmission(spec, NewTokens(NO_NODE, ids), map[], n) {
      FindNodeHasId(spec.nodes, n);
      EmittedNew(NO_NODE, ids, n);
    }
  }

  /**
   Over the whole life of an instance, every stored state is sound, tokens and joins only
   move forward, and a terminal state is final.
   */
  lemma {:induction false} LifeSafe(spec: FlowSpec, p: Plugins, stored: Instance, calls: seq<Call>)
    requires Sound(spec, stored)
    ensures var after := Life(spec, p, stored, calls);
            && Sound(spec, after) && Progress(spec, stored, after)
            && (Terminal(stored.status) ==> after == stored)
    decreases |calls|
  {
    if calls != [] {
      var front := calls[..|calls| - 1];
      LifeSafe(spec, p, stored, front);
      AfterCallSafe(spec, p, Life(spec, p, stored, front), calls[|calls| - 1]);
      ProgressTrans(spec, stored, Life(spec, p, stored, front), Life(spec, p, stored, calls));
    }
  }

  /**
   A join with several predecessors over the whole life of an instance: it fires exactly
   when a token from every expected predecessor has been consumed there, it emits nothing
   before, and afterwards it has emitted one token per outgoing edge, for good.
   */
  lemma JoinFiresOnceAndComplete(spec: FlowSpec, p: Plugins, id: Id, input: JsonObject, calls: seq<Call>, n: Id)
    requires ValidSpec(spec, p) && Gathers(spec, n)
    ensures var inst := Life(spec, p, Started(spec, id, input), calls);
            var complete := forall a :: a in Incoming(spec.edges, n) ==> Delivered(inst.tokens, n, a);
            && (Fired(inst.joins, n) <==> complete)
            && EmittedBy(inst.tokens, n) == if complete then |Outgoing(spec.edges, n)| else 0
  {
    var start := Started(spec, id, input);
    StartedIsSound(spec, p, id, input);
    LifeSafe(spec, p, start, calls);
    var inst := Life(spec, p, start, calls);
    assert Faithful(spec, start.tokens, start.joins);
    FiredExactlyWhenAllDelivered(spec, p, inst.tokens, inst.joins, n);
    assert ExactEmission(spec, inst.tokens, inst.joins, n);
  }
}
