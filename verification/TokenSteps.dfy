/**
 What an event, a round and a start do to an instance, told on its stored tokens, conditions
 and edges alone: which tokens an event wakes, what a node emits, when a join fires.
 */
module TokenSteps {
  import opened Text
  import opened Graphs
  import opened JsonValues
  import opened Sequences
  import opened TokenModel
  import opened TokenSafety

  // ---------- waking ----------

  /** The token waits, and one of its conditions admits the event; an empty kind or key admits any. */
  ghost predicate WaitsFor(t: Token, kind: string, key: string) {
    && t.status == TokenWaiting
    && exists c :: c in t.waitingFor && (c.kind == "" || c.kind == kind) && (c.key == "" || c.key == key)
  }

  /** One ready token for every edge that leaves `n`, in the order of the edges. */
  ghost function Offspring(edges: seq<Edge>, n: Id): seq<Token> {
    var out := Outgoing(edges, n);
    seq(|out|, k requires 0 <= k < |out| => Token(out[k], n, TokenReady, []))
  }

  /** What the woken ones among the tokens emit, one after the other. */
  ghost function Emissions(edges: seq<Edge>, tokens: seq<Token>, kind: string, key: string): seq<Token> {
    if tokens == [] then []
    else
      var front, t := Emissions(edges, tokens[..|tokens| - 1], kind, key), tokens[|tokens| - 1];
      if WaitsFor(t, kind, key) then front + Offspring(edges, t.node) else front
  }

  /** The writes of the woken nodes, one after the other, and whether all of them were accepted. */
  ghost function EventWrites(spec: FlowSpec, p: Plugins, tokens: seq<Token>, event: ExternalEvent, data: Data)
    : (Data, bool)
  {
    if tokens == [] then (data, true)
    else
      var (before, ok) := EventWrites(spec, p, tokens[..|tokens| - 1], event, data);
      var t := tokens[|tokens| - 1];
      if !ok || !WaitsFor(t, event.kind, event.key) then (before, ok)
      else
        match FindNode(spec.nodes, t.node)
        case None => (before, false)
        case Some(node) =>
          p.applyWrites(node,
            map["event_type" := Str(event.kind), "event_key" := Str(event.key), "payload" := Obj(event.payload)],
            before)
  }

  ghost predicate AnyWaitsFor(tokens: seq<Token>, event: ExternalEvent) {
    exists k :: 0 <= k < |tokens| && WaitsFor(tokens[k], event.kind, event.key)
  }

  /** Exactly the tokens that wait for the event are consumed, and they alone emit. */
  ghost predicate TokensWoken(spec: FlowSpec, before: seq<Token>, after: seq<Token>, event: ExternalEvent) {
    && |after| >= |before|
    && (forall k :: 0 <= k < |before| ==>
          after[k] == if WaitsFor(before[k], event.kind, event.key) then before[k].(status := TokenConsumed)
                      else before[k])
    && after[|before|..] == Emissions(spec.edges, before, event.kind, event.key)
  }

  /** Some token at node `n` waits for the event. */
  ghost predicate WokenAt(tokens: seq<Token>, n: Id, event: ExternalEvent) {
    exists k :: 0 <= k < |tokens| && tokens[k].node == n && WaitsFor(tokens[k], event.kind, event.key)
  }

  /** Exactly the nodes of woken tokens are completed; attempts are kept. */
  ghost predicate NodesWoken(tokens: seq<Token>, before: map<Id, NodeState>, after: map<Id, NodeState>,
                             event: ExternalEvent)
  {
    forall n :: if WokenAt(tokens, n, event)
      then n in after && after[n] == NodeState(NodeCompleted, if n in before then before[n].attempts else 0)
      else (n in after <==> n in before) && (n in before ==> after[n] == before[n])
  }

  lemma MatchingIsWaitingFor(t: Token, event: ExternalEvent)
    ensures WaitsFor(t, event.kind, event.key)
       <==> t.status == TokenWaiting && Matches(t.waitingFor, event)
  {
    if t.status == TokenWaiting && Matches(t.waitingFor, event) {
      var i :| 0 <= i < |t.waitingFor|
        && (t.waitingFor[i].kind == "" || t.waitingFor[i].kind == event.kind)
        && (t.waitingFor[i].key == "" || t.waitingFor[i].key == event.key);
      assert t.waitingFor[i] in t.waitingFor;
    }
  }

  /** The state of the waking loop when the first `i` of the stored tokens have been looked at. */
  ghost predicate WokenUpTo(spec: FlowSpec, p: Plugins, stored: Instance, event: ExternalEvent, i: nat, now: Instance)
    requires i <= |stored.tokens|
  {
    && now == stored.(tokens := now.tokens, nodeStates := now.nodeStates, data := now.data)
    && |now.tokens| >= |stored.tokens|
    && (forall k :: 0 <= k < |stored.tokens| ==>
          now.tokens[k] == if k < i && WaitsFor(stored.tokens[k], event.kind, event.key)
                           then stored.tokens[k].(status := TokenConsumed) else stored.tokens[k])
    && now.tokens[|stored.tokens|..] == Emissions(spec.edges, stored.tokens[..i], event.kind, event.key)
    && NodesWoken(stored.tokens[..i], stored.nodeStates, now.nodeStates, event)
    && EventWrites(spec, p, stored.tokens[..i], event, stored.data) == (now.data, true)
  }

  lemma WokenAtOneMore(tokens: seq<Token>, t: Token, n: Id, event: ExternalEvent)
    ensures WokenAt(tokens + [t], n, event)
       <==> WokenAt(tokens, n, event) || (t.node == n && WaitsFor(t, event.kind, event.key))
  {
    hide WaitsFor;
    var now := tokens + [t];
    assert now[|tokens|] == t;
    if WokenAt(tokens, n, event) {
      var k :| 0 <= k < |tokens| && tokens[k].node == n && WaitsFor(tokens[k], event.kind, event.key);
      assert now[k] == tokens[k];
    }
  }

  lemma NodesWokenByOne(tokens: seq<Token>, t: Token, before: map<Id, NodeState>, after: map<Id, NodeState>,
                        event: ExternalEvent)
    requires NodesWoken(tokens, before, after, event)
    ensures !WaitsFor(t, event.kind, event.key) ==> NodesWoken(tokens + [t], before, after, event)
    ensures WaitsFor(t, event.kind, event.key) ==>
              var attempts := if t.node in after then after[t.node].attempts else 0;
              NodesWoken(tokens + [t], before, after[t.node := NodeState(NodeCompleted, attempts)], event)
  {
    hide WaitsFor, WokenAt;
    forall n: Id ensures WokenAt(tokens + [t], n, event)
                    <==> WokenAt(tokens, n, event) || (t.node == n && WaitsFor(t, event.kind, event.key)) {
      WokenAtOneMore(tokens, t, n, event);
    }
  }

  lemma WokenByOne(spec: FlowSpec, p: Plugins, stored: Instance, event: ExternalEvent, i: nat, now: Instance)
    requires i < |stored.tokens| && WokenUpTo(spec, p, stored, event, i, now)
    requires !WaitsFor(stored.tokens[i], event.kind, event.key)
    ensures WokenUpTo(spec, p, stored, event, i + 1, now)
  {
    hide WaitsFor, NodesWoken;
    assert stored.tokens[..i + 1][..i] == stored.tokens[..i];
    assert stored.tokens[..i + 1] == stored.tokens[..i] + [stored.tokens[i]];
    NodesWokenByOne(stored.tokens[..i], stored.tokens[i], stored.nodeStates, now.nodeStates, event);
  }

  lemma OffspringIsNew(edges: seq<Edge>, n: Id)
    ensures NewTokens(n, Outgoing(edges, n)) == Offspring(edges, n)
  {
  }

  lemma CompletionWakes(spec: FlowSpec, stored: Instance, event: ExternalEvent, i: nat, now: Instance)
    requires i < |stored.tokens| && |now.tokens| >= |stored.tokens|
    requires WaitsFor(stored.tokens[i], event.kind, event.key)
    requires now.tokens[|stored.tokens|..] == Emissions(spec.edges, stored.tokens[..i], event.kind, event.key)
    ensures var n := stored.tokens[i].node;
            var tokens := Complete(now, i, n, Outgoing(spec.edges, n)).tokens;
            && |tokens| >= |stored.tokens|
            && tokens[..|stored.tokens|]
               == now.tokens[..|stored.tokens|][i := now.tokens[i].(status := TokenConsumed)]
            && tokens[|stored.tokens|..] == Emissions(spec.edges, stored.tokens[..i + 1], event.kind, event.key)
  {
    hide WaitsFor;
    assert stored.tokens[..i + 1][..i] == stored.tokens[..i];
    OffspringIsNew(spec.edges, stored.tokens[i].node);
  }

  lemma WokenByCompletion(spec: FlowSpec, p: Plugins, stored: Instance, event: ExternalEvent, i: nat, now: Instance,
                          node: NodeSpec)
    requires i < |stored.tokens| && WokenUpTo(spec, p, stored, event, i, now)
    requires WaitsFor(stored.tokens[i], event.kind, event.key)
    requires FindNode(spec.nodes, stored.tokens[i].node) == Some(node)
    ensures EventWrites(spec, p, stored.tokens[..i + 1], event, stored.data)
         == p.applyWrites(node, EventOutput(event), now.data)
    ensures var (written, ok) := p.applyWrites(node, EventOutput(event), now.data);
            ok ==> WokenUpTo(spec, p, stored, event, i + 1,
                             Complete(now.(data := written), i, node.id, Outgoing(spec.edges, node.id)))
  {
    hide WaitsFor, NodesWoken, FindNode, Offspring, Emissions, NewTokens, Outgoing;
    var upto := stored.tokens[..i + 1];
    assert upto[..i] == stored.tokens[..i] && upto == stored.tokens[..i] + [stored.tokens[i]];
    NodesWokenByOne(stored.tokens[..i], stored.tokens[i], stored.nodeStates, now.nodeStates, event);
    FindNodeHasId(spec.nodes, stored.tokens[i].node);
    var (written, ok) := p.applyWrites(node, EventOutput(event), now.data);
    CompletionWakes(spec, stored, event, i, now.(data := written));
  }

  lemma {:induction false} WritesAcceptedBefore(spec: FlowSpec, p: Plugins, tokens: seq<Token>, event: ExternalEvent,
                                                data: Data, i: nat)
    requires i <= |tokens| && EventWrites(spec, p, tokens, event, data).1
    ensures EventWrites(spec, p, tokens[..i], event, data).1
    decreases |tokens|
  {
    if i == |tokens| {
      assert tokens[..i] == tokens;
    } else {
      WritesAcceptedBefore(spec, p, tokens[..|tokens| - 1], event, data, i);
      assert tokens[..|tokens| - 1][..i] == tokens[..i];
    }
  }

  lemma {:induction false} WakesFrom(spec: FlowSpec, p: Plugins, stored: Instance, event: ExternalEvent, i: nat,
                                     now: Instance)
    requires i <= |stored.tokens| && WokenUpTo(spec, p, stored, event, i, now)
    ensures var wake := WakeTokens(spec, p, now, event, i, |stored.tokens|);
            && (wake.err.None? <==> EventWrites(spec, p, stored.tokens, event, stored.data).1)
            && wake.err in [None, Some(NodeNotFound), Some(NodeExecutionFailed)]
            && (wake.err.None? ==>
                  && WokenUpTo(spec, p, stored, event, |stored.tokens|, wake.inst)
                  && (wake.matched <==> exists k :: i <= k < |stored.tokens|
                                          && WaitsFor(stored.tokens[k], event.kind, event.key)))
    decreases |stored.tokens| - i, 1
  {
    hide WaitsFor, WokenUpTo, FindNode, Complete, EventOutput, Outgoing, Matches, EventWrites;
    if i == |stored.tokens| {
      assert stored.tokens[..i] == stored.tokens;
      EventWritesOf(spec, p, stored, event, i, now);
    } else {
      EventWritesOf(spec, p, stored, event, i, now);
      MatchingIsWaitingFor(stored.tokens[i], event);
      if !WaitsFor(stored.tokens[i], event.kind, event.key) {
        WokenByOne(spec, p, stored, event, i, now);
        WakesFrom(spec, p, stored, event, i + 1, now);
      } else {
        WakesByCompletion(spec, p, stored, event, i, now);
      }
    }
  }

  /** The turn of the loop that finds a token to wake. */
  lemma {:induction false} WakesByCompletion(spec: FlowSpec, p: Plugins, stored: Instance, event: ExternalEvent, i: nat,
                                             now: Instance)
    requires i < |stored.tokens| && WokenUpTo(spec, p, stored, event, i, now)
    requires WaitsFor(stored.tokens[i], event.kind, event.key)
    ensures var wake := WakeTokens(spec, p, now, event, i, |stored.tokens|);
            && (wake.err.None? <==> EventWrites(spec, p, stored.tokens, event, stored.data).1)
            && wake.err in [None, Some(NodeNotFound), Some(NodeExecutionFailed)]
            && (wake.err.None? ==> WokenUpTo(spec, p, stored, event, |stored.tokens|, wake.inst) && wake.matched)
    decreases |stored.tokens| - i, 0
  {
    hide WaitsFor, WokenUpTo, FindNode, Complete, EventOutput, Outgoing, Matches, EventWrites;
    EventWritesOf(spec, p, stored, event, i, now);
    MatchingIsWaitingFor(stored.tokens[i], event);
    var found := FindNode(spec.nodes, stored.tokens[i].node);
    if found.None? {
      UnknownNodeStops(spec, p, stored, event, i, now);
    } else {
      var node := found.value;
      WokenByCompletion(spec, p, stored, event, i, now, node);
      var (written, ok) := p.applyWrites(node, EventOutput(event), now.data);
      if ok {
        WakesFrom(spec, p, stored, event, i + 1,
                  Complete(now.(data := written), i, node.id, Outgoing(spec.edges, node.id)));
      } else if EventWrites(spec, p, stored.tokens, event, stored.data).1 {
        WritesAcceptedBefore(spec, p, stored.tokens, event, stored.data, i + 1);
        assert false;
      }
    }
  }

  lemma UnknownNodeStops(spec: FlowSpec, p: Plugins, stored: Instance, event: ExternalEvent, i: nat, now: Instance)
    requires i < |stored.tokens| && WokenUpTo(spec, p, stored, event, i, now)
    requires WaitsFor(stored.tokens[i], event.kind, event.key)
    requires FindNode(spec.nodes, stored.tokens[i].node).None?
    ensures !EventWrites(spec, p, stored.tokens, event, stored.data).1
  {
    hide WaitsFor, NodesWoken, Emissions, FindNode;
    var upto := stored.tokens[..i + 1];
    assert upto[..i] == stored.tokens[..i];
    if EventWrites(spec, p, stored.tokens, event, stored.data).1 {
      WritesAcceptedBefore(spec, p, stored.tokens, event, stored.data, i + 1);
      assert false;
    }
  }

  lemma EventWritesOf(spec: FlowSpec, p: Plugins, stored: Instance, event: ExternalEvent, i: nat, now: Instance)
    requires i <= |stored.tokens| && WokenUpTo(spec, p, stored, event, i, now)
    ensures EventWrites(spec, p, stored.tokens[..i], event, stored.data) == (now.data, true)
    ensures |now.tokens| >= |stored.tokens|
    ensures i < |stored.tokens| ==> now.tokens[i] == stored.tokens[i]
  {
    hide NodesWoken, EventWrites, Emissions;
  }

  /**
   Which tokens an event wakes. On an instance that is not over, an event is unmatched exactly
   when no waiting token has a condition that admits its kind and key; if some do, the resume
   gets past its writes exactly when all their nodes accept them, and then exactly those tokens
   are consumed, their nodes completed, and their outgoing targets given tokens.
   */
  lemma WakesExactly(spec: FlowSpec, p: Plugins, stored: Instance, event: ExternalEvent)
    requires stored.status == InstanceCreated || stored.status == InstanceRunning || stored.status == InstanceWaiting
    ensures var step := Awaken(spec, p, stored, event);
            && step.err in [None, Some(NodeNotFound), Some(NodeExecutionFailed), Some(EventUnmatched)]
            && (step.err == Some(EventUnmatched) <==> !AnyWaitsFor(stored.tokens, event))
            && (step.err.None? <==> AnyWaitsFor(stored.tokens, event)
                                    && EventWrites(spec, p, stored.tokens, event, stored.data).1)
            && (step.err.None? ==>
                  && TokensWoken(spec, stored.tokens, step.inst.tokens, event)
                  && NodesWoken(stored.tokens, stored.nodeStates, step.inst.nodeStates, event)
                  && step.inst.data == EventWrites(spec, p, stored.tokens, event, stored.data).0
                  && step.inst.status == InstanceRunning && step.inst.version == stored.version + 1
                  && step.inst.id == stored.id && step.inst.joins == stored.joins)
  {
    hide WaitsFor;
    assert stored.tokens[..|stored.tokens|] == stored.tokens && stored.tokens[..0] == [];
    WakesFrom(spec, p, stored, event, 0, stored);
    if !AnyWaitsFor(stored.tokens, event) {
      NobodyWritesNothing(spec, p, stored.tokens, event, stored.data);
    }
  }

  /** The waking loop itself, on any instance. */
  lemma LoopWakesExactly(spec: FlowSpec, p: Plugins, stored: Instance, event: ExternalEvent)
    ensures var wake := WakeTokens(spec, p, stored, event, 0, |stored.tokens|);
            && (wake.err.None? <==> EventWrites(spec, p, stored.tokens, event, stored.data).1)
            && (wake.err.None? ==>
                  && (wake.matched <==> AnyWaitsFor(stored.tokens, event))
                  && TokensWoken(spec, stored.tokens, wake.inst.tokens, event)
                  && NodesWoken(stored.tokens, stored.nodeStates, wake.inst.nodeStates, event))
  {
    hide WaitsFor;
    assert stored.tokens[..|stored.tokens|] == stored.tokens && stored.tokens[..0] == [];
    WakesFrom(spec, p, stored, event, 0, stored);
  }

  lemma {:induction false} NobodyWritesNothing(spec: FlowSpec, p: Plugins, tokens: seq<Token>, event: ExternalEvent,
                                               data: Data)
    requires !AnyWaitsFor(tokens, event)
    ensures EventWrites(spec, p, tokens, event, data) == (data, true)
  {
    hide WaitsFor;
    if tokens != [] {
      NobodyWritesNothing(spec, p, tokens[..|tokens| - 1], event, data);
    }
  }

  // ---------- one round ----------

  /** The token that is executed is consumed, and the ids get one ready token each. */
  ghost predicate Emits(before: seq<Token>, after: seq<Token>, i: nat, ids: seq<Id>)
    requires i < |before|
  {
    && after[..] == before[i := before[i].(status := TokenConsumed)]
                    + seq(|ids|, k requires 0 <= k < |ids| => Token(ids[k], before[i].node, TokenReady, []))
  }

  /** The node's state is the one given, one attempt later; the other nodes keep theirs. */
  ghost predicate Attempted(before: map<Id, NodeState>, after: map<Id, NodeState>, n: Id, status: NodeStatus) {
    after == before[n := NodeState(status, 1 + if n in before then before[n].attempts else 0)]
  }

  /** The token's node is found, registered and gets its input. */
  ghost predicate Starts(spec: FlowSpec, p: Plugins, inst: Instance, i: nat, node: NodeSpec, input: Object)
    requires i < |inst.tokens|
  {
    && FindNode(spec.nodes, inst.tokens[i].node) == Some(node)
    && p.registered(node.kind) && p.buildInput(node, inst.data) == Some(input)
  }

  lemma CompletionTold(inst: Instance, i: nat, n: Id, data: Data, ids: seq<Id>)
    requires i < |inst.tokens| && inst.tokens[i].node == n
    ensures var done := Complete(StartToken(inst, i, n).(data := data), i, n, ids);
            && done == inst.(tokens := done.tokens, nodeStates := done.nodeStates, data := data)
            && Emits(inst.tokens, done.tokens, i, ids)
            && Attempted(inst.nodeStates, done.nodeStates, n, NodeCompleted)
  {
  }

  lemma StartKeepsRest(inst: Instance, i: nat, n: Id)
    requires i < |inst.tokens|
    ensures var started := StartToken(inst, i, n);
            && started == inst.(tokens := started.tokens, nodeStates := started.nodeStates)
            && |started.tokens| == |inst.tokens|
            && started.tokens == inst.tokens[i := inst.tokens[i].(status := TokenRunning)]
            && Attempted(inst.nodeStates, started.nodeStates, n, NodeRunning)
  {
  }

  lemma FailureTold(inst: Instance, i: nat, n: Id, data: Data)
    requires i < |inst.tokens| && inst.tokens[i].node == n
    ensures var failed := Fail(StartToken(inst, i, n).(data := data), i, n);
            && failed == inst.(tokens := failed.tokens, nodeStates := failed.nodeStates, data := data)
            && Emits(inst.tokens, failed.tokens, i, [])
            && Attempted(inst.nodeStates, failed.nodeStates, n, NodeFailed)
  {
  }

  /**
   The executor runs on the input built for its node. If it returns and its writes are
   accepted, its own choice of next nodes gets tokens, or all outgoing targets if it made none;
   otherwise the node fails and nobody gets a token.
   */
  lemma ExecutorRound(spec: FlowSpec, p: Plugins, inst: Instance, i: nat, node: NodeSpec, input: Object)
    requires i < |inst.tokens| && Starts(spec, p, inst, i, node, input)
    requires node.kind != "control.wait" && node.kind != "control.join"
    ensures var step, told := ExecuteReady(spec, p, inst, i), p.execute(inst.version, node, input, inst.data);
            && step.inst.joins == inst.joins && step.inst.version == inst.version
            && (told.Threw? ==> step.err.Some? && step.inst.data == told.data)
            && (told.Returned? ==>
                  var (written, ok) := p.applyWrites(node, told.output, told.data);
                  && step.inst.data == written && (step.err.None? <==> ok)
                  && (ok ==>
                        var ids := match told.next case Some(chosen) => chosen case None => Outgoing(spec.edges, node.id);
                        Emits(inst.tokens, step.inst.tokens, i, ids)))
            && (step.err.Some? ==> step.err.value == NodeExecutionFailed && Emits(inst.tokens, step.inst.tokens, i, []))
            && Attempted(inst.nodeStates, step.inst.nodeStates, node.id,
                         if step.err.None? then NodeCompleted else NodeFailed)
  {
    FindNodeHasId(spec.nodes, inst.tokens[i].node);
    ExecuteReadyStarts(spec, p, inst, i, node);
    hide Emits, Attempted, Complete, Fail, Mark, SetStatus, Outgoing, ExecuteReady, Starts, FindNode;
    var started, told := StartToken(inst, i, node.id), p.execute(inst.version, node, input, inst.data);
    StartKeepsRest(inst, i, node.id);
    if told.Threw? {
      FailureTold(inst, i, node.id, told.data);
    } else {
      var (written, ok) := p.applyWrites(node, told.output, told.data);
      FailureTold(inst, i, node.id, written);
      CompletionTold(inst, i, node.id, written, Outgoing(spec.edges, node.id));
      if told.next.Some? { CompletionTold(inst, i, node.id, written, told.next.value); }
    }
  }

  /** A wait node keeps its token, with the one condition its configuration gives; without one it fails. */
  lemma WaitRound(spec: FlowSpec, p: Plugins, inst: Instance, i: nat, node: NodeSpec, input: Object)
    requires i < |inst.tokens| && Starts(spec, p, inst, i, node, input) && node.kind == "control.wait"
    ensures var step, condition := ExecuteReady(spec, p, inst, i), p.waitConfig(node, inst.data);
            && step.inst.joins == inst.joins && step.inst.data == inst.data && step.inst.version == inst.version
            && (step.err.None? <==> condition.Some?)
            && (condition.Some? ==>
                  var t := inst.tokens[i];
                  step.inst.tokens == inst.tokens[i := Token(t.node, t.source, TokenWaiting, [condition.value])])
            && (condition.None? ==>
                  step.err == Some(NodeExecutionFailed) && Emits(inst.tokens, step.inst.tokens, i, []))
            && Attempted(inst.nodeStates, step.inst.nodeStates, node.id,
                         if condition.Some? then NodeWaiting else NodeFailed)
  {
    FindNodeHasId(spec.nodes, inst.tokens[i].node);
  }

  /** A join with one predecessor or none passes the token on. */
  lemma PassingJoinRound(spec: FlowSpec, p: Plugins, inst: Instance, i: nat, node: NodeSpec, input: Object)
    requires i < |inst.tokens| && Starts(spec, p, inst, i, node, input) && node.kind == "control.join"
    requires |Incoming(spec.edges, node.id)| <= 1
    ensures var step := ExecuteReady(spec, p, inst, i);
            && step.err.None? && step.inst.joins == inst.joins && step.inst.data == inst.data
            && Emits(inst.tokens, step.inst.tokens, i, Outgoing(spec.edges, node.id))
            && Attempted(inst.nodeStates, step.inst.nodeStates, node.id, NodeCompleted)
  {
    FindNodeHasId(spec.nodes, inst.tokens[i].node);
  }

  /** The join state that an execution of a gathering join starts from. */
  ghost function JoinBefore(spec: FlowSpec, joins: map<Id, JoinState>, n: Id): JoinState {
    if n in joins then joins[n] else JoinState(Incoming(spec.edges, n), {}, false)
  }

  /** The source of the token is an arrival, unless no node emitted it; the join is completed by the last arrival. */
  ghost predicate Joined(before: JoinState, after: JoinState, source: Id) {
    && after.expected == before.expected
    && (before.completed ==> after == before)
    && (!before.completed ==>
          && (forall a :: a in after.arrived <==> a in before.arrived || (a == source && a.name != ""))
          && (after.completed <==> forall a :: a in before.expected ==> a in after.arrived))
  }

  lemma JoinTold(spec: FlowSpec, started: Instance, i: nat, n: Id)
    requires i < |started.tokens| && |Incoming(spec.edges, n)| > 1
    ensures var now, before := ExecuteJoin(spec, started, i, n), JoinBefore(spec, started.joins, n);
            && n in now.joins && Joined(before, now.joins[n], started.tokens[i].source)
            && now == started.(tokens := now.tokens, joins := started.joins[n := now.joins[n]], nodeStates := now.nodeStates)
            && now.tokens == started.tokens[i := started.tokens[i].(status := TokenConsumed)]
                             + (if now.joins[n].completed && !before.completed then Offspring(spec.edges, n) else [])
            && now.nodeStates == if before.completed then started.nodeStates
                                 else Mark(started, n, if now.joins[n].completed then NodeCompleted else NodeWaiting, 0).nodeStates
  {
    hide Incoming, Outgoing;
    OffspringIsNew(spec.edges, n);
  }

  /**
   A join of several predecessors adds the token's source to its arrivals. The arrival that
   completes them completes the join, and only that one emits; a token that comes later is
   consumed without a trace.
   */
  lemma GatheringJoinRound(spec: FlowSpec, p: Plugins, inst: Instance, i: nat, node: NodeSpec, input: Object)
    requires i < |inst.tokens| && Starts(spec, p, inst, i, node, input) && node.kind == "control.join"
    requires |Incoming(spec.edges, node.id)| > 1
    ensures var step, n := ExecuteReady(spec, p, inst, i), node.id;
            var before := JoinBefore(spec, inst.joins, n);
            && step.err.None? && step.inst.data == inst.data
            && n in step.inst.joins && step.inst.joins == inst.joins[n := step.inst.joins[n]]
            && Joined(before, step.inst.joins[n], inst.tokens[i].source)
            && var fires := step.inst.joins[n].completed && !before.completed;
            && Emits(inst.tokens, step.inst.tokens, i, if fires then Outgoing(spec.edges, n) else [])
            && Attempted(inst.nodeStates, step.inst.nodeStates, n,
                         if before.completed then NodeRunning else if fires then NodeCompleted else NodeWaiting)
  {
    hide StartToken, ExecuteReady, ExecuteJoin, Incoming, Outgoing, FindNode, Starts, Joined, JoinBefore;
    JoinStarts(spec, p, inst, i, node, input);
    StartKeepsRest(inst, i, node.id);
    var started := StartToken(inst, i, node.id);
    SameJoinBefore(spec, started, inst, node.id);
    JoinTold(spec, started, i, node.id);
  }

  lemma SameJoinBefore(spec: FlowSpec, a: Instance, b: Instance, n: Id)
    requires a.joins == b.joins
    ensures JoinBefore(spec, a.joins, n) == JoinBefore(spec, b.joins, n)
  {
  }

  lemma JoinStarts(spec: FlowSpec, p: Plugins, inst: Instance, i: nat, node: NodeSpec, input: Object)
    requires i < |inst.tokens| && Starts(spec, p, inst, i, node, input) && node.kind == "control.join"
    ensures inst.tokens[i].node == node.id
    ensures ExecuteReady(spec, p, inst, i) == Step(ExecuteJoin(spec, StartToken(inst, i, node.id), i, node.id), None)
  {
    FindNodeHasId(spec.nodes, inst.tokens[i].node);
    ExecuteReadyStarts(spec, p, inst, i, node);
  }

  /** A node that is unknown, unregistered or without input stops the run, and nothing is emitted. */
  lemma StuckRound(spec: FlowSpec, p: Plugins, inst: Instance, i: nat)
    requires i < |inst.tokens|
    requires forall node, input :: !Starts(spec, p, inst, i, node, input)
    ensures var step, found := ExecuteReady(spec, p, inst, i), FindNode(spec.nodes, inst.tokens[i].node);
            && step.err == Some(if found.None? then NodeNotFound
                                else if !p.registered(found.value.kind) then TypeNotRegistered else InputUnresolved)
            && step.inst == inst.(tokens := step.inst.tokens)
            && step.inst.tokens == if step.err == Some(InputUnresolved)
                                   then inst.tokens[i := inst.tokens[i].(status := TokenRunning)] else inst.tokens
  {
    var found := FindNode(spec.nodes, inst.tokens[i].node);
    if found.Some? && p.registered(found.value.kind) && p.buildInput(found.value, inst.data).Some? {
      assert Starts(spec, p, inst, i, found.value, p.buildInput(found.value, inst.data).value);
      assert false;
    }
  }

  // ---------- after waking ----------

  /** Tokens are only added; one that is not ready stays as it is, and none changes its ends. */
  ghost predicate KeepsUnready(before: seq<Token>, after: seq<Token>) {
    && |after| >= |before|
    && forall k :: 0 <= k < |before| ==>
         && after[k].node == before[k].node && after[k].source == before[k].source
         && (before[k].status != TokenReady ==> after[k] == before[k])
  }

  lemma RoundKeepsUnready(spec: FlowSpec, p: Plugins, inst: Instance, i: nat)
    requires i < |inst.tokens| && inst.tokens[i].status == TokenReady
    ensures var step := ExecuteReady(spec, p, inst, i);
            && KeepsUnready(inst.tokens, step.inst.tokens)
            && step.err in [None, Some(NodeNotFound), Some(TypeNotRegistered), Some(InputUnresolved),
                            Some(NodeExecutionFailed)]
  {
    hide ExecuteReady, Attempted;
    if node, input :| Starts(spec, p, inst, i, node, input) {
      hide Starts;
      if node.kind == "control.wait" {
        WaitRound(spec, p, inst, i, node, input);
      } else if node.kind != "control.join" {
        ExecutorRound(spec, p, inst, i, node, input);
      } else if |Incoming(spec.edges, node.id)| <= 1 {
        PassingJoinRound(spec, p, inst, i, node, input);
      } else {
        GatheringJoinRound(spec, p, inst, i, node, input);
      }
    } else {
      StuckRound(spec, p, inst, i);
    }
  }

  /** The errors a run may end with. */
  predicate RunErrs(halt: Halt) {
    halt.Errored? ==> halt.err in [NodeNotFound, TypeNotRegistered, InputUnresolved, NodeExecutionFailed]
  }

  lemma {:induction false} RunKeepsUnready(spec: FlowSpec, p: Plugins, inst: Instance, rounds: nat)
    ensures var r := Run(spec, p, inst, rounds);
            && KeepsUnready(inst.tokens, r.inst.tokens)
            && RunErrs(r.halt)
    decreases rounds
  {
    hide ExecuteReady;
    var i := FirstReady(inst.tokens, 0);
    if i < |inst.tokens| && rounds > 0 {
      RoundKeepsUnready(spec, p, inst, i);
      var step := ExecuteReady(spec, p, inst, i);
      if step.err.None? {
        RunKeepsUnready(spec, p, step.inst.(version := step.inst.version + 1), rounds - 1);
      }
    }
  }

  /**
   What a resume leaves of the tokens that were stored: of the waiting ones exactly those that
   wait for the event are consumed, and what these emit follows the stored tokens.
   */
  ghost predicate Resumed(spec: FlowSpec, before: seq<Token>, after: seq<Token>, event: ExternalEvent) {
    var emitted := Emissions(spec.edges, before, event.kind, event.key);
    && |after| >= |before| + |emitted|
    && (forall k :: 0 <= k < |before| && before[k].status == TokenWaiting ==>
          after[k] == if WaitsFor(before[k], event.kind, event.key) then before[k].(status := TokenConsumed)
                      else before[k])
    && forall k :: 0 <= k < |emitted| ==>
         after[|before| + k].node == emitted[k].node && after[|before| + k].source == emitted[k].source
  }

  lemma ResumedByWaking(spec: FlowSpec, before: seq<Token>, woken: seq<Token>, after: seq<Token>, event: ExternalEvent)
    requires TokensWoken(spec, before, woken, event) && KeepsUnready(woken, after)
    ensures Resumed(spec, before, after, event)
  {
    hide WaitsFor, Emissions;
    var emitted := Emissions(spec.edges, before, event.kind, event.key);
    forall k | 0 <= k < |emitted| ensures woken[|before| + k] == emitted[k] {
      assert woken[|before|..][k] == woken[|before| + k];
    }
  }

  /** A whole resume: what is woken stays consumed, and what is not keeps waiting, however the run goes on. */
  lemma ResumeTold(spec: FlowSpec, p: Plugins, stored: Instance, event: ExternalEvent, rounds: nat)
    requires stored.status == InstanceCreated || stored.status == InstanceRunning || stored.status == InstanceWaiting
    ensures var awake := Awaken(spec, p, stored, event);
            && (awake.err.Some? ==> awake.err != Some(AlreadyTerminal))
            && (awake.err.None? ==>
                  && Resumed(spec, stored.tokens, awake.inst.tokens, event)
                  && Resumed(spec, stored.tokens, AfterRun(spec, p, awake.inst, rounds).tokens, event)
                  && RunErrs(Run(spec, p, awake.inst, rounds).halt)
                  && awake.inst == awake.inst.(status := InstanceRunning))
  {
    hide Run, Resumed, TokensWoken, EventWrites, NodesWoken, AnyWaitsFor, KeepsUnready, WakeTokens;
    WakesExactly(spec, p, stored, event);
    var awake := Awaken(spec, p, stored, event);
    if awake.err.None? {
      RunKeepsUnready(spec, p, awake.inst, rounds);
      KeepsSelf(awake.inst.tokens);
      ResumedByWaking(spec, stored.tokens, awake.inst.tokens, awake.inst.tokens, event);
      ResumedByWaking(spec, stored.tokens, awake.inst.tokens, Run(spec, p, awake.inst, rounds).inst.tokens, event);
    }
  }

  lemma KeepsSelf(tokens: seq<Token>)
    ensures KeepsUnready(tokens, tokens)
  {
  }

  // ---------- starting ----------

  /** A node that no edge leads to. */
  ghost predicate IsSource(edges: seq<Edge>, n: Id) {
    forall e :: e in edges ==> e.dst != n
  }

  lemma NoIncomingIsSource(edges: seq<Edge>, n: Id)
    ensures Incoming(edges, n) == [] <==> IsSource(edges, n)
  {
    if Incoming(edges, n) != [] {
      IncomingIsEdge(edges, n, Incoming(edges, n)[0]);
    }
    forall e | e in edges && e.dst == n ensures Incoming(edges, n) != [] {
      IncomingIsEdge(edges, n, e.src);
    }
  }

  lemma {:induction false} SourcesInOrder(nodes: seq<NodeSpec>, edges: seq<Edge>)
    ensures GivenBy(nodes, Sources(nodes, edges), (node: NodeSpec, n: Id) => node.id == n && IsSource(edges, n))
  {
    hide IsSource;
    var gives := (node: NodeSpec, n: Id) => node.id == n && IsSource(edges, n);
    if nodes == [] {
      NothingGiven(gives);
    } else {
      var front, node := nodes[..|nodes| - 1], nodes[|nodes| - 1];
      SourcesInOrder(front, edges);
      NoIncomingIsSource(edges, node.id);
      assert nodes == front + [node];
      if gives(node, node.id) {
        OneMoreGiven(front, Sources(front, edges), gives, node, node.id);
      } else {
        NoneMoreGiven(front, Sources(front, edges), gives, node);
      }
    }
  }

  /** A new instance holds the input as its flow input, and one ready token for every node that no edge leads to. */
  lemma StartedTold(spec: FlowSpec, id: Id, input: Object)
    ensures var inst := Started(spec, id, input);
            && inst == Instance(id, InstanceCreated, Data(input, map[], map[], map[]), inst.tokens, map[], map[], None, 0)
            && exists ids: seq<Id> ::
                 && GivenBy(spec.nodes, ids, (node: NodeSpec, n: Id) => node.id == n && IsSource(spec.edges, n))
                 && inst.tokens == seq(|ids|, k requires 0 <= k < |ids| => Token(ids[k], Id(""), TokenReady, []))
  {
    hide IsSource;
    SourcesInOrder(spec.nodes, spec.edges);
    var ids := Sources(spec.nodes, spec.edges);
    assert NewTokens(NO_NODE, ids) == seq(|ids|, k requires 0 <= k < |ids| => Token(ids[k], Id(""), TokenReady, []));
  }
}
