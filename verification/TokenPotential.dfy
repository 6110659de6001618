/**
 How much work a flow instance can do. On an acyclic spec every token carries the number
 of paths that start at its node; a round never creates weight, so a run ends, and
 without joins and dynamic routing a finished instance has executed one token per path.
 */
module TokenPotential {
  import opened Text
  import opened Graphs
  import JsonValues
  import Cycles = CycleSearch
  import opened Sequences
  import opened TokenModel
  import opened TokenSafety

  /** A rank on part of the graph that the edges do not leave and along which they descend. */
  ghost predicate Descends(edges: seq<Edge>, rank: map<Id, nat>) {
    Cycles.Settled(RelOf(edges), rank)
  }

  lemma OutgoingDescends(edges: seq<Edge>, rank: map<Id, nat>, n: Id)
    requires Descends(edges, rank) && n in rank
    ensures forall t :: t in Outgoing(edges, n) ==> t in rank && rank[t] < rank[n]
  {
    forall t | t in Outgoing(edges, n) ensures t in rank && rank[t] < rank[n] {
      OutgoingIsEdge(edges, n, t);
      assert (n, t) in RelOf(edges);
    }
  }

  // ---------- paths ----------

  ghost function Prefixed(n: Id, paths: seq<seq<Id>>): seq<seq<Id>> {
    seq(|paths|, i requires 0 <= i < |paths| => [n] + paths[i])
  }

  /** All paths that start at n, for every edge taken, in edge order. */
  ghost function Paths(edges: seq<Edge>, rank: map<Id, nat>, n: Id): seq<seq<Id>>
    requires Descends(edges, rank) && n in rank
    decreases rank[n], 1, 0
  {
    OutgoingDescends(edges, rank, n);
    [[n]] + Prefixed(n, PathsOf(edges, rank, Outgoing(edges, n), rank[n]))
  }

  ghost function PathsOf(edges: seq<Edge>, rank: map<Id, nat>, ids: seq<Id>, below: nat): seq<seq<Id>>
    requires Descends(edges, rank)
    requires forall t :: t in ids ==> t in rank && rank[t] < below
    decreases below, 0, |ids|
  {
    if ids == [] then []
    else PathsOf(edges, rank, ids[..|ids| - 1], below) + Paths(edges, rank, ids[|ids| - 1])
  }

  /** The number of paths that start at a node. */
  ghost function Weight(edges: seq<Edge>, rank: map<Id, nat>, n: Id): nat
    requires Descends(edges, rank) && n in rank
  {
    |Paths(edges, rank, n)|
  }

  ghost function Total(edges: seq<Edge>, rank: map<Id, nat>, ids: seq<Id>): nat
    requires Descends(edges, rank)
    requires forall t :: t in ids ==> t in rank
  {
    if ids == [] then 0
    else Total(edges, rank, ids[..|ids| - 1]) + Weight(edges, rank, ids[|ids| - 1])
  }

  lemma {:induction false} PathsOfTotal(edges: seq<Edge>, rank: map<Id, nat>, ids: seq<Id>, below: nat)
    requires Descends(edges, rank)
    requires forall t :: t in ids ==> t in rank && rank[t] < below
    ensures |PathsOf(edges, rank, ids, below)| == Total(edges, rank, ids)
  {
    if ids != [] { PathsOfTotal(edges, rank, ids[..|ids| - 1], below); }
  }

  /** One path ends here, the others go on to a successor. */
  lemma WeightUnfolds(edges: seq<Edge>, rank: map<Id, nat>, n: Id)
    requires Descends(edges, rank) && n in rank
    ensures forall t :: t in Outgoing(edges, n) ==> t in rank
    ensures Weight(edges, rank, n) == 1 + Total(edges, rank, Outgoing(edges, n))
  {
    OutgoingDescends(edges, rank, n);
    PathsOfTotal(edges, rank, Outgoing(edges, n), rank[n]);
  }

  lemma {:induction false} PathsOfMember(edges: seq<Edge>, rank: map<Id, nat>, ids: seq<Id>, below: nat, p: seq<Id>)
    requires Descends(edges, rank)
    requires forall t :: t in ids ==> t in rank && rank[t] < below
    ensures p in PathsOf(edges, rank, ids, below) <==> exists t :: t in ids && p in Paths(edges, rank, t)
  {
    if ids != [] {
      var front, last := ids[..|ids| - 1], ids[|ids| - 1];
      assert ids == front + [last];
      PathsOfMember(edges, rank, front, below, p);
      if p in PathsOf(edges, rank, front, below) {
        var t :| t in front && p in Paths(edges, rank, t);
        assert t in ids;
      }
      if t :| t in ids && p in Paths(edges, rank, t) {
        assert t in front || t == last;
      }
    }
  }

  lemma PrefixedMember(n: Id, paths: seq<seq<Id>>, p: seq<Id>)
    ensures p in Prefixed(n, paths) <==> p != [] && p[0] == n && p[1..] in paths
  {
    if p != [] && p[0] == n && p[1..] in paths {
      var i :| 0 <= i < |paths| && paths[i] == p[1..];
      assert p == [n] + paths[i] == Prefixed(n, paths)[i];
    }
    if p in Prefixed(n, paths) {
      var i :| 0 <= i < |paths| && p == Prefixed(n, paths)[i];
      assert p[1..] == paths[i];
    }
  }

  /** The paths counted are exactly the walks of the graph from n. */
  lemma {:induction false} PathsAreWalks(edges: seq<Edge>, rank: map<Id, nat>, n: Id, p: seq<Id>)
    requires Descends(edges, rank) && n in rank
    ensures p in Paths(edges, rank, n) <==> Walk(RelOf(edges), p) && p[0] == n
    decreases |p|
  {
    var r, out := RelOf(edges), Outgoing(edges, n);
    OutgoingDescends(edges, rank, n);
    PrefixedMember(n, PathsOf(edges, rank, out, rank[n]), p);
    if |p| > 1 && p[0] == n {
      var rest, t := p[1..], p[1];
      PathsOfMember(edges, rank, out, rank[n], rest);
      OutgoingIsEdge(edges, n, t);
      WalkUnfolds(r, p);
      forall s | s in out ensures rest in Paths(edges, rank, s) <==> Walk(r, rest) && rest[0] == s {
        PathsAreWalks(edges, rank, s, rest);
      }
      assert (n, t) in r <==> Edge(n, t) in edges;
    } else if |p| == 1 && p[0] == n {
      assert p == [n];
    } else {
      PathsOfMember(edges, rank, out, rank[n], []);
      forall s | s in out ensures [] !in Paths(edges, rank, s) { PathsNotEmpty(edges, rank, s); }
    }
  }

  lemma PathsNotEmpty(edges: seq<Edge>, rank: map<Id, nat>, n: Id)
    requires Descends(edges, rank) && n in rank
    ensures [] !in Paths(edges, rank, n)
  {
  }

  /** No path is counted twice, unless an edge is listed twice. */
  lemma {:induction false} PathsAreDistinct(edges: seq<Edge>, rank: map<Id, nat>, n: Id)
    requires Descends(edges, rank) && n in rank && Distinct(edges)
    ensures Distinct(Paths(edges, rank, n))
    decreases rank[n], 1, 0
  {
    var out := Outgoing(edges, n);
    OutgoingDescends(edges, rank, n);
    OutgoingDistinct(edges, n);
    PathsOfDistinct(edges, rank, out, rank[n]);
    var rest, all := PathsOf(edges, rank, out, rank[n]), Paths(edges, rank, n);
    forall i, j | 0 <= i < j < |all| ensures all[i] != all[j] {
      assert all[j] == [n] + rest[j - 1];
      if i > 0 {
        assert all[i] == [n] + rest[i - 1];
        assert all[i][1..] == rest[i - 1] && all[j][1..] == rest[j - 1];
      } else {
        PathsOfMember(edges, rank, out, rank[n], rest[j - 1]);
        var t :| t in out && rest[j - 1] in Paths(edges, rank, t);
        PathsNotEmpty(edges, rank, t);
        assert |all[j]| > 1;
      }
    }
  }

  lemma {:induction false} PathsOfDistinct(edges: seq<Edge>, rank: map<Id, nat>, ids: seq<Id>, below: nat)
    requires Descends(edges, rank) && Distinct(edges) && Distinct(ids)
    requires forall t :: t in ids ==> t in rank && rank[t] < below
    ensures Distinct(PathsOf(edges, rank, ids, below))
    decreases below, 0, |ids|
  {
    if ids != [] {
      var front, last := ids[..|ids| - 1], ids[|ids| - 1];
      PathsOfDistinct(edges, rank, front, below);
      PathsAreDistinct(edges, rank, last);
      var a, b := PathsOf(edges, rank, front, below), Paths(edges, rank, last);
      forall i, j | 0 <= i < |a| && 0 <= j < |b| ensures a[i] != b[j] {
        PathsOfMember(edges, rank, front, below, a[i]);
        var t :| t in front && a[i] in Paths(edges, rank, t);
        PathsAreWalks(edges, rank, t, a[i]);
        PathsAreWalks(edges, rank, last, b[j]);
        assert b[j] in b;
        var k :| 0 <= k < |front| && front[k] == t;
        assert ids[k] == t && ids[k] != ids[|ids| - 1];
      }
      ConcatDistinct(a, b);
    }
  }

  lemma {:induction false} OutgoingDistinct(edges: seq<Edge>, n: Id)
    requires Distinct(edges)
    ensures Distinct(Outgoing(edges, n))
  {
    if edges != [] {
      var front, e := edges[..|edges| - 1], edges[|edges| - 1];
      OutgoingDistinct(front, n);
      if e.src == n {
        OutgoingIsEdge(front, n, e.dst);
        assert e !in front;
        assert e == Edge(n, e.dst);
      }
    }
  }

  // ---------- weight sums ----------

  lemma {:induction false} TotalConcat(edges: seq<Edge>, rank: map<Id, nat>, a: seq<Id>, b: seq<Id>)
    requires Descends(edges, rank)
    requires forall t :: t in a + b ==> t in rank
    ensures forall t :: t in a || t in b ==> t in rank
    ensures Total(edges, rank, a + b) == Total(edges, rank, a) + Total(edges, rank, b)
    decreases |b|
  {
    forall t | t in a || t in b ensures t in rank { assert t in a + b; }
    if b == [] {
      assert a + b == a;
    } else {
      var front := b[..|b| - 1];
      assert (a + b)[..|a + b| - 1] == a + front;
      forall t | t in a + front ensures t in rank { assert t in a || t in b; }
      TotalConcat(edges, rank, a, front);
    }
  }

  /** A sub-multiset of successors weighs no more than all of them. */
  lemma {:induction false} TotalMonotone(edges: seq<Edge>, rank: map<Id, nat>, a: seq<Id>, b: seq<Id>)
    requires Descends(edges, rank) && multiset(a) <= multiset(b)
    requires forall t :: t in b ==> t in rank
    ensures forall t :: t in a ==> t in rank
    ensures Total(edges, rank, a) <= Total(edges, rank, b)
    decreases |a|
  {
    hide Total, Weight, Descends;
    forall t | t in a ensures t in rank { assert t in multiset(a); assert t in multiset(b); }
    if a == [] {
      NoTotal(edges, rank);
    } else {
      var front, last := a[..|a| - 1], a[|a| - 1];
      assert a == front + [last] == front + [last] + [] && front + [] == front;
      TotalWithoutOne(edges, rank, front, last, []);
      var k := WithoutOne(front, last, b);
      var before, after := b[..k], b[k + 1..];
      forall t | t in before + after ensures t in rank { assert t in b; }
      TotalMonotone(edges, rank, front, before + after);
      TotalWithoutOne(edges, rank, before, last, after);
    }
  }

  lemma NoTotal(edges: seq<Edge>, rank: map<Id, nat>)
    requires Descends(edges, rank)
    ensures Total(edges, rank, []) == 0
  {
  }

  lemma WithoutOne(front: seq<Id>, last: Id, b: seq<Id>) returns (k: nat)
    requires multiset(front + [last]) <= multiset(b)
    ensures k < |b| && b == b[..k] + [last] + b[k + 1..] && multiset(front) <= multiset(b[..k] + b[k + 1..])
  {
    assert last in multiset(front + [last]);
    assert last in multiset(b);
    k :| 0 <= k < |b| && b[k] == last;
    assert b == b[..k] + [last] + b[k + 1..];
    assert multiset(b) == multiset(b[..k] + b[k + 1..]) + multiset{last};
    assert multiset(front + [last]) == multiset(front) + multiset{last};
    forall x ensures multiset(front)[x] <= multiset(b[..k] + b[k + 1..])[x] {
      assert multiset(front + [last])[x] <= multiset(b)[x];
    }
  }

  lemma TotalWithoutOne(edges: seq<Edge>, rank: map<Id, nat>, before: seq<Id>, x: Id, after: seq<Id>)
    requires Descends(edges, rank) && forall t :: t in before + [x] + after ==> t in rank
    ensures x in rank && (forall t :: t in before + after ==> t in rank)
    ensures Total(edges, rank, before + [x] + after) == Total(edges, rank, before + after) + Weight(edges, rank, x)
  {
    hide Weight, Descends;
    assert x in before + [x] + after;
    forall t | t in before + after ensures t in rank { assert t in before + [x] + after; }
    TotalConcat(edges, rank, before, after);
    TotalConcat(edges, rank, before + [x], after);
    TotalConcat(edges, rank, before, [x]);
  }

  // ---------- the potential of an instance ----------

  ghost predicate Placed(rank: map<Id, nat>, tokens: seq<Token>) {
    forall i :: 0 <= i < |tokens| ==> tokens[i].node in rank
  }

  ghost function TokenWeight(edges: seq<Edge>, rank: map<Id, nat>, t: Token): nat
    requires Descends(edges, rank) && t.node in rank
  {
    if t.status == TokenConsumed then 1 else Weight(edges, rank, t.node)
  }

  /** Consumed tokens count one, all others every path they may still open. */
  ghost function Potential(edges: seq<Edge>, rank: map<Id, nat>, tokens: seq<Token>): nat
    requires Descends(edges, rank) && Placed(rank, tokens)
  {
    if tokens == [] then 0
    else Potential(edges, rank, tokens[..|tokens| - 1]) + TokenWeight(edges, rank, tokens[|tokens| - 1])
  }

  ghost function ReadyWeight(edges: seq<Edge>, rank: map<Id, nat>, tokens: seq<Token>): nat
    requires Descends(edges, rank) && Placed(rank, tokens)
  {
    if tokens == [] then 0
    else
      ReadyWeight(edges, rank, tokens[..|tokens| - 1])
      + (if tokens[|tokens| - 1].status == TokenReady then Weight(edges, rank, tokens[|tokens| - 1].node) else 0)
  }

  lemma {:induction false} SumsConcat(edges: seq<Edge>, rank: map<Id, nat>, a: seq<Token>, b: seq<Token>)
    requires Descends(edges, rank) && Placed(rank, a) && Placed(rank, b)
    ensures Placed(rank, a + b)
    ensures Potential(edges, rank, a + b) == Potential(edges, rank, a) + Potential(edges, rank, b)
    ensures ReadyWeight(edges, rank, a + b) == ReadyWeight(edges, rank, a) + ReadyWeight(edges, rank, b)
    decreases |b|
  {
    if b == [] {
      assert a + b == a;
    } else {
      assert (a + b)[..|a + b| - 1] == a + b[..|b| - 1];
      SumsConcat(edges, rank, a, b[..|b| - 1]);
    }
  }

  lemma {:induction false} SumsOfNew(edges: seq<Edge>, rank: map<Id, nat>, source: Id, ids: seq<Id>)
    requires Descends(edges, rank)
    requires forall t :: t in ids ==> t in rank
    ensures Placed(rank, NewTokens(source, ids))
    ensures Potential(edges, rank, NewTokens(source, ids)) == Total(edges, rank, ids)
    ensures ReadyWeight(edges, rank, NewTokens(source, ids)) == Total(edges, rank, ids)
  {
    if ids != [] {
      SumsOfNew(edges, rank, source, ids[..|ids| - 1]);
      var ts := NewTokens(source, ids);
      assert ts[..|ts| - 1] == NewTokens(source, ids[..|ids| - 1]);
    }
  }

  ghost function ReadyShare(edges: seq<Edge>, rank: map<Id, nat>, t: Token): nat
    requires Descends(edges, rank) && t.node in rank
  {
    if t.status == TokenReady then Weight(edges, rank, t.node) else 0
  }

  lemma SumsUpdate(edges: seq<Edge>, rank: map<Id, nat>, tokens: seq<Token>, i: nat, t: Token)
    requires Descends(edges, rank) && Placed(rank, tokens) && i < |tokens| && t.node == tokens[i].node
    ensures Placed(rank, tokens[i := t])
    ensures Potential(edges, rank, tokens[i := t]) + TokenWeight(edges, rank, tokens[i])
         == Potential(edges, rank, tokens) + TokenWeight(edges, rank, t)
    ensures ReadyWeight(edges, rank, tokens[i := t]) + ReadyShare(edges, rank, tokens[i])
         == ReadyWeight(edges, rank, tokens) + ReadyShare(edges, rank, t)
  {
    var a, s, b := tokens[..i], tokens[i], tokens[i + 1..];
    assert tokens == a + [s] + b && tokens[i := t] == a + [t] + b;
    SumsConcat(edges, rank, a, [s]);
    SumsConcat(edges, rank, a + [s], b);
    SumsConcat(edges, rank, a, [t]);
    SumsConcat(edges, rank, a + [t], b);
    SumsOfOne(edges, rank, s);
    SumsOfOne(edges, rank, t);
  }

  lemma SumsOfOne(edges: seq<Edge>, rank: map<Id, nat>, t: Token)
    requires Descends(edges, rank) && t.node in rank
    ensures Potential(edges, rank, [t]) == TokenWeight(edges, rank, t)
    ensures ReadyWeight(edges, rank, [t]) == ReadyShare(edges, rank, t)
  {
    assert Potential(edges, rank, [t][..0]) == 0 && ReadyWeight(edges, rank, [t][..0]) == 0;
  }

  /** A token of node n changes status and emits tokens to some of n's successors, or stays without emitting. */
  ghost predicate Spends(spec: FlowSpec, tokens: seq<Token>, tokens': seq<Token>, i: nat, t: Token, ids: seq<Id>) {
    && i < |tokens| && t.node == tokens[i].node
    && tokens' == tokens[i := t] + NewTokens(t.node, ids)
    && multiset(ids) <= multiset(Outgoing(spec.edges, t.node))
    && (t.status != TokenConsumed ==> ids == [])
  }

  lemma SumsAfterSpending(spec: FlowSpec, rank: map<Id, nat>, tokens: seq<Token>, tokens': seq<Token>,
                          i: nat, t: Token, ids: seq<Id>)
    requires Descends(spec.edges, rank) && Placed(rank, tokens)
    requires Spends(spec, tokens, tokens', i, t, ids)
    requires tokens[i].status != TokenConsumed && t.status != TokenReady
    ensures Placed(rank, tokens')
    ensures Potential(spec.edges, rank, tokens') <= Potential(spec.edges, rank, tokens)
    ensures tokens[i].status == TokenReady ==>
              ReadyWeight(spec.edges, rank, tokens') < ReadyWeight(spec.edges, rank, tokens)
    ensures (t.status == TokenConsumed ==> ids == Outgoing(spec.edges, t.node)) ==>
              Potential(spec.edges, rank, tokens') == Potential(spec.edges, rank, tokens)
  {
    var n, edges := t.node, spec.edges;
    WeightUnfolds(edges, rank, n);
    TotalMonotone(edges, rank, ids, Outgoing(edges, n));
    SumsOfNew(edges, rank, n, ids);
    SumsUpdate(edges, rank, tokens, i, t);
    SumsConcat(edges, rank, tokens[i := t], NewTokens(n, ids));
  }

  // ---------- rounds, runs and lives ----------

  /** Executors that choose next nodes choose among the outgoing edges, each at most as often as it is listed. */
  ghost predicate Legal(spec: FlowSpec, p: Plugins) {
    forall v, node, input, data ::
      var e := p.execute(v, node, input, data);
      e.Returned? && e.next.Some? ==> multiset(e.next.value) <= multiset(Outgoing(spec.edges, node.id))
  }

  /** No executor chooses next nodes, and no join waits for several predecessors. */
  ghost predicate Static(spec: FlowSpec, p: Plugins) {
    && (forall v, node, input, data ::
          p.execute(v, node, input, data).Returned? ==> p.execute(v, node, input, data).next.None?)
    && (forall n :: !Gathers(spec, n))
  }

  /** What the round's last action makes of a started token: it is consumed or waits, and ids are emitted. */
  ghost predicate Ends(spec: FlowSpec, started: Instance, ended: Instance, i: nat, ids: seq<Id>)
    requires i < |started.tokens|
  {
    && i < |ended.tokens|
    && var t := ended.tokens[i];
    && t.node == started.tokens[i].node
    && t.status in {TokenWaiting, TokenConsumed}
    && ended.tokens == started.tokens[i := t] + NewTokens(t.node, ids)
    && multiset(ids) <= multiset(Outgoing(spec.edges, t.node))
    && (t.status == TokenWaiting ==> ids == [])
  }

  lemma JoinEnds(spec: FlowSpec, inst: Instance, i: nat, n: Id) returns (ids: seq<Id>)
    requires i < |inst.tokens| && inst.tokens[i].node == n
    ensures Ends(spec, inst, ExecuteJoin(spec, inst, i, n), i, ids)
    ensures |Incoming(spec.edges, n)| <= 1 ==> ids == Outgoing(spec.edges, n)
  {
    var out := Outgoing(spec.edges, n);
    var consumed := inst.tokens[i := inst.tokens[i].(status := TokenConsumed)];
    assert consumed + NewTokens(n, []) == consumed;
    ids := if ExecuteJoin(spec, inst, i, n).tokens == consumed then [] else out;
    if out != [] && |Incoming(spec.edges, n)| <= 1 {
      assert |consumed + NewTokens(n, out)| > |consumed|;
    }
  }

  lemma BlockEnds(spec: FlowSpec, p: Plugins, inst: Instance, i: nat, node: NodeSpec)
    requires i < |inst.tokens| && inst.tokens[i].node == node.id
    ensures Ends(spec, inst, BlockOnWait(p, inst, i, node).inst, i, [])
    ensures BlockOnWait(p, inst, i, node).err.None? ==>
              BlockOnWait(p, inst, i, node).inst.tokens[i].status == TokenWaiting
  {
    var after := BlockOnWait(p, inst, i, node).inst.tokens;
    assert after + NewTokens(node.id, []) == after;
  }

  lemma ExecutorEnds(spec: FlowSpec, p: Plugins, inst: Instance, i: nat, node: NodeSpec, input: JsonObject)
    returns (ids: seq<Id>)
    requires Legal(spec, p) && i < |inst.tokens| && inst.tokens[i].node == node.id
    ensures var step := RunExecutor(spec, p, inst, i, node, input);
            && Ends(spec, inst, step.inst, i, ids)
            && (Static(spec, p) && step.err.None? ==> ids == Outgoing(spec.edges, node.id))
  {
    var step := RunExecutor(spec, p, inst, i, node, input);
    var e := p.execute(inst.version, node, input, inst.data);
    var consumed := inst.tokens[i := inst.tokens[i].(status := TokenConsumed)];
    assert consumed + NewTokens(node.id, []) == consumed;
    ids := if step.err.Some? then [] else if e.next.None? then Outgoing(spec.edges, node.id) else e.next.value;
  }

  lemma StartedEnds(spec: FlowSpec, p: Plugins, started: Instance, i: nat, node: NodeSpec, input: JsonObject)
    returns (ids: seq<Id>)
    requires Legal(spec, p) && i < |started.tokens|
    requires FindNode(spec.nodes, started.tokens[i].node) == Some(node)
    ensures var step := StartedStep(spec, p, started, i, node, input);
            && Ends(spec, started, step.inst, i, ids)
            && (Static(spec, p) && step.err.None? && step.inst.tokens[i].status == TokenConsumed ==>
                  ids == Outgoing(spec.edges, node.id))
  {
    FindNodeHasId(spec.nodes, started.tokens[i].node);
    if node.kind == NODE_TYPE_WAIT {
      BlockEnds(spec, p, started, i, node);
      ids := [];
    } else if node.kind == NODE_TYPE_JOIN {
      ids := JoinEnds(spec, started, i, node.id);
      assert Gathers(spec, node.id) <==> |Incoming(spec.edges, node.id)| > 1;
    } else {
      ids := ExecutorEnds(spec, p, started, i, node, input);
    }
  }

  lemma RoundSpends(spec: FlowSpec, p: Plugins, inst: Instance, i: nat) returns (t: Token, ids: seq<Id>)
    requires Legal(spec, p) && i < |inst.tokens| && inst.tokens[i].status == TokenReady
    ensures var step := ExecuteReady(spec, p, inst, i);
            && Spends(spec, inst.tokens, step.inst.tokens, i, t, ids)
            && (step.err.None? ==> t.status in {TokenWaiting, TokenConsumed})
            && (t.status == TokenReady ==> step.inst.tokens == inst.tokens)
            && (Static(spec, p) && step.err.None? && t.status == TokenConsumed ==> ids == Outgoing(spec.edges, t.node))
  {
    hide Legal, Static, StartedStep, Gathers, BlockOnWait, ExecuteJoin, RunExecutor;
    var step := ExecuteReady(spec, p, inst, i);
    var found := FindNode(spec.nodes, inst.tokens[i].node);
    FindNodeHasId(spec.nodes, inst.tokens[i].node);
    if found.Some? && p.registered(found.value.kind) && p.buildInput(found.value, inst.data).Some? {
      var node := found.value;
      var started := StartToken(inst, i, node.id);
      ids := StartedEnds(spec, p, started, i, node, p.buildInput(node, inst.data).value);
      ExecuteReadyStarts(spec, p, inst, i, node);
      t := step.inst.tokens[i];
      assert inst.tokens[i := started.tokens[i]][i := t] == inst.tokens[i := t];
    } else {
      ids, t := [], step.inst.tokens[i];
      assert inst.tokens[i := t] + NewTokens(t.node, []) == inst.tokens[i := t];
    }
  }

  ghost predicate Weighed(spec: FlowSpec, rank: map<Id, nat>, tokens: seq<Token>) {
    Descends(spec.edges, rank) && Placed(rank, tokens)
  }

  ghost function P(spec: FlowSpec, rank: map<Id, nat>, tokens: seq<Token>): nat
    requires Weighed(spec, rank, tokens)
  {
    Potential(spec.edges, rank, tokens)
  }

  ghost function R(spec: FlowSpec, rank: map<Id, nat>, tokens: seq<Token>): nat
    requires Weighed(spec, rank, tokens)
  {
    ReadyWeight(spec.edges, rank, tokens)
  }

  lemma RoundBounded(spec: FlowSpec, p: Plugins, rank: map<Id, nat>, inst: Instance, i: nat)
    requires Legal(spec, p) && Weighed(spec, rank, inst.tokens) && i < |inst.tokens| && inst.tokens[i].status == TokenReady
    ensures var step := ExecuteReady(spec, p, inst, i);
            && Weighed(spec, rank, step.inst.tokens)
            && P(spec, rank, step.inst.tokens) <= P(spec, rank, inst.tokens)
            && (step.err.None? ==>
                  R(spec, rank, step.inst.tokens) < R(spec, rank, inst.tokens))
            && (Static(spec, p) && step.err.None? ==> P(spec, rank, step.inst.tokens) == P(spec, rank, inst.tokens))
  {
    var t, ids := RoundSpends(spec, p, inst, i);
    hide *;
    var step := ExecuteReady(spec, p, inst, i);
    SpendingRound(spec, p, rank, inst, step, i, t, ids);
  }

  lemma SpendingRound(spec: FlowSpec, p: Plugins, rank: map<Id, nat>, inst: Instance, step: Step, i: nat,
                      t: Token, ids: seq<Id>)
    requires Weighed(spec, rank, inst.tokens) && i < |inst.tokens| && inst.tokens[i].status == TokenReady
    requires Spends(spec, inst.tokens, step.inst.tokens, i, t, ids)
    requires step.err.None? ==> t.status in {TokenWaiting, TokenConsumed}
    requires t.status == TokenReady ==> step.inst.tokens == inst.tokens
    requires Static(spec, p) && step.err.None? && t.status == TokenConsumed ==> ids == Outgoing(spec.edges, t.node)
    ensures Weighed(spec, rank, step.inst.tokens)
    ensures P(spec, rank, step.inst.tokens) <= P(spec, rank, inst.tokens)
    ensures step.err.None? ==>
              R(spec, rank, step.inst.tokens) < R(spec, rank, inst.tokens)
    ensures Static(spec, p) && step.err.None? ==> P(spec, rank, step.inst.tokens) == P(spec, rank, inst.tokens)
  {
    if t.status != TokenReady {
      SumsAfterSpending(spec, rank, inst.tokens, step.inst.tokens, i, t, ids);
    }
  }

  lemma EndingKeepsTokens(inst: Instance)
    ensures Finalize(inst).tokens == inst.tokens
    ensures forall failed, err :: Failed(failed, err).tokens == failed.tokens
  {
  }

  /** A run creates no weight, and is over within as many rounds as its ready tokens weigh. */
  lemma {:induction false} RunBounded(spec: FlowSpec, p: Plugins, rank: map<Id, nat>, inst: Instance, rounds: nat)
    requires Legal(spec, p) && Weighed(spec, rank, inst.tokens)
    ensures var r := Run(spec, p, inst, rounds);
            && Weighed(spec, rank, r.inst.tokens)
            && P(spec, rank, r.inst.tokens) <= P(spec, rank, inst.tokens)
            && (rounds >= R(spec, rank, inst.tokens) ==> !r.halt.StillReady?)
            && (Static(spec, p) && !r.halt.Errored? ==> P(spec, rank, r.inst.tokens) == P(spec, rank, inst.tokens))
    decreases rounds
  {
    hide *;
    var i := FirstReady(inst.tokens, 0);
    EndingKeepsTokens(inst);
    RunByRounds(spec, p, inst, rounds);
    if i < |inst.tokens| {
      ReadyCosts(spec, rank, inst.tokens, i);
    }
    if i < |inst.tokens| && rounds > 0 {
      RoundBounded(spec, p, rank, inst, i);
      var step := ExecuteReady(spec, p, inst, i);
      if step.err.None? {
        RunBounded(spec, p, rank, step.inst.(version := step.inst.version + 1), rounds - 1);
      }
    }
  }

  lemma ReadyCosts(spec: FlowSpec, rank: map<Id, nat>, tokens: seq<Token>, i: nat)
    requires Weighed(spec, rank, tokens) && i < |tokens| && tokens[i].status == TokenReady
    ensures R(spec, rank, tokens) > 0
  {
    var t := tokens[i].(status := TokenConsumed);
    SumsUpdate(spec.edges, rank, tokens, i, t);
    WeightUnfolds(spec.edges, rank, t.node);
  }

  lemma {:induction false} ReadyWithinPotential(edges: seq<Edge>, rank: map<Id, nat>, tokens: seq<Token>)
    requires Descends(edges, rank) && Placed(rank, tokens)
    ensures ReadyWeight(edges, rank, tokens) <= Potential(edges, rank, tokens)
  {
    if tokens != [] { ReadyWithinPotential(edges, rank, tokens[..|tokens| - 1]); }
  }

  lemma {:induction false} WakeBounded(spec: FlowSpec, p: Plugins, rank: map<Id, nat>, inst: Instance,
                                       event: ExternalEvent, i: nat, end: nat)
    requires Weighed(spec, rank, inst.tokens) && end <= |inst.tokens|
    ensures var wake := WakeTokens(spec, p, inst, event, i, end);
            Weighed(spec, rank, wake.inst.tokens) && P(spec, rank, wake.inst.tokens) == P(spec, rank, inst.tokens)
    decreases end - i
  {
    if i < end {
      var token := inst.tokens[i];
      if token.status != TokenWaiting || !Matches(token.waitingFor, event) {
        WakeBounded(spec, p, rank, inst, event, i + 1, end);
      } else if FindNode(spec.nodes, token.node).Some? {
        var node := FindNode(spec.nodes, token.node).value;
        FindNodeHasId(spec.nodes, token.node);
        var (written, ok) := p.applyWrites(node, EventOutput(event), inst.data);
        if ok {
          var next := Complete(inst.(data := written), i, node.id, Outgoing(spec.edges, node.id));
          SumsAfterSpending(spec, rank, inst.tokens, next.tokens, i, token.(status := TokenConsumed),
                            Outgoing(spec.edges, node.id));
          WakeBounded(spec, p, rank, next, event, i + 1, end);
        }
      }
    }
  }

  lemma AfterRunBounded(spec: FlowSpec, p: Plugins, rank: map<Id, nat>, stored: Instance, rounds: nat)
    requires Legal(spec, p) && Weighed(spec, rank, stored.tokens) && Sound(spec, stored)
    ensures var after := AfterRun(spec, p, stored, rounds);
            && Weighed(spec, rank, after.tokens)
            && P(spec, rank, after.tokens) <= P(spec, rank, stored.tokens)
            && (Static(spec, p) && after.status != InstanceFailed ==> P(spec, rank, after.tokens) == P(spec, rank, stored.tokens))
  {
    if !Terminal(stored.status) {
      var running := stored.(status := InstanceRunning);
      RunBounded(spec, p, rank, running, rounds);
      RunSafe(spec, p, running, rounds);
    }
  }

  lemma AfterCallBounded(spec: FlowSpec, p: Plugins, rank: map<Id, nat>, stored: Instance, call: Call)
    requires Legal(spec, p) && Weighed(spec, rank, stored.tokens) && Sound(spec, stored)
    ensures var after := AfterCall(spec, p, stored, call);
            && Weighed(spec, rank, after.tokens)
            && P(spec, rank, after.tokens) <= P(spec, rank, stored.tokens)
            && (Static(spec, p) && after.status != InstanceFailed ==> P(spec, rank, after.tokens) == P(spec, rank, stored.tokens))
  {
    match call {
      case CallRun(rounds) => AfterRunBounded(spec, p, rank, stored, rounds);
      case CallResume(event, rounds) =>
        var awake := Awaken(spec, p, stored, event);
        if awake.err.None? {
          WakeBounded(spec, p, rank, stored, event, 0, |stored.tokens|);
          WakeSafe(spec, p, stored, event, 0, |stored.tokens|);
          AfterRunBounded(spec, p, rank, awake.inst, rounds);
        }
    }
  }

  /**
   Over the whole life of an instance, consumed tokens plus the weight of all others never
   exceed the number of paths from the sources; with static routing they are exactly that
   many until a node fails.
   */
  lemma {:induction false} LifeBounded(spec: FlowSpec, p: Plugins, rank: map<Id, nat>, id: Id, input: JsonObject,
                                       calls: seq<Call>)
    requires ValidSpec(spec, p) && Legal(spec, p) && Descends(spec.edges, rank)
    requires forall n :: n in Sources(spec.nodes, spec.edges) ==> n in rank
    ensures var inst := Life(spec, p, Started(spec, id, input), calls);
            var paths := Total(spec.edges, rank, Sources(spec.nodes, spec.edges));
            && Weighed(spec, rank, inst.tokens)
            && P(spec, rank, inst.tokens) <= paths
            && (Static(spec, p) && inst.status != InstanceFailed ==> P(spec, rank, inst.tokens) == paths)
    decreases |calls|
  {
    var start := Started(spec, id, input);
    if calls == [] {
      SumsOfNew(spec.edges, rank, NO_NODE, Sources(spec.nodes, spec.edges));
    } else {
      var front := calls[..|calls| - 1];
      LifeBounded(spec, p, rank, id, input, front);
      StartedIsSound(spec, p, id, input);
      LifeSafe(spec, p, start, front);
      AfterCallBounded(spec, p, rank, Life(spec, p, start, front), calls[|calls| - 1]);
      AfterCallSafe(spec, p, Life(spec, p, start, front), calls[|calls| - 1]);
    }
  }

  /** Every run of such an instance, at any point of its life, is over within one round per path from the sources. */
  lemma EveryRunEnds(spec: FlowSpec, p: Plugins, rank: map<Id, nat>, id: Id, input: JsonObject, calls: seq<Call>,
                     rounds: nat)
    requires ValidSpec(spec, p) && Legal(spec, p) && Descends(spec.edges, rank)
    requires forall n :: n in Sources(spec.nodes, spec.edges) ==> n in rank
    requires rounds >= Total(spec.edges, rank, Sources(spec.nodes, spec.edges))
    ensures var inst := Life(spec, p, Started(spec, id, input), calls);
            !Run(spec, p, inst.(status := InstanceRunning), rounds).halt.StillReady?
  {
    LifeBounded(spec, p, rank, id, input, calls);
    var inst := Life(spec, p, Started(spec, id, input), calls);
    ReadyWithinPotential(spec.edges, rank, inst.tokens);
    RunBounded(spec, p, rank, inst.(status := InstanceRunning), rounds);
  }

  lemma {:induction false} AllConsumed(edges: seq<Edge>, rank: map<Id, nat>, tokens: seq<Token>)
    requires Descends(edges, rank) && Placed(rank, tokens)
    requires forall i :: 0 <= i < |tokens| ==> tokens[i].status == TokenConsumed
    ensures Potential(edges, rank, tokens) == |tokens|
  {
    if tokens != [] { AllConsumed(edges, rank, tokens[..|tokens| - 1]); }
  }

  /** With static routing a completed instance has executed one token per path from the sources, resumes included. */
  lemma CompletedExecutesEveryPath(spec: FlowSpec, p: Plugins, rank: map<Id, nat>, id: Id, input: JsonObject,
                                   calls: seq<Call>)
    requires ValidSpec(spec, p) && Legal(spec, p) && Static(spec, p) && Descends(spec.edges, rank)
    requires forall n :: n in Sources(spec.nodes, spec.edges) ==> n in rank
    ensures var inst := Life(spec, p, Started(spec, id, input), calls);
            inst.status == InstanceCompleted ==>
              |inst.tokens| == Total(spec.edges, rank, Sources(spec.nodes, spec.edges))
  {
    var start := Started(spec, id, input);
    var inst := Life(spec, p, start, calls);
    LifeBounded(spec, p, rank, id, input, calls);
    StartedIsSound(spec, p, id, input);
    LifeSafe(spec, p, start, calls);
    if inst.status == InstanceCompleted {
      AllConsumed(spec.edges, rank, inst.tokens);
    }
  }
}
