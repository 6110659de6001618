/**
 The stateful executor itself: it updates a flow instance in place, token by token, and
 keeps instances in a store that exchanges copies. Every method is proved equal to the
 function on instances that `TokenModel` gives, so what is proved of those holds here.
 */
module TokenEngine {
  import opened Text
  import opened Graphs
  import opened JsonValues
  import opened Containers
  import DeepCopy
  import FlowExecutor
  import opened TokenModel
  import opened TokenSafety
  import opened TokenSteps

  /** The data of a flow: four maps on the heap, whose nested maps and slices may be shared among each other. */
  class DataContext {
    const flowInput: GoMap
    const flowOutput: GoMap
    const variables: GoMap
    const nodeContext: GoMap
    // What the maps spell out, and all containers reached from them.
    ghost var data: Data
    ghost var repr: set<object>

    ghost predicate Valid()
      reads this, repr
    {
      && this !in repr
      && flowInput != flowOutput && flowInput != variables && flowInput != nodeContext
      && flowOutput != variables && flowOutput != nodeContext && variables != nodeContext
      && Denotes(MapRef(flowInput), Obj(data.flowInput), repr)
      && Denotes(MapRef(flowOutput), Obj(data.flowOutput), repr)
      && Denotes(MapRef(variables), Obj(data.variables), repr)
      && Denotes(MapRef(nodeContext), Obj(data.nodeContext), repr)
    }

    ghost function View(): Data
      reads this
    {
      data
    }

    constructor Of(flowInput: GoMap, flowOutput: GoMap, variables: GoMap, nodeContext: GoMap,
                   ghost data: Data, ghost i: Layout, ghost o: Layout, ghost v: Layout, ghost n: Layout)
      requires Located(MapRef(flowInput), Obj(data.flowInput), i, [])
      requires Located(MapRef(flowOutput), Obj(data.flowOutput), o, [])
      requires Located(MapRef(variables), Obj(data.variables), v, [])
      requires Located(MapRef(nodeContext), Obj(data.nodeContext), n, [])
      requires i.Keys !! o.Keys !! v.Keys !! n.Keys
      ensures Valid() && View() == data && repr == i.Keys + o.Keys + v.Keys + n.Keys
    {
      this.flowInput, this.flowOutput, this.variables, this.nodeContext := flowInput, flowOutput, variables, nodeContext;
      this.data := data;
      repr := i.Keys + o.Keys + v.Keys + n.Keys;
      new;
      hide Denotes;
      SpellsOut(flowInput, data.flowInput, i, repr);
      SpellsOut(flowOutput, data.flowOutput, o, repr);
      SpellsOut(variables, data.variables, v, repr);
      SpellsOut(nodeContext, data.nodeContext, n, repr);
    }

    /** `cloneDataContext` */
    method Clone() returns (copy: DataContext)
      requires Valid()
      ensures fresh(copy) && copy.Valid() && fresh(copy.repr) && copy.View() == View()
    {
      hide Denotes, Located;
      var i, ip := DeepCopy.CloneMap(flowInput, Obj(data.flowInput), repr, []);
      var o, op := DeepCopy.CloneMap(flowOutput, Obj(data.flowOutput), repr, []);
      var v, vp := DeepCopy.CloneMap(variables, Obj(data.variables), repr, []);
      var n, np := DeepCopy.CloneMap(nodeContext, Obj(data.nodeContext), repr, []);
      copy := new DataContext.Of(i, o, v, n, data, ip, op, vp, np);
    }

    /** The data as values, as the plugins see it. */
    method Take() returns (d: Data)
      requires Valid()
      ensures d == View()
    {
      hide Denotes;
      var i := ValueOf(MapRef(flowInput), Obj(data.flowInput), repr);
      var o := ValueOf(MapRef(flowOutput), Obj(data.flowOutput), repr);
      var v := ValueOf(MapRef(variables), Obj(data.variables), repr);
      var n := ValueOf(MapRef(nodeContext), Obj(data.nodeContext), repr);
      d := Data(i.fields, o.fields, v.fields, n.fields);
    }

    lemma RootsAreOwn()
      requires Valid()
      ensures {flowInput, flowOutput, variables, nodeContext} <= repr
    {
    }

    /** Whoever holds the context may rewrite its maps in place; the plugins say how. */
    method Rewrite(d: Data)
      requires Valid()
      modifies `data, `repr, repr
      ensures Valid() && View() == d && fresh(repr - old(repr))
    {
      hide Denotes, Located, AllLocated;
      RootsAreOwn();
      var i, o, v, n, ip, op, vp, np := BuildParts(d);
      data := d;
      repr := ip.Keys + op.Keys + vp.Keys + np.Keys + {flowInput, flowOutput, variables, nodeContext};
      Install(i, o, v, n, ip, op, vp, np);
    }

    /** Replaces the entries of all four maps, for which the ghost fields are already set. */
    method Install(i: map<string, Any>, o: map<string, Any>, v: map<string, Any>, n: map<string, Any>,
                   ghost ip: Layout, ghost op: Layout, ghost vp: Layout, ghost np: Layout)
      requires this !in repr && {flowInput, flowOutput, variables, nodeContext} <= repr
      requires flowInput != flowOutput && flowInput != variables && flowInput != nodeContext
      requires flowOutput != variables && flowOutput != nodeContext && variables != nodeContext
      requires flowInput !in ip && flowOutput !in ip && variables !in ip && nodeContext !in ip && ip.Keys <= repr
      requires flowInput !in op && flowOutput !in op && variables !in op && nodeContext !in op && op.Keys <= repr
      requires flowInput !in vp && flowOutput !in vp && variables !in vp && nodeContext !in vp && vp.Keys <= repr
      requires flowInput !in np && flowOutput !in np && variables !in np && nodeContext !in np && np.Keys <= repr
      requires i.Keys == data.flowInput.Keys && AllLocated(i, data.flowInput, ip, [])
      requires o.Keys == data.flowOutput.Keys && AllLocated(o, data.flowOutput, op, [])
      requires v.Keys == data.variables.Keys && AllLocated(v, data.variables, vp, [])
      requires n.Keys == data.nodeContext.Keys && AllLocated(n, data.nodeContext, np, [])
      modifies flowInput, flowOutput, variables, nodeContext
      ensures Valid()
    {
      hide Denotes, Located, AllLocated;
      flowInput.entries, flowOutput.entries, variables.entries, nodeContext.entries := i, o, v, n;
      Respelled(flowInput, data.flowInput, ip, repr);
      Respelled(flowOutput, data.flowOutput, op, repr);
      Respelled(variables, data.variables, vp, repr);
      Respelled(nodeContext, data.nodeContext, np, repr);
    }
  }

  method BuildParts(d: Data)
    returns (i: map<string, Any>, o: map<string, Any>, v: map<string, Any>, n: map<string, Any>,
             ghost ip: Layout, ghost op: Layout, ghost vp: Layout, ghost np: Layout)
    ensures fresh(ip.Keys) && fresh(op.Keys) && fresh(vp.Keys) && fresh(np.Keys)
    ensures i.Keys == d.flowInput.Keys && AllLocated(i, d.flowInput, ip, [])
    ensures o.Keys == d.flowOutput.Keys && AllLocated(o, d.flowOutput, op, [])
    ensures v.Keys == d.variables.Keys && AllLocated(v, d.variables, vp, [])
    ensures n.Keys == d.nodeContext.Keys && AllLocated(n, d.nodeContext, np, [])
  {
    hide Located, AllLocated;
    i, ip := BuildEntries(d.flowInput, []);
    o, op := BuildEntries(d.flowOutput, []);
    v, vp := BuildEntries(d.variables, []);
    n, np := BuildEntries(d.nodeContext, []);
  }

  lemma Respelled(m: GoMap, fields: Object, inner: Layout, repr: set<object>)
    requires m.entries.Keys == fields.Keys && AllLocated(m.entries, fields, inner, [])
    requires m !in inner && inner.Keys <= repr && m in repr
    ensures Denotes(MapRef(m), Obj(fields), repr)
  {
    hide Denotes, Located, AllLocated;
    MapLocated(m, fields, inner, []);
    SpellsOut(m, fields, inner[m := []], repr);
  }

  /** `NewDataContext`, of given values. */
  method BuildContext(d: Data) returns (context: DataContext)
    ensures fresh(context) && context.Valid() && fresh(context.repr) && context.View() == d
  {
    hide Denotes, Located;
    var i, ip := BuildMap(d.flowInput, []);
    var o, op := BuildMap(d.flowOutput, []);
    var v, vp := BuildMap(d.variables, []);
    var n, np := BuildMap(d.nodeContext, []);
    context := new DataContext.Of(i, o, v, n, d, ip, op, vp, np);
  }

  class FlowInstance {
    var id: Id
    var status: InstanceStatus
    const context: DataContext
    var tokens: seq<Token>
    var nodeStates: map<Id, NodeState>
    var joins: map<Id, JoinState>
    var lastError: Option<EngineError>
    var version: nat

    ghost function View(): Instance
      reads this, context
    {
      Instance(id, status, context.View(), tokens, nodeStates, joins, lastError, version)
    }

    /** The instance has its context for itself. */
    ghost predicate Valid()
      reads context, context.repr
    {
      this !in context.repr && context.Valid()
    }

    lemma ViewShowsFields()
      ensures View().id == id && View().status == status && View().tokens == tokens && View().data == context.View()
    {
    }

    constructor (v: Instance, context: DataContext)
      requires context.Valid() && context.View() == v.data
      ensures Valid() && View() == v && this.context == context
    {
      id, status, tokens, nodeStates, joins, lastError, version :=
        v.id, v.status, v.tokens, v.nodeStates, v.joins, v.lastError, v.version;
      this.context := context;
    }

    constructor Like(source: FlowInstance, context: DataContext)
      requires context.Valid() && context.View() == source.context.View()
      ensures Valid() && View() == source.View() && this.context == context
    {
      id, status, tokens, nodeStates, joins, lastError, version :=
        source.id, source.status, source.tokens, source.nodeStates, source.joins, source.lastError, source.version;
      this.context := context;
    }

    /** `cloneFlowInstance`: a new instance with a new context, of new containers. */
    method Clone() returns (copy: FlowInstance)
      requires Valid()
      ensures fresh(copy) && fresh(copy.context) && fresh(copy.context.repr) && copy.Valid() && copy.View() == View()
    {
      hide DataContext.Valid;
      var contextCopy := context.Clone();
      copy := new FlowInstance.Like(this, contextCopy);
    }

    method MarkNode(n: Id, nodeStatus: NodeStatus, extra: nat)
      modifies this`nodeStates
      ensures View() == Mark(old(View()), n, nodeStatus, extra)
    {
      var attempts := if n in nodeStates then nodeStates[n].attempts else 0;
      nodeStates := nodeStates[n := NodeState(nodeStatus, attempts + extra)];
    }

    method SetTokenStatus(i: nat, tokenStatus: TokenStatus)
      requires i < |tokens|
      modifies this`tokens
      ensures View() == SetStatus(old(View()), i, tokenStatus)
    {
      tokens := tokens[i := tokens[i].(status := tokenStatus)];
    }

    method AppendNextTokens(source: Id, next: seq<Id>)
      modifies this`tokens
      ensures View() == Emit(old(View()), source, next)
    {
      ghost var before := tokens;
      assert before + NewTokens(source, []) == before;
      for k := 0 to |next|
        invariant tokens == before + NewTokens(source, next[..k])
      {
        assert next[..k + 1][..k] == next[..k];
        assert before + NewTokens(source, next[..k]) + [NewToken(next[k], source)]
            == before + (NewTokens(source, next[..k]) + [NewToken(next[k], source)]);
        tokens := tokens + [NewToken(next[k], source)];
      }
      assert next[..|next|] == next;
    }

    method CompleteNode(i: nat, n: Id, next: seq<Id>)
      requires i < |tokens|
      modifies this`tokens, this`nodeStates
      ensures View() == Complete(old(View()), i, n, next)
    {
      SetTokenStatus(i, TokenConsumed);
      MarkNode(n, NodeCompleted, 0);
      AppendNextTokens(n, next);
    }

    method FailNode(i: nat, n: Id)
      requires i < |tokens|
      modifies this`tokens, this`nodeStates
      ensures View() == Fail(old(View()), i, n)
    {
      SetTokenStatus(i, TokenConsumed);
      MarkNode(n, NodeFailed, 0);
    }

    method ExecuteJoinNode(spec: FlowSpec, i: nat, n: Id)
      requires i < |tokens|
      modifies this`tokens, this`nodeStates, this`joins
      ensures View() == ExecuteJoin(spec, old(View()), i, n)
    {
      var incoming := Incoming(spec.edges, n);
      if |incoming| <= 1 {
        CompleteNode(i, n, Outgoing(spec.edges, n));
        return;
      }
      var state := if n in joins then joins[n] else JoinState(incoming, {}, false);
      if state.completed {
        SetTokenStatus(i, TokenConsumed);
        joins := joins[n := state];
        return;
      }
      if tokens[i].source != NO_NODE {
        state := state.(arrived := state.arrived + {tokens[i].source});
      }
      SetTokenStatus(i, TokenConsumed);
      joins := joins[n := state];
      if !ArrivedAll(state) {
        MarkNode(n, NodeWaiting, 0);
        return;
      }
      joins := joins[n := state.(completed := true)];
      MarkNode(n, NodeCompleted, 0);
      AppendNextTokens(n, Outgoing(spec.edges, n));
    }

    method FinalizeBlocked()
      modifies this`status
      ensures View() == Finalize(old(View()))
    {
      status := if HasWaiting(tokens) then InstanceWaiting else InstanceCompleted;
    }

    method MarkFailed(err: EngineError)
      modifies this`status, this`lastError
      ensures View() == Failed(old(View()), err)
    {
      status, lastError := InstanceFailed, Some(err);
    }

    method MarkRunning()
      modifies this`status
      ensures View() == old(View()).(status := InstanceRunning)
    {
      status := InstanceRunning;
    }

    method NextVersion()
      modifies this`version
      ensures View() == old(View()).(version := old(View()).version + 1)
    {
      version := version + 1;
    }
  }

  // ---------- the store ----------

  /** The objects of repr hold these instances, each under its own ID. */
  ghost predicate Stored(instances: map<Id, FlowInstance>, contents: map<Id, Instance>, repr: set<object>)
    reads repr
  {
    && contents.Keys == instances.Keys
    && forall k :: k in instances ==>
        && instances[k] in repr && instances[k].context in repr && instances[k].context.repr <= repr
        && instances[k].Valid() && instances[k].View() == contents[k]
        && contents[k].id == k && k != NO_NODE
  }

  lemma OneMoreStored(instances: map<Id, FlowInstance>, contents: map<Id, Instance>, repr: set<object>,
                      copy: FlowInstance)
    requires Stored(instances, contents, repr) && copy.id != NO_NODE && copy.Valid()
    ensures Stored(instances[copy.id := copy], contents[copy.id := copy.View()], repr + Footprint(copy))
  {
    hide DataContext.Valid;
  }

  /** An instance and everything that is reached from it. */
  ghost function Footprint(instance: FlowInstance): set<object>
    reads instance.context
  {
    {instance, instance.context} + instance.context.repr
  }

  class MemoryInstanceStore {
    var instances: map<Id, FlowInstance>
    // What is stored, and the objects that hold it, down to the nested containers; nobody else ever holds one of them.
    ghost var Contents: map<Id, Instance>
    ghost var Repr: set<object>

    ghost predicate Valid()
      reads this, Repr
    {
      this !in Repr && Stored(instances, Contents, Repr)
    }

    constructor ()
      ensures Valid() && Contents == map[] && Repr == {}
    {
      instances, Contents, Repr := map[], map[], {};
    }

    /** What both ways of storing do: a copy goes into the map. */
    method Keep(instance: FlowInstance)
      requires Valid() && instance.Valid() && instance.id != NO_NODE
      modifies `instances, `Contents, `Repr
      ensures Valid() && fresh(Repr - old(Repr)) && old(Repr) <= Repr
      ensures Contents == old(Contents)[instance.id := instance.View()]
    {
      hide Stored, FlowInstance.Valid;
      var copy := instance.Clone();
      copy.ViewShowsFields();
      instance.ViewShowsFields();
      OneMoreStored(instances, Contents, Repr, copy);
      instances := instances[instance.id := copy];
      Contents := Contents[instance.id := instance.View()];
      Repr := Repr + Footprint(copy);
    }

    method Create(instance: FlowInstance) returns (err: Option<EngineError>)
      requires Valid() && instance.Valid()
      modifies `instances, `Contents, `Repr
      ensures Valid() && fresh(Repr - old(Repr)) && old(Repr) <= Repr
      ensures err == if instance.id == NO_NODE then Some(InstanceIdRequired)
                     else if instance.id in old(Contents) then Some(InstanceExists) else None
      ensures Contents == if err.Some? then old(Contents) else old(Contents)[instance.id := instance.View()]
    {
      if instance.id == NO_NODE { return Some(InstanceIdRequired); }
      if instance.id in instances { return Some(InstanceExists); }
      Keep(instance);
      return None;
    }

    method Get(id: Id) returns (instance: FlowInstance?, err: Option<EngineError>)
      requires Valid()
      ensures err == if id in Contents then None else Some(InstanceNotFound)
      ensures err.None? ==>
                && instance != null && instance.id == id && instance.View() == Contents[id] && instance.Valid()
                && fresh(instance) && fresh(instance.context) && fresh(instance.context.repr)
    {
      hide DataContext.Valid;
      if id !in instances { return null, Some(InstanceNotFound); }
      instance := instances[id].Clone();
      err := None;
    }

    method Save(instance: FlowInstance) returns (err: Option<EngineError>)
      requires Valid() && instance.Valid()
      modifies `instances, `Contents, `Repr
      ensures Valid() && fresh(Repr - old(Repr)) && old(Repr) <= Repr
      ensures err == if instance.id == NO_NODE then Some(InstanceIdRequired) else None
      ensures Contents == if err.Some? then old(Contents) else old(Contents)[instance.id := instance.View()]
    {
      if instance.id == NO_NODE { return Some(InstanceIdRequired); }
      Keep(instance);
      return None;
    }
  }

  /** What a call of `RunUntilBlocked` returns for a stored instance. */
  function RunOf(spec: FlowSpec, p: Plugins, stored: Instance, rounds: nat): RunResult {
    if Terminal(stored.status) then RunResult(stored, Blocked)
    else Run(spec, p, stored.(status := InstanceRunning), rounds)
  }

  class StatefulExecutor {
    const plugins: Plugins
    const store: MemoryInstanceStore

    constructor (plugins: Plugins, store: MemoryInstanceStore)
      ensures this.plugins == plugins && this.store == store
    {
      this.plugins, this.store := plugins, store;
    }

    /** Both executors validate a spec the same way. */
    method Validate(spec: FlowSpec) returns (err: Option<EngineError>)
      ensures err == if ValidSpec(spec, plugins) then None else Some(SpecInvalid)
    {
      var valid := FlowExecutor.Validate(spec, plugins);
      return if valid then None else Some(SpecInvalid);
    }

    method BlockOnWaitNode(instance: FlowInstance, i: nat, node: NodeSpec) returns (err: Option<EngineError>)
      requires i < |instance.tokens| && instance.Valid()
      modifies instance`tokens, instance`nodeStates
      ensures Step(instance.View(), err) == BlockOnWait(plugins, old(instance.View()), i, node)
    {
      hide DataContext.Valid;
      var data := instance.context.Take();
      var condition := plugins.waitConfig(node, data);
      if condition.None? {
        instance.FailNode(i, node.id);
        return Some(NodeExecutionFailed);
      }
      instance.tokens :=
        instance.tokens[i := instance.tokens[i].(status := TokenWaiting, waitingFor := [condition.value])];
      instance.MarkNode(node.id, NodeWaiting, 0);
      return None;
    }

    method RunNodeExecutor(spec: FlowSpec, instance: FlowInstance, i: nat, node: NodeSpec, input: JsonObject)
      returns (err: Option<EngineError>)
      requires i < |instance.tokens| && instance.Valid()
      modifies instance`tokens, instance`nodeStates, instance.context, instance.context.repr
      ensures instance.Valid() && fresh(instance.context.repr - old(instance.context.repr))
      ensures Step(instance.View(), err) == RunExecutor(spec, plugins, old(instance.View()), i, node, input)
    {
      hide DataContext.Valid;
      var data := instance.context.Take();
      var result := plugins.execute(instance.version, node, input, data);
      instance.context.Rewrite(result.data);
      if result.Threw? {
        instance.FailNode(i, node.id);
        return Some(NodeExecutionFailed);
      }
      var (written, ok) := plugins.applyWrites(node, result.output, result.data);
      instance.context.Rewrite(written);
      if !ok {
        instance.FailNode(i, node.id);
        return Some(NodeExecutionFailed);
      }
      var next := if result.next.None? then Outgoing(spec.edges, node.id) else result.next.value;
      instance.CompleteNode(i, node.id, next);
      return None;
    }

    method ExecuteReadyToken(spec: FlowSpec, instance: FlowInstance, i: nat) returns (err: Option<EngineError>)
      requires i < |instance.tokens| && instance.Valid()
      modifies instance`tokens, instance`nodeStates, instance`joins, instance.context, instance.context.repr
      ensures instance.Valid() && fresh(instance.context.repr - old(instance.context.repr))
      ensures Step(instance.View(), err) == ExecuteReady(spec, plugins, old(instance.View()), i)
    {
      hide DataContext.Valid, BlockOnWait, ExecuteJoin, RunExecutor;
      var found := FindNode(spec.nodes, instance.tokens[i].node);
      if found.None? { return Some(NodeNotFound); }
      var node := found.value;
      if !plugins.registered(node.kind) { return Some(TypeNotRegistered); }
      instance.SetTokenStatus(i, TokenRunning);
      var data := instance.context.Take();
      var input := plugins.buildInput(node, data);
      if input.None? { return Some(InputUnresolved); }
      instance.MarkNode(node.id, NodeRunning, 1);
      if node.kind == NODE_TYPE_WAIT {
        err := BlockOnWaitNode(instance, i, node);
      } else if node.kind == NODE_TYPE_JOIN {
        instance.ExecuteJoinNode(spec, i, node.id);
        err := None;
      } else {
        err := RunNodeExecutor(spec, instance, i, node, input.value);
      }
    }

    /** The caller holds an instance that shares nothing with the store. */
    ghost predicate Holds(instance: FlowInstance)
      reads store, store.Repr, instance, instance.context, instance.context.repr
    {
      && store.Valid() && instance.id != NO_NODE && instance.Valid()
      && Footprint(instance) !! store.Repr && store !in Footprint(instance)
    }

    /** One turn of the loop of `RunUntilBlocked`: execute a ready token and save. */
    method RunRound(spec: FlowSpec, instance: FlowInstance, index: nat) returns (err: Option<EngineError>)
      requires Holds(instance) && index < |instance.tokens|
      modifies instance, instance.context, instance.context.repr, store`instances, store`Contents, store`Repr
      ensures store.Valid() && Holds(instance) && fresh(store.Repr - old(store.Repr)) && old(store.Repr) <= store.Repr
      ensures instance.id == old(instance.id) && fresh(instance.context.repr - old(instance.context.repr))
      ensures var step := ExecuteReady(spec, plugins, old(instance.View()), index);
              && err == step.err
              && instance.View() == (if err.Some? then Failed(step.inst, err.value)
                                     else step.inst.(version := step.inst.version + 1))
      ensures store.Contents == old(store.Contents)[instance.id := instance.View()]
    {
      hide ExecuteReady, Failed, MemoryInstanceStore.Valid, DataContext.Valid, FlowInstance.View;
      instance.ViewShowsFields();
      err := ExecuteReadyToken(spec, instance, index);
      if err.Some? {
        instance.MarkFailed(err.value);
      } else {
        instance.NextVersion();
      }
      var _ := store.Save(instance);
    }

    /** The loop of `RunUntilBlocked`, watched for some rounds. */
    method RunRounds(spec: FlowSpec, instance: FlowInstance, rounds: nat) returns (halt: Halt)
      requires store.Valid() && Holds(instance)
      modifies instance, instance.context, instance.context.repr, store`instances, store`Contents, store`Repr
      ensures store.Valid() && Holds(instance) && fresh(store.Repr - old(store.Repr)) && old(store.Repr) <= store.Repr
      ensures instance.id == old(instance.id) && fresh(instance.context.repr - old(instance.context.repr))
      ensures RunResult(instance.View(), halt) == Run(spec, plugins, old(instance.View()), rounds)
      ensures store.Contents == if halt.StillReady? && rounds == 0 then old(store.Contents)
                                else old(store.Contents)[instance.id := instance.View()]
    {
      hide Run, Holds, FirstReady, Finalize, Failed, ExecuteReady, FlowInstance.View, MemoryInstanceStore.Valid;
      ghost var start, contents := instance.View(), store.Contents;
      var left: nat := rounds;
      while true
        invariant store.Valid() && Holds(instance) && fresh(store.Repr - old(store.Repr)) && old(store.Repr) <= store.Repr
        invariant instance.id == old(instance.id) && fresh(instance.context.repr - old(instance.context.repr))
        invariant Run(spec, plugins, start, rounds) == Run(spec, plugins, instance.View(), left)
        invariant left <= rounds
        invariant store.Contents == if left == rounds then contents else contents[instance.id := instance.View()]
        decreases left
      {
        instance.ViewShowsFields();
        RunByRounds(spec, plugins, instance.View(), left);
        var index := FirstReady(instance.tokens, 0);
        if index == |instance.tokens| {
          Finish(instance);
          return Blocked;
        }
        if left == 0 { return StillReady; }
        var err := RunRound(spec, instance, index);
        if err.Some? { return Errored(err.value); }
        left := left - 1;
      }
    }

    method Finish(instance: FlowInstance)
      requires Holds(instance)
      modifies instance`status, store`instances, store`Contents, store`Repr
      ensures store.Valid() && Holds(instance) && fresh(store.Repr - old(store.Repr)) && old(store.Repr) <= store.Repr
      ensures instance.View() == Finalize(old(instance.View()))
      ensures store.Contents == old(store.Contents)[instance.id := instance.View()]
    {
      instance.FinalizeBlocked();
      var _ := store.Save(instance);
    }

    /**
     `RunUntilBlocked`, watched for some rounds: what is stored afterwards, and what the
     caller gets, is what the run function says; a terminal instance is left alone.
     */
    method RunUntilBlocked(spec: FlowSpec, id: Id, rounds: nat)
      returns (instance: FlowInstance?, halt: Halt)
      requires store.Valid()
      modifies store`instances, store`Contents, store`Repr
      ensures store.Valid() && fresh(store.Repr - old(store.Repr)) && old(store.Repr) <= store.Repr
      ensures !ValidSpec(spec, plugins) ==> halt == Errored(SpecInvalid) && store.Contents == old(store.Contents)
      ensures ValidSpec(spec, plugins) && id !in old(store.Contents) ==>
                halt == Errored(InstanceNotFound) && store.Contents == old(store.Contents)
      ensures ValidSpec(spec, plugins) && id in old(store.Contents) ==>
                && store.Contents == old(store.Contents)[id := AfterRun(spec, plugins, old(store.Contents[id]), rounds)]
                && instance != null
                && RunResult(instance.View(), halt) == RunOf(spec, plugins, old(store.Contents[id]), rounds)
      ensures ValidSpec(spec, plugins) && id in old(store.Contents) ==>
                var stored := old(store.Contents[id]);
                && instance != null
                && (if stored.status in {InstanceCompleted, InstanceFailed, InstanceCancelled}
                    then store.Contents == old(store.Contents) && instance.View() == stored && halt == Blocked
                    else RunResult(instance.View(), halt)
                         == Run(spec, plugins, stored.(status := InstanceRunning), rounds))
    {
      hide Run, Holds, AfterRun, Terminal, FirstReady, ValidSpec, MemoryInstanceStore.Valid, DataContext.Valid, FlowInstance.View;
      var invalid := Validate(spec);
      if invalid.Some? { return null, Errored(SpecInvalid); }
      var err;
      instance, err := store.Get(id);
      if err.Some? { return null, Errored(InstanceNotFound); }
      ghost var stored := store.Contents[id];
      assert store.Contents == store.Contents[id := stored];
      AfterRunByStatus(spec, plugins, stored, rounds);
      instance.ViewShowsFields();
      if Terminal(instance.status) { return instance, Blocked; }
      instance.MarkRunning();
      GotIsHeld(instance);
      halt := RunRounds(spec, instance, rounds);
    }

    /**
     The loop of `Resume`: wake the waiting tokens that the event matches. When every woken node
     accepts its writes, the tokens woken are exactly those with a condition for the event.
     */
    method WakeWaitingTokens(spec: FlowSpec, instance: FlowInstance, event: ExternalEvent)
      returns (matched: bool, err: Option<EngineError>)
      requires instance.Valid()
      modifies instance`tokens, instance`nodeStates, instance.context, instance.context.repr
      ensures instance.Valid() && fresh(instance.context.repr - old(instance.context.repr))
      ensures Wake(instance.View(), matched, err)
           == WakeTokens(spec, plugins, old(instance.View()), event, 0, |old(instance.tokens)|)
      ensures err.None? <==> EventWrites(spec, plugins, old(instance.tokens), event, old(instance.context.data)).1
      ensures err.None? ==>
                && (matched <==> AnyWaitsFor(old(instance.tokens), event))
                && TokensWoken(spec, old(instance.tokens), instance.tokens, event)
                && NodesWoken(old(instance.tokens), old(instance.nodeStates), instance.nodeStates, event)
    {
      hide DataContext.Valid, TokensWoken, NodesWoken, AnyWaitsFor, EventWrites, EventOutput, FindNode, Outgoing, Matches;
      ghost var start := instance.View();
      LoopWakesExactly(spec, plugins, start, event);
      var end := |instance.tokens|;
      matched, err := false, None;
      for i := 0 to end
        invariant end <= |instance.tokens| && end == |start.tokens|
        invariant instance.Valid() && fresh(instance.context.repr - old(instance.context.repr))
        invariant Continues(spec, event, start, instance.View(), matched, i, end)
      {
        var token := instance.tokens[i];
        if token.status == TokenWaiting && Matches(token.waitingFor, event) {
          var found := FindNode(spec.nodes, token.node);
          if found.None? { return matched, Some(NodeNotFound); }
          var node := found.value;
          var data := instance.context.Take();
          var (written, ok) := plugins.applyWrites(node, EventOutput(event), data);
          instance.context.Rewrite(written);
          if !ok { return matched, Some(NodeExecutionFailed); }
          instance.CompleteNode(i, node.id, Outgoing(spec.edges, node.id));
          matched := true;
        }
      }
    }

    /** What is left of the loop leads where the whole loop leads. */
    ghost predicate Continues(spec: FlowSpec, event: ExternalEvent, start: Instance, now: Instance,
                              matched: bool, i: nat, end: nat)
      requires end <= |start.tokens| && end <= |now.tokens|
    {
      var whole := WakeTokens(spec, plugins, start, event, 0, end);
      var rest := WakeTokens(spec, plugins, now, event, i, end);
      whole.inst == rest.inst && whole.err == rest.err && whole.matched == (matched || rest.matched)
    }

    /**
     `Resume`: a resume that errors before its first save leaves the store as it was. Otherwise
     exactly the tokens with a condition for the event are woken, whatever the run does then.
     */
    method Resume(spec: FlowSpec, id: Id, event: ExternalEvent, rounds: nat)
      returns (instance: FlowInstance?, halt: Halt)
      requires store.Valid()
      modifies store`instances, store`Contents, store`Repr
      ensures store.Valid()
      ensures id !in old(store.Contents) ==>
                halt == Errored(InstanceNotFound) && store.Contents == old(store.Contents)
      ensures id in old(store.Contents) ==>
                var awake := Awaken(spec, plugins, old(store.Contents[id]), event);
                && (awake.err.Some? ==> halt == Errored(awake.err.value) && store.Contents == old(store.Contents))
                && (awake.err.None? && !ValidSpec(spec, plugins) ==>
                      halt == Errored(SpecInvalid) && store.Contents == old(store.Contents)[id := awake.inst])
                && (awake.err.None? && ValidSpec(spec, plugins) ==>
                      && store.Contents == old(store.Contents)[
                           id := AfterCall(spec, plugins, old(store.Contents[id]), CallResume(event, rounds))]
                      && instance != null && RunResult(instance.View(), halt) == RunOf(spec, plugins, awake.inst, rounds))
      ensures id in old(store.Contents) ==>
                var stored := old(store.Contents[id]);
                if stored.status in {InstanceCompleted, InstanceFailed, InstanceCancelled}
                then halt == Errored(AlreadyTerminal) && store.Contents == old(store.Contents)
                else
                  && (halt == Errored(EventUnmatched) <==> !AnyWaitsFor(stored.tokens, event))
                  && (if AnyWaitsFor(stored.tokens, event)
                         && EventWrites(spec, plugins, stored.tokens, event, stored.data).1
                      then id in store.Contents && Resumed(spec, stored.tokens, store.Contents[id].tokens, event)
                      else store.Contents == old(store.Contents))
    {
      hide Holds, AfterRun, AfterCall, Awaken, WakeTokens, Run, RunOf, Terminal, ValidSpec, MemoryInstanceStore.Valid,
        DataContext.Valid, FlowInstance.View, Resumed, AnyWaitsFor, EventWrites, TokensWoken, NodesWoken;
      var err;
      instance, err := store.Get(id);
      if err.Some? { return null, Errored(InstanceNotFound); }
      ghost var stored := store.Contents[id];
      instance.ViewShowsFields();
      AwakenByWaking(spec, plugins, stored, event, rounds);
      ResumeByInputs(spec, plugins, stored, event, rounds);
      if Terminal(instance.status) { return instance, Errored(AlreadyTerminal); }
      var matched;
      matched, err := WakeWaitingTokens(spec, instance, event);
      if err.Some? { return instance, Errored(err.value); }
      if !matched { return instance, Errored(EventUnmatched); }
      instance.MarkRunning();
      instance.NextVersion();
      ghost var awake := instance.View();
      GotIsHeld(instance);
      SaveHeld(instance);
      instance, halt := RunUntilBlocked(spec, id, rounds);
      assert old(store.Contents)[id := awake][id := AfterRun(spec, plugins, awake, rounds)]
          == old(store.Contents)[id := AfterRun(spec, plugins, awake, rounds)];
    }

    method SaveHeld(instance: FlowInstance)
      requires Holds(instance)
      modifies store`instances, store`Contents, store`Repr
      ensures store.Valid() && store.Contents == old(store.Contents)[instance.id := instance.View()]
    {
      var _ := store.Save(instance);
    }

    /** `Start`: a new instance with one token per source node, then a first run. */
    method Start(spec: FlowSpec, id: Id, input: JsonObject, rounds: nat)
      returns (instance: FlowInstance?, halt: Halt)
      requires store.Valid()
      modifies store`instances, store`Contents, store`Repr
      ensures store.Valid()
      ensures var err := if !ValidSpec(spec, plugins) then Some(SpecInvalid)
                         else if Sources(spec.nodes, spec.edges) == [] then Some(NoSourceNode)
                         else if id == NO_NODE then Some(InstanceIdRequired)
                         else if id in old(store.Contents) then Some(InstanceExists) else None;
              && (err.Some? ==> halt == Errored(err.value) && store.Contents == old(store.Contents))
              && (err.None? ==>
                    && store.Contents == old(store.Contents)[
                         id := AfterCall(spec, plugins, Started(spec, id, input), CallRun(rounds))]
                    && instance != null
                    && RunResult(instance.View(), halt) == RunOf(spec, plugins, Started(spec, id, input), rounds))
    {
      hide *;
      var err := Validate(spec);
      if err.Some? { return null, Errored(err.value); }
      if Sources(spec.nodes, spec.edges) == [] { return null, Errored(NoSourceNode); }
      StartedHasId(spec, id, input);
      var context := BuildContext(Started(spec, id, input).data);
      var started_ := new FlowInstance(Started(spec, id, input), context);
      started_.ViewShowsFields();
      err := store.Create(started_);
      if err.Some? { return null, Errored(err.value); }
      instance, halt := RunUntilBlocked(spec, id, rounds);
      CallRunIsRun(spec, plugins, Started(spec, id, input), rounds);
      ghost var started := Started(spec, id, input);
      assert old(store.Contents)[id := started][id := AfterRun(spec, plugins, started, rounds)]
          == old(store.Contents)[id := AfterRun(spec, plugins, started, rounds)];
    }

    lemma GotIsHeld(instance: FlowInstance)
      requires store.Valid() && Footprint(instance) !! store.Repr && store !in Footprint(instance) && instance.Valid()
      requires instance.id in store.Contents
      ensures Holds(instance)
    {
    }
  }

  lemma StartedHasId(spec: FlowSpec, id: Id, input: JsonObject)
    ensures Started(spec, id, input).id == id
  {
  }

  lemma CallRunIsRun(spec: FlowSpec, p: Plugins, stored: Instance, rounds: nat)
    ensures AfterCall(spec, p, stored, CallRun(rounds)) == AfterRun(spec, p, stored, rounds)
  {
  }

  lemma AwakenByWaking(spec: FlowSpec, p: Plugins, stored: Instance, event: ExternalEvent, rounds: nat)
    ensures Terminal(stored.status) ==> Awaken(spec, p, stored, event).err == Some(AlreadyTerminal)
    ensures !Terminal(stored.status) ==>
              var wake := WakeTokens(spec, p, stored, event, 0, |stored.tokens|);
              Awaken(spec, p, stored, event)
              == if wake.err.Some? then Step(wake.inst, wake.err)
                 else if !wake.matched then Step(wake.inst, Some(EventUnmatched))
                 else Step(wake.inst.(status := InstanceRunning, version := wake.inst.version + 1), None)
    ensures Awaken(spec, p, stored, event).err.None? ==>
              AfterCall(spec, p, stored, CallResume(event, rounds))
              == AfterRun(spec, p, Awaken(spec, p, stored, event).inst, rounds)
  {
  }

  lemma ResumeByInputs(spec: FlowSpec, p: Plugins, stored: Instance, event: ExternalEvent, rounds: nat)
    ensures Terminal(stored.status) <==> stored.status in {InstanceCompleted, InstanceFailed, InstanceCancelled}
    ensures var awake := Awaken(spec, p, stored, event);
            !Terminal(stored.status) ==>
              && awake.err != Some(AlreadyTerminal)
              && (awake.err == Some(EventUnmatched) <==> !AnyWaitsFor(stored.tokens, event))
              && (awake.err.None? <==> AnyWaitsFor(stored.tokens, event)
                                       && EventWrites(spec, p, stored.tokens, event, stored.data).1)
              && (awake.err.None? ==>
                    && Resumed(spec, stored.tokens, awake.inst.tokens, event)
                    && Resumed(spec, stored.tokens, AfterRun(spec, p, awake.inst, rounds).tokens, event)
                    && RunErrs(RunOf(spec, p, awake.inst, rounds).halt))
  {
    hide Awaken, Run, Resumed, AnyWaitsFor, EventWrites, TokensWoken, NodesWoken;
    if !Terminal(stored.status) {
      WakesExactly(spec, p, stored, event);
      ResumeTold(spec, p, stored, event, rounds);
    }
  }

  lemma AfterRunByStatus(spec: FlowSpec, p: Plugins, stored: Instance, rounds: nat)
    ensures Terminal(stored.status) <==> stored.status in {InstanceCompleted, InstanceFailed, InstanceCancelled}
    ensures Terminal(stored.status) ==> AfterRun(spec, p, stored, rounds) == stored
    ensures !Terminal(stored.status) ==>
              var r := Run(spec, p, stored.(status := InstanceRunning), rounds);
              AfterRun(spec, p, stored, rounds) == if r.halt.StillReady? && rounds == 0 then stored else r.inst
  {
  }

  // ---------- isolation ----------

  /** Some map nested in another one: the last that following the keys leads to. */
  method NestedMap(root: GoMap, keys: seq<string>, ghost v: Value, ghost repr: set<object>) returns (m: GoMap)
    requires Denotes(MapRef(root), v, repr)
    ensures m in repr
  {
    m := root;
    ghost var now := v;
    for i := 0 to |keys|
      invariant Denotes(MapRef(m), now, repr)
    {
      if !(keys[i] in m.entries && m.entries[keys[i]].MapRef?) { return; }
      now := now.fields[keys[i]];
      m := m.entries[keys[i]].m;
    }
  }

  /**
   A caller may write into whatever Get returned, however deeply nested: the store still
   holds, and hands out, what it held before.
   */
  method StoredCopyIsIsolated(store: MemoryInstanceStore, id: Id, keys: seq<string>, entries: map<string, Any>)
    returns (again: FlowInstance)
    requires store.Valid() && id in store.Contents
    ensures store.Valid() && store.Contents == old(store.Contents) && again.View() == old(store.Contents[id])
  {
    hide MemoryInstanceStore.Valid;
    var mine, _ := store.Get(id);
    var nested := NestedMap(mine.context.variables, keys, Obj(mine.context.data.variables), mine.context.repr);
    nested.entries := entries;
    var found, _ := store.Get(id);
    again := found;
  }

  /** What is saved does not follow later writes into the caller's own instance, however deeply nested. */
  method SavedCopyIsIsolated(executor: StatefulExecutor, mine: FlowInstance, keys: seq<string>,
                             entries: map<string, Any>)
    requires executor.Holds(mine)
    modifies mine.context.repr, executor.store`instances, executor.store`Contents, executor.store`Repr
    ensures executor.store.Valid()
    ensures executor.store.Contents == old(executor.store.Contents)[mine.id := old(mine.View())]
  {
    var nested := NestedMap(mine.context.variables, keys, Obj(mine.context.data.variables), mine.context.repr);
    var _ := executor.store.Save(mine);
    nested.entries := entries;
  }
}
