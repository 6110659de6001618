/**
 The token engine on values: a flow instance is an append-only list of tokens with join
 states, and every engine operation is a function on instances. Node executors, input
 mappings, context writes and wait configuration are parameters (`Plugins`).
 */
module TokenModel {
  import opened Text
  import opened Graphs
  import opened JsonValues

  const NODE_TYPE_WAIT := "control.wait"
  const NODE_TYPE_JOIN := "control.join"

  /** The source of a token that no node emitted. */
  const NO_NODE := Id("")

  datatype Data = Data(flowInput: Object, flowOutput: Object, variables: Object, nodeContext: Object)

  datatype NodeSpec = NodeSpec(id: Id, kind: string)

  datatype FlowSpec = FlowSpec(id: string, nodes: seq<NodeSpec>, edges: seq<Edge>)

  datatype WaitCondition = WaitCondition(kind: string, key: string)

  datatype ExternalEvent = ExternalEvent(kind: string, key: string, payload: Object)

  datatype TokenStatus = TokenReady | TokenRunning | TokenWaiting | TokenConsumed

  datatype Token = Token(node: Id, source: Id, status: TokenStatus, waitingFor: seq<WaitCondition>)

  datatype NodeStatus = NodeRunning | NodeWaiting | NodeCompleted | NodeFailed

  datatype NodeState = NodeState(status: NodeStatus, attempts: nat)

  datatype JoinState = JoinState(expected: seq<Id>, arrived: set<Id>, completed: bool)

  datatype InstanceStatus =
    | InstanceCreated | InstanceRunning | InstanceWaiting
    | InstanceCompleted | InstanceFailed | InstanceCancelled

  datatype EngineError =
    | SpecInvalid | NoSourceNode
    | InstanceNotFound | InstanceExists | InstanceIdRequired
    | NodeNotFound | TypeNotRegistered | InputUnresolved | NodeExecutionFailed
    | AlreadyTerminal | EventUnmatched

  datatype Instance = Instance(
    id: Id,
    status: InstanceStatus,
    data: Data,
    tokens: seq<Token>,
    nodeStates: map<Id, NodeState>,
    joins: map<Id, JoinState>,
    lastError: Option<EngineError>,
    version: nat)

  datatype Executed =
    | Threw(data: Data)
    | Returned(output: Object, next: Option<seq<Id>>, data: Data)

  /**
   Everything the engine calls out to. `execute` also gets the instance version, which
   grows with every round, so an executor may behave differently each time it is called.
   */
  datatype Plugins = Plugins(
    registered: string -> bool,
    validates: NodeSpec -> bool,
    buildInput: (NodeSpec, Data) -> Option<Object>,
    execute: (nat, NodeSpec, Object, Data) -> Executed,
    applyWrites: (NodeSpec, Object, Data) -> (Data, bool),
    waitConfig: (NodeSpec, Data) -> Option<WaitCondition>)

  // ---------- the spec ----------

  /** `indexNodes`: a later node replaces an earlier one of the same id. */
  function FindNode(nodes: seq<NodeSpec>, n: Id): Option<NodeSpec> {
    if nodes == [] then None
    else if nodes[|nodes| - 1].id == n then Some(nodes[|nodes| - 1])
    else FindNode(nodes[..|nodes| - 1], n)
  }

  /** `sourceNodes`, in node order. */
  function Sources(nodes: seq<NodeSpec>, edges: seq<Edge>): seq<Id> {
    if nodes == [] then []
    else
      var front, n := Sources(nodes[..|nodes| - 1], edges), nodes[|nodes| - 1].id;
      if Incoming(edges, n) == [] then front + [n] else front
  }

  ghost predicate ValidSpec(spec: FlowSpec, p: Plugins) {
    && spec.id != ""
    && (forall i :: 0 <= i < |spec.nodes| ==>
          spec.nodes[i].id != NO_NODE && p.registered(spec.nodes[i].kind) && p.validates(spec.nodes[i]))
    && (forall i, j :: 0 <= i < j < |spec.nodes| ==> spec.nodes[i].id != spec.nodes[j].id)
    && (forall e :: e in spec.edges ==> HasNode(spec, e.src) && HasNode(spec, e.dst))
  }

  ghost predicate HasNode(spec: FlowSpec, n: Id) {
    exists i :: 0 <= i < |spec.nodes| && spec.nodes[i].id == n
  }

  predicate IsWait(spec: FlowSpec, n: Id) {
    var node := FindNode(spec.nodes, n);
    node.Some? && node.value.kind == NODE_TYPE_WAIT
  }

  /** A join that waits for several predecessors. */
  predicate Gathers(spec: FlowSpec, n: Id) {
    var node := FindNode(spec.nodes, n);
    node.Some? && node.value.kind == NODE_TYPE_JOIN && |Incoming(spec.edges, n)| > 1
  }

  // ---------- instance updates ----------

  function SetStatus(inst: Instance, i: nat, status: TokenStatus): Instance
    requires i < |inst.tokens|
  {
    inst.(tokens := inst.tokens[i := inst.tokens[i].(status := status)])
  }

  function Mark(inst: Instance, n: Id, status: NodeStatus, extra: nat): Instance {
    var attempts := if n in inst.nodeStates then inst.nodeStates[n].attempts else 0;
    inst.(nodeStates := inst.nodeStates[n := NodeState(status, attempts + extra)])
  }

  function NewToken(node: Id, source: Id): Token {
    Token(node, source, TokenReady, [])
  }

  function NewTokens(source: Id, ids: seq<Id>): (ts: seq<Token>)
    ensures |ts| == |ids|
    ensures forall i :: 0 <= i < |ids| ==> ts[i] == NewToken(ids[i], source)
  {
    if ids == [] then [] else NewTokens(source, ids[..|ids| - 1]) + [NewToken(ids[|ids| - 1], source)]
  }

  /** `appendNextTokens` */
  function Emit(inst: Instance, source: Id, ids: seq<Id>): Instance {
    inst.(tokens := inst.tokens + NewTokens(source, ids))
  }

  /** `completeNode` */
  function Complete(inst: Instance, i: nat, n: Id, next: seq<Id>): Instance
    requires i < |inst.tokens|
  {
    Emit(Mark(SetStatus(inst, i, TokenConsumed), n, NodeCompleted, 0), n, next)
  }

  /** `failNode` */
  function Fail(inst: Instance, i: nat, n: Id): Instance
    requires i < |inst.tokens|
  {
    Mark(SetStatus(inst, i, TokenConsumed), n, NodeFailed, 0)
  }

  // ---------- one round ----------

  predicate ArrivedAll(join: JoinState) {
    forall n :: n in join.expected ==> n in join.arrived
  }

  function JoinOf(inst: Instance, n: Id, incoming: seq<Id>): JoinState {
    if n in inst.joins then inst.joins[n] else JoinState(incoming, {}, false)
  }

  function NoteArrival(join: JoinState, source: Id): JoinState {
    if source != NO_NODE then join.(arrived := join.arrived + {source}) else join
  }

  /** `executeJoinNode` */
  function ExecuteJoin(spec: FlowSpec, inst: Instance, i: nat, n: Id): Instance
    requires i < |inst.tokens|
  {
    var incoming := Incoming(spec.edges, n);
    if |incoming| <= 1 then Complete(inst, i, n, Outgoing(spec.edges, n))
    else
      var join := JoinOf(inst, n, incoming);
      if join.completed then SetStatus(inst, i, TokenConsumed).(joins := inst.joins[n := join])
      else
        var arrived := NoteArrival(join, inst.tokens[i].source);
        var consumed := SetStatus(inst, i, TokenConsumed).(joins := inst.joins[n := arrived]);
        if !ArrivedAll(arrived) then Mark(consumed, n, NodeWaiting, 0)
        else
          var fired := consumed.(joins := consumed.joins[n := arrived.(completed := true)]);
          Emit(Mark(fired, n, NodeCompleted, 0), n, Outgoing(spec.edges, n))
  }

  datatype Step = Step(inst: Instance, err: Option<EngineError>)

  /** `blockOnWaitNode` */
  function BlockOnWait(p: Plugins, inst: Instance, i: nat, node: NodeSpec): Step
    requires i < |inst.tokens|
  {
    match p.waitConfig(node, inst.data)
    case None => Step(Fail(inst, i, node.id), Some(NodeExecutionFailed))
    case Some(condition) =>
      var token := inst.tokens[i].(status := TokenWaiting, waitingFor := [condition]);
      Step(Mark(inst.(tokens := inst.tokens[i := token]), node.id, NodeWaiting, 0), None)
  }

  function RunExecutor(spec: FlowSpec, p: Plugins, inst: Instance, i: nat, node: NodeSpec, input: Object): Step
    requires i < |inst.tokens|
  {
    match p.execute(inst.version, node, input, inst.data)
    case Threw(data) => Step(Fail(inst.(data := data), i, node.id), Some(NodeExecutionFailed))
    case Returned(output, next, data) =>
      var (written, ok) := p.applyWrites(node, output, data);
      var after := inst.(data := written);
      if !ok then Step(Fail(after, i, node.id), Some(NodeExecutionFailed))
      else
        var ids := if next.None? then Outgoing(spec.edges, node.id) else next.value;
        Step(Complete(after, i, node.id, ids), None)
  }

  /** `executeReadyToken` */
  function ExecuteReady(spec: FlowSpec, p: Plugins, inst: Instance, i: nat): Step
    requires i < |inst.tokens|
  {
    match FindNode(spec.nodes, inst.tokens[i].node)
    case None => Step(inst, Some(NodeNotFound))
    case Some(node) =>
      if !p.registered(node.kind) then Step(inst, Some(TypeNotRegistered))
      else
        var running := SetStatus(inst, i, TokenRunning);
        match p.buildInput(node, inst.data)
        case None => Step(running, Some(InputUnresolved))
        case Some(input) =>
          var started := Mark(running, node.id, NodeRunning, 1);
          if node.kind == NODE_TYPE_WAIT then BlockOnWait(p, started, i, node)
          else if node.kind == NODE_TYPE_JOIN then Step(ExecuteJoin(spec, started, i, node.id), None)
          else RunExecutor(spec, p, started, i, node, input)
  }

  // ---------- whole calls ----------

  function FirstReady(tokens: seq<Token>, from: nat): (i: nat)
    requires from <= |tokens|
    ensures from <= i <= |tokens|
    ensures i < |tokens| ==> tokens[i].status == TokenReady
    ensures forall k :: from <= k < i ==> tokens[k].status != TokenReady
    decreases |tokens| - from
  {
    if from == |tokens| || tokens[from].status == TokenReady then from else FirstReady(tokens, from + 1)
  }

  predicate HasWaiting(tokens: seq<Token>) {
    exists i :: 0 <= i < |tokens| && tokens[i].status == TokenWaiting
  }

  /** `finalizeBlockedInstance` */
  function Finalize(inst: Instance): Instance {
    inst.(status := if HasWaiting(inst.tokens) then InstanceWaiting else InstanceCompleted)
  }

  predicate Terminal(status: InstanceStatus) {
    status == InstanceCompleted || status == InstanceFailed || status == InstanceCancelled
  }

  /** How a run, observed for a number of rounds, ends. */
  datatype Halt = Blocked | Errored(err: EngineError) | StillReady

  datatype RunResult = RunResult(inst: Instance, halt: Halt)

  function Failed(inst: Instance, err: EngineError): Instance {
    inst.(status := InstanceFailed, lastError := Some(err))
  }

  /** The loop of `RunUntilBlocked`, for at most `rounds` rounds. */
  function Run(spec: FlowSpec, p: Plugins, inst: Instance, rounds: nat): RunResult
    decreases rounds
  {
    var i := FirstReady(inst.tokens, 0);
    if i == |inst.tokens| then RunResult(Finalize(inst), Blocked)
    else if rounds == 0 then RunResult(inst, StillReady)
    else
      var step := ExecuteReady(spec, p, inst, i);
      match step.err
      case Some(err) => RunResult(Failed(step.inst, err), Errored(err))
      case None => Run(spec, p, step.inst.(version := step.inst.version + 1), rounds - 1)
  }

  predicate Matches(conditions: seq<WaitCondition>, event: ExternalEvent) {
    exists i :: 0 <= i < |conditions|
      && (conditions[i].kind == "" || conditions[i].kind == event.kind)
      && (conditions[i].key == "" || conditions[i].key == event.key)
  }

  function EventOutput(event: ExternalEvent): Object {
    map["event_type" := Str(event.kind), "event_key" := Str(event.key), "payload" := Obj(event.payload)]
  }

  datatype Wake = Wake(inst: Instance, matched: bool, err: Option<EngineError>)

  /** The loop of `Resume` over the tokens that were there when the event arrived. */
  function WakeTokens(spec: FlowSpec, p: Plugins, inst: Instance, event: ExternalEvent, i: nat, end: nat): Wake
    requires end <= |inst.tokens|
    decreases end - i
  {
    if i >= end then Wake(inst, false, None)
    else
      var token := inst.tokens[i];
      if token.status != TokenWaiting || !Matches(token.waitingFor, event) then
        WakeTokens(spec, p, inst, event, i + 1, end)
      else
        match FindNode(spec.nodes, token.node)
        case None => Wake(inst, false, Some(NodeNotFound))
        case Some(node) =>
          var (written, ok) := p.applyWrites(node, EventOutput(event), inst.data);
          var after := inst.(data := written);
          if !ok then Wake(after, false, Some(NodeExecutionFailed))
          else
            var rest := WakeTokens(spec, p, Complete(after, i, node.id, Outgoing(spec.edges, node.id)), event, i + 1, end);
            rest.(matched := true)
  }

  /** `Resume` up to its save: the instance to save, or why nothing is saved. */
  function Awaken(spec: FlowSpec, p: Plugins, inst: Instance, event: ExternalEvent): Step {
    if Terminal(inst.status) then Step(inst, Some(AlreadyTerminal))
    else
      var wake := WakeTokens(spec, p, inst, event, 0, |inst.tokens|);
      if wake.err.Some? then Step(wake.inst, wake.err)
      else if !wake.matched then Step(wake.inst, Some(EventUnmatched))
      else Step(wake.inst.(status := InstanceRunning, version := wake.inst.version + 1), None)
  }

  function Started(spec: FlowSpec, id: Id, input: Object): Instance {
    Instance(id, InstanceCreated, Data(input, map[], map[], map[]),
             NewTokens(NO_NODE, Sources(spec.nodes, spec.edges)), map[], map[], None, 0)
  }

  /** The stored instance after `RunUntilBlocked` has been watched for some rounds; every round saves. */
  function AfterRun(spec: FlowSpec, p: Plugins, stored: Instance, rounds: nat): Instance {
    if Terminal(stored.status) then stored
    else
      var r := Run(spec, p, stored.(status := InstanceRunning), rounds);
      if r.halt == StillReady && rounds == 0 then stored else r.inst
  }

  datatype Call = CallRun(rounds: nat) | CallResume(event: ExternalEvent, rounds: nat)

  /** The stored instance after one call on a valid spec; a resume that fails saves nothing. */
  function AfterCall(spec: FlowSpec, p: Plugins, stored: Instance, call: Call): Instance {
    match call
    case CallRun(rounds) => AfterRun(spec, p, stored, rounds)
    case CallResume(event, rounds) =>
      var awake := Awaken(spec, p, stored, event);
      if awake.err.Some? then stored else AfterRun(spec, p, awake.inst, rounds)
  }

  /** The life of an instance: any sequence of calls. */
  function Life(spec: FlowSpec, p: Plugins, stored: Instance, calls: seq<Call>): Instance {
    if calls == [] then stored
    else AfterCall(spec, p, Life(spec, p, stored, calls[..|calls| - 1]), calls[|calls| - 1])
  }
}
