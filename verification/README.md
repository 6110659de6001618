# Verified models of the flow, agent and context engines

This project models, in Dafny, the parts of the repository where control decides the outcome: two graph
schedulers, a persisted token engine, a recursive agent runner, the context budget of model conversations, and a
few smaller cores with hard claims. Each model has the branches, limits and error returns of the Go code; code
that updates state in place is a class with methods, proved equal to functions on values, and the theorems are
about those functions. Decoded JSON that the engines share by reference lies on the heap: maps nested in maps, which
writes update in place.

- **Token engine** (`TokenModel`, `TokenSteps`, `TokenSafety`, `TokenPotential`, `TokenTermination`, `TokenCycles`,
  `TokenEngine`, `DeepCopy`): a flow instance is an append-only list of tokens with join states. `TokenModel` gives every operation as a function on
  instances; `TokenEngine` is the executor and its store as classes. Node executors, input mappings, context writes
  and wait configuration are parameters, so every theorem holds for all of them.
- **Workflow scheduler** (`WorkflowGraph`, `DagScheduler`, `DagExecutor`, `DagRuns`, `CycleSearch`, `RunContext`,
  `WritePaths`, `RunContextObject`, `EdgeRouting`, `BatchRouting`, `JsonValues`, `Containers`, `PublishCheck`): batches of ready nodes
  whose results are merged into a path-addressed context. Goroutine completion and Go map iteration are arbitrary
  orders. `DagScheduler` says what the history of a run is; `DagExecutor` produces one.
- **Stateless engine** (`FlowExecutor`): the queue-driven run of a flow.
- **Agent graph** (`AgentGraph`, `SupervisorRunner`, `ActionPlan`): static acyclicity and depth checks against the
  guards of the recursion, and the resolution of planned actions.
- **Context engine** (`ContextAssembler`, `ToolLoop`): selection under a token budget, and the loop of model calls and
  tool calls around it.
- **Smaller cores**: `SpanForest` (trace trees through mutable pointers), `FunctionNames`, `Chunker`,
  `KnowledgeStore`, `Transforms`, `TransformPaths`; `Graphs`, `Sequences`, `Sorting` and `Text` hold what they
  share.

`dafny verify dfyconfig.toml` checks the whole project.

## Where the code does less than one might expect

Each of these is shown on an input, next to the exact condition under which the expectation holds.

- The scheduler awaits only predecessors that are already scheduled: `DagRuns.LatePredecessorIsNotAwaited` is a whole
  run in which a node overtakes its predecessor; the exact order is `DagScheduler.AwaitedExactlyWhenScheduled`.
- Edge conditions are evaluated in the middle of a merge, so a batch sibling can change routing:
  `EdgeRouting.SiblingWriteChangesRouting`; exactly which writes can: `EdgeRouting.UndisturbedExactly`; when none does,
  `BatchRouting.BatchOrderFree` makes the whole batch order free.
- A write path with an empty segment gets past the read-only check: `RunContexts.EmptySegmentReachesFlowInput`;
  exactly which paths do: `RunContexts.LeavesAloneExactly`.
- A cyclic flow with nothing to stop it runs forever: `TokenTermination.RunEndsExactlyWithoutCycles`. Gathering joins do
  stop it: `TokenCycles.GatheredCyclesEnd`.
- Two capabilities with names equal up to case are confused: `ActionPlan.CaseVariantsResolveDifferently`; exactly
  when: `ActionPlan.KeptTargetExactly`.
- `CompactMessages` slices out of range on lists of tool results; exactly when is part of its contract, and the tool
  loop never gets there. Truncating twice differs from once: `ContextAssembler.TruncateTwiceExactly`. A model reply in
  the user's role would expose the current turn: `ToolLoops.TurnIsMandatoryExactly`.
- Numbered function names may need one candidate more than expected, because the plain one can recur:
  `FunctionNames.ExtraCandidateIsNeeded`; exactly when: `FunctionNames.PlainCandidateRecursExactly`.
- Writing the path `a.` is reported as refused but replaces `a`: `TransformPaths.BlankEndStillOverwrites`; exactly
  when: `TransformPaths.RefusedWriteChangesNothingExactly`.
- Renaming onto a taken key loses an entry, and which one depends on the map order:
  `Transforms.RenamingOntoTakenKeyLosesOne`; exactly when: `Transforms.RenamingIgnoresOrderExactly`.

## Model

| member | source | states |
|---|---|---|
| TokenPotential.LifeBounded | core/flowengine/stateful_executor.go:66-198 | Over Start and any sequence of RunUntilBlocked and Resume calls on an acyclic spec, consumed tokens plus w of every other token never exceed the sum of w over the sources (w(n) = 1 + sum over successors); with static routing the two are equal until a node fails |
| TokenPotential.EveryRunEnds | core/flowengine/stateful_executor.go:100-134 | On an acyclic spec whose executors choose among outgoing edges, RunUntilBlocked ends within as many rounds as there are paths from the sources, at any point of an instance's life |
| TokenPotential.CompletedExecutesEveryPath | core/flowengine/stateful_executor.go:100-134 | With static routing and no gathering joins, a completed instance has executed exactly one token per path from the sources, resumes included |
| TokenPotential.PathsAreWalks | core/flowengine/stateful_executor.go:386-392 | The paths counted by w are exactly the walks of the graph from the node |
| TokenPotential.PathsAreDistinct | core/flowengine/stateful_executor.go:386-392 | No path is counted twice unless an edge is listed twice |
| TokenPotential.RoundBounded | core/flowengine/stateful_executor.go:200-270 | One executed token never raises the potential and strictly lowers the weight of ready tokens unless the round fails |
| TokenTermination.RunEndsExactlyWithoutCycles | core/flowengine/stateful_executor.go:100-134 | With executors that never fail, no waits and static routing, the first run ends if and only if no cycle is reachable from the sources |
| TokenCycles.GatheredCyclesEnd | core/flowengine/stateful_executor.go:100-134 | On a spec every cycle of which leaves a gathering join, one bound on the rounds ends every run at any point of any instance's life, whatever the executors choose among outgoing edges |
| TokenCycles.EveryRunEndsWithinBudget | core/flowengine/stateful_executor.go:100-134 | The bound is the number of paths from the sources that stop at gathering joins, plus those from the successors of each gathering join, once |
| TokenCycles.LifeWithinBudget | core/flowengine/stateful_executor.go:66-198 | Over any sequence of calls consumed tokens, the paths open to the others and what the joins not yet fired may still emit never exceed that bound |
| TokenCycles.EmittingIsFiring | core/flowengine/stateful_executor.go:299-353 | A gathering join that emits had not fired before and has now |
| TokenCycles.RoundPays | core/flowengine/stateful_executor.go:200-270 | One executed token never raises that budget and strictly lowers the part that ready tokens and open joins are worth |
| TokenSafety.JoinFiresOnceAndComplete | core/flowengine/stateful_executor.go:299-353 | Over the whole life of an instance a join with several predecessors has fired exactly when a token from every expected predecessor has been consumed at it; before that it has emitted nothing, afterwards exactly one token per outgoing edge |
| TokenSafety.FiredExactlyWhenAllDelivered | core/flowengine/stateful_executor.go:299-353 | In every sound state, a gathering join has fired if and only if every predecessor delivered |
| TokenSafety.LifeSafe | core/flowengine/stateful_executor.go:66-198 | Every stored state of any sequence of calls is sound (status and tokens agree: completed means all consumed, waiting means some waiting and none ready, no running token unless failed), tokens are never removed or un-consumed, and terminal states are final |
| TokenSafety.AfterCallSafe | core/flowengine/stateful_executor.go:100-198 | The same for one call; a call on a terminal instance stores nothing new |
| TokenSafety.RunSafe | core/flowengine/stateful_executor.go:100-134 | A run that blocks leaves a waiting or completed instance, one that errors a failed one |
| TokenSafety.RoundSafe | core/flowengine/stateful_executor.go:200-270 | One round keeps the shape of tokens and joins whatever the node does; only a failing round may leave its token running |
| TokenSafety.WakeSafe | core/flowengine/stateful_executor.go:138-198 | Waking the waiting tokens an event matches keeps an instance sound and only moves tokens forward |
| TokenSafety.StartedIsSound | core/flowengine/stateful_executor.go:66-96 | A fresh instance on a valid spec is sound |
| TokenEngine.StatefulExecutor.Start | core/flowengine/stateful_executor.go:66-96 | Which error is returned when, that errors store nothing, and that otherwise the stored instance is the started one after its first run, with the returned instance and halt those of the run |
| TokenEngine.StatefulExecutor.RunUntilBlocked | core/flowengine/stateful_executor.go:100-134 | An instance that is completed, failed or cancelled is returned as it is and nothing is stored; on another one the stored and the returned instance are those of the run; an invalid spec and an unknown instance are refused |
| TokenEngine.StatefulExecutor.Resume | core/flowengine/stateful_executor.go:138-198 | On an instance that is over, AlreadyTerminal and nothing stored; otherwise EventUnmatched exactly when no waiting token has a condition with kind "" or the event's and key "" or the event's. If some have and their nodes accept the writes, exactly those waiting tokens end up consumed, however the run goes on, their nodes' outgoing targets get tokens after the stored ones, and every other waiting token still waits as it did; in all other cases the store is as it was. The returned instance and halt are those of the run that follows |
| TokenEngine.StatefulExecutor.RunRound | core/flowengine/stateful_executor.go:114-133 | One turn of the loop: the ready token is executed, the version grows or the instance is failed, and it is saved |
| TokenEngine.StatefulExecutor.ExecuteReadyToken | core/flowengine/stateful_executor.go:200-270 | The in-place update equals the step function, including every early error return |
| TokenEngine.StatefulExecutor.BlockOnWaitNode | core/flowengine/stateful_executor.go:272-297 | The token waits under the node's condition, or the node fails |
| TokenEngine.StatefulExecutor.WakeWaitingTokens | core/flowengine/stateful_executor.go:158-187 | The loop succeeds exactly when the nodes of all tokens that wait for the event exist and accept its type, key and payload; then exactly those tokens are consumed, exactly their nodes completed, one ready token per edge out of each appended in order, and every other token is as before |
| TokenSteps.WakesExactly | core/flowengine/stateful_executor.go:145-198 | The same for the function the engine is proved equal to: which tokens an event wakes, on the kinds and keys of the stored conditions, and what it leaves of tokens, nodes, joins, data and version |
| TokenSteps.ResumeTold | core/flowengine/stateful_executor.go:138-198 | After waking, a whole run changes neither the tokens woken nor those that still wait, and errs only with an error of a node |
| TokenSteps.ExecutorRound | core/flowengine/stateful_executor.go:235-270 | A node's executor runs on the input built for it; on success exactly the next nodes it chose, or all outgoing targets if it made no choice, get one ready token each; on failure nobody does; the attempt is counted either way |
| TokenSteps.WaitRound | core/flowengine/stateful_executor.go:272-297 | A wait node keeps its token with the one condition its configuration gives, or fails |
| TokenSteps.PassingJoinRound | core/flowengine/stateful_executor.go:299-312 | A join of at most one predecessor passes the token on |
| TokenSteps.GatheringJoinRound | core/flowengine/stateful_executor.go:299-353 | A gathering join records the token's source; the arrival that completes the expected set completes the join and emits to all outgoing targets, no other does, and a later token is consumed without a trace |
| TokenSteps.StuckRound | core/flowengine/stateful_executor.go:200-222 | An unknown node, an unregistered type and an unresolved input stop the round with their own errors, and only the last leaves its token running |
| TokenSteps.RunKeepsUnready | core/flowengine/stateful_executor.go:100-134 | A run only adds tokens, changes none that is not ready, and moves no token between nodes |
| TokenSteps.StartedTold | core/flowengine/stateful_executor.go:66-96 | A new instance holds the input as flow input and one ready token for every node that no edge leads to, in node order |
| TokenEngine.FlowInstance.ExecuteJoinNode | core/flowengine/stateful_executor.go:299-353 | The in-place join bookkeeping equals the step function |
| TokenEngine.FlowInstance.AppendNextTokens | core/flowengine/stateful_executor.go:386-392 | One ready token per target is appended, sourced at the node |
| TokenEngine.FlowInstance.FinalizeBlocked | core/flowengine/stateful_executor.go:406-416 | Waiting if a token waits, completed otherwise |
| TokenEngine.FlowInstance.Clone | core/flowengine/store.go:71-105 | A new instance with a new context, whose nested maps and slices are all new, spelling out the same value |
| TokenEngine.DataContext.Clone | core/flowengine/store.go:95-105 | The four maps are copied deeply: no container of the copy existed before |
| TokenEngine.MemoryInstanceStore.Create | core/flowengine/store.go:31-42 | Stores a copy, refuses empty and taken IDs |
| TokenEngine.MemoryInstanceStore.Get | core/flowengine/store.go:44-52 | Returns a fresh copy of what is stored, down to the nested containers |
| TokenEngine.MemoryInstanceStore.Save | core/flowengine/store.go:54-62 | Stores a copy, whatever is stored already |
| TokenEngine.StoredCopyIsIsolated | core/flowengine/store.go:44-52 | Overwriting any map nested in what Get returned, at any depth, changes neither what is stored nor what the next Get returns |
| TokenEngine.SavedCopyIsIsolated | core/flowengine/store.go:54-62 | Overwriting any map nested in an instance after Save does not change what was saved |
| DeepCopy.CloneAny | core/flowengine/store.go:118-131 | The copy of a nested value spells out the same value, consists of new containers only, and shares none of them inside, whatever the original shares |
| DeepCopy.CloneMap | core/flowengine/store.go:107-116 | The same for one map, whatever order its keys are iterated in |
| DeepCopy.CopyOutlivesChanges | core/flowengine/store.go:107-131 | A copy still spells out the old value after any map and any slice of the original is overwritten |
| Containers.DenotesOne | core/flowengine/store.go:107-131 | Containers spell out one value only, so equal values means equal contents |
| Containers.WritePath | internal/flowengine/context.go:232-249 | The loop of writeParts in place: the root then spells out the path write and nothing else has changed |
| Containers.EntrySet | internal/flowengine/context.go:232-249 | Setting one entry of a nested map sets that location of the value spelled out, and only that |
| Containers.Unmoved | internal/flowengine/context.go:232-249 | A change of one map is not seen from containers that do not lie above it |
| CycleSearch.HasCycle | internal/flowengine/validation.go:134-161 | True exactly when the edge relation has a closed walk reachable from the nodes, for every node order; a false answer yields a topological rank |
| CycleSearch.Search.Visit | internal/flowengine/validation.go:138-154 | One depth-first visit: a hit is a real cycle, a miss settles everything reachable |
| CycleSearch.SettledHasNoCycle | internal/flowengine/validation.go:134-161 | A ranked region closed under edges has no cycle |
| Graphs.AcyclicIffRanked | internal/flowengine/validation.go:134-161 | A graph is acyclic if and only if its nodes can be ranked along the edges |
| WorkflowGraphs.ValidateGraph | internal/flowengine/validation.go:39-75 | Accepts exactly the graphs with an existing entry, existing edge ends and no cycle; the error of any other names something that is wrong with it |
| DagExecutor.Executor.ExecuteGraph | internal/flowengine/executor.go:86-115 | On a validated graph the run ends, never with "no scheduled node is ready" or a missing next node; every completion is what the executors returned on the context its batch started with, and its writes went on top of the previous ones. The step limit is maxSteps if positive and else 64, the batch limit maxParallelism if positive and else 4: every batch begins when fewer nodes than the step limit have started, StepsExceeded comes only with that many completed and more scheduled, and never on a graph with no more nodes than that. Batches are maximal sets of ready nodes, and the source of an edge is in an earlier batch than the target if and only if it was scheduled when the target was picked; on success exactly the nodes the selections lead to from the entry completed, each once, with static routing those that publishing finds, and the context is the initial one with exactly the results' writes applied, so flow_input is unchanged when written paths name their segments; each error says which call of which executor caused it |
| DagExecutor.Executor.ExecuteReadyNodes | internal/flowengine/executor.go:117-159 | Every node of a batch runs against the context the batch started with; its results are merged in some order, each routed on the context after its own merge; a failing node leaves the context and the log as they were |
| DagExecutor.Executor.Merge | internal/flowengine/executor.go:146-157 | Merging one result logs one completion with this result, its writes in some map order and the context after them, on which its next nodes are selected and scheduled; an unconnected selection is the only error |
| DagExecutor.Executor.MergeAll | internal/flowengine/executor.go:146-157 | The results of a batch in an arbitrary order, each completion carrying its node's result; the last merge is the one that fails, if any |
| DagExecutor.Executor.NextBatch | internal/flowengine/executor.go:99-112 | While something is pending on a validated graph, a non-empty batch of ready nodes is found: all of them, or maxParallelism |
| DagExecutor.ExecutionState.ReadyNodes | internal/flowengine/state.go:55-67 | Exactly the scheduled nodes that are not started and wait for no scheduled predecessor |
| DagExecutor.ExecutionState.HasPendingScheduledUpstream | internal/flowengine/state.go:69-79 | Some scheduled predecessor has not completed |
| DagExecutor.ExecutionState.Schedule | internal/flowengine/state.go:27-36 | Fails exactly on a non-empty unknown node |
| DagExecutor.ExecutionState.Complete | internal/flowengine/state.go:42-45 | Marks the node and replaces the context by one with the result merged in |
| DagScheduler.SomePendingNodeIsReady | internal/flowengine/state.go:55-79 | Among the pending scheduled nodes of an acyclic graph one has no pending predecessor: no deadlock |
| DagScheduler.CompletedIsLeastClosure | internal/flowengine/executor.go:99-158 | When all that is scheduled has completed, the completed set is exactly what the selected edges reach from the entry |
| DagScheduler.StaticRunCompletesReachable | internal/flowengine/executor.go:249-278 | If no edge has a condition and no executor stops or selects, it is what the graph reaches from the entry |
| DagScheduler.AwaitedExactlyWhenScheduled | internal/flowengine/state.go:69-79 | For an edge between two nodes that ran: the source ran in an earlier batch if and only if it was scheduled when the target was picked |
| DagScheduler.ContextIsTraced | internal/flowengine/executor.go:146-157 | The context after a run is the initial one with the logged writes applied, which are exactly the writes of the results |
| DagScheduler.RunRespectsReadOnlyDomains | internal/flowengine/context.go:29-46 | If every written path names its segments, a whole run leaves flow_input alone, and responses too when no result has response writes |
| DagScheduler.HistoryUpTo | internal/flowengine/executor.go:99-114 | The log is the completions batch after batch, and each batch found scheduled what the earlier completions selected |
| DagScheduler.ReadyNodesAreParallel | internal/flowengine/state.go:55-79 | No edge joins two nodes of one batch |
| DagScheduler.BatchMergeOrderFree | internal/flowengine/executor.go:146-157 | Any two merges of one batch leave the same context when the written locations are apart |
| DagRuns.LatePredecessorIsNotAwaited | internal/flowengine/executor.go:86-115 | Executing A->B, A->C, C->D, D->B with room for two nodes succeeds and runs B before its predecessor D, whatever the executors return and the scheduler chooses |
| DagRuns.SecondBatch | internal/flowengine/state.go:55-79 | The second batch of that run finds A, B and C scheduled and contains B |
| DagRuns.EntryComesFirst | internal/flowengine/executor.go:96-112 | The first batch of any run is the entry alone |
| BatchRouting.BatchOrderFree | internal/flowengine/executor.go:146-157 | If the writes of a batch are apart and its edge conditions are spared by the siblings' writes, any two merges leave the same context, select the same nodes for each node and schedule the same nodes |
| BatchRouting.AnswersAsAlone | internal/flowengine/executor.go:146-148 | Then a condition answers as if its node alone had been merged |
| WorkflowGraphs.NextNodes | internal/flowengine/executor.go:249-278 | What a result routes to: nothing on stop; the chosen targets, or the first of them that no edge leads to; or the targets of the edges whose condition matches |
| WorkflowGraphs.MatchingTargetsAre | internal/flowengine/executor.go:249-278 | Targets of unconditional edges and of edges whose condition holds |
| WorkflowGraphs.MatchingTargetsInOrder | internal/flowengine/executor.go:267-276 | They come in edge order, one for each matching edge |
| Graphs.OutgoingInOrder | core/flowengine/stateful_executor.go:386-392 | The outgoing targets of a node are those of its edges, in edge order, one for each edge |
| WorkflowGraphs.RoutesAlongEdges | internal/flowengine/executor.go:249-288 | Whatever is selected lies along an edge of the graph |
| WorkflowGraphs.OutgoingTargets | internal/flowengine/executor.go:280-288 | Exactly the edge targets of a node |
| PublishCheck.ValidateReachability | internal/platformapi/application/workflow_publish_validation.go:27-65 | A node is reported as unreachable exactly when the walk from the entry does not find it; missing branch targets and a start node with several edges are reported exactly |
| PublishCheck.Reachability.Visit | internal/platformapi/application/workflow_publish_validation.go:37-51 | The recursive walk marks only reachable nodes and all successors of what it marks |
| PublishCheck.FoundIsReachable | internal/platformapi/application/workflow_publish_validation.go:37-51 | On a validated graph the walk finds exactly what the edges reach from the entry |
| DagExecutor.Executor.RunFinished | internal/platformapi/application/workflow_publish_validation.go:37-55 | With static routing a finished run has completed exactly the nodes publishing does not report as unreachable |
| RunContexts.MergeOrderFree | internal/flowengine/context.go:29-46 | For writes at pairwise apart locations the context after a merge is the same in every order |
| RunContexts.MergeReadsBack | internal/flowengine/context.go:232-249 | Each write of such a merge reads back at its canonical location |
| RunContexts.MergeFrame | internal/flowengine/context.go:83-155 | A location apart from every write reads as before |
| RunContexts.MergeRespectsReadOnlyDomains | internal/flowengine/context.go:111-155 | No merge of writes without empty segments alters flow_input, and only response writes alter responses |
| RunContexts.WriteRespectsReadOnlyDomains | internal/flowengine/context.go:111-144 | A single write without empty segments leaves flow_input and responses alone |
| RunContexts.LeavesAloneExactly | internal/flowengine/context.go:83-144 | A write path leaves a top-level key alone in every context if and only if the first non-empty segment of the location it names is another key |
| RunContexts.EmptySegmentReachesFlowInput | internal/flowengine/context.go:111-130 | The path string ctx..flow_input.x does change flow_input |
| RunContexts.MergeableOrderFree | internal/flowengine/context.go:29-46 | Whether writes can be merged in any order does not depend on their order |
| EdgeRouting.UndisturbedExactly | internal/flowengine/validation.go:101-119 | A write leaves the answer of an edge condition alone in every context and rendering if and only if their paths do not overlap; which overlaps matter is decided by the paths alone, empty segments and bare domains included |
| EdgeRouting.PresenceUndisturbedExactly | internal/flowengine/validation.go:101-113 | For conditions on presence or truth the same holds for one rendering |
| EdgeRouting.RoutingIgnoresSiblings | internal/flowengine/executor.go:146-148 | An edge condition evaluated in the middle of a merge answers the same however much of the batch is merged, if it is spared by the siblings' writes |
| EdgeRouting.SiblingWriteChangesRouting | internal/flowengine/executor.go:146-157 | If a sibling writes what a condition reads, the answer does depend on the order |
| EdgeRouting.WriteAtHasEffect | internal/flowengine/context.go:188-249 | Every write either sets one location or only makes sure that objects lead to it |
| RunContextObjects.RunContext.Write | internal/flowengine/context.go:83-144 | For a path without blank segments: the names of the input and of the responses, bare or below ctx or context, and a domain without a field are refused, and nothing else is; output and flow_output with a field land at flow_output, vars, variables and runtime at variables, both also below ctx and context, and any other path at the location it spells: the value reads back there, and every other top-level key and every location apart reads as before. A refused or empty write changes nothing. Output, variable and plain ctx paths read back by the same string |
| RunContextObjects.RunContext.WriteSystem | internal/flowengine/context.go:146-155 | Three segments or more that begin with responses land below responses and nowhere else; any other path is written and refused as by Write |
| WritePaths.WriteMeans | internal/flowengine/context.go:83-144 | Where each path form lands, for every context and value, told on the segments of the path |
| WritePaths.ReadMeans | internal/flowengine/context.go:48-81 | Where a read looks, by the name its path begins with; a domain that is no object reads as an empty one |
| WritePaths.ReadsBackExactly | internal/flowengine/context.go:48-144 | A path reads back by the same string what was written by it, in every context and for every value, if and only if it is a field of the output or of the variables, or below ctx a field of a domain under its own name or anything that is no name of a domain |
| WritePaths.EdgeMatchesExactly | internal/flowengine/validation.go:101-132 | When an edge condition holds: on presence, on an equal or equally rendered value, or on a value that is not false, null or blank |
| WritePaths.PathForms | internal/flowengine/context.go:225-230 | White space around a path and a dollar sign and a dot in front of it are ignored |
| RunContextObjects.RunContext.EnsureDomainMap | internal/flowengine/context.go:188-198 | The map under the key is found, or made in its place; nothing else changes |
| RunContextObjects.RunContext.WithNodeResult | internal/flowengine/context.go:29-46 | A fresh context of fresh containers with all writes of the result applied in some map order, and Last set; the receiver is unchanged |
| RunContexts.WritesAreTheResults | internal/flowengine/context.go:29-46 | Whatever the order, the writes are the context writes and the response writes of the result |
| JsonValues.WriteReadsBack | internal/flowengine/context.go:215-249 | A written location reads back |
| JsonValues.ReadFrame | internal/flowengine/context.go:215-249 | A location apart from the written one reads as before |
| JsonValues.WritesCommute | internal/flowengine/context.go:232-249 | Writes at locations apart from each other commute |
| FlowExecutor.Execute | core/flowengine/executor.go:57-172 | The run ends on every valid spec, cyclic ones included; no node is executed twice; the limit is the configured one, or twice the number of nodes, which never stops a run; the k-th executed node found its input in the data the previous one left, its executor returned and its writes were accepted, and it selected what it chose or all outgoing targets; without error exactly the nodes those selections lead to from the sources are executed; an error is that of the visit that failed, of a node the selections led to |
| FlowExecutor.StaticPicks | core/flowengine/executor.go:160-168 | With static routing the selections of such a run are all the outgoing edges |
| FlowExecutor.Validate | core/flowengine/executor.go:218-245 | Accepts exactly the valid specs |
| FlowExecutor.ExploredIsReachable | core/flowengine/executor.go:90-168 | With an empty queue the executed nodes are exactly the reached ones |
| FlowExecutor.StaticRunExecutesReachable | core/flowengine/executor.go:57-172 | With static routing these are the nodes reachable from the sources |
| FlowExecutor.AcyclicSpecIsReachable | core/flowengine/executor.go:263-275 | In an acyclic spec every node is reachable from a source |
| FlowExecutor.AcyclicStaticRunExecutesAll | core/flowengine/executor.go:57-172 | On an acyclic spec a successful static run executes every node |
| SupervisorRunner.Execute | internal/agentflow/application/supervisor_runner.go:61-145 | The graph is refused exactly if it does not compile or an existing agent has children, the configuration exactly without an agent ID or above depth 16. Otherwise the run never ends with a depth, cycle or unknown-target error, and with a positive call limit k (5 if it is 0) makes at most T(d) agent invocations; it succeeds only if the root answered, and fails only if the last plan or step failed, the last plan could not be read or had neither actions nor answer, or what a node needs could not be loaded, and nothing was asked after that |
| SupervisorRunner.InvocationsRecurrence | internal/agentflow/application/supervisor_runner.go:151-286 | T(0) = k + 2 and T(d) = 2 + k * T(d - 1) |
| SupervisorRunner.Runner.ExecuteNode | internal/agentflow/application/supervisor_runner.go:151-171 | The path set is restored on every return; on a graph that fits no guard error is returned; invocations stay in the budget of the depth. No error means the node answered: its plan was read, and either no action was kept and the plan has an answer, or the targets of all kept actions were carried out in order, tools and skills by a step that succeeded and children by answering themselves, and then the final step succeeded. An error is accounted for by the last answer the services gave, and all earlier ones were fine |
| SupervisorRunner.Runner.ExecuteOpenNode | internal/agentflow/application/supervisor_runner.go:173-286 | The same for the body between adding the node and removing it: NoActionsOrAnswer only if the last plan asked for was read, keeps no action and has no answer; StepFailed only if the last plan or step asked for failed |
| SupervisorRunner.Runner.PlanNode | internal/agentflow/application/supervisor_runner.go:176-217 | Loading capabilities and children, asking for the plan and filtering it; which failure is returned when |
| SupervisorRunner.Runner.RunActions | internal/agentflow/application/supervisor_runner.go:238-286 | The targets executed at the node are those of the plan's actions, in order, all of them unless the run fails; without an error each was carried out and so was the final step, within the budget |
| SupervisorRunner.Runner.ExecuteAction | internal/agentflow/application/supervisor_runner.go:314-447 | A kept action is executed with the child, tool or skill its lookup finds, never meets an unknown one, and stays in its budget |
| SupervisorRunner.Runner.ExecuteChild | internal/agentflow/application/supervisor_runner.go:330-373 | An agent action runs the child whose node ID it names, one level deeper |
| SupervisorRunner.Runner.LoadChildren | internal/agentflow/application/supervisor_runner.go:776-791 | One entry per child node in order with the loaded profile; fails exactly if one cannot be loaded |
| SupervisorRunner.Runner.GuardsHold | internal/agentflow/application/supervisor_runner.go:151-180 | On an acyclic graph within the depth limit neither the depth nor the cycle guard fires along any path from the root |
| AgentGraph.DepthExactly | internal/agentflow/application/supervisor_runner.go:740-774 | The measured depth is the length of the longest path from the root if no cycle is reachable, and above the hard limit otherwise |
| AgentGraph.DepthSearch.Depth | internal/agentflow/application/supervisor_runner.go:756-772 | The recursive closure computes the depth function and restores its visiting set |
| AgentGraph.RuntimeAgentGraphDepth | internal/agentflow/application/supervisor_runner.go:740-774 | Returns the depth of the graph from its root |
| AgentGraph.RootExactly | internal/agentflow/application/supervisor_runner.go:605-616 | The root is where the first edge out of the entry leads, the entry being "start" when the graph names none |
| AgentGraph.CompiledEdgesInOrder | internal/agentflow/application/supervisor_runner.go:690-703 | The compiled edges are those between existing nodes but for the ones out of the entry, in order; the depth is measured along dangling ones too |
| AgentGraph.BuildRuntimeAgentGraph | internal/agentflow/application/supervisor_runner.go:673-738 | Compiles exactly the graphs with an existing agent as root, only agents at the ends of edges between existing nodes, no cycle reachable from the root and a depth of at most 16; the error of any other names something that is wrong with it |
| AgentGraph.ValidateRuntimeAgentGraph | internal/agentflow/application/supervisor_runner.go:635-657 | Moreover agents that exist elsewhere have no outgoing edges |
| AgentGraph.CompiledWalksFit | internal/agentflow/application/supervisor_runner.go:740-774 | Every walk of a compiled graph from its root is within the measured depth |
| AgentGraph.NormalizeConfig | internal/agentflow/application/supervisor_runner.go:547-563 | The normalized depth limit is the configured one, or 4 if that is 0, or the graph's depth if that is more; the call limit is the configured one, or 5 if that is 0 |
| ActionPlan.FilteredPlanIsExecutable | internal/agentorchestration/action.go:220-271 | For any registry, every kept action resolves at execution |
| ActionPlan.KeptActionsKeepTheirTargets | internal/agentorchestration/action.go:220-271 | On a registry with distinct IDs and names distinct up to case, every action of a filtered plan is executed with the very tool, skill or child its source action was filtered to |
| ActionPlan.KeptTargetExactly | internal/agentorchestration/action.go:309-345 | A kept action is executed with the spec it was filtered to if and only if that spec has no earlier rival |
| ActionPlan.ResolvesAgainExactly | internal/agentorchestration/action.go:323-345 | A resolved action resolves to the same capability if and only if no earlier one has its ID or, for an unnamed action, its name up to case |
| ActionPlan.TidyResolvesToSame | internal/agentorchestration/action.go:323-345 | With distinct IDs and case-insensitively distinct names it always does |
| ActionPlan.TidyAgentResolvesToSame | internal/agentorchestration/action.go:309-321 | The same for child agents |
| ActionPlan.CaseVariantsResolveDifferently | internal/agentorchestration/action.go:323-345 | Two tools whose names differ in case only: the second is executed as the first |
| ActionPlan.FilterIsIdempotent | internal/agentorchestration/action.go:220-271 | Filtering a filtered plan changes nothing |
| ActionPlan.EnrichIsStable | internal/agentorchestration/action.go:220-307 | A kept action is normal and resolves to itself |
| ActionPlan.FilterActionPlan | internal/agentorchestration/action.go:220-271 | The result is the first maxActions, or all, of what the plan's actions become, in order: an action becomes itself, trimmed and completed, for the first registered child, tool or skill it means by reference, ID or name, if children and skills get a task, and is dropped otherwise |
| ActionPlan.KeptExactly | internal/agentorchestration/action.go:220-307 | An action is kept, as this one, if and only if it means something registered, told on its untrimmed fields |
| ContextAssembler.KeepFromIsLongest | internal/contextengine/assembler.go:211-234 | The kept suffix fits the budget and no longer one does |
| ContextAssembler.SelectHistoryWithinBudget | internal/contextengine/assembler.go:211-234 | The longest fitting suffix without tool results at its head; selected plus dropped is the history |
| ContextAssembler.TakeNewest | internal/contextengine/assembler.go:219-229 | The backwards loop stops exactly at the start of the longest fitting suffix |
| ContextAssembler.ReverseMessages | internal/contextengine/assembler.go:263-267 | The in-place reversal |
| ContextAssembler.SelectionFits | internal/contextengine/assembler.go:211-261 | A selection fits its budget and begins with no tool result |
| ContextAssembler.CutKeepsGroupsWhole | internal/contextengine/assembler.go:250-261 | A cut at a message that is no tool result keeps each assistant-plus-results group whole or drops it whole |
| ContextAssembler.Assemble | internal/contextengine/assembler.go:82-119 | System prompt, the newest c messages of the history, each shortened, and the user text, c being at most the count limit: the messages affordable are the most that count and budget leave room for, and all of them are sent but the tool results at their head. Cost at most the budget or that of the two fixed messages; included plus dropped is the history up to its count limit |
| ContextAssembler.PolicyDefaults | internal/contextengine/assembler.go:158-173 | Limits that are not positive become 20 messages, 32000 tokens, 12000 and 12000 characters |
| ContextAssembler.CompactMessageTold | internal/contextengine/assembler.go:200-209 | A content over the limit of its role is cut to it and says how long it was; nothing else of a message changes |
| ContextAssembler.MessageCostsThirds | internal/contextengine/assembler.go:326-354 | A message costs one token per three characters, begun ones included, of its role, content, calls and call ID |
| ContextAssembler.CompactMessages | internal/contextengine/assembler.go:124-156 | The first message and the longest suffix that fits the budget with it, less the tool results at its head; the mandatory part stays in any case, and when it leaves no room it is all that stays; the slice is out of range exactly on lists of an assistant or tool message followed by tool messages only |
| ContextAssembler.MandatoryTold | internal/contextengine/assembler.go:124-156 | Mandatory is the last message, or the tool results at the end with the assistant message before them, and everything from the last user message before that on, the first message aside |
| ContextAssembler.RuntimeTailStart | internal/contextengine/assembler.go:269-282 | The trailing tool messages with the assistant message before them |
| ContextAssembler.LatestUserBefore | internal/contextengine/assembler.go:284-294 | The last user message before an index, the first message excluded |
| ContextAssembler.TokensConcat | internal/contextengine/assembler.go:326-342 | Costs add up |
| ContextAssembler.TruncateTwiceExactly | internal/contextengine/assembler.go:200-209 | Truncating twice equals truncating once if and only if the content fits or is exactly as long as its own truncation |
| ToolLoops.ExecutePromptToolRun | internal/aiorchestrator/application/prompt_tool_executor.go:40-152 | The iteration limit is the run's own if positive, else the service's if positive, else 1, and at most one request more than it is made; the first request is the prompt, the newest messages of the history that count and budget allow, less the tool results at their head, and the user text; how the run ends; as long as no reply is in the user's role, every request starts with the system prompt, ends with the whole current turn and fits the budget if it can, and compaction keeps or drops each group whole and drops no more than the budget demands; as long as replies are the assistant's, no request has a tool result without its call; the slice is never out of range |
| ToolLoops.ExecuteToolCalls | internal/aiorchestrator/application/service.go:347-512 | The reply, then one tool message per call in call order under its ID; the first unknown or failing call decides the error |
| ToolLoops.CutKeepsEveryGroup | internal/contextengine/assembler.go:124-156 | Between two requests each group is there with all its messages, shortened, or gone |
| ToolLoops.TurnIsMandatoryExactly | internal/contextengine/assembler.go:269-294 | Compaction protects exactly the whole turn if and only if no later message of it has the user role |
| ToolLoops.CompactionCarries | internal/contextengine/assembler.go:124-156 | Compacting a conversation that carries the turn keeps all of it |
| SpanForests.BuildTree | core/trace/tree.go:10-42 | Ends for arbitrary, even cyclic, parent links and returns the forest function of the sorted spans |
| SpanForests.LinkChildren | core/trace/tree.go:28-37 | Appending through the shared node pointers gives every node the spans that name it, in order |
| SpanForests.ImmutableTree | core/trace/tree.go:44-50 | The recursive copy ends, because only spans whose parents lead to a root are reached |
| SpanForests.ForestHoldsRootedSpansOnce | core/trace/tree.go:10-50 | For distinct IDs the forest holds exactly the spans whose parent chain reaches a root, each once |
| SpanForests.ForestIsOrderly | core/trace/tree.go:18-50 | Roots and siblings are ordered by start time then ID, and every span is under its own parent |
| SpanForests.ForestIsPermutationExactly | core/trace/tree.go:10-50 | The flattened forest is a permutation of the spans if and only if the parent links have no cycle |
| SpanForests.DepthFits | core/trace/tree.go:44-50 | A parent chain that reaches a root repeats no span |
| SpanForests.OrderIsSorted | core/trace/tree.go:18-25 | The order is sorted by start then ID, without repeats |
| Sorting.StableSortSorts | core/trace/tree.go:18-25 | A stable sort is sorted, has the same elements, and keeps equal ones in order |
| FunctionNames.NameMap | internal/aiorchestrator/application/model_function_names.go:29-45 | For every list of items all names are valid (1 to 64 characters of letters, digits, _ and -), different items get different names, and different keys map to different names |
| FunctionNames.UniqueName | internal/aiorchestrator/application/model_function_names.go:86-107 | The first candidate not in use, found after at most as many others as there are names in use, or one more if the plain candidate recurs |
| FunctionNames.CandidatesDiffer | internal/aiorchestrator/application/model_function_names.go:96-106 | Numbered candidates differ by their number |
| FunctionNames.PlainCandidateRecursExactly | internal/aiorchestrator/application/model_function_names.go:86-107 | The unnumbered candidate equals the k-th numbered one if and only if the token is the numeral of k + 1 and the name is what shortening it for that suffix leaves, followed by the token |
| FunctionNames.ExtraCandidateIsNeeded | internal/aiorchestrator/application/model_function_names.go:96-106 | For every such name there is a set of names in use that only that one candidate more escapes |
| FunctionNames.PlainCandidateMayRecur | internal/aiorchestrator/application/model_function_names.go:86-107 | There are such names |
| FunctionNames.TakenCandidates | internal/aiorchestrator/application/model_function_names.go:96-106 | If k numbered candidates are taken, at least k names are in use |
| FunctionNames.Sanitize | internal/aiorchestrator/application/model_function_names.go:62-84 | The loop computes the sanitized name, which starts with a letter or digit if not empty |
| FunctionNames.CollapseHasNoDoubles | internal/aiorchestrator/application/model_function_names.go:62-84 | No two underscores in a row |
| FunctionNames.CleanNamesStay | internal/aiorchestrator/application/model_function_names.go:62-84 | A clean name is not changed |
| FunctionNames.SafeName | internal/aiorchestrator/application/model_function_names.go:47-60 | Always a valid name that begins with a letter or digit |
| FunctionNames.SafeNameTold | internal/aiorchestrator/application/model_function_names.go:47-60 | The display name is sanitized, the fallback if that is blank, another fallback if nothing is left, and "tool" in the end; then the name is cut at 64 characters and at no dash or underscore |
| FunctionNames.SanitizedExactly | internal/aiorchestrator/application/model_function_names.go:62-84 | Sanitizing takes exactly the dashes and underscores off the ends of what collapsing leaves |
| FunctionNames.CollapseTold | internal/aiorchestrator/application/model_function_names.go:62-84 | Letters, digits and dashes are copied; anything else becomes an underscore unless one was just written |
| FunctionNames.CandidateTold | internal/aiorchestrator/application/model_function_names.go:86-107 | The candidates are the base with the token, and then with the token and a number from 2 on, cut to 64 characters |
| FunctionNames.BaseTold | internal/aiorchestrator/application/model_function_names.go:86-95 | The base is the name cut to 64 and then to 55 characters, which leave room for the token, or "tool" |
| Chunker.ChunkDocument | internal/knowledge/domain/chunker.go:15-44 | Chunk i starts at 680 * i; all but the last have 800 runes; the last reaches the end; each has its own id, its document, title and number; and the chunks join to the text |
| Chunker.ChunksJoin | internal/knowledge/domain/chunker.go:15-44 | The first chunk followed by every later one without its first 120 runes is the text |
| Chunker.ChunksAreDetermined | internal/knowledge/domain/chunker.go:15-44 | Nothing else satisfies what is promised of the chunks |
| Chunker.ChunkIdsDiffer | internal/knowledge/domain/chunker.go:46-58 | Chunk IDs of one document differ |
| KnowledgeStores.BucketIsCurrentChunks | internal/knowledge/infrastructure/memory_store.go:91-111 | After any indexing calls a bucket is the concatenation of the current documents' chunks in last-indexed order |
| KnowledgeStores.MemoryStore.IndexDocument | internal/knowledge/infrastructure/memory_store.go:91-111 | The document's old chunks are replaced at the end of its bucket, other buckets are untouched, and stored counts agree with the documents and chunks |
| KnowledgeStores.MemoryStore.UpsertStats | internal/knowledge/infrastructure/memory_store.go:170-194 | The counts; a new knowledge base gets the document's ids, the status enabled and version v1; an existing one keeps everything else, and only an empty status becomes enabled |
| KnowledgeStores.MemoryStore.SaveKnowledgeBase | internal/knowledge/infrastructure/memory_store.go:31-44 | The caller's counts are ignored; the stored ones stay right |
| KnowledgeStores.MemoryStore.Search | internal/knowledge/infrastructure/memory_store.go:113-142 | The topK best positive scores among the enabled buckets' chunks, falling, ties in candidate order, nothing left out that beats a hit |
| KnowledgeStores.CutIsBest | internal/knowledge/infrastructure/memory_store.go:131-136 | Cutting a stable sort at k gives the k best |
| KnowledgeStores.ScoredExactly | internal/knowledge/infrastructure/memory_store.go:117-129 | Exactly the candidates that pass the filters with a positive score |
| KnowledgeStores.ScoredInOrder | internal/knowledge/infrastructure/memory_store.go:117-129 | In the order of the candidates, each with its score |
| KnowledgeStores.IndexText | internal/knowledge/application/service.go:157-188 | After indexing, the text reads back from the last chunks of the bucket |
| Transforms.RemoveFields | internal/workflowruntime/transform_functions.go:191-231 | The value without the listed keys, and the location of every removed key exactly once; the count is their number |
| Transforms.RemovedIsFree | internal/workflowruntime/transform_functions.go:191-231 | No listed key is left at any depth |
| Transforms.RemovedUnchangedExactly | internal/workflowruntime/transform_functions.go:191-231 | The value is unchanged if and only if no listed key is in it |
| Transforms.RemovingTwiceIsRemovingOnce | internal/workflowruntime/transform_functions.go:191-231 | Removal is idempotent |
| Transforms.OtherLocationsStay | internal/workflowruntime/transform_functions.go:191-231 | A location survives if and only if it goes through no listed key, with what is there |
| Transforms.FilterEmptyValues | internal/workflowruntime/transform_functions.go:270-309 | The filtered value; the count is exactly the number of values that are gone |
| Transforms.FilteredIsFull | internal/workflowruntime/transform_functions.go:270-324 | No empty value strictly below the root |
| Transforms.IsEmptyExactly | internal/workflowruntime/transform_functions.go:311-324 | Null, blank texts and arrays and objects without entries are empty, and nothing else |
| Transforms.FilteringTwiceIsFilteringOnce | internal/workflowruntime/transform_functions.go:270-309 | A second pass changes nothing, and a value is unchanged if and only if it had no empty value below the root |
| Transforms.RenameFields | internal/workflowruntime/transform_functions.go:233-268 | A result of renaming for some map order; the count is the number of keys with a new name |
| Transforms.RenamingIsUndone | internal/workflowruntime/transform_functions.go:233-268 | Renaming there and back gives the value back in every map order if each key is turned back |
| Transforms.FreshRenamingIsReversible | internal/workflowruntime/transform_functions.go:233-268 | An injective renaming onto fresh trimmed keys is undone by the inverse map |
| Transforms.RenamingIgnoresOrderExactly | internal/workflowruntime/transform_functions.go:233-268 | The result of renaming is the same in every map order if and only if, at every level renamed, keys that end up with one name hold values that end up the same |
| Transforms.FlatRenamingIgnoresOrderExactly | internal/workflowruntime/transform_functions.go:233-268 | Without recursion: if and only if keys that end up with one name hold the same value |
| Transforms.RenamingOntoTakenKeyLosesOne | internal/workflowruntime/transform_functions.go:233-268 | Onto a taken key the result depends on the map order |
| TransformPaths.WrittenPathReadsBack | internal/workflowruntime/transform_functions.go:326-379 | A write that reports success is read back by the same path |
| TransformPaths.ReadPathSteps | internal/workflowruntime/transform_functions.go:326-354 | Blank parts are skipped, a part names a key of an object or an index of an array, and nothing is below a scalar |
| TransformPaths.ParseIntExactly | internal/workflowruntime/transform_functions.go:343-348 | An index is digits behind an optional sign, and the number they spell |
| TransformPaths.BlankEndIsRefused | internal/workflowruntime/transform_functions.go:356-379 | When steps may be created exactly the paths with a blank end are refused |
| TransformPaths.RefusedWriteChangesNothingExactly | internal/workflowruntime/transform_functions.go:356-379 | A refused write leaves the object alone if and only if nothing may be created or the path runs through objects |
| TransformPaths.BlankEndStillOverwrites | internal/workflowruntime/transform_functions.go:356-379 | The path "a." is refused and the value at a is replaced all the same |
| TransformPaths.ChunkArray | internal/workflowruntime/transform_functions.go:130-153 | Full chunks but for the last, chunk i being what stands in the array from i times the size on, together the array; exactly the bad inputs are refused |

## Left out

- HTTP servers and clients, SQLite stores, configuration, logging, event hooks, trace collection and redaction: no effect on the decisions modelled here.
- Prompts, provider mapping, JSON and regular expressions, sha1: foreign behaviour. The 8-digit token of a function name is a parameter.
- Clocks, timeouts, retries and generated IDs: span start times are integers; token IDs, payloads and timestamps are not part of a token, so nothing is claimed of their uniqueness.
- Nested maps and slices lie on the heap in `Containers`, `DeepCopy`, `RunContextObject` and `TokenEngine`, and are values elsewhere. Nil maps read as empty ones. What `cloneAny` copies by reference (types other than maps and slices of `any`) is a scalar. The inputs and outputs in node states are left out of the token engine.
- RunContextObjects.RunContext.Write: the written value shares no container with the context or with other written values; node results hold JSON values, from which new containers are built. A result that writes one map under two paths is not modelled.
- TokenEngine.DataContext.Rewrite: what a plugin does to the flow data is given by the value it leaves; its own walk through the maps is not modelled.
- `core/flowengine/context.go` and its mappings: reads and writes of the flow data are parameters of the token and stateless engines.
- The token engine's store has no version check, so one caller at a time is modelled. A call is watched for a number of rounds, because a cyclic flow may never return; the watched state is what has been saved so far.
- TokenCycles.GatheredCyclesEnd: one direction; a cycle without a gathering join may still end when an executor stops selecting its edges.
- TokenTermination.RunEndsExactlyWithoutCycles: states the first run of a flow with static routing whose nodes neither fail nor wait, because a failing or waiting node may stop a cycle.
- TokenPotential.CompletedExecutesEveryPath: says nothing of flows with gathering joins, where several arrivals make one execution.
- Goroutines of a batch: node executions are independent functions of the context the batch started with; data races inside executors are not modelled.
- DagExecutor.Executor.ExecuteGraph: edge conditions are a function parameter; `RunContexts.EdgeMatches` is the instance the repository uses, and the one `BatchRouting` is about. Run and node records, tracing and time limits are left out.
- BatchRouting.BatchOrderFree: the context's record of the last merged node does depend on the order, and is not claimed to be the same.
- EdgeRouting.UndisturbedExactly: exact for one write in every context; a node's own writes may fix the answer although a sibling's write could change it elsewhere.
- RunContexts.MergeReadsBack: reads through the canonical location, because aliases such as `ctx.output` are not read back by the same string; exactly which paths are is `WritePaths.ReadsBackExactly`.
- Letter case is folded on ASCII letters where a concrete fold is needed; elsewhere the fold is a parameter. Strings are sequences of code points, so invalid UTF-8 is not modelled.
- SupervisorRunner.Execute: planning, tool, skill and agent calls and the loading of profiles are answers of a service that may differ each time; their traces and the composed answer text are left out. A node is identified by its key in the node map.
- AgentGraph.NormalizeConfig: the supervisor's agent ID is an input; the code reads it from the root node's configuration.
- ToolLoops.ExecutePromptToolRun: what requests carry is stated for runs whose replies are not in the user's role, and the absence of stray tool results for replies in the assistant's, which the gateway does not enforce; runtime events and trace steps are left out.
- ContextAssembler.Assemble: the report's block list and truncation counts are left out.
- FunctionNames.NameMap: the number of items is at most the largest 64-bit integer, as in Go; without that bound the numbered suffix would no longer fit 64 characters.
- SpanForests.ForestHoldsRootedSpansOnce: needs distinct span IDs; with repeated IDs the later span replaces the earlier one and appears twice.
- Keys that Go joins with '/' or ':' are tuples, because the joined form is ambiguous when IDs contain the separator; searching without a list of knowledge bases takes the tenant's buckets in the order given.
- Lexical scores are natural numbers, and the scoring function and metadata filter of a search are parameters. Update times are left out.
- Transforms.RemoveFields: locations are lists of steps; their dotted rendering is left out, as are input decoding and the string, pick and type conversion transforms.
- TransformPaths.WrittenPathReadsBack: paths are given by their parts; the split at dots is left out.
- `internal/agentflow/application/executor.go` and `state.go`: a near duplicate of the workflow scheduler without its acyclicity check.
