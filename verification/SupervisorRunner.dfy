/**
 The supervisor runner: agents plan actions, run tools and skills, and call child agents
 recursively, with a depth limit and a set of the nodes on the current path.
 */
module SupervisorRunner {
  import opened Text
  import opened Graphs
  import opened ActionPlan
  import opened AgentGraph
  import Cycles = CycleSearch

  datatype RunError =
    | DepthExceeded
    | RecursiveCycle
    | DepthBeforeChildren
    | CapabilityLoadFailed
    | StepFailed
    | PlanUnreadable
    | NoActionsOrAnswer
    | UnknownChild
    | UnknownTool
    | UnknownSkill
    | UnsupportedAction

  /** The errors that validation is meant to rule out. */
  predicate Guarded(e: RunError) {
    e in {DepthExceeded, RecursiveCycle, DepthBeforeChildren, UnknownChild, UnknownTool, UnknownSkill, UnsupportedAction}
  }

  /** What a step of a node is for. */
  datatype Phase = Final | Executing(target: Target)

  datatype Profile = Profile(agentId: string, name: string)

  /** What the catalog and the model answer; each answer may depend on how many steps were taken before. */
  datatype Services = Services(
    capabilities: (nat, Id) -> Option<(seq<Capability>, seq<Capability>)>,
    profile: (nat, Id) -> Option<Profile>,
    plan: (nat, Id) -> Option<(Option<seq<Action>>, bool)>,
    step: (nat, Id, Phase) -> bool,
    fold: Fold)

  /** One entry per child node, carrying its ID. */
  ghost predicate Carries(children: seq<AgentSpec>, ids: seq<Id>) {
    |children| == |ids| && forall i :: 0 <= i < |ids| ==> children[i].nodeId == ids[i].name
  }

  // ---------- what was executed ----------

  /** A node at some depth took up an action with this target. */
  datatype Act = Act(depth: nat, node: Id, target: Target)

  predicate AllFrom(acts: seq<Act>, depth: nat) {
    forall i :: 0 <= i < |acts| ==> acts[i].depth >= depth
  }

  /** The targets taken up at one depth, in order. */
  function TargetsAt(acts: seq<Act>, depth: nat): seq<Target> {
    if acts == [] then []
    else
      var front, last := TargetsAt(acts[..|acts| - 1], depth), acts[|acts| - 1];
      if last.depth == depth then front + [last.target] else front
  }

  lemma {:induction false} TargetsAtConcat(a: seq<Act>, b: seq<Act>, depth: nat)
    ensures TargetsAt(a + b, depth) == TargetsAt(a, depth) + TargetsAt(b, depth)
    decreases |b|
  {
    if b == [] {
      assert a + b == a;
    } else {
      assert (a + b)[..|a + b| - 1] == a + b[..|b| - 1];
      TargetsAtConcat(a, b[..|b| - 1], depth);
    }
  }

  lemma {:induction false} NoneAt(acts: seq<Act>, depth: nat)
    requires AllFrom(acts, depth + 1)
    ensures TargetsAt(acts, depth) == []
  {
    if acts != [] { NoneAt(acts[..|acts| - 1], depth); }
  }

  /** What the actions of a plan are executed with. */
  function TargetsOf(actions: seq<Action>, r: Registry, fold: Fold): seq<Target>
    requires forall b :: b in actions ==> ExecutedWith(b, r, fold).Some?
  {
    if actions == [] then []
    else
      assert actions[|actions| - 1] in actions && forall b :: b in actions[..|actions| - 1] ==> b in actions;
      TargetsOf(actions[..|actions| - 1], r, fold) + [ExecutedWith(actions[|actions| - 1], r, fold).value]
  }

  lemma {:induction false} TargetsOfPrefix(actions: seq<Action>, i: nat, r: Registry, fold: Fold)
    requires (forall b :: b in actions ==> ExecutedWith(b, r, fold).Some?) && i <= |actions|
    ensures forall b :: b in actions[..i] ==> ExecutedWith(b, r, fold).Some?
    ensures TargetsOf(actions[..i], r, fold) <= TargetsOf(actions, r, fold)
    decreases |actions|
  {
    assert forall b :: b in actions[..i] ==> b in actions;
    if i == |actions| {
      assert actions[..i] == actions;
    } else {
      var front := actions[..|actions| - 1];
      assert forall b :: b in front ==> b in actions;
      TargetsOfPrefix(front, i, r, fold);
      assert front[..i] == actions[..i];
    }
  }

  /** What was asked of the agents: a plan, or a step. */
  datatype Asked = ForPlan(node: Id) | ForStep(node: Id, phase: Phase)

  /** What a run is made with. */
  datatype Setting = Setting(graph: RuntimeGraph, maxDepth: int, maxCalls: int, services: Services) {

    /** The registry of a node: what the catalog and the profiles of its children said when k steps had been taken. */
    ghost predicate RegistryOf(k: nat, n: Id, registry: Registry) {
      && services.capabilities(k, n) == Some((registry.tools, registry.skills))
      && LoadedFor(k, Outgoing(graph.edges, n), registry.agents)
    }

    ghost predicate LoadedFor(k: nat, ids: seq<Id>, children: seq<AgentSpec>) {
      && Carries(children, ids)
      && forall i :: 0 <= i < |ids| ==>
           services.profile(k, ids[i]) == Some(Profile(children[i].agentId, children[i].name))
    }

    /** The capabilities of a node, or the profile of one of its children, could not be loaded. */
    ghost predicate Unloadable(k: nat, n: Id) {
      || services.capabilities(k, n).None?
      || exists i :: 0 <= i < |Outgoing(graph.edges, n)| && services.profile(k, Outgoing(graph.edges, n)[i]).None?
    }

    ghost predicate AllExecutable(actions: seq<Action>, registry: Registry) {
      forall b :: b in actions ==> Executable(b, registry, services.fold)
    }

    ghost function Targets(actions: seq<Action>, registry: Registry): seq<Target>
      requires AllExecutable(actions, registry)
    {
      AllHaveTargets(actions, registry);
      TargetsOf(actions, registry, services.fold)
    }

    lemma AllHaveTargets(actions: seq<Action>, registry: Registry)
      requires AllExecutable(actions, registry)
      ensures forall b :: b in actions ==> ExecutedWith(b, registry, services.fold).Some?
    {
      forall b | b in actions ensures ExecutedWith(b, registry, services.fold).Some? {
        ExecutableIsExecutedWith(b, registry, services.fold);
      }
    }

    /** The plan of the node was read when k steps had been taken; filtered, it keeps these actions. */
    ghost predicate PlanRead(registry: Registry, k: nat, n: Id, kept: seq<Action>) {
      && RegistryOf(k, n, registry)
      && services.plan(k, n).Some? && services.plan(k, n).value.0.Some?
      && kept == Capped(Kept(services.plan(k, n).value.0.value, registry, services.fold), maxCalls)
      && AllExecutable(kept, registry)
    }

    /**
     What was taken up since, at this depth, is the beginning of the node's filtered plan,
     each action with the target it resolves to; or nothing.
     */
    ghost predicate FollowsItsPlan(k: nat, n: Id, since: seq<Act>, depth: nat) {
      || TargetsAt(since, depth) == []
      || exists registry, kept :: PlanRead(registry, k, n, kept) && TargetsAt(since, depth) <= Targets(kept, registry)
    }

    // ---------- what a success means ----------

    ghost function Room(depth: nat): nat {
      if depth <= maxDepth then maxDepth - depth + 1 else 0
    }

    /**
     A node that begins when k steps have been taken, and ends at `end`, gave its answer: its
     plan was read, and either it keeps no action and brings an answer of its own, or all the
     targets of its actions were carried out in order, and then the final step succeeded.
     */
    ghost predicate Answered(k: nat, end: nat, n: Id, depth: nat)
      decreases Room(depth), 3, 0
    {
      depth <= maxDepth && exists registry, kept :: PlanRead(registry, k, n, kept)
                                                    && AnsweredBy(registry, kept, k, end, n, depth)
    }

    ghost predicate AnsweredBy(registry: Registry, kept: seq<Action>, k: nat, end: nat, n: Id, depth: nat)
      requires PlanRead(registry, k, n, kept) && depth <= maxDepth
      decreases Room(depth), 2, 0
    {
      if kept == [] then services.plan(k, n).value.1 && end == k + 1
      else
        && k + 1 < end && CarriedOut(k + 1, end - 1, Targets(kept, registry), n, depth)
        && services.step(end - 1, n, Final)
    }

    /** The targets were carried out one after the other. */
    ghost predicate CarriedOut(k: nat, end: nat, targets: seq<Target>, n: Id, depth: nat)
      requires depth <= maxDepth
      decreases Room(depth), 1, 2 * |targets|
    {
      if targets == [] then end == k
      else CarriedOutVia(k, end, targets[..|targets| - 1], targets[|targets| - 1], n, depth)
    }

    ghost predicate CarriedOutVia(k: nat, end: nat, front: seq<Target>, last: Target, n: Id, depth: nat)
      requires depth <= maxDepth
      decreases Room(depth), 1, 2 * |front| + 1
    {
      exists at :: CarriedOut(k, at, front, n, depth) && OneCarriedOut(at, end, last, n, depth)
    }

    /** A child agent gave its answer one level deeper; a tool or a skill was a step that succeeded. */
    ghost predicate OneCarriedOut(at: nat, end: nat, target: Target, n: Id, depth: nat)
      requires depth <= maxDepth
      decreases Room(depth), 0, 0
    {
      match target
      case ToAgent(child) => depth < maxDepth && Answered(at, end, Id(child.nodeId), depth + 1)
      case _ => services.step(at, n, Executing(target)) && end == at + 1
    }

    // ---------- what a failure means ----------

    /** The k-th answer lets the run go on. */
    ghost predicate Fine(k: nat, a: Asked) {
      match a
      case ForPlan(n) => exists registry, kept :: PlanRead(registry, k, n, kept)
                                                  && (kept != [] || services.plan(k, n).value.1)
      case ForStep(n, phase) => services.step(k, n, phase)
    }

    /** The last answer is the reason of the error; or, if it is one of loading, the node `m` could not be loaded. */
    ghost predicate Blames(asked: seq<Asked>, err: RunError, m: Id) {
      if err == CapabilityLoadFailed then Unloadable(|asked|, m)
      else if err == StepFailed then
        && asked != [] && var k := |asked| - 1;
        match asked[k]
        case ForPlan(n) => services.plan(k, n).None?
        case ForStep(n, phase) => !services.step(k, n, phase)
      else if err == PlanUnreadable then
        && asked != [] && var k := |asked| - 1;
        asked[k].ForPlan? && var plan := services.plan(k, asked[k].node); plan.Some? && plan.value.0.None?
      else if err == NoActionsOrAnswer then
        && asked != [] && var k := |asked| - 1;
        && asked[k].ForPlan?
        && exists registry :: PlanRead(registry, k, asked[k].node, []) && !services.plan(k, asked[k].node).value.1
      else true
    }

    /** Nothing was asked after an answer that ends the run, and an error is the last answer's. */
    ghost predicate Explained(asked: seq<Asked>, since: nat, err: Option<RunError>, m: Id) {
      var blamed := if err in {Some(StepFailed), Some(PlanUnreadable), Some(NoActionsOrAnswer)} then 1 else 0;
      && since + blamed <= |asked|
      && (forall k :: since <= k < |asked| - blamed ==> Fine(k, asked[k]))
      && (err.Some? ==> Blames(asked, err.value, m))
    }

    lemma LoadingFails(k: nat, n: Id)
      ensures services.capabilities(k, n).None? ==> Unloadable(k, n)
      ensures (exists i :: 0 <= i < |Outgoing(graph.edges, n)| && services.profile(k, Outgoing(graph.edges, n)[i]).None?)
              ==> Unloadable(k, n)
    {
    }

    lemma PlanIsRead(registry: Registry, k: nat, n: Id, kept: seq<Action>)
      requires RegistryOf(k, n, registry) && services.plan(k, n).Some? && services.plan(k, n).value.0.Some?
      requires kept == Capped(Kept(services.plan(k, n).value.0.value, registry, services.fold), maxCalls)
      requires AllExecutable(kept, registry)
      ensures PlanRead(registry, k, n, kept)
    {
    }

    lemma PlanExplains(before: seq<Asked>, registry: Registry, k: nat, n: Id, kept: seq<Action>)
      requires PlanRead(registry, k, n, kept) && |before| == k
      ensures kept != [] || services.plan(k, n).value.1 ==> Explained(before + [ForPlan(n)], k, None, n)
      ensures kept == [] && !services.plan(k, n).value.1 ==>
                Explained(before + [ForPlan(n)], k, Some(NoActionsOrAnswer), n)
    {
      hide PlanRead;
    }

    lemma AnswersItself(registry: Registry, k: nat, n: Id, depth: nat)
      requires PlanRead(registry, k, n, []) && services.plan(k, n).value.1 && depth <= maxDepth
      ensures Answered(k, k + 1, n, depth)
    {
      assert AnsweredBy(registry, [], k, k + 1, n, depth);
    }

    lemma AnswersByActions(registry: Registry, kept: seq<Action>, k: nat, end: nat, n: Id, depth: nat)
      requires PlanRead(registry, k, n, kept) && kept != [] && depth <= maxDepth && k + 1 < end
      requires CarriedOut(k + 1, end - 1, Targets(kept, registry), n, depth) && services.step(end - 1, n, Final)
      ensures Answered(k, end, n, depth)
    {
      assert AnsweredBy(registry, kept, k, end, n, depth);
    }

    lemma PlanIsShort(registry: Registry, k: nat, n: Id, kept: seq<Action>)
      requires PlanRead(registry, k, n, kept)
      ensures maxCalls > 0 ==> |kept| <= maxCalls
    {
    }

    lemma NothingFollowed(k: nat, n: Id, since: seq<Act>, depth: nat)
      requires TargetsAt(since, depth) == []
      ensures FollowsItsPlan(k, n, since, depth)
    {
    }

    lemma PlanIsFollowed(registry: Registry, k: nat, n: Id, kept: seq<Action>, since: seq<Act>, depth: nat)
      requires PlanRead(registry, k, n, kept) && TargetsAt(since, depth) <= Targets(kept, registry)
      ensures FollowsItsPlan(k, n, since, depth)
    {
    }

    lemma OneMoreCarriedOut(k: nat, at: nat, end: nat, targets: seq<Target>, target: Target, n: Id, depth: nat)
      requires depth <= maxDepth && CarriedOut(k, at, targets, n, depth) && OneCarriedOut(at, end, target, n, depth)
      ensures CarriedOut(k, end, targets + [target], n, depth)
    {
      assert (targets + [target])[..|targets|] == targets;
    }

    lemma NothingCarriedOut(asked: seq<Asked>, n: Id, depth: nat)
      requires depth <= maxDepth
      ensures CarriedOut(|asked|, |asked|, [], n, depth)
      ensures Explained(asked, |asked|, None, n)
    {
    }

    lemma ExplainedAnywhere(asked: seq<Asked>, since: nat, m: Id, m': Id)
      requires Explained(asked, since, None, m)
      ensures Explained(asked, since, None, m')
    {
    }

    lemma ExplainedFurther(asked: seq<Asked>, since: nat, more: seq<Asked>, err: Option<RunError>, m: Id, m': Id)
      requires Explained(asked, since, None, m) && asked <= more && Explained(more, |asked|, err, m')
      ensures Explained(more, since, err, m')
    {
      hide Fine, Blames;
    }
  }

  /** The node that is at work after these acts: the child just called, or the node that took up the last action. */
  ghost function AtWork(n: Id, since: seq<Act>): Id {
    if since == [] then n
    else
      var last := since[|since| - 1];
      if last.target.ToAgent? then Id(last.target.child.nodeId) else last.node
  }

  /** The most invocations of one action at a node that may go d levels deeper. */
  function ActionCost(k: nat, d: nat): nat
    decreases d, 0
  {
    if d == 0 then 1 else Invocations(k, d - 1)
  }

  /** The most invocations of a node that may go d levels deeper, with k actions per plan: planning, actions, final answer. */
  function Invocations(k: nat, d: nat): nat
    decreases d, 1
  {
    2 + k * ActionCost(k, d)
  }

  /** T(0) = k + 2 and T(d) = 2 + k T(d - 1). */
  lemma InvocationsRecurrence(k: nat, d: nat)
    ensures Invocations(k, 0) == k + 2
    ensures d > 0 ==> Invocations(k, d) == 2 + k * Invocations(k, d - 1)
  {
  }

  lemma CostsAtLeastOne(k: nat, d: nat)
    ensures ActionCost(k, d) >= 1
  {
  }

  class Runner {
    const setting: Setting
    const graph: RuntimeGraph := setting.graph
    const maxDepth: int := setting.maxDepth
    const maxCalls: int := setting.maxCalls
    const services: Services := setting.services
    // The length of the longest path from the root.
    ghost const deepest: nat
    var path: set<Id>
    var invocations: nat
    // What was taken up, and what was asked of the agents, so far.
    ghost var acts: seq<Act>
    ghost var asked: seq<Asked>

    constructor (setting: Setting, ghost deepest: nat)
      ensures this.setting == setting && this.deepest == deepest
      ensures path == {} && invocations == 0 && acts == [] && asked == []
    {
      this.setting, this.deepest := setting, deepest;
      path, invocations, acts, asked := {}, 0, [], [];
    }

    /** The graph is acyclic from its root, and no path is longer than the deepest, which is within the limit. */
    ghost predicate GraphFits() {
      && !Cycles.CycleFrom(RelOf(graph.edges), {graph.root})
      && deepest <= maxDepth
      && forall w :: Walk(RelOf(graph.edges), w) && w[0] == graph.root ==> |w| - 1 <= deepest
    }

    /** The trail is the path from the root to just above n. */
    ghost predicate Above(n: Id, depth: nat, trail: seq<Id>) {
      Cycles.Trail(RelOf(graph.edges), graph.root, trail, n) && |trail| == depth
    }

    /** The node is where the recursion on a graph that fits may be. */
    ghost predicate Placed(n: Id, depth: nat, trail: seq<Id>) {
      GraphFits() && Above(n, depth, trail)
    }

    lemma AboveIsWalk(n: Id, depth: nat, trail: seq<Id>)
      requires Above(n, depth, trail)
      ensures Walk(RelOf(graph.edges), trail + [n]) && (trail + [n])[0] == graph.root
    {
    }

    /** On a graph that fits, the guards of the recursion do not fire. */
    lemma GuardsHold(n: Id, depth: nat, trail: seq<Id>)
      requires Placed(n, depth, trail)
      ensures depth <= deepest <= maxDepth && n !in Members(trail)
      ensures Outgoing(graph.edges, n) != [] ==> depth < deepest
      ensures forall t :: t in Outgoing(graph.edges, n) ==> Placed(t, depth + 1, trail + [n])
    {
      var r := RelOf(graph.edges);
      AboveIsWalk(n, depth, trail);
      if n in trail { Cycles.TrailClosesCycle(r, graph.root, trail, n); }
      forall t | t in Outgoing(graph.edges, n) ensures Above(t, depth + 1, trail + [n]) && depth < deepest {
        OutgoingIsEdge(graph.edges, n, t);
        assert (n, t) in r;
        Cycles.TrailGrows(r, graph.root, trail, n, t);
        AboveIsWalk(t, depth + 1, trail + [n]);
      }
      if Outgoing(graph.edges, n) != [] { assert Outgoing(graph.edges, n)[0] in Outgoing(graph.edges, n); }
    }

    ghost predicate Harmless(err: Option<RunError>) {
      err.None? || !Guarded(err.value)
    }

    ghost function Budget(depth: nat): nat {
      if depth <= deepest && maxCalls > 0 then Invocations(maxCalls, deepest - depth) else 0
    }

    ghost function ActionBudget(depth: nat): nat {
      if depth <= deepest && maxCalls > 0 then ActionCost(maxCalls, deepest - depth) else 0
    }

    lemma SettingShows()
      ensures graph == setting.graph && maxDepth == setting.maxDepth && maxCalls == setting.maxCalls
      ensures services == setting.services
    {
    }

    /** `invokeAgentStep` */
    method InvokeStep(n: Id, phase: Phase) returns (ok: bool)
      requires |asked| == invocations
      modifies this`invocations, this`asked
      ensures invocations == old(invocations) + 1 && asked == old(asked) + [ForStep(n, phase)]
      ensures ok == services.step(old(invocations), n, phase)
      ensures ok ==> setting.Explained(asked, |old(asked)|, None, n)
      ensures !ok ==> forall m :: setting.Explained(asked, |old(asked)|, Some(StepFailed), m)
    {
      ok := services.step(invocations, n, phase);
      invocations, asked := invocations + 1, asked + [ForStep(n, phase)];
    }

    /** `loadAgentGraphChildren`: the profiles are loaded one by one, in the order of the child nodes. */
    method LoadChildren(ids: seq<Id>) returns (children: Option<seq<AgentSpec>>)
      ensures children.Some? ==> setting.LoadedFor(invocations, ids, children.value)
      ensures children.None? <==> exists i :: 0 <= i < |ids| && services.profile(invocations, ids[i]).None?
    {
      var loaded: seq<AgentSpec> := [];
      for i := 0 to |ids|
        invariant setting.LoadedFor(invocations, ids[..i], loaded)
      {
        var profile := services.profile(invocations, ids[i]);
        if profile.None? { return None; }
        loaded := loaded + [AgentSpec(ids[i].name, profile.value.agentId, profile.value.name)];
      }
      assert ids[..|ids|] == ids;
      return Some(loaded);
    }

    /**
     `executeAgentGraphNode`: the path is restored on every return; on a graph that fits, no
     guard error is returned and the invocations stay within the budget of the depth; what the
     node takes up follows a filtered plan; it ends without error only if it gave its answer,
     and with an error only if the last answer, or what could not be loaded, accounts for it.
     */
    method ExecuteNode(n: Id, depth: nat, ghost trail: seq<Id>) returns (err: Option<RunError>)
      requires |asked| == invocations
      modifies this
      ensures path == old(path)
      ensures Placed(n, depth, trail) && old(path) == Members(trail) ==> Harmless(err)
      ensures Placed(n, depth, trail) && maxCalls > 0 ==> invocations <= old(invocations) + Budget(depth)
      ensures old(asked) <= asked && old(acts) <= acts && |asked| == invocations
      ensures AllFrom(acts[|old(acts)|..], depth)
      ensures setting.FollowsItsPlan(old(invocations), n, acts[|old(acts)|..], depth)
      ensures err.None? ==> setting.Answered(old(invocations), invocations, n, depth)
      ensures setting.Explained(asked, old(invocations), err, AtWork(n, acts[|old(acts)|..]))
      decreases if depth <= maxDepth then maxDepth - depth + 1 else 0, 4
    {
      hide Placed, Budget, Setting.Answered, Setting.PlanRead, Setting.Unloadable;
      if Placed(n, depth, trail) { GuardsHold(n, depth, trail); }
      assert acts[|acts|..] == [];
      if depth > maxDepth { return Some(DepthExceeded); }
      if n in path { return Some(RecursiveCycle); }
      path := path + {n};
      err := ExecuteOpenNode(n, depth, trail);
      path := path - {n};
    }

    /** The beginning of a node: its capabilities and its children are loaded, and its plan is asked for and filtered. */
    method PlanNode(n: Id, depth: nat)
      returns (err: Option<RunError>, registry: Registry, actions: seq<Action>, answered: bool)
      requires |asked| == invocations
      modifies `invocations, `asked
      ensures old(asked) <= asked && |asked| == invocations <= old(invocations) + 1
      ensures err == Some(DepthBeforeChildren) ==> Outgoing(graph.edges, n) != [] && depth >= maxDepth
      ensures err != Some(DepthBeforeChildren) ==> Harmless(err)
      ensures err.Some? ==> setting.Explained(asked, old(invocations), err, n)
      ensures err.None? ==>
                && asked == old(asked) + [ForPlan(n)] && setting.PlanRead(registry, old(invocations), n, actions)
                && Carries(registry.agents, Outgoing(graph.edges, n)) && setting.AllExecutable(actions, registry)
                && (Outgoing(graph.edges, n) != [] ==> depth < maxDepth)
                && answered == services.plan(old(invocations), n).value.1
    {
      hide Outgoing, Executable, Setting.RegistryOf, Setting.LoadedFor, Setting.Fine, Setting.PlanRead,
        Setting.AllExecutable, Setting.Unloadable;
      ghost var k := invocations;
      registry, actions, answered := Registry([], [], []), [], false;
      var capabilities := services.capabilities(invocations, n);
      setting.LoadingFails(k, n);
      if capabilities.None? { return Some(CapabilityLoadFailed), registry, [], false; }
      var ids := Outgoing(graph.edges, n);
      if |ids| > 0 && depth >= maxDepth { return Some(DepthBeforeChildren), registry, [], false; }
      var loaded := LoadChildren(ids);
      if loaded.None? { return Some(CapabilityLoadFailed), registry, [], false; }
      registry := Registry(loaded.value, capabilities.value.0, capabilities.value.1);
      var plan := services.plan(invocations, n);
      invocations, asked := invocations + 1, asked + [ForPlan(n)];
      if plan.None? { return Some(StepFailed), registry, [], false; }
      if plan.value.0.None? { return Some(PlanUnreadable), registry, [], false; }
      actions := FilterActionPlan(plan.value.0.value, registry, maxCalls, services.fold);
      RegistryIsLoaded(k, n, registry);
      KeptAreExecutable(plan.value.0.value, registry);
      setting.PlanIsRead(registry, k, n, actions);
      return None, registry, actions, plan.value.1;
    }

    /** The body of `executeAgentGraphNode` between adding the node to the path and removing it. */
    method ExecuteOpenNode(n: Id, depth: nat, ghost trail: seq<Id>) returns (err: Option<RunError>)
      requires depth <= maxDepth && |asked| == invocations
      modifies this
      ensures path == old(path)
      ensures Placed(n, depth, trail) && old(path) == Members(trail + [n]) ==> Harmless(err)
      ensures Placed(n, depth, trail) && maxCalls > 0 ==> invocations <= old(invocations) + Budget(depth)
      ensures old(asked) <= asked && old(acts) <= acts && |asked| == invocations
      ensures AllFrom(acts[|old(acts)|..], depth)
      ensures setting.FollowsItsPlan(old(invocations), n, acts[|old(acts)|..], depth)
      ensures err.None? ==> setting.Answered(old(invocations), invocations, n, depth)
      ensures setting.Explained(asked, old(invocations), err, AtWork(n, acts[|old(acts)|..]))
      decreases maxDepth - depth + 1, 3
    {
      hide *;
      SettingShows();
      if Placed(n, depth, trail) {
        GuardsHold(n, depth, trail);
        WithinBudget(0, depth);
      }
      NothingTakenUp(acts, depth);
      setting.NothingFollowed(invocations, n, acts[|acts|..], depth);
      NoneAtWork(n, acts);
      ghost var k := invocations;
      var registry, actions, answered;
      err, registry, actions, answered := PlanNode(n, depth);
      if err.Some? { return; }
      setting.PlanExplains(old(asked), registry, k, n, actions);
      if actions == [] {
        if !answered {
          NothingGuards();
          return Some(NoActionsOrAnswer);
        }
        setting.AnswersItself(registry, k, n, depth);
        return None;
      }
      ghost var read := asked;
      setting.PlanIsShort(registry, k, n, actions);
      err := RunActions(n, actions, registry, Outgoing(graph.edges, n), depth, trail);
      setting.PlanIsFollowed(registry, k, n, actions, acts[|old(acts)|..], depth);
      setting.ExplainedFurther(read, k, asked, err, n, AtWork(n, acts[|old(acts)|..]));
      if err.None? { setting.AnswersByActions(registry, actions, k, invocations, n, depth); }
      if Placed(n, depth, trail) { WithinBudget(|actions|, depth); }
    }

    lemma NoneAtWork(n: Id, acts: seq<Act>)
      ensures AtWork(n, acts[|acts|..]) == n
    {
    }

    lemma NothingGuards()
      ensures Harmless(None) && Harmless(Some(NoActionsOrAnswer))
    {
    }

    lemma KeptAreExecutable(planned: seq<Action>, registry: Registry)
      ensures setting.AllExecutable(Capped(Kept(planned, registry, services.fold), maxCalls), registry)
    {
      forall b | b in Capped(Kept(planned, registry, services.fold), maxCalls)
        ensures Executable(b, registry, services.fold)
      {
        FilteredPlanIsExecutable(planned, registry, maxCalls, services.fold, b);
      }
    }

    lemma RegistryIsLoaded(k: nat, n: Id, registry: Registry)
      requires services.capabilities(k, n) == Some((registry.tools, registry.skills))
      requires setting.LoadedFor(k, Outgoing(graph.edges, n), registry.agents)
      ensures setting.RegistryOf(k, n, registry) && Carries(registry.agents, Outgoing(graph.edges, n))
    {
    }

    lemma WithinBudget(actions: nat, depth: nat)
      requires depth <= deepest && (maxCalls > 0 ==> actions <= maxCalls)
      ensures maxCalls > 0 ==> 1 + actions * ActionBudget(depth) + 1 <= Budget(depth)
    {
      if maxCalls > 0 { ProductGrows(actions, maxCalls, ActionBudget(depth)); }
    }

    /** Executes the planned actions in order, each with its target, then synthesizes the node's answer. */
    method RunActions(n: Id, actions: seq<Action>, registry: Registry, ids: seq<Id>, depth: nat, ghost trail: seq<Id>)
      returns (err: Option<RunError>)
      requires depth <= maxDepth && ids == Outgoing(graph.edges, n) && (ids != [] ==> depth < maxDepth)
      requires Carries(registry.agents, ids) && setting.AllExecutable(actions, registry) && |asked| == invocations
      modifies this
      ensures path == old(path)
      ensures Placed(n, depth, trail) && old(path) == Members(trail + [n]) ==> Harmless(err)
      ensures Placed(n, depth, trail) && maxCalls > 0 ==>
                invocations <= old(invocations) + |actions| * ActionBudget(depth) + 1
      ensures old(acts) <= acts && AllFrom(acts[|old(acts)|..], depth)
      ensures TargetsAt(acts[|old(acts)|..], depth) <= setting.Targets(actions, registry)
      ensures err.None? ==> TargetsAt(acts[|old(acts)|..], depth) == setting.Targets(actions, registry)
      ensures old(asked) <= asked && |asked| == invocations
      ensures err.None? ==>
                && old(invocations) < invocations && services.step(invocations - 1, n, Final)
                && setting.CarriedOut(old(invocations), invocations - 1, setting.Targets(actions, registry), n, depth)
      ensures setting.Explained(asked, old(invocations), err, AtWork(n, acts[|old(acts)|..]))
      decreases maxDepth - depth + 1, 1
    {
      hide *;
      SettingShows();
      ghost var before, k := acts, invocations;
      NothingTakenUp(acts, depth);
      setting.NothingCarriedOut(asked, n, depth);
      setting.AllHaveTargets(actions, registry);
      for i := 0 to |actions|
        invariant path == old(path)
        invariant Placed(n, depth, trail) && maxCalls > 0 ==> invocations <= old(invocations) + i * ActionBudget(depth)
        invariant before <= acts && AllFrom(acts[|before|..], depth)
        invariant setting.AllExecutable(actions[..i], registry)
        invariant TargetsAt(acts[|before|..], depth) == setting.Targets(actions[..i], registry)
        invariant old(asked) <= asked && |asked| == invocations && k <= invocations
        invariant setting.CarriedOut(k, invocations, setting.Targets(actions[..i], registry), n, depth)
        invariant setting.Explained(asked, k, None, n)
      {
        ghost var now, so, at := acts, asked, invocations;
        ActionIsExecutable(actions, i, registry);
        err := ExecuteAction(n, actions[i], registry, ids, depth, trail);
        OneMoreTakenUp(before, now, acts, actions, i, registry, depth, n);
        setting.ExplainedFurther(so, k, asked, err, n, AtWork(n, acts[|now|..]));
        if err.Some? {
          ProductGrows(i + 1, |actions|, ActionBudget(depth));
          TargetsArePrefix(actions, i + 1, registry);
          return;
        }
        setting.OneMoreCarriedOut(k, at, invocations, setting.Targets(actions[..i], registry),
                                  ExecutedWith(actions[i], registry, services.fold).value, n, depth);
        setting.ExplainedAnywhere(asked, k, AtWork(n, acts[|now|..]), n);
      }
      assert actions[..|actions|] == actions;
      ghost var so := asked;
      var ok := InvokeStep(n, Final);
      SteppedOrFailed(ok);
      ghost var m := AtWork(n, acts[|before|..]);
      setting.ExplainedFurther(so, k, asked, if ok then None else Some(StepFailed), n, if ok then n else m);
      if ok { setting.ExplainedAnywhere(asked, k, n, m); }
      return if ok then None else Some(StepFailed);
    }

    lemma NothingTakenUp(acts: seq<Act>, depth: nat)
      ensures AllFrom(acts[|acts|..], depth) && TargetsAt(acts[|acts|..], depth) == []
      ensures forall registry :: setting.AllExecutable([], registry) && setting.Targets([], registry) == []
    {
    }

    lemma ActionIsExecutable(actions: seq<Action>, i: nat, registry: Registry)
      requires setting.AllExecutable(actions, registry) && i < |actions|
      ensures Executable(actions[i], registry, services.fold) && setting.AllExecutable(actions[..i + 1], registry)
      ensures setting.AllExecutable(actions[..i], registry)
      ensures ExecutedWith(actions[i], registry, services.fold).Some?
    {
      assert actions[i] in actions;
      setting.AllHaveTargets(actions, registry);
    }

    lemma TargetsArePrefix(actions: seq<Action>, i: nat, registry: Registry)
      requires setting.AllExecutable(actions, registry) && i <= |actions|
      ensures setting.AllExecutable(actions[..i], registry) && setting.Targets(actions[..i], registry) <= setting.Targets(actions, registry)
    {
      setting.AllHaveTargets(actions, registry);
      TargetsOfPrefix(actions, i, registry, services.fold);
    }

    /** One more action was taken up, whatever went on below. */
    lemma OneMoreTakenUp(before: seq<Act>, now: seq<Act>, after: seq<Act>, actions: seq<Action>, i: nat,
                         registry: Registry, depth: nat, n: Id)
      requires before <= now && AllFrom(now[|before|..], depth)
      requires i < |actions| && setting.AllExecutable(actions, registry) && setting.AllExecutable(actions[..i], registry)
      requires TargetsAt(now[|before|..], depth) == setting.Targets(actions[..i], registry)
      requires TookUp(now, after, depth, n, actions[i], registry)
      ensures before <= now <= after && AllFrom(after[|before|..], depth)
      ensures setting.AllExecutable(actions[..i + 1], registry)
      ensures TargetsAt(after[|before|..], depth) == setting.Targets(actions[..i + 1], registry)
      ensures setting.Targets(actions[..i + 1], registry)
           == setting.Targets(actions[..i], registry) + [ExecutedWith(actions[i], registry, services.fold).value]
      ensures AtWork(n, after[|before|..]) == AtWork(n, after[|now|..])
    {
      ActionIsExecutable(actions, i, registry);
      setting.AllHaveTargets(actions[..i + 1], registry);
      var target := ExecutedWith(actions[i], registry, services.fold).value;
      var old_, new_ := now[|before|..], after[|now| + 1..];
      assert after[|before|..] == old_ + [Act(depth, n, target)] + new_;
      TargetsAtConcat(old_ + [Act(depth, n, target)], new_, depth);
      TargetsAtConcat(old_, [Act(depth, n, target)], depth);
      NoneAt(new_, depth);
      assert actions[..i + 1][..i] == actions[..i];
      assert TargetsAt([Act(depth, n, target)], depth) == [target];
    }

    /** The action was taken up with its target, and everything after that happened further down. */
    ghost predicate TookUp(before: seq<Act>, after: seq<Act>, depth: nat, n: Id, action: Action, registry: Registry) {
      var target := ExecutedWith(action, registry, services.fold);
      && target.Some? && before + [Act(depth, n, target.value)] <= after
      && AllFrom(after[|before| + 1..], depth + 1)
    }

    lemma ProductGrows(i: nat, k: nat, cost: nat)
      requires i <= k
      ensures i * cost <= k * cost
    {
      assert (k - i) * cost >= 0;
    }

    lemma SteppedOrFailed(ok: bool)
      ensures Harmless(if ok then None else Some(StepFailed))
    {
    }

    lemma ChildBudget(depth: nat)
      requires depth < deepest
      ensures Budget(depth + 1) == ActionBudget(depth)
    {
    }

    /** The agent case of `executeAgentGraphAction`: the child profile's position picks the child node. */
    method ExecuteChild(n: Id, action: Action, registry: Registry, ids: seq<Id>, depth: nat, ghost trail: seq<Id>)
      returns (err: Option<RunError>)
      requires depth <= maxDepth && ids == Outgoing(graph.edges, n)
      requires (ids != [] ==> depth < maxDepth) && Carries(registry.agents, ids)
      requires action.kind == "agent" && Executable(action, registry, services.fold) && |asked| == invocations
      modifies this
      ensures path == old(path)
      ensures Placed(n, depth, trail) && old(path) == Members(trail + [n]) ==> Harmless(err)
      ensures Placed(n, depth, trail) && maxCalls > 0 ==> invocations <= old(invocations) + ActionBudget(depth)
      ensures TookUp(old(acts), acts, depth, n, action, registry)
      ensures old(asked) <= asked && |asked| == invocations
      ensures err.None? ==>
                setting.OneCarriedOut(old(invocations), invocations,
                                      ExecutedWith(action, registry, services.fold).value, n, depth)
      ensures setting.Explained(asked, old(invocations), err, AtWork(n, acts[|old(acts)|..]))
      decreases maxDepth - depth + 1, 0, 0
    {
      hide Placed, ActionBudget, Budget, Outgoing, Members, Setting.FollowsItsPlan, Setting.Answered, Setting.Fine,
        Setting.Blames;
      ExecutableIsExecutedWith(action, registry, services.fold);
      var index := ChildIndex(registry.agents, action.nodeId);
      if index >= |registry.agents| { return Some(UnknownChild); }
      acts := acts + [Act(depth, n, ToAgent(registry.agents[index]))];
      assert ids[index] in ids;
      if Placed(n, depth, trail) {
        GuardsHold(n, depth, trail);
        ChildBudget(depth);
      }
      ghost var before := acts;
      err := ExecuteNode(ids[index], depth + 1, trail + [n]);
      AtWorkBelow(n, old(acts), before[|before| - 1], acts);
    }

    lemma AtWorkBelow(n: Id, took: seq<Act>, act: Act, after: seq<Act>)
      requires took + [act] <= after && act.target.ToAgent?
      ensures AtWork(n, after[|took|..]) == AtWork(Id(act.target.child.nodeId), after[|took| + 1..])
    {
      var since, below := after[|took|..], after[|took| + 1..];
      assert since[0] == act;
      if below != [] {
        assert since[|since| - 1] == below[|below| - 1];
      } else {
        assert |since| == 1;
      }
    }

    /** `executeAgentGraphAction`: the action is executed with the target its lookup finds. */
    method ExecuteAction(n: Id, action: Action, registry: Registry, ids: seq<Id>, depth: nat, ghost trail: seq<Id>)
      returns (err: Option<RunError>)
      requires depth <= maxDepth && ids == Outgoing(graph.edges, n)
      requires (ids != [] ==> depth < maxDepth) && Carries(registry.agents, ids)
      requires Executable(action, registry, services.fold) && |asked| == invocations
      modifies this
      ensures path == old(path)
      ensures Placed(n, depth, trail) && old(path) == Members(trail + [n]) ==> Harmless(err)
      ensures Placed(n, depth, trail) && maxCalls > 0 ==> invocations <= old(invocations) + ActionBudget(depth)
      ensures TookUp(old(acts), acts, depth, n, action, registry)
      ensures old(asked) <= asked && |asked| == invocations
      ensures err.None? ==>
                setting.OneCarriedOut(old(invocations), invocations,
                                      ExecutedWith(action, registry, services.fold).value, n, depth)
      ensures setting.Explained(asked, old(invocations), err, AtWork(n, acts[|old(acts)|..]))
      decreases maxDepth - depth + 1, 0, 1
    {
      hide Placed, ActionCost, Members, Outgoing, Invocations, Setting.Fine, Setting.Blames, Setting.Answered;
      if Placed(n, depth, trail) {
        GuardsHold(n, depth, trail);
        if maxCalls > 0 { CostsAtLeastOne(maxCalls, deepest - depth); }
      }
      if action.kind == "agent" {
        err := ExecuteChild(n, action, registry, ids, depth, trail);
      } else if action.kind == "tool" {
        var found := FindCapability(registry.tools, WantedTool(action), services.fold);
        if found.None? { return Some(UnknownTool); }
        acts := acts + [Act(depth, n, ToTool(found.value))];
        var ok := InvokeStep(n, Executing(ToTool(found.value)));
        return if ok then None else Some(StepFailed);
      } else if action.kind == "skill" {
        var found := FindCapability(registry.skills, WantedSkill(action), services.fold);
        if found.None? { return Some(UnknownSkill); }
        acts := acts + [Act(depth, n, ToSkill(found.value))];
        var ok := InvokeStep(n, Executing(ToSkill(found.value)));
        return if ok then None else Some(StepFailed);
      } else {
        return Some(UnsupportedAction);
      }
    }
  }

  datatype Failure = GraphInvalid(build: BuildError) | ConfigInvalid(config: ConfigError) | RunFailed(run: RunError)

  /** The setting of a run of a compiled graph. */
  ghost function SettingOf(g: AgentFlow, config: SupervisorConfig, maxDepth: int, services: Services): Setting
    requires Compiles(g)
  {
    Setting(Compiled(g), maxDepth, if config.maxSubAgentCalls == 0 then 5 else config.maxSubAgentCalls, services)
  }

  /**
   `Execute`: once the graph and the configuration are accepted, the run never ends with a
   depth, cycle or unknown-target error, and with a positive call limit k it makes at most
   Invocations(k, d) agent invocations, d being the depth of the graph. It succeeds only if
   the root gave its answer, and it fails only for what the last answer was.
   */
  method Execute(g: AgentFlow, config: SupervisorConfig, services: Services)
    returns (err: Option<Failure>, invocations: nat, maxDepth: int, ghost asked: seq<Asked>)
    ensures err.Some? && err.value.GraphInvalid? <==>
              !(Compiles(g) && forall e :: e in g.edges && e.src in g.nodes ==> !g.nodes[e.src].isExisting)
    ensures err.Some? && err.value.GraphInvalid? ==> Explains(err.value.build, g)
    ensures err.Some? && err.value.ConfigInvalid? ==>
              if TrimSpace(config.agentId) == "" then err.value.config == SupervisorRequired
              else err.value.config == DepthOverLimit && config.maxDepth > 16
    ensures err.None? || err.value.RunFailed? ==>
              && Compiles(g) && GraphDepth(g) <= maxDepth <= 16 && TrimSpace(config.agentId) != ""
              && var k := if config.maxSubAgentCalls == 0 then 5 else config.maxSubAgentCalls;
                 (k > 0 ==> invocations <= Invocations(k, GraphDepth(g)))
    ensures err.None? ==> SettingOf(g, config, maxDepth, services).Answered(0, invocations, Root(g).value, 0)
    ensures err.Some? && err.value.RunFailed? ==>
              && !Guarded(err.value.run) && |asked| == invocations
              && exists m :: SettingOf(g, config, maxDepth, services).Explained(asked, 0, Some(err.value.run), m)
  {
    hide Setting.Explained, Setting.Answered;
    asked := [];
    var invalid := ValidateRuntimeAgentGraph(g);
    if invalid.Some? { return Some(GraphInvalid(invalid.value)), 0, 0, []; }
    var normal := NormalizeConfig(g, config);
    var bad := ValidateConfig(normal);
    if bad.Some? { return Some(ConfigInvalid(bad.value)), 0, 0, []; }
    var built, graph := BuildRuntimeAgentGraph(g);
    if built.Some? { assert false; }
    var runner := new Runner(Setting(graph, normal.maxDepth, normal.maxSubAgentCalls, services), GraphDepth(g));
    forall w | Walk(RelOf(graph.edges), w) && w[0] == graph.root ensures |w| - 1 <= GraphDepth(g) {
      CompiledWalksFit(g, w);
    }
    assert runner.Placed(graph.root, 0, []);
    var failed := runner.ExecuteNode(graph.root, 0, []);
    assert SettingOf(g, config, normal.maxDepth, services) == runner.setting;
    assert runner.setting.Explained(runner.asked, 0, failed, AtWork(graph.root, runner.acts[0..]));
    err := if failed.None? then None else Some(RunFailed(failed.value));
    invocations, maxDepth, asked := runner.invocations, normal.maxDepth, runner.asked;
  }
}
