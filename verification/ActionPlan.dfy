/**
 Planned agent actions: normalisation, filtering against the registry, and the lookups that
 resolve an action to a tool, a skill or a child agent, both when filtering and when executing.
 */
module ActionPlan {
  import opened Sequences
  import opened Text

  datatype Action = Action(
    kind: string, id: string, nodeId: string, agentId: string, toolId: string, skillId: string,
    name: string, task: string, reason: string)

  datatype AgentSpec = AgentSpec(nodeId: string, agentId: string, name: string)

  /** A tool or a skill. */
  datatype Capability = Capability(id: string, name: string)

  datatype Registry = Registry(agents: seq<AgentSpec>, tools: seq<Capability>, skills: seq<Capability>)

  /** strings.EqualFold compares what this maps names to. */
  type Fold = string -> string

  predicate Blank(s: string) { TrimSpace(s) == "" }

  // ---------- normalisation ----------

  function TrimFields(a: Action): Action {
    Action(Lower(TrimSpace(a.kind)), TrimSpace(a.id), TrimSpace(a.nodeId), TrimSpace(a.agentId),
           TrimSpace(a.toolId), TrimSpace(a.skillId), TrimSpace(a.name), TrimSpace(a.task), TrimSpace(a.reason))
  }

  function GuessKind(a: Action): Action {
    if a.kind != "" then a
    else if !Blank(a.nodeId) || !Blank(a.agentId) then a.(kind := "agent")
    else if !Blank(a.toolId) then a.(kind := "tool")
    else if !Blank(a.skillId) then a.(kind := "skill")
    else a
  }

  function FillId(a: Action): Action {
    if !Blank(a.id) then a
    else if a.kind == "agent" then a.(id := a.agentId)
    else if a.kind == "tool" then a.(id := a.toolId)
    else if a.kind == "skill" then a.(id := a.skillId)
    else a
  }

  /** `NormalizeAction` */
  function Normalize(a: Action): Action {
    FillId(GuessKind(TrimFields(a)))
  }

  // ---------- lookups ----------

  /** The fields of an action that name a tool or a skill. */
  datatype Wanted = Wanted(key: string, id: string, name: string)

  predicate Names(c: Capability, w: Wanted, fold: Fold) {
    || (!Blank(w.key) && c.id == w.key)
    || (!Blank(w.id) && c.id == w.id)
    || (w.name != "" && fold(c.name) == fold(w.name))
  }

  /** The first capability an action names; the number of capabilities if there is none. */
  function Find(cs: seq<Capability>, w: Wanted, fold: Fold): (i: nat)
    ensures i <= |cs|
    ensures i < |cs| ==> Names(cs[i], w, fold)
    ensures forall j :: 0 <= j < i ==> !Names(cs[j], w, fold)
  {
    if cs == [] || Names(cs[0], w, fold) then 0
    else
      var rest := Find(cs[1..], w, fold);
      assert forall j :: 1 <= j < 1 + rest ==> cs[j] == cs[1..][j - 1];
      1 + rest
  }

  /** `FindToolAction` and `FindSkillAction` */
  method FindCapability(cs: seq<Capability>, w: Wanted, fold: Fold) returns (found: Option<Capability>)
    ensures found == if Find(cs, w, fold) < |cs| then Some(cs[Find(cs, w, fold)]) else None
  {
    for i := 0 to |cs|
      invariant forall j :: 0 <= j < i ==> !Names(cs[j], w, fold)
    {
      if Names(cs[i], w, fold) { return Some(cs[i]); }
    }
    return None;
  }

  /** What filtering writes back into the action once it has resolved it. */
  function Resolved(w: Wanted, c: Capability): Wanted {
    Wanted(c.id, if Blank(w.id) then c.id else w.id, if w.name == "" then c.name else w.name)
  }

  /** An earlier capability that the resolved action also names. */
  predicate Rival(other: Capability, c: Capability, w: Wanted, fold: Fold) {
    || (!Blank(c.id) && other.id == c.id)
    || (w.name == "" && c.name != "" && fold(other.name) == fold(c.name))
  }

  /**
   A resolved action still resolves, so execution never finds its capability unknown; and
   it resolves to the capability it was filtered to exactly when no earlier one has the
   same id, or, for an action without a name, the same name up to case.
   */
  lemma ResolvesAgainExactly(cs: seq<Capability>, w: Wanted, fold: Fold)
    requires Find(cs, w, fold) < |cs|
    ensures var i := Find(cs, w, fold);
            var again := Find(cs, Resolved(w, cs[i]), fold);
            && again <= i
            && (again == i <==> forall j :: 0 <= j < i ==> !Rival(cs[j], cs[i], w, fold))
  {
  }

  /** Two tools whose names differ in case only: an unnamed action for the second is executed with the first. */
  lemma CaseVariantsResolveDifferently(fold: Fold)
    requires fold("search") == fold("Search")
    ensures var cs := [Capability("t1", "Search"), Capability("t2", "search")];
            var w := Wanted("t2", "t2", "");
            Find(cs, w, fold) == 1 && Find(cs, Resolved(w, cs[1]), fold) == 0
  {
  }

  datatype WantedAgent = WantedAgent(nodeId: string, agentId: string, id: string, name: string)

  predicate NamesAgent(s: AgentSpec, w: WantedAgent, fold: Fold) {
    || (!Blank(w.nodeId) && s.nodeId == w.nodeId)
    || (!Blank(w.agentId) && s.agentId == w.agentId)
    || (!Blank(w.id) && s.agentId == w.id)
    || (w.name != "" && fold(s.name) == fold(w.name))
  }

  function FindAgent(agents: seq<AgentSpec>, w: WantedAgent, fold: Fold): (i: nat)
    ensures i <= |agents|
    ensures i < |agents| ==> NamesAgent(agents[i], w, fold)
    ensures forall j :: 0 <= j < i ==> !NamesAgent(agents[j], w, fold)
  {
    if agents == [] || NamesAgent(agents[0], w, fold) then 0
    else
      var rest := FindAgent(agents[1..], w, fold);
      assert forall j :: 1 <= j < 1 + rest ==> agents[j] == agents[1..][j - 1];
      1 + rest
  }

  method FindAgentAction(agents: seq<AgentSpec>, w: WantedAgent, fold: Fold) returns (found: Option<AgentSpec>)
    ensures found == if FindAgent(agents, w, fold) < |agents| then Some(agents[FindAgent(agents, w, fold)]) else None
  {
    for i := 0 to |agents|
      invariant forall j :: 0 <= j < i ==> !NamesAgent(agents[j], w, fold)
    {
      if NamesAgent(agents[i], w, fold) { return Some(agents[i]); }
    }
    return None;
  }

  // ---------- filtering ----------

  function WantedTool(a: Action): Wanted { Wanted(a.toolId, a.id, a.name) }

  function WantedSkill(a: Action): Wanted { Wanted(a.skillId, a.id, a.name) }

  function WantedChild(a: Action): WantedAgent { WantedAgent(a.nodeId, a.agentId, a.id, a.name) }

  function OrElse(s: string, fallback: string): string { if Blank(s) then fallback else s }

  function NameOrElse(s: string, fallback: string): string { if s == "" then fallback else s }

  /** One normalised action, completed from what it resolves to; None when it is dropped. */
  function Enrich(a: Action, r: Registry, fold: Fold): Option<Action> {
    if a.kind == "agent" then
      var i := FindAgent(r.agents, WantedChild(a), fold);
      if i == |r.agents| || TrimSpace(a.task) == "" then None
      else
        var s := r.agents[i];
        Some(a.(nodeId := s.nodeId, agentId := s.agentId, id := OrElse(a.id, s.agentId), name := NameOrElse(a.name, s.name)))
    else if a.kind == "tool" then
      var i := Find(r.tools, WantedTool(a), fold);
      if i == |r.tools| then None
      else Some(a.(toolId := r.tools[i].id, id := OrElse(a.id, r.tools[i].id), name := NameOrElse(a.name, r.tools[i].name)))
    else if a.kind == "skill" then
      var i := Find(r.skills, WantedSkill(a), fold);
      if i == |r.skills| || TrimSpace(a.task) == "" then None
      else Some(a.(skillId := r.skills[i].id, id := OrElse(a.id, r.skills[i].id), name := NameOrElse(a.name, r.skills[i].name)))
    else None
  }

  /** All actions of a plan that survive, in plan order. */
  function Kept(actions: seq<Action>, r: Registry, fold: Fold): seq<Action> {
    if actions == [] then []
    else
      var front := Kept(actions[..|actions| - 1], r, fold);
      match Enrich(Normalize(actions[|actions| - 1]), r, fold)
      case Some(a) => front + [a]
      case None => front
  }

  function Capped(actions: seq<Action>, maxActions: int): seq<Action> {
    if maxActions > 0 && |actions| > maxActions then actions[..maxActions] else actions
  }

  method Resolve(a: Action, r: Registry, fold: Fold) returns (kept: Option<Action>)
    ensures kept == Enrich(a, r, fold)
  {
    if a.kind == "agent" {
      var found := FindAgentAction(r.agents, WantedChild(a), fold);
      if found.None? || TrimSpace(a.task) == "" { return None; }
      var s := found.value;
      return Some(a.(nodeId := s.nodeId, agentId := s.agentId,
                     id := OrElse(a.id, s.agentId), name := NameOrElse(a.name, s.name)));
    }
    if a.kind == "tool" {
      var found := FindCapability(r.tools, WantedTool(a), fold);
      if found.None? { return None; }
      return Some(a.(toolId := found.value.id, id := OrElse(a.id, found.value.id), name := NameOrElse(a.name, found.value.name)));
    }
    if a.kind == "skill" {
      var found := FindCapability(r.skills, WantedSkill(a), fold);
      if found.None? || TrimSpace(a.task) == "" { return None; }
      return Some(a.(skillId := found.value.id, id := OrElse(a.id, found.value.id), name := NameOrElse(a.name, found.value.name)));
    }
    return None;
  }

  /**
   `FilterActionPlan` keeps, in order, the actions that mean something registered, completed
   from it, up to the first maxActions of them.
   */
  method FilterActionPlan(actions: seq<Action>, r: Registry, maxActions: int, fold: Fold) returns (result: seq<Action>)
    ensures result == Capped(Kept(actions, r, fold), maxActions)
    ensures FilteredUpTo(actions, result, maxActions, r, fold)
  {
    hide Enrich, Normalize, FilteredUpTo;
    CappedIsFiltered(actions, r, maxActions, fold);
    result := [];
    for i := 0 to |actions|
      invariant result == Kept(actions[..i], r, fold)
      invariant maxActions > 0 ==> |result| < maxActions
    {
      KeptGrows(actions, i, r, fold);
      var kept := Resolve(Normalize(actions[i]), r, fold);
      if kept.Some? {
        result := result + [kept.value];
        if maxActions > 0 && |result| >= maxActions {
          KeptPrefix(actions, i + 1, r, fold);
          return;
        }
      }
    }
    assert actions[..|actions|] == actions;
  }

  lemma KeptGrows(actions: seq<Action>, i: nat, r: Registry, fold: Fold)
    requires i < |actions|
    ensures Kept(actions[..i + 1], r, fold)
         == Kept(actions[..i], r, fold) + match Enrich(Normalize(actions[i]), r, fold) case Some(a) => [a] case None => []
  {
    assert actions[..i + 1][..i] == actions[..i];
    var front := Kept(actions[..i], r, fold);
    assert front + [] == front;
  }

  lemma {:induction false} KeptPrefix(actions: seq<Action>, i: nat, r: Registry, fold: Fold)
    requires i <= |actions|
    ensures Kept(actions[..i], r, fold) <= Kept(actions, r, fold)
    decreases |actions| - i
  {
    if i == |actions| {
      assert actions[..i] == actions;
    } else {
      KeptGrows(actions, i, r, fold);
      KeptPrefix(actions, i + 1, r, fold);
    }
  }

  // ---------- the filter told on the fields of an action ----------

  /** The kind an action states, or else the one its references suggest. */
  ghost function KindOf(a: Action): string {
    var kind := Lower(TrimSpace(a.kind));
    if kind != "" then kind
    else if TrimSpace(a.nodeId) != "" || TrimSpace(a.agentId) != "" then "agent"
    else if TrimSpace(a.toolId) != "" then "tool"
    else if TrimSpace(a.skillId) != "" then "skill" else ""
  }

  /** The id an action states, or else its reference to an agent, a tool or a skill, by its kind. */
  ghost function IdOf(a: Action): string {
    if TrimSpace(a.id) != "" then TrimSpace(a.id)
    else if KindOf(a) == "agent" then TrimSpace(a.agentId)
    else if KindOf(a) == "tool" then TrimSpace(a.toolId)
    else if KindOf(a) == "skill" then TrimSpace(a.skillId) else ""
  }

  /** The action means this child: by node, by agent, by id or by name. */
  ghost predicate MeansAgent(a: Action, s: AgentSpec, fold: Fold) {
    || (TrimSpace(a.nodeId) != "" && s.nodeId == TrimSpace(a.nodeId))
    || (TrimSpace(a.agentId) != "" && s.agentId == TrimSpace(a.agentId))
    || (IdOf(a) != "" && s.agentId == IdOf(a))
    || (TrimSpace(a.name) != "" && fold(s.name) == fold(TrimSpace(a.name)))
  }

  /** The action means this tool or skill: by the reference of its kind, by id or by name. */
  ghost predicate MeansCapability(a: Action, reference: string, c: Capability, fold: Fold) {
    || (TrimSpace(reference) != "" && c.id == TrimSpace(reference))
    || (IdOf(a) != "" && c.id == IdOf(a))
    || (TrimSpace(a.name) != "" && fold(c.name) == fold(TrimSpace(a.name)))
  }

  ghost predicate FirstAgent(a: Action, agents: seq<AgentSpec>, i: int, fold: Fold) {
    0 <= i < |agents| && MeansAgent(a, agents[i], fold) && forall j :: 0 <= j < i ==> !MeansAgent(a, agents[j], fold)
  }

  ghost predicate FirstCapability(a: Action, reference: string, cs: seq<Capability>, i: int, fold: Fold) {
    && 0 <= i < |cs| && MeansCapability(a, reference, cs[i], fold)
    && forall j :: 0 <= j < i ==> !MeansCapability(a, reference, cs[j], fold)
  }

  /** The action with all fields trimmed, and what it leaves open filled in from what it means. */
  ghost function Completed(a: Action, id: string, name: string): Action {
    Action(KindOf(a), if IdOf(a) == "" then id else IdOf(a), TrimSpace(a.nodeId), TrimSpace(a.agentId),
           TrimSpace(a.toolId), TrimSpace(a.skillId), if TrimSpace(a.name) == "" then name else TrimSpace(a.name),
           TrimSpace(a.task), TrimSpace(a.reason))
  }

  ghost function ForAgent(a: Action, s: AgentSpec): Action {
    Completed(a, s.agentId, s.name).(nodeId := s.nodeId, agentId := s.agentId)
  }

  ghost function ForTool(a: Action, c: Capability): Action { Completed(a, c.id, c.name).(toolId := c.id) }

  ghost function ForSkill(a: Action, c: Capability): Action { Completed(a, c.id, c.name).(skillId := c.id) }

  /**
   The action is kept, as b: it means a registered child, tool or skill, the first one of
   which counts, and an action for a child or a skill brings a task.
   */
  ghost predicate Becomes(a: Action, b: Action, r: Registry, fold: Fold) {
    if KindOf(a) == "agent" then
      TrimSpace(a.task) != "" && exists i :: FirstAgent(a, r.agents, i, fold) && b == ForAgent(a, r.agents[i])
    else if KindOf(a) == "tool" then
      exists i :: FirstCapability(a, a.toolId, r.tools, i, fold) && b == ForTool(a, r.tools[i])
    else if KindOf(a) == "skill" then
      TrimSpace(a.task) != "" && exists i :: FirstCapability(a, a.skillId, r.skills, i, fold) && b == ForSkill(a, r.skills[i])
    else false
  }

  lemma NormalizeTold(a: Action)
    ensures Normalize(a) == Action(KindOf(a), IdOf(a), TrimSpace(a.nodeId), TrimSpace(a.agentId), TrimSpace(a.toolId),
                                   TrimSpace(a.skillId), TrimSpace(a.name), TrimSpace(a.task), TrimSpace(a.reason))
  {
    TrimmingTrims(a);
    TrimmedIsBlankOnlyIfEmpty(TrimSpace(a.id));
    TrimmedIsBlankOnlyIfEmpty(TrimSpace(a.nodeId));
    TrimmedIsBlankOnlyIfEmpty(TrimSpace(a.agentId));
    TrimmedIsBlankOnlyIfEmpty(TrimSpace(a.toolId));
    TrimmedIsBlankOnlyIfEmpty(TrimSpace(a.skillId));
    hide TrimSpace, Lower, Blank, Trimmed;
  }

  lemma TrimmedIsBlankOnlyIfEmpty(s: string)
    requires Trimmed(s)
    ensures Blank(s) <==> s == ""
  {
    TrimSpaceTrims(s);
  }

  lemma NormalFields(a: Action)
    ensures var n := Normalize(a);
            && n == Action(KindOf(a), IdOf(a), TrimSpace(a.nodeId), TrimSpace(a.agentId), TrimSpace(a.toolId),
                           TrimSpace(a.skillId), TrimSpace(a.name), TrimSpace(a.task), TrimSpace(a.reason))
            && (Blank(n.id) <==> n.id == "") && (Blank(n.nodeId) <==> n.nodeId == "")
            && (Blank(n.agentId) <==> n.agentId == "") && (Blank(n.toolId) <==> n.toolId == "")
            && (Blank(n.skillId) <==> n.skillId == "") && TrimSpace(n.task) == n.task
  {
    NormalizeTold(a);
    NormalizedIsTrimmed(a);
    var n := Normalize(a);
    hide Normalize, Trimmed, Blank, TrimSpace, KindOf, IdOf;
    TrimmedIsBlankOnlyIfEmpty(n.id);
    TrimmedIsBlankOnlyIfEmpty(n.nodeId);
    TrimmedIsBlankOnlyIfEmpty(n.agentId);
    TrimmedIsBlankOnlyIfEmpty(n.toolId);
    TrimmedIsBlankOnlyIfEmpty(n.skillId);
    TrimSpaceTrims(n.task);
  }

  lemma KeptAgentExactly(a: Action, r: Registry, fold: Fold, b: Action)
    requires KindOf(a) == "agent"
    ensures Enrich(Normalize(a), r, fold) == Some(b) <==> Becomes(a, b, r, fold)
  {
    NormalFields(a);
    hide Normalize, Blank, TrimSpace, KindOf, IdOf;
    var n := Normalize(a);
    forall s: AgentSpec ensures NamesAgent(s, WantedChild(n), fold) <==> MeansAgent(a, s, fold) {
    }
  }

  lemma KeptToolExactly(a: Action, r: Registry, fold: Fold, b: Action)
    requires KindOf(a) == "tool"
    ensures Enrich(Normalize(a), r, fold) == Some(b) <==> Becomes(a, b, r, fold)
  {
    NormalFields(a);
    hide Normalize, Blank, TrimSpace, KindOf, IdOf;
    var n := Normalize(a);
    forall c: Capability ensures Names(c, WantedTool(n), fold) <==> MeansCapability(a, a.toolId, c, fold) {
    }
  }

  lemma KeptSkillExactly(a: Action, r: Registry, fold: Fold, b: Action)
    requires KindOf(a) == "skill"
    ensures Enrich(Normalize(a), r, fold) == Some(b) <==> Becomes(a, b, r, fold)
  {
    NormalFields(a);
    hide Normalize, Blank, TrimSpace, KindOf, IdOf;
    var n := Normalize(a);
    forall c: Capability ensures Names(c, WantedSkill(n), fold) <==> MeansCapability(a, a.skillId, c, fold) {
    }
  }

  /** The filter keeps exactly the actions that mean something registered, completed from what they mean. */
  lemma KeptExactly(a: Action, r: Registry, fold: Fold, b: Action)
    ensures Enrich(Normalize(a), r, fold) == Some(b) <==> Becomes(a, b, r, fold)
  {
    hide Normalize, KindOf, IdOf;
    if KindOf(a) == "agent" {
      KeptAgentExactly(a, r, fold, b);
    } else if KindOf(a) == "tool" {
      KeptToolExactly(a, r, fold, b);
    } else if KindOf(a) == "skill" {
      KeptSkillExactly(a, r, fold, b);
    } else {
      NormalizeTold(a);
    }
  }

  /** Every kept action is what an action of the plan becomes, in order, and the others become nothing. */
  lemma {:induction false} KeptIsGiven(actions: seq<Action>, r: Registry, fold: Fold)
    ensures GivenBy(actions, Kept(actions, r, fold), (a: Action, b: Action) => Becomes(a, b, r, fold))
  {
    hide Becomes, Enrich, Normalize;
    var gives := (a: Action, b: Action) => Becomes(a, b, r, fold);
    if actions == [] {
      NothingGiven(gives);
    } else {
      var front, a := actions[..|actions| - 1], actions[|actions| - 1];
      KeptIsGiven(front, r, fold);
      assert front + [a] == actions;
      forall b ensures Enrich(Normalize(a), r, fold) == Some(b) <==> gives(a, b) {
        KeptExactly(a, r, fold, b);
      }
      if Enrich(Normalize(a), r, fold).Some? {
        OneMoreGiven(front, Kept(front, r, fold), gives, a, Enrich(Normalize(a), r, fold).value);
      } else {
        NoneMoreGiven(front, Kept(front, r, fold), gives, a);
      }
    }
  }

  /** A plan filtered up to a cap: the first kept actions, or all of them where there is no cap. */
  ghost predicate FilteredUpTo(actions: seq<Action>, result: seq<Action>, maxActions: int, r: Registry, fold: Fold) {
    exists kept :: GivenBy(actions, kept, (a: Action, b: Action) => Becomes(a, b, r, fold))
                   && FirstOf(result, kept, maxActions)
  }

  ghost predicate FirstOf(result: seq<Action>, kept: seq<Action>, maxActions: int) {
    && result <= kept && (maxActions <= 0 || |kept| <= maxActions ==> result == kept)
    && (0 < maxActions < |kept| ==> |result| == maxActions)
  }

  lemma CappedIsFiltered(actions: seq<Action>, r: Registry, maxActions: int, fold: Fold)
    ensures FilteredUpTo(actions, Capped(Kept(actions, r, fold), maxActions), maxActions, r, fold)
  {
    hide Kept;
    KeptIsGiven(actions, r, fold);
    assert FirstOf(Capped(Kept(actions, r, fold), maxActions), Kept(actions, r, fold), maxActions);
  }

  // ---------- kept actions at execution ----------

  /** `childByNodeID` */
  function ChildIndex(children: seq<AgentSpec>, nodeId: string): (i: nat)
    ensures i <= |children|
    ensures i < |children| ==> children[i].nodeId == nodeId
    ensures forall j :: 0 <= j < i ==> children[j].nodeId != nodeId
  {
    if children == [] || children[0].nodeId == nodeId then 0
    else
      var rest := ChildIndex(children[1..], nodeId);
      assert forall j :: 1 <= j < |children| ==> children[j] == children[1..][j - 1];
      1 + rest
  }

  /** `childByNodeID` succeeds. */
  ghost predicate HasChild(agents: seq<AgentSpec>, nodeId: string) {
    exists s :: s in agents && s.nodeId == nodeId
  }

  /** The executor's lookup of a kept action succeeds. */
  ghost predicate Executable(a: Action, r: Registry, fold: Fold) {
    || (a.kind == "agent" && HasChild(r.agents, a.nodeId))
    || (a.kind == "tool" && Find(r.tools, WantedTool(a), fold) < |r.tools|)
    || (a.kind == "skill" && Find(r.skills, WantedSkill(a), fold) < |r.skills|)
  }

  lemma EnrichedIsExecutable(a: Action, r: Registry, fold: Fold)
    requires Enrich(a, r, fold).Some?
    ensures Executable(Enrich(a, r, fold).value, r, fold)
  {
  }

  lemma {:induction false} KeptComesFrom(actions: seq<Action>, r: Registry, fold: Fold, b: Action)
    requires b in Kept(actions, r, fold)
    ensures exists a :: a in actions && Enrich(Normalize(a), r, fold) == Some(b)
  {
    var k := |actions| - 1;
    KeptGrows(actions, k, r, fold);
    assert actions[..k + 1] == actions;
    if b in Kept(actions[..k], r, fold) {
      KeptComesFrom(actions[..k], r, fold, b);
      var a :| a in actions[..k] && Enrich(Normalize(a), r, fold) == Some(b);
      assert a in actions;
    } else {
      assert actions[k] in actions;
    }
  }

  /** For any registry, executing a filtered plan never meets an unknown child, tool or skill. */
  lemma FilteredPlanIsExecutable(actions: seq<Action>, r: Registry, maxActions: int, fold: Fold, b: Action)
    requires b in Capped(Kept(actions, r, fold), maxActions)
    ensures Executable(b, r, fold)
  {
    assert b in Kept(actions, r, fold);
    KeptComesFrom(actions, r, fold, b);
    var a :| a in actions && Enrich(Normalize(a), r, fold) == Some(b);
    EnrichedIsExecutable(Normalize(a), r, fold);
  }

  // ---------- what is executed is what was filtered ----------

  /** What an action is executed with. */
  datatype Target = ToAgent(child: AgentSpec) | ToTool(tool: Capability) | ToSkill(skill: Capability)

  /** What the filter resolves a normalised action to. */
  function FilteredTo(a: Action, r: Registry, fold: Fold): Option<Target> {
    if a.kind == "agent" then
      var i := FindAgent(r.agents, WantedChild(a), fold);
      if i < |r.agents| then Some(ToAgent(r.agents[i])) else None
    else if a.kind == "tool" then
      var i := Find(r.tools, WantedTool(a), fold);
      if i < |r.tools| then Some(ToTool(r.tools[i])) else None
    else if a.kind == "skill" then
      var i := Find(r.skills, WantedSkill(a), fold);
      if i < |r.skills| then Some(ToSkill(r.skills[i])) else None
    else None
  }

  /** What the executor resolves a kept action to: children by node, the others looked up again. */
  function ExecutedWith(b: Action, r: Registry, fold: Fold): Option<Target> {
    if b.kind == "agent" then
      var i := ChildIndex(r.agents, b.nodeId);
      if i < |r.agents| then Some(ToAgent(r.agents[i])) else None
    else if b.kind == "tool" then
      var i := Find(r.tools, WantedTool(b), fold);
      if i < |r.tools| then Some(ToTool(r.tools[i])) else None
    else if b.kind == "skill" then
      var i := Find(r.skills, WantedSkill(b), fold);
      if i < |r.skills| then Some(ToSkill(r.skills[i])) else None
    else None
  }

  lemma ExecutableIsExecutedWith(b: Action, r: Registry, fold: Fold)
    ensures Executable(b, r, fold) <==> ExecutedWith(b, r, fold).Some?
  {
    if b.kind == "agent" && ChildIndex(r.agents, b.nodeId) < |r.agents| {
      assert r.agents[ChildIndex(r.agents, b.nodeId)] in r.agents;
    }
  }

  /** No earlier spec would be found in place of the one the filter found. */
  ghost predicate NoRival(a: Action, r: Registry, fold: Fold)
    requires FilteredTo(a, r, fold).Some?
  {
    if a.kind == "agent" then
      var i := FindAgent(r.agents, WantedChild(a), fold);
      forall j :: 0 <= j < i ==> r.agents[j].nodeId != r.agents[i].nodeId
    else if a.kind == "tool" then
      var i := Find(r.tools, WantedTool(a), fold);
      forall j :: 0 <= j < i ==> !Rival(r.tools[j], r.tools[i], WantedTool(a), fold)
    else
      var i := Find(r.skills, WantedSkill(a), fold);
      forall j :: 0 <= j < i ==> !Rival(r.skills[j], r.skills[i], WantedSkill(a), fold)
  }

  /** The place of the spec found, in filtering and in executing. */
  function FilteredAt(a: Action, r: Registry, fold: Fold): nat {
    if a.kind == "agent" then FindAgent(r.agents, WantedChild(a), fold)
    else if a.kind == "tool" then Find(r.tools, WantedTool(a), fold)
    else Find(r.skills, WantedSkill(a), fold)
  }

  function ExecutedAt(b: Action, r: Registry, fold: Fold): nat {
    if b.kind == "agent" then ChildIndex(r.agents, b.nodeId)
    else if b.kind == "tool" then Find(r.tools, WantedTool(b), fold)
    else Find(r.skills, WantedSkill(b), fold)
  }

  /** A kept action is executed with the very spec it was filtered to exactly when that spec has no earlier rival. */
  lemma KeptTargetExactly(a: Action, r: Registry, fold: Fold)
    requires Enrich(a, r, fold).Some?
    ensures FilteredTo(a, r, fold).Some?
    ensures ExecutedAt(Enrich(a, r, fold).value, r, fold) == FilteredAt(a, r, fold) <==> NoRival(a, r, fold)
  {
    var b := Enrich(a, r, fold).value;
    if a.kind == "tool" {
      ResolvesAgainExactly(r.tools, WantedTool(a), fold);
      assert WantedTool(b) == Resolved(WantedTool(a), r.tools[FilteredAt(a, r, fold)]);
    } else if a.kind == "skill" {
      ResolvesAgainExactly(r.skills, WantedSkill(a), fold);
      assert WantedSkill(b) == Resolved(WantedSkill(a), r.skills[FilteredAt(a, r, fold)]);
    }
  }

  lemma TidyHasNoRivals(a: Action, r: Registry, fold: Fold)
    requires TidyRegistry(r, fold) && Enrich(a, r, fold).Some?
    ensures FilteredTo(a, r, fold).Some? && NoRival(a, r, fold)
  {
    hide Blank, Trimmed;
    KeptTargetExactly(a, r, fold);
  }

  /** On a tidy registry every kept action of a plan is executed with the spec its source action was filtered to. */
  lemma KeptActionsKeepTheirTargets(actions: seq<Action>, r: Registry, maxActions: int, fold: Fold, b: Action)
    requires TidyRegistry(r, fold) && b in Capped(Kept(actions, r, fold), maxActions)
    ensures exists a :: a in actions && Enrich(Normalize(a), r, fold) == Some(b)
              && ExecutedWith(b, r, fold) == FilteredTo(Normalize(a), r, fold) != None
  {
    hide Enrich, Normalize, Find, FindAgent, ChildIndex, TidyRegistry, NoRival;
    assert b in Kept(actions, r, fold);
    KeptComesFrom(actions, r, fold, b);
    var a :| a in actions && Enrich(Normalize(a), r, fold) == Some(b);
    TidyHasNoRivals(Normalize(a), r, fold);
    KeptTargetExactly(Normalize(a), r, fold);
    EnrichKeepsKind(Normalize(a), r, fold);
  }

  lemma EnrichKeepsKind(a: Action, r: Registry, fold: Fold)
    requires Enrich(a, r, fold).Some?
    ensures Enrich(a, r, fold).value.kind == a.kind && a.kind in {"agent", "tool", "skill"}
  {
  }

  // ---------- filtering twice ----------

  /** Ids and names without surrounding space, and no two alike (names up to case). */
  ghost predicate Tidy(cs: seq<Capability>, fold: Fold) {
    && (forall i :: 0 <= i < |cs| ==> Trimmed(cs[i].id) && Trimmed(cs[i].name))
    && (forall i, j :: 0 <= i < j < |cs| ==> cs[i].id != cs[j].id && fold(cs[i].name) != fold(cs[j].name))
  }

  ghost predicate TidyAgents(agents: seq<AgentSpec>, fold: Fold) {
    && (forall i :: 0 <= i < |agents| ==>
          Trimmed(agents[i].nodeId) && Trimmed(agents[i].agentId) && Trimmed(agents[i].name))
    && (forall i, j :: 0 <= i < j < |agents| ==>
          && agents[i].nodeId != agents[j].nodeId && agents[i].agentId != agents[j].agentId
          && fold(agents[i].name) != fold(agents[j].name))
  }

  /** Among tidy capabilities a resolved action resolves to the same one again. */
  lemma TidyResolvesToSame(cs: seq<Capability>, w: Wanted, fold: Fold)
    requires Tidy(cs, fold) && Find(cs, w, fold) < |cs|
    ensures Find(cs, Resolved(w, cs[Find(cs, w, fold)]), fold) == Find(cs, w, fold)
  {
  }

  lemma TidyAgentResolvesToSame(agents: seq<AgentSpec>, w: WantedAgent, fold: Fold)
    requires TidyAgents(agents, fold) && FindAgent(agents, w, fold) < |agents|
    ensures var i := FindAgent(agents, w, fold);
            var s := agents[i];
            FindAgent(agents, WantedAgent(s.nodeId, s.agentId, OrElse(w.id, s.agentId), NameOrElse(w.name, s.name)), fold) == i
  {
  }

  ghost predicate TrimmedFields(a: Action) {
    && Trimmed(a.id) && Trimmed(a.nodeId) && Trimmed(a.agentId) && Trimmed(a.toolId) && Trimmed(a.skillId)
    && Trimmed(a.name) && Trimmed(a.task) && Trimmed(a.reason)
  }

  ghost predicate Clean(a: Action) {
    a.kind in {"agent", "tool", "skill"} && TrimmedFields(a)
  }

  lemma KindIsPlain(kind: string)
    requires kind in {"agent", "tool", "skill"}
    ensures Lower(TrimSpace(kind)) == kind
  {
  }

  lemma CleanIsTrimmed(a: Action)
    requires Clean(a)
    ensures TrimFields(a) == a
  {
    KindIsPlain(a.kind);
    TrimSpaceTrims(a.id);
    TrimSpaceTrims(a.nodeId);
    TrimSpaceTrims(a.agentId);
    TrimSpaceTrims(a.toolId);
    TrimSpaceTrims(a.skillId);
    TrimSpaceTrims(a.name);
    TrimSpaceTrims(a.task);
    TrimSpaceTrims(a.reason);
  }

  lemma TrimmingTrims(a: Action)
    ensures TrimmedFields(TrimFields(a))
  {
    TrimSpaceTrims(a.id);
    TrimSpaceTrims(a.nodeId);
    TrimSpaceTrims(a.agentId);
    TrimSpaceTrims(a.toolId);
    TrimSpaceTrims(a.skillId);
    TrimSpaceTrims(a.name);
    TrimSpaceTrims(a.task);
    TrimSpaceTrims(a.reason);
  }

  ghost predicate TidyRegistry(r: Registry, fold: Fold) {
    TidyAgents(r.agents, fold) && Tidy(r.tools, fold) && Tidy(r.skills, fold)
  }

  lemma NormalizedIsTrimmed(a: Action)
    ensures TrimmedFields(Normalize(a))
  {
    TrimmingTrims(a);
    hide Trimmed, TrimFields, Lower, TrimSpace, Blank;
  }

  lemma EnrichedIsClean(n: Action, r: Registry, fold: Fold)
    requires TidyRegistry(r, fold) && TrimmedFields(n) && Enrich(n, r, fold).Some?
    ensures Clean(Enrich(n, r, fold).value)
  {
  }

  /** The id is filled in from the resolved reference, so normalisation has nothing to fill in. */
  ghost predicate Filled(b: Action) {
    Blank(b.id) ==> b.id == if b.kind == "agent" then b.agentId else if b.kind == "tool" then b.toolId else b.skillId
  }

  lemma CleanAndFilledIsNormal(b: Action)
    requires Clean(b) && Filled(b)
    ensures Normalize(b) == b
  {
    CleanIsTrimmed(b);
    assert b.kind != "";
    assert GuessKind(b) == b;
  }

  lemma EnrichAgentAgain(n: Action, r: Registry, fold: Fold)
    requires TidyAgents(r.agents, fold) && n.kind == "agent" && Enrich(n, r, fold).Some?
    ensures var b := Enrich(n, r, fold).value; Filled(b) && Enrich(b, r, fold) == Some(b)
  {
    TidyAgentResolvesToSame(r.agents, WantedChild(n), fold);
  }

  lemma EnrichToolAgain(n: Action, r: Registry, fold: Fold)
    requires Tidy(r.tools, fold) && n.kind == "tool" && Enrich(n, r, fold).Some?
    ensures var b := Enrich(n, r, fold).value; Filled(b) && Enrich(b, r, fold) == Some(b)
  {
    TidyResolvesToSame(r.tools, WantedTool(n), fold);
    assert WantedTool(Enrich(n, r, fold).value) == Resolved(WantedTool(n), r.tools[Find(r.tools, WantedTool(n), fold)]);
  }

  lemma EnrichSkillAgain(n: Action, r: Registry, fold: Fold)
    requires Tidy(r.skills, fold) && n.kind == "skill" && Enrich(n, r, fold).Some?
    ensures var b := Enrich(n, r, fold).value; Filled(b) && Enrich(b, r, fold) == Some(b)
  {
    TidyResolvesToSame(r.skills, WantedSkill(n), fold);
    assert WantedSkill(Enrich(n, r, fold).value) == Resolved(WantedSkill(n), r.skills[Find(r.skills, WantedSkill(n), fold)]);
  }

  lemma EnrichedKind(n: Action, r: Registry, fold: Fold)
    requires Enrich(n, r, fold).Some?
    ensures n.kind in {"agent", "tool", "skill"}
  {
  }

  /** A kept action is kept as it is: normalising and resolving it again change nothing. */
  lemma EnrichIsStable(a: Action, r: Registry, fold: Fold)
    requires TidyRegistry(r, fold) && Enrich(Normalize(a), r, fold).Some?
    ensures var b := Enrich(Normalize(a), r, fold).value;
            Normalize(b) == b && Enrich(b, r, fold) == Some(b)
  {
    hide Enrich, Normalize, Clean, Filled, Tidy, TidyAgents;
    var n := Normalize(a);
    NormalizedIsTrimmed(a);
    EnrichedIsClean(n, r, fold);
    EnrichedKind(n, r, fold);
    if n.kind == "agent" {
      EnrichAgentAgain(n, r, fold);
    } else if n.kind == "tool" {
      EnrichToolAgain(n, r, fold);
    } else {
      EnrichSkillAgain(n, r, fold);
    }
    CleanAndFilledIsNormal(Enrich(n, r, fold).value);
  }

  lemma {:induction false} KeptOfStable(bs: seq<Action>, r: Registry, fold: Fold)
    requires forall b :: b in bs ==> Normalize(b) == b && Enrich(b, r, fold) == Some(b)
    ensures Kept(bs, r, fold) == bs
  {
    hide Enrich, Normalize;
    if bs != [] {
      var k := |bs| - 1;
      KeptOfStable(bs[..k], r, fold);
      assert bs[k] in bs && bs == bs[..k] + [bs[k]];
    }
  }

  /** Filtering a filtered plan changes nothing. */
  lemma FilterIsIdempotent(actions: seq<Action>, r: Registry, maxActions: int, fold: Fold)
    requires TidyRegistry(r, fold)
    ensures var once := Capped(Kept(actions, r, fold), maxActions);
            Capped(Kept(once, r, fold), maxActions) == once
  {
    var once := Capped(Kept(actions, r, fold), maxActions);
    forall b | b in once ensures Normalize(b) == b && Enrich(b, r, fold) == Some(b) {
      assert b in Kept(actions, r, fold);
      KeptComesFrom(actions, r, fold, b);
      var a :| a in actions && Enrich(Normalize(a), r, fold) == Some(b);
      EnrichIsStable(a, r, fold);
    }
    KeptOfStable(once, r, fold);
  }
}
