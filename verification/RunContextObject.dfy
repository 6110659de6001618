/**
 The run context object: its maps lie on the heap and are written in place, along paths. Every
 write is proved to leave what `RunContexts` says of the value that the maps spell out.
 */
module RunContextObjects {
  import opened Text
  import opened JsonValues
  import opened Graphs
  import opened Containers
  import opened RunContexts
  import opened WritePaths
  import DeepCopy

  predicate Refusal(t: Target) { t.InputReadOnly? || t.ResponsesReadOnly? || t.FieldRequired? }

  class RunContext {
    var input: GoMap
    var ctx: GoMap
    var vars: GoMap
    var last: GoMap
    // What the maps spell out; the containers of ctx, which lie in one place each; the other containers.
    ghost var view: Snapshot
    ghost var at: Layout
    ghost var others: set<object>

    ghost predicate Valid()
      reads this, at.Keys, others
    {
      && this !in at && this !in others && at.Keys !! others
      && Located(MapRef(ctx), Obj(view.ctx), at, [])
      && Denotes(MapRef(input), Obj(view.input), others)
      && Denotes(MapRef(vars), Obj(view.vars), others)
      && Denotes(MapRef(last), Obj(view.last), others)
    }

    ghost function View(): Snapshot
      reads this
    {
      view
    }

    constructor (input: GoMap, ctx: GoMap, vars: GoMap, last: GoMap,
                 ghost view: Snapshot, ghost at: Layout, ghost others: set<object>)
      requires at.Keys !! others
      requires Located(MapRef(ctx), Obj(view.ctx), at, [])
      requires Denotes(MapRef(input), Obj(view.input), others)
      requires Denotes(MapRef(vars), Obj(view.vars), others)
      requires Denotes(MapRef(last), Obj(view.last), others)
      ensures Valid() && View() == view && this.at == at && this.others == others
    {
      this.input, this.ctx, this.vars, this.last := input, ctx, vars, last;
      this.view, this.at, this.others := view, at, others;
    }

    /** `ensureDomainMap` */
    method EnsureDomainMap(key: string) returns (domain: GoMap)
      requires Valid() && key != ""
      modifies `view, `at, at.Keys
      ensures Valid() && View() == old(View()).(ctx := Entered(old(View().ctx), [], key))
      ensures Leads(ctx, [key], domain, at.Keys)
      ensures old(at.Keys) <= at.Keys && fresh(at.Keys - old(at.Keys))
    {
      hide Located, Denotes, Leads, Entered;
      LeadsToItself(ctx, view.ctx, at, []);
      ghost var now;
      domain, now := Enter(ctx, ctx, key, [], view.ctx, at, []);
      at, view := now, view.(ctx := Entered(view.ctx, [], key));
      assert [] + [key] == [key];
    }

    /** Nothing of a written value is part of the context yet. */
    ghost predicate Foreign(written: Layout)
      reads this
    {
      written.Keys !! at.Keys && written.Keys !! others && this !in written
    }

    /** The `writeParts` that every accepted write ends with. */
    method Store(domain: GoMap, parts: seq<string>, value: Any,
                 ghost keys: seq<string>, ghost v: Value, ghost written: Layout, ghost from: seq<Step>)
      requires Valid() && Leads(ctx, keys, domain, at.Keys) && NoBlank(keys)
      requires Located(value, v, written, from) && Foreign(written)
      modifies `view, `at, at.Keys
      ensures Valid() && View() == old(View()).(ctx := WriteParts(old(View().ctx), keys + [""] + parts, v))
      ensures old(at.Keys) <= at.Keys && fresh(at.Keys - old(at.Keys) - written.Keys)
    {
      hide Located, Denotes, Leads, WriteParts;
      ghost var now := WritePath(ctx, domain, parts, value, keys, view.ctx, at, [], v, written, from);
      at, view := now, view.(ctx := WriteParts(view.ctx, keys + [""] + parts, v));
    }

    /**
     `Write`: a refused write changes nothing. A path without blank segments is refused, or
     lands, as its segments say, and reads back by itself when it is a path that does.
     */
    method Write(path: string, value: Any, ghost v: Value, ghost written: Layout, ghost from: seq<Step>)
      returns (refused: bool)
      requires Valid() && Located(value, v, written, from) && Foreign(written)
      modifies `view, `at, at.Keys
      ensures Valid() && View() == old(View()).(ctx := WriteAt(old(View().ctx), WriteTarget(path), v))
      ensures refused <==> Refusal(WriteTarget(path))
      ensures refused ==> View() == old(View())
      ensures NormalizePath(path) == "" ==> !refused && View() == old(View())
      ensures var parts := Split(NormalizePath(path), '.');
              NoBlank(parts) ==>
                && (refused <==> Refused(parts))
                && Written(parts, old(View().ctx), View().ctx, v)
                && (ReadsItself(parts) ==> Read(View(), path) == Some(v))
      ensures old(at.Keys) <= at.Keys && fresh(at.Keys - old(at.Keys) - written.Keys)
    {
      hide Valid, Located, Leads, WriteParts, Entered, NormalizePath, Split, Lower, Foreign, Refused, Written, ReadsItself,
        Read;
      WriteByInputs(view, path, v);
      var p := NormalizePath(path);
      if p == "" { return false; }
      var parts := Split(p, '.');
      var head := Lower(parts[0]);
      if NamesInput(head) { return true; }
      if NamesResponses(head) { return true; }
      if NamesOutput(head) {
        if |parts| < 2 { return true; }
        WriteDomain("flow_output", parts[1..], value, v, written, from);
        return false;
      }
      if NamesVariables(head) {
        if |parts| < 2 { return true; }
        WriteDomain("variables", parts[1..], value, v, written, from);
        return false;
      }
      if NamesContext(head) {
        if |parts| < 2 { return true; }
        var field := Lower(parts[1]);
        if NamesInput(field) { return true; }
        if NamesResponses(field) { return true; }
        if NamesOutput(field) {
          WriteDomain("flow_output", parts[2..], value, v, written, from);
        } else if NamesVariables(field) {
          WriteDomain("variables", parts[2..], value, v, written, from);
        } else {
          WriteRoot(parts[1..], value, v, written, from);
        }
        return false;
      }
      WriteRoot(parts, value, v, written, from);
      return false;
    }

    method WriteDomain(key: string, rest: seq<string>, value: Any,
                       ghost v: Value, ghost written: Layout, ghost from: seq<Step>)
      requires Valid() && key != "" && Located(value, v, written, from) && Foreign(written)
      modifies `view, `at, at.Keys
      ensures Valid() && View() == old(View()).(ctx := WriteAt(old(View().ctx), Domain(key, rest), v))
      ensures old(at.Keys) <= at.Keys && fresh(at.Keys - old(at.Keys) - written.Keys)
    {
      hide Located, Denotes, Leads, WriteParts, Entered;
      DomainWrite(view.ctx, key, rest, v);
      var domain := EnsureDomainMap(key);
      Store(domain, rest, value, [key], v, written, from);
    }

    method WriteRoot(rest: seq<string>, value: Any, ghost v: Value, ghost written: Layout, ghost from: seq<Step>)
      requires Valid() && Located(value, v, written, from) && Foreign(written)
      modifies `view, `at, at.Keys
      ensures Valid() && View() == old(View()).(ctx := WriteAt(old(View().ctx), Root(rest), v))
      ensures old(at.Keys) <= at.Keys && fresh(at.Keys - old(at.Keys) - written.Keys)
    {
      hide Located, Leads, WriteParts;
      LeadsToItself(ctx, view.ctx, at, []);
      BlankStep(view.ctx, [], rest, v);
      assert [] + [""] + rest == [""] + rest && [] + rest == rest;
      RootWrite(view.ctx, rest, v);
      Store(ctx, rest, value, [], v, written, from);
    }

    /** `writeSystem`: like `Write`, except that a named entry below `responses` may be written. */
    method WriteSystem(path: string, value: Any, ghost v: Value, ghost written: Layout, ghost from: seq<Step>)
      returns (refused: bool)
      requires Valid() && Located(value, v, written, from) && Foreign(written)
      modifies `view, `at, at.Keys
      ensures Valid() && View() == old(View()).(ctx := WriteAt(old(View().ctx), SystemTarget(path), v))
      ensures refused <==> Refusal(SystemTarget(path))
      ensures var parts, again := Split(NormalizePath(path), '.'), Split(NormalizePath(NormalizePath(path)), '.');
              NoBlank(parts) && NoBlank(again) ==>
                if |parts| >= 3 && Lower(parts[0]) == "responses"
                then !refused && LandsAt(old(View().ctx), View().ctx, ["responses"] + parts[1..], v)
                else (refused <==> Refused(again)) && Written(again, old(View().ctx), View().ctx, v)
      ensures old(at.Keys) <= at.Keys && fresh(at.Keys - old(at.Keys) - written.Keys)
    {
      hide Valid, Located, Foreign, WriteAt, WriteTarget, NormalizePath, Split, Lower, Refused, Written, ReadsItself, Read,
        LandsAt;
      SystemWriteByInputs(view.ctx, path, v);
      var p := NormalizePath(path);
      var parts := Split(p, '.');
      if |parts| < 3 || Lower(parts[0]) != "responses" {
        refused := Write(p, value, v, written, from);
      } else {
        WriteDomain("responses", parts[1..], value, v, written, from);
        refused := false;
      }
    }

    /** Writes every entry of a map, in the order Go happens to iterate it. */
    method WriteEntries(system: bool, entries: Object) returns (ghost order: seq<Write>)
      requires Valid()
      modifies `view, `at, at.Keys
      ensures Valid() && View() == old(View()).(ctx := ApplyAll(old(View().ctx), order))
      ensures multiset(order) == multiset(WritesOf(system, entries))
      ensures fresh(at.Keys - old(at.Keys))
    {
      hide Valid, Located, WriteAt, WriteTarget, SystemTarget, ApplyAll, WritesOf;
      order := [];
      var remaining := entries;
      NothingApplied(view.ctx, system);
      while remaining != map[]
        invariant Valid() && View() == old(View()).(ctx := ApplyAll(old(View().ctx), order))
        invariant multiset(WritesOf(system, entries)) == multiset(order) + multiset(WritesOf(system, remaining))
        invariant fresh(at.Keys - old(at.Keys))
        decreases |remaining|
      {
        var path :| path in remaining;
        ghost var w := PathWrite(system, path, remaining[path]);
        OneMoreApplied(old(View().ctx), order, w);
        EntryTaken(system, remaining, path);
        var value, written := Build(remaining[path], []);
        ForeignToAll(written);
        if system {
          var _ := WriteSystem(path, value, remaining[path], written, []);
        } else {
          var _ := Write(path, value, remaining[path], written, []);
        }
        order := order + [w];
        remaining := remaining - {path};
      }
    }

    lemma ForeignToAll(written: Layout)
      requires Valid() && this !in written && written.Keys !! at.Keys && written.Keys !! others
      ensures Foreign(written)
    {
    }

    /** A snapshot of the values, as node executors and edge conditions see them. */
    method Take() returns (s: Snapshot)
      requires Valid()
      ensures s == View()
    {
      LocatedDenotes(MapRef(ctx), Obj(view.ctx), at, []);
      var i := ValueOf(MapRef(input), Obj(view.input), others);
      var c := ValueOf(MapRef(ctx), Obj(view.ctx), at.Keys);
      var v := ValueOf(MapRef(vars), Obj(view.vars), others);
      var l := ValueOf(MapRef(last), Obj(view.last), others);
      s := Snapshot(i.fields, c.fields, v.fields, l.fields);
    }

    /** `WithNodeResult`: a new context, of new containers; the receiver keeps its own. */
    method WithNodeResult(node: Id, result: NodeResult) returns (next: RunContext, ghost order: seq<Write>)
      requires Valid()
      ensures next.Valid() && fresh(next) && fresh(next.at.Keys) && fresh(next.others)
      ensures WritesInSomeOrder(order, result)
      ensures next.View() == Merged(View(), node, result, order)
      ensures next.View().last == map["node_id" := Str(node.name), "output" := Obj(result.output)]
      ensures next.View() == View().(ctx := ApplyAll(View().ctx, order), last := next.View().last)
    {
      LastIs(node, result);
      hide Located, Denotes, WritesOf, WritesInSomeOrder, ApplyAll, LastOf;
      next := CopyWithLast(node, result);
      ghost var own := next.WriteEntries(false, result.contextWrites);
      ghost var responses := next.WriteEntries(true, result.responseWrites);
      order := own + responses;
      ApplyAllConcat(view.ctx, own, responses);
      ConcatInSomeOrder(own, responses, result);
    }

    method CopyWithLast(node: Id, result: NodeResult) returns (next: RunContext)
      requires Valid()
      ensures next.Valid() && fresh(next) && fresh(next.at.Keys) && fresh(next.others)
      ensures next.View() == View().(last := LastOf(node, result))
    {
      hide Located, Denotes, LastOf;
      LocatedDenotes(MapRef(ctx), Obj(view.ctx), at, []);
      var i, inputs := DeepCopy.CloneMap(input, Obj(view.input), others, []);
      var c, places := DeepCopy.CloneMap(ctx, Obj(view.ctx), at.Keys, []);
      var v, variables := DeepCopy.CloneMap(vars, Obj(view.vars), others, []);
      var l, lasts := BuildMap(LastOf(node, result), []);
      ghost var rest := inputs.Keys + variables.Keys + lasts.Keys;
      SpellsOut(i, view.input, inputs, rest);
      SpellsOut(v, view.vars, variables, rest);
      SpellsOut(l, LastOf(node, result), lasts, rest);
      next := new RunContext(i, c, v, l, view.(last := LastOf(node, result)), places, rest);
    }
  }

  lemma LastIs(node: Id, result: NodeResult)
    ensures LastOf(node, result) == map["node_id" := Str(node.name), "output" := Obj(result.output)]
  {
  }

  lemma ConcatInSomeOrder(own: seq<Write>, responses: seq<Write>, result: NodeResult)
    requires multiset(own) == multiset(WritesOf(false, result.contextWrites))
    requires multiset(responses) == multiset(WritesOf(true, result.responseWrites))
    ensures WritesInSomeOrder(own + responses, result)
  {
    var order := own + responses;
    assert order[..|own|] == own && order[|own|..] == responses;
  }

  lemma NothingApplied(ctx: Object, system: bool)
    ensures ApplyAll(ctx, []) == ctx && WritesOf(system, map[]) == {}
  {
  }

  lemma OneMoreApplied(ctx: Object, order: seq<Write>, w: Write)
    ensures ApplyAll(ctx, order + [w]) == WriteAt(ApplyAll(ctx, order), Aim(w), w.value)
  {
    ApplyAllConcat(ctx, order, [w]);
    assert ApplyAll(ApplyAll(ctx, order), [w]) == ApplyAll(Apply(ApplyAll(ctx, order), w), []);
  }

  lemma WriteByInputs(s: Snapshot, path: string, v: Value)
    ensures var parts, after := Split(NormalizePath(path), '.'), WriteAt(s.ctx, WriteTarget(path), v);
            NoBlank(parts) ==>
              && (Refusal(WriteTarget(path)) <==> Refused(parts))
              && Written(parts, s.ctx, after, v)
              && (ReadsItself(parts) ==> Read(s.(ctx := after), path) == Some(v))
  {
    hide Split, NormalizePath, TargetOf, Refused, Written, ReadsItself, Read, WriteAt;
    var parts := Split(NormalizePath(path), '.');
    if NoBlank(parts) {
      NamedIsNotEmpty(path);
      WriteMeans(path, s.ctx, v);
      TargetMeans(parts, s.ctx, v);
      TargetKinds(parts);
      if ReadsItself(parts) { ReadsItselfBack(s, path, v); }
    }
  }

  lemma SystemWriteByInputs(ctx: Object, path: string, v: Value)
    ensures var parts, again := Split(NormalizePath(path), '.'), Split(NormalizePath(NormalizePath(path)), '.');
            var after := WriteAt(ctx, SystemTarget(path), v);
            NoBlank(parts) && NoBlank(again) ==>
              if |parts| >= 3 && Lower(parts[0]) == "responses"
              then !Refusal(SystemTarget(path)) && LandsAt(ctx, after, ["responses"] + parts[1..], v)
              else (Refusal(SystemTarget(path)) <==> Refused(again)) && Written(again, ctx, after, v)
  {
    hide Split, NormalizePath, TargetOf, Refused, Written, WriteAt, LandsAt;
    var parts, again := Split(NormalizePath(path), '.'), Split(NormalizePath(NormalizePath(path)), '.');
    if NoBlank(parts) && NoBlank(again) {
      NamedIsNotEmpty(NormalizePath(path));
      SystemWriteMeans(path, ctx, v);
      TargetMeans(again, ctx, v);
      TargetKinds(again);
    }
  }

  lemma TargetKinds(parts: seq<string>)
    requires parts != []
    ensures Refusal(TargetOf(parts)) <==> !Places(TargetOf(parts))
  {
  }

  lemma DomainWrite(ctx: Object, key: string, rest: seq<string>, v: Value)
    requires key != ""
    ensures WriteParts(Entered(ctx, [], key), [key] + [""] + rest, v) == WriteAt(ctx, Domain(key, rest), v)
  {
    var entered := Entered(ctx, [], key);
    assert entered == WriteParts(ctx, [key], Obj(map[])) || entered == ctx;
    assert [] + [key] == [key];
    assert key in entered && entered[key].Obj?;
    assert ([key] + [""] + rest)[1..] == [""] + rest && ([""] + rest)[1..] == rest;
  }

  lemma RootWrite(ctx: Object, rest: seq<string>, v: Value)
    ensures WriteParts(ctx, [""] + rest, v) == WriteAt(ctx, Root(rest), v)
  {
    assert ([""] + rest)[1..] == rest;
  }
}
