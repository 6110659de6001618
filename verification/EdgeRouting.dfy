/**
 When a write changes what an edge condition answers. Conditions are evaluated in the middle
 of a merge, so this decides whether batch siblings can influence each other's routing.
 */
module EdgeRouting {
  import opened Text
  import opened JsonValues
  import opened Graphs
  import opened RunContexts

  // ---------- empty segments ----------

  function Compress(parts: seq<string>): (p: seq<string>)
    ensures NoBlank(p) && |p| <= |parts|
  {
    if parts == [] then [] else (if parts[0] == "" then [] else [parts[0]]) + Compress(parts[1..])
  }

  lemma {:induction false} ReadSkipsBlanks(v: Value, parts: seq<string>)
    ensures ReadParts(v, parts) == ReadParts(v, Compress(parts))
    decreases |parts|
  {
    if parts != [] {
      if parts[0] == "" {
        ReadSkipsBlanks(v, parts[1..]);
        assert [] + Compress(parts[1..]) == Compress(parts[1..]);
      } else if v.Obj? && parts[0] in v.fields {
        ReadSkipsBlanks(v.fields[parts[0]], parts[1..]);
        assert Compress(parts)[1..] == Compress(parts[1..]);
      }
    }
  }

  /** Makes every step an object, and sets nothing. */
  function EnsureParts(m: Object, p: seq<string>): Object
    decreases |p|
  {
    if p == [] then m else m[p[0] := Obj(EnsureParts(Child(m, p[0]), p[1..]))]
  }

  lemma {:induction false} LastKept(parts: seq<string>)
    requires parts != [] && parts[|parts| - 1] != ""
    ensures Compress(parts) != []
  {
    if |parts| > 1 { LastKept(parts[1..]); }
  }

  lemma CompressStep(parts: seq<string>)
    requires parts != []
    ensures Compress(parts) == if parts[0] == "" then Compress(parts[1..]) else [parts[0]] + Compress(parts[1..])
  {
  }

  lemma StepsUnfold(m: Object, key: string, p: seq<string>, v: Value)
    requires key != ""
    ensures EnsureParts(m, [key] + p) == m[key := Obj(EnsureParts(Child(m, key), p))]
    ensures p != [] ==> WriteParts(m, [key] + p, v) == m[key := Obj(WriteParts(Child(m, key), p, v))]
    ensures WriteParts(m, [key], v) == m[key := v]
  {
    assert ([key] + p)[1..] == p;
  }

  predicate Sets(parts: seq<string>) { parts != [] && parts[|parts| - 1] != "" }

  /** A path that ends in an empty segment sets nothing; empty segments elsewhere do not matter. */
  lemma {:induction false} WriteSkipsBlanks(m: Object, parts: seq<string>, v: Value)
    ensures WriteParts(m, parts, v)
         == if Sets(parts) then WriteParts(m, Compress(parts), v) else EnsureParts(m, Compress(parts))
    decreases |parts|
  {
    hide Compress, EnsureParts;
    if parts == [] {
      NothingLeft(m);
    } else {
      var key, rest := parts[0], parts[1..];
      CompressStep(parts);
      if rest == [] {
        NothingLeft(m);
        assert parts == [key];
      } else if key == "" {
        WriteSkipsBlanks(m, rest, v);
      } else {
        assert parts == [key] + rest;
        WriteSkipsBlanks(Child(m, key), rest, v);
        StepsUnfold(m, key, rest, v);
        StepsUnfold(m, key, Compress(rest), v);
        if Sets(rest) { LastKept(rest); }
      }
    }
  }

  lemma NothingLeft(m: Object)
    ensures Compress([]) == [] && EnsureParts(m, []) == m
  {
  }

  // ---------- the effect of a write ----------

  /** Every write either sets one location or only makes sure that objects lead to it. */
  datatype Effect = Set(p: seq<string>) | Ensure(p: seq<string>)

  function EffectOf(t: Target): (e: Effect)
    ensures e.Set? && !(t.Domain? && t.key == "") ==> Location(e.p)
  {
    match t
    case Root(rest) => if Sets(rest) then LastKept(rest); Set(Compress(rest)) else Ensure(Compress(rest))
    case Domain(key, rest) => if Sets(rest) then Set([key] + Compress(rest)) else Ensure([key] + Compress(rest))
    case _ => Ensure([])
  }

  function Affect(m: Object, e: Effect, v: Value): Object {
    match e
    case Set(p) => WriteParts(m, p, v)
    case Ensure(p) => EnsureParts(m, p)
  }

  lemma WriteAtHasEffect(ctx: Object, t: Target, v: Value)
    requires t.Domain? ==> t.key != ""
    ensures WriteAt(ctx, t, v) == Affect(ctx, EffectOf(t), v)
  {
    hide Compress, EnsureParts, WriteParts;
    match t
    case Root(rest) => WriteSkipsBlanks(ctx, rest, v);
    case Domain(key, rest) =>
      WriteSkipsBlanks(Child(ctx, key), rest, v);
      StepsUnfold(ctx, key, Compress(rest), v);
      if Sets(rest) { LastKept(rest); }
    case _ => NothingLeft(ctx);
  }

  lemma AimsAtNamedDomains(w: Write)
    ensures Aim(w).Domain? ==> Aim(w).key != ""
  {
  }

  // ---------- reads ----------

  lemma {:induction false} DomainReadsLocation(m: Object, keys: seq<string>, rest: seq<string>)
    requires Location(rest) && NoBlank(keys)
    ensures DomainRead(m, keys, rest) == ReadParts(Obj(m), keys + rest)
    decreases |keys|
  {
    if keys == [] {
      assert keys + rest == rest;
    } else {
      assert (keys + rest)[1..] == keys[1..] + rest && (keys + rest)[0] == keys[0];
      DomainReadsLocation(Child(m, keys[0]), keys[1..], rest);
      if !(keys[0] in m && m[keys[0]].Obj?) { ReadFromScalar(m, keys[0], keys[1..] + rest); }
    }
  }

  lemma ReadFromScalar(m: Object, key: string, rest: seq<string>)
    requires Location(rest) && !(key in m && m[key].Obj?)
    ensures ReadParts(Obj(map[]), rest) == None
    ensures key in m ==> ReadParts(m[key], rest) == None
  {
  }

  lemma {:induction false} DomainReadsObject(m: Object, keys: seq<string>)
    ensures DomainRead(m, keys, []) == Some(Obj(ChildAt(m, keys)))
    decreases |keys|
  {
    if keys != [] { DomainReadsObject(Child(m, keys[0]), keys[1..]); }
  }

  lemma PrefixTail(p: seq<string>, q: seq<string>)
    requires p != [] && q != [] && p[0] == q[0]
    ensures q <= p <==> q[1..] <= p[1..]
  {
    assert q == [q[0]] + q[1..] && p == [p[0]] + p[1..];
  }

  lemma {:induction false} EnsureShowsNotElsewhere(m: Object, p: seq<string>, q: seq<string>)
    requires NoBlank(p) && Location(q) && !(q <= p)
    ensures ReadParts(Obj(EnsureParts(m, p)), q) == ReadParts(Obj(m), q)
    decreases |p|
  {
    if p != [] && p[0] == q[0] {
      PrefixTail(p, q);
      EnsureShowsNotElsewhere(Child(m, p[0]), p[1..], q[1..]);
      if !(p[0] in m && m[p[0]].Obj?) { ReadFromScalar(m, p[0], q[1..]); }
    }
  }

  /** Below its end, and on its way, an ensured or written path reads as objects. */
  lemma {:induction false} WayIsObjects(m: Object, p: seq<string>, v: Value, q: seq<string>)
    requires NoBlank(p) && q <= p
    ensures var r := ReadParts(Obj(EnsureParts(m, p)), q); r.Some? && r.value.Obj?
    ensures q < p ==> var r := ReadParts(Obj(WriteParts(m, p, v)), q); r.Some? && r.value.Obj?
    decreases |p|
  {
    if q != [] {
      assert q[1..] <= p[1..] && p[0] == q[0];
      WayIsObjects(Child(m, p[0]), p[1..], v, q[1..]);
      if q < p { assert |p| > 1 && q[1..] < p[1..]; }
    }
  }

  lemma {:induction false} BelowWriteIsValue(m: Object, p: seq<string>, v: Value, q: seq<string>)
    requires Location(p) && NoBlank(q) && p <= q
    ensures ReadParts(Obj(WriteParts(m, p, v)), q) == ReadParts(v, q[|p|..])
    decreases |p|
  {
    assert q[0] == p[0];
    if |p| > 1 {
      assert p[1..] <= q[1..] && q[1..][|p[1..]|..] == q[|p|..];
      BelowWriteIsValue(Child(m, p[0]), p[1..], v, q[1..]);
    }
  }

  lemma {:induction false} ChildAtAside(m: Object, p: seq<string>, v: Value, keys: seq<string>)
    requires NoBlank(p) && NoBlank(keys)
    ensures Location(p) && Apart(p, keys) ==> ChildAt(WriteParts(m, p, v), keys) == ChildAt(m, keys)
    ensures !(keys < p) ==> ChildAt(EnsureParts(m, p), keys) == ChildAt(m, keys)
    decreases |p|
  {
    hide ChildAt, WriteParts, EnsureParts;
    if p == [] {
      NothingLeft(m);
    } else if keys != [] {
      var key, rest := p[0], p[1..];
      assert p == [key] + rest;
      StepsUnfold(m, key, rest, v);
      ChildAtStep(m, keys);
      ChildAtStep(EnsureParts(m, p), keys);
      ChildAtStep(WriteParts(m, p, v), keys);
      if key == keys[0] {
        PrefixTail(p, keys);
        PrefixTail(keys, p);
        ChildAtAside(Child(m, key), rest, v, keys[1..]);
      } else if rest == [] {
        assert p == [key];
      }
    }
  }

  // ---------- what a condition reads ----------

  predicate ByValue(c: Condition) { c.exists_.None? && c.equals.Some? }

  /** The effect can change what is at a location. */
  predicate Touches(e: Effect, q: seq<string>) {
    match e
    case Set(p) => !Apart(p, q)
    case Ensure(p) => q <= p
  }

  /** The effect can change which entries the domain at keys has. */
  predicate Reshapes(e: Effect, keys: seq<string>) {
    match e
    case Set(p) => !Apart(p, keys)
    case Ensure(p) => keys < p
  }

  /** Whether a read of rest below the domain at keys is safe from an effect. */
  predicate SparedRead(c: Condition, keys: seq<string>, rest: seq<string>, e: Effect) {
    if rest == [] then !ByValue(c) || !Reshapes(e, keys) else !Touches(e, keys + rest)
  }

  /** Whether a condition is safe from a write, by their paths alone. */
  predicate Spared(c: Condition, w: Write) {
    var path := NormalizePath(c.path);
    var parts := Split(path, '.');
    path == "" || parts[0] == "" ||
    match SourceOf(parts[0])
    case FromContext(keys) => SparedRead(c, keys, Compress(parts[1..]), EffectOf(Aim(w)))
    case _ => true
  }

  predicate Holds(c: Condition, found: Option<Value>, render: JsonRender) {
    if c.exists_.Some? then found.Some? == c.exists_.value
    else match found
      case None => false
      case Some(v) =>
        if c.equals.None? then Truthy(v)
        else v == c.equals.value || render(v) == render(c.equals.value)
  }

  lemma ReadBelowContext(c: Condition, s: Snapshot, keys: seq<string>)
    requires var path := NormalizePath(c.path);
             path != "" && Split(path, '.')[0] != "" && SourceOf(Split(path, '.')[0]) == FromContext(keys)
    ensures Read(s, c.path) == DomainRead(s.ctx, keys, Compress(Split(NormalizePath(c.path), '.')[1..]))
  {
    DomainSkipsBlanks(s.ctx, keys, Split(NormalizePath(c.path), '.')[1..]);
  }

  lemma {:induction false} DomainSkipsBlanks(m: Object, keys: seq<string>, rest: seq<string>)
    ensures DomainRead(m, keys, rest) == DomainRead(m, keys, Compress(rest))
    decreases |keys|
  {
    if keys == [] {
      ReadSkipsBlanks(Obj(m), rest);
    } else {
      DomainSkipsBlanks(Child(m, keys[0]), keys[1..], rest);
    }
  }

  /** A spared read answers the same, or is a domain, which always is there and always is true. */
  lemma SparedReadIsSafe(c: Condition, keys: seq<string>, rest: seq<string>, e: Effect, v: Value, m: Object,
                         render: JsonRender)
    requires NoBlank(keys) && NoBlank(rest) && NoBlank(e.p) && (e.Set? ==> e.p != []) && SparedRead(c, keys, rest, e)
    ensures Holds(c, DomainRead(Affect(m, e, v), keys, rest), render) == Holds(c, DomainRead(m, keys, rest), render)
  {
    var after := Affect(m, e, v);
    if rest == [] {
      DomainReadsObject(m, keys);
      DomainReadsObject(after, keys);
      assert keys + rest == keys;
      ChildAtAside(m, e.p, v, keys);
    } else {
      DomainReadsLocation(m, keys, rest);
      DomainReadsLocation(after, keys, rest);
      if e.Set? {
        ReadFrame(m, e.p, v, keys + rest);
      } else {
        EnsureShowsNotElsewhere(m, e.p, keys + rest);
      }
    }
  }

  /** A rendering that tells at most one value from the others. */
  function Showing(shown: Option<Value>): JsonRender {
    (x: Value) => if Some(x) == shown then "it" else ""
  }

  /** A context and a rendering on which an effect that is not spared changes the answer. */
  lemma ReadIsChanged(c: Condition, keys: seq<string>, rest: seq<string>, e: Effect, v: Value)
    returns (m: Object, shown: Option<Value>)
    requires NoBlank(keys) && NoBlank(rest) && NoBlank(e.p) && (e.Set? ==> e.p != []) && !SparedRead(c, keys, rest, e)
    ensures Holds(c, DomainRead(Affect(m, e, v), keys, rest), Showing(shown))
         != Holds(c, DomainRead(m, keys, rest), Showing(shown))
  {
    if rest == [] {
      m, shown := DomainIsChanged(c, keys, e, v);
    } else {
      m := LocationIsChanged(c, keys + rest, e, v);
      shown := None;
      DomainReadsLocation(m, keys, rest);
      DomainReadsLocation(Affect(m, e, v), keys, rest);
    }
  }

  /** What satisfies a condition that asks for something. */
  function Wanted(c: Condition): Value {
    if c.exists_.None? && c.equals.Some? then c.equals.value else Bool(true)
  }

  lemma LocationIsChanged(c: Condition, q: seq<string>, e: Effect, v: Value) returns (m: Object)
    requires Location(q) && NoBlank(e.p) && (e.Set? ==> e.p != [])
    requires Touches(e, q)
    ensures Holds(c, ReadParts(Obj(Affect(m, e, v)), q), Showing(None)) != Holds(c, ReadParts(Obj(m), q), Showing(None))
  {
    m := map[];
    assert ReadParts(Obj(m), q) == None;
    if e.Set? && e.p <= q {
      BelowWriteIsValue(m, e.p, v, q);
      var fixed := ReadParts(v, q[|e.p|..]);
      if Holds(c, fixed, Showing(None)) == Holds(c, None, Showing(None)) {
        m := WriteParts(map[], q, Wanted(c));
        WriteReadsBack(map[], q, Wanted(c));
        BelowWriteIsValue(m, e.p, v, q);
      }
    } else {
      WayIsObjects(m, e.p, v, q);
    }
  }

  lemma DomainIsChanged(c: Condition, keys: seq<string>, e: Effect, v: Value) returns (m: Object, shown: Option<Value>)
    requires NoBlank(keys) && NoBlank(e.p) && (e.Set? ==> e.p != []) && !SparedRead(c, keys, [], e)
    ensures Holds(c, DomainRead(Affect(m, e, v), keys, []), Showing(shown))
         != Holds(c, DomainRead(m, keys, []), Showing(shown))
  {
    assert keys + [] == keys;
    m := ContextToChange(keys, e, v);
    var before, after, wanted := Obj(ChildAt(m, keys)), Obj(ChildAt(Affect(m, e, v), keys)), c.equals.value;
    DomainReadsObject(m, keys);
    DomainReadsObject(Affect(m, e, v), keys);
    shown := Some(if after == wanted then wanted else after);
  }

  lemma ContextToChange(keys: seq<string>, e: Effect, v: Value) returns (m: Object)
    requires NoBlank(keys) && NoBlank(e.p) && (e.Set? ==> e.p != [])
    requires Reshapes(e, keys)
    ensures ChildAt(Affect(m, e, v), keys) != ChildAt(m, keys)
  {
    m := map[];
    ChildAtEmpty(keys);
    if keys < e.p {
      WayIsSeen(e.p, v, keys);
    } else {
      var full: Object := WriteParts(map[], keys, Obj(map["a" := Null]));
      DomainIsReplaced(map[], e.p, v, keys);
      DomainIsReplaced(full, e.p, v, keys);
      DomainIsReplaced(map[], keys, Obj(map["a" := Null]), keys);
      assert keys[|keys|..] == [] && "a" in ChildAt(map["a" := Null], []);
      assert "a" in ChildAt(full, keys);
      if ChildAt(WriteParts(map[], e.p, v), keys) == map[] { m := full; }
    }
  }

  lemma {:induction false} ChildAtEmpty(keys: seq<string>)
    ensures ChildAt(map[], keys) == map[]
  {
    if keys != [] { ChildAtEmpty(keys[1..]); }
  }

  lemma {:induction false} WayIsSeen(p: seq<string>, v: Value, keys: seq<string>)
    requires NoBlank(p) && keys < p
    ensures p[|keys|] in ChildAt(WriteParts(map[], p, v), keys) && p[|keys|] in ChildAt(EnsureParts(map[], p), keys)
    decreases |p|
  {
    if keys != [] {
      assert keys[1..] < p[1..] && p[0] == keys[0] && p[1..][|keys[1..]|] == p[|keys|];
      WayIsSeen(p[1..], v, keys[1..]);
    }
  }

  lemma ChildAtStep(m: Object, keys: seq<string>)
    requires keys != []
    ensures ChildAt(m, keys) == ChildAt(Child(m, keys[0]), keys[1..])
  {
  }

  /** Writing at or above a domain leaves the same there, whatever was there before. */
  lemma {:induction false} DomainIsReplaced(m: Object, p: seq<string>, v: Value, keys: seq<string>)
    requires Location(p) && NoBlank(keys) && p <= keys
    ensures ChildAt(WriteParts(m, p, v), keys) == ChildAt(if v.Obj? then v.fields else map[], keys[|p|..])
    decreases |p|
  {
    hide ChildAt, WriteParts;
    var key, rest := p[0], p[1..];
    assert key == keys[0] && p == [key] + rest && keys[1..][|rest|..] == keys[|p|..];
    ChildAtStep(WriteParts(m, p, v), keys);
    StepsUnfold(m, key, rest, v);
    if rest != [] {
      assert rest <= keys[1..];
      DomainIsReplaced(Child(m, key), rest, v, keys[1..]);
    } else {
      assert p == [key] && keys[|p|..] == keys[1..];
    }
  }

  /** No write of a sibling, whatever it writes and wherever the run is, can change the answer. */
  ghost predicate Undisturbed(c: Condition, w: Write) {
    forall s: Snapshot, render: JsonRender ::
      EdgeMatches(Some(c), s.(ctx := Apply(s.ctx, w)), render) == EdgeMatches(Some(c), s, render)
  }

  /**
   A write can change what an edge condition answers exactly when the paths overlap in the
   way `Spared` rules out; empty segments do not matter, and a domain read for its presence
   or truth is never disturbed.
   */
  lemma UndisturbedExactly(c: Condition, w: Write)
    ensures Undisturbed(c, w) <==> Spared(c, w)
  {
    if Spared(c, w) {
      forall s: Snapshot, render: JsonRender
        ensures EdgeMatches(Some(c), s.(ctx := Apply(s.ctx, w)), render) == EdgeMatches(Some(c), s, render)
      {
        SparedIsUndisturbed(c, w, s, render);
      }
    } else {
      DisturbedAnswer(c, w);
    }
  }

  lemma SparedIsUndisturbed(c: Condition, w: Write, s: Snapshot, render: JsonRender)
    requires Spared(c, w)
    ensures EdgeMatches(Some(c), s.(ctx := Apply(s.ctx, w)), render) == EdgeMatches(Some(c), s, render)
  {
    hide SparedRead, EffectOf, Compress, NormalizePath, Split, Aim, SourceOf;
    var path := NormalizePath(c.path);
    var parts := Split(path, '.');
    if path != "" && parts[0] != "" && SourceOf(parts[0]).FromContext? {
      var keys, after := SourceOf(parts[0]).keys, s.(ctx := Apply(s.ctx, w));
      SourceKeysNotBlank(parts[0]);
      EffectIsNamed(w);
      WriteAtHasEffect(s.ctx, Aim(w), w.value);
      ReadBelowContext(c, s, keys);
      ReadBelowContext(c, after, keys);
      SparedReadIsSafe(c, keys, Compress(parts[1..]), EffectOf(Aim(w)), w.value, s.ctx, render);
      HoldsIsEdgeMatches(c, s, render);
      HoldsIsEdgeMatches(c, after, render);
    }
  }

  lemma DisturbedAnswer(c: Condition, w: Write)
    requires !Spared(c, w)
    ensures !Undisturbed(c, w)
  {
    hide SparedRead, EffectOf, Compress, NormalizePath, Split, Aim, SourceOf;
    var parts := Split(NormalizePath(c.path), '.');
    var keys := SourceOf(parts[0]).keys;
    SourceKeysNotBlank(parts[0]);
    EffectIsNamed(w);
    var m, shown := ReadIsChanged(c, keys, Compress(parts[1..]), EffectOf(Aim(w)), w.value);
    var s, render := Snapshot(map[], m, map[], map[]), Showing(shown);
    var after := s.(ctx := Apply(m, w));
    WriteAtHasEffect(m, Aim(w), w.value);
    ReadBelowContext(c, s, keys);
    ReadBelowContext(c, after, keys);
    HoldsIsEdgeMatches(c, s, render);
    HoldsIsEdgeMatches(c, after, render);
    assert EdgeMatches(Some(c), s.(ctx := Apply(s.ctx, w)), render) != EdgeMatches(Some(c), s, render);
  }

  lemma EffectIsNamed(w: Write)
    ensures Aim(w).Domain? ==> Aim(w).key != ""
    ensures NoBlank(EffectOf(Aim(w)).p) && (EffectOf(Aim(w)).Set? ==> EffectOf(Aim(w)).p != [])
  {
    AimsAtNamedDomains(w);
  }

  lemma HoldsIsEdgeMatches(c: Condition, s: Snapshot, render: JsonRender)
    ensures EdgeMatches(Some(c), s, render) == Holds(c, Read(s, c.path), render)
  {
  }

  /** For a condition on presence or truth the rendering plays no part. */
  lemma PresenceUndisturbedExactly(c: Condition, w: Write, render: JsonRender)
    requires !ByValue(c)
    ensures (forall s: Snapshot ::
               EdgeMatches(Some(c), s.(ctx := Apply(s.ctx, w)), render) == EdgeMatches(Some(c), s, render))
       <==> Spared(c, w)
  {
    hide Spared, Apply;
    UndisturbedExactly(c, w);
    forall s: Snapshot, other: JsonRender ensures EdgeMatches(Some(c), s, other) == EdgeMatches(Some(c), s, render) {
      HoldsIsEdgeMatches(c, s, other);
      HoldsIsEdgeMatches(c, s, render);
    }
  }

  lemma {:induction false} SparedBySiblings(c: Condition, s: Snapshot, others: seq<Write>, render: JsonRender)
    requires forall i :: 0 <= i < |others| ==> Spared(c, others[i])
    ensures EdgeMatches(Some(c), s.(ctx := ApplyAll(s.ctx, others)), render) == EdgeMatches(Some(c), s, render)
    decreases |others|
  {
    hide Spared, EdgeMatches, Apply;
    if others != [] {
      SparedIsUndisturbed(c, others[0], s, render);
      SparedBySiblings(c, s.(ctx := Apply(s.ctx, others[0])), others[1..], render);
      assert s.(ctx := Apply(s.ctx, others[0])).(ctx := ApplyAll(s.ctx, others)) == s.(ctx := ApplyAll(s.ctx, others));
    }
  }

  /**
   Routing does not depend on how far a merge has got: whether the condition is evaluated
   on the node's own writes alone or with any of the siblings' writes merged in between, it
   answers the same, provided it is spared by the siblings' writes.
   */
  lemma RoutingIgnoresSiblings(c: Condition, s: Snapshot, own: seq<Write>, others: seq<Write>,
                               merged: seq<Write>, render: JsonRender)
    requires Mergeable(merged) && multiset(merged) == multiset(own + others)
    requires forall i :: 0 <= i < |others| ==> Spared(c, others[i])
    ensures EdgeMatches(Some(c), s.(ctx := ApplyAll(s.ctx, merged)), render)
         == EdgeMatches(Some(c), s.(ctx := ApplyAll(s.ctx, own)), render)
  {
    hide Spared, EdgeMatches, ApplyAll, Mergeable;
    MergeOrderFree(s.ctx, merged, own + others);
    ApplyAllConcat(s.ctx, own, others);
    SparedBySiblings(c, s.(ctx := ApplyAll(s.ctx, own)), others, render);
  }

  lemma VarsNamesVariables()
    ensures Lower("vars") == "vars" && NamesVariables("vars")
    ensures !NamesInput("vars") && !NamesResponses("vars") && !NamesOutput("vars") && !NamesContext("vars")
  {
  }

  lemma VarsPath(path: string)
    requires NormalizePath(path) == path && path != "" && Split(path, '.') == ["vars", "a"]
    ensures WriteTarget(path) == Domain("variables", ["a"])
    ensures forall s :: Read(s, path) == DomainRead(s.ctx, ["variables"], ["a"])
  {
    VarsNamesVariables();
    assert ["vars", "a"][1..] == ["a"];
    assert "vars" != "responses" && "vars" != "response";
  }

  lemma VarsWriteRead(v: Value)
    ensures DomainRead(WriteAt(map[], Domain("variables", ["a"]), v), ["variables"], ["a"]) == Some(v)
    ensures DomainRead(map[], ["variables"], ["a"]) == None
  {
    var m := WriteAt(map[], Domain("variables", ["a"]), v);
    assert Child(m, "variables") == map["a" := v];
    assert ["variables"][1..] == [] && ["a"][1..] == [];
    assert DomainRead(m, ["variables"], ["a"]) == DomainRead(Child(m, "variables"), [], ["a"]);
    assert ReadParts(Obj(map["a" := v]), ["a"]) == ReadParts(v, []);
    assert DomainRead(map[], ["variables"], ["a"]) == DomainRead(map[], [], ["a"]);
  }

  /** A condition on what a sibling writes does depend on the order: it is read in the middle of the merge. */
  lemma SiblingWriteChangesRouting(render: JsonRender)
    ensures var c := Condition("vars.a", None, None);
            var s := Snapshot(map[], map[], map[], map[]);
            var w := PathWrite(false, "vars.a", Bool(true));
            EdgeMatches(Some(c), s.(ctx := ApplyAll(s.ctx, [w])), render)
            != EdgeMatches(Some(c), s.(ctx := ApplyAll(s.ctx, [])), render)
  {
    hide NormalizePath, Split, WriteAt, DomainRead, WriteTarget, Trimmed, TrimSpace, Lower;
    var path := "vars.a";
    assert Trimmed(path) by { PlainIsTrimmed(path); }
    NormalizeKeepsPlain(path);
    assert path == "vars" + ['.'] + "a";
    SplitStep("vars", '.', "a");
    SplitStep("a", '.', "");
    assert ["vars"] + ["a"] == ["vars", "a"];
    VarsPath(path);
    VarsWriteRead(Bool(true));
    var w := PathWrite(false, path, Bool(true));
    assert ApplyAll(map[], [w]) == ApplyAll(Apply(map[], w), [w][1..]) == Apply(map[], w);
  }
}
