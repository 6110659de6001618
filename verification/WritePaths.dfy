/**
 What the paths of the run context mean, told on their segments: where a write by each of the
 path forms lands, where a read by each of them looks, and which paths read back what was
 written by them.
 */
module WritePaths {
  import opened Text
  import opened JsonValues
  import opened RunContexts

  /** A path may be wrapped in white space and begin with a dollar sign and a dot. */
  lemma PathForms(a: string, mark: string, q: string, b: string)
    requires mark == "" || mark == "$" || mark == "." || mark == "$."
    requires q != [] && Trimmed(q) && q[0] != '$' && q[0] != '.'
    requires forall c :: c in a || c in b ==> IsSpace(c)
    ensures NormalizePath(a + mark + q + b) == q
  {
    hide TrimSpace;
    var t := mark + q;
    assert a + mark + q + b == a + t + b;
    assert t[|t| - 1] == q[|q| - 1];
    TrimSpaceExactly(a, t, b);
    assert TrimPrefix(t, "$") == (if mark == "$" || mark == "" then q else "." + q);
  }

  // ---------- where a write lands ----------

  /** The value reads back at the location; the other top-level keys and every location apart read as before. */
  ghost predicate LandsAt(before: Object, after: Object, at: seq<string>, v: Value)
    requires at != []
  {
    && ReadParts(Obj(after), at) == Some(v)
    && (forall key: string :: key != at[0] ==>
          (key in after <==> key in before) && (key in before ==> after[key] == before[key]))
    && (forall q :: Location(q) && Apart(at, q) ==> ReadParts(Obj(after), q) == ReadParts(Obj(before), q))
  }

  lemma WriteLands(before: Object, at: seq<string>, v: Value)
    requires Location(at)
    ensures LandsAt(before, WriteParts(before, at, v), at, v)
  {
    WriteReadsBack(before, at, v);
    forall q | Location(q) && Apart(at, q)
      ensures ReadParts(Obj(WriteParts(before, at, v)), q) == ReadParts(Obj(before), q)
    {
      ReadFrame(before, at, v, q);
    }
  }

  /** What a write below one of the two writable domains does; without a field it only makes the domain an object. */
  ghost predicate LandsBelow(before: Object, after: Object, key: string, rest: seq<string>, v: Value) {
    if rest == [] then after == before[key := Obj(if key in before && before[key].Obj? then before[key].fields else map[])]
    else LandsAt(before, after, [key] + rest, v)
  }

  const INPUT_NAMES := ["input", "flow_input"]
  const RESPONSE_NAMES := ["responses", "response", "connector_response", "connector_responses", "tool_response",
                           "tool_responses"]
  const OUTPUT_NAMES := ["flow_output", "output"]
  const VARIABLE_NAMES := ["vars", "variables", "runtime"]
  const CONTEXT_NAMES := ["ctx", "context"]

  /** The input and the responses are read-only under all their names, and a domain alone is no place to write. */
  ghost predicate Refused(parts: seq<string>)
    requires parts != []
  {
    var head := Lower(parts[0]);
    || head in INPUT_NAMES || head in RESPONSE_NAMES
    || (|parts| == 1 && (head in OUTPUT_NAMES || head in VARIABLE_NAMES || head in CONTEXT_NAMES))
    || (|parts| > 1 && head in CONTEXT_NAMES && (Lower(parts[1]) in INPUT_NAMES || Lower(parts[1]) in RESPONSE_NAMES))
  }

  /** Where a write that is not refused leaves its value, by the names its path begins with. */
  ghost predicate Written(parts: seq<string>, before: Object, after: Object, v: Value)
    requires parts != []
  {
    var head := Lower(parts[0]);
    if Refused(parts) then after == before
    else if head in OUTPUT_NAMES then LandsBelow(before, after, "flow_output", parts[1..], v)
    else if head in VARIABLE_NAMES then LandsBelow(before, after, "variables", parts[1..], v)
    else if head !in CONTEXT_NAMES then LandsAt(before, after, parts, v)
    else
      var field := Lower(parts[1]);
      if field in OUTPUT_NAMES then LandsBelow(before, after, "flow_output", parts[2..], v)
      else if field in VARIABLE_NAMES then LandsBelow(before, after, "variables", parts[2..], v)
      else LandsAt(before, after, parts[1..], v)
  }

  /**
   A path without blank segments: `output.x` lands in `flow_output`, `vars.x` and `runtime.x`
   in `variables`, both also below `ctx`, and any other path at the location it spells.
   */
  lemma WriteMeans(path: string, ctx: Object, v: Value)
    requires NoBlank(Split(NormalizePath(path), '.'))
    ensures var parts := Split(NormalizePath(path), '.');
            Written(parts, ctx, WriteAt(ctx, WriteTarget(path), v), v)
  {
    hide Split, NormalizePath, Lower, WriteParts, ReadParts, LandsAt;
    var p := NormalizePath(path);
    var parts := Split(p, '.');
    NamedIsNotEmpty(path);
    TargetMeans(parts, ctx, v);
  }

  lemma NamesMean(s: string)
    ensures NamesInput(s) <==> s in INPUT_NAMES
    ensures NamesResponses(s) <==> s in RESPONSE_NAMES
    ensures NamesOutput(s) <==> s in OUTPUT_NAMES
    ensures NamesVariables(s) <==> s in VARIABLE_NAMES
    ensures NamesContext(s) <==> s in CONTEXT_NAMES
  {
  }

  lemma NamesDiffer(s: string)
    ensures s in OUTPUT_NAMES ==> s !in VARIABLE_NAMES && s !in CONTEXT_NAMES
    ensures s in VARIABLE_NAMES ==> s !in CONTEXT_NAMES
    ensures s in OUTPUT_NAMES || s in VARIABLE_NAMES || s in CONTEXT_NAMES ==> s !in INPUT_NAMES && s !in RESPONSE_NAMES
  {
  }

  lemma TargetMeans(parts: seq<string>, ctx: Object, v: Value)
    requires parts != [] && NoBlank(parts)
    ensures Written(parts, ctx, WriteAt(ctx, TargetOf(parts), v), v)
    ensures Refused(parts) <==> !Places(TargetOf(parts))
  {
    hide Lower, LandsAt, LandsBelow, NamesInput, NamesResponses, NamesOutput, NamesVariables, NamesContext,
      INPUT_NAMES, RESPONSE_NAMES, OUTPUT_NAMES, VARIABLE_NAMES, CONTEXT_NAMES, WriteParts;
    NamesMean(Lower(parts[0]));
    NamesDiffer(Lower(parts[0]));
    if |parts| > 1 { NamesMean(Lower(parts[1])); }
    assert NoBlank(parts[1..]) && (|parts| > 1 ==> NoBlank(parts[2..]));
    var t := TargetOf(parts);
    if t.Root? {
      WriteLands(ctx, t.rest, v);
    } else if t.Domain? {
      DomainLands(ctx, t.key, t.rest, v);
    }
  }

  lemma DomainLands(ctx: Object, key: string, rest: seq<string>, v: Value)
    requires key != "" && NoBlank(rest)
    ensures LandsBelow(ctx, WriteAt(ctx, Domain(key, rest), v), key, rest, v)
  {
    hide LandsAt;
    if rest != [] {
      BelowFirstKey(ctx, key, rest, v);
      WriteLands(ctx, [key] + rest, v);
    }
  }

  lemma NamedIsNotEmpty(path: string)
    ensures NoBlank(Split(NormalizePath(path), '.')) ==> NormalizePath(path) != ""
  {
    hide NormalizePath;
    if NormalizePath(path) == "" { assert Split(NormalizePath(path), '.')[0] == ""; }
  }

  /** `writeSystem`: three segments or more that begin with `responses` land there; any other path is an ordinary write. */
  lemma SystemWriteMeans(path: string, ctx: Object, v: Value)
    requires NoBlank(Split(NormalizePath(path), '.')) && NoBlank(Split(NormalizePath(NormalizePath(path)), '.'))
    ensures var parts, after := Split(NormalizePath(path), '.'), WriteAt(ctx, SystemTarget(path), v);
            if |parts| >= 3 && Lower(parts[0]) == "responses" then LandsAt(ctx, after, ["responses"] + parts[1..], v)
            else Written(Split(NormalizePath(NormalizePath(path)), '.'), ctx, after, v)
  {
    hide Split, NormalizePath, Lower, LandsAt, Written, WriteTarget, WriteParts;
    var parts := Split(NormalizePath(path), '.');
    if |parts| >= 3 && Lower(parts[0]) == "responses" {
      DomainLands(ctx, "responses", parts[1..], v);
    } else {
      WriteMeans(NormalizePath(path), ctx, v);
    }
  }

  // ---------- where a read looks ----------

  /** What is at a location below the given keys; the domain itself reads as an object, empty if it is none. */
  ghost function ReadBelow(m: Object, keys: seq<string>, rest: seq<string>): Option<Value> {
    if rest != [] then ReadParts(Obj(m), keys + rest)
    else
      var found := ReadParts(Obj(m), keys);
      if found.Some? && found.value.Obj? then found else Some(Obj(map[]))
  }

  lemma {:induction false} DomainReadLooks(m: Object, keys: seq<string>, rest: seq<string>)
    requires NoBlank(keys) && NoBlank(rest)
    ensures DomainRead(m, keys, rest) == ReadBelow(m, keys, rest)
    decreases |keys|
  {
    if keys == [] {
      assert keys + rest == rest;
    } else {
      DomainReadLooks(Child(m, keys[0]), keys[1..], rest);
      assert (keys + rest)[1..] == keys[1..] + rest;
      if !(keys[0] in m && m[keys[0]].Obj?) {
        NothingBelow(m, keys + rest);
        NothingBelow(m, keys);
      }
    }
  }

  lemma NothingBelow(m: Object, at: seq<string>)
    requires Location(at) && !(at[0] in m && m[at[0]].Obj?)
    ensures |at| > 1 ==> ReadParts(Obj(m), at).None?
    ensures var found := ReadParts(Obj(m), at); !(found.Some? && found.value.Obj?)
  {
    if at[0] in m && |at| > 1 {
      assert at[1..] != [] && at[1..][0] == at[1];
    }
  }

  /** What a read path finds in a snapshot, by the name it begins with. */
  ghost function Found(s: Snapshot, parts: seq<string>): Option<Value>
    requires parts != []
  {
    var head, rest := Lower(parts[0]), parts[1..];
    if head in INPUT_NAMES then ReadParts(Obj(s.input), rest)
    else if head in CONTEXT_NAMES then ReadParts(Obj(s.ctx), rest)
    else if head in OUTPUT_NAMES then ReadBelow(s.ctx, ["flow_output"], rest)
    else if head in ["responses", "response"] then ReadBelow(s.ctx, ["responses"], rest)
    else if head in ["connector_response", "connector_responses"] then ReadBelow(s.ctx, ["responses", "connector"], rest)
    else if head in ["tool_response", "tool_responses"] then ReadBelow(s.ctx, ["responses", "tool"], rest)
    else if head in VARIABLE_NAMES then ReadBelow(s.ctx, ["variables"], rest)
    else if head == "last" then ReadParts(Obj(s.last), rest)
    else None
  }

  lemma SourceMeans(s: Snapshot, parts: seq<string>)
    requires Location(parts)
    ensures Found(s, parts) == (match SourceOf(parts[0])
                                case FromInput => ReadParts(Obj(s.input), parts[1..])
                                case FromContext(keys) => DomainRead(s.ctx, keys, parts[1..])
                                case FromLast => ReadParts(Obj(s.last), parts[1..])
                                case NoSource => None)
  {
    hide Lower, ReadParts, DomainRead, ReadBelow, NamesInput, NamesOutput, NamesVariables, NamesContext,
      INPUT_NAMES, OUTPUT_NAMES, VARIABLE_NAMES, CONTEXT_NAMES;
    var head := Lower(parts[0]);
    NamesMean(head);
    NamesDiffer(head);
    SourceKeysNotBlank(parts[0]);
    if SourceOf(parts[0]).FromContext? {
      DomainReadLooks(s.ctx, SourceOf(parts[0]).keys, parts[1..]);
    }
    WholeContext(s.ctx, parts[1..]);
  }

  lemma WholeContext(m: Object, rest: seq<string>)
    ensures ReadBelow(m, [], rest) == ReadParts(Obj(m), rest)
  {
    assert [] + rest == rest;
  }

  /** A read by a path without blank segments finds what its segments name. */
  lemma ReadMeans(s: Snapshot, path: string)
    requires NoBlank(Split(NormalizePath(path), '.'))
    ensures Read(s, path) == Found(s, Split(NormalizePath(path), '.'))
  {
    hide Split, NormalizePath, SourceOf, Found, ReadParts, DomainRead;
    NamedIsNotEmpty(path);
    SourceMeans(s, Split(NormalizePath(path), '.'));
  }

  /** A value counts as true unless it is false, null, or a text of white space. */
  ghost predicate CountsAsTrue(v: Value) {
    v != Null && v != Bool(false) && (v.Str? ==> TrimSpace(v.s) != "")
  }

  /**
   When an edge matches: always without a condition; a condition on presence, when the value
   is there or not as it says; one on a value, when there is one that is or renders like it;
   and any other, when there is one that counts as true.
   */
  lemma EdgeMatchesExactly(condition: Option<Condition>, s: Snapshot, render: JsonRender)
    requires condition.Some? ==> NoBlank(Split(NormalizePath(condition.value.path), '.'))
    ensures condition.None? ==> EdgeMatches(condition, s, render)
    ensures condition.Some? ==>
              var c, found := condition.value, Found(s, Split(NormalizePath(condition.value.path), '.'));
              EdgeMatches(condition, s, render)
              <==> (if c.exists_.Some? then c.exists_.value == found.Some?
                    else found.Some? && if c.equals.Some? then found.value == c.equals.value
                                                               || render(found.value) == render(c.equals.value)
                                        else CountsAsTrue(found.value))
  {
    hide Read, Found, Split, NormalizePath, TrimSpace;
    if condition.Some? { ReadMeans(s, condition.value.path); }
  }

  // ---------- reading back what was written ----------

  /**
   The paths that read back their own writes: a field of the output or of the variables, and
   below `ctx` a field of a domain under its own name, or anything that is no name of a domain.
   */
  ghost predicate ReadsItself(parts: seq<string>)
    requires parts != []
  {
    var head := Lower(parts[0]);
    && |parts| > 1
    && (head in OUTPUT_NAMES || head in VARIABLE_NAMES
        || (head in CONTEXT_NAMES
            && var field := Lower(parts[1]);
               if field in OUTPUT_NAMES then parts[1] == "flow_output" && |parts| > 2
               else if field in VARIABLE_NAMES then parts[1] == "variables" && |parts| > 2
               else field !in INPUT_NAMES && field !in RESPONSE_NAMES))
  }

  lemma LandedIsFound(before: Object, after: Object, key: string, rest: seq<string>, v: Value)
    requires rest != [] && LandsBelow(before, after, key, rest, v)
    ensures ReadBelow(after, [key], rest) == ReadParts(Obj(after), [key] + rest) == Some(v)
  {
  }

  lemma ReadsItselfBack(s: Snapshot, path: string, v: Value)
    requires NoBlank(Split(NormalizePath(path), '.')) && ReadsItself(Split(NormalizePath(path), '.'))
    ensures Read(s.(ctx := WriteAt(s.ctx, WriteTarget(path), v)), path) == Some(v)
  {
    hide Split, NormalizePath, Lower, WriteParts, ReadParts, LandsBelow, WriteTarget, WriteAt, Read, ReadBelow,
      INPUT_NAMES, RESPONSE_NAMES, OUTPUT_NAMES, VARIABLE_NAMES, CONTEXT_NAMES;
    var parts, after := Split(NormalizePath(path), '.'), WriteAt(s.ctx, WriteTarget(path), v);
    WriteMeans(path, s.ctx, v);
    ReadMeans(s.(ctx := after), path);
    NamesMean(Lower(parts[0]));
    NamesDiffer(Lower(parts[0]));
    if Lower(parts[0]) in OUTPUT_NAMES {
      LandedIsFound(s.ctx, after, "flow_output", parts[1..], v);
    } else if Lower(parts[0]) in VARIABLE_NAMES {
      LandedIsFound(s.ctx, after, "variables", parts[1..], v);
    } else {
      var field := Lower(parts[1]);
      NamesDiffer(field);
      if field in OUTPUT_NAMES {
        LandedIsFound(s.ctx, after, "flow_output", parts[2..], v);
        assert parts[1..] == ["flow_output"] + parts[2..];
      } else if field in VARIABLE_NAMES {
        LandedIsFound(s.ctx, after, "variables", parts[2..], v);
        assert parts[1..] == ["variables"] + parts[2..];
      }
    }
  }

  /** A path reads back what was written by it, in every context and for every value, exactly when it is such a path. */
  lemma ReadsBackExactly(path: string)
    requires NoBlank(Split(NormalizePath(path), '.'))
    ensures ReadsItself(Split(NormalizePath(path), '.'))
       <==> forall s: Snapshot, v :: Read(s.(ctx := WriteAt(s.ctx, WriteTarget(path), v)), path) == Some(v)
  {
    hide ReadsItself, Split, NormalizePath, WriteTarget, WriteAt, Read;
    if ReadsItself(Split(NormalizePath(path), '.')) {
      forall s: Snapshot, v ensures Read(s.(ctx := WriteAt(s.ctx, WriteTarget(path), v)), path) == Some(v) {
        ReadsItselfBack(s, path, v);
      }
    } else {
      var s := Snapshot(map[], map[], map[], map[]);
      ReadsOtherwise(path);
      assert Read(s.(ctx := WriteAt(s.ctx, WriteTarget(path), Null)), path) != Some(Null);
    }
  }

  lemma AbsentIsNotFound(m: Object, at: seq<string>)
    requires NoBlank(at) && (at != [] ==> at[0] !in m)
    ensures ReadParts(Obj(m), at) == if at == [] then Some(Obj(m)) else None
  {
  }

  lemma EmptyHoldsNoNull(keys: seq<string>, rest: seq<string>)
    requires NoBlank(keys) && NoBlank(rest)
    ensures ReadBelow(map[], keys, rest) != Some(Null)
  {
    AbsentIsNotFound(map[], keys + rest);
  }

  /** Below `ctx`, a domain that is not under its own name, or without a field. */
  lemma DomainReadsOtherwise(after: Object, key: string, parts: seq<string>)
    requires Location(parts) && (parts[0] != key || |parts| == 1)
    requires LandsBelow(map[], after, key, parts[1..], Null)
    ensures ReadParts(Obj(after), parts) != Some(Null)
  {
    if parts[0] != key { AbsentIsNotFound(after, parts); }
  }

  /** Any other path finds no null where an empty context got one. */
  lemma ReadsOtherwise(path: string)
    requires NoBlank(Split(NormalizePath(path), '.')) && !ReadsItself(Split(NormalizePath(path), '.'))
    ensures var s := Snapshot(map[], map[], map[], map[]);
            Read(s.(ctx := WriteAt(s.ctx, WriteTarget(path), Null)), path) != Some(Null)
  {
    hide Split, NormalizePath, Lower, WriteParts, WriteTarget, WriteAt, Read, ReadParts, ReadBelow, LandsBelow, LandsAt,
      INPUT_NAMES, RESPONSE_NAMES, OUTPUT_NAMES, VARIABLE_NAMES, CONTEXT_NAMES;
    var parts, after := Split(NormalizePath(path), '.'), WriteAt(map[], WriteTarget(path), Null);
    var head, rest := Lower(parts[0]), parts[1..];
    WriteMeans(path, map[], Null);
    ReadMeans(Snapshot(map[], after, map[], map[]), path);
    NamesDiffer(head);
    AbsentIsNotFound(map[], rest);
    if head in CONTEXT_NAMES {
      if |parts| > 1 {
        NamesDiffer(Lower(parts[1]));
        assert rest[1..] == parts[2..];
        if Lower(parts[1]) in OUTPUT_NAMES {
          DomainReadsOtherwise(after, "flow_output", rest);
        } else if Lower(parts[1]) in VARIABLE_NAMES {
          DomainReadsOtherwise(after, "variables", rest);
        }
      }
    } else {
      EmptyHoldsNoNull(["flow_output"], rest);
      EmptyHoldsNoNull(["variables"], rest);
      ResponsesAreRefused(head);
      EmptyHoldsNoNull(["responses"], rest);
      EmptyHoldsNoNull(["responses", "connector"], rest);
      EmptyHoldsNoNull(["responses", "tool"], rest);
    }
  }

  lemma ResponsesAreRefused(head: string)
    ensures head in ["responses", "response"] ==> head in RESPONSE_NAMES
    ensures head in ["connector_response", "connector_responses"] ==> head in RESPONSE_NAMES
    ensures head in ["tool_response", "tool_responses"] ==> head in RESPONSE_NAMES
  {
  }
}
