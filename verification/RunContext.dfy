/**
 The workflow run context: path-addressed reads and writes over one shared object, the
 read-only domains, and what merging the results of a batch of nodes leaves behind.
 */
module RunContexts {
  import opened Text
  import opened JsonValues
  import opened Graphs

  // ---------- write paths ----------

  /** What a write path means: nothing, a refusal, or a place under the context root or one of its domains. */
  datatype Target =
    | Ignored
    | InputReadOnly
    | ResponsesReadOnly
    | FieldRequired
    | Root(rest: seq<string>)
    | Domain(key: string, rest: seq<string>)

  function NormalizePath(path: string): string {
    TrimPrefix(TrimPrefix(TrimSpace(path), "$"), ".")
  }

  predicate NamesInput(s: string) { s == "input" || s == "flow_input" }

  predicate NamesResponses(s: string) {
    s in {"responses", "response", "connector_response", "connector_responses", "tool_response", "tool_responses"}
  }

  predicate NamesOutput(s: string) { s == "flow_output" || s == "output" }

  predicate NamesVariables(s: string) { s == "vars" || s == "variables" || s == "runtime" }

  predicate NamesContext(s: string) { s == "ctx" || s == "context" }

  function TargetOf(parts: seq<string>): Target
    requires parts != []
  {
    var head := Lower(parts[0]);
    if NamesInput(head) then InputReadOnly
    else if NamesResponses(head) then ResponsesReadOnly
    else if NamesOutput(head) then
      if |parts| < 2 then FieldRequired else Domain("flow_output", parts[1..])
    else if NamesVariables(head) then
      if |parts| < 2 then FieldRequired else Domain("variables", parts[1..])
    else if NamesContext(head) then
      if |parts| < 2 then FieldRequired
      else
        var field := Lower(parts[1]);
        if NamesInput(field) then InputReadOnly
        else if NamesResponses(field) then ResponsesReadOnly
        else if NamesOutput(field) then Domain("flow_output", parts[2..])
        else if NamesVariables(field) then Domain("variables", parts[2..])
        else Root(parts[1..])
    else Root(parts)
  }

  /** `Write` */
  function WriteTarget(path: string): Target {
    var p := NormalizePath(path);
    if p == "" then Ignored else TargetOf(Split(p, '.'))
  }

  /** `writeSystem`: only a path with a domain and a name below `responses` may touch the responses. */
  function SystemTarget(path: string): Target {
    var parts := Split(NormalizePath(path), '.');
    if |parts| < 3 || Lower(parts[0]) != "responses" then WriteTarget(NormalizePath(path))
    else Domain("responses", parts[1..])
  }

  function WriteAt(ctx: Object, t: Target, v: Value): Object {
    match t
    case Root(rest) => WriteParts(ctx, rest, v)
    case Domain(key, rest) => ctx[key := Obj(WriteParts(Child(ctx, key), rest, v))]
    case _ => ctx
  }

  /** The place a target denotes, as one list of segments from the context root. */
  function Place(t: Target): seq<string> {
    match t
    case Root(rest) => rest
    case Domain(key, rest) => [key] + rest
    case _ => []
  }

  predicate Places(t: Target) { t.Root? || t.Domain? }

  /** A target that names one location, without empty segments. */
  predicate Canonical(t: Target) {
    match t
    case Root(rest) => Location(rest)
    case Domain(key, rest) => key != "" && Location(rest)
    case _ => false
  }

  lemma CanonicalWrite(ctx: Object, t: Target, v: Value)
    requires Canonical(t)
    ensures Location(Place(t)) && WriteAt(ctx, t, v) == WriteParts(ctx, Place(t), v)
  {
  }

  // ---------- the read-only domains ----------

  function FirstSegment(parts: seq<string>): Option<string> {
    if parts == [] then None
    else if parts[0] == "" then FirstSegment(parts[1..])
    else Some(parts[0])
  }

  predicate SameAt(before: Object, after: Object, key: string) {
    (key in before <==> key in after) && (key in before ==> before[key] == after[key])
  }

  lemma {:induction false} WriteTouchesFirstSegment(ctx: Object, parts: seq<string>, v: Value, key: string)
    ensures FirstSegment(parts) != Some(key) ==> SameAt(ctx, WriteParts(ctx, parts, v), key)
    ensures FirstSegment(parts) == Some(key) ==> key in WriteParts(ctx, parts, v)
  {
    if parts != [] && parts[0] == "" { WriteTouchesFirstSegment(ctx, parts[1..], v, key); }
  }

  /**
   A write path leaves a top-level key alone in every context exactly when the first
   non-empty segment of the place it names is another key.
   */
  lemma LeavesAloneExactly(path: string, key: string)
    ensures (forall ctx, v :: SameAt(ctx, WriteAt(ctx, WriteTarget(path), v), key))
            <==> FirstSegment(Place(WriteTarget(path))) != Some(key)
  {
    var t := WriteTarget(path);
    match t {
      case Root(rest) =>
        forall ctx: Object, v ensures FirstSegment(rest) != Some(key) ==> SameAt(ctx, WriteAt(ctx, t, v), key) {
          WriteTouchesFirstSegment(ctx, rest, v, key);
        }
        if FirstSegment(rest) == Some(key) {
          WriteTouchesFirstSegment(map[], rest, Null, key);
          assert !SameAt(map[], WriteAt(map[], t, Null), key);
        }
      case Domain(k, rest) =>
        assert k != "" && Place(t)[0] == k;
        if k == key {
          assert !SameAt(map[], WriteAt(map[], t, Null), key);
        }
      case _ =>
    }
  }

  lemma LowerKeepsInputAndResponses()
    ensures Lower("flow_input") == "flow_input" && Lower("responses") == "responses"
  {
  }

  /** `flow_input` and `responses` are safe from every write path without empty segments. */
  lemma WriteRespectsReadOnlyDomains(parts: seq<string>, ctx: Object, v: Value)
    requires parts != [] && NoBlank(parts)
    ensures var after := WriteAt(ctx, TargetOf(parts), v);
            SameAt(ctx, after, "flow_input") && SameAt(ctx, after, "responses")
  {
    LowerKeepsInputAndResponses();
    var t := TargetOf(parts);
    if t.Root? {
      WriteTouchesFirstSegment(ctx, t.rest, v, "flow_input");
      WriteTouchesFirstSegment(ctx, t.rest, v, "responses");
    }
  }

  lemma PlainIsTrimmed(path: string)
    requires path != [] && !IsSpace(path[0]) && !IsSpace(path[|path| - 1])
    ensures Trimmed(path)
  {
  }

  lemma NormalizeKeepsPlain(path: string)
    requires path != [] && Trimmed(path) && path[0] != '$' && path[0] != '.'
    ensures NormalizePath(path) == path
  {
  }

  /** The guard looks at one fixed segment, so an empty one in front of it lets the write through. */
  lemma EmptySegmentReachesFlowInput(v: Value)
    ensures WriteTarget("ctx..flow_input.x") == Root(["", "flow_input", "x"])
    ensures !SameAt(map[], WriteAt(map[], WriteTarget("ctx..flow_input.x"), v), "flow_input")
  {
    hide NormalizePath, Split, TrimSpace, WriteParts;
    assert WriteTarget("ctx..flow_input.x") == Root(["", "flow_input", "x"]) by { EmptySegmentTarget(); }
    assert ["", "flow_input", "x"][1..] == ["flow_input", "x"];
    WriteTouchesFirstSegment(map[], ["", "flow_input", "x"], v, "flow_input");
  }

  lemma EmptySegmentTarget()
    ensures WriteTarget("ctx..flow_input.x") == Root(["", "flow_input", "x"])
  {
    hide NormalizePath, Split, TrimSpace;
    var path := "ctx..flow_input.x";
    PlainIsTrimmed(path);
    NormalizeKeepsPlain(path);
    EmptySegmentSplits();
    assert ["ctx", "", "flow_input", "x"][1..] == ["", "flow_input", "x"];
    assert Lower("ctx") == "ctx" && Lower("") == "";
  }

  lemma EmptySegmentSplits()
    ensures Split("ctx..flow_input.x", '.') == ["ctx", "", "flow_input", "x"]
  {
    hide Split;
    var path := "ctx..flow_input.x";
    assert path == "ctx" + ['.'] + ("" + ['.'] + ("flow_input" + ['.'] + "x"));
    SplitStep("ctx", '.', "" + ['.'] + ("flow_input" + ['.'] + "x"));
    SplitStep("", '.', "flow_input" + ['.'] + "x");
    SplitStep("flow_input", '.', "x");
    SplitStep("x", '.', "");
  }

  // ---------- merging a batch ----------

  datatype Write = PathWrite(system: bool, path: string, value: Value)

  function Aim(w: Write): Target {
    if w.system then SystemTarget(w.path) else WriteTarget(w.path)
  }

  /** The error of a refused write is dropped; the write then changes nothing. */
  function Apply(ctx: Object, w: Write): Object {
    WriteAt(ctx, Aim(w), w.value)
  }

  function ApplyAll(ctx: Object, ws: seq<Write>): Object
    decreases |ws|
  {
    if ws == [] then ctx else ApplyAll(Apply(ctx, ws[0]), ws[1..])
  }

  /** Refused and empty writes are harmless; the others must name locations apart from each other. */
  ghost predicate Independent(v: Write, w: Write) {
    !Places(Aim(v)) || !Places(Aim(w)) || Apart(Place(Aim(v)), Place(Aim(w)))
  }

  ghost predicate Mergeable(ws: seq<Write>) {
    && (forall i :: 0 <= i < |ws| && Places(Aim(ws[i])) ==> Canonical(Aim(ws[i])))
    && (forall i, j :: 0 <= i < j < |ws| ==> Independent(ws[i], ws[j]))
  }

  lemma IndependentCommute(ctx: Object, v: Write, w: Write)
    requires Independent(v, w)
    requires Places(Aim(v)) ==> Canonical(Aim(v))
    requires Places(Aim(w)) ==> Canonical(Aim(w))
    ensures Apply(Apply(ctx, v), w) == Apply(Apply(ctx, w), v)
  {
    if Places(Aim(v)) && Places(Aim(w)) {
      var p, q := Place(Aim(v)), Place(Aim(w));
      CanonicalWrite(ctx, Aim(v), v.value);
      CanonicalWrite(Apply(ctx, w), Aim(v), v.value);
      CanonicalWrite(ctx, Aim(w), w.value);
      CanonicalWrite(Apply(ctx, v), Aim(w), w.value);
      WritesCommute(ctx, p, v.value, q, w.value);
    }
  }

  lemma {:induction false} ApplyAllConcat(ctx: Object, a: seq<Write>, b: seq<Write>)
    ensures ApplyAll(ctx, a + b) == ApplyAll(ApplyAll(ctx, a), b)
    decreases |a|
  {
    if a == [] {
      assert a + b == b;
    } else {
      assert (a + b)[1..] == a[1..] + b;
      ApplyAllConcat(Apply(ctx, a[0]), a[1..], b);
    }
  }

  /** A write independent of those before it may as well come first. */
  lemma {:induction false} MoveToFront(ctx: Object, a: seq<Write>, w: Write)
    requires Places(Aim(w)) ==> Canonical(Aim(w))
    requires forall i :: 0 <= i < |a| ==> Independent(a[i], w) && (Places(Aim(a[i])) ==> Canonical(Aim(a[i])))
    ensures Apply(ApplyAll(ctx, a), w) == ApplyAll(Apply(ctx, w), a)
    decreases |a|
  {
    if a != [] {
      IndependentCommute(ctx, a[0], w);
      MoveToFront(Apply(ctx, a[0]), a[1..], w);
    }
  }

  lemma MergeableMember(ws: seq<Write>, x: Write)
    requires ws != [] && Mergeable(ws) && x in ws[1..]
    ensures Independent(x, ws[0]) && (Places(Aim(x)) ==> Canonical(Aim(x)))
  {
  }

  lemma PullToFront(ctx: Object, ws: seq<Write>, k: nat)
    requires k < |ws| && (Places(Aim(ws[k])) ==> Canonical(Aim(ws[k])))
    requires forall i :: 0 <= i < k ==>
               Independent(ws[i], ws[k]) && (Places(Aim(ws[i])) ==> Canonical(Aim(ws[i])))
    ensures ApplyAll(ctx, ws) == ApplyAll(Apply(ctx, ws[k]), ws[..k] + ws[k + 1..])
  {
    var front, w, back := ws[..k], ws[k], ws[k + 1..];
    assert ws == front + [w] + back;
    MoveToFront(ctx, front, w);
    ApplyAllConcat(ctx, front + [w], back);
    ApplyAllConcat(ctx, front, [w]);
    ApplyAllConcat(Apply(ctx, w), front, back);
  }

  lemma RestOfPermutation<T>(x: T, rest: seq<T>, ys: seq<T>) returns (k: nat)
    requires multiset([x] + rest) == multiset(ys)
    ensures k < |ys| && ys[k] == x && multiset(ys[..k] + ys[k + 1..]) == multiset(rest)
  {
    assert x in multiset([x] + rest);
    k :| 0 <= k < |ys| && ys[k] == x;
    var front, back := ys[..k], ys[k + 1..];
    assert ys == front + [x] + back;
    assert multiset(front + back) == multiset(front) + multiset(back);
    assert multiset(front + back) == multiset(ys) - multiset{x};
    assert multiset([x] + rest) == multiset{x} + multiset(rest);
    assert multiset(rest) == multiset([x] + rest) - multiset{x};
  }

  lemma MergeableTail(ws: seq<Write>)
    requires ws != [] && Mergeable(ws)
    ensures Mergeable(ws[1..])
  {
  }

  /** Whether writes can be merged in any order does not depend on their order. */
  lemma {:induction false} MergeableOrderFree(xs: seq<Write>, ys: seq<Write>)
    requires Mergeable(xs) && multiset(xs) == multiset(ys)
    ensures Mergeable(ys)
    decreases |xs|
  {
    if xs == [] {
      assert |multiset(ys)| == 0;
    } else {
      var w := xs[0];
      assert xs == [w] + xs[1..];
      var k := RestOfPermutation(w, xs[1..], ys);
      var others := ys[..k] + ys[k + 1..];
      MergeableTail(xs);
      MergeableOrderFree(xs[1..], others);
      forall y | y in others ensures Independent(y, w) && Independent(w, y) {
        assert y in multiset(others);
        MergeableMember(xs, y);
      }
      MergeableInsert(ys, k);
    }
  }

  lemma MergeableInsert(ys: seq<Write>, k: nat)
    requires k < |ys| && (Places(Aim(ys[k])) ==> Canonical(Aim(ys[k])))
    requires var others := ys[..k] + ys[k + 1..];
             Mergeable(others) && forall y :: y in others ==> Independent(y, ys[k]) && Independent(ys[k], y)
    ensures Mergeable(ys)
  {
    var others := ys[..k] + ys[k + 1..];
    forall i | 0 <= i < |ys| && i != k ensures ys[i] == others[if i < k then i else i - 1] {
    }
    forall i, j | 0 <= i < j < |ys| ensures Independent(ys[i], ys[j]) {
      if i != k && j != k {
        assert Independent(others[if i < k then i else i - 1], others[if j < k then j else j - 1]);
      } else if i == k {
        assert ys[j] == others[j - 1] && others[j - 1] in others;
      } else {
        assert ys[i] == others[i] && others[i] in others;
      }
    }
  }

  lemma MergeablePart(a: seq<Write>, b: seq<Write>)
    requires Mergeable(a + b)
    ensures Mergeable(a) && Mergeable(b)
  {
    forall i | 0 <= i < |a| ensures a[i] == (a + b)[i] {
    }
    forall i | 0 <= i < |b| ensures b[i] == (a + b)[|a| + i] {
    }
    forall i, j | 0 <= i < j < |a| ensures Independent(a[i], a[j]) {
      assert Independent((a + b)[i], (a + b)[j]);
    }
    forall i, j | 0 <= i < j < |b| ensures Independent(b[i], b[j]) {
      assert Independent((a + b)[|a| + i], (a + b)[|a| + j]);
    }
  }

  /**
   Merging is order free: whatever order the nodes of a batch complete in, and whatever
   order Go iterates each node's write maps, the context ends up the same.
   */
  lemma {:induction false} MergeOrderFree(ctx: Object, xs: seq<Write>, ys: seq<Write>)
    requires Mergeable(xs) && multiset(xs) == multiset(ys)
    ensures ApplyAll(ctx, xs) == ApplyAll(ctx, ys)
    decreases |xs|
  {
    if xs == [] {
      assert |multiset(ys)| == 0;
    } else {
      var w := xs[0];
      assert xs == [w] + xs[1..];
      var k := RestOfPermutation(w, xs[1..], ys);
      var others := ys[..k] + ys[k + 1..];
      forall i | 0 <= i < k ensures Independent(ys[i], w) && (Places(Aim(ys[i])) ==> Canonical(Aim(ys[i]))) {
        assert ys[i] == others[i] && others[i] in multiset(others);
        MergeableMember(xs, ys[i]);
      }
      PullToFront(ctx, ys, k);
      MergeableTail(xs);
      MergeOrderFree(Apply(ctx, w), xs[1..], others);
    }
  }

  /** A location apart from every write of the merge reads as before. */
  lemma {:induction false} MergeFrame(ctx: Object, ws: seq<Write>, keys: seq<string>, rest: seq<string>)
    requires forall i :: 0 <= i < |ws| && Places(Aim(ws[i])) ==>
               Canonical(Aim(ws[i])) && Apart(Place(Aim(ws[i])), keys + rest)
    requires NoBlank(keys) && NoBlank(rest)
    ensures DomainRead(ApplyAll(ctx, ws), keys, rest) == DomainRead(ctx, keys, rest)
    decreases |ws|
  {
    if ws != [] {
      if Places(Aim(ws[0])) {
        CanonicalWrite(ctx, Aim(ws[0]), ws[0].value);
        DomainReadFrame(ctx, Place(Aim(ws[0])), ws[0].value, keys, rest);
      }
      MergeFrame(Apply(ctx, ws[0]), ws[1..], keys, rest);
    }
  }

  /** Every write of a merge reads back at its location, in whatever order the merge ran. */
  lemma MergeReadsBack(ctx: Object, ws: seq<Write>, k: nat)
    requires Mergeable(ws) && k < |ws| && Places(Aim(ws[k]))
    ensures ReadParts(Obj(ApplyAll(ctx, ws)), Place(Aim(ws[k]))) == Some(ws[k].value)
  {
    var w, a, b := ws[k], ws[..k], ws[k + 1..];
    var p := Place(Aim(w));
    assert ws == a + [w] + b;
    ApplyAllConcat(ctx, a + [w], b);
    ApplyAllConcat(ctx, a, [w]);
    CanonicalWrite(ApplyAll(ctx, a), Aim(w), w.value);
    WriteReadsBack(ApplyAll(ctx, a), p, w.value);
    forall i | 0 <= i < |b| && Places(Aim(b[i])) ensures Canonical(Aim(b[i])) && Apart(Place(Aim(b[i])), [] + p) {
      assert b[i] == ws[k + 1 + i] && Independent(w, ws[k + 1 + i]);
      assert [] + p == p;
    }
    MergeFrame(Apply(ApplyAll(ctx, a), w), b, [], p);
  }

  /** The segments a write is dispatched on. */
  function Segments(w: Write): seq<string> {
    var p := NormalizePath(w.path);
    if w.system && (|Split(p, '.')| < 3 || Lower(Split(p, '.')[0]) != "responses")
    then Split(NormalizePath(p), '.')
    else Split(p, '.')
  }

  /** A write whose path, if it is not empty, names every segment. */
  predicate Named(w: Write) { Aim(w).Ignored? || NoBlank(Segments(w)) }

  /** No merge touches `flow_input`, and only response writes touch `responses`. */
  lemma {:induction false} MergeRespectsReadOnlyDomains(ctx: Object, ws: seq<Write>)
    requires forall i :: 0 <= i < |ws| ==> Named(ws[i])
    ensures SameAt(ctx, ApplyAll(ctx, ws), "flow_input")
    ensures (forall i :: 0 <= i < |ws| ==> !ws[i].system) ==> SameAt(ctx, ApplyAll(ctx, ws), "responses")
    decreases |ws|
  {
    if ws != [] {
      var w := ws[0];
      if !Aim(w).Ignored? {
        WriteRespectsReadOnlyDomains(Segments(w), ctx, w.value);
      }
      MergeRespectsReadOnlyDomains(Apply(ctx, w), ws[1..]);
    }
  }

  // ---------- reads ----------

  /** What a node and an edge condition see. */
  datatype Snapshot = Snapshot(input: Object, ctx: Object, vars: Object, last: Object)

  /** Where a read path starts: a root object and the domain keys below the context. */
  datatype Source = NoSource | FromInput | FromContext(keys: seq<string>) | FromLast

  function SourceOf(head: string): Source {
    var h := Lower(head);
    if NamesInput(h) then FromInput
    else if NamesContext(h) then FromContext([])
    else if NamesOutput(h) then FromContext(["flow_output"])
    else if h == "responses" || h == "response" then FromContext(["responses"])
    else if h == "connector_response" || h == "connector_responses" then FromContext(["responses", "connector"])
    else if h == "tool_response" || h == "tool_responses" then FromContext(["responses", "tool"])
    else if NamesVariables(h) then FromContext(["variables"])
    else if h == "last" then FromLast
    else NoSource
  }

  /** `Read` */
  function Read(s: Snapshot, path: string): Option<Value> {
    var p := NormalizePath(path);
    var parts := Split(p, '.');
    if p == "" || parts[0] == "" then None
    else match SourceOf(parts[0])
      case FromInput => ReadParts(Obj(s.input), parts[1..])
      case FromContext(keys) => DomainRead(s.ctx, keys, parts[1..])
      case FromLast => ReadParts(Obj(s.last), parts[1..])
      case NoSource => None
  }

  /** fmt.Sprint on decoded values. */
  type JsonRender = Value -> string

  datatype Condition = Condition(path: string, equals: Option<Value>, exists_: Option<bool>)

  predicate Truthy(v: Value) {
    match v
    case Bool(b) => b
    case Str(s) => TrimSpace(s) != ""
    case Null => false
    case _ => true
  }

  /** `edgeMatches`; `render` is fmt.Sprint. */
  predicate EdgeMatches(condition: Option<Condition>, s: Snapshot, render: JsonRender) {
    match condition
    case None => true
    case Some(c) =>
      var found := Read(s, c.path);
      if c.exists_.Some? then found.Some? == c.exists_.value
      else match found
        case None => false
        case Some(v) =>
          if c.equals.None? then Truthy(v)
          else v == c.equals.value || render(v) == render(c.equals.value)
  }

  lemma SourceKeysNotBlank(head: string)
    ensures SourceOf(head).FromContext? ==> NoBlank(SourceOf(head).keys)
  {
  }

  // ---------- node results ----------

  datatype NodeResult = NodeResult(
    output: Object,
    contextWrites: Object,
    responseWrites: Object,
    next: Option<seq<Id>>,
    stop: bool)

  function WritesOf(system: bool, m: Object): set<Write> {
    set path | path in m :: PathWrite(system, path, m[path])
  }

  /** The writes of one node result: its context writes in some order, then its response writes in some order. */
  ghost predicate WritesInSomeOrder(ws: seq<Write>, result: NodeResult) {
    exists k :: 0 <= k <= |ws|
      && multiset(ws[..k]) == multiset(WritesOf(false, result.contextWrites))
      && multiset(ws[k..]) == multiset(WritesOf(true, result.responseWrites))
  }

  function LastOf(node: Id, result: NodeResult): Object {
    map["node_id" := Str(node.name), "output" := Obj(result.output)]
  }

  /** What merging a result with these writes makes of what the context holds. */
  function Merged(s: Snapshot, node: Id, result: NodeResult, order: seq<Write>): Snapshot {
    Snapshot(s.input, ApplyAll(s.ctx, order), s.vars, LastOf(node, result))
  }

  lemma WritesAreTheResults(ws: seq<Write>, result: NodeResult)
    requires WritesInSomeOrder(ws, result)
    ensures multiset(ws) == multiset(WritesOf(false, result.contextWrites)) + multiset(WritesOf(true, result.responseWrites))
  {
    var k :| 0 <= k <= |ws|
      && multiset(ws[..k]) == multiset(WritesOf(false, result.contextWrites))
      && multiset(ws[k..]) == multiset(WritesOf(true, result.responseWrites));
    assert ws == ws[..k] + ws[k..];
  }

  lemma EntryTaken(system: bool, entries: Object, path: string)
    requires path in entries
    ensures multiset(WritesOf(system, entries))
         == multiset{PathWrite(system, path, entries[path])} + multiset(WritesOf(system, entries - {path}))
  {
    var w := PathWrite(system, path, entries[path]);
    var rest := entries - {path};
    forall x | x in WritesOf(system, entries) ensures x in {w} + WritesOf(system, rest) {
      if x != w { assert x.path in rest && rest[x.path] == x.value; }
    }
    forall x | x in WritesOf(system, rest) ensures x in WritesOf(system, entries) {
      assert x.path in entries && entries[x.path] == x.value;
    }
    assert WritesOf(system, entries) == {w} + WritesOf(system, rest);
    assert w !in WritesOf(system, entries - {path});
  }
}
