/**
 The loop shared by agents and skills: the model is asked, its tool calls are run and
 appended, the conversation is compacted, and the model is asked again.
 */
module ToolLoops {
  import opened ContextAssembler
  import opened Text

  /** The reply to the n-th request of a run, if the call succeeds. */
  type Model = (nat, seq<Message>) -> Option<Message>

  datatype Outcome = Failed | Finished(content: string)

  /** What running the j-th call of the n-th reply comes to. */
  type ToolRuntime = (nat, nat, ToolCall) -> Outcome

  datatype Error = ModelFailed | ToolRuntimeMissing | UnknownToolCall | ToolFailed

  datatype Result<T> = Success(value: T) | Failure(error: Error)

  /** One turn of the loop: a reply with tool calls, and the content each call produced. */
  datatype Round = Round(reply: Message, contents: seq<string>)

  function ToolMessage(call: ToolCall, content: string): Message { Message(Tool, content, [], call.id) }

  ghost function RoundMessages(r: Round): (ms: seq<Message>)
    requires |r.contents| == |r.reply.calls|
    ensures |ms| == 1 + |r.reply.calls|
  {
    [r.reply] + seq(|r.contents|, j requires 0 <= j < |r.contents| => ToolMessage(r.reply.calls[j], r.contents[j]))
  }

  // ---------- running the calls of one reply ----------

  predicate Known(call: ToolCall, names: set<string>) { call.name in names }

  /** The first call that is unknown or fails decides the error. */
  ghost predicate FailsAt(calls: seq<ToolCall>, names: set<string>, runtime: ToolRuntime, n: nat, j: int, e: Error) {
    && 0 <= j < |calls|
    && (forall i :: 0 <= i < j ==> Known(calls[i], names) && runtime(n, i, calls[i]).Finished?)
    && (if !Known(calls[j], names) then e == UnknownToolCall else runtime(n, j, calls[j]).Failed? && e == ToolFailed)
  }

  /** `executeToolCalls`: the reply, then exactly one tool message per call, in call order and under its id. */
  method ExecuteToolCalls(messages: seq<Message>, reply: Message, configured: bool, names: set<string>,
                          runtime: ToolRuntime, n: nat)
    returns (r: Result<seq<Message>>, ghost contents: seq<string>)
    ensures !configured ==> r == Failure(ToolRuntimeMissing)
    ensures configured && r.Failure? ==> exists j :: FailsAt(reply.calls, names, runtime, n, j, r.error)
    ensures r.Success? ==>
              && configured && |contents| == |reply.calls|
              && (forall j :: 0 <= j < |contents| ==>
                    Known(reply.calls[j], names) && runtime(n, j, reply.calls[j]) == Finished(contents[j]))
              && r.value == messages + RoundMessages(Round(reply, contents))
  {
    contents := [];
    if !configured { return Failure(ToolRuntimeMissing), []; }
    var all := messages + [reply];
    var j := 0;
    while j < |reply.calls|
      invariant 0 <= j <= |reply.calls| && |contents| == j && |all| == |messages| + 1 + j
      invariant forall i :: 0 <= i < j ==>
                  Known(reply.calls[i], names) && runtime(n, i, reply.calls[i]) == Finished(contents[i])
      invariant all[..|messages| + 1] == messages + [reply]
      invariant forall i :: 0 <= i < j ==> all[|messages| + 1 + i] == ToolMessage(reply.calls[i], contents[i])
    {
      var call := reply.calls[j];
      if !Known(call, names) {
        assert FailsAt(reply.calls, names, runtime, n, j, UnknownToolCall);
        return Failure(UnknownToolCall), contents;
      }
      var outcome := runtime(n, j, call);
      if outcome.Failed? {
        assert FailsAt(reply.calls, names, runtime, n, j, ToolFailed);
        return Failure(ToolFailed), contents;
      }
      all := all + [ToolMessage(call, outcome.content)];
      contents := contents + [outcome.content];
      j := j + 1;
    }
    assert all == messages + RoundMessages(Round(reply, contents));
    return Success(all), contents;
  }

  // ---------- what a request to the model must carry ----------

  /** The same message, its content perhaps shortened to the policy's limit. */
  ghost predicate Same(original: Message, shown: Message, p: Policy)
    requires p == NormalizePolicy(p)
  {
    && shown.role == original.role && shown.calls == original.calls && shown.callId == original.callId
    && Shortened(original.content, shown.content, LimitFor(original, p))
  }

  /** The list ends with every message of the turn and has more before it. */
  ghost predicate Carries(ms: seq<Message>, turn: seq<Message>, p: Policy)
    requires p == NormalizePolicy(p)
  {
    |turn| < |ms| && forall i :: 0 <= i < |turn| ==> Same(turn[i], ms[|ms| - |turn| + i], p)
  }

  /** Opened by the user, and by nobody else claimed to be the user's. */
  ghost predicate TurnShape(turn: seq<Message>) {
    |turn| > 0 && turn[0].role == User && forall i :: 0 < i < |turn| ==> turn[i].role != User
  }

  /** A request: the messages sent, and the current turn so far. */
  datatype Request = Request(messages: seq<Message>, turn: seq<Message>)

  /**
   The request starts with the system prompt, ends with the whole turn, continues with no
   tool result, and fits the budget unless the prompt and the turn alone do not.
   */
  ghost predicate Sound(r: Request, prompt: string, p: Policy)
    requires p == NormalizePolicy(p)
  {
    && TurnShape(r.turn) && Carries(r.messages, r.turn, p)
    && Same(SystemMessage(prompt), r.messages[0], p)
    && r.messages[1].role != Tool
    && Tokens(r.messages) <= Max(p.maxApproxTokens, Tokens([r.messages[0]] + r.messages[|r.messages| - |r.turn|..]))
  }

  /** The next request drops a part of the middle, cut where no tool result starts, and shortens the rest. */
  ghost predicate CutAt(m: seq<Message>, next: seq<Message>, k: int, p: Policy) {
    1 <= k < |m| && m[k].role != Tool && next == Compact([m[0]] + m[k..], p)
  }

  lemma CutShifts(m: seq<Message>, next: seq<Message>, k: int, p: Policy, j: int)
    requires CutAt(m, next, k, p) && k <= j < |m|
    ensures |next| == |m| - k + 1 && next[j - k + 1] == CompactMessage(m[j], p) && next[j - k + 1].role == m[j].role
  {
  }

  /** Every assistant message and its tool results are all still there, or all gone. */
  lemma CutKeepsEveryGroup(m: seq<Message>, next: seq<Message>, k: int, p: Policy, i: int, end: int)
    requires CutAt(m, next, k, p) && Group(m, i, end) && 0 < i
    ensures end <= k || Group(next, i - k + 1, end - k + 1)
    ensures end > k ==> k <= i && next[i - k + 1..end - k + 1] == Compact(m[i..end], p)
  {
    hide CompactMessage;
    if end > k {
      assert k <= i;
      forall j | i <= j < end ensures next[j - k + 1] == CompactMessage(m[j], p) && next[j - k + 1].role == m[j].role {
        CutShifts(m, next, k, p, j);
      }
      CutShifts(m, next, k, p, i);
      if end < |m| { CutShifts(m, next, k, p, end); }
      forall j | i - k + 1 < j < end - k + 1 ensures next[j].role == Tool {
        assert next[(j + k - 1) - k + 1].role == m[j + k - 1].role;
      }
      var kept, sent := next[i - k + 1..end - k + 1], Compact(m[i..end], p);
      forall j | 0 <= j < |kept| ensures kept[j] == sent[j] {
        assert kept[j] == next[(i + j) - k + 1] && m[i..end][j] == m[i + j];
      }
    }
  }

  lemma CutStaysGrouped(m: seq<Message>, next: seq<Message>, k: int, p: Policy)
    requires CutAt(m, next, k, p) && Grouped(m)
    ensures Grouped(next)
  {
  }

  lemma SameAfterCompact(original: Message, shown: Message, p: Policy)
    requires p == NormalizePolicy(p) && Same(original, shown, p)
    ensures Same(original, CompactMessage(shown, p), p)
  {
  }

  /**
   When the last round ends in a tool result, compaction protects exactly the whole turn
   if and only if no later message of the turn claims to be the user's: such a message
   would become the new anchor and expose what is before it.
   */
  lemma TurnIsMandatoryExactly(n: seq<Message>, turn: seq<Message>)
    requires 1 < |turn| < |n| && turn[0].role == User && turn[|turn| - 1].role == Tool
    requires forall i {:trigger turn[i]} :: 0 <= i < |turn| ==> n[|n| - |turn| + i].role == turn[i].role
    ensures MandatoryFrom(n) == |n| - |turn| <==> forall i :: 0 < i < |turn| ==> turn[i].role != User
  {
    var u, f := |n| - |turn|, FirstTrailingTool(n);
    assert n[|n| - 1].role == turn[|turn| - 1].role && n[u].role == turn[0].role;
    assert u < TailStart(n) <= f < |n|;
    if forall i :: 0 < i < |turn| ==> turn[i].role != User {
      forall j | u < j < |n| ensures n[j].role != User {
        assert n[u + (j - u)].role == turn[j - u].role;
      }
      assert LatestUser(n, TailStart(n)) == u;
    } else {
      var i :| 0 < i < |turn| && turn[i].role == User;
      assert n[u + i].role == User;
      assert u + i < TailStart(n);
    }
  }

  lemma CompactCarries(m: seq<Message>, turn: seq<Message>, p: Policy, next: seq<Message>, kept: nat)
    requires p == NormalizePolicy(p) && Carries(m, turn, p)
    requires 1 <= kept <= |m| - |turn| && next == [Compact(m, p)[0]] + Compact(m, p)[kept..]
    ensures Carries(next, turn, p)
    ensures next[|next| - |turn|..] == Compact(m, p)[|m| - |turn|..]
    ensures next == Compact([m[0]] + m[kept..], p)
  {
    hide Same, CompactMessage;
    forall i | 0 <= i < |turn| ensures Same(turn[i], next[|next| - |turn| + i], p) {
      SameAfterCompact(turn[i], m[|m| - |turn| + i], p);
    }
  }

  lemma RolesOf(m: seq<Message>, turn: seq<Message>, p: Policy)
    requires p == NormalizePolicy(p) && Carries(m, turn, p)
    ensures forall i {:trigger turn[i]} :: 0 <= i < |turn| ==> m[|m| - |turn| + i].role == turn[i].role
    ensures forall i :: 0 <= i < |m| ==> Compact(m, p)[i].role == m[i].role
  {
  }

  /** Compacting a conversation that carries the turn never drops any of it, and never fails. */
  lemma CompactionCarries(m: seq<Message>, turn: seq<Message>, prompt: string, p: Policy, next: seq<Message>, kept: nat)
    requires p == NormalizePolicy(p) && Carries(m, turn, p)
    requires |turn| > 1 && TurnShape(turn) && turn[|turn| - 1].role == Tool
    requires Same(SystemMessage(prompt), m[0], p)
    requires var n := Compact(m, p);
             var from := MandatoryFrom(n);
             && CutLongest(n, from, kept, p) && next == [n[0]] + n[kept..]
             && Tokens(next) <= Max(p.maxApproxTokens, Tokens([n[0]] + n[from..]))
    ensures Sound(Request(next, turn), prompt, p) && CutAt(m, next, kept, p)
    ensures CutLongest(Compact(m, p), |m| - |turn|, kept, p)
  {
    hide MandatoryFrom, TailStart, FirstTrailingTool, LatestUser, Tokens, Same, Carries, Max, Compact, CompactMessage;
    var n := Compact(m, p);
    var u := |m| - |turn|;
    assert 1 <= u by { CarriesMeans(m, turn, p); }
    RolesOf(m, turn, p);
    TurnIsMandatoryExactly(n, turn);
    CompactCarries(m, turn, p, next, kept);
    SameAfterCompact(SystemMessage(prompt), m[0], p);
    assert n[u].role == turn[0].role;
    assert next[1] == n[kept];
  }

  lemma CarriesMeans(m: seq<Message>, turn: seq<Message>, p: Policy)
    requires p == NormalizePolicy(p) && Carries(m, turn, p)
    ensures |turn| < |m|
  {
  }

  // ---------- the loop ----------

  datatype Run = Run(prompt: string, text: string, history: seq<Message>, names: set<string>, maxIterations: int)

  datatype Options = Options(policy: Policy, maxIterations: int, configured: bool)

  datatype RunResult = RunResult(messages: seq<Message>, reply: string, turn: seq<Message>)

  ghost predicate Whole(rounds: seq<Round>) {
    forall i :: 0 <= i < |rounds| ==> |rounds[i].contents| == |rounds[i].reply.calls| > 0
  }

  /** The current turn after some rounds: the user's text, then each reply with its results. */
  ghost function TurnOf(text: string, rounds: seq<Round>): (turn: seq<Message>)
    requires Whole(rounds)
    ensures |turn| > 0
  {
    if rounds == [] then [UserMessage(text)]
    else TurnOf(text, rounds[..|rounds| - 1]) + RoundMessages(rounds[|rounds| - 1])
  }

  /** No reply so far claimed to be the user's. */
  ghost predicate NoneAsUser(rounds: seq<Round>) {
    forall i :: 0 <= i < |rounds| ==> rounds[i].reply.role != User
  }

  ghost predicate AllAsAssistant(rounds: seq<Round>) {
    forall i :: 0 <= i < |rounds| ==> rounds[i].reply.role == Assistant
  }

  /** Round i is what the model answered to request i and what the tools returned for it. */
  ghost predicate Ran(r: Round, i: nat, request: Request, names: set<string>, model: Model, runtime: ToolRuntime) {
    && model(i, request.messages) == Some(r.reply)
    && r.reply.calls != [] && |r.contents| == |r.reply.calls|
    && forall j :: 0 <= j < |r.contents| ==>
         Known(r.reply.calls[j], names) && runtime(i, j, r.reply.calls[j]) == Finished(r.contents[j])
  }

  /** The requests and rounds of a run so far, each request but the last followed by its round. */
  ghost predicate Recorded(requests: seq<Request>, rounds: seq<Round>, run: Run, model: Model, runtime: ToolRuntime) {
    && Whole(rounds)
    && |requests| == |rounds| + 1
    && (forall i :: 0 <= i < |rounds| ==> Ran(rounds[i], i, requests[i], run.names, model, runtime))
    && (forall i :: 0 <= i < |requests| ==> requests[i].turn == TurnOf(run.text, rounds[..i]))
  }

  /** What was sent after a round is the conversation with that round, shortened and cut no more than the budget demands. */
  ghost predicate CutBetween(before: Request, r: Round, after: Request, p: Policy)
    requires |r.contents| == |r.reply.calls|
  {
    var m := before.messages + RoundMessages(r);
    exists k :: CutAt(m, after.messages, k, p) && CutLongest(Compact(m, p), |m| - |after.turn|, k, p)
  }

  ghost predicate AllCut(requests: seq<Request>, rounds: seq<Round>, p: Policy)
    requires Whole(rounds) && |requests| == |rounds| + 1
  {
    forall i :: 0 <= i < |rounds| ==> CutBetween(requests[i], rounds[i], requests[i + 1], p)
  }

  ghost predicate AllSound(requests: seq<Request>, prompt: string, p: Policy)
    requires p == NormalizePolicy(p)
  {
    forall i :: 0 <= i < |requests| ==> Sound(requests[i], prompt, p)
  }

  ghost predicate AllGrouped(requests: seq<Request>) {
    forall i :: 0 <= i < |requests| ==> Grouped(requests[i].messages)
  }

  lemma TurnGrows(text: string, rounds: seq<Round>, r: Round)
    requires Whole(rounds) && |r.contents| == |r.reply.calls| > 0
    ensures Whole(rounds + [r]) && TurnOf(text, rounds + [r]) == TurnOf(text, rounds) + RoundMessages(r)
  {
  }

  /** Appending a round to a sound request keeps the prompt in front and the turn at the end. */
  lemma RoundAppended(request: Request, r: Round, prompt: string, p: Policy)
    requires p == NormalizePolicy(p) && Sound(request, prompt, p)
    requires r.reply.role != User && |r.contents| == |r.reply.calls| > 0
    ensures var m, turn := request.messages + RoundMessages(r), request.turn + RoundMessages(r);
            && Carries(m, turn, p) && |turn| > 1 && TurnShape(turn) && turn[|turn| - 1].role == Tool
            && Same(SystemMessage(prompt), m[0], p)
            && (Grouped(request.messages) && r.reply.role == Assistant ==> Grouped(m))
  {
    hide Tokens, Max, SystemMessage;
    var m, turn := request.messages + RoundMessages(r), request.turn + RoundMessages(r);
    assert forall i :: 1 <= i < |RoundMessages(r)| ==> RoundMessages(r)[i].role == Tool;
    assert |m| - |turn| == |request.messages| - |request.turn|;
  }

  lemma FirstRequestIsSound(run: Run, p: Policy, ms: seq<Message>, c: nat, d: nat)
    requires p == NormalizePolicy(p) && Assembled(ms, run.prompt, run.text, run.history, p, c, d)
    requires Tokens(ms) <= Max(p.maxApproxTokens, Fixed(run.prompt, run.text))
    ensures Sound(Request(ms, [UserMessage(run.text)]), run.prompt, p)
    ensures Grouped(run.history) ==> Grouped(ms)
  {
    hide Tokens, Affordable, NormalizePolicy, Max, CompactMessage;
    assert [ms[0]] + ms[|ms| - 1..] == [ms[0], ms[c + 1]];
    FirstRolesAre(run, p, ms, c, d);
    if c > 0 { assert ms[1].role == run.history[|run.history| - c].role; }
    if Grouped(run.history) {
      forall j | 0 < j < |ms| && ms[j].role == Tool ensures ms[j - 1].role in {Tool, Assistant} {
        assert 1 < j <= c;
        var k := |run.history| - c + j - 1;
        assert ms[1 + k - (|run.history| - c)].role == run.history[k].role;
        assert ms[1 + (k - 1) - (|run.history| - c)].role == run.history[k - 1].role;
      }
    }
  }

  lemma FirstRolesAre(run: Run, p: Policy, ms: seq<Message>, c: nat, d: nat)
    requires p == NormalizePolicy(p) && Assembled(ms, run.prompt, run.text, run.history, p, c, d)
    ensures forall k :: |run.history| - c <= k < |run.history| ==>
              ms[1 + k - (|run.history| - c)].role == run.history[k].role
  {
    hide Affordable, NormalizePolicy;
  }

  /** Everything promised about the requests of a run, at any point of it. */
  ghost predicate Trace(requests: seq<Request>, rounds: seq<Round>, run: Run, p: Policy, model: Model,
                        runtime: ToolRuntime)
    requires p == NormalizePolicy(p)
  {
    && Recorded(requests, rounds, run, model, runtime)
    && (NoneAsUser(rounds) ==> AllSound(requests, run.prompt, p) && AllCut(requests, rounds, p))
    && (AllAsAssistant(rounds) && Grouped(run.history) ==> AllGrouped(requests))
  }

  lemma TraceStarts(run: Run, p: Policy, ms: seq<Message>, c: nat, d: nat, model: Model, runtime: ToolRuntime)
    requires p == NormalizePolicy(p) && Assembled(ms, run.prompt, run.text, run.history, p, c, d)
    requires Tokens(ms) <= Max(p.maxApproxTokens, Fixed(run.prompt, run.text))
    ensures Trace([Request(ms, [UserMessage(run.text)])], [], run, p, model, runtime)
  {
    hide Tokens, Grouped, Sound, Max, Assembled, Fixed, NormalizePolicy;
    FirstRequestIsSound(run, p, ms, c, d);
  }

  lemma RecordedGrows(requests: seq<Request>, rounds: seq<Round>, r: Round, next: Request, run: Run,
                      model: Model, runtime: ToolRuntime)
    requires Recorded(requests, rounds, run, model, runtime)
    requires Ran(r, |rounds|, requests[|rounds|], run.names, model, runtime)
    requires next.turn == requests[|rounds|].turn + RoundMessages(r)
    ensures Recorded(requests + [next], rounds + [r], run, model, runtime)
  {
    hide Known, TurnOf, RoundMessages;
    var qs, rs := requests + [next], rounds + [r];
    TurnGrows(run.text, rounds, r);
    forall i | 0 <= i < |qs| ensures qs[i].turn == TurnOf(run.text, rs[..i]) {
      if i < |requests| {
        assert rs[..i] == rounds[..i];
      } else {
        assert rs[..i] == rs && rounds[..|rounds|] == rounds;
      }
    }
  }

  lemma TraceGrows(requests: seq<Request>, rounds: seq<Round>, r: Round, next: Request, kept: nat,
                   run: Run, p: Policy, model: Model, runtime: ToolRuntime)
    requires p == NormalizePolicy(p) && Trace(requests, rounds, run, p, model, runtime)
    requires Ran(r, |rounds|, requests[|rounds|], run.names, model, runtime)
    requires next.turn == requests[|rounds|].turn + RoundMessages(r)
    requires var n := Compact(requests[|rounds|].messages + RoundMessages(r), p);
             && n != []
             && var from := MandatoryFrom(n);
             && CutLongest(n, from, kept, p) && next.messages == [n[0]] + n[kept..]
             && Tokens(next.messages) <= Max(p.maxApproxTokens, Tokens([n[0]] + n[from..]))
    ensures Trace(requests + [next], rounds + [r], run, p, model, runtime)
  {
    hide Compact, MandatoryFrom, Tokens, Max, RoundMessages, Sound, Grouped, CutAt, Recorded, Whole;
    RecordedGrows(requests, rounds, r, next, run, model, runtime);
    RecordedMeans(requests, rounds, run, model, runtime);
    if NoneAsUser(rounds + [r]) {
      NoneAsUserSplits(rounds, r);
      RoundStaysSound(requests[|rounds|], r, next, kept, run.prompt, p);
      RecordedMeans(requests + [next], rounds + [r], run, model, runtime);
      CutsGrow(requests, rounds, r, next, p);
    }
    if AllAsAssistant(rounds + [r]) {
      NoneAsUserSplits(rounds, r);
      assert AllAsAssistant(rounds) && r.reply.role == Assistant by { AllAsAssistantSplits(rounds, r); }
    }
  }

  lemma NoneAsUserSplits(rounds: seq<Round>, r: Round)
    ensures NoneAsUser(rounds + [r]) <==> NoneAsUser(rounds) && r.reply.role != User
    ensures AllAsAssistant(rounds + [r]) ==> NoneAsUser(rounds + [r])
  {
    assert NoneAsUser(rounds + [r]) ==> NoneAsUser(rounds) by {
      if NoneAsUser(rounds + [r]) { assert forall i :: 0 <= i < |rounds| ==> rounds[i] == (rounds + [r])[i]; }
    }
    assert (rounds + [r])[|rounds|] == r;
  }

  lemma AllAsAssistantSplits(rounds: seq<Round>, r: Round)
    requires AllAsAssistant(rounds + [r])
    ensures AllAsAssistant(rounds) && r.reply.role == Assistant
  {
    assert forall i :: 0 <= i < |rounds| ==> rounds[i] == (rounds + [r])[i];
    assert (rounds + [r])[|rounds|] == r;
  }

  lemma RecordedMeans(requests: seq<Request>, rounds: seq<Round>, run: Run, model: Model, runtime: ToolRuntime)
    requires Recorded(requests, rounds, run, model, runtime)
    ensures Whole(rounds) && |requests| == |rounds| + 1
  {
  }

  lemma CutsGrow(requests: seq<Request>, rounds: seq<Round>, r: Round, next: Request, p: Policy)
    requires Whole(rounds) && Whole(rounds + [r]) && |requests| == |rounds| + 1 && AllCut(requests, rounds, p)
    requires |r.contents| == |r.reply.calls| && CutBetween(requests[|rounds|], r, next, p)
    ensures AllCut(requests + [next], rounds + [r], p)
  {
  }

  lemma RoundStaysSound(before: Request, r: Round, next: Request, kept: nat, prompt: string, p: Policy)
    requires p == NormalizePolicy(p) && Sound(before, prompt, p)
    requires r.reply.role != User && |r.contents| == |r.reply.calls| > 0
    requires next.turn == before.turn + RoundMessages(r)
    requires var c := Compact(before.messages + RoundMessages(r), p);
             && c != []
             && var from := MandatoryFrom(c);
             && CutLongest(c, from, kept, p) && next.messages == [c[0]] + c[kept..]
             && Tokens(next.messages) <= Max(p.maxApproxTokens, Tokens([c[0]] + c[from..]))
    ensures Sound(next, prompt, p) && CutBetween(before, r, next, p)
    ensures Grouped(before.messages) && r.reply.role == Assistant ==> Grouped(next.messages)
  {
    hide Compact, MandatoryFrom, Tokens, Max, RoundMessages, Sound, Grouped, CutAt, Carries, Same, TurnShape;
    var m := before.messages + RoundMessages(r);
    RoundAppended(before, r, prompt, p);
    CompactionCarries(m, next.turn, prompt, p, next.messages, kept);
    if Grouped(m) { CutStaysGrouped(m, next.messages, kept, p); }
  }

  /** How a run may end, given the last request it made. */
  ghost predicate Ended(result: Result<RunResult>, last: Request, n: nat, limit: int, run: Run, options: Options,
                        model: Model, runtime: ToolRuntime)
  {
    var answer := model(n, last.messages);
    match result
    case Success(v) =>
      && answer.Some? && (answer.value.calls == [] || n == limit)
      && v == RunResult(last.messages + [answer.value], answer.value.content, last.turn + [answer.value])
    case Failure(e) =>
      || (e == ModelFailed && answer == None)
      || (n < limit && answer.Some? && answer.value.calls != [] &&
          if options.configured then exists j :: FailsAt(answer.value.calls, run.names, runtime, n, j, e)
          else e == ToolRuntimeMissing)
  }

  /**
   The run made these requests, got these rounds for all but the last, and ended with the last.
   The first request is assembled from the newest messages of the history.
   */
  ghost predicate RanThrough(result: Result<RunResult>, requests: seq<Request>, rounds: seq<Round>, limit: int,
                             run: Run,
                             options: Options, model: Model, runtime: ToolRuntime)
  {
    var p := NormalizePolicy(options.policy);
    && NormalizePolicy(p) == p
    && Trace(requests, rounds, run, p, model, runtime)
    && |requests| == |rounds| + 1 <= limit + 1
    && (exists c, d :: Assembled(requests[0].messages, run.prompt, run.text, run.history, p, c, d))
    && Ended(result, requests[|rounds|], |rounds|, limit, run, options, model, runtime)
  }

  /**
   `executePromptToolRun`. The run's own iteration limit wins over the service's, and without
   either there is one iteration; at most one request more than that is made, and compaction
   never fails. As long as no reply is in the user's role, every request begins with the
   system prompt, carries the whole current turn and fits the budget if it can, and
   compaction keeps or drops each group whole; as long as replies are the assistant's, no
   request has a stray tool result.
   */
  method ExecutePromptToolRun(run: Run, options: Options, model: Model, runtime: ToolRuntime)
    returns (result: Result<RunResult>)
    ensures var limit := if run.maxIterations > 0 then run.maxIterations
                         else if options.maxIterations > 0 then options.maxIterations else 1;
            exists requests, rounds :: RanThrough(result, requests, rounds, limit, run, options, model, runtime)
  {
    ghost var requests, rounds;
    result, requests, rounds := ExecuteRounds(run, options, model, runtime);
  }

  method ExecuteRounds(run: Run, options: Options, model: Model, runtime: ToolRuntime)
    returns (result: Result<RunResult>, ghost requests: seq<Request>, ghost rounds: seq<Round>)
    ensures var limit := if run.maxIterations > 0 then run.maxIterations
                         else if options.maxIterations > 0 then options.maxIterations else 1;
            RanThrough(result, requests, rounds, limit, run, options, model, runtime)
  {
    hide Trace, Compact, MandatoryFrom, SelectFrom, Max, Tokens, BoundHistory, NormalizePolicy, Assembled, Affordable,
      Fixed;
    hide RoundMessages, AllTools, FailsAt, Known;
    var p := NormalizePolicy(options.policy);
    NormalizedTwice(options.policy);
    var limit := run.maxIterations;
    if limit <= 0 { limit := options.maxIterations; }
    if limit <= 0 { limit := 1; }
    var messages, report := Assemble(run.prompt, run.text, run.history, p);
    ghost var d :| Assembled(messages, run.prompt, run.text, run.history, p, report.includedCount, d);
    var turn := [UserMessage(run.text)];
    requests, rounds := [Request(messages, turn)], [];
    TraceStarts(run, p, messages, report.includedCount, d, model, runtime);
    AssembledStarts(messages, run, p, report.includedCount, d);
    ghost var first := messages;
    var iteration := 0;
    while iteration < limit
      invariant 0 <= iteration <= limit && |rounds| == iteration
      invariant Trace(requests, rounds, run, p, model, runtime)
      invariant |requests| == |rounds| + 1 && requests[iteration] == Request(messages, turn)
      invariant requests[0].messages == first
      invariant |messages| >= 2 && messages[0].role == System
    {
      var answer := model(iteration, messages);
      if answer.None? {
        result := Failure(ModelFailed);
        return;
      }
      var reply := answer.value;
      if |reply.calls| == 0 {
        result := Success(RunResult(messages + [reply], reply.content, turn + [reply]));
        return;
      }
      var called, contents := ExecuteToolCalls(messages, reply, options.configured, run.names, runtime, iteration);
      if called.Failure? {
        result := Failure(called.error);
        return;
      }
      ghost var round := Round(reply, contents);
      var before := |messages|;
      turn := turn + called.value[before..];
      var c, kept := CompactMessages(called.value, p);
      StartsWithSystem(called.value);
      assert called.value[before..] == RoundMessages(round);
      assert Ran(round, iteration, requests[iteration], run.names, model, runtime);
      messages := c.messages;
      TraceGrows(requests, rounds, round, Request(messages, turn), kept, run, p, model, runtime);
      requests, rounds := requests + [Request(messages, turn)], rounds + [round];
      iteration := iteration + 1;
    }
    var answer := model(iteration, messages);
    if answer.None? {
      result := Failure(ModelFailed);
    } else {
      result := Success(RunResult(messages + [answer.value], answer.value.content, turn + [answer.value]));
    }
  }

  lemma AssembledStarts(messages: seq<Message>, run: Run, p: Policy, c: nat, d: nat)
    requires Assembled(messages, run.prompt, run.text, run.history, p, c, d)
    ensures |messages| >= 2 && messages[0].role == System
  {
  }

  lemma NormalizedTwice(p: Policy)
    ensures NormalizePolicy(NormalizePolicy(p)) == NormalizePolicy(p)
  {
  }

  lemma StartsWithSystem(ms: seq<Message>)
    requires ms != [] && ms[0].role == System
    ensures !AllTools(ms)
  {
  }
}
