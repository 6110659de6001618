/**
 The context engine: which messages of a conversation are sent to the model under an
 approximate token budget, and how long contents are cut.
 */
module ContextAssembler {
  import opened Text

  const DEFAULT_MAX_APPROX_TOKENS := 32000
  const DEFAULT_MAX_TOOL_RESULT_CHARS := 12000
  const DEFAULT_MAX_HISTORY_MESSAGES := 20

  datatype Role = System | User | Assistant | Tool | Other(name: string)

  /** Arguments are held as they are rendered. */
  datatype ToolCall = ToolCall(id: string, name: string, arguments: seq<(string, string)>)

  datatype Message = Message(role: Role, content: string, calls: seq<ToolCall>, callId: string)

  datatype Policy = Policy(maxHistoryMessages: int, maxApproxTokens: int, maxToolResultChars: int, maxMessageTextChars: int)

  function OrDefault(n: int, default: int): int { if n <= 0 then default else n }

  /** `normalizePolicy` */
  function NormalizePolicy(p: Policy): (r: Policy)
    ensures r.maxHistoryMessages > 0 && r.maxApproxTokens > 0 && r.maxToolResultChars > 0 && r.maxMessageTextChars > 0
  {
    Policy(OrDefault(p.maxHistoryMessages, DEFAULT_MAX_HISTORY_MESSAGES),
           OrDefault(p.maxApproxTokens, DEFAULT_MAX_APPROX_TOKENS),
           OrDefault(p.maxToolResultChars, DEFAULT_MAX_TOOL_RESULT_CHARS),
           OrDefault(p.maxMessageTextChars, DEFAULT_MAX_TOOL_RESULT_CHARS))
  }

  /** A limit that is not positive is replaced by its default. */
  lemma PolicyDefaults(p: Policy)
    ensures NormalizePolicy(p) == Policy(if p.maxHistoryMessages > 0 then p.maxHistoryMessages else 20,
                                         if p.maxApproxTokens > 0 then p.maxApproxTokens else 32000,
                                         if p.maxToolResultChars > 0 then p.maxToolResultChars else 12000,
                                         if p.maxMessageTextChars > 0 then p.maxMessageTextChars else 12000)
  {
  }

  // ---------- token estimates ----------

  function ApproximateTokens(text: string): nat {
    if |text| == 0 then 0 else (|text| + 2) / 3
  }

  function RoleName(role: Role): string {
    match role
    case System => "system"
    case User => "user"
    case Assistant => "assistant"
    case Tool => "tool"
    case Other(name) => name
  }

  function ArgumentTokens(arguments: seq<(string, string)>): nat {
    if arguments == [] then 0
    else ApproximateTokens(arguments[0].0) + ApproximateTokens(arguments[0].1) + ArgumentTokens(arguments[1..])
  }

  function CallTokens(calls: seq<ToolCall>): nat {
    if calls == [] then 0
    else
      ApproximateTokens(calls[0].id) + ApproximateTokens(calls[0].name)
      + ArgumentTokens(calls[0].arguments) + CallTokens(calls[1..])
  }

  function MessageTokens(m: Message): nat {
    ApproximateTokens(RoleName(m.role)) + ApproximateTokens(m.content) + CallTokens(m.calls) + ApproximateTokens(m.callId)
  }

  /** `estimateMessagesTokens` */
  function Tokens(ms: seq<Message>): nat {
    if ms == [] then 0 else MessageTokens(ms[0]) + Tokens(ms[1..])
  }

  /** The texts of a message that count: its role, its content, the parts of its calls, and the call it answers. */
  ghost function Texts(m: Message): seq<string> {
    var role := match m.role
      case System => "system" case User => "user" case Assistant => "assistant" case Tool => "tool" case Other(name) => name;
    [role, m.content] + CallTexts(m.calls) + [m.callId]
  }

  ghost function CallTexts(calls: seq<ToolCall>): seq<string> {
    if calls == [] then [] else [calls[0].id, calls[0].name] + ArgumentTexts(calls[0].arguments) + CallTexts(calls[1..])
  }

  ghost function ArgumentTexts(arguments: seq<(string, string)>): seq<string> {
    if arguments == [] then [] else [arguments[0].0, arguments[0].1] + ArgumentTexts(arguments[1..])
  }

  /** One token for every three characters of a text, and one for the rest of it. */
  ghost function Thirds(texts: seq<string>): nat {
    if texts == [] then 0
    else Thirds(texts[1..]) + |texts[0]| / 3 + if |texts[0]| % 3 == 0 then 0 else 1
  }

  lemma {:induction false} ThirdsConcat(a: seq<string>, b: seq<string>)
    ensures Thirds(a + b) == Thirds(a) + Thirds(b)
  {
    if a == [] {
      assert a + b == b;
    } else {
      assert (a + b)[1..] == a[1..] + b;
      ThirdsConcat(a[1..], b);
    }
  }

  lemma TextCostsThirds(a: string, b: string)
    ensures Thirds([a]) == ApproximateTokens(a) && Thirds([a, b]) == ApproximateTokens(a) + ApproximateTokens(b)
  {
    assert [a, b][1..] == [b] && [b][1..] == [] && [a][1..] == [];
    assert Thirds([b]) == ApproximateTokens(b);
  }

  lemma {:induction false} ArgumentsCostThirds(arguments: seq<(string, string)>)
    ensures ArgumentTokens(arguments) == Thirds(ArgumentTexts(arguments))
  {
    hide Thirds, ApproximateTokens;
    if arguments == [] {
      NoThirds();
    } else {
      ArgumentsCostThirds(arguments[1..]);
      TextCostsThirds(arguments[0].0, arguments[0].1);
      ThirdsConcat([arguments[0].0, arguments[0].1], ArgumentTexts(arguments[1..]));
    }
  }

  lemma {:induction false} CallsCostThirds(calls: seq<ToolCall>)
    ensures CallTokens(calls) == Thirds(CallTexts(calls))
  {
    hide Thirds, ApproximateTokens, ArgumentTexts, ArgumentTokens;
    if calls == [] {
      NoThirds();
    } else {
      var c := calls[0];
      CallsCostThirds(calls[1..]);
      ArgumentsCostThirds(c.arguments);
      TextCostsThirds(c.id, c.name);
      ThirdsConcat([c.id, c.name] + ArgumentTexts(c.arguments), CallTexts(calls[1..]));
      ThirdsConcat([c.id, c.name], ArgumentTexts(c.arguments));
    }
  }

  lemma NoThirds()
    ensures Thirds([]) == 0
  {
  }

  /** What a message is estimated to cost. */
  lemma MessageCostsThirds(m: Message)
    ensures MessageTokens(m) == Thirds(Texts(m))
  {
    hide Thirds, ApproximateTokens, CallTexts, CallTokens;
    CallsCostThirds(m.calls);
    var role := RoleName(m.role);
    TextCostsThirds(role, m.content);
    TextCostsThirds(m.callId, "");
    ThirdsConcat([role, m.content] + CallTexts(m.calls), [m.callId]);
    ThirdsConcat([role, m.content], CallTexts(m.calls));
  }

  lemma {:induction false} TokensConcat(a: seq<Message>, b: seq<Message>)
    ensures Tokens(a + b) == Tokens(a) + Tokens(b)
  {
    if a == [] {
      assert a + b == b;
    } else {
      assert (a + b)[1..] == a[1..] + b;
      TokensConcat(a[1..], b);
    }
  }

  lemma SuffixCostsLess(ms: seq<Message>, i: nat, j: nat)
    requires i <= j <= |ms|
    ensures Tokens(ms[j..]) <= Tokens(ms[i..])
  {
    assert ms[i..] == ms[i..j] + ms[j..];
    TokensConcat(ms[i..j], ms[j..]);
  }

  // ---------- truncation ----------

  function LimitFor(m: Message, p: Policy): int {
    if m.role == Tool then p.maxToolResultChars else p.maxMessageTextChars
  }

  function Marker(chars: nat): string {
    "\n\n[Context truncated: original_chars=" + Itoa(chars) + "]"
  }

  function Truncate(content: string, limit: int): string {
    if limit <= 0 || |content| <= limit then content else content[..limit] + Marker(|content|)
  }

  /** `compactMessageContent` */
  function CompactMessage(m: Message, p: Policy): Message {
    m.(content := Truncate(m.content, LimitFor(m, p)))
  }

  /** `compactHistory` */
  function Compact(ms: seq<Message>, p: Policy): (r: seq<Message>)
    ensures |r| == |ms|
    ensures forall i :: 0 <= i < |ms| ==> r[i] == CompactMessage(ms[i], p)
  {
    seq(|ms|, i requires 0 <= i < |ms| => CompactMessage(ms[i], p))
  }

  /**
   Shortening a message leaves all but its content, and of a content over the limit of its
   role the first characters, with a note of how many there were.
   */
  lemma CompactMessageTold(m: Message, p: Policy)
    ensures var limit := if m.role == Tool then p.maxToolResultChars else p.maxMessageTextChars;
            var over := 0 < limit < |m.content|;
            CompactMessage(m, p) == m.(content := if over then
              m.content[..limit] + "\n\n[Context truncated: original_chars=" + Itoa(|m.content|) + "]" else m.content)
  {
    var limit := if m.role == Tool then p.maxToolResultChars else p.maxMessageTextChars;
    if 0 < limit < |m.content| {
      assert CompactMessage(m, p).content == m.content[..limit] + Marker(|m.content|);
    }
  }

  /**
   Truncating twice is truncating once exactly when the content fits, or is just as long
   as its own truncation: otherwise the marker pushes it over the limit again and the
   recorded length changes.
   */
  lemma TruncateTwiceExactly(content: string, limit: nat)
    requires limit > 0
    ensures Truncate(Truncate(content, limit), limit) == Truncate(content, limit)
       <==> |content| <= limit || |content| == limit + |Marker(|content|)|
  {
    if |content| > limit {
      var once := Truncate(content, limit);
      assert once[..limit] == content[..limit];
      assert Truncate(once, limit) == content[..limit] + Marker(|once|);
      if Truncate(once, limit) == once {
        assert Truncate(once, limit)[limit..] == Marker(|once|) && once[limit..] == Marker(|content|);
        MarkerInjective(|once|, |content|);
      }
    }
  }

  lemma MarkerInjective(m: nat, n: nat)
    requires Marker(m) == Marker(n)
    ensures m == n
  {
    var prefix := "\n\n[Context truncated: original_chars=";
    var a, b := Marker(m), Marker(n);
    assert a[|prefix|..|a| - 1] == Itoa(m);
    assert b[|prefix|..|b| - 1] == Itoa(n);
    ItoaInjective(m, n);
  }

  /** A short content is never touched; of a long one the first characters up to the limit stay. */
  ghost predicate Shortened(original: string, shortened: string, limit: nat) {
    if |original| <= limit then shortened == original
    else |shortened| > limit && shortened[..limit] == original[..limit]
  }

  // ---------- selection under a budget ----------

  /** Where the longest suffix that fits the budget starts. */
  function KeepFrom(ms: seq<Message>, budget: int): (k: nat)
    requires budget > 0
    ensures k <= |ms|
  {
    if ms == [] || Tokens(ms) <= budget then 0 else 1 + KeepFrom(ms[1..], budget)
  }

  /** The suffix kept fits the budget, and no longer one does. */
  lemma {:induction false} KeepFromIsLongest(ms: seq<Message>, budget: int)
    requires budget > 0
    ensures var k := KeepFrom(ms, budget);
            Tokens(ms[k..]) <= budget && forall j :: 0 <= j < k ==> Tokens(ms[j..]) > budget
  {
    var k := KeepFrom(ms, budget);
    if k > 0 {
      KeepFromIsLongest(ms[1..], budget);
      assert ms[1..][k - 1..] == ms[k..];
      forall j | 0 <= j < k ensures Tokens(ms[j..]) > budget {
        if j > 0 { assert ms[1..][j - 1..] == ms[j..]; }
      }
      assert ms[0..] == ms;
    } else {
      assert ms[0..] == ms;
    }
  }

  lemma {:induction false} KeepFromUnique(ms: seq<Message>, budget: int, k: nat)
    requires budget > 0 && k <= |ms| && Tokens(ms[k..]) <= budget
    requires k > 0 ==> Tokens(ms[k - 1..]) > budget
    ensures k == KeepFrom(ms, budget)
  {
    hide Tokens, KeepFrom;
    KeepFromIsLongest(ms, budget);
    var best := KeepFrom(ms, budget);
    if best < k { SuffixCostsLess(ms, best, k - 1); }
  }

  /** Leading tool messages, counted. */
  function LeadingTools(ms: seq<Message>): (k: nat)
    ensures k <= |ms|
    ensures k < |ms| ==> ms[k].role != Tool
    ensures forall i :: 0 <= i < k ==> ms[i].role == Tool
  {
    if ms == [] || ms[0].role != Tool then 0
    else
      var rest := LeadingTools(ms[1..]);
      assert forall i :: 1 <= i < 1 + rest ==> ms[i] == ms[1..][i - 1];
      1 + rest
  }

  /** Where the selected history starts: the longest fitting suffix, without tool results at its head. */
  function SelectFrom(ms: seq<Message>, budget: int): (k: nat)
    ensures k <= |ms|
  {
    if budget <= 0 then |ms|
    else
      var k := KeepFrom(ms, budget);
      k + LeadingTools(ms[k..])
  }

  method ReverseMessages(ms: seq<Message>) returns (r: seq<Message>)
    ensures |r| == |ms| && forall i :: 0 <= i < |ms| ==> r[i] == ms[|ms| - 1 - i]
  {
    r := ms;
    var left, right := 0, |ms| - 1;
    while left < right
      invariant |r| == |ms| && 0 <= left <= right + 1 && left + right == |ms| - 1
      invariant forall i :: 0 <= i < left ==> r[i] == ms[|ms| - 1 - i] && r[|ms| - 1 - i] == ms[i]
      invariant forall i :: left <= i <= right ==> r[i] == ms[i]
    {
      r := r[left := r[right]][right := r[left]];
      left, right := left + 1, right - 1;
    }
  }

  method DropLeadingToolMessages(ms: seq<Message>) returns (r: seq<Message>)
    ensures r == ms[LeadingTools(ms)..]
  {
    var index := 0;
    while index < |ms| && ms[index].role == Tool
      invariant 0 <= index <= |ms| && forall i :: 0 <= i < index ==> ms[i].role == Tool
    {
      index := index + 1;
    }
    return ms[index..];
  }

  lemma NoTokens()
    ensures Tokens([]) == 0
  {
  }

  /** The newest messages that fit the budget, newest first. */
  method TakeNewest(history: seq<Message>, budget: int) returns (picked: seq<Message>)
    requires budget > 0
    ensures |picked| == |history| - KeepFrom(history, budget)
    ensures forall i :: 0 <= i < |picked| ==> picked[i] == history[|history| - 1 - i]
  {
    hide KeepFrom, Tokens;
    assert history[|history|..] == [];
    NoTokens();
    var used, index := 0, |history| - 1;
    picked := [];
    while index >= 0
      invariant -1 <= index < |history| && |picked| == |history| - 1 - index
      invariant forall i :: 0 <= i < |picked| ==> picked[i] == history[|history| - 1 - i]
      invariant used == Tokens(history[index + 1..]) && used <= budget
    {
      var cost := Tokens([history[index]]);
      assert history[index..] == [history[index]] + history[index + 1..];
      TokensConcat([history[index]], history[index + 1..]);
      if used + cost > budget { break; }
      picked, used := picked + [history[index]], used + cost;
      index := index - 1;
    }
    KeepFromUnique(history, budget, index + 1);
  }

  /** `selectHistoryWithinBudget` */
  method SelectHistoryWithinBudget(history: seq<Message>, budget: int) returns (selected: seq<Message>, dropped: nat)
    ensures selected == history[SelectFrom(history, budget)..]
    ensures |selected| + dropped == |history|
  {
    if |history| == 0 { return [], 0; }
    if budget <= 0 { return [], |history|; }
    selected := TakeNewest(history, budget);
    selected := ReverseMessages(selected);
    ghost var k := KeepFrom(history, budget);
    assert selected == history[k..];
    assert history[k..][LeadingTools(history[k..])..] == history[k + LeadingTools(history[k..])..];
    selected := DropLeadingToolMessages(selected);
    dropped := |history| - |selected|;
  }

  lemma SelectionFits(ms: seq<Message>, budget: int)
    ensures Tokens(ms[SelectFrom(ms, budget)..]) <= if budget > 0 then budget else 0
    ensures SelectFrom(ms, budget) < |ms| ==> ms[SelectFrom(ms, budget)].role != Tool
  {
    if budget > 0 {
      var k := KeepFrom(ms, budget);
      KeepFromIsLongest(ms, budget);
      SuffixCostsLess(ms, k, SelectFrom(ms, budget));
    }
  }

  // ---------- groups ----------

  /** An assistant message and the tool results that follow it directly, from index i up to end. */
  ghost predicate Group(ms: seq<Message>, i: int, end: int) {
    && 0 <= i < end <= |ms| && ms[i].role == Assistant
    && (forall j :: i < j < end ==> ms[j].role == Tool)
    && (end < |ms| ==> ms[end].role != Tool)
  }

  /** Cutting at a message that is no tool result keeps every group whole or drops it whole. */
  lemma CutKeepsGroupsWhole(ms: seq<Message>, k: nat, i: nat, end: nat)
    requires k <= |ms| && (k < |ms| ==> ms[k].role != Tool) && Group(ms, i, end)
    ensures end <= k || k <= i
  {
  }

  /** Every tool result follows another one or an assistant message. */
  ghost predicate Grouped(ms: seq<Message>) {
    forall j :: 0 < j < |ms| && ms[j].role == Tool ==> ms[j - 1].role in {Tool, Assistant}
  }

  // ---------- assembling a request ----------

  datatype Report = Report(messageCount: nat, estimatedTokens: nat, historyCount: nat, includedCount: nat, droppedCount: nat)

  function Max(a: int, b: int): int { if a > b then a else b }

  function BoundHistory(history: seq<Message>, limit: int): seq<Message> {
    if limit > 0 && |history| > limit then history[|history| - limit..] else history
  }

  function SystemMessage(prompt: string): Message { Message(System, TrimSpace(prompt), [], "") }

  function UserMessage(text: string): Message { Message(User, text, [], "") }

  /** The newest messages of a history, shortened. */
  ghost function Newest(history: seq<Message>, d: nat, p: Policy): seq<Message>
    requires d <= |history|
  {
    seq(d, i requires 0 <= i < d => CompactMessage(history[|history| - d + i], p))
  }

  ghost function Fixed(prompt: string, text: string): nat {
    Tokens([Message(System, TrimSpace(prompt), [], ""), Message(User, text, [], "")])
  }

  /** The newest d messages are within the count, and there is room for them beside the prompt and the user's text. */
  ghost predicate Affordable(prompt: string, text: string, history: seq<Message>, p: Policy, d: nat) {
    && d <= |history|
    && (d > 0 ==>
          && d <= p.maxHistoryMessages && Fixed(prompt, text) < p.maxApproxTokens
          && Fixed(prompt, text) + Tokens(Newest(history, d, p)) <= p.maxApproxTokens)
  }

  /**
   The prompt, the newest c messages of the history, and the user's text. No more than d
   messages are affordable, and the c sent are all of these d but the tool results at their head.
   */
  ghost predicate Assembled(messages: seq<Message>, prompt: string, text: string, history: seq<Message>, p: Policy,
                            c: nat, d: nat)
  {
    && c <= d <= |history| && |messages| == c + 2
    && messages[0] == Message(System, TrimSpace(prompt), [], "") && messages[c + 1] == Message(User, text, [], "")
    && (forall k :: |history| - c <= k < |history| ==>
          messages[1 + k - (|history| - c)] == CompactMessage(history[k], p))
    && Affordable(prompt, text, history, p, d)
    && (forall e :: d < e <= |history| ==> !Affordable(prompt, text, history, p, e))
    && (forall k :: |history| - d <= k < |history| - c ==> history[k].role == Tool)
    && (c > 0 ==> history[|history| - c].role != Tool)
  }

  lemma NewestIsSuffix(history: seq<Message>, p: Policy, e: nat)
    requires p.maxHistoryMessages > 0 && e <= |BoundHistory(history, p.maxHistoryMessages)|
    ensures var bounded := Compact(BoundHistory(history, p.maxHistoryMessages), p);
            |bounded| <= |history| && Newest(history, e, p) == bounded[|bounded| - e..]
  {
    hide CompactMessage;
    var bounded := Compact(BoundHistory(history, p.maxHistoryMessages), p);
    assert |bounded| == |BoundHistory(history, p.maxHistoryMessages)|;
    forall i | 0 <= i < e ensures Newest(history, e, p)[i] == bounded[|bounded| - e..][i] {
      assert BoundHistory(history, p.maxHistoryMessages)[|bounded| - e + i] == history[|history| - e + i];
    }
  }

  /** Cutting the history to its count and then to its budget leaves the most that count and budget allow. */
  lemma AffordableIsWithin(prompt: string, text: string, history: seq<Message>, p: Policy, e: nat)
    requires p.maxHistoryMessages > 0 && e <= |history|
    ensures var bounded, budget := Compact(BoundHistory(history, p.maxHistoryMessages), p), p.maxApproxTokens - Fixed(prompt, text);
            Affordable(prompt, text, history, p, e)
            <==> e == 0 || (e <= |bounded| && budget > 0 && Tokens(bounded[|bounded| - e..]) <= budget)
  {
    hide CompactMessage, Tokens;
    if e <= |BoundHistory(history, p.maxHistoryMessages)| { NewestIsSuffix(history, p, e); }
  }

  lemma MostIsAffordable(prompt: string, text: string, history: seq<Message>, p: Policy, d: nat)
    requires p == NormalizePolicy(p)
    requires var bounded := Compact(BoundHistory(history, p.maxHistoryMessages), p);
             var budget := p.maxApproxTokens - Fixed(prompt, text);
             d == if budget <= 0 then 0 else |bounded| - KeepFrom(bounded, budget)
    ensures d <= |history| && Affordable(prompt, text, history, p, d)
    ensures forall e :: d < e <= |history| ==> !Affordable(prompt, text, history, p, e)
  {
    hide Tokens, KeepFrom, NormalizePolicy, Affordable, Fixed, Compact, BoundHistory;
    var bounded, budget := Compact(BoundHistory(history, p.maxHistoryMessages), p), p.maxApproxTokens - Fixed(prompt, text);
    PolicyIsPositive(p);
    BoundedIs(history, p);
    if budget > 0 { KeepFromIsLongest(bounded, budget); }
    AffordableIsWithin(prompt, text, history, p, d);
    forall e | d < e <= |history| ensures !Affordable(prompt, text, history, p, e) {
      AffordableIsWithin(prompt, text, history, p, e);
    }
  }

  lemma BoundedIs(history: seq<Message>, p: Policy)
    requires p == NormalizePolicy(p)
    ensures var bounded := Compact(BoundHistory(history, p.maxHistoryMessages), p);
            && |bounded| == (if |history| > p.maxHistoryMessages then p.maxHistoryMessages else |history|)
            && forall i :: 0 <= i < |bounded| ==> bounded[i] == CompactMessage(history[|history| - |bounded| + i], p)
  {
    hide CompactMessage, NormalizePolicy;
    PolicyIsPositive(p);
  }

  lemma CompactKeepsRole(m: Message, p: Policy)
    ensures CompactMessage(m, p).role == m.role
  {
  }

  /** Between the longest fitting suffix and the selected one are only tool results. */
  lemma SelectionDropsTools(ms: seq<Message>, budget: int)
    requires budget > 0
    ensures KeepFrom(ms, budget) <= SelectFrom(ms, budget)
    ensures forall i :: KeepFrom(ms, budget) <= i < SelectFrom(ms, budget) ==> ms[i].role == Tool
  {
    hide Tokens;
    var k := KeepFrom(ms, budget);
    forall i | k <= i < SelectFrom(ms, budget) ensures ms[i].role == Tool {
      assert ms[k..][i - k] == ms[i];
    }
  }

  /** The messages of the history from a position on are those of the bounded history from a position on. */
  lemma SentMessages(messages: seq<Message>, history: seq<Message>, bounded: seq<Message>, first: nat, p: Policy,
                     head: Message, last: Message)
    requires p == NormalizePolicy(p) && bounded == Compact(BoundHistory(history, p.maxHistoryMessages), p)
    requires first <= |bounded| && messages == [head] + bounded[first..] + [last]
    ensures |bounded| <= |history| && |bounded| <= p.maxHistoryMessages
    ensures var c := |bounded| - first;
            && |messages| == c + 2 && messages[0] == head && messages[c + 1] == last
            && forall k :: |history| - c <= k < |history| ==>
                 messages[1 + k - (|history| - c)] == CompactMessage(history[k], p)
  {
    hide *;
    BoundedIs(history, p);
    var c, gap := |bounded| - first, |history| - |bounded|;
    forall k | |history| - c <= k < |history|
      ensures messages[1 + k - (|history| - c)] == CompactMessage(history[k], p)
    {
      assert messages[1 + k - (|history| - c)] == bounded[first..][k - (|history| - c)] == bounded[k - gap];
      assert history[gap + (k - gap)] == history[k];
    }
  }

  lemma RolesOfBounded(history: seq<Message>, bounded: seq<Message>, p: Policy, k: nat)
    requires p == NormalizePolicy(p) && bounded == Compact(BoundHistory(history, p.maxHistoryMessages), p)
    requires |history| - |bounded| <= k < |history|
    ensures |bounded| <= |history| && history[k].role == bounded[k - (|history| - |bounded|)].role
  {
    hide *;
    BoundedIs(history, p);
    CompactKeepsRole(history[k], p);
    var gap := |history| - |bounded|;
    assert history[gap + (k - gap)] == history[k];
  }

  lemma AssembledByBudget(messages: seq<Message>, prompt: string, text: string, history: seq<Message>, p: Policy,
                          d: nat)
    requires p == NormalizePolicy(p)
    requires var bounded := Compact(BoundHistory(history, p.maxHistoryMessages), p);
             var budget := p.maxApproxTokens - Fixed(prompt, text);
             && d == (if budget <= 0 then 0 else |bounded| - KeepFrom(bounded, budget))
             && messages == [SystemMessage(prompt)] + bounded[SelectFrom(bounded, budget)..] + [UserMessage(text)]
    ensures |messages| >= 2 && Assembled(messages, prompt, text, history, p, |messages| - 2, d)
    ensures |messages| - 2 <= p.maxHistoryMessages
  {
    hide Tokens, KeepFrom, NormalizePolicy, Affordable, Fixed, CompactMessage, Compact, BoundHistory, LeadingTools, SelectFrom;
    var bounded, budget := Compact(BoundHistory(history, p.maxHistoryMessages), p), p.maxApproxTokens - Fixed(prompt, text);
    var first := SelectFrom(bounded, budget);
    MostIsAffordable(prompt, text, history, p, d);
    SentMessages(messages, history, bounded, first, p, SystemMessage(prompt), UserMessage(text));
    if budget > 0 { SelectionDropsTools(bounded, budget); } else { NoneSelected(bounded, budget); }
    SelectionFits(bounded, budget);
    var c := |bounded| - first;
    forall k | |history| - d <= k < |history| - c ensures history[k].role == Tool {
      RolesOfBounded(history, bounded, p, k);
    }
    if c > 0 { RolesOfBounded(history, bounded, p, |history| - c); }
  }

  lemma NoneSelected(ms: seq<Message>, budget: int)
    ensures budget <= 0 ==> SelectFrom(ms, budget) == |ms|
  {
  }

  lemma PolicyIsPositive(p: Policy)
    requires p == NormalizePolicy(p)
    ensures p.maxHistoryMessages > 0 && p.maxApproxTokens > 0
  {
  }

  /**
   `Assemble`: the system prompt and the user text always stay; of the history go the newest
   messages, as many as count and budget allow, less the tool results at their head.
   */
  method Assemble(prompt: string, userText: string, history: seq<Message>, policy: Policy)
    returns (messages: seq<Message>, report: Report)
    requires policy == NormalizePolicy(policy)
    ensures exists d :: Assembled(messages, prompt, userText, history, policy, report.includedCount, d)
    ensures report.includedCount <= policy.maxHistoryMessages
    ensures report.includedCount + report.droppedCount == report.historyCount
         == if |history| > policy.maxHistoryMessages then policy.maxHistoryMessages else |history|
    ensures report.messageCount == |messages| && report.estimatedTokens == Tokens(messages)
    ensures Tokens(messages) <= Max(policy.maxApproxTokens, Fixed(prompt, userText))
  {
    hide SystemMessage, UserMessage, Compact, BoundHistory, MessageTokens, Assembled, NormalizePolicy;
    var system, user := SystemMessage(prompt), UserMessage(userText);
    var bounded := Compact(BoundHistory(history, policy.maxHistoryMessages), policy);
    BoundedIs(history, policy);
    var fixed := Tokens([system, user]);
    FixedIs(prompt, userText);
    var available := policy.maxApproxTokens - fixed;
    if available < 0 { available := 0; }
    var selected, dropped := SelectHistoryWithinBudget(bounded, available);
    messages := [system] + selected + [user];
    report := Report(|messages|, Tokens(messages), |bounded|, |selected|, dropped);
    SelectionFits(bounded, available);
    TokensConcat([system], selected + [user]);
    TokensConcat(selected, [user]);
    TokensConcat([system], [user]);
    assert [system] + (selected + [user]) == messages && [system] + [user] == [system, user];
    AssembledByBudget(messages, prompt, userText, history, policy,
                      if available <= 0 then 0 else |bounded| - KeepFrom(bounded, available));
  }

  lemma FixedIs(prompt: string, text: string)
    ensures Tokens([SystemMessage(prompt), UserMessage(text)]) == Fixed(prompt, text)
  {
  }

  // ---------- compacting a running conversation ----------

  /** Where the trailing run of tool messages starts; the length if the last message is no tool message. */
  function FirstTrailingTool(ms: seq<Message>): (f: nat)
    ensures f <= |ms|
    ensures forall i :: f <= i < |ms| ==> ms[i].role == Tool
    ensures f > 0 ==> ms[f - 1].role != Tool
  {
    if ms == [] || ms[|ms| - 1].role != Tool then |ms| else FirstTrailingTool(ms[..|ms| - 1])
  }

  /** `runtimeTailStart` */
  function TailStart(ms: seq<Message>): (t: nat)
    requires ms != []
    ensures t < |ms|
  {
    var f := FirstTrailingTool(ms);
    if f == |ms| then |ms| - 1
    else if f > 0 && ms[f - 1].role == Assistant then f - 1
    else f
  }

  method RuntimeTailStart(ms: seq<Message>) returns (t: nat)
    requires ms != []
    ensures t == TailStart(ms)
  {
    var last := |ms| - 1;
    if ms[last].role != Tool { return last; }
    var first := last;
    while first > 0 && ms[first - 1].role == Tool
      invariant 0 <= first <= last && forall i :: first <= i <= last ==> ms[i].role == Tool
    {
      first := first - 1;
    }
    TrailingToolUnique(ms, first);
    if first > 0 && ms[first - 1].role == Assistant { return first - 1; }
    return first;
  }

  lemma TrailingToolUnique(ms: seq<Message>, f: nat)
    requires f <= |ms| && (forall i :: f <= i < |ms| ==> ms[i].role == Tool) && (f > 0 ==> ms[f - 1].role != Tool)
    ensures f == FirstTrailingTool(ms)
  {
  }

  /** `latestUserBefore`; 0 when there is none after the first message. */
  function LatestUser(ms: seq<Message>, end: nat): (u: nat)
    requires end <= |ms|
    ensures u < end || u == 0
    ensures u > 0 ==> ms[u].role == User
    ensures forall i :: u < i < end ==> ms[i].role != User
  {
    if end <= 1 then 0 else if ms[end - 1].role == User then end - 1 else LatestUser(ms, end - 1)
  }

  method LatestUserBefore(ms: seq<Message>, end: nat) returns (u: int)
    requires end <= |ms|
    ensures u == if LatestUser(ms, end) > 0 then LatestUser(ms, end) else -1
  {
    var index := end - 1;
    while index > 0
      invariant index < end && (end > 0 ==> index >= 0)
      invariant LatestUser(ms, end) == if index >= 0 then LatestUser(ms, index + 1) else 0
    {
      if ms[index].role == User { return index; }
      index := index - 1;
    }
    return -1;
  }

  /** Where the part that is never dropped starts. */
  function MandatoryFrom(ms: seq<Message>): (t: nat)
    requires ms != []
    ensures t < |ms|
  {
    var u := LatestUser(ms, TailStart(ms));
    if u > 0 then u else TailStart(ms)
  }

  /** The last message, or the tool results that end the list with the assistant message before them. */
  ghost predicate EndsFrom(ms: seq<Message>, t: int) {
    && 0 <= t < |ms|
    && if ms[|ms| - 1].role != Tool then t == |ms| - 1
       else if ms[t].role == Assistant then forall i :: t < i < |ms| ==> ms[i].role == Tool
       else (forall i :: t <= i < |ms| ==> ms[i].role == Tool) && (t > 0 ==> ms[t - 1].role !in {Tool, Assistant})
  }

  /** What is mandatory begins with the last user message before the end, the first message aside, or is just the end. */
  ghost predicate MandatorySince(ms: seq<Message>, t: int, from: int) {
    && 0 <= from <= t < |ms|
    && if from < t then 0 < from && ms[from].role == User && forall i :: from < i < t ==> ms[i].role != User
       else forall i :: 0 < i < t ==> ms[i].role != User
  }

  lemma MandatoryTold(ms: seq<Message>, from: nat)
    requires ms != []
    ensures MandatoryFrom(ms) == from <==> exists t :: EndsFrom(ms, t) && MandatorySince(ms, t, from)
  {
    var tail := TailStart(ms);
    assert EndsFrom(ms, tail);
    forall t | EndsFrom(ms, t) ensures t == tail { OneEnd(ms, t); }
  }

  lemma OneEnd(ms: seq<Message>, t: nat)
    requires ms != [] && EndsFrom(ms, t)
    ensures t == TailStart(ms)
  {
  }

  /** Everything after the first message is a tool message, and the first is one too or the assistant's. */
  predicate AllTools(ms: seq<Message>) {
    |ms| > 2 && ms[0].role in {Assistant, Tool} && forall i :: 1 <= i < |ms| ==> ms[i].role == Tool
  }

  lemma MandatoryFromZero(ms: seq<Message>)
    requires |ms| > 2
    ensures MandatoryFrom(ms) == 0 <==> AllTools(ms)
  {
  }

  /** The Go slice expression `normalized[1:0]` panics. */
  datatype Compaction = SliceOutOfRange | Compacted(messages: seq<Message>, dropped: nat)

  lemma CompactKeepsAllTools(ms: seq<Message>, p: Policy)
    ensures AllTools(Compact(ms, p)) <==> AllTools(ms)
  {
  }

  lemma FewAreNotAllTools(ms: seq<Message>)
    requires |ms| <= 2
    ensures !AllTools(ms)
  {
  }

  lemma MandatoryFromIs(n: seq<Message>)
    requires n != []
    ensures MandatoryFrom(n) == if LatestUser(n, TailStart(n)) > 0 then LatestUser(n, TailStart(n)) else TailStart(n)
  {
  }

  lemma MaxIs(a: int, b: int)
    ensures Max(a, b) >= a && Max(a, b) >= b
  {
  }

  /** The first message, those from j on and the mandatory part are within the budget, or there is just the mandatory part. */
  ghost predicate FitsFrom(n: seq<Message>, from: int, j: int, p: Policy)
    requires 0 < j <= from < |n|
  {
    j == from || (Tokens([n[0]] + n[from..]) < p.maxApproxTokens && Tokens([n[0]] + n[j..]) <= p.maxApproxTokens)
  }

  /** The cut drops no more than it must: the most that fits is kept, less the tool results at its head. */
  ghost predicate CutLongest(n: seq<Message>, from: int, kept: int, p: Policy) {
    && 1 <= kept <= from < |n| && (kept < from ==> n[kept].role != Tool)
    && exists least :: LeastFitting(n, from, least, p) && least <= kept
                       && forall i :: least <= i < kept ==> n[i].role == Tool
  }

  ghost predicate LeastFitting(n: seq<Message>, from: int, least: int, p: Policy)
    requires from < |n|
  {
    1 <= least <= from && FitsFrom(n, from, least, p) && forall j :: 1 <= j < least ==> !FitsFrom(n, from, j, p)
  }

  lemma CostFrom(n: seq<Message>, from: nat, j: nat)
    requires 1 <= j <= from < |n|
    ensures Tokens([n[0]] + n[j..]) == Tokens([n[0]] + n[from..]) + Tokens(n[1..from][j - 1..])
  {
    hide Tokens;
    var part, tail := n[1..from][j - 1..], n[from..];
    assert n[j..] == part + tail;
    TokensConcat([n[0]], part + tail);
    TokensConcat(part, tail);
    TokensConcat([n[0]], tail);
  }

  lemma SelectionCutsLongest(n: seq<Message>, from: nat, p: Policy)
    requires 1 <= from < |n|
    ensures CutLongest(n, from, 1 + SelectFrom(n[1..from], p.maxApproxTokens - Tokens([n[0]] + n[from..])), p)
  {
    hide Tokens, KeepFrom, SelectFrom, FitsFrom;
    var middle, budget := n[1..from], p.maxApproxTokens - Tokens([n[0]] + n[from..]);
    var kept := 1 + SelectFrom(middle, budget);
    SelectionFits(middle, budget);
    assert kept < from ==> n[kept] == middle[kept - 1];
    var least := from;
    if budget > 0 {
      SelectionDropsTools(middle, budget);
      least := 1 + KeepFrom(middle, budget);
      forall i | least <= i < kept ensures n[i].role == Tool { assert n[i] == middle[i - 1]; }
    } else {
      NoneSelected(middle, budget);
    }
    LeastFits(n, from, least, p);
  }

  lemma LeastFits(n: seq<Message>, from: nat, least: nat, p: Policy)
    requires 1 <= from < |n|
    requires var budget := p.maxApproxTokens - Tokens([n[0]] + n[from..]);
             least == if budget > 0 then 1 + KeepFrom(n[1..from], budget) else from
    ensures LeastFitting(n, from, least, p)
  {
    hide Tokens, KeepFrom;
    var middle, budget := n[1..from], p.maxApproxTokens - Tokens([n[0]] + n[from..]);
    if budget > 0 { KeepFromIsLongest(middle, budget); }
    CostFrom(n, from, least);
    forall j | 1 <= j < least ensures !FitsFrom(n, from, j, p) { CostFrom(n, from, j); }
  }

  lemma SelectionThenTailFits(n: seq<Message>, from: nat, budget: int)
    requires 1 <= from < |n| && budget > 0
    ensures var kept := 1 + SelectFrom(n[1..from], budget);
            && kept <= from && n[1..from][kept - 1..] + n[from..] == n[kept..]
            && [n[0]] + n[1..from][kept - 1..] + n[from..] == [n[0]] + n[kept..]
            && (kept < from ==> n[kept].role != Tool)
            && Tokens([n[0]] + n[kept..]) <= budget + Tokens([n[0]] + n[from..])
  {
    hide *;
    var middle, tail := n[1..from], n[from..];
    var kept := 1 + SelectFrom(middle, budget);
    var selected := middle[kept - 1..];
    SelectionFits(middle, budget);
    assert selected + tail == n[kept..];
    assert [n[0]] + selected + tail == [n[0]] + (selected + tail);
    assert kept < from ==> middle[kept - 1] == n[kept];
    TokensConcat([n[0]], selected + tail);
    TokensConcat(selected, tail);
    TokensConcat([n[0]], tail);
  }

  /**
   `CompactMessages`. The result is the first message and the longest suffix that fits the
   budget with it, less the tool results at its head; what is mandatory stays in any case.
   The slice is out of range exactly on the lists that are all tool results.
   */
  method CompactMessages(ms: seq<Message>, policy: Policy) returns (c: Compaction, ghost kept: nat)
    requires policy == NormalizePolicy(policy)
    ensures c.SliceOutOfRange? <==> AllTools(ms)
    ensures c.Compacted? ==> |c.messages| + c.dropped == |ms|
    ensures c.Compacted? && |ms| <= 2 ==> c.messages == Compact(ms, policy)
    ensures c.Compacted? && |ms| > 2 ==>
              var n := Compact(ms, policy);
              var from := MandatoryFrom(n);
              && CutLongest(n, from, kept, policy) && c.messages == [n[0]] + n[kept..]
              && Tokens(c.messages) <= Max(policy.maxApproxTokens, Tokens([n[0]] + n[from..]))
  {
    hide *;
    var n := Compact(ms, policy);
    kept := 0;
    CompactKeepsAllTools(ms, policy);
    if |n| <= 2 {
      FewAreNotAllTools(ms);
      return Compacted(n, 0), 0;
    }
    MandatoryFromZero(n);
    var tailStart := RuntimeTailStart(n);
    var anchor := LatestUserBefore(n, tailStart);
    if anchor > 0 { tailStart := anchor; }
    MandatoryFromIs(n);
    if tailStart == 0 { return SliceOutOfRange, 0; }
    var tail, middle := n[tailStart..], n[1..tailStart];
    var budget := policy.maxApproxTokens - Tokens([n[0]] + tail);
    MaxIs(policy.maxApproxTokens, Tokens([n[0]] + tail));
    SelectionCutsLongest(n, tailStart, policy);
    if budget <= 0 {
      NoneSelected(middle, budget);
      kept := tailStart;
      return Compacted([n[0]] + tail, |middle|), kept;
    }
    var selected, dropped := SelectHistoryWithinBudget(middle, budget);
    kept := 1 + SelectFrom(middle, budget);
    SelectionThenTailFits(n, tailStart, budget);
    return Compacted([n[0]] + selected + tail, dropped), kept;
  }
}
