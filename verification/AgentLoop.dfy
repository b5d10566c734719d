/**
 The inference loop of one turn and the tool calls it runs
 (src/agent/index.ts:203-338,1054-1270), for any model and any tools.
 */
module AgentLoop {
  import opened Prelude
  import opened Strings
  import opened Utf8
  import opened TurnBudgets

  datatype ToolCall = ToolCall(id: string, name: string, arguments: string)

  datatype Message =
    | Plain(role: string, content: string)
    | Assistant(content: string, calls: Option<seq<ToolCall>>)
    | ToolResult(id: string, name: string, content: string)

  /** What a model call gives: an exception, or a message with or without tool calls. */
  datatype Reply = ModelThrows | Answer(content: string, calls: Option<seq<ToolCall>>)

  /** What `find_tools` brings up besides its result. */
  datatype Discovery = NotSought | Found(names: seq<string>) | SearchThrows

  /** What becomes of a permitted call. `Escapes`: something throws outside the
      code that catches tool failures. */
  datatype Attempt =
    | Malformed(message: string)
    | Escapes
    | Ran(outcome: Result<string, string>, discovery: Discovery)

  /** The surroundings of a turn: any model, any tools. */
  datatype World = World(
    model: (nat, seq<Message>) -> Reply,
    attempt: (nat, nat, ToolCall) -> Attempt,
    lower: string -> string,
    registry: map<string, string>,
    allowed: set<string>,
    usableText: string -> string,
    internalError: string)

  /** Leading slashes of a requested name go. */
  function WithoutSlashes(name: string): string {
    if name != "" && name[0] == '/' then WithoutSlashes(name[1..]) else name
  }

  /** The registered tool that a requested name means, by its own name. */
  function ToolNamed(w: World, name: string): Option<string> {
    var key := w.lower(WithoutSlashes(Trim(name)));
    if key in w.registry then Some(w.registry[key]) else None
  }

  function Slashes(n: nat): string {
    seq(n, _ => '/')
  }

  /** White space around a name and slashes before it do not matter. */
  lemma NameIsNormalised(w: World, name: string, before: string, n: nat, core: string, after: string)
    requires name == before + Slashes(n) + core + after
    requires (forall c :: c in before + after ==> IsSpace(c))
    requires core != "" && core[0] != '/' && IsTrimmed(Slashes(n) + core)
    ensures ToolNamed(w, name) == var key := w.lower(core); if key in w.registry then Some(w.registry[key]) else None
  {
    TrimOfPadded(before, Slashes(n) + core, after);
    assert name == before + (Slashes(n) + core) + after;
    DropSlashes(n, core);
  }

  lemma {:induction false} DropSlashes(n: nat, core: string)
    requires core == "" || core[0] != '/'
    ensures WithoutSlashes(Slashes(n) + core) == core
  {
    if n > 0 {
      assert (Slashes(n) + core)[1..] == Slashes(n - 1) + core;
      DropSlashes(n - 1, core);
    } else {
      assert Slashes(0) + core == core;
    }
  }

  /** Permission is asked for under the tool's own name. */
  predicate Permitted(w: World, call: ToolCall) {
    var tool := ToolNamed(w, call.name);
    tool.Some? && tool.value in w.allowed
  }

  /** A tool that was run, and the text its result was cut to. */
  datatype Execution = Execution(iteration: nat, index: nat, call: ToolCall, output: Option<string>)

  /** `prompts` are the transcripts the model was called with, in order. */
  datatype Turn = Turn(prompts: seq<seq<Message>>, executions: seq<Execution>, finished: bool, finalText: string)

  // ------------------------------------------------------------ well-formed transcripts

  /** One result per call: same ids, same names, same order. */
  predicate Answers(calls: seq<ToolCall>, results: seq<Message>) {
    && |results| == |calls|
    && forall i :: 0 <= i < |calls| ==>
         results[i].ToolResult? && results[i].id == calls[i].id && results[i].name == calls[i].name
  }

  function CallsOf(m: Message): seq<ToolCall>
    requires m.Assistant?
  {
    if m.calls.Some? then m.calls.value else []
  }

  /** Results stand exactly behind the assistant message that asked for them. */
  predicate WellFormed(ms: seq<Message>)
    decreases |ms|
  {
    if ms == [] then true
    else
      match ms[0]
      case Plain(_, _) => WellFormed(ms[1..])
      case ToolResult(_, _, _) => false
      case Assistant(_, _) =>
        var n := |CallsOf(ms[0])|;
        1 + n <= |ms| && Answers(CallsOf(ms[0]), ms[1..1 + n]) && WellFormed(ms[1 + n..])
  }

  lemma {:induction false} WellFormedConcat(a: seq<Message>, b: seq<Message>)
    requires WellFormed(a) && WellFormed(b)
    ensures WellFormed(a + b)
    decreases |a|
  {
    if a == [] {
      assert a + b == b;
    } else {
      var n := 1 + if a[0].Assistant? then |CallsOf(a[0])| else 0;
      assert n <= |a|;
      SliceConcat(a, b, n);
      WellFormedConcat(a[n..], b);
    }
  }

  lemma SliceConcat(a: seq<Message>, b: seq<Message>, n: nat)
    requires 1 <= n <= |a|
    ensures (a + b)[n..] == a[n..] + b && (a + b)[1..n] == a[1..n]
  {
  }

  lemma {:induction false} PlainIsWellFormed(ms: seq<Message>)
    requires forall m :: m in ms ==> m.Plain?
    ensures WellFormed(ms)
    decreases |ms|
  {
    if ms != [] {
      PlainIsWellFormed(ms[1..]);
    }
  }

  /** An answered exchange keeps the transcript well formed. */
  lemma ExchangeKeepsWellFormed(ms: seq<Message>, asked: Message, results: seq<Message>)
    requires WellFormed(ms) && asked.Assistant? && Answers(CallsOf(asked), results)
    ensures WellFormed(ms + [asked] + results)
  {
    ExchangeIsWellFormed(asked, results);
    WellFormedConcat(ms, [asked] + results);
    assert ms + [asked] + results == ms + ([asked] + results);
  }

  lemma ExchangeIsWellFormed(asked: Message, results: seq<Message>)
    requires asked.Assistant? && Answers(CallsOf(asked), results)
    ensures WellFormed([asked] + results)
  {
    var exchange := [asked] + results;
    assert exchange[1..1 + |results|] == results && exchange[1 + |results|..] == [];
  }

  // ------------------------------------------------------------ running the calls of one reply

  function OutputBytes(executions: seq<Execution>): nat {
    if executions == [] then 0
    else
      var e := executions[|executions| - 1];
      OutputBytes(executions[..|executions| - 1]) + if e.output.Some? then ByteLength(e.output.value) else 0
  }

  lemma {:induction false} OutputBytesConcat(a: seq<Execution>, b: seq<Execution>)
    ensures OutputBytes(a + b) == OutputBytes(a) + OutputBytes(b)
    decreases |b|
  {
    if b == [] {
      assert a + b == a;
    } else {
      var n := |b| - 1;
      assert (a + b)[..|a + b| - 1] == a + b[..n];
      OutputBytesConcat(a, b[..n]);
    }
  }

  /** Discovery only ever adds permitted tools. */
  function Discovered(allowed: set<string>, names: seq<string>): (r: set<string>)
    ensures r == set n | n in names && n in allowed
  {
    set n | n in names && n in allowed
  }

  /** Tools are run only for calls of the reply that are registered and
      permitted, each at most once and in order. */
  ghost predicate RunsFor(w: World, iteration: nat, calls: seq<ToolCall>, executions: seq<Execution>) {
    && (forall i :: 0 <= i < |executions| ==>
         var e := executions[i];
         e.iteration == iteration && e.index < |calls| && e.call == calls[e.index] && Permitted(w, e.call))
    && (forall i, j :: 0 <= i < j < |executions| ==> executions[i].index < executions[j].index)
  }

  /** The result of a tool that succeeded is the text its output was cut to. */
  ghost predicate Shown(executions: seq<Execution>, results: seq<Message>) {
    forall i :: 0 <= i < |executions| && executions[i].output.Some? ==>
      executions[i].index < |results| &&
      var r := results[executions[i].index];
      r.ToolResult? && r.content == executions[i].output.value
  }

  /** Call `j` was run. */
  ghost predicate WasRun(executions: seq<Execution>, iteration: nat, j: nat) {
    exists k :: 0 <= k < |executions| && executions[k].iteration == iteration && executions[k].index == j
  }

  /** Of the first `n` calls exactly those were run that are permitted and well formed. */
  ghost predicate RunsAll(w: World, iteration: nat, calls: seq<ToolCall>, n: nat, executions: seq<Execution>)
    requires n <= |calls|
  {
    forall j: nat :: j < n ==>
      (WasRun(executions, iteration, j) <==> Permitted(w, calls[j]) && w.attempt(iteration, j, calls[j]).Ran?)
  }

  ghost predicate OutputsFit(executions: seq<Execution>, bytes: nat) {
    forall i :: 0 <= i < |executions| && executions[i].output.Some? ==> ByteLength(executions[i].output.value) <= bytes
  }

  /** The batch after `i` calls: one result each, and what was run for them. */
  ghost predicate BatchTo(w: World, iteration: nat, calls: seq<ToolCall>, i: nat, limit: nat, results: seq<Message>, executions: seq<Execution>) {
    && i <= |calls| && Answers(calls[..i], results) && Shown(executions, results)
    && RunsFor(w, iteration, calls, executions) && OutputsFit(executions, limit) && |executions| <= i
    && RunsAll(w, iteration, calls, i, executions)
    && forall j :: 0 <= j < |executions| ==> executions[j].index < i
  }

  ghost predicate RunsCall(w: World, iteration: nat, i: nat, call: ToolCall, limit: nat, e: Execution) {
    && e.iteration == iteration && e.index == i && e.call == call && Permitted(w, call)
    && (e.output.Some? ==> ByteLength(e.output.value) <= limit)
  }

  function OneOrNone(e: Option<Execution>): seq<Execution> {
    if e.Some? then [e.value] else []
  }

  lemma ShownStep(results: seq<Message>, executions: seq<Execution>, r: Message, e: Option<Execution>)
    requires Shown(executions, results) && r.ToolResult?
    requires e.Some? && e.value.output.Some? ==> e.value.index == |results| && r.content == e.value.output.value
    ensures Shown(executions + OneOrNone(e), results + [r])
  {
  }

  lemma RunsForStep(w: World, iteration: nat, calls: seq<ToolCall>, i: nat, executions: seq<Execution>, e: Option<Execution>)
    requires i < |calls| && RunsFor(w, iteration, calls, executions)
    requires forall j :: 0 <= j < |executions| ==> executions[j].index < i
    requires e.Some? ==> e.value.iteration == iteration && e.value.index == i && e.value.call == calls[i] && Permitted(w, calls[i])
    ensures RunsFor(w, iteration, calls, executions + OneOrNone(e))
  {
  }

  lemma BatchStep(w: World, iteration: nat, calls: seq<ToolCall>, i: nat, limit: nat, results: seq<Message>,
                  executions: seq<Execution>, text: string, e: Option<Execution>)
    requires i < |calls| && BatchTo(w, iteration, calls, i, limit, results, executions)
    requires e.Some? ==> RunsCall(w, iteration, i, calls[i], limit, e.value)
    requires e.Some? <==> Permitted(w, calls[i]) && w.attempt(iteration, i, calls[i]).Ran?
    requires e.Some? && e.value.output.Some? ==> text == e.value.output.value
    ensures BatchTo(w, iteration, calls, i + 1, limit, results + [ToolResult(calls[i].id, calls[i].name, text)],
                    executions + OneOrNone(e))
  {
    OneMoreRun(w, iteration, calls, i, executions, e);
    RunsForStep(w, iteration, calls, i, executions, e);
    ShownStep(results, executions, ToolResult(calls[i].id, calls[i].name, text), e);
  }

  lemma OneMoreRun(w: World, iteration: nat, calls: seq<ToolCall>, i: nat, executions: seq<Execution>, e: Option<Execution>)
    requires i < |calls| && RunsAll(w, iteration, calls, i, executions)
    requires forall k :: 0 <= k < |executions| ==> executions[k].index < i
    requires e.Some? ==> e.value.iteration == iteration && e.value.index == i
    requires e.Some? <==> Permitted(w, calls[i]) && w.attempt(iteration, i, calls[i]).Ran?
    ensures RunsAll(w, iteration, calls, i + 1, executions + OneOrNone(e))
  {
    var all := executions + OneOrNone(e);
    forall j: nat | j <= i ensures WasRun(all, iteration, j) <==> if j < i then WasRun(executions, iteration, j) else e.Some? {
      if WasRun(executions, iteration, j) {
        var k :| 0 <= k < |executions| && executions[k].iteration == iteration && executions[k].index == j;
        assert all[k] == executions[k];
      }
      if e.Some? {
        assert all[|executions|] == e.value;
      }
    }
  }

  /** A batch that breaks off in call `i`, run or not. */
  lemma BatchBreak(w: World, iteration: nat, calls: seq<ToolCall>, i: nat, limit: nat, results: seq<Message>,
                   executions: seq<Execution>, e: Option<Execution>)
    requires i < |calls| && BatchTo(w, iteration, calls, i, limit, results, executions)
    requires e.Some? ==> RunsCall(w, iteration, i, calls[i], limit, e.value)
    ensures var all := executions + OneOrNone(e);
            RunsFor(w, iteration, calls, all) && OutputsFit(all, limit) && |all| <= |calls|
  {
  }

  /** Something throws past the code that turns tool failures into text. */
  predicate Throws(a: Attempt) {
    a.Escapes? || (a.Ran? && a.discovery.SearchThrows?)
  }

  /** What one call comes to when `room` result bytes are left for it: a text that fits
      is shown whole, and of another as many characters as fit. */
  ghost predicate CallDone(w: World, call: ToolCall, iteration: nat, i: nat, found: set<string>, room: nat,
                           text: Option<string>, nowFound: set<string>, e: Option<Execution>) {
    var attempt := w.attempt(iteration, i, call);
    && (e.Some? <==> Permitted(w, call) && attempt.Ran?)
    && (text.None? <==> Permitted(w, call) && Throws(attempt))
    && (e.Some? ==>
          && nowFound == found + (if attempt.discovery.Found? then Discovered(w.allowed, attempt.discovery.names) else {})
          && (attempt.outcome.Failure? ==> e.value.output.None?)
          && (attempt.outcome.Success? ==>
                && (e.value.output.None? <==> room == 0)
                && (e.value.output.Some? ==>
                      var raw := attempt.outcome.value;
                      e.value.output.value == if ByteLength(raw) <= room then raw else raw[..KeptCount(raw, room)])))
    && (text.Some? && (e.Some? ==> e.value.output.None?) ==> "Error" <= text.value)
  }

  /** The text of a tool's outcome, and the output recorded for it. */
  method ResultText(call: ToolCall, outcome: Result<string, string>, budget: TurnBudget)
    returns (text: string, output: Option<string>)
    requires budget.limits.Valid() && Within(budget.limits, budget.State())
    modifies budget
    ensures Within(budget.limits, budget.State()) && budget.toolCalls == old(budget.toolCalls)
    ensures budget.totalToolResultBytes ==
            old(budget.totalToolResultBytes) + if output.Some? then ByteLength(output.value) else 0
    ensures outcome.Failure? ==> output.None?
    ensures outcome.Success? ==>
              var room := Min(budget.limits.resultBytes, budget.limits.totalBytes - old(budget.totalToolResultBytes));
              output == if room == 0 then None
                        else if ByteLength(outcome.value) <= room then Some(outcome.value)
                        else Some(outcome.value[..KeptCount(outcome.value, room)])
    ensures output.Some? ==> text == output.value && ByteLength(text) <= budget.limits.resultBytes
    ensures output.None? ==> "Error" <= text
  {
    match outcome
    case Failure(message) => return "Error executing tool " + call.name + ": " + message, None;
    case Success(raw) =>
      var cut := budget.ConstrainTextResult(raw);
      if cut.Failure? {
        return "Error executing tool " + call.name + ": Total tool-result bytes exceeded.", None;
      }
      return cut.value.0, Some(cut.value.0);
  }

  /** The body of the loop over the calls: the result text, unless something escapes. */
  method RunCall(w: World, call: ToolCall, iteration: nat, i: nat, found: set<string>, budget: TurnBudget)
    returns (text: Option<string>, nowFound: set<string>, e: Option<Execution>)
    requires budget.limits.Valid() && Within(budget.limits, budget.State()) && found <= w.allowed
    modifies budget
    ensures Within(budget.limits, budget.State()) && budget.toolCalls == old(budget.toolCalls)
    ensures budget.totalToolResultBytes == old(budget.totalToolResultBytes) + OutputBytes(OneOrNone(e))
    ensures found <= nowFound <= w.allowed
    ensures e.Some? ==> RunsCall(w, iteration, i, call, budget.limits.resultBytes, e.value)
    ensures text.Some? && e.Some? && e.value.output.Some? ==> text == e.value.output
    ensures CallDone(w, call, iteration, i, found,
                     Min(budget.limits.resultBytes, budget.limits.totalBytes - old(budget.totalToolResultBytes)), text, nowFound, e)
  {
    nowFound, e := found, None;
    var tool := ToolNamed(w, call.name);
    if tool.None? {
      return Some("Error: Tool " + call.name + " not found."), nowFound, e;
    }
    if !(tool.value in w.allowed || tool.value in nowFound) {
      return Some("Error: You do not have permission to use tool " + call.name + "."), nowFound, e;
    }
    match w.attempt(iteration, i, call)
    case Malformed(message) => text := Some("Error: " + message);
    case Escapes => text := None;
    case Ran(outcome, discovery) =>
      var shown, output := ResultText(call, outcome, budget);
      text := Some(shown);
      e := Some(Execution(iteration, i, call, output));
      match discovery {
        case NotSought =>
        case SearchThrows => text := None;
        case Found(names) => nowFound := nowFound + Discovered(w.allowed, names);
      }
  }

  /** `executeRequestedToolCalls`: no results when it throws. A batch that the
      budget refuses runs nothing and answers every call with an error. */
  method ExecuteRequestedToolCalls(w: World, calls: seq<ToolCall>, iteration: nat, found: set<string>, budget: TurnBudget)
    returns (results: Option<seq<Message>>, nowFound: set<string>, executions: seq<Execution>)
    requires budget.limits.Valid() && Within(budget.limits, budget.State()) && found <= w.allowed
    modifies budget
    ensures Within(budget.limits, budget.State()) && found <= nowFound <= w.allowed
    ensures results.Some? ==> Answers(calls, results.value) && Shown(executions, results.value)
    ensures RunsFor(w, iteration, calls, executions) && OutputsFit(executions, budget.limits.resultBytes)
    ensures |executions| <= |calls|
    ensures budget.totalToolResultBytes == old(budget.totalToolResultBytes) + OutputBytes(executions)
    ensures if Claimed(budget.limits, old(budget.State()), |calls|).Success?
            then budget.toolCalls == old(budget.toolCalls) + |calls| &&
                 (results.Some? ==> RunsAll(w, iteration, calls, |calls|, executions))
            else budget.State() == old(budget.State()) && executions == [] && nowFound == found &&
                 (results.None? <==> calls == [])
  {
    nowFound, executions := found, [];
    var claim := budget.ClaimToolCalls(|calls|);
    if claim.Failure? {
      if claim.error == BadArgument { return None, found, []; }
      results := Some(seq(|calls|, i requires 0 <= i < |calls| =>
        ToolResult(calls[i].id, calls[i].name, "Error: Tool-call limit exceeded.")));
      return;
    }
    var done: seq<Message> := [];
    for i := 0 to |calls|
      invariant BatchTo(w, iteration, calls, i, budget.limits.resultBytes, done, executions)
      invariant found <= nowFound <= w.allowed
      invariant Within(budget.limits, budget.State())
      invariant budget.toolCalls == old(budget.toolCalls) + |calls|
      invariant budget.totalToolResultBytes == old(budget.totalToolResultBytes) + OutputBytes(executions)
    {
      var text, more, e := RunCall(w, calls[i], iteration, i, nowFound, budget);
      nowFound := more;
      OutputBytesConcat(executions, OneOrNone(e));
      if text.None? {
        BatchBreak(w, iteration, calls, i, budget.limits.resultBytes, done, executions, e);
        return None, nowFound, executions + OneOrNone(e);
      }
      BatchStep(w, iteration, calls, i, budget.limits.resultBytes, done, executions, text.value, e);
      executions := executions + OneOrNone(e);
      done := done + [ToolResult(calls[i].id, calls[i].name, text.value)];
    }
    assert calls[..|calls|] == calls;
    results := Some(done);
  }

  // ------------------------------------------------------------ the turn

  /** The calls claimed for the first `n` replies: a batch that would pass the limit
      is refused whole. */
  function ClaimedCalls(w: World, limit: nat, prompts: seq<seq<Message>>, n: nat): nat
    requires n <= |prompts|
  {
    if n == 0 then 0
    else
      var before := ClaimedCalls(w, limit, prompts, n - 1);
      before + if Accepted(w, limit, prompts, n - 1, before) then |CallsAsked(w, prompts, n - 1)| else 0
  }

  function CallsAsked(w: World, prompts: seq<seq<Message>>, i: nat): seq<ToolCall>
    requires i < |prompts|
  {
    var reply := w.model(i, prompts[i]);
    if reply.Answer? && reply.calls.Some? then reply.calls.value else []
  }

  predicate Accepted(w: World, limit: nat, prompts: seq<seq<Message>>, i: nat, before: nat)
    requires i < |prompts|
  {
    before + |CallsAsked(w, prompts, i)| <= limit
  }

  /** Each prompt is the one before it, the model's reply to that one, and one result
      for every call of the reply; the calls of an accepted batch are run where they
      may, and their outputs are what the model is shown. */
  ghost predicate Continues(w: World, limit: nat, prompts: seq<seq<Message>>, executions: seq<Execution>) {
    forall i :: 0 < i < |prompts| ==> ContinuesAt(w, limit, prompts, executions, i)
  }

  ghost predicate ContinuesAt(w: World, limit: nat, prompts: seq<seq<Message>>, executions: seq<Execution>, i: nat)
    requires 0 < i < |prompts|
  {
    var reply := w.model(i - 1, prompts[i - 1]);
    && reply.Answer? && reply.calls.Some? && reply.calls.value != []
    && prompts[i - 1] + [Assistant(reply.content, reply.calls)] <= prompts[i]
    && Answered(w, ClaimedCalls(w, limit, prompts, i - 1) + |reply.calls.value| <= limit, i - 1, reply.calls.value,
                prompts[i][|prompts[i - 1]| + 1..], executions)
  }

  /** One result per call; in an accepted batch those calls are run that may be, and
      the outputs shown. */
  ghost predicate Answered(w: World, accepted: bool, iteration: nat, calls: seq<ToolCall>, results: seq<Message>,
                           executions: seq<Execution>) {
    && Answers(calls, results)
    && (accepted ==> RunsAll(w, iteration, calls, |calls|, executions))
    && (!accepted ==> forall j: nat :: !WasRun(executions, iteration, j))
    && forall k :: 0 <= k < |executions| && executions[k].iteration == iteration && executions[k].output.Some? ==>
         executions[k].index < |results| && results[executions[k].index].content == executions[k].output.value
  }

  ghost predicate Faithful(w: World, prompts: seq<seq<Message>>, executions: seq<Execution>) {
    forall i :: 0 <= i < |executions| ==> Asked(w, prompts, executions[i])
  }

  /** A tool runs only because the model asked for it, and only when permitted. */
  ghost predicate Asked(w: World, prompts: seq<seq<Message>>, e: Execution) {
    && Permitted(w, e.call) && e.iteration < |prompts|
    && var reply := w.model(e.iteration, prompts[e.iteration]);
       reply.Answer? && reply.calls.Some? && e.call in reply.calls.value
  }

  /** How a turn's final text comes about. */
  function FinalText(w: World, content: string): string {
    if w.usableText(content) == "" then w.internalError else w.usableText(content)
  }

  /** The turn ends in the usable text of the last reply when that asks for no tools
      and has one, and otherwise in the error text. */
  ghost predicate EndsWell(w: World, prompts: seq<seq<Message>>, finalText: string) {
    prompts != [] &&
    match w.model(|prompts| - 1, prompts[|prompts| - 1])
    case ModelThrows => finalText == w.internalError
    case Answer(content, calls) =>
      if (calls == None || calls == Some([])) && w.usableText(content) != "" then finalText == w.usableText(content)
      else finalText == w.internalError
  }

  /** What holds of the prompts and tool runs so far. */
  ghost predicate Trace(w: World, limit: nat, initial: seq<Message>, prompts: seq<seq<Message>>, executions: seq<Execution>) {
    && (forall p :: p in prompts ==> WellFormed(p) && initial <= p)
    && (prompts != [] ==> prompts[0] == initial)
    && Continues(w, limit, prompts, executions) && Faithful(w, prompts, executions)
  }

  /** `messages` is fit to be the next prompt. */
  ghost predicate NextPrompt(w: World, limit: nat, initial: seq<Message>, prompts: seq<seq<Message>>,
                             executions: seq<Execution>, messages: seq<Message>) {
    && WellFormed(messages) && initial <= messages
    && (prompts == [] ==> messages == initial)
    && (prompts != [] ==> ContinuesAt(w, limit, prompts + [messages], executions, |prompts|))
  }

  lemma {:induction false} ClaimedStays(w: World, limit: nat, prompts: seq<seq<Message>>, more: seq<Message>, n: nat)
    requires n <= |prompts|
    ensures ClaimedCalls(w, limit, prompts + [more], n) == ClaimedCalls(w, limit, prompts, n)
  {
    if n > 0 {
      ClaimedStays(w, limit, prompts, more, n - 1);
    }
  }

  lemma Prompted(w: World, limit: nat, initial: seq<Message>, prompts: seq<seq<Message>>, executions: seq<Execution>,
                 messages: seq<Message>)
    requires Trace(w, limit, initial, prompts, executions) && NextPrompt(w, limit, initial, prompts, executions, messages)
    ensures Trace(w, limit, initial, prompts + [messages], executions)
    ensures forall k :: 0 <= k < |executions| ==> executions[k].iteration < |prompts|
  {
    var longer := prompts + [messages];
    forall i | 0 < i < |longer| ensures ContinuesAt(w, limit, longer, executions, i) {
      if i < |prompts| {
        assert ContinuesAt(w, limit, prompts, executions, i);
        ClaimedStays(w, limit, prompts, messages, i - 1);
      }
    }
    forall i | 0 <= i < |executions| ensures Asked(w, longer, executions[i]) && executions[i].iteration < |prompts| {
      assert Asked(w, prompts, executions[i]);
    }
  }

  /** What was run for other iterations makes no difference. */
  lemma OtherRuns(executions: seq<Execution>, more: seq<Execution>, iteration: nat, j: nat)
    requires forall k :: 0 <= k < |more| ==> more[k].iteration != iteration
    ensures WasRun(executions + more, iteration, j) <==> WasRun(executions, iteration, j)
    ensures WasRun(more + executions, iteration, j) <==> WasRun(executions, iteration, j)
  {
    if WasRun(executions, iteration, j) {
      var k :| 0 <= k < |executions| && executions[k].iteration == iteration && executions[k].index == j;
      assert (executions + more)[k] == executions[k] && (more + executions)[|more| + k] == executions[k];
    }
  }

  lemma AnsweredStays(w: World, accepted: bool, iteration: nat, calls: seq<ToolCall>, results: seq<Message>,
                      executions: seq<Execution>, more: seq<Execution>)
    requires Answered(w, accepted, iteration, calls, results, executions)
    requires forall k :: 0 <= k < |more| ==> more[k].iteration != iteration
    ensures Answered(w, accepted, iteration, calls, results, executions + more)
  {
    forall j: nat ensures WasRun(executions + more, iteration, j) <==> WasRun(executions, iteration, j) {
      OtherRuns(executions, more, iteration, j);
    }
  }

  lemma BatchRan(w: World, limit: nat, initial: seq<Message>, prompts: seq<seq<Message>>, executions: seq<Execution>,
                 more: seq<Execution>)
    requires Trace(w, limit, initial, prompts, executions) && prompts != []
    requires var reply := w.model(|prompts| - 1, prompts[|prompts| - 1]);
             reply.Answer? && reply.calls.Some? && RunsFor(w, |prompts| - 1, reply.calls.value, more)
    ensures Trace(w, limit, initial, prompts, executions + more)
  {
    var all := executions + more;
    forall i | 0 <= i < |all| ensures Asked(w, prompts, all[i]) {
      if i < |executions| {
        assert all[i] == executions[i] && Asked(w, prompts, executions[i]);
      } else {
        var e := more[i - |executions|];
        assert all[i] == e && e.iteration == |prompts| - 1;
      }
    }
    forall i | 0 < i < |prompts| ensures ContinuesAt(w, limit, prompts, all, i) {
      StillContinues(w, limit, prompts, executions, more, i);
    }
  }

  lemma StillContinues(w: World, limit: nat, prompts: seq<seq<Message>>, executions: seq<Execution>, more: seq<Execution>, i: nat)
    requires 0 < i < |prompts| && ContinuesAt(w, limit, prompts, executions, i)
    requires forall k :: 0 <= k < |more| ==> more[k].iteration == |prompts| - 1
    ensures ContinuesAt(w, limit, prompts, executions + more, i)
  {
    var reply := w.model(i - 1, prompts[i - 1]);
    AnsweredStays(w, ClaimedCalls(w, limit, prompts, i - 1) + |reply.calls.value| <= limit, i - 1, reply.calls.value,
                  prompts[i][|prompts[i - 1]| + 1..], executions, more);
  }

  /** The answered batch makes the next prompt. */
  lemma NextIsFit(w: World, limit: nat, initial: seq<Message>, prompts: seq<seq<Message>>, before: seq<Execution>,
                  more: seq<Execution>, results: seq<Message>)
    requires prompts != [] && WellFormed(prompts[|prompts| - 1]) && initial <= prompts[|prompts| - 1]
    requires forall k :: 0 <= k < |before| ==> before[k].iteration < |prompts| - 1
    requires var n := |prompts| - 1;
             var reply := w.model(n, prompts[n]);
             && reply.Answer? && reply.calls.Some? && reply.calls.value != []
             && Answers(reply.calls.value, results) && Shown(more, results) && RunsFor(w, n, reply.calls.value, more)
             && (if ClaimedCalls(w, limit, prompts, n) + |reply.calls.value| <= limit
                 then RunsAll(w, n, reply.calls.value, |reply.calls.value|, more) else more == [])
    ensures var reply := w.model(|prompts| - 1, prompts[|prompts| - 1]);
            NextPrompt(w, limit, initial, prompts, before + more,
                       prompts[|prompts| - 1] + [Assistant(reply.content, reply.calls)] + results)
  {
    var n := |prompts| - 1;
    var reply := w.model(n, prompts[n]);
    var messages := prompts[n] + [Assistant(reply.content, reply.calls)] + results;
    ExchangeKeepsWellFormed(prompts[n], Assistant(reply.content, reply.calls), results);
    ClaimedStays(w, limit, prompts, messages, n);
    forall j: nat ensures WasRun(before + more, n, j) <==> WasRun(more, n, j) {
      OtherRuns(more, before, n, j);
    }
    assert Answered(w, ClaimedCalls(w, limit, prompts, n) + |reply.calls.value| <= limit, n, reply.calls.value, results, before + more);
    assert (prompts + [messages])[n] == prompts[n] && messages[|prompts[n]| + 1..] == results;
  }

  /** What was run for the last prompt keeps the trace, and the answers, if nothing
      escaped, make the next prompt. */
  lemma BatchAnswered(w: World, limit: nat, initial: seq<Message>, prompts: seq<seq<Message>>, before: seq<Execution>,
                      more: seq<Execution>, results: Option<seq<Message>>, calls: seq<ToolCall>)
    requires prompts != [] && Trace(w, limit, initial, prompts, before)
    requires forall k :: 0 <= k < |before| ==> before[k].iteration < |prompts| - 1
    requires var reply := w.model(|prompts| - 1, prompts[|prompts| - 1]); reply.Answer? && reply.calls == Some(calls)
    requires calls != [] && RunsFor(w, |prompts| - 1, calls, more)
    requires results.Some? ==>
               && Answers(calls, results.value) && Shown(more, results.value)
               && (if ClaimedCalls(w, limit, prompts, |prompts| - 1) + |calls| <= limit
                   then RunsAll(w, |prompts| - 1, calls, |calls|, more) else more == [])
    ensures Trace(w, limit, initial, prompts, before + more)
    ensures OutputBytes(before + more) == OutputBytes(before) + OutputBytes(more)
    ensures results.Some? ==>
              NextPrompt(w, limit, initial, prompts, before + more,
                         prompts[|prompts| - 1] +
                         [Assistant(w.model(|prompts| - 1, prompts[|prompts| - 1]).content, Some(calls))] + results.value)
  {
    OutputBytesConcat(before, more);
    BatchRan(w, limit, initial, prompts, before, more);
    if results.Some? {
      NextIsFit(w, limit, initial, prompts, before, more, results.value);
    }
  }

  /** A reply with tool calls: they are run and answered, or something escapes. */
  method AnswerCalls(w: World, ghost limit: nat, ghost initial: seq<Message>, ghost prompts: seq<seq<Message>>,
                     reply: Reply, messages: seq<Message>, found: set<string>, executions: seq<Execution>,
                     iteration: nat, budget: TurnBudget)
    returns (ok: bool, nowMessages: seq<Message>, nowFound: set<string>, nowExecutions: seq<Execution>)
    requires budget.limits.Valid() && Within(budget.limits, budget.State()) && limit == budget.limits.toolCalls
    requires found <= w.allowed && prompts != [] && Trace(w, limit, initial, prompts, executions)
    requires messages == prompts[|prompts| - 1] && forall k :: 0 <= k < |executions| ==> executions[k].iteration < |prompts| - 1
    requires iteration == |prompts| - 1 && reply == w.model(iteration, messages)
    requires reply.Answer? && reply.calls.Some? && reply.calls.value != []
    requires budget.toolCalls == ClaimedCalls(w, limit, prompts, |prompts| - 1)
    requires |executions| <= budget.toolCalls && OutputBytes(executions) == budget.totalToolResultBytes
    modifies budget
    ensures Within(budget.limits, budget.State()) && found <= nowFound <= w.allowed
    ensures Trace(w, limit, initial, prompts, nowExecutions)
    ensures ok ==> NextPrompt(w, limit, initial, prompts, nowExecutions, nowMessages)
    ensures budget.toolCalls == ClaimedCalls(w, limit, prompts, |prompts|)
    ensures |nowExecutions| <= budget.toolCalls && OutputBytes(nowExecutions) == budget.totalToolResultBytes
  {
    var results, more, executed := ExecuteRequestedToolCalls(w, reply.calls.value, iteration, found, budget);
    nowFound, nowExecutions := more, executions + executed;
    BatchAnswered(w, limit, initial, prompts, executions, executed, results, reply.calls.value);
    if results.None? { return false, messages, nowFound, nowExecutions; }
    ok, nowMessages := true, messages + [Assistant(reply.content, reply.calls)] + results.value;
  }

  /** The loop. A streamed final text is not appended to the transcript. */
  method Infer(w: World, initial: seq<Message>, maxIterations: nat, streaming: bool, budget: TurnBudget) returns (t: Turn)
    requires forall m :: m in initial ==> m.Plain?
    requires budget.limits.Valid() && budget.State() == Unused
    modifies budget
    ensures |t.prompts| <= maxIterations
    ensures forall p :: p in t.prompts ==> WellFormed(p) && initial <= p
    ensures t.prompts != [] ==> t.prompts[0] == initial
    ensures Continues(w, budget.limits.toolCalls, t.prompts, t.executions) && Faithful(w, t.prompts, t.executions)
    ensures |t.executions| <= budget.toolCalls <= budget.limits.toolCalls <= 8
    ensures budget.toolCalls == ClaimedCalls(w, budget.limits.toolCalls, t.prompts, |t.prompts|)
    ensures OutputBytes(t.executions) <= budget.limits.totalBytes
    ensures t.finished ==> EndsWell(w, t.prompts, t.finalText)
    ensures !t.finished ==> |t.prompts| == maxIterations && t.finalText == w.internalError
  {
    var messages := initial;
    PlainIsWellFormed(initial);
    var isDone, finalText := false, "";
    var prompts: seq<seq<Message>> := [];
    var executions: seq<Execution> := [];
    var found: set<string> := {};
    var iteration := 0;
    ghost var limit := budget.limits.toolCalls;
    while iteration < maxIterations && !isDone
      invariant iteration == |prompts| <= maxIterations
      invariant Trace(w, limit, initial, prompts, executions)
      invariant !isDone ==> NextPrompt(w, limit, initial, prompts, executions, messages)
      invariant budget.toolCalls == ClaimedCalls(w, limit, prompts, |prompts|)
      invariant found <= w.allowed && Within(budget.limits, budget.State())
      invariant |executions| <= budget.toolCalls && OutputBytes(executions) == budget.totalToolResultBytes
      invariant isDone ==> EndsWell(w, prompts, finalText)
    {
      Prompted(w, limit, initial, prompts, executions, messages);
      ClaimedStays(w, limit, prompts, messages, iteration);
      prompts := prompts + [messages];
      var reply := w.model(iteration, messages);
      if reply.ModelThrows? {
        isDone, finalText := true, w.internalError;
      } else if reply.calls.Some? && reply.calls.value != [] {
        var ok;
        ok, messages, found, executions :=
          AnswerCalls(w, limit, initial, prompts, reply, messages, found, executions, iteration, budget);
        if !ok { isDone, finalText := true, w.internalError; }
      } else {
        if !streaming { messages := messages + [Assistant(reply.content, reply.calls)]; }
        isDone, finalText := true, FinalText(w, reply.content);
      }
      iteration := iteration + 1;
    }
    if !isDone { finalText := w.internalError; }
    t := Turn(prompts, executions, isDone, finalText);
  }
}
