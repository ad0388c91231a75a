/**
 `runAgentLoop` of packages/ai/src/agentLoop.ts, for any driver, any tools and any moment of cancellation.

 The driver, the tools and the abort signal are functions of what the loop has done so far: of the number of
 the driver call, and of the round and call a tool is run for.
 */
module AgentLoop {
  import opened Pricing

  datatype StopReason = PauseTurn | ToolUse | Other(reason: string)

  datatype ToolCall = ToolCall(id: string, name: string, input: string)

  datatype ToolResult = ToolResult(id: string, content: string, isError: bool)

  datatype Message =
    | Given(role: string, content: string)
    | Assistant(turn: string)
    | Results(toolResults: seq<ToolResult>)

  datatype Response = Response(
    text: string, model: string, usage: Usage, stopReason: StopReason, toolCalls: seq<ToolCall>, assistantTurn: string)

  datatype Answer = Answered(response: Response) | Failed(error: string)

  datatype Outcome = Outcome(content: string, isError: bool)

  datatype AgentStep = AgentStep(step: nat, call: ToolCall, result: string, isError: bool)

  /** `runTool` never throws: a handler's error is an outcome. `tools` lists the registered names. */
  datatype World = World(
    driver: (nat, seq<Message>) -> Answer,
    runTool: (nat, ToolCall) -> Outcome,
    tools: seq<string>,
    aborted: nat -> bool)

  datatype Result =
    | Returned(text: string, model: string, usage: Usage, steps: seq<AgentStep>, stopReason: StopReason)
    | PausedTooOften(resumes: nat)
    | TooManySteps(made: nat)
    | Cancelled
    | DriverFailed(error: string)

  // ---------------------------------------------------------------- what a history of responses means

  predicate ToolTurn(r: Response) {
    r.stopReason == ToolUse && r.toolCalls != []
  }

  function Joined(names: seq<string>): string {
    if names == [] then "" else if |names| == 1 then names[0] else names[0] + ", " + Joined(names[1..])
  }

  function AnswerOf(w: World, round: nat, call: ToolCall): Outcome {
    if call.name in w.tools then w.runTool(round, call)
    else
      Outcome("No tool named '" + call.name + "' is available. Available tools: "
              + (if w.tools == [] then "none" else Joined(w.tools)) + ".", true)
  }

  function ResultsOf(w: World, round: nat, calls: seq<ToolCall>): (r: seq<ToolResult>)
    ensures |r| == |calls| && forall i :: 0 <= i < |r| ==> r[i].id == calls[i].id
  {
    seq(|calls|, i requires 0 <= i < |calls| =>
      var o := AnswerOf(w, round, calls[i]); ToolResult(calls[i].id, o.content, o.isError))
  }

  function StepsIn(w: World, round: nat, calls: seq<ToolCall>): (r: seq<AgentStep>)
    ensures |r| == |calls| && forall i :: 0 <= i < |r| ==> r[i].call == calls[i] && r[i].step == round
  {
    seq(|calls|, i requires 0 <= i < |calls| =>
      var o := AnswerOf(w, round, calls[i]); AgentStep(round, calls[i], o.content, o.isError))
  }

  /** Tool turns among the responses. */
  function Rounds(log: seq<Response>): nat {
    if log == [] then 0 else Rounds(log[..|log| - 1]) + if ToolTurn(log[|log| - 1]) then 1 else 0
  }

  function Pauses(log: seq<Response>): nat {
    if log == [] then 0 else Pauses(log[..|log| - 1]) + if log[|log| - 1].stopReason == PauseTurn then 1 else 0
  }

  /** What the responses add to the conversation: each turn, and after a tool turn one user turn with all its results. */
  function Transcript(w: World, log: seq<Response>): seq<Message> {
    if log == [] then []
    else
      var last := log[|log| - 1];
      Transcript(w, log[..|log| - 1]) + [Assistant(last.assistantTurn)]
      + if ToolTurn(last) then [Results(ResultsOf(w, Rounds(log), last.toolCalls))] else []
  }

  function StepsOf(w: World, log: seq<Response>): seq<AgentStep> {
    if log == [] then []
    else
      var last := log[|log| - 1];
      StepsOf(w, log[..|log| - 1]) + if ToolTurn(last) then StepsIn(w, Rounds(log), last.toolCalls) else []
  }

  function UsagesOf(log: seq<Response>): (u: seq<Usage>)
    ensures |u| == |log| && forall i :: 0 <= i < |u| ==> u[i] == log[i].usage
  {
    seq(|log|, i requires 0 <= i < |log| => log[i].usage)
  }

  /** Every response is the driver's answer to the conversation so far, and all but the last were continued. */
  ghost predicate Conversation(w: World, start: seq<Message>, log: seq<Response>) {
    && (forall i :: 0 <= i < |log| ==> w.driver(i, start + Transcript(w, log[..i])) == Answered(log[i]) && !w.aborted(i))
    && forall i :: 0 <= i < |log| - 1 ==> ToolTurn(log[i]) || log[i].stopReason == PauseTurn
  }

  function NonNegative(n: int): nat {
    if n < 0 then 0 else n
  }

  /** What the loop returned or threw, given every response it got. */
  ghost predicate Explains(w: World, start: seq<Message>, maxSteps: int, maxResumes: int, log: seq<Response>, r: Result) {
    match r
    case Returned(text, model, usage, steps, stopReason) =>
      && log != []
      && var last := log[|log| - 1];
         && !ToolTurn(last) && last.stopReason != PauseTurn
         && text == last.text && model == last.model && stopReason == last.stopReason
         && usage == TotalUsage(UsagesOf(log))
         && steps == StepsOf(w, log)
         && Rounds(log) <= NonNegative(maxSteps) && Pauses(log) <= NonNegative(maxResumes)
    case PausedTooOften(resumes) =>
      log != [] && log[|log| - 1].stopReason == PauseTurn && resumes == Pauses(log) > maxResumes
    case TooManySteps(made) =>
      log != [] && ToolTurn(log[|log| - 1]) && made == Rounds(log) - 1 >= maxSteps
    case Cancelled => w.aborted(|log|)
    case DriverFailed(error) => w.driver(|log|, start + Transcript(w, log)) == Failed(error)
  }

  /** Every call of the driver, the failing one included. */
  function DriverCalls(r: Result, log: seq<Response>): nat {
    |log| + if r.DriverFailed? then 1 else 0
  }

  method RunAgentLoop(w: World, start: seq<Message>, driverModel: string, maxSteps: int, maxResumes: int)
    returns (r: Result, log: seq<Response>)
    ensures Conversation(w, start, log)
    ensures DriverCalls(r, log) <= NonNegative(maxSteps) + NonNegative(maxResumes) + 1
    ensures Explains(w, start, maxSteps, maxResumes, log, r)
  {
    hide Transcript, StepsOf, Rounds, Pauses, TotalUsage, UsagesOf, Conversation, ResultsOf, StepsIn, Accumulate;
    var messages, steps, usage := start, [], NO_USAGE;
    var step: nat, resumes: nat, model := 0, 0, driverModel;
    log := [];
    NothingYet(w, start);
    while true
      invariant Conversation(w, start, log)
      invariant forall i :: 0 <= i < |log| ==> ToolTurn(log[i]) || log[i].stopReason == PauseTurn
      invariant step == Rounds(log) && resumes == Pauses(log) && |log| == step + resumes
      invariant step <= NonNegative(maxSteps) && resumes <= NonNegative(maxResumes)
      invariant messages == start + Transcript(w, log)
      invariant steps == StepsOf(w, log) && usage == TotalUsage(UsagesOf(log))
      decreases NonNegative(maxSteps) + NonNegative(maxResumes) - |log|
    {
      if w.aborted(|log|) {
        return Cancelled, log;
      }
      var answer := w.driver(|log|, messages);
      if answer.Failed? {
        return DriverFailed(answer.error), log;
      }
      var response := answer.response;
      ghost var before := log;
      log := log + [response];
      OneMore(w, start, before, response);
      model := response.model;
      usage := Accumulate(usage, response.usage);
      messages := messages + [Assistant(response.assistantTurn)];
      if response.stopReason == PauseTurn {
        resumes := resumes + 1;
        if resumes > maxResumes {
          return PausedTooOften(resumes), log;
        }
        continue;
      }
      if response.stopReason != ToolUse || response.toolCalls == [] {
        return Returned(response.text, model, usage, steps, response.stopReason), log;
      }
      if step >= maxSteps {
        return TooManySteps(step), log;
      }
      step := step + 1;
      steps := steps + StepsIn(w, step, response.toolCalls);
      messages := messages + [Results(ResultsOf(w, step, response.toolCalls))];
    }
  }

  lemma NothingYet(w: World, start: seq<Message>)
    ensures Conversation(w, start, []) && Rounds([]) == 0 && Pauses([]) == 0
    ensures start + Transcript(w, []) == start && StepsOf(w, []) == [] && TotalUsage(UsagesOf([])) == NO_USAGE
  {
  }

  /** One more response in the history. */
  lemma OneMore(w: World, start: seq<Message>, log: seq<Response>, response: Response)
    requires Conversation(w, start, log) && !w.aborted(|log|)
    requires forall i :: 0 <= i < |log| ==> ToolTurn(log[i]) || log[i].stopReason == PauseTurn
    requires w.driver(|log|, start + Transcript(w, log)) == Answered(response)
    ensures var longer := log + [response];
            && Conversation(w, start, longer)
            && Rounds(longer) == Rounds(log) + (if ToolTurn(response) then 1 else 0)
            && Pauses(longer) == Pauses(log) + (if response.stopReason == PauseTurn then 1 else 0)
            && TotalUsage(UsagesOf(longer)) == Accumulate(TotalUsage(UsagesOf(log)), response.usage)
            && StepsOf(w, longer) == StepsOf(w, log) + (if ToolTurn(response) then StepsIn(w, Rounds(longer), response.toolCalls) else [])
            && start + Transcript(w, longer)
               == start + Transcript(w, log) + [Assistant(response.assistantTurn)]
                  + if ToolTurn(response) then [Results(ResultsOf(w, Rounds(longer), response.toolCalls))] else []
  {
    var longer := log + [response];
    assert longer[..|log|] == log;
    LongerConversation(w, start, log, response);
    OneMoreTurn(w, start, log, response);
    hide Transcript, Conversation, AnswerOf;
    assert UsagesOf(longer)[..|log|] == UsagesOf(log);
  }

  lemma LongerConversation(w: World, start: seq<Message>, log: seq<Response>, response: Response)
    requires Conversation(w, start, log) && !w.aborted(|log|)
    requires forall i :: 0 <= i < |log| ==> ToolTurn(log[i]) || log[i].stopReason == PauseTurn
    requires w.driver(|log|, start + Transcript(w, log)) == Answered(response)
    ensures Conversation(w, start, log + [response])
  {
    hide Transcript;
    var longer := log + [response];
    assert longer[..|log|] == log;
    forall i | 0 <= i < |longer| ensures w.driver(i, start + Transcript(w, longer[..i])) == Answered(longer[i]) && !w.aborted(i) {
      if i < |log| {
        assert longer[..i] == log[..i];
      }
    }
  }

  lemma OneMoreTurn(w: World, start: seq<Message>, log: seq<Response>, response: Response)
    ensures var longer := log + [response];
            start + Transcript(w, longer)
            == start + Transcript(w, log) + [Assistant(response.assistantTurn)]
               + if ToolTurn(response) then [Results(ResultsOf(w, Rounds(longer), response.toolCalls))] else []
  {
    assert (log + [response])[..|log|] == log;
  }

  // ---------------------------------------------------------------- what the transcript shows

  ghost function CallsOf(log: seq<Response>): seq<ToolCall> {
    if log == [] then []
    else CallsOf(log[..|log| - 1]) + if ToolTurn(log[|log| - 1]) then log[|log| - 1].toolCalls else []
  }

  /** Numbered by round, from 1 to `rounds`, without a gap. */
  ghost predicate Numbered(s: seq<AgentStep>, rounds: nat) {
    && (s == [] <==> rounds == 0)
    && (s != [] ==> s[0].step == 1 && s[|s| - 1].step == rounds)
    && forall i :: 0 < i < |s| ==> s[i - 1].step <= s[i].step <= s[i - 1].step + 1
  }

  lemma NextRoundNumbered(s: seq<AgentStep>, rounds: nat, more: seq<AgentStep>)
    requires Numbered(s, rounds) && more != [] && forall i :: 0 <= i < |more| ==> more[i].step == rounds + 1
    ensures Numbered(s + more, rounds + 1)
  {
    var all := s + more;
    forall i | 0 < i < |all| ensures all[i - 1].step <= all[i].step <= all[i - 1].step + 1 {
      if i > |s| {
        assert all[i - 1] == more[i - 1 - |s|] && all[i] == more[i - |s|];
      }
    }
  }

  /** The steps are all tool calls, in order. */
  lemma {:induction false} StepsAreCalls(w: World, log: seq<Response>)
    ensures |StepsOf(w, log)| == |CallsOf(log)|
    ensures forall i :: 0 <= i < |StepsOf(w, log)| ==> StepsOf(w, log)[i].call == CallsOf(log)[i]
  {
    hide AnswerOf;
    if log != [] {
      StepsAreCalls(w, log[..|log| - 1]);
    }
  }

  lemma {:induction false} StepsNumbered(w: World, log: seq<Response>)
    ensures Numbered(StepsOf(w, log), Rounds(log))
  {
    hide Numbered, AnswerOf;
    if log == [] {
      NothingNumbered();
    } else {
      var init, last := log[..|log| - 1], log[|log| - 1];
      StepsNumbered(w, init);
      if ToolTurn(last) {
        NextRoundNumbered(StepsOf(w, init), Rounds(init), StepsIn(w, Rounds(log), last.toolCalls));
      } else {
        assert StepsOf(w, init) + [] == StepsOf(w, init);
      }
    }
  }

  lemma NothingNumbered()
    ensures Numbered([], 0)
  {
  }

  /** Where a response's turn stands in the transcript. */
  ghost function PlaceOf(w: World, log: seq<Response>, i: nat): nat
    requires i <= |log|
  {
    |Transcript(w, log[..i])|
  }

  /** A tool turn is followed by exactly one user turn, which answers its call ids in order; any other turn by none. */
  lemma {:induction false} TurnsAnswered(w: World, log: seq<Response>, i: nat)
    requires i < |log|
    ensures var t, p := Transcript(w, log), PlaceOf(w, log, i);
            && PlaceOf(w, log, i + 1) == p + (if ToolTurn(log[i]) then 2 else 1) <= |t|
            && t[p] == Assistant(log[i].assistantTurn)
            && (ToolTurn(log[i]) ==>
                  && t[p + 1].Results?
                  && |t[p + 1].toolResults| == |log[i].toolCalls|
                  && forall k :: 0 <= k < |log[i].toolCalls| ==> t[p + 1].toolResults[k].id == log[i].toolCalls[k].id)
  {
    var init := log[..|log| - 1];
    if i < |log| - 1 {
      TurnsAnswered(w, init, i);
      assert init[..i] == log[..i] && init[..i + 1] == log[..i + 1];
    } else {
      assert log[..i + 1] == log;
    }
  }

  /** The loop's usage, priced as one request, is never below what its responses cost one by one. */
  lemma AgentCost(prices: Prices, model: string, log: seq<Response>)
    requires SoundTable(prices) && AllAgree(UsagesOf(log))
    ensures SumOfPrices(prices, model, UsagesOf(log)) <= EstimateCost(prices, model, TotalUsage(UsagesOf(log)))
  {
    AccumulatedCost(prices, model, UsagesOf(log));
  }
}
