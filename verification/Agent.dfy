/**
 The agent's tool loop, for an arbitrary LLM, arbitrary tools and an arbitrary
 error-recovery strategy: what is sent at each request, what the conversation is
 afterwards, and how often the LLM is called.
 */
module Agents {
  import opened Common
  import opened Conversations

  datatype LlmResponse = LlmResponse(content: Option<string>, toolCalls: Option<seq<ToolCall>>) {
    predicate IsToolCall() {
      toolCalls.Some? && toolCalls.value != []
    }
  }

  datatype RecoveryKind = Retry | Fail | Fallback | Skip

  datatype RecoveryAction = RecoveryAction(kind: RecoveryKind, fallbackValue: Option<string>, message: Option<string>)

  datatype ToolResult = ToolResult(success: bool, resultForLlm: string, error: Option<string>)

  /**
   Everything outside the agent: what the LLM answers to the messages of the n-th
   request at each attempt, what each tool call returns at its place in the n-th
   round, and what the recovery strategy, when there is one, decides about an error.
   */
  datatype World = World(
    llm: (seq<Message>, nat, nat) -> Result<LlmResponse, string>,
    tool: (ToolCall, nat, nat) -> ToolResult,
    recover: Option<(string, seq<Message>, nat) -> RecoveryAction>)

  const HARD_CAP: nat := 5

  function OrElse<T>(a: Option<T>, b: Option<T>): Option<T> {
    if a.Some? then a else b
  }

  function GetOr<T>(a: Option<T>, default: T): T {
    if a.Some? then a.value else default
  }

  function Recovery(w: World, error: string, messages: seq<Message>, attempt: nat): RecoveryAction {
    if w.recover.Some? then w.recover.value(error, messages, attempt) else RecoveryAction(Fail, None, Some(error))
  }

  /** The text standing for an answer when the LLM could not be reached. */
  function Excuse(action: RecoveryAction, error: string): LlmResponse {
    var said := if action.kind.Fallback? then OrElse(action.fallbackValue, action.message) else action.message;
    LlmResponse(Some(GetOr(said, "LLM error: " + error)), None)
  }

  // ---- Specification --------------------------------------------------------------------

  /** The answer to the n-th request, trying again from `attempt` on, and the last attempt made. */
  function Answer(w: World, messages: seq<Message>, n: nat, attempt: nat): (LlmResponse, nat)
    requires 1 <= attempt <= HARD_CAP
    decreases HARD_CAP - attempt
  {
    match w.llm(messages, n, attempt)
    case Ok(r) => (r, attempt)
    case Err(e) =>
      var action := Recovery(w, e, messages, attempt);
      if action.kind.Retry? && attempt < HARD_CAP then Answer(w, messages, n, attempt + 1)
      else (Excuse(action, e), attempt)
  }

  function ToolContent(r: ToolResult): string {
    if r.success then r.resultForLlm else GetOr(r.error, "Tool execution failed")
  }

  function ToolResponses(w: World, calls: seq<ToolCall>, round: nat): (r: seq<Message>)
    ensures |r| == |calls|
    ensures forall k :: 0 <= k < |r| ==> r[k] == ToolResponse(calls[k].id, ToolContent(w.tool(calls[k], round, k)))
  {
    seq(|calls|, k requires 0 <= k < |calls| => ToolResponse(calls[k].id, ToolContent(w.tool(calls[k], round, k))))
  }

  /** The assistant's calls and the tools' answers. */
  function ToolRound(w: World, r: LlmResponse, round: nat): seq<Message>
    requires r.IsToolCall()
  {
    [AssistantMessage(GetOr(r.content, "")).(toolCalls := r.toolCalls)] + ToolResponses(w, r.toolCalls.value, round)
  }

  function FinalWords(r: LlmResponse): seq<Message> {
    if r.content.Some? then [AssistantMessage(r.content.value)] else []
  }

  /** One request to the LLM: its messages and the attempts it took. */
  datatype Request = Request(messages: seq<Message>, attempts: nat)

  /** The conversation after the loop, and the requests made, from the given round on. */
  function ToolLoop(w: World, ms: seq<Message>, round: nat, limit: nat): (seq<Message>, seq<Request>)
    decreases limit - round
  {
    if round >= limit then (ms, [])
    else
      var (r, attempts) := Answer(w, ms, round, 1);
      if r.IsToolCall() then
        var (final, requests) := ToolLoop(w, ms + ToolRound(w, r, round), round + 1, limit);
        (final, [Request(ms, attempts)] + requests)
      else (ms + FinalWords(r), [Request(ms, attempts)])
  }

  /** From here on the loop does what is left of the loop that began at `start`. */
  ghost predicate Resumes(w: World, start: seq<Message>, limit: nat, ms: seq<Message>,
                          round: nat, requests: seq<Request>)
  {
    && ToolLoop(w, ms, round, limit).0 == ToolLoop(w, start, 0, limit).0
    && requests + ToolLoop(w, ms, round, limit).1 == ToolLoop(w, start, 0, limit).1
  }

  /** A request and, when tools were called, their round are the first step of what is left. */
  lemma RoundResumes(w: World, start: seq<Message>, limit: nat, ms: seq<Message>, round: nat, requests: seq<Request>)
    requires round < limit && Resumes(w, start, limit, ms, round, requests)
    ensures var (r, attempts) := Answer(w, ms, round, 1);
            var more := requests + [Request(ms, attempts)];
            if r.IsToolCall() then Resumes(w, start, limit, ms + ToolRound(w, r, round), round + 1, more)
            else ToolLoop(w, start, 0, limit) == (ms + FinalWords(r), more)
  {
    var (r, attempts) := Answer(w, ms, round, 1);
    if r.IsToolCall() {
      ConcatAssoc(requests, [Request(ms, attempts)], ToolLoop(w, ms + ToolRound(w, r, round), round + 1, limit).1);
    }
  }

  // ---- The agent -----------------------------------------------------------------------------

  class Conversation {
    var messages: seq<Message>

    constructor (stored: seq<Message>)
      ensures messages == stored
    {
      messages := stored;
    }

    method AddMessage(m: Message)
      modifies this
      ensures messages == old(messages) + [m]
    {
      messages := messages + [m];
    }
  }

  class Agent {
    const maxToolIterations: nat

    constructor (limit: nat)
      ensures maxToolIterations == limit
    {
      maxToolIterations := limit;
    }

    /** Tries the LLM until it answers or recovery gives up, at most HARD_CAP times. */
    method GetLlmResponse(w: World, messages: seq<Message>, n: nat) returns (response: LlmResponse, attempt: nat)
      ensures (response, attempt) == Answer(w, messages, n, 1)
    {
      attempt := 1;
      while true
        invariant 1 <= attempt <= HARD_CAP
        invariant Answer(w, messages, n, attempt) == Answer(w, messages, n, 1)
        decreases HARD_CAP - attempt
      {
        var outcome := w.llm(messages, n, attempt);
        match outcome
        case Ok(r) =>
          return r, attempt;
        case Err(e) =>
          var action := Recovery(w, e, messages, attempt);
          if action.kind.Retry? && attempt < HARD_CAP {
            attempt := attempt + 1;
          } else {
            return Excuse(action, e), attempt;
          }
      }
    }

    /** Adds the user's message, runs the tool loop, and returns the requests it made. */
    method SendMessage(w: World, conversation: Conversation, text: string) returns (requests: seq<Request>)
      modifies conversation
      ensures (conversation.messages, requests)
           == ToolLoop(w, old(conversation.messages) + [UserMessage(text)], 0, maxToolIterations)
    {
      conversation.AddMessage(UserMessage(text));
      requests := [];
      var iterations := 0;
      ghost var start := conversation.messages;
      ConcatEmpty(ToolLoop(w, start, 0, maxToolIterations).1);
      while iterations < maxToolIterations
        invariant iterations <= maxToolIterations
        invariant Resumes(w, start, maxToolIterations, conversation.messages, iterations, requests)
      {
        var asked := conversation.messages;
        var response, attempts := GetLlmResponse(w, asked, iterations);
        RoundResumes(w, start, maxToolIterations, asked, iterations, requests);
        requests := requests + [Request(asked, attempts)];
        if response.IsToolCall() {
          AddToolRound(w, conversation, response, iterations);
          iterations := iterations + 1;
        } else {
          if response.content.Some? {
            conversation.AddMessage(AssistantMessage(response.content.value));
          }
          assert conversation.messages == asked + FinalWords(response);
          return;
        }
      }
      ConcatEmpty(requests);
    }

    /** Adds the assistant's calls and, once they have run, the tools' answers. */
    method AddToolRound(w: World, conversation: Conversation, response: LlmResponse, round: nat)
      requires response.IsToolCall()
      modifies conversation
      ensures conversation.messages == old(conversation.messages) + ToolRound(w, response, round)
    {
      ghost var before := conversation.messages;
      var calling := AssistantMessage(GetOr(response.content, "")).(toolCalls := response.toolCalls);
      conversation.AddMessage(calling);
      var responses := RunTools(w, response.toolCalls.value, round);
      AddResponses(conversation, responses);
      ghost var answers := ToolResponses(w, response.toolCalls.value, round);
      assert conversation.messages == before + [calling] + answers;
      ConcatAssoc(before, [calling], answers);
    }

    /** Executes the calls in order and collects id and content of each result. */
    method RunTools(w: World, calls: seq<ToolCall>, round: nat) returns (responses: seq<(string, string)>)
      ensures |responses| == |calls|
      ensures forall k :: 0 <= k < |calls| ==> responses[k] == (calls[k].id, ToolContent(w.tool(calls[k], round, k)))
    {
      responses := [];
      for k := 0 to |calls|
        invariant |responses| == k
        invariant forall j :: 0 <= j < k ==> responses[j] == (calls[j].id, ToolContent(w.tool(calls[j], round, j)))
      {
        var result := w.tool(calls[k], round, k);
        responses := responses + [(calls[k].id, ToolContent(result))];
      }
    }

    method AddResponses(conversation: Conversation, responses: seq<(string, string)>)
      modifies conversation
      ensures conversation.messages == old(conversation.messages) +
              seq(|responses|, k requires 0 <= k < |responses| => ToolResponse(responses[k].0, responses[k].1))
    {
      for k := 0 to |responses|
        invariant conversation.messages == old(conversation.messages) +
                  seq(k, j requires 0 <= j < k => ToolResponse(responses[j].0, responses[j].1))
      {
        conversation.AddMessage(ToolResponse(responses[k].0, responses[k].1));
      }
    }
  }

  // ---- What every run keeps ---------------------------------------------------------------

  lemma {:induction false} AnswerAttempts(w: World, messages: seq<Message>, n: nat, attempt: nat)
    requires 1 <= attempt <= HARD_CAP
    ensures attempt <= Answer(w, messages, n, attempt).1 <= HARD_CAP
    ensures forall k :: attempt <= k < Answer(w, messages, n, attempt).1 ==> w.llm(messages, n, k).Err?
    ensures w.llm(messages, n, Answer(w, messages, n, attempt).1) == Ok(Answer(w, messages, n, attempt).0)
         || (w.llm(messages, n, Answer(w, messages, n, attempt).1).Err?
            && !Answer(w, messages, n, attempt).0.IsToolCall())
    decreases HARD_CAP - attempt
  {
    match w.llm(messages, n, attempt)
    case Ok(_) =>
    case Err(e) =>
      var action := Recovery(w, e, messages, attempt);
      if action.kind.Retry? && attempt < HARD_CAP {
        AnswerAttempts(w, messages, n, attempt + 1);
      }
  }

  lemma ToolRoundIsPaired(w: World, r: LlmResponse, round: nat)
    requires r.IsToolCall()
    ensures Paired(ToolRound(w, r, round))
  {
    var calls := r.toolCalls.value;
    var m := AssistantMessage(GetOr(r.content, "")).(toolCalls := r.toolCalls);
    var answers := ToolResponses(w, calls, round);
    forall k | 0 <= k < |calls| ensures Answers(answers[k], calls[k]) {
    }
    PairedPrepend(m, answers, []);
    ConcatEmpty([m] + answers);
  }

  lemma RoundIsPaired(w: World, ms: seq<Message>, r: LlmResponse, round: nat)
    requires Paired(ms) && r.IsToolCall()
    ensures Paired(ms + ToolRound(w, r, round))
  {
    ToolRoundIsPaired(w, r, round);
    PairedConcat(ms, ToolRound(w, r, round));
  }

  /**
   From a well-paired conversation, for every LLM and every tool: each request sent
   is well paired, each needs at most HARD_CAP attempts, there are at most as many
   requests as rounds left, and the conversation left behind is well paired again.
   */
  lemma {:induction false} LoopKeepsPairing(w: World, ms: seq<Message>, round: nat, limit: nat)
    requires Paired(ms)
    ensures var (final, requests) := ToolLoop(w, ms, round, limit);
            && Paired(final)
            && |requests| <= (if round < limit then limit - round else 0)
            && (forall k :: 0 <= k < |requests| ==>
              Paired(requests[k].messages) && 1 <= requests[k].attempts <= HARD_CAP)
    decreases limit - round
  {
    hide Answer, ToolRound;
    if round < limit {
      var (r, attempts) := Answer(w, ms, round, 1);
      AnswerAttempts(w, ms, round, 1);
      if r.IsToolCall() {
        RoundIsPaired(w, ms, r, round);
        LoopKeepsPairing(w, ms + ToolRound(w, r, round), round + 1, limit);
      } else if r.content.Some? {
        PairedConcat(ms, [AssistantMessage(r.content.value)]);
      } else {
        ConcatEmpty(ms);
      }
    }
  }

  /** Nothing said is ever dropped or rewritten: each request extends the one before, and the result all of them. */
  lemma {:induction false} LoopOnlyAppends(w: World, ms: seq<Message>, round: nat, limit: nat)
    ensures var (final, requests) := ToolLoop(w, ms, round, limit);
            && ms <= final
            && (requests != [] ==> requests[0].messages == ms)
            && (forall k :: 0 <= k < |requests| ==> requests[k].messages <= final)
            && (forall k :: 0 < k < |requests| ==> requests[k - 1].messages < requests[k].messages)
    decreases limit - round
  {
    if round < limit {
      var (r, attempts) := Answer(w, ms, round, 1);
      if r.IsToolCall() {
        var next := ms + ToolRound(w, r, round);
        LoopOnlyAppends(w, next, round + 1, limit);
        var (final, rest) := ToolLoop(w, next, round + 1, limit);
        assert next[..|ms|] == ms && final[..|ms|] == final[..|next|][..|ms|];
        forall k | 0 < k < |[Request(ms, attempts)] + rest|
          ensures ([Request(ms, attempts)] + rest)[k - 1].messages < ([Request(ms, attempts)] + rest)[k].messages
        {
          if k > 1 {
            assert rest[k - 2].messages < rest[k - 1].messages;
          }
        }
      }
    }
  }

  /** Why the loop stopped: the LLM answered without calling tools, or the limit was reached in a tool round. */
  lemma {:induction false} LoopStopsForAReason(w: World, ms: seq<Message>, round: nat, limit: nat)
    ensures var (final, requests) := ToolLoop(w, ms, round, limit);
            if requests == [] then round >= limit && final == ms
            else
              var last := requests[|requests| - 1].messages;
              var r := Answer(w, last, round + |requests| - 1, 1).0;
              if r.IsToolCall() then round + |requests| == limit && final == last + ToolRound(w, r, limit - 1)
              else final == last + FinalWords(r)
    decreases limit - round
  {
    hide Answer, ToolRound, FinalWords;
    if round < limit {
      var (r, attempts) := Answer(w, ms, round, 1);
      if r.IsToolCall() {
        LoopStopsForAReason(w, ms + ToolRound(w, r, round), round + 1, limit);
      }
    }
  }

  // ---- What is said ------------------------------------------------------------------------------

  /** Each attempt before this one failed, and recovery asked to try again. */
  ghost predicate Retried(w: World, messages: seq<Message>, n: nat, attempts: nat) {
    && 1 <= attempts <= 5
    && forall k :: 1 <= k < attempts ==>
         && w.llm(messages, n, k).Err? && w.recover.Some?
         && w.recover.value(w.llm(messages, n, k).error, messages, k).kind == Retry
  }

  /** What a tool's result tells the LLM. */
  ghost predicate Tells(t: ToolResult, content: string) {
    && (t.success ==> content == t.resultForLlm)
    && (!t.success && t.error.Some? ==> content == t.error.value)
    && (!t.success && t.error.None? ==> content == "Tool execution failed")
  }

  /** `after` is `before`, the response with its calls, and per call, in order, what its tool returned. */
  ghost predicate CallsAreAnswered(w: World, before: seq<Message>, n: nat, r: LlmResponse, after: seq<Message>) {
    && r.toolCalls.Some? && r.toolCalls.value != []
    && before <= after && |after| == |before| + 1 + |r.toolCalls.value|
    && after[|before|] ==
         Message("assistant", if r.content.Some? then r.content.value else "", r.toolCalls, None)
    && forall j :: 0 <= j < |r.toolCalls.value| ==>
         var m := after[|before| + 1 + j];
         && m == Message("tool", m.content, None, Some(r.toolCalls.value[j].id))
         && Tells(w.tool(r.toolCalls.value[j], n, j), m.content)
  }

  /** The text that stands for an LLM that could not be reached. */
  ghost predicate Excuses(w: World, messages: seq<Message>, attempts: nat, error: string, text: string) {
    if w.recover.None? then text == error
    else
      var action := w.recover.value(error, messages, attempts);
      && !(action.kind == Retry && attempts < 5)
      && (action.kind == Fallback && action.fallbackValue.Some? ==> text == action.fallbackValue.value)
      && (!(action.kind == Fallback && action.fallbackValue.Some?) && action.message.Some? ==>
           text == action.message.value)
      && (!(action.kind == Fallback && action.fallbackValue.Some?) && action.message.None? ==>
           text == "LLM error: " + error)
  }

  /** `after` is `before` and the last words: the response's text if any, or what stands for an unreachable LLM. */
  ghost predicate Concludes(w: World, before: seq<Message>, n: nat, attempts: nat, after: seq<Message>) {
    match w.llm(before, n, attempts)
    case Ok(r) =>
      && (r.toolCalls.None? || r.toolCalls.value == [])
      && after == before + if r.content.Some? then [Message("assistant", r.content.value, None, None)] else []
    case Err(e) =>
      exists text :: Excuses(w, before, attempts, e, text) && after == before + [Message("assistant", text, None, None)]
  }

  /** What follows a request: the next request's messages, or at the end the conversation left behind. */
  ghost predicate Follows(w: World, q: Request, n: nat, after: seq<Message>, last: bool, limit: nat) {
    && Retried(w, q.messages, n, q.attempts)
    && var answer := w.llm(q.messages, n, q.attempts);
       if answer.Ok? && answer.value.toolCalls.Some? && answer.value.toolCalls.value != [] then
         CallsAreAnswered(w, q.messages, n, answer.value, after) && (last ==> n + 1 == limit)
       else last && Concludes(w, q.messages, n, q.attempts, after)
  }

  lemma {:induction false} AnswerFollows(w: World, messages: seq<Message>, n: nat, attempt: nat)
    requires 1 <= attempt <= HARD_CAP && Retried(w, messages, n, attempt)
    ensures var (r, attempts) := Answer(w, messages, n, attempt);
            && Retried(w, messages, n, attempts)
            && (w.llm(messages, n, attempts).Ok? ==> r == w.llm(messages, n, attempts).value)
            && (w.llm(messages, n, attempts).Err? ==>
                 && r.content.Some? && r.toolCalls == None
                 && Excuses(w, messages, attempts, w.llm(messages, n, attempts).error, r.content.value))
    decreases HARD_CAP - attempt
  {
    match w.llm(messages, n, attempt)
    case Ok(_) =>
    case Err(e) =>
      var action := Recovery(w, e, messages, attempt);
      if action.kind.Retry? && attempt < HARD_CAP {
        AnswerFollows(w, messages, n, attempt + 1);
      }
  }

  lemma RoundAnswersCalls(w: World, messages: seq<Message>, n: nat, r: LlmResponse)
    requires r.IsToolCall()
    ensures CallsAreAnswered(w, messages, n, r, messages + ToolRound(w, r, n))
  {
    var calls, after := r.toolCalls.value, messages + ToolRound(w, r, n);
    var responses := ToolResponses(w, calls, n);
    forall j | 0 <= j < |calls|
      ensures after[|messages| + 1 + j] == responses[j] && Tells(w.tool(calls[j], n, j), responses[j].content)
    {
    }
  }

  /** What every request is followed by, from round `round` on. */
  ghost predicate AllFollow(w: World, requests: seq<Request>, final: seq<Message>, round: nat, limit: nat) {
    forall k :: 0 <= k < |requests| ==> FollowsAt(w, requests, final, round, limit, k)
  }

  ghost predicate FollowsAt(w: World, requests: seq<Request>, final: seq<Message>, round: nat, limit: nat, k: nat)
    requires k < |requests|
  {
    var last := k + 1 == |requests|;
    Follows(w, requests[k], round + k, if last then final else requests[k + 1].messages, last, limit)
  }

  lemma OneMoreFollows(w: World, q: Request, rest: seq<Request>, final: seq<Message>, round: nat, limit: nat)
    requires Follows(w, q, round, if rest == [] then final else rest[0].messages, rest == [], limit)
    requires AllFollow(w, rest, final, round + 1, limit)
    ensures AllFollow(w, [q] + rest, final, round, limit)
  {
    hide Follows;
    var requests := [q] + rest;
    forall k | 0 <= k < |requests| ensures FollowsAt(w, requests, final, round, limit, k) {
      if k > 0 {
        assert FollowsAt(w, rest, final, round + 1, limit, k - 1);
        assert round + 1 + (k - 1) == round + k;
      }
    }
  }

  /**
   Every request of the loop is followed by what was said: after a response with
   calls, the next request ends with that response and the results of its tools;
   after any other, the conversation ends with its text.
   */
  lemma {:induction false} LoopSays(w: World, ms: seq<Message>, round: nat, limit: nat)
    ensures var (final, requests) := ToolLoop(w, ms, round, limit);
            && (requests == [] <==> round >= limit) && (requests == [] ==> final == ms)
            && (requests != [] ==> requests[0].messages == ms)
            && AllFollow(w, requests, final, round, limit)
    decreases limit - round
  {
    if round < limit {
      var (r, attempts) := Answer(w, ms, round, 1);
      var q := Request(ms, attempts);
      AnswerFollows(w, ms, round, 1);
      if r.IsToolCall() {
        var next := ms + ToolRound(w, r, round);
        RoundAnswersCalls(w, ms, round, r);
        LoopSays(w, next, round + 1, limit);
        var (final, rest) := ToolLoop(w, next, round + 1, limit);
        assert Follows(w, q, round, next, rest == [], limit);
        OneMoreFollows(w, q, rest, final, round, limit);
      } else {
        LastWords(w, ms, round, r, attempts);
        assert Follows(w, q, round, ms + FinalWords(r), true, limit);
        assert AllFollow(w, [], ms + FinalWords(r), round + 1, limit);
        OneMoreFollows(w, q, [], ms + FinalWords(r), round, limit);
        ConcatEmpty([q]);
      }
    }
  }

  lemma LastWords(w: World, ms: seq<Message>, n: nat, r: LlmResponse, attempts: nat)
    requires !r.IsToolCall()
    requires w.llm(ms, n, attempts).Ok? ==> r == w.llm(ms, n, attempts).value
    requires w.llm(ms, n, attempts).Err? ==>
      r.content.Some? && Excuses(w, ms, attempts, w.llm(ms, n, attempts).error, r.content.value)
    ensures Concludes(w, ms, n, attempts, ms + FinalWords(r))
  {
  }

  /** A whole message: the first request is what was stored and the user's text. */
  lemma MessageSays(w: World, stored: seq<Message>, text: string, limit: nat)
    ensures var (final, requests) := ToolLoop(w, stored + [UserMessage(text)], 0, limit);
            && (limit == 0 ==> requests == [] && final == stored + [Message("user", text, None, None)])
            && (limit > 0 ==> requests != [] && requests[0].messages == stored + [Message("user", text, None, None)])
            && AllFollow(w, requests, final, 0, limit)
  {
    LoopSays(w, stored + [UserMessage(text)], 0, limit);
  }

  /** A whole message: from a well-paired stored conversation to a well-paired stored conversation. */
  lemma MessageKeepsPairing(w: World, stored: seq<Message>, text: string, limit: nat)
    requires Paired(stored)
    ensures var (final, requests) := ToolLoop(w, stored + [UserMessage(text)], 0, limit);
            && Paired(final) && |requests| <= limit
            && (forall k :: 0 <= k < |requests| ==>
              Paired(requests[k].messages) && 1 <= requests[k].attempts <= HARD_CAP)
  {
    PairedConcat(stored, [UserMessage(text)]);
    LoopKeepsPairing(w, stored + [UserMessage(text)], 0, limit);
  }

  /** The conversation after any number of messages, each with its own world. */
  function Session(worlds: seq<World>, texts: seq<string>, limit: nat): seq<Message>
    requires |worlds| == |texts|
  {
    if texts == [] then []
    else
      var n := |texts| - 1;
      ToolLoop(worlds[n], Session(worlds[..n], texts[..n], limit) + [UserMessage(texts[n])], 0, limit).0
  }

  /** Over a whole session, every stored conversation is well paired. */
  lemma {:induction false} SessionIsPaired(worlds: seq<World>, texts: seq<string>, limit: nat)
    requires |worlds| == |texts|
    ensures Paired(Session(worlds, texts, limit))
  {
    if texts != [] {
      var n := |texts| - 1;
      SessionIsPaired(worlds[..n], texts[..n], limit);
      MessageKeepsPairing(worlds[n], Session(worlds[..n], texts[..n], limit), texts[n], limit);
    }
  }
}
