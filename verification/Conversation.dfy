/**
 Conversations with an LLM, and the pairing every provider demands: an assistant
 message that calls tools is followed at once by one tool response per call, in
 the same order and with the same ids, and no tool response stands elsewhere.
 */
module Conversations {
  import opened Common

  datatype ToolCall = ToolCall(id: string, name: string, arguments: string)

  datatype Message = Message(role: string, content: string,
    toolCalls: Option<seq<ToolCall>>, toolCallId: Option<string>)

  function UserMessage(content: string): Message {
    Message("user", content, None, None)
  }

  function AssistantMessage(content: string): Message {
    Message("assistant", content, None, None)
  }

  function ToolResponse(id: string, content: string): Message {
    Message("tool", content, None, Some(id))
  }

  /** The tools an assistant message calls. */
  function Calls(m: Message): seq<ToolCall> {
    if m.role == "assistant" && m.toolCalls.Some? then m.toolCalls.value else []
  }

  predicate Answers(m: Message, call: ToolCall) {
    m.role == "tool" && m.toolCallId == Some(call.id)
  }

  predicate Answered(calls: seq<ToolCall>, ms: seq<Message>) {
    |ms| == |calls| && forall k :: 0 <= k < |calls| ==> Answers(ms[k], calls[k])
  }

  /** Every group of calls is answered at once, exactly, and in order. */
  predicate Paired(ms: seq<Message>)
    decreases |ms|
  {
    if ms == [] then true
    else if ms[0].role == "tool" then false
    else
      var n := |Calls(ms[0])|;
      1 + n <= |ms| && Answered(Calls(ms[0]), ms[1..1 + n]) && Paired(ms[1 + n..])
  }

  /** A group of calls and answers before a well-paired rest. */
  lemma PairedPrepend(m: Message, answers: seq<Message>, rest: seq<Message>)
    requires m.role != "tool" && Answered(Calls(m), answers) && Paired(rest)
    ensures Paired([m] + answers + rest)
  {
    var all := [m] + answers + rest;
    assert all[1..1 + |answers|] == answers;
    assert all[1 + |answers|..] == rest;
  }

  lemma {:induction false} PairedConcat(a: seq<Message>, b: seq<Message>)
    requires Paired(a) && Paired(b)
    ensures Paired(a + b)
    decreases |a|
  {
    if a == [] {
      ConcatEmpty(b);
    } else {
      var n := |Calls(a[0])|;
      var head, answers, rest := a[0], a[1..1 + n], a[1 + n..];
      PairedConcat(rest, b);
      PairedPrepend(head, answers, rest + b);
      FirstGroup(a, n);
      ConcatAssoc([head] + answers, rest, b);
    }
  }

  lemma FirstGroup<T>(s: seq<T>, n: nat)
    requires 1 + n <= |s|
    ensures s == [s[0]] + s[1..1 + n] + s[1 + n..]
  {
  }
}
