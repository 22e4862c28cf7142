/**
 Grouping a conversation into the turns of the Anthropic Messages API: tool
 results travel inside one user turn that directly follows the assistant turn
 whose tools they answer.
 */
module Anthropic {
  import opened Common
  import opened Conversations

  datatype Block =
    | TextBlock(text: string)
    | ToolUse(id: string, name: string, input: string)
    | ToolResult(toolUseId: Option<string>, content: string)

  datatype Turn = Turn(role: string, blocks: seq<Block>)

  // ---- Specification ------------------------------------------------------------------------

  function ResultBlock(m: Message): Block {
    ToolResult(m.toolCallId, m.content)
  }

  function UseBlocks(calls: seq<ToolCall>): (r: seq<Block>)
    ensures |r| == |calls|
    ensures forall k :: 0 <= k < |r| ==> r[k] == ToolUse(calls[k].id, calls[k].name, calls[k].arguments)
  {
    seq(|calls|, k requires 0 <= k < |calls| => ToolUse(calls[k].id, calls[k].name, calls[k].arguments))
  }

  /** The turn of a message that is not a tool response. */
  function TurnOf(m: Message): Turn {
    if m.role == "assistant" then
      Turn("assistant", (if m.content == "" then [] else [TextBlock(m.content)]) +
                        (if m.toolCalls.Some? then UseBlocks(m.toolCalls.value) else []))
    else Turn("user", [TextBlock(m.content)])
  }

  function Flush(results: seq<Block>): seq<Turn> {
    if results == [] then [] else [Turn("user", results)]
  }

  /** The turns of `ms` when `results` of tool responses are waiting. */
  function Turns(ms: seq<Message>, results: seq<Block>): seq<Turn> {
    if ms == [] then Flush(results)
    else if ms[0].role == "tool" then Turns(ms[1..], results + [ResultBlock(ms[0])])
    else Flush(results) + [TurnOf(ms[0])] + Turns(ms[1..], [])
  }

  method BuildTurns(messages: seq<Message>) returns (turns: seq<Turn>)
    ensures turns == Turns(messages, [])
  {
    turns := [];
    var toolBuf: seq<Block> := [];
    ConcatEmpty(Turns(messages, []));
    for i := 0 to |messages|
      invariant turns + Turns(messages[i..], toolBuf) == Turns(messages, [])
    {
      var m := messages[i];
      assert messages[i..][1..] == messages[i + 1..];
      if m.role == "tool" {
        toolBuf := toolBuf + [ResultBlock(m)];
      } else {
        FlushThen(turns, toolBuf, TurnOf(m), Turns(messages[i + 1..], []));
        if toolBuf != [] {
          turns := turns + [Turn("user", toolBuf)];
          toolBuf := [];
        }
        var turn := BuildTurn(m);
        turns := turns + [turn];
      }
    }
    if toolBuf != [] {
      turns := turns + [Turn("user", toolBuf)];
    }
  }

  lemma FlushThen(turns: seq<Turn>, results: seq<Block>, t: Turn, later: seq<Turn>)
    ensures turns + (Flush(results) + [t] + later)
         == (if results == [] then turns else turns + [Turn("user", results)]) + [t] + later
  {
    ConcatAssoc(turns, Flush(results) + [t], later);
    ConcatAssoc(turns, Flush(results), [t]);
    ConcatEmpty(turns);
  }

  method BuildTurn(m: Message) returns (turn: Turn)
    ensures turn == TurnOf(m)
  {
    if m.role == "assistant" {
      var blocks: seq<Block> := [];
      if m.content != "" {
        blocks := blocks + [TextBlock(m.content)];
      }
      if m.toolCalls.Some? {
        blocks := AddUses(blocks, m.toolCalls.value);
      }
      turn := Turn("assistant", blocks);
    } else {
      turn := Turn("user", [TextBlock(m.content)]);
    }
  }

  method AddUses(before: seq<Block>, calls: seq<ToolCall>) returns (blocks: seq<Block>)
    ensures blocks == before + UseBlocks(calls)
  {
    blocks := before;
    for k := 0 to |calls|
      invariant blocks == before + UseBlocks(calls)[..k]
    {
      blocks := blocks + [ToolUse(calls[k].id, calls[k].name, calls[k].arguments)];
    }
  }

  // ---- Nothing is lost or reordered --------------------------------------------------------------

  function BlocksOf(m: Message): seq<Block> {
    if m.role == "tool" then [ResultBlock(m)] else TurnOf(m).blocks
  }

  function AllBlocks(ms: seq<Message>): seq<Block> {
    if ms == [] then [] else BlocksOf(ms[0]) + AllBlocks(ms[1..])
  }

  function Flatten(turns: seq<Turn>): seq<Block> {
    if turns == [] then [] else turns[0].blocks + Flatten(turns[1..])
  }

  /** Read end to end, the turns hold every message's blocks, in order. */
  lemma {:induction false} TurnsKeepBlocks(ms: seq<Message>, results: seq<Block>)
    ensures Flatten(Turns(ms, results)) == results + AllBlocks(ms)
    decreases |ms|
  {
    if ms == [] {
      ConcatEmpty(results);
      if results != [] {
        assert [Turn("user", results)] + [] == [Turn("user", results)];
      }
    } else {
      var m, rest := ms[0], ms[1..];
      if m.role == "tool" {
        TurnsKeepBlocks(rest, results + [ResultBlock(m)]);
        ConcatAssoc(results, [ResultBlock(m)], AllBlocks(rest));
      } else {
        TurnsKeepBlocks(rest, []);
        ConcatEmpty(AllBlocks(rest));
        var tail := [TurnOf(m)] + Turns(rest, []);
        ConcatAssoc(Flush(results), [TurnOf(m)], Turns(rest, []));
        if results == [] {
          ConcatEmpty(tail);
          ConcatEmpty(Flatten(tail));
        } else {
        }
      }
    }
  }

  // ---- What each turn says ---------------------------------------------------------------------------

  /** Blocks said in this role. */
  ghost function Said(role: string, blocks: seq<Block>): (r: seq<(string, Block)>)
    ensures |r| == |blocks| && forall k :: 0 <= k < |r| ==> r[k] == (role, blocks[k])
  {
    seq(|blocks|, k requires 0 <= k < |blocks| => (role, blocks[k]))
  }

  /** All that the turns say, block by block, with the role of its turn. */
  ghost function AllSaid(turns: seq<Turn>): seq<(string, Block)> {
    if turns == [] then [] else Said(turns[0].role, turns[0].blocks) + AllSaid(turns[1..])
  }

  /** These are the blocks of a message: a tool's result, an assistant's text and calls, or a user's text. */
  ghost predicate Says(m: Message, said: seq<(string, Block)>) {
    if m.role == "tool" then said == [("user", ToolResult(m.toolCallId, m.content))]
    else if m.role == "assistant" then
      var texts: seq<(string, Block)> := if m.content == "" then [] else [("assistant", TextBlock(m.content))];
      var calls := if m.toolCalls.Some? then m.toolCalls.value else [];
      && texts <= said && |said| == |texts| + |calls|
      && forall k :: 0 <= k < |calls| ==>
           said[|texts| + k] == ("assistant", ToolUse(calls[k].id, calls[k].name, calls[k].arguments))
    else said == [("user", TextBlock(m.content))]
  }

  /** What the messages say, one after the other. */
  ghost predicate AllSay(ms: seq<Message>, said: seq<(string, Block)>)
    decreases |ms|
  {
    if ms == [] then said == []
    else exists n :: 0 <= n <= |said| && Says(ms[0], said[..n]) && AllSay(ms[1..], said[n..])
  }

  lemma TurnSays(m: Message)
    requires m.role != "tool"
    ensures Says(m, Said(TurnOf(m).role, TurnOf(m).blocks))
  {
  }

  lemma AllSaidSnoc(turns: seq<Turn>, t: Turn, later: seq<Turn>)
    ensures AllSaid([t] + later) == Said(t.role, t.blocks) + AllSaid(later)
  {
    assert ([t] + later)[1..] == later;
  }

  lemma SayFirst(m: Message, ms: seq<Message>, first: seq<(string, Block)>, rest: seq<(string, Block)>)
    requires Says(m, first) && AllSay(ms, rest)
    ensures AllSay([m] + ms, first + rest)
  {
    assert ([m] + ms)[1..] == ms;
    assert (first + rest)[..|first|] == first && (first + rest)[|first|..] == rest;
  }

  /**
   The turns say, block by block and in the right roles, what each message says:
   nothing is lost, nothing added, nothing changed and nothing moved.
   */
  lemma {:induction false} TurnsSay(ms: seq<Message>, results: seq<Block>) returns (said: seq<(string, Block)>)
    ensures AllSaid(Turns(ms, results)) == Said("user", results) + said && AllSay(ms, said)
    decreases |ms|
  {
    if ms == [] {
      said := [];
      FlushSays(results, []);
      ConcatEmpty(Flush(results));
      ConcatEmpty(Said("user", results));
    } else {
      var m, rest := ms[0], ms[1..];
      assert ms == [m] + rest;
      if m.role == "tool" {
        var block := ToolResult(m.toolCallId, m.content);
        var later := TurnsSay(rest, results + [block]);
        said := [("user", block)] + later;
        assert Said("user", results + [block]) == Said("user", results) + [("user", block)];
        ConcatAssoc(Said("user", results), [("user", block)], later);
        SayFirst(m, rest, [("user", block)], later);
      } else {
        var t := TurnOf(m);
        var later := TurnsSay(rest, []);
        ConcatEmpty(later);
        assert AllSaid(Turns(rest, [])) == later;
        said := Said(t.role, t.blocks) + later;
        TurnSays(m);
        SayFirst(m, rest, Said(t.role, t.blocks), later);
        AllSaidSnoc([], t, Turns(rest, []));
        ConcatAssoc(Flush(results), [t], Turns(rest, []));
        FlushSays(results, [t] + Turns(rest, []));
      }
    }
  }

  lemma FlushSays(results: seq<Block>, later: seq<Turn>)
    ensures AllSaid(Flush(results) + later) == Said("user", results) + AllSaid(later)
  {
    if results == [] {
      ConcatEmpty(later);
      ConcatEmpty(AllSaid(later));
      assert Said("user", results) == [];
    } else {
      AllSaidSnoc([], Turn("user", results), later);
    }
  }

  // ---- Every use is answered by the next turn ------------------------------------------------------

  /** The ids of the tools a turn uses, in order. */
  function UsedIds(blocks: seq<Block>): seq<string> {
    if blocks == [] then []
    else (if blocks[0].ToolUse? then [blocks[0].id] else []) + UsedIds(blocks[1..])
  }

  predicate HasResult(t: Turn) {
    exists k :: 0 <= k < |t.blocks| && t.blocks[k].ToolResult?
  }

  /** A user turn that holds exactly the results of these uses, in order. */
  predicate AnswersUses(t: Turn, ids: seq<string>) {
    && t.role == "user" && |t.blocks| == |ids|
    && forall k :: 0 <= k < |ids| ==> t.blocks[k].ToolResult? && t.blocks[k].toolUseId == Some(ids[k])
  }

  /** Each turn that uses tools is followed at once by their results; results stand nowhere else. */
  predicate Acceptable(turns: seq<Turn>)
    decreases |turns|
  {
    if turns == [] then true
    else if UsedIds(turns[0].blocks) == [] then !HasResult(turns[0]) && Acceptable(turns[1..])
    else
      && !HasResult(turns[0])
      && |turns| > 1 && AnswersUses(turns[1], UsedIds(turns[0].blocks)) && Acceptable(turns[2..])
  }

  function CallIds(calls: seq<ToolCall>): (r: seq<string>)
    ensures |r| == |calls|
    ensures forall k :: 0 <= k < |r| ==> r[k] == calls[k].id
  {
    seq(|calls|, k requires 0 <= k < |calls| => calls[k].id)
  }

  lemma {:induction false} UsedIdsOfUses(calls: seq<ToolCall>)
    ensures UsedIds(UseBlocks(calls)) == CallIds(calls)
  {
    if calls != [] {
      assert UseBlocks(calls)[1..] == UseBlocks(calls[1..]);
      UsedIdsOfUses(calls[1..]);
    }
  }

  lemma TurnUsesCalls(m: Message)
    requires m.role != "tool"
    ensures UsedIds(TurnOf(m).blocks) == CallIds(Calls(m)) && !HasResult(TurnOf(m))
  {
    UsedIdsOfUses(Calls(m));
    if m.role == "assistant" {
      var uses := if m.toolCalls.Some? then UseBlocks(m.toolCalls.value) else [];
      if m.content == "" {
        ConcatEmpty(uses);
      } else {
        var all := [TextBlock(m.content)] + uses;
        assert all[1..] == uses;
        ConcatEmpty(UsedIds(uses));
      }
    } else {
      assert UsedIds([TextBlock(m.content)]) == [] + UsedIds([]);
    }
  }

  /** The number of tool responses `ms` starts with. */
  function Leading(ms: seq<Message>): (n: nat)
    ensures n <= |ms| && (forall k :: 0 <= k < n ==> ms[k].role == "tool") && (n < |ms| ==> ms[n].role != "tool")
  {
    if ms == [] || ms[0].role != "tool" then 0 else 1 + Leading(ms[1..])
  }

  function Results(ms: seq<Message>): (r: seq<Block>)
    ensures |r| == |ms| && forall k :: 0 <= k < |r| ==> r[k] == ResultBlock(ms[k])
  {
    seq(|ms|, k requires 0 <= k < |ms| => ResultBlock(ms[k]))
  }

  /** The leading tool responses go into one turn with what was waiting. */
  lemma {:induction false} LeadingGroup(ms: seq<Message>, results: seq<Block>)
    ensures Turns(ms, results) == Flush(results + Results(ms[..Leading(ms)])) + Turns(ms[Leading(ms)..], [])
    decreases |ms|
  {
    var n := Leading(ms);
    if n == 0 {
      assert ms[..0] == [] && ms[0..] == ms;
      ConcatEmpty(results);
      if ms == [] {
        ConcatEmpty(Flush(results));
      } else {
        ConcatAssoc(Flush(results), [TurnOf(ms[0])], Turns(ms[1..], []));
        ConcatEmpty([TurnOf(ms[0])] + Turns(ms[1..], []));
      }
    } else {
      LeadingGroup(ms[1..], results + [ResultBlock(ms[0])]);
      assert ms[1..][n - 1..] == ms[n..];
      assert [ResultBlock(ms[0])] + Results(ms[1..][..n - 1]) == Results(ms[..n]);
      ConcatAssoc(results, [ResultBlock(ms[0])], Results(ms[1..][..n - 1]));
    }
  }

  lemma LeadingTurns(ms: seq<Message>)
    ensures Turns(ms, []) == Flush(Results(ms[..Leading(ms)])) + Turns(ms[Leading(ms)..], [])
  {
    LeadingGroup(ms, []);
    ConcatEmpty(Results(ms[..Leading(ms)]));
  }

  lemma MessageFirst(ms: seq<Message>)
    requires ms != [] && ms[0].role != "tool"
    ensures Turns(ms, []) == [TurnOf(ms[0])] + Turns(ms[1..], [])
  {
    ConcatEmpty([TurnOf(ms[0])]);
  }

  lemma {:induction false} LeadingIs(ms: seq<Message>, n: nat)
    requires n <= |ms| && (forall k :: 0 <= k < n ==> ms[k].role == "tool") && (n < |ms| ==> ms[n].role != "tool")
    ensures Leading(ms) == n
  {
    if n > 0 {
      LeadingIs(ms[1..], n - 1);
    }
  }

  /** The results of the responses answer the uses exactly when the responses answer the calls. */
  lemma ResultsAnswer(calls: seq<ToolCall>, responses: seq<Message>)
    requires forall k :: 0 <= k < |responses| ==> responses[k].role == "tool"
    ensures AnswersUses(Turn("user", Results(responses)), CallIds(calls)) <==> Answered(calls, responses)
  {
    if Answered(calls, responses) {
      assert forall k :: 0 <= k < |calls| ==> Answers(responses[k], calls[k]);
    }
    if AnswersUses(Turn("user", Results(responses)), CallIds(calls)) {
      forall k | 0 <= k < |calls| ensures Answers(responses[k], calls[k]) {
        assert Results(responses)[k] == ResultBlock(responses[k]);
      }
    }
  }

  /**
   Each turn that uses tools is followed directly by one user turn holding exactly
   their results, and results stand nowhere else, exactly when the conversation is
   well paired. This is about pairing only: an assistant message without text and
   calls still becomes a turn without blocks.
   */
  lemma {:induction false} AcceptableIffPaired(ms: seq<Message>)
    ensures Acceptable(Turns(ms, [])) <==> Paired(ms)
    decreases |ms|
  {
    if ms != [] {
      var m := ms[0];
      if m.role == "tool" {
        StrayResult(ms);
      } else {
        var rest := ms[1..];
        AcceptableIffPaired(rest[Leading(rest)..]);
        MessageFirst(ms);
        TurnUsesCalls(m);
        LeadingTurns(rest);
        GroupAcceptable(m, rest);
        GroupPaired(m, rest, ms);
      }
    }
  }

  lemma {:induction false} StrayResult(ms: seq<Message>)
    requires ms != [] && ms[0].role == "tool"
    ensures !Acceptable(Turns(ms, []))
  {
    LeadingGroup(ms, []);
    var results := Results(ms[..Leading(ms)]);
    ConcatEmpty(results);
    var turns := [Turn("user", results)] + Turns(ms[Leading(ms)..], []);
    assert turns[0].blocks[0].ToolResult?;
    assert HasResult(turns[0]);
  }

  /** One message with the responses after it, as turns. */
  lemma GroupAcceptable(m: Message, rest: seq<Message>)
    requires m.role != "tool"
    requires UsedIds(TurnOf(m).blocks) == CallIds(Calls(m)) && !HasResult(TurnOf(m))
    requires Turns(rest, []) == Flush(Results(rest[..Leading(rest)])) + Turns(rest[Leading(rest)..], [])
    ensures Acceptable([TurnOf(m)] + Turns(rest, [])) <==>
      Answered(Calls(m), rest[..Leading(rest)]) && Acceptable(Turns(rest[Leading(rest)..], []))
  {
    var j := Leading(rest);
    var responses, later := rest[..j], Turns(rest[j..], []);
    if j == 0 {
      assert responses == [];
      ConcatEmpty(later);
      if later != [] {
        LaterStartsPlain(rest[j..]);
      }
      AloneAcceptable(TurnOf(m), Calls(m), later);
    } else {
      ResultsAnswer(Calls(m), responses);
      PairAcceptable(TurnOf(m), Turn("user", Results(responses)), CallIds(Calls(m)), later);
      ConcatAssoc([TurnOf(m)], Flush(Results(responses)), later);
    }
  }

  /** A turn without a turn of results after it is acceptable when it uses no tool. */
  lemma AloneAcceptable(turn: Turn, calls: seq<ToolCall>, later: seq<Turn>)
    requires UsedIds(turn.blocks) == CallIds(calls) && !HasResult(turn)
    requires later != [] ==> !HasResult(later[0])
    ensures Acceptable([turn] + later) <==> calls == [] && Acceptable(later)
  {
    assert ([turn] + later)[1..] == later;
    if calls != [] && later != [] && AnswersUses(later[0], CallIds(calls)) {
      AnsweringHasResult(later[0], CallIds(calls));
    }
  }

  lemma AnsweringHasResult(turn: Turn, ids: seq<string>)
    requires ids != [] && AnswersUses(turn, ids)
    ensures HasResult(turn)
  {
    assert turn.blocks[0].ToolResult?;
  }

  /** A turn with a turn of results after it is acceptable when the results answer its uses. */
  lemma PairAcceptable(turn: Turn, results: Turn, ids: seq<string>, later: seq<Turn>)
    requires UsedIds(turn.blocks) == ids && !HasResult(turn)
    requires results.role == "user" && results.blocks != [] && results.blocks[0].ToolResult?
    ensures Acceptable([turn] + [results] + later) <==> AnswersUses(results, ids) && Acceptable(later)
  {
    var turns := [turn] + [results] + later;
    assert turns[1..] == [results] + later && turns[2..] == later;
    assert HasResult(results);
    assert ([results] + later)[0] == results;
  }

  /** The turns of messages that do not start with a tool response do not start with results. */
  lemma LaterStartsPlain(ms: seq<Message>)
    requires ms != [] && ms[0].role != "tool"
    ensures Turns(ms, []) != [] && Turns(ms, [])[0] == TurnOf(ms[0]) && !HasResult(Turns(ms, [])[0])
  {
    TurnUsesCalls(ms[0]);
  }

  lemma GroupPaired(m: Message, rest: seq<Message>, ms: seq<Message>)
    requires m.role != "tool" && ms == [m] + rest
    ensures Paired(ms) <==> Answered(Calls(m), rest[..Leading(rest)]) && Paired(rest[Leading(rest)..])
  {
    var n, j := |Calls(m)|, Leading(rest);
    if n <= |rest| {
      GroupSlices(m, rest, ms, n);
    }
    if Paired(ms) {
      assert Answered(Calls(m), rest[..n]) && Paired(rest[n..]);
      forall k | 0 <= k < n ensures rest[k].role == "tool" {
        assert Answers(rest[..n][k], Calls(m)[k]);
      }
      LeadingIs(rest, n);
    }
  }

  lemma GroupSlices(m: Message, rest: seq<Message>, ms: seq<Message>, n: nat)
    requires ms == [m] + rest && n <= |rest|
    ensures ms[1..1 + n] == rest[..n] && ms[1 + n..] == rest[n..]
  {
  }

  // ---- Which messages share a turn -----------------------------------------------------------------------

  /** The messages from `a` to `b` that share a turn: one that is no tool response, or all tool responses in a row. */
  ghost predicate Share(ms: seq<Message>, a: nat, b: nat) {
    && a < b <= |ms|
    && (|| (b == a + 1 && ms[a].role != "tool")
        || ((forall k :: a <= k < b ==> ms[k].role == "tool")
            && (a > 0 ==> ms[a - 1].role != "tool") && (b < |ms| ==> ms[b].role != "tool")))
  }

  /** From message `a` on, each turn is what the messages of one group say, in their role, group after group. */
  ghost predicate Grouped(ms: seq<Message>, a: nat, turns: seq<Turn>)
    decreases |turns|
  {
    if turns == [] then a == |ms|
    else exists b :: GroupIs(ms, a, b, turns[0]) && Grouped(ms, b, turns[1..])
  }

  ghost predicate GroupIs(ms: seq<Message>, a: nat, b: nat, t: Turn) {
    && Share(ms, a, b)
    && t.role == (if ms[a].role == "assistant" then "assistant" else "user")
    && AllSay(ms[a..b], Said(t.role, t.blocks))
  }

  lemma {:induction false} ResultsSay(ms: seq<Message>)
    requires forall k :: 0 <= k < |ms| ==> ms[k].role == "tool"
    ensures AllSay(ms, Said("user", Results(ms)))
  {
    hide AllSay, Said, Results, Says;
    NothingSays();
    if ms != [] {
      var m, rest := ms[0], ms[1..];
      ResultsSay(rest);
      ResultFirst(ms);
      assert ms == [m] + rest;
      SayFirst(m, rest, [("user", ToolResult(m.toolCallId, m.content))], Said("user", Results(rest)));
    }
  }

  lemma NothingSays()
    ensures AllSay([], Said("user", Results([])))
  {
  }

  lemma ResultFirst(ms: seq<Message>)
    requires ms != []
    ensures Said("user", Results(ms))
         == [("user", ToolResult(ms[0].toolCallId, ms[0].content))] + Said("user", Results(ms[1..]))
  {
  }

  lemma OneSays(m: Message)
    requires m.role != "tool"
    ensures AllSay([m], Said(TurnOf(m).role, TurnOf(m).blocks))
  {
    TurnSays(m);
    SayFirst(m, [], Said(TurnOf(m).role, TurnOf(m).blocks), []);
    ConcatEmpty([m]);
    ConcatEmpty(Said(TurnOf(m).role, TurnOf(m).blocks));
  }

  lemma GroupFirst(ms: seq<Message>, a: nat, b: nat, t: Turn, later: seq<Turn>)
    requires GroupIs(ms, a, b, t) && Grouped(ms, b, later)
    ensures Grouped(ms, a, [t] + later)
  {
    assert ([t] + later)[1..] == later;
  }

  lemma AloneIsGroup(ms: seq<Message>, a: nat)
    requires a < |ms| && ms[a].role != "tool"
    ensures GroupIs(ms, a, a + 1, TurnOf(ms[a]))
  {
    OneSays(ms[a]);
    hide AllSay, Said;
    assert ms[a..a + 1] == [ms[a]];
  }

  lemma ResultsAreGroup(ms: seq<Message>, a: nat, b: nat)
    requires a < b <= |ms| && Share(ms, a, b) && ms[a].role == "tool"
    ensures GroupIs(ms, a, b, Turn("user", Results(ms[a..b])))
  {
    ResultsSay(ms[a..b]);
    hide AllSay, Said;
  }

  lemma NoGroupsLeft(ms: seq<Message>)
    ensures Grouped(ms, |ms|, Turns([], []))
  {
  }

  /** A message that is no tool response has a turn of its own; tool responses in a row share one, with nothing else. */
  lemma {:induction false} TurnsAreGroups(ms: seq<Message>, a: nat)
    requires a <= |ms| && (0 < a < |ms| && ms[a].role == "tool" ==> ms[a - 1].role != "tool")
    ensures Grouped(ms, a, Turns(ms[a..], []))
    decreases |ms| - a
  {
    hide Grouped, GroupIs, AllSay, Said, Turns, TurnOf, Results;
    var rest := ms[a..];
    if a == |ms| {
      assert rest == [];
      NoGroupsLeft(ms);
    } else if ms[a].role != "tool" {
      assert rest[1..] == ms[a + 1..];
      MessageFirst(rest);
      AloneIsGroup(ms, a);
      TurnsAreGroups(ms, a + 1);
      GroupFirst(ms, a, a + 1, TurnOf(ms[a]), Turns(ms[a + 1..], []));
    } else {
      var n := Leading(rest);
      assert rest[n..] == ms[a + n..] && rest[..n] == ms[a..a + n];
      LeadingTurns(rest);
      ResultsAreGroup(ms, a, a + n);
      TurnsAreGroups(ms, a + n);
      GroupFirst(ms, a, a + n, Turn("user", Results(rest[..n])), Turns(ms[a + n..], []));
    }
  }
}
