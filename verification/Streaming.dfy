/**
 Reading a streamed answer: bytes arrive in chunks cut anywhere, complete lines
 are processed as they appear, and fragments of tool calls are collected by index.
 The outcome depends on the bytes only, not on how they were cut.
 */
module Streaming {
  import opened Common
  import opened Conversations
  import Graphs

  newtype byte = b: int | 0 <= b < 256

  const NEWLINE: byte := 10

  /** One fragment of a streamed tool call. */
  datatype Delta = Delta(index: nat, id: Option<string>, name: Option<string>, args: Option<string>)

  /** What one line says: a piece of text, fragments of tool calls, or both. */
  datatype Event = Event(content: Option<string>, deltas: seq<Delta>)

  /**
   How lines and arguments are read: a line's event, when it is a data line with
   valid JSON; the argument object of a call, which is the empty object when the
   text is none; and the id given to a call that came without one.
   */
  datatype Reader = Reader(event: seq<byte> -> Option<Event>, arguments: string -> string, freshId: nat -> string)

  // ---- Collecting tool calls ------------------------------------------------------------------

  datatype PartialCall = PartialCall(id: Option<string>, name: string, args: string)

  const NO_CALL := PartialCall(None, "", "")

  function Text(s: Option<string>): string {
    if s.Some? then s.value else ""
  }

  function Extend(p: PartialCall, d: Delta): PartialCall {
    PartialCall(if d.id.Some? then d.id else p.id, p.name + Text(d.name), p.args + Text(d.args))
  }

  function PartialAt(calls: map<nat, PartialCall>, index: nat): PartialCall {
    if index in calls then calls[index] else NO_CALL
  }

  function Push(calls: map<nat, PartialCall>, d: Delta): map<nat, PartialCall> {
    calls[d.index := Extend(PartialAt(calls, d.index), d)]
  }

  function PushAll(calls: map<nat, PartialCall>, deltas: seq<Delta>): map<nat, PartialCall> {
    if deltas == [] then calls
    else Push(PushAll(calls, deltas[..|deltas| - 1]), deltas[|deltas| - 1])
  }

  function Assemble(r: Reader, index: nat, p: PartialCall): ToolCall {
    ToolCall(if p.id.Some? then p.id.value else r.freshId(index), p.name, r.arguments(p.args))
  }

  /** The calls below index `n` that have a name, in index order. */
  function Finished(r: Reader, calls: map<nat, PartialCall>, n: nat): seq<ToolCall> {
    if n == 0 then []
    else Finished(r, calls, n - 1) +
         if n - 1 in calls && calls[n - 1].name != "" then [Assemble(r, n - 1, calls[n - 1])] else []
  }

  /** A bound above every index seen. */
  ghost function Bound(calls: map<nat, PartialCall>): (n: nat)
    ensures forall i :: i in calls ==> i < n
  {
    SetBound(calls.Keys)
  }

  ghost function SetBound(s: set<nat>): (n: nat)
    ensures forall i :: i in s ==> i < n
  {
    if s == {} then 0
    else
      var i :| i in s;
      var rest := SetBound(s - {i});
      assert forall j :: j in s ==> j == i || j in s - {i};
      if i < rest then rest else i + 1
  }

  class ToolCallAccumulator {
    var calls: map<nat, PartialCall>

    constructor ()
      ensures calls == map[]
    {
      calls := map[];
    }

    method PushDelta(d: Delta)
      modifies this
      ensures calls == Push(old(calls), d)
    {
      var entry := if d.index in calls then calls[d.index] else NO_CALL;
      if d.id.Some? {
        entry := entry.(id := d.id);
      }
      if d.name.Some? {
        entry := entry.(name := entry.name + d.name.value);
      } else {
        ConcatEmpty(entry.name);
      }
      if d.args.Some? {
        entry := entry.(args := entry.args + d.args.value);
      } else {
        ConcatEmpty(entry.args);
      }
      calls := calls[d.index := entry];
    }

    /** The complete calls in ascending index order; calls without a name are dropped. */
    method Finish(r: Reader) returns (done: seq<ToolCall>)
      ensures done == Finished(r, calls, Bound(calls))
    {
      done := [];
      var pending := calls.Keys;
      ghost var below: nat := 0;
      while pending != {}
        invariant pending == (set i | i in calls && i >= below)
        invariant below <= Bound(calls)
        invariant done == Finished(r, calls, below)
        decreases pending
      {
        Graphs.MinExists(pending);
        var i :| i in pending && forall j :: j in pending ==> i <= j;
        assert forall j :: below <= j < i && j in calls ==> j in pending;
        SkipMissing(r, calls, below, i);
        if calls[i].name != "" {
          done := done + [Assemble(r, i, calls[i])];
        }
        pending := pending - {i};
        below := i + 1;
      }
      assert forall j :: j in calls && j >= below ==> j in pending;
      SkipMissing(r, calls, below, Bound(calls));
    }
  }

  lemma {:induction false} SkipMissing(r: Reader, calls: map<nat, PartialCall>, from: nat, to: nat)
    requires from <= to && forall i :: from <= i < to ==> i !in calls
    ensures Finished(r, calls, to) == Finished(r, calls, from)
  {
    if from < to {
      SkipMissing(r, calls, from, to - 1);
      ConcatEmpty(Finished(r, calls, from));
    }
  }

  // ---- Interleaving does not matter --------------------------------------------------------------

  /** The fragments of one call, in order of arrival. */
  function Fragments(deltas: seq<Delta>, index: nat): seq<Delta> {
    if deltas == [] then []
    else
      var last := deltas[|deltas| - 1];
      Fragments(deltas[..|deltas| - 1], index) + if last.index == index then [last] else []
  }

  function LastId(ds: seq<Delta>): Option<string> {
    if ds == [] then None
    else if ds[|ds| - 1].id.Some? then ds[|ds| - 1].id
    else LastId(ds[..|ds| - 1])
  }

  function Names(ds: seq<Delta>): string {
    if ds == [] then "" else Names(ds[..|ds| - 1]) + Text(ds[|ds| - 1].name)
  }

  function Args(ds: seq<Delta>): string {
    if ds == [] then "" else Args(ds[..|ds| - 1]) + Text(ds[|ds| - 1].args)
  }

  /** Per index: the last id, and the name and argument fragments joined, whatever came between. */
  lemma {:induction false} CollectsPerIndex(deltas: seq<Delta>, index: nat)
    ensures var calls, own := PushAll(map[], deltas), Fragments(deltas, index);
            && (index in calls <==> own != [])
            && PartialAt(calls, index) == PartialCall(LastId(own), Names(own), Args(own))
  {
    if deltas != [] {
      var front, last := deltas[..|deltas| - 1], deltas[|deltas| - 1];
      CollectsPerIndex(front, index);
      var own := Fragments(front, index);
      if last.index == index {
        assert (own + [last])[..|own|] == own;
      } else {
        ConcatEmpty(own);
      }
    }
  }

  lemma SameFragmentsSameCall(a: seq<Delta>, b: seq<Delta>, i: nat)
    requires Fragments(a, i) == Fragments(b, i)
    ensures i in PushAll(map[], a) <==> i in PushAll(map[], b)
    ensures i in PushAll(map[], a) ==> PushAll(map[], a)[i] == PushAll(map[], b)[i]
  {
    CollectsPerIndex(a, i);
    CollectsPerIndex(b, i);
  }

  /** Two streams with the same fragments for each index finish with the same calls. */
  lemma SameFragmentsSameCalls(a: seq<Delta>, b: seq<Delta>)
    requires forall i: nat :: Fragments(a, i) == Fragments(b, i)
    ensures PushAll(map[], a) == PushAll(map[], b)
  {
    var x, y := PushAll(map[], a), PushAll(map[], b);
    forall i: nat ensures (i in x <==> i in y) && (i in x ==> x[i] == y[i]) {
      SameFragmentsSameCall(a, b, i);
    }
  }

  lemma {:induction false} PushAllConcat(calls: map<nat, PartialCall>, a: seq<Delta>, b: seq<Delta>)
    ensures PushAll(calls, a + b) == PushAll(PushAll(calls, a), b)
  {
    if b == [] {
      ConcatEmpty(a);
    } else {
      var front, last := b[..|b| - 1], b[|b| - 1];
      assert b == front + [last];
      PushAllConcat(calls, a, front);
      ConcatAssoc(a, front, [last]);
    }
  }

  // ---- Lines ---------------------------------------------------------------------------------------

  predicate NoNewline(s: seq<byte>) {
    forall k :: 0 <= k < |s| ==> s[k] != NEWLINE
  }

  /** The complete lines of `s`, each with its newline. */
  function Lines(s: seq<byte>): seq<seq<byte>> {
    if s == [] then []
    else
      var front, last := s[..|s| - 1], s[|s| - 1];
      if last == NEWLINE then Lines(front) + [Rest(front) + [last]] else Lines(front)
  }

  /** What follows the last newline. */
  function Rest(s: seq<byte>): (r: seq<byte>)
    ensures NoNewline(r)
  {
    if s == [] || s[|s| - 1] == NEWLINE then [] else Rest(s[..|s| - 1]) + [s[|s| - 1]]
  }

  lemma LinesSnoc(s: seq<byte>, b: byte)
    ensures Lines(s + [b]) == if b == NEWLINE then Lines(s) + [Rest(s) + [b]] else Lines(s)
    ensures Rest(s + [b]) == if b == NEWLINE then [] else Rest(s) + [b]
  {
    assert (s + [b])[..|s|] == s;
  }

  lemma {:induction false} NoNewlineNoLines(s: seq<byte>)
    requires NoNewline(s)
    ensures Lines(s) == [] && Rest(s) == s
  {
    if s != [] {
      var front, last := s[..|s| - 1], s[|s| - 1];
      NoNewlineNoLines(front);
      assert s == front + [last];
      LinesSnoc(front, last);
    }
  }

  /** More bytes leave the lines already complete as they are, and go on with the rest. */
  lemma {:induction false} LinesGrow(a: seq<byte>, b: seq<byte>)
    ensures Lines(a + b) == Lines(a) + Lines(Rest(a) + b)
    ensures Rest(a + b) == Rest(Rest(a) + b)
  {
    if b == [] {
      ConcatEmpty(a);
      ConcatEmpty(Rest(a));
      ConcatEmpty(Lines(a));
      NoNewlineNoLines(Rest(a));
    } else {
      var front, last := b[..|b| - 1], b[|b| - 1];
      LinesGrow(a, front);
      assert b == front + [last];
      ConcatAssoc(a, front, [last]);
      ConcatAssoc(Rest(a), front, [last]);
      LinesSnoc(a + front, last);
      LinesSnoc(Rest(a) + front, last);
      ConcatAssoc(Lines(a), Lines(Rest(a) + front), [Rest(a + front) + [last]]);
    }
  }

  lemma JustOneLine(line: seq<byte>)
    requires NoNewline(line)
    ensures Lines(line + [NEWLINE]) == [line + [NEWLINE]] && Rest(line + [NEWLINE]) == []
  {
    NoNewlineNoLines(line);
    LinesSnoc(line, NEWLINE);
  }

  /** The first complete line comes off the front. */
  lemma FirstLine(s: seq<byte>, pos: nat)
    requires pos < |s| && s[pos] == NEWLINE && NoNewline(s[..pos])
    ensures Lines(s) == [s[..pos + 1]] + Lines(s[pos + 1..])
    ensures Rest(s) == Rest(s[pos + 1..])
  {
    var first, later := s[..pos + 1], s[pos + 1..];
    TakeSnoc(s, pos);
    JustOneLine(s[..pos]);
    assert s == first + later;
    LinesGrow(first, later);
    ConcatEmpty(later);
  }

  /** Lines and rest together are all the bytes, in order. */
  lemma {:induction false} LinesAndRest(s: seq<byte>)
    ensures Concat(Lines(s)) + Rest(s) == s
  {
    if s != [] {
      var front, last := s[..|s| - 1], s[|s| - 1];
      LinesAndRest(front);
      assert s == front + [last];
      LinesSnoc(front, last);
      ConcatAssoc(Concat(Lines(front)), Rest(front), [last]);
      ConcatSnoc(Lines(front), Rest(front) + [last]);
      ConcatEmpty(Concat(Lines(front)) + (Rest(front) + [last]));
    }
  }

  /** The position of the first newline, or the length when there is none. */
  function IndexOf(s: seq<byte>): (i: nat)
    ensures i <= |s| && NoNewline(s[..i]) && (i < |s| ==> s[i] == NEWLINE)
  {
    if s == [] || s[0] == NEWLINE then 0
    else
      var i := 1 + IndexOf(s[1..]);
      assert s[..i] == [s[0]] + s[1..][..i - 1];
      i
  }

  // ---- The stream loop -------------------------------------------------------------------------------

  function ContentOf(r: Reader, line: seq<byte>): seq<string> {
    var e := r.event(line);
    if e.Some? && e.value.content.Some? then [e.value.content.value] else []
  }

  function DeltasOf(r: Reader, line: seq<byte>): seq<Delta> {
    var e := r.event(line);
    if e.Some? then e.value.deltas else []
  }

  function Contents(r: Reader, lines: seq<seq<byte>>): seq<string> {
    if lines == [] then [] else Contents(r, lines[..|lines| - 1]) + ContentOf(r, lines[|lines| - 1])
  }

  function Deltas(r: Reader, lines: seq<seq<byte>>): seq<Delta> {
    if lines == [] then [] else Deltas(r, lines[..|lines| - 1]) + DeltasOf(r, lines[|lines| - 1])
  }

  /** What arrives from the network: bytes, or an error that ends the stream. */
  type Item = Result<seq<byte>, string>

  /** All bytes that arrive before an error. */
  function Received(items: seq<Item>): seq<byte> {
    if items == [] || items[0].Err? then [] else items[0].value + Received(items[1..])
  }

  function ReadError(items: seq<Item>): Option<string> {
    if items == [] then None else if items[0].Err? then Some(items[0].error) else ReadError(items[1..])
  }

  /**
   What a stream of these bytes yields: the pieces of text, then the tool calls.
   After a read error no calls follow.
   */
  ghost function Outcome(r: Reader, bytes: seq<byte>, error: Option<string>): (seq<string>, seq<ToolCall>) {
    var calls := PushAll(map[], Deltas(r, Lines(bytes)));
    (Contents(r, Lines(bytes)), if error.Some? then [] else Finished(r, calls, Bound(calls)))
  }

  lemma OneMoreLine(r: Reader, lines: seq<seq<byte>>, line: seq<byte>)
    ensures Contents(r, lines + [line]) == Contents(r, lines) + ContentOf(r, line)
    ensures PushAll(map[], Deltas(r, lines + [line])) == PushAll(PushAll(map[], Deltas(r, lines)), DeltasOf(r, line))
  {
    assert (lines + [line])[..|lines|] == lines;
    PushAllConcat(map[], Deltas(r, lines), DeltasOf(r, line));
  }

  /** After these lines, this much text and these partial calls. */
  ghost predicate HasRead(r: Reader, lines: seq<seq<byte>>, contents: seq<string>, calls: map<nat, PartialCall>) {
    contents == Contents(r, lines) && calls == PushAll(map[], Deltas(r, lines))
  }

  /**
   Reads the chunks as they come: appends each to the buffer and processes every
   complete line in it; the assembled tool calls follow at the end. An error while
   reading ends the stream at once.
   */
  method StreamResponse(r: Reader, items: seq<Item>)
    returns (contents: seq<string>, calls: seq<ToolCall>, error: Option<string>)
    ensures error == ReadError(items)
    ensures (contents, calls) == Outcome(r, Received(items), error)
  {
    var acc := new ToolCallAccumulator();
    var buf: seq<byte> := [];
    contents := [];
    ghost var bytes: seq<byte> := [];
    ConcatEmpty(Received(items));
    assert items[0..] == items;
    for k := 0 to |items|
      invariant bytes + Received(items[k..]) == Received(items) && ReadError(items[k..]) == ReadError(items)
      invariant buf == Rest(bytes) && HasRead(r, Lines(bytes), contents, acc.calls)
    {
      match items[k] {
        case Err(e) =>
          ConcatEmpty(bytes);
          return contents, [], Some(e);
        case Ok(chunk) =>
          assert items[k..][1..] == items[k + 1..];
          ConcatAssoc(bytes, chunk, Received(items[k + 1..]));
          LinesGrow(bytes, chunk);
          buf := buf + chunk;
          contents, buf := DrainLines(r, acc, contents, buf, Lines(bytes));
          bytes := bytes + chunk;
      }
    }
    ConcatEmpty(bytes);
    calls := acc.Finish(r);
    error := None;
  }

  /** Processes every complete line of the buffer and keeps the rest. */
  method DrainLines(r: Reader, acc: ToolCallAccumulator, before: seq<string>, buffered: seq<byte>,
                    ghost earlier: seq<seq<byte>>)
    returns (contents: seq<string>, buf: seq<byte>)
    requires HasRead(r, earlier, before, acc.calls)
    modifies acc
    ensures buf == Rest(buffered)
    ensures HasRead(r, earlier + Lines(buffered), contents, acc.calls)
  {
    contents, buf := before, buffered;
    ghost var lines := earlier;
    ConcatEmpty(lines);
    var pos := IndexOf(buf);
    while pos < |buf|
      invariant pos == IndexOf(buf)
      invariant earlier + Lines(buffered) == lines + Lines(buf) && Rest(buffered) == Rest(buf)
      invariant HasRead(r, lines, contents, acc.calls)
      decreases |buf|
    {
      var line := buf[..pos + 1];
      FirstLine(buf, pos);
      buf := buf[pos + 1..];
      ConcatAssoc(lines, [line], Lines(buf));
      contents := ProcessLine(r, acc, contents, line, lines);
      lines := lines + [line];
      pos := IndexOf(buf);
    }
    assert buf[..pos] == buf;
    NoNewlineNoLines(buf);
    ConcatEmpty(lines);
  }

  method ProcessLine(r: Reader, acc: ToolCallAccumulator, before: seq<string>, line: seq<byte>,
                     ghost lines: seq<seq<byte>>)
    returns (contents: seq<string>)
    requires HasRead(r, lines, before, acc.calls)
    modifies acc
    ensures HasRead(r, lines + [line], contents, acc.calls)
  {
    contents := before;
    OneMoreLine(r, lines, line);
    var event := r.event(line);
    if event.Some? {
      PushDeltas(acc, event.value.deltas);
      if event.value.content.Some? {
        contents := contents + [event.value.content.value];
      }
    }
  }

  method PushDeltas(acc: ToolCallAccumulator, deltas: seq<Delta>)
    modifies acc
    ensures acc.calls == PushAll(old(acc.calls), deltas)
  {
    for k := 0 to |deltas|
      invariant acc.calls == PushAll(old(acc.calls), deltas[..k])
    {
      acc.PushDelta(deltas[k]);
      assert deltas[..k + 1][..k] == deltas[..k];
    }
    assert deltas[..|deltas|] == deltas;
  }

  /** However the same bytes are cut into chunks, the outcome is the same; an unfinished last line is not read. */
  lemma ChunkingDoesNotMatter(r: Reader, a: seq<Item>, b: seq<Item>, tail: seq<byte>)
    requires Received(a) == Received(b) + tail && NoNewline(tail) && ReadError(a) == ReadError(b)
    ensures Outcome(r, Received(a), ReadError(a)) == Outcome(r, Received(b), ReadError(b))
  {
    LinesGrow(Received(b), tail);
    NoNewlineNoLines(Rest(Received(b)) + tail);
    ConcatEmpty(Lines(Received(b)));
  }

  // ---- What a stream says -----------------------------------------------------------------------------

  /** A name comes from the fragments that carry a piece of it, in order; so do the arguments. */
  lemma PiecesJoin(ds: seq<Delta>, i: nat, id: Option<string>, n: string, a: string)
    ensures Names([]) == "" && Args([]) == ""
    ensures Names(ds + [Delta(i, id, Some(n), None)]) == Names(ds) + n
    ensures Names(ds + [Delta(i, id, None, Some(a))]) == Names(ds)
    ensures Names(ds + [Delta(i, id, Some(n), Some(a))]) == Names(ds) + n
    ensures Args(ds + [Delta(i, id, None, Some(a))]) == Args(ds) + a
    ensures Args(ds + [Delta(i, id, Some(n), None)]) == Args(ds)
    ensures Args(ds + [Delta(i, id, Some(n), Some(a))]) == Args(ds) + a
  {
    ConcatEmpty(Names(ds));
    ConcatEmpty(Args(ds));
    assert (ds + [Delta(i, id, Some(n), None)])[..|ds|] == ds;
    assert (ds + [Delta(i, id, None, Some(a))])[..|ds|] == ds;
    assert (ds + [Delta(i, id, Some(n), Some(a))])[..|ds|] == ds;
  }

  /** The call these fragments give for their index: the last id they carry, or a fresh one, name and arguments. */
  ghost predicate CallIs(r: Reader, own: seq<Delta>, index: nat, call: ToolCall) {
    && (LastId(own).Some? ==> call.id == LastId(own).value) && (LastId(own).None? ==> call.id == r.freshId(index))
    && call.name == Names(own) && call.arguments == r.arguments(Args(own))
  }

  /** The calls for `indices`: ascending, and exactly those below `n` that got a name. */
  ghost predicate CallsAre(r: Reader, deltas: seq<Delta>, calls: seq<ToolCall>, indices: seq<nat>, n: nat) {
    && |calls| == |indices|
    && (forall j, k :: 0 <= j < k < |indices| ==> indices[j] < indices[k])
    && (forall i: nat :: i in indices <==> i < n && Names(Fragments(deltas, i)) != "")
    && (forall j :: 0 <= j < |calls| ==> CallIs(r, Fragments(deltas, indices[j]), indices[j], calls[j]))
  }

  lemma NextCall(r: Reader, deltas: seq<Delta>, calls: seq<ToolCall>, indices: seq<nat>, n: nat, call: ToolCall)
    requires CallsAre(r, deltas, calls, indices, n)
    requires Names(Fragments(deltas, n)) != "" && CallIs(r, Fragments(deltas, n), n, call)
    ensures CallsAre(r, deltas, calls + [call], indices + [n], n + 1)
  {
    hide Fragments, Names, CallIs;
    forall j | 0 <= j < |indices| ensures indices[j] < n {
      assert indices[j] in indices;
    }
    forall i: nat ensures i in indices + [n] <==> i in indices || i == n {
    }
  }

  lemma NoCallNext(r: Reader, deltas: seq<Delta>, calls: seq<ToolCall>, indices: seq<nat>, n: nat)
    requires CallsAre(r, deltas, calls, indices, n) && Names(Fragments(deltas, n)) == ""
    ensures CallsAre(r, deltas, calls, indices, n + 1)
  {
    hide Fragments, Names, CallIs;
  }

  lemma NoCallsBelowZero(r: Reader, deltas: seq<Delta>)
    ensures CallsAre(r, deltas, [], [], 0)
  {
    hide Fragments, Names, CallIs;
  }

  lemma {:induction false} FinishedSays(r: Reader, deltas: seq<Delta>, n: nat) returns (indices: seq<nat>)
    ensures CallsAre(r, deltas, Finished(r, PushAll(map[], deltas), n), indices, n)
  {
    hide PushAll, Fragments, LastId, Names, Args, CallsAre;
    if n == 0 {
      indices := [];
      NoCallsBelowZero(r, deltas);
    } else {
      var calls := PushAll(map[], deltas);
      indices := FinishedSays(r, deltas, n - 1);
      CollectsPerIndex(deltas, n - 1);
      if n - 1 in calls && calls[n - 1].name != "" {
        NextCall(r, deltas, Finished(r, calls, n - 1), indices, n - 1, Assemble(r, n - 1, calls[n - 1]));
        indices := indices + [n - 1];
      } else {
        NoCallNext(r, deltas, Finished(r, calls, n - 1), indices, n - 1);
        ConcatEmpty(Finished(r, calls, n - 1));
      }
    }
  }

  lemma NamedAreBounded(deltas: seq<Delta>, i: nat)
    requires Names(Fragments(deltas, i)) != ""
    ensures i < Bound(PushAll(map[], deltas))
  {
    CollectsPerIndex(deltas, i);
  }

  /** The pieces of text of these events, in order. */
  ghost function TextsOf(events: seq<Option<Event>>): seq<string> {
    if events == [] then []
    else
      var last := events[|events| - 1];
      if last.Some? && last.value.content.Some? then TextsOf(events[..|events| - 1]) + [last.value.content.value]
      else TextsOf(events[..|events| - 1])
  }

  /** The fragments of these events, in order. */
  ghost function FragmentsOf(events: seq<Option<Event>>): seq<Delta> {
    if events == [] then []
    else
      var last := events[|events| - 1];
      FragmentsOf(events[..|events| - 1]) + if last.Some? then last.value.deltas else []
  }

  ghost function EventsOf(r: Reader, lines: seq<seq<byte>>): (events: seq<Option<Event>>)
    ensures |events| == |lines| && forall k :: 0 <= k < |lines| ==> events[k] == r.event(lines[k])
  {
    seq(|lines|, k requires 0 <= k < |lines| => r.event(lines[k]))
  }

  lemma {:induction false} EventsSay(r: Reader, lines: seq<seq<byte>>)
    ensures Contents(r, lines) == TextsOf(EventsOf(r, lines)) && Deltas(r, lines) == FragmentsOf(EventsOf(r, lines))
  {
    if lines != [] {
      var front, events := lines[..|lines| - 1], EventsOf(r, lines);
      EventsSay(r, front);
      assert events[..|lines| - 1] == EventsOf(r, front);
      ConcatEmpty(Contents(r, front));
    }
  }

  /** Lines end at a newline, byte 10, and have no other; what follows the last one has none. */
  lemma {:induction false} LinesEndAtNewlines(s: seq<byte>)
    ensures forall k :: 0 <= k < |Lines(s)| ==> EndsAtNewline(Lines(s)[k])
    ensures forall k :: 0 <= k < |Rest(s)| ==> Rest(s)[k] != 10
  {
    if s != [] {
      LinesEndAtNewlines(s[..|s| - 1]);
    }
  }

  ghost predicate EndsAtNewline(line: seq<byte>) {
    line != [] && line[|line| - 1] == 10 && forall k :: 0 <= k < |line| - 1 ==> line[k] != 10
  }

  /** Everything before the first error is received, and that error is passed on. */
  lemma {:induction false} ReceivedSays(items: seq<Item>, n: nat)
    requires n <= |items| && (forall k :: 0 <= k < n ==> items[k].Ok?) && (n < |items| ==> items[n].Err?)
    ensures Received(items) == Concat(seq(n, k requires 0 <= k < n => items[k].value))
    ensures ReadError(items) == if n < |items| then Some(items[n].error) else None
  {
    var chunks := seq(n, k requires 0 <= k < n => items[k].value);
    if n > 0 {
      ReceivedSays(items[1..], n - 1);
      assert chunks[1..] == seq(n - 1, k requires 0 <= k < n - 1 => items[1..][k].value);
      assert chunks == [items[0].value] + chunks[1..];
      ConcatCons(items[0].value, chunks[1..]);
    }
  }

  /** Some lines and a rest without a newline. */
  ghost predicate Cut(bytes: seq<byte>, lines: seq<seq<byte>>, rest: seq<byte>) {
    && Concat(lines) + rest == bytes
    && (forall k :: 0 <= k < |lines| ==> EndsAtNewline(lines[k]))
    && (forall k :: 0 <= k < |rest| ==> rest[k] != 10)
  }

  /**
   What a stream yields, from its bytes: cut at the newlines, each complete line
   gives its event's text, in order, and, unless an error cut the stream short, the
   calls of all fragments follow, one for each index that got a name.
   */
  lemma OutcomeSays(r: Reader, bytes: seq<byte>, error: Option<string>)
    returns (lines: seq<seq<byte>>, rest: seq<byte>, indices: seq<nat>, n: nat)
    ensures Cut(bytes, lines, rest)
    ensures forall i: nat :: Names(Fragments(FragmentsOf(EventsOf(r, lines)), i)) != "" ==> i < n
    ensures var (contents, calls) := Outcome(r, bytes, error);
            && contents == TextsOf(EventsOf(r, lines))
            && (error.Some? ==> calls == [])
            && (error.None? ==> CallsAre(r, FragmentsOf(EventsOf(r, lines)), calls, indices, n))
  {
    lines, rest := Lines(bytes), Rest(bytes);
    LinesAndRest(bytes);
    LinesEndAtNewlines(bytes);
    EventsSay(r, lines);
    var deltas := Deltas(r, lines);
    n := Bound(PushAll(map[], deltas));
    indices := FinishedSays(r, deltas, n);
    forall i: nat | Names(Fragments(deltas, i)) != "" ensures i < n {
      NamedAreBounded(deltas, i);
    }
  }
}
