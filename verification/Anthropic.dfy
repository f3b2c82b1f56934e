/**
 * Translation of Anthropic responses: the one-shot form, and the event stream.
 *
 * The model starts from decoded events. JSON encoding is a function parameter.
 * `Assemble` is what any client of the chunk format does: concatenate the text,
 * and group tool-call fragments by their index.
 */
module Anthropic {
  /** A content block; `J` is the type of decoded JSON values. */
  datatype Block<J> = TextBlock(text: string) | ToolUse(id: string, name: string, input: J) | OtherBlock

  datatype ToolCall = ToolCall(id: string, name: string, arguments: string)

  /** What a caller of either form ends up with. `messageToolCalls` is the list inside the message itself. */
  datatype Answer = Answer(content: string, toolCalls: seq<ToolCall>, finishReason: string)

  datatype Choice = Choice(content: string, messageToolCalls: seq<ToolCall>, toolCalls: seq<ToolCall>, finishReason: string)

  /** A decoded event; lines without data, undecodable data and other event types are `Ignored`. */
  datatype Event =
    | BlockStart(blockType: string, id: string, name: string)
    | BlockDelta(deltaType: string, text: string, partialJson: string)
    | BlockStop(index: int)
    | MessageDelta(stopReason: string)
    | MessageStop
    | Ignored

  datatype Chunk =
    | RoleChunk
    | TextChunk(text: string)
    | ToolStart(index: nat, id: string, name: string)
    | ToolArguments(index: nat, fragment: string)
    | FinishChunk(reason: string)

  function FinishReasonOf(stopReason: string): string {
    match stopReason
    case "max_tokens" => "length"
    case "tool_use" => "tool_calls"
    case _ => "stop"
  }

  // ---------------------------------------------------------------- the one-shot form

  function LastText<J>(blocks: seq<Block<J>>): string {
    if blocks == [] then ""
    else if blocks[|blocks| - 1].TextBlock? then blocks[|blocks| - 1].text
    else LastText(blocks[..|blocks| - 1])
  }

  function ToolCallsOf<J>(blocks: seq<Block<J>>, encode: J -> string): seq<ToolCall> {
    if blocks == [] then []
    else
      var b := blocks[|blocks| - 1];
      ToolCallsOf(blocks[..|blocks| - 1], encode) + if b.ToolUse? then [ToolCall(b.id, b.name, encode(b.input))] else []
  }

  function OneShot<J>(blocks: seq<Block<J>>, stopReason: string, encode: J -> string): Answer {
    Answer(LastText(blocks), ToolCallsOf(blocks, encode), FinishReasonOf(stopReason))
  }

  /** The choice it is delivered in: the calls stand beside the message, whose own list stays empty. */
  function Delivered(a: Answer): Choice {
    Choice(a.content, [], a.toolCalls, a.finishReason)
  }

  method TranslateFromAnthropic<J>(blocks: seq<Block<J>>, stopReason: string, encode: J -> string) returns (c: Choice)
    ensures c == Delivered(OneShot(blocks, stopReason, encode))
    ensures c.content == LastText(blocks) && c.toolCalls == ToolCallsOf(blocks, encode) && c.messageToolCalls == []
    ensures c.finishReason == (if stopReason == "max_tokens" then "length" else if stopReason == "tool_use" then "tool_calls" else "stop")
  {
    var content, toolCalls := "", [];
    for k := 0 to |blocks|
      invariant content == LastText(blocks[..k])
      invariant toolCalls == ToolCallsOf(blocks[..k], encode)
    {
      assert blocks[..k + 1][..k] == blocks[..k];
      match blocks[k]
      case TextBlock(text) => content := text;
      case ToolUse(id, name, input) => toolCalls := toolCalls + [ToolCall(id, name, encode(input))];
      case OtherBlock =>
    }
    assert blocks[..|blocks|] == blocks;
    var finishReason := "stop";
    if stopReason == "max_tokens" {
      finishReason := "length";
    } else if stopReason == "tool_use" {
      finishReason := "tool_calls";
    }
    c := Choice(content, [], toolCalls, finishReason);
  }

  // ---------------------------------------------------------------- the stream

  /** The chunks one event produces while the tool index is `index`. */
  function ChunksOf(event: Event, index: nat): seq<Chunk> {
    match event
    case BlockStart(blockType, id, name) =>
      if blockType == "tool_use" then [ToolStart(index, id, name)] else []
    case BlockDelta(deltaType, text, partialJson) =>
      if deltaType == "text_delta" && text != "" then [TextChunk(text)]
      else if deltaType == "input_json_delta" && partialJson != "" then [ToolArguments(index, partialJson)]
      else []
    case MessageDelta(stopReason) => [FinishChunk(FinishReasonOf(stopReason))]
    case _ => []
  }

  function NextIndex(event: Event, index: nat): nat {
    if event.BlockStop? && event.index >= 0 then index + 1 else index
  }

  function Emit(events: seq<Event>, index: nat): seq<Chunk> {
    if events == [] || events[0].MessageStop? then []
    else ChunksOf(events[0], index) + Emit(events[1..], NextIndex(events[0], index))
  }

  /** The switch on one event: what it emits and the tool index after it. */
  method HandleEvent(event: Event, toolCallIndex: nat) returns (emitted: seq<Chunk>, next: nat)
    ensures emitted == ChunksOf(event, toolCallIndex) && next == NextIndex(event, toolCallIndex)
  {
    emitted, next := [], toolCallIndex;
    match event {
      case BlockStart(blockType, id, name) =>
        if blockType == "tool_use" {
          emitted := [ToolStart(toolCallIndex, id, name)];
        }
      case BlockDelta(deltaType, text, partialJson) =>
        if deltaType == "text_delta" && text != "" {
          emitted := [TextChunk(text)];
        } else if deltaType == "input_json_delta" && partialJson != "" {
          emitted := [ToolArguments(toolCallIndex, partialJson)];
        }
      case BlockStop(index) =>
        if index >= 0 {
          next := toolCallIndex + 1;
        }
      case MessageDelta(stopReason) =>
        var finishReason := "stop";
        if stopReason == "max_tokens" {
          finishReason := "length";
        } else if stopReason == "tool_use" {
          finishReason := "tool_calls";
        }
        emitted := [FinishChunk(finishReason)];
      case _ =>
    }
  }

  method ParseAnthropicSSE(events: seq<Event>) returns (chunks: seq<Chunk>)
    ensures chunks == [RoleChunk] + Emit(events, 0)
  {
    var toolCallIndex := 0;
    chunks := [RoleChunk];
    for k := 0 to |events|
      invariant chunks + Emit(events[k..], toolCallIndex) == [RoleChunk] + Emit(events, 0)
    {
      assert events[k..][0] == events[k] && events[k..][1..] == events[k + 1..];
      if events[k].MessageStop? { return; }
      var emitted, next := HandleEvent(events[k], toolCallIndex);
      ghost var rest := Emit(events[k + 1..], next);
      assert chunks + (emitted + rest) == (chunks + emitted) + rest;
      chunks, toolCallIndex := chunks + emitted, next;
    }
  }

  // ---------------------------------------------------------------- the client

  datatype PartialCall = PartialCall(index: nat, call: ToolCall)

  datatype Assembly = Assembly(text: string, calls: seq<PartialCall>, finish: string)

  function Find(calls: seq<PartialCall>, index: nat): (k: nat)
    ensures k <= |calls|
    ensures k < |calls| ==> calls[k].index == index
    ensures forall j :: 0 <= j < k ==> calls[j].index != index
  {
    if calls == [] || calls[0].index == index then 0 else 1 + Find(calls[1..], index)
  }

  /** A fragment goes to the call with its index, or opens a new call at the end. */
  function AddFragment(calls: seq<PartialCall>, index: nat, id: string, name: string, fragment: string): seq<PartialCall> {
    var k := Find(calls, index);
    if k == |calls| then calls + [PartialCall(index, ToolCall(id, name, fragment))]
    else
      var c := calls[k].call;
      calls[k := PartialCall(index, ToolCall(c.id + id, c.name + name, c.arguments + fragment))]
  }

  function Absorb(a: Assembly, chunk: Chunk): Assembly {
    match chunk
    case RoleChunk => a
    case TextChunk(text) => a.(text := a.text + text)
    case ToolStart(index, id, name) => a.(calls := AddFragment(a.calls, index, id, name, ""))
    case ToolArguments(index, fragment) => a.(calls := AddFragment(a.calls, index, "", "", fragment))
    case FinishChunk(reason) => a.(finish := reason)
  }

  function AbsorbAll(a: Assembly, chunks: seq<Chunk>): Assembly
    decreases |chunks|
  {
    if chunks == [] then a else AbsorbAll(Absorb(a, chunks[0]), chunks[1..])
  }

  function Calls(calls: seq<PartialCall>): seq<ToolCall> {
    seq(|calls|, k requires 0 <= k < |calls| => calls[k].call)
  }

  function Assemble(chunks: seq<Chunk>): Answer {
    var a := AbsorbAll(Assembly("", [], ""), chunks);
    Answer(a.text, Calls(a.calls), a.finish)
  }

  // ---------------------------------------------------------------- what the server sends

  /** A block and the pieces its content is streamed in. */
  datatype Streamed<J> = Streamed(block: Block<J>, pieces: seq<string>)

  function Concat(pieces: seq<string>): string {
    if pieces == [] then "" else pieces[0] + Concat(pieces[1..])
  }

  function DeltasOf<J>(s: Streamed<J>): seq<Event> {
    seq(|s.pieces|, k requires 0 <= k < |s.pieces| =>
      match s.block
      case TextBlock(_) => BlockDelta("text_delta", s.pieces[k], "")
      case ToolUse(_, _, _) => BlockDelta("input_json_delta", "", s.pieces[k])
      case OtherBlock => BlockDelta("other_delta", s.pieces[k], s.pieces[k]))
  }

  function StartOf<J>(s: Streamed<J>): Event {
    match s.block
    case TextBlock(_) => BlockStart("text", "", "")
    case ToolUse(id, name, _) => BlockStart("tool_use", id, name)
    case OtherBlock => BlockStart("other", "", "")
  }

  /** Block number `at`: its start, its deltas, its stop. */
  function EventsOf<J>(s: Streamed<J>, at: nat): seq<Event> {
    [StartOf(s)] + DeltasOf(s) + [BlockStop(at)]
  }

  function BlockEvents<J>(stream: seq<Streamed<J>>): seq<Event> {
    if stream == [] then []
    else BlockEvents(stream[..|stream| - 1]) + EventsOf(stream[|stream| - 1], |stream| - 1)
  }

  function Script<J>(stream: seq<Streamed<J>>, stopReason: string): seq<Event> {
    BlockEvents(stream) + [MessageDelta(stopReason), MessageStop]
  }

  function Blocks<J>(stream: seq<Streamed<J>>): seq<Block<J>> {
    seq(|stream|, k requires 0 <= k < |stream| => stream[k].block)
  }

  /** Pings and comments may come anywhere. */
  function Strip(events: seq<Event>): seq<Event> {
    if events == [] then []
    else (if events[0].Ignored? then [] else [events[0]]) + Strip(events[1..])
  }

  // ---------------------------------------------------------------- what arrives

  function StreamedText<J>(stream: seq<Streamed<J>>): string {
    if stream == [] then ""
    else
      var s := stream[|stream| - 1];
      StreamedText(stream[..|stream| - 1]) + if s.block.TextBlock? then Concat(s.pieces) else ""
  }

  function StreamedCalls<J>(stream: seq<Streamed<J>>): seq<PartialCall> {
    if stream == [] then []
    else
      var n, b := |stream| - 1, stream[|stream| - 1].block;
      StreamedCalls(stream[..n])
      + if b.ToolUse? then [PartialCall(n, ToolCall(b.id, b.name, Concat(stream[n].pieces)))] else []
  }

  lemma {:induction false} StrippedEmitsTheSame(events: seq<Event>, index: nat)
    ensures Emit(Strip(events), index) == Emit(events, index)
  {
    if events != [] {
      var rest := Strip(events[1..]);
      if events[0].Ignored? {
        assert Strip(events) == rest;
        StrippedEmitsTheSame(events[1..], index);
      } else {
        assert Strip(events) == [events[0]] + rest;
        assert Strip(events)[1..] == rest;
        StrippedEmitsTheSame(events[1..], NextIndex(events[0], index));
      }
    }
  }

  lemma {:induction false} AbsorbConcat(a: Assembly, x: seq<Chunk>, y: seq<Chunk>)
    ensures AbsorbAll(a, x + y) == AbsorbAll(AbsorbAll(a, x), y)
    decreases |x|
  {
    if x == [] {
      assert x + y == y;
    } else {
      assert (x + y)[0] == x[0] && (x + y)[1..] == x[1..] + y;
      AbsorbConcat(Absorb(a, x[0]), x[1..], y);
    }
  }

  predicate NoStop(events: seq<Event>) {
    forall k :: 0 <= k < |events| ==> !events[k].MessageStop?
  }

  function IndexAfter(events: seq<Event>, index: nat): nat {
    if events == [] then index else IndexAfter(events[1..], NextIndex(events[0], index))
  }

  lemma {:induction false} EmitConcat(x: seq<Event>, y: seq<Event>, index: nat)
    requires NoStop(x)
    ensures Emit(x + y, index) == Emit(x, index) + Emit(y, IndexAfter(x, index))
    decreases |x|
  {
    if x == [] {
      assert x + y == y;
    } else {
      assert (x + y)[0] == x[0] && (x + y)[1..] == x[1..] + y;
      EmitConcat(x[1..], y, NextIndex(x[0], index));
    }
  }

  lemma {:induction false} IndexAfterConcat(x: seq<Event>, y: seq<Event>, index: nat)
    ensures IndexAfter(x + y, index) == IndexAfter(y, IndexAfter(x, index))
    decreases |x|
  {
    if x == [] {
      assert x + y == y;
    } else {
      assert (x + y)[0] == x[0] && (x + y)[1..] == x[1..] + y;
      IndexAfterConcat(x[1..], y, NextIndex(x[0], index));
    }
  }

  lemma ShorterDeltas<J>(s: Streamed<J>)
    requires s.pieces != []
    ensures var rest := s.(pieces := s.pieces[1..]);
      DeltasOf(s) == [DeltasOf(s)[0]] + DeltasOf(rest) && DeltasOf(s)[1..] == DeltasOf(rest)
  {
  }

  lemma DeltasEmit<J>(s: Streamed<J>, at: nat)
    requires s.pieces != []
    ensures Emit(DeltasOf(s), at)
            == ChunksOf(DeltasOf(s)[0], at) + Emit(DeltasOf(s.(pieces := s.pieces[1..])), at)
    ensures ChunksOf(DeltasOf(s)[0], at) == [] ==>
            Emit(DeltasOf(s), at) == Emit(DeltasOf(s.(pieces := s.pieces[1..])), at)
  {
    ShorterDeltas(s);
    assert NextIndex(DeltasOf(s)[0], at) == at;
  }

  lemma {:induction false} TextDeltas<J>(a: Assembly, s: Streamed<J>, at: nat)
    requires s.block.TextBlock?
    ensures AbsorbAll(a, Emit(DeltasOf(s), at)) == a.(text := a.text + Concat(s.pieces))
    decreases |s.pieces|
  {
    if s.pieces == [] {
      assert a.text + "" == a.text;
    } else {
      DeltasEmit(s, at);
      var piece, rest := s.pieces[0], s.(pieces := s.pieces[1..]);
      var b := a.(text := a.text + piece);
      TextDeltas(b, rest, at);
      assert (a.text + piece) + Concat(rest.pieces) == a.text + (piece + Concat(rest.pieces));
      if piece == "" {
        assert b == a;
      } else {
        AbsorbConcat(a, [TextChunk(piece)], Emit(DeltasOf(rest), at));
        AbsorbOne(a, TextChunk(piece));
      }
    }
  }

  lemma AbsorbOne(a: Assembly, chunk: Chunk)
    ensures AbsorbAll(a, [chunk]) == Absorb(a, chunk)
  {
    assert [chunk][1..] == [];
  }

  /** The last call is the open one and no earlier call shares its index. */
  predicate OpenCall(calls: seq<PartialCall>, at: nat) {
    && calls != [] && calls[|calls| - 1].index == at
    && forall k :: 0 <= k < |calls| - 1 ==> calls[k].index != at
  }

  function Extend(calls: seq<PartialCall>, fragment: string): seq<PartialCall>
    requires calls != []
  {
    var last := calls[|calls| - 1];
    calls[|calls| - 1 := last.(call := last.call.(arguments := last.call.arguments + fragment))]
  }

  lemma FragmentExtends(calls: seq<PartialCall>, at: nat, fragment: string)
    requires OpenCall(calls, at)
    ensures AddFragment(calls, at, "", "", fragment) == Extend(calls, fragment)
    ensures OpenCall(Extend(calls, fragment), at)
  {
    var c := calls[|calls| - 1].call;
    assert c.id + "" == c.id && c.name + "" == c.name;
  }

  lemma ExtendTwice(calls: seq<PartialCall>, x: string, y: string)
    requires calls != []
    ensures Extend(Extend(calls, x), y) == Extend(calls, x + y)
    ensures Extend(calls, "") == calls
  {
    var args := calls[|calls| - 1].call.arguments;
    assert (args + x) + y == args + (x + y);
    assert args + "" == args;
  }

  lemma {:induction false} ToolDeltas<J>(a: Assembly, s: Streamed<J>, at: nat)
    requires s.block.ToolUse? && OpenCall(a.calls, at)
    ensures AbsorbAll(a, Emit(DeltasOf(s), at)) == a.(calls := Extend(a.calls, Concat(s.pieces)))
    decreases |s.pieces|
  {
    if s.pieces == [] {
      ExtendTwice(a.calls, "", "");
    } else {
      var piece, rest := s.pieces[0], s.(pieces := s.pieces[1..]);
      var b := a.(calls := Extend(a.calls, piece));
      DeltasEmit(s, at);
      FragmentExtends(a.calls, at, piece);
      ExtendTwice(a.calls, piece, Concat(rest.pieces));
      ToolDeltas(b, rest, at);
      if piece != "" {
        AbsorbConcat(a, [ToolArguments(at, piece)], Emit(DeltasOf(rest), at));
        AbsorbOne(a, ToolArguments(at, piece));
      }
    }
  }

  lemma {:induction false} OtherDeltas<J>(s: Streamed<J>, at: nat)
    requires s.block.OtherBlock?
    ensures Emit(DeltasOf(s), at) == []
    decreases |s.pieces|
  {
    if s.pieces != [] {
      ShorterDeltas(s);
      OtherDeltas(s.(pieces := s.pieces[1..]), at);
    }
  }

  lemma {:induction false} DeltasKeepIndex<J>(s: Streamed<J>, at: nat)
    ensures NoStop(DeltasOf(s)) && IndexAfter(DeltasOf(s), at) == at
    decreases |s.pieces|
  {
    if s.pieces != [] {
      ShorterDeltas(s);
      DeltasKeepIndex(s.(pieces := s.pieces[1..]), at);
    }
  }

  /** One block's events emit its start chunk and its delta chunks, and move the index past the block. */
  lemma BlockEmits<J>(s: Streamed<J>, at: nat)
    ensures NoStop(EventsOf(s, at)) && IndexAfter(EventsOf(s, at), at) == at + 1
    ensures Emit(EventsOf(s, at), at) == ChunksOf(StartOf(s), at) + Emit(DeltasOf(s), at)
  {
    var start, deltas, stop := [StartOf(s)], DeltasOf(s), [BlockStop(at)];
    DeltasKeepIndex(s, at);
    EmitConcat(start + deltas, stop, at);
    EmitConcat(start, deltas, at);
    IndexAfterConcat(start + deltas, stop, at);
    IndexAfterConcat(start, deltas, at);
    assert start[1..] == [] && stop[1..] == [];
    assert IndexAfter(start, at) == at && IndexAfter(stop, at) == at + 1;
    assert Emit(start, at) == ChunksOf(StartOf(s), at) && Emit(stop, at) == [];
  }

  predicate IndicesBelow(calls: seq<PartialCall>, at: nat) {
    forall k :: 0 <= k < |calls| ==> calls[k].index < at
  }

  lemma BlockAssembles<J>(a: Assembly, s: Streamed<J>, at: nat)
    requires IndicesBelow(a.calls, at)
    ensures AbsorbAll(a, Emit(EventsOf(s, at), at))
      == a.(text := a.text + (if s.block.TextBlock? then Concat(s.pieces) else ""),
            calls := a.calls + if s.block.ToolUse? then [PartialCall(at, ToolCall(s.block.id, s.block.name, Concat(s.pieces)))] else [])
  {
    BlockEmits(s, at);
    assert a.text + "" == a.text && a.calls + [] == a.calls;
    match s.block
    case TextBlock(_) =>
      assert [] + Emit(DeltasOf(s), at) == Emit(DeltasOf(s), at);
      TextDeltas(a, s, at);
    case OtherBlock => OtherDeltas(s, at);
    case ToolUse(id, name, _) =>
      var start := [ToolStart(at, id, name)];
      var b := a.(calls := a.calls + [PartialCall(at, ToolCall(id, name, ""))]);
      AbsorbConcat(a, start, Emit(DeltasOf(s), at));
      AbsorbOne(a, ToolStart(at, id, name));
      assert Absorb(a, ToolStart(at, id, name)) == b;
      ToolDeltas(b, s, at);
      assert "" + Concat(s.pieces) == Concat(s.pieces);
  }

  lemma {:induction false} StreamAssembles<J>(stream: seq<Streamed<J>>)
    ensures NoStop(BlockEvents(stream)) && IndexAfter(BlockEvents(stream), 0) == |stream|
    ensures AbsorbAll(Assembly("", [], ""), Emit(BlockEvents(stream), 0))
            == Assembly(StreamedText(stream), StreamedCalls(stream), "")
    ensures IndicesBelow(StreamedCalls(stream), |stream|)
  {
    if stream != [] {
      var n := |stream| - 1;
      var front, last := BlockEvents(stream[..n]), EventsOf(stream[n], n);
      StreamAssembles(stream[..n]);
      BlockEmits(stream[n], n);
      EmitConcat(front, last, 0);
      IndexAfterConcat(front, last, 0);
      AbsorbConcat(Assembly("", [], ""), Emit(front, 0), Emit(last, n));
      BlockAssembles(Assembly(StreamedText(stream[..n]), StreamedCalls(stream[..n]), ""), stream[n], n);
    }
  }

  /** Tool indices are the positions of the tool blocks: strictly increasing, so any client orders the calls alike. */
  lemma {:induction false} ToolIndicesIncrease<J>(stream: seq<Streamed<J>>)
    ensures forall j, k :: 0 <= j < k < |StreamedCalls(stream)| ==>
      StreamedCalls(stream)[j].index < StreamedCalls(stream)[k].index
  {
    if stream != [] {
      ToolIndicesIncrease(stream[..|stream| - 1]);
      StreamAssembles(stream[..|stream| - 1]);
    }
  }

  lemma ScriptEmits<J>(stream: seq<Streamed<J>>, stopReason: string)
    ensures Emit(Script(stream, stopReason), 0)
            == Emit(BlockEvents(stream), 0) + [FinishChunk(FinishReasonOf(stopReason))]
  {
    var tail := [MessageDelta(stopReason), MessageStop];
    StreamAssembles(stream);
    EmitConcat(BlockEvents(stream), tail, 0);
    assert tail[1..] == [MessageStop];
    assert Emit(tail, |stream|) == [FinishChunk(FinishReasonOf(stopReason))];
  }

  /** What a client assembles from the parser's chunks, for any blocks, pieces and interleaved pings. */
  lemma ParsedStream<J>(stream: seq<Streamed<J>>, stopReason: string, events: seq<Event>)
    requires Strip(events) == Script(stream, stopReason)
    ensures Assemble([RoleChunk] + Emit(events, 0))
            == Answer(StreamedText(stream), Calls(StreamedCalls(stream)), FinishReasonOf(stopReason))
  {
    var empty := Assembly("", [], "");
    var finish := FinishChunk(FinishReasonOf(stopReason));
    StrippedEmitsTheSame(events, 0);
    ScriptEmits(stream, stopReason);
    StreamAssembles(stream);
    AbsorbConcat(empty, [RoleChunk], Emit(events, 0));
    AbsorbOne(empty, RoleChunk);
    AbsorbConcat(empty, Emit(BlockEvents(stream), 0), [finish]);
    AbsorbOne(Assembly(StreamedText(stream), StreamedCalls(stream), ""), finish);
  }

  /** The three finish reasons a client can see, and the stop reasons they stand for. */
  predicate Reports(stopReason: string, finishReason: string) {
    && (finishReason == "length" <==> stopReason == "max_tokens")
    && (finishReason == "tool_calls" <==> stopReason == "tool_use")
    && (finishReason == "stop" <==> stopReason != "max_tokens" && stopReason != "tool_use")
  }

  lemma ReasonsAreDistinct()
    ensures "length" != "tool_calls" && "length" != "stop" && "tool_calls" != "stop" && "max_tokens" != "tool_use"
  {
    assert "length"[0] == 'l' && "tool_calls"[0] == 't' && "stop"[0] == 's' && "max_tokens"[0] == 'm' && "tool_use"[0] == 't';
  }

  /** Both forms report a cut-off answer as "length", a tool request as "tool_calls" and anything else as "stop". */
  lemma FinishReasonsAreReported<J>(blocks: seq<Block<J>>, stream: seq<Streamed<J>>, stopReason: string, events: seq<Event>,
                                    encode: J -> string)
    requires Strip(events) == Script(stream, stopReason)
    ensures Reports(stopReason, OneShot(blocks, stopReason, encode).finishReason)
    ensures Reports(stopReason, Assemble([RoleChunk] + Emit(events, 0)).finishReason)
  {
    ReasonsAreDistinct();
    ParsedStream(stream, stopReason, events);
  }

  // ---------------------------------------------------------------- agreement

  /** The pieces of every block spell its content. */
  predicate Faithful<J>(stream: seq<Streamed<J>>, encode: J -> string) {
    forall k :: 0 <= k < |stream| ==>
      match stream[k].block
      case TextBlock(text) => Concat(stream[k].pieces) == text
      case ToolUse(_, _, input) => Concat(stream[k].pieces) == encode(input)
      case OtherBlock => true
  }

  /** Every text block but the last one is empty; in particular, a list with at most one text block. */
  predicate OneVoice<J>(blocks: seq<Block<J>>) {
    forall j, k :: 0 <= j < k < |blocks| && blocks[j].TextBlock? && blocks[k].TextBlock? ==> blocks[j].text == ""
  }

  lemma {:induction false} CallsAgree<J>(stream: seq<Streamed<J>>, encode: J -> string)
    requires Faithful(stream, encode)
    ensures Calls(StreamedCalls(stream)) == ToolCallsOf(Blocks(stream), encode)
  {
    if stream != [] {
      var n := |stream| - 1;
      CallsAgree(stream[..n], encode);
      assert Blocks(stream)[..n] == Blocks(stream[..n]);
      assert Blocks(stream)[n] == stream[n].block;
    }
  }

  function JoinedText<J>(blocks: seq<Block<J>>): string {
    if blocks == [] then ""
    else
      var b := blocks[|blocks| - 1];
      JoinedText(blocks[..|blocks| - 1]) + if b.TextBlock? then b.text else ""
  }

  lemma {:induction false} StreamJoinsText<J>(stream: seq<Streamed<J>>, encode: J -> string)
    requires Faithful(stream, encode)
    ensures StreamedText(stream) == JoinedText(Blocks(stream))
  {
    if stream != [] {
      var n := |stream| - 1;
      StreamJoinsText(stream[..n], encode);
      assert Blocks(stream)[..n] == Blocks(stream[..n]);
    }
  }

  predicate Silent<J>(blocks: seq<Block<J>>) {
    forall k :: 0 <= k < |blocks| && blocks[k].TextBlock? ==> blocks[k].text == ""
  }

  lemma {:induction false} SilentIff<J>(blocks: seq<Block<J>>)
    ensures JoinedText(blocks) == "" <==> Silent(blocks)
  {
    if blocks != [] {
      SilentIff(blocks[..|blocks| - 1]);
    }
  }

  lemma ConcatIsLast(front: string, last: string)
    ensures front + last == last <==> front == ""
  {
    assert |front + last| == |front| + |last|;
  }

  lemma OneVoiceOfLast<J>(blocks: seq<Block<J>>)
    requires blocks != []
    ensures var n := |blocks| - 1;
      OneVoice(blocks) <==> if blocks[n].TextBlock? then Silent(blocks[..n]) else OneVoice(blocks[..n])
  {
    var n := |blocks| - 1;
    if blocks[n].TextBlock? && OneVoice(blocks) {
      forall k | 0 <= k < n && blocks[k].TextBlock? ensures blocks[k].text == "" {
        assert blocks[n].TextBlock?;
      }
    }
  }

  lemma {:induction false} TextAgreesIff<J>(blocks: seq<Block<J>>)
    ensures JoinedText(blocks) == LastText(blocks) <==> OneVoice(blocks)
  {
    if blocks != [] {
      var n := |blocks| - 1;
      var front := blocks[..n];
      TextAgreesIff(front);
      SilentIff(front);
      OneVoiceOfLast(blocks);
      if blocks[n].TextBlock? {
        ConcatIsLast(JoinedText(front), blocks[n].text);
      } else {
        assert JoinedText(front) + "" == JoinedText(front);
      }
    }
  }

  /**
   * Streaming agrees with the one-shot translation, whatever the split into deltas and
   * wherever pings fall, exactly when every text block but the last is empty: the
   * stream concatenates text blocks, the one-shot form keeps the last one.
   */
  lemma StreamingAgreesIff<J>(stream: seq<Streamed<J>>, stopReason: string, events: seq<Event>, encode: J -> string)
    requires Strip(events) == Script(stream, stopReason)
    requires Faithful(stream, encode)
    ensures Assemble([RoleChunk] + Emit(events, 0)) == OneShot(Blocks(stream), stopReason, encode)
            <==> OneVoice(Blocks(stream))
    ensures Assemble([RoleChunk] + Emit(events, 0)).toolCalls == OneShot(Blocks(stream), stopReason, encode).toolCalls
    ensures Assemble([RoleChunk] + Emit(events, 0)).finishReason == OneShot(Blocks(stream), stopReason, encode).finishReason
  {
    ParsedStream(stream, stopReason, events);
    CallsAgree(stream, encode);
    StreamJoinsText(stream, encode);
    TextAgreesIff(Blocks(stream));
  }

  lemma TwoTexts<J>(blocks: seq<Block<J>>)
    requires |blocks| == 2 && blocks[0].TextBlock? && blocks[1].TextBlock?
    ensures JoinedText(blocks) == blocks[0].text + blocks[1].text && LastText(blocks) == blocks[1].text
  {
    var one := blocks[..1];
    assert one[..0] == [];
    assert JoinedText(one) == "" + blocks[0].text;
    assert "" + blocks[0].text == blocks[0].text;
  }

  lemma WholePiece(text: string)
    ensures Concat([text]) == text
  {
    assert [text][1..] == [] && text + "" == text;
  }

  /** Two text blocks, such as "a" and "b": the stream delivers "ab", the one-shot form "b". */
  lemma TwoVoices<J>(x: string, y: string, stopReason: string, encode: J -> string) returns (stream: seq<Streamed<J>>)
    ensures Blocks(stream) == [TextBlock(x), TextBlock(y)] && Faithful(stream, encode)
    ensures Assemble([RoleChunk] + Emit(Script(stream, stopReason), 0)).content == x + y
    ensures OneShot(Blocks(stream), stopReason, encode).content == y
  {
    stream := [Streamed(TextBlock(x), [x]), Streamed(TextBlock(y), [y])];
    WholePiece(x);
    WholePiece(y);
    StripScript(stream, stopReason);
    ParsedStream(stream, stopReason, Script(stream, stopReason));
    StreamJoinsText(stream, encode);
    TwoTexts(Blocks(stream));
  }

  /** A lone tool_use block, in the one-shot form. */
  lemma OneToolUse<J>(id: string, name: string, input: J, stopReason: string, encode: J -> string)
    ensures OneShot([ToolUse(id, name, input)], stopReason, encode)
            == Answer("", [ToolCall(id, name, encode(input))], FinishReasonOf(stopReason))
  {
    var blocks: seq<Block<J>> := [ToolUse(id, name, input)];
    var none := blocks[..|blocks| - 1];
    assert none == [] && blocks[0].ToolUse?;
    assert LastText(blocks) == LastText(none) == "";
    assert ToolCallsOf(blocks, encode) == ToolCallsOf(none, encode) + [ToolCall(id, name, encode(input))];
  }

  predicate NothingIgnored(events: seq<Event>) {
    forall k :: 0 <= k < |events| ==> !events[k].Ignored?
  }

  lemma {:induction false} StripNothing(events: seq<Event>)
    requires NothingIgnored(events)
    ensures Strip(events) == events
  {
    if events != [] {
      StripNothing(events[1..]);
      assert [events[0]] + events[1..] == events;
    }
  }

  lemma {:induction false} BlockEventsMatter<J>(stream: seq<Streamed<J>>)
    ensures NothingIgnored(BlockEvents(stream))
  {
    if stream != [] {
      BlockEventsMatter(stream[..|stream| - 1]);
    }
  }

  /** A script without pings is its own stripped form. */
  lemma StripScript<J>(stream: seq<Streamed<J>>, stopReason: string)
    ensures Strip(Script(stream, stopReason)) == Script(stream, stopReason)
  {
    BlockEventsMatter(stream);
    StripNothing(Script(stream, stopReason));
  }

  // ---------------------------------------------------------------- sending a turn back

  function ToolBlocks<J>(calls: seq<ToolCall>, decode: string -> J): seq<Block<J>> {
    seq(|calls|, k requires 0 <= k < |calls| => ToolUse(calls[k].id, calls[k].name, decode(calls[k].arguments)))
  }

  function AssistantBlocks<J>(content: string, calls: seq<ToolCall>, decode: string -> J): seq<Block<J>> {
    (if content != "" then [TextBlock(content)] else []) + ToolBlocks(calls, decode)
  }

  /** The content of a message on the wire: a plain string, or blocks. */
  datatype WireContent<J> = PlainContent(text: string) | BlockContent(blocks: seq<Block<J>>)

  function AssistantContent<J>(content: string, calls: seq<ToolCall>, decode: string -> J): WireContent<J> {
    if calls == [] then PlainContent(content) else BlockContent(AssistantBlocks(content, calls, decode))
  }

  /** What translateToAnthropic makes of an assistant message: blocks only if it carries tool calls. */
  method TranslateAssistantMessage<J>(content: string, calls: seq<ToolCall>, decode: string -> J)
    returns (wire: WireContent<J>)
    ensures wire == AssistantContent(content, calls, decode)
  {
    if |calls| == 0 { return PlainContent(content); }
    var blocks := [];
    if content != "" {
      blocks := blocks + [TextBlock(content)];
    }
    ghost var head := blocks;
    for k := 0 to |calls|
      invariant blocks == head + ToolBlocks(calls[..k], decode)
    {
      blocks := blocks + [ToolUse(calls[k].id, calls[k].name, decode(calls[k].arguments))];
    }
    assert calls[..|calls|] == calls;
    wire := BlockContent(blocks);
  }

  /** A non-empty text block at most, and first; then tool uses only. */
  predicate Canonical<J>(blocks: seq<Block<J>>) {
    forall k :: 0 <= k < |blocks| ==> blocks[k].ToolUse? || (k == 0 && blocks[0].TextBlock? && blocks[0].text != "")
  }

  lemma {:induction false} AllToolUse<J(!new)>(blocks: seq<Block<J>>, encode: J -> string, decode: string -> J)
    requires forall x: J :: decode(encode(x)) == x
    requires Canonical(blocks)
    ensures LastText(blocks) == if blocks != [] && blocks[0].TextBlock? then blocks[0].text else ""
    ensures ToolBlocks(ToolCallsOf(blocks, encode), decode)
            == if blocks != [] && blocks[0].TextBlock? then blocks[1..] else blocks
  {
    if blocks != [] {
      var n := |blocks| - 1;
      AllToolUse(blocks[..n], encode, decode);
      if n > 0 {
        assert blocks == blocks[..n] + [blocks[n]];
      }
    }
  }

  lemma BlocksRoundTripIff<J(!new)>(blocks: seq<Block<J>>, encode: J -> string, decode: string -> J)
    requires forall x: J :: decode(encode(x)) == x
    ensures AssistantBlocks(LastText(blocks), ToolCallsOf(blocks, encode), decode) == blocks <==> Canonical(blocks)
  {
    if Canonical(blocks) {
      AllToolUse(blocks, encode, decode);
    }
  }

  /**
   * Sending an answer back restores the blocks it came from exactly when they were in canonical
   * order and held a tool call; a turn without one goes back as its last text.
   */
  lemma TurnRoundTripsIff<J(!new)>(blocks: seq<Block<J>>, stopReason: string, encode: J -> string, decode: string -> J)
    requires forall x: J :: decode(encode(x)) == x
    ensures var a := OneShot(blocks, stopReason, encode);
      var wire := AssistantContent(a.content, a.toolCalls, decode);
      && (wire == BlockContent(blocks) <==> Canonical(blocks) && ToolCallsOf(blocks, encode) != [])
      && (ToolCallsOf(blocks, encode) == [] ==> wire == PlainContent(LastText(blocks)))
  {
    BlocksRoundTripIff(blocks, encode, decode);
  }
}
