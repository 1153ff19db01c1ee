/** `OpenAIToAnthropicStreamTranslator` in `src/ficelle/anthropic_messages.py`, from event to event. */
module StreamTranslator {
  import opened AnthropicMessages
  import opened Json
  import Sorting
  import opened SseFraming
  import opened Text
  import opened Wrappers

  datatype Tool = Tool(index: int, id: string, name: string, fragments: seq<string>)

  /** The translator's fields, apart from the byte buffer and the start flag; `tools` in insertion order. */
  datatype Core = Core(
    closed: bool,
    failed: bool,
    errorCode: Option<string>,
    errorDetail: Option<string>,
    text: string,
    finish: Option<string>,
    usage: Json,
    explicitStop: Option<string>,
    hasText: bool,
    tools: seq<Tool>
  )

  const INITIAL: Core := Core(false, false, None, None, "", None, Obj(map[]), None, false, [])

  /** What the constructor is given, and the library. */
  datatype Setup = Setup(requestId: string, model: string, stops: seq<string>, codec: Codec)

  // ---------------------------------------------------------------------------------------------
  // One event of the upstream stream
  // ---------------------------------------------------------------------------------------------

  function Fail(c: Core, detail: string, code: string): (Core, seq<Event>) {
    (c.(failed := true, errorCode := Some(code), errorDetail := Some(Take(detail, 2000))),
     [StreamError(code, Take(detail, 2000))])
  }

  function DeltaOf(choice: Json): Json {
    if choice.Get("delta").Obj? then choice.Get("delta")
    else if choice.Get("message").Obj? then choice.Get("message")
    else Obj(map[])
  }

  function ContentOf(delta: Json): Json {
    if !delta.Get("content").Truthy() && delta.Get("refusal").Str? then delta.Get("refusal") else delta.Get("content")
  }

  function AppendText(c: Core, text: string): (Core, seq<Event>) {
    (c.(hasText := true, text := c.text + text),
     (if c.hasText then [] else [BlockStart(0, TextBlock)]) + [TextDelta(0, text)])
  }

  function CallIndex(call: Json): int {
    if call.Get("index").Int? then call.Get("index").n else 0
  }

  function CallFunction(call: Json): Json {
    if call.Get("function").Obj? then call.Get("function") else Obj(map[])
  }

  /** The position of the tool with this index, or the end. */
  function Position(tools: seq<Tool>, index: int): (i: nat)
    ensures i <= |tools|
    ensures i < |tools| ==> tools[i].index == index
    decreases |tools|
  {
    if tools == [] || tools[0].index == index then 0 else 1 + Position(tools[1..], index)
  }

  function UpdatedTool(tool: Tool, call: Json): Tool {
    var function_ := CallFunction(call);
    tool.(
      id := if call.Get("id").IsText() then call.Get("id").s else tool.id,
      name := if function_.Get("name").IsText() then function_.Get("name").s else tool.name,
      fragments := if function_.Get("arguments").IsText() then tool.fragments + [function_.Get("arguments").s]
                   else tool.fragments)
  }

  function AbsorbCall(tools: seq<Tool>, call: Json): seq<Tool> {
    if !call.Obj? then tools
    else
      var i := Position(tools, CallIndex(call));
      var known := if i < |tools| then tools else tools + [Tool(CallIndex(call), "", "", [])];
      known[i := UpdatedTool(known[i], call)]
  }

  function AbsorbCalls(tools: seq<Tool>, calls: seq<Json>): seq<Tool>
    decreases |calls|
  {
    if calls == [] then tools else AbsorbCalls(AbsorbCall(tools, calls[0]), calls[1..])
  }

  function CallsOf(delta: Json): seq<Json> {
    if delta.Get("tool_calls").Arr? then delta.Get("tool_calls").items else []
  }

  function IsErrorFinish(finish: Json): bool {
    finish.Str? && Lower(Trim(finish.s)) == "error"
  }

  datatype Objection = Objection(detail: string, code: string)

  /** What a delta carries that an Anthropic stream cannot. */
  function ObjectionTo(delta: Json): Option<Objection> {
    if !delta.Get("audio").Null? then
      Some(Objection("upstream audio output cannot be represented as Anthropic content", "unsupported_stream_content"))
    else if !delta.Get("function_call").Null? then
      Some(Objection("legacy upstream function_call has no tool-call id to preserve", "unsupported_function_call"))
    else None
  }

  function FailChoice(c: Core, o: Objection): (r: (Core, seq<Event>, bool))
    ensures r.2 && r.0.failed && r.0.closed == c.closed && r.0.hasText == c.hasText
    ensures |r.1| == 1 && r.1[0].StreamError?
  {
    var (c1, out) := Fail(c, o.detail, o.code);
    (c1, out, true)
  }

  /** The finish reason and the matched stop sequence of a choice. */
  function NoteEnd(c: Core, choice: Json): (r: (Core, seq<Event>, bool))
    ensures r.0.closed == c.closed && r.0.hasText == c.hasText
    ensures if r.2 then r.0.failed && |r.1| == 1 && r.1[0].StreamError? else r.0.failed == c.failed && r.1 == []
  {
    var finish := choice.Get("finish_reason");
    if IsErrorFinish(finish) then
      FailChoice(c, Objection("upstream response ended with an error finish reason", "upstream_finish_error"))
    else
      var explicit := choice.Get("stop_sequence").Or(choice.Get("matched_stop"));
      (c.(finish := if finish.Str? then Some(finish.s) else c.finish,
          explicitStop := if explicit.Str? then Some(explicit.s) else c.explicitStop), [], false)
  }

  /** The part of a choice that comes after its text; the flag says that the choice failed the stream. */
  function AfterText(c: Core, choice: Json): (r: (Core, seq<Event>, bool))
    ensures r.0.closed == c.closed && r.0.hasText == c.hasText
    ensures if r.2 then r.0.failed && |r.1| == 1 && r.1[0].StreamError? else r.0.failed == c.failed && r.1 == []
  {
    var delta := DeltaOf(choice);
    match ObjectionTo(delta)
    case Some(o) => FailChoice(c, o)
    case None => NoteEnd(c.(tools := AbsorbCalls(c.tools, CallsOf(delta))), choice)
  }

  function Choice(c: Core, choice: Json): (Core, seq<Event>, bool) {
    if !choice.Obj? then (c, [], false)
    else
      var content := ContentOf(DeltaOf(choice));
      if content.IsText() then
        var (c1, out) := AppendText(c, content.s);
        var (c2, more, failed) := AfterText(c1, choice);
        (c2, out + more, failed)
      else if !content.Null? && content != Str("") then
        FailChoice(c, Objection("upstream stream contains unsupported content blocks", "unsupported_stream_content"))
      else AfterText(c, choice)
  }

  /** The choices in order; the first one that fails ends the chunk. */
  function Choices(c: Core, choices: seq<Json>): (Core, seq<Event>)
    decreases |choices|
  {
    if choices == [] then (c, [])
    else
      var (c1, out, failed) := Choice(c, choices[0]);
      if failed then (c1, out)
      else
        var (c2, outs) := Choices(c1, choices[1..]);
        (c2, out + outs)
  }

  function Chunk(c: Core, payload: Json): (Core, seq<Event>) {
    var c1 := if payload.Get("usage").Obj? then c.(usage := payload.Get("usage")) else c;
    if payload.Get("choices").Arr? then Choices(c1, payload.Get("choices").items) else (c1, [])
  }

  // ---------------------------------------------------------------------------------------------
  // The end of the stream
  // ---------------------------------------------------------------------------------------------

  /** What is wrong with the first tool, in insertion order, that cannot be emitted. */
  function BrokenTool(codec: Codec, tools: seq<Tool>): Option<string>
    decreases |tools|
  {
    if tools == [] then None
    else if tools[0].id == "" || tools[0].name == "" then Some("tool call ended without an id and name")
    else
      var arguments := Join(tools[0].fragments);
      var parsed := codec.parse(if arguments == "" then "{}" else arguments);
      if parsed.None? then Some("tool arguments ended before a complete JSON object was received")
      else if !parsed.value.Obj? then Some("tool arguments must be a JSON object")
      else BrokenTool(codec, tools[1..])
  }

  predicate ByIndex(a: Tool, b: Tool) {
    a.index <= b.index
  }

  /** `sorted(self._tools)`. */
  function Sorted(tools: seq<Tool>): seq<Tool> {
    Sorting.Sort(ByIndex, tools)
  }

  function Fragments(index: nat, fragments: seq<string>): seq<Event>
    decreases |fragments|
  {
    if fragments == [] then [] else [JsonDelta(index, fragments[0])] + Fragments(index, fragments[1..])
  }

  function ToolEvents(index: nat, tool: Tool): seq<Event> {
    [BlockStart(index, ToolUseBlock(tool.id, tool.name))] + (Fragments(index, tool.fragments) + [BlockStop(index)])
  }

  function AllToolEvents(index: nat, tools: seq<Tool>): seq<Event>
    decreases |tools|
  {
    if tools == [] then [] else ToolEvents(index, tools[0]) + AllToolEvents(index + 1, tools[1..])
  }

  function TextEnd(c: Core): seq<Event> {
    if c.hasText then [BlockStop(0)] else []
  }

  function Closing(p: Setup, c: Core): seq<Event> {
    var finish := if c.finish.Some? then Str(c.finish.value) else Null;
    var explicit := if c.explicitStop.Some? then Str(c.explicitStop.value) else Null;
    var (reason, stop) := StopReason(finish, c.text, p.stops, explicit);
    [MessageDelta(reason, stop,
                  Tokens(p.codec, c.usage, "prompt_tokens"), Tokens(p.codec, c.usage, "completion_tokens")),
     MessageStop]
  }

  function Finish(p: Setup, c: Core): (Core, seq<Event>) {
    if c.closed || c.failed then (c, [])
    else
      match BrokenTool(p.codec, c.tools)
      case Some(detail) => Fail(c, detail, "invalid_tool_arguments")
      case None =>
        (c.(closed := true),
         TextEnd(c) + (AllToolEvents(if c.hasText then 1 else 0, Sorted(c.tools)) + Closing(p, c)))
  }

  // ---------------------------------------------------------------------------------------------
  // Events and chunks
  // ---------------------------------------------------------------------------------------------

  /** `replace("\r\n", "\n").replace("\r", "\n")`. */
  function Normalized(s: string): string
    decreases |s|
  {
    if s == "" then ""
    else if StartsWith(s, "\r\n") then "\n" + Normalized(s[2..])
    else (if s[0] == '\r' then "\n" else [s[0]]) + Normalized(s[1..])
  }

  function DataLines(lines: seq<string>): seq<string>
    decreases |lines|
  {
    if lines == [] then []
    else if StartsWith(lines[0], "data:") then [TrimLeft(lines[0][5..])] + DataLines(lines[1..])
    else DataLines(lines[1..])
  }

  function Data(codec: Codec, raw: Bytes): string {
    JoinWith("\n", DataLines(SplitOn(Normalized(codec.decode(raw)), '\n')))
  }

  function OnEvent(p: Setup, c: Core, raw: Bytes): (Core, seq<Event>) {
    var data := Data(p.codec, raw);
    if data == "" then (c, [])
    else if Trim(data) == "[DONE]" then Finish(p, c)
    else
      match p.codec.parse(data)
      case None => Fail(c, "upstream returned malformed SSE JSON", "invalid_sse")
      case Some(payload) =>
        if payload.Get("error").Obj? then
          var message := payload.Get("error").Get("message");
          var detail := if message.Truthy() then p.codec.text(message) else "upstream stream failed";
          (c.(failed := true, errorCode := Some("upstream_stream_error"), errorDetail := Some(Take(detail, 2000))), [])
        else if !payload.Obj? then (c, [])
        else Chunk(c, payload)
  }

  function Greeting(p: Setup): seq<Event> {
    [MessageStart(MessageId(p.requestId), p.model, 0), Ping]
  }

  predicate Terminal(c: Core) {
    c.closed || c.failed
  }

  function Translator(p: Setup): Machine<Core, Event> {
    Machine(Greeting(p), (c: Core, raw: Bytes) => OnEvent(p, c, raw), Terminal)
  }

  // ---------------------------------------------------------------------------------------------
  // What every run emits
  // ---------------------------------------------------------------------------------------------

  /** A recogniser for the event streams a client can follow. */
  datatype Phase =
    Expecting | Greeted | Started | InText | Between(next: nat) | InTool(index: nat) | Summed | Ended | Refused

  function Accept(g: Phase, e: Event): Phase {
    match (g, e)
    case (Expecting, MessageStart(_, _, _)) => Greeted
    case (Greeted, Ping) => Started
    case (Started, BlockStart(0, TextBlock)) => InText
    case (Started, BlockStart(0, ToolUseBlock(_, _))) => InTool(0)
    case (Started, MessageDelta(_, _, _, _)) => Summed
    case (Started, StreamError(_, _)) => Ended
    case (InText, TextDelta(0, _)) => InText
    case (InText, BlockStop(0)) => Between(1)
    case (InText, StreamError(_, _)) => Ended
    case (Between(n), BlockStart(i, ToolUseBlock(_, _))) => if i == n then InTool(n) else Refused
    case (Between(_), MessageDelta(_, _, _, _)) => Summed
    case (InTool(n), JsonDelta(i, _)) => if i == n then InTool(n) else Refused
    case (InTool(n), BlockStop(i)) => if i == n then Between(n + 1) else Refused
    case (Summed, MessageStop) => Ended
    case _ => Refused
  }

  function AcceptAll(g: Phase, events: seq<Event>): Phase
    decreases |events|
  {
    if events == [] then g else AcceptAll(Accept(g, events[0]), events[1..])
  }

  lemma {:induction false} AcceptAppend(g: Phase, a: seq<Event>, b: seq<Event>)
    ensures AcceptAll(g, a + b) == AcceptAll(AcceptAll(g, a), b)
    decreases |a|
  {
    if a == [] {
      assert a + b == b;
    } else {
      assert (a + b)[0] == a[0] && (a + b)[1..] == a[1..] + b;
      AcceptAppend(Accept(g, a[0]), a[1..], b);
    }
  }

  /** Where the recogniser is when the translator has not stopped. */
  function PhaseOf(c: Core): Phase {
    if c.hasText then InText else Started
  }

  lemma {:induction false} AcceptOne(g: Phase, e: Event)
    ensures AcceptAll(g, [e]) == Accept(g, e)
  {
    assert [e][1..] == [];
  }

  lemma {:induction false} RefusedForGood(events: seq<Event>)
    ensures AcceptAll(Refused, events) == Refused
    decreases |events|
  {
    if events != [] {
      RefusedForGood(events[1..]);
    }
  }

  /** The output has come to its stop or to its error. */
  predicate Ends(output: seq<Event>) {
    output != [] && (output[|output| - 1].MessageStop? || output[|output| - 1].StreamError?)
  }

  /** The recogniser goes along with the translator until the output ends. */
  predicate Lands(c: Core, output: seq<Event>, c1: Core) {
    AcceptAll(PhaseOf(c), output) == if Ends(output) then Ended else PhaseOf(c1)
  }

  lemma {:induction false} LandsAppend(c: Core, out: seq<Event>, c1: Core, more: seq<Event>, c2: Core)
    requires !Ends(out) && Lands(c, out, c1) && Lands(c1, more, c2)
    ensures Lands(c, out + more, c2) && (Ends(out + more) <==> Ends(more))
  {
    AcceptAppend(PhaseOf(c), out, more);
    if more == [] {
      assert out + more == out;
    }
  }

  /** A step that says nothing, or that fails with one error, follows. */
  lemma {:induction false} StepFollows(c: Core, r: (Core, seq<Event>, bool))
    requires r.0.closed == c.closed && r.0.hasText == c.hasText
    requires if r.2 then |r.1| == 1 && r.1[0].StreamError? else r.1 == []
    ensures Lands(c, r.1, r.0) && (r.2 <==> Ends(r.1))
  {
    if r.2 {
      assert r.1 == [r.1[0]];
      AcceptOne(PhaseOf(c), r.1[0]);
    }
  }

  lemma {:induction false} AppendTextFollows(c: Core, text: string)
    ensures var (c1, out) := AppendText(c, text);
            Lands(c, out, c1) && !Ends(out)
  {
    var delta := TextDelta(0, text);
    AcceptOne(InText, delta);
    if c.hasText {
      assert [] + [delta] == [delta];
    } else {
      AcceptOne(Started, BlockStart(0, TextBlock));
      AcceptAppend(Started, [BlockStart(0, TextBlock)], [delta]);
    }
  }

  /** What a choice leaves and says, as far as the recogniser is concerned. */
  predicate ChoiceLands(c: Core, r: (Core, seq<Event>, bool)) {
    && Lands(c, r.1, r.0) && r.0.closed == c.closed
    && (r.2 <==> Ends(r.1)) && (r.2 ==> r.0.failed)
  }

  lemma {:induction false} AfterTextFollows(c: Core, choice: Json)
    ensures ChoiceLands(c, AfterText(c, choice))
  {
    StepFollows(c, AfterText(c, choice));
  }

  lemma {:induction false} FailFollows(c: Core, o: Objection)
    ensures ChoiceLands(c, FailChoice(c, o))
  {
    StepFollows(c, FailChoice(c, o));
  }

  lemma {:induction false} TextFollows(c: Core, text: string, choice: Json)
    ensures var (c1, out) := AppendText(c, text);
            var (c2, more, failed) := AfterText(c1, choice);
            ChoiceLands(c, (c2, out + more, failed))
  {
    var (c1, out) := AppendText(c, text);
    AppendTextFollows(c, text);
    AfterTextFollows(c1, choice);
    LandsAppend(c, out, c1, AfterText(c1, choice).1, AfterText(c1, choice).0);
  }

  lemma {:induction false} ChoiceFollows(c: Core, choice: Json)
    ensures ChoiceLands(c, Choice(c, choice))
  {
    if choice.Obj? {
      var content := ContentOf(DeltaOf(choice));
      if content.IsText() {
        TextFollows(c, content.s, choice);
      } else if !content.Null? && content != Str("") {
        FailFollows(c, Objection("upstream stream contains unsupported content blocks", "unsupported_stream_content"));
      } else {
        AfterTextFollows(c, choice);
      }
    }
  }

  lemma {:induction false} ChoicesFollow(c: Core, choices: seq<Json>)
    ensures var (c1, out) := Choices(c, choices);
            Lands(c, out, c1) && c1.closed == c.closed && (Ends(out) ==> c1.failed)
    decreases |choices|
  {
    if choices != [] {
      var (c1, out, failed) := Choice(c, choices[0]);
      ChoiceFollows(c, choices[0]);
      if !failed {
        ChoicesFollow(c1, choices[1..]);
        LandsAppend(c, out, c1, Choices(c1, choices[1..]).1, Choices(c1, choices[1..]).0);
      }
    }
  }

  lemma {:induction false} FragmentsFollow(index: nat, fragments: seq<string>)
    ensures AcceptAll(InTool(index), Fragments(index, fragments)) == InTool(index)
    decreases |fragments|
  {
    if fragments != [] {
      var d := JsonDelta(index, fragments[0]);
      AcceptAppend(InTool(index), [d], Fragments(index, fragments[1..]));
      AcceptOne(InTool(index), d);
      FragmentsFollow(index, fragments[1..]);
    }
  }

  lemma {:induction false} ToolFollows(g: Phase, index: nat, tool: Tool)
    requires g == Between(index) || (g == Started && index == 0)
    ensures AcceptAll(g, ToolEvents(index, tool)) == Between(index + 1)
  {
    var start := BlockStart(index, ToolUseBlock(tool.id, tool.name));
    AcceptAppend(g, [start], Fragments(index, tool.fragments) + [BlockStop(index)]);
    AcceptOne(g, start);
    AcceptAppend(InTool(index), Fragments(index, tool.fragments), [BlockStop(index)]);
    FragmentsFollow(index, tool.fragments);
    AcceptOne(InTool(index), BlockStop(index));
  }

  lemma {:induction false} ToolsFollow(g: Phase, index: nat, tools: seq<Tool>)
    requires g == Between(index) || (g == Started && index == 0)
    ensures AcceptAll(g, AllToolEvents(index, tools)) == if tools == [] then g else Between(index + |tools|)
    decreases |tools|
  {
    if tools != [] {
      ToolFollows(g, index, tools[0]);
      AcceptAppend(g, ToolEvents(index, tools[0]), AllToolEvents(index + 1, tools[1..]));
      ToolsFollow(Between(index + 1), index + 1, tools[1..]);
    }
  }

  lemma {:induction false} ClosingFollows(p: Setup, c: Core, g: Phase)
    requires g == Started || g.Between?
    ensures AcceptAll(g, Closing(p, c)) == Ended
  {
    var closing := Closing(p, c);
    AcceptAppend(g, [closing[0]], [closing[1]]);
    assert closing == [closing[0]] + [closing[1]];
    AcceptOne(g, closing[0]);
    AcceptOne(Summed, MessageStop);
  }

  lemma {:induction false} EmitFollows(p: Setup, c: Core)
    ensures var out := TextEnd(c) + (AllToolEvents(if c.hasText then 1 else 0, Sorted(c.tools)) + Closing(p, c));
            AcceptAll(PhaseOf(c), out) == Ended && Ends(out)
  {
    var index := if c.hasText then 1 else 0;
    var tools := AllToolEvents(index, Sorted(c.tools));
    var g := if c.hasText then Between(1) else Started;
    if c.hasText {
      AcceptOne(InText, BlockStop(0));
    }
    assert AcceptAll(PhaseOf(c), TextEnd(c)) == g;
    ToolsFollow(g, index, Sorted(c.tools));
    ClosingFollows(p, c, AcceptAll(g, tools));
    AcceptAppend(g, tools, Closing(p, c));
    AcceptAppend(PhaseOf(c), TextEnd(c), tools + Closing(p, c));
  }

  lemma {:induction false} FinishFollows(p: Setup, c: Core)
    requires !c.closed
    ensures var (c1, out) := Finish(p, c);
            Lands(c, out, c1) && (c1.closed ==> Ends(out)) && (Ends(out) ==> Terminal(c1))
  {
    if !c.failed {
      match BrokenTool(p.codec, c.tools)
      case Some(detail) => AcceptOne(PhaseOf(c), StreamError("invalid_tool_arguments", Take(detail, 2000)));
      case None => EmitFollows(p, c);
    }
  }

  lemma {:induction false} OnEventFollows(p: Setup, c: Core, raw: Bytes)
    requires !c.closed
    ensures var (c1, out) := OnEvent(p, c, raw);
            Lands(c, out, c1) && (c1.closed ==> Ends(out)) && (Ends(out) ==> Terminal(c1))
  {
    var data := Data(p.codec, raw);
    if data != "" {
      if Trim(data) == "[DONE]" {
        FinishFollows(p, c);
      } else if p.codec.parse(data).None? {
        AcceptOne(PhaseOf(c), StreamError("invalid_sse", Take("upstream returned malformed SSE JSON", 2000)));
      } else {
        var payload := p.codec.parse(data).value;
        if payload.Obj? && !payload.Get("error").Obj? && payload.Get("choices").Arr? {
          var c1 := if payload.Get("usage").Obj? then c.(usage := payload.Get("usage")) else c;
          ChoicesFollow(c1, payload.Get("choices").items);
        }
      }
    }
  }

  /** Once the output has come to its stop or to its error, no event says anything. */
  predicate QuietAfterEnd(p: Setup, c: Core, ended: bool, events: seq<Bytes>)
    decreases |events|
  {
    events == [] ||
    var (c1, out) := OnEvent(p, c, events[0]);
    && (ended ==> out == [])
    && QuietAfterEnd(p, c1, ended || Ends(out), events[1..])
  }

  lemma {:induction false} ProcessFollows(p: Setup, c: Core, ended: bool, events: seq<Bytes>)
    requires c.closed ==> ended
    ensures AcceptAll(if ended then Ended else PhaseOf(c), Process(Translator(p), c, events).1) != Refused <==>
            QuietAfterEnd(p, c, ended, events)
    decreases |events|
  {
    if events != [] {
      var (c1, out) := OnEvent(p, c, events[0]);
      var outs := Process(Translator(p), c1, events[1..]).1;
      if !ended {
        OnEventFollows(p, c, events[0]);
        AcceptAppend(PhaseOf(c), out, outs);
        ProcessFollows(p, c1, Ends(out), events[1..]);
      } else if out != [] {
        EndedRefuses(out, outs);
      } else {
        assert out + outs == outs;
        ProcessFollows(p, c1, true, events[1..]);
      }
    }
  }

  lemma {:induction false} EndedRefuses(out: seq<Event>, outs: seq<Event>)
    requires out != []
    ensures AcceptAll(Ended, out + outs) == Refused
  {
    assert (out + outs)[0] == out[0];
    RefusedForGood((out + outs)[1..]);
  }

  lemma {:induction false} GreetingFollows(p: Setup)
    ensures AcceptAll(Expecting, Greeting(p)) == Started
  {
    var greeting := Greeting(p);
    assert greeting == [greeting[0]] + [greeting[1]];
    AcceptAppend(Expecting, [greeting[0]], [greeting[1]]);
    AcceptOne(Expecting, greeting[0]);
    AcceptOne(Greeted, greeting[1]);
  }

  lemma {:induction false} ReadingFollows(p: Setup, stream: Bytes)
    ensures AcceptAll(Expecting, Read(Translator(p), INITIAL, stream).outs) != Refused <==>
            QuietAfterEnd(p, INITIAL, false, Split(stream).events)
  {
    var m := Translator(p);
    if stream == [] {
      assert Split(stream) == Framed([], []);
      assert Read(m, INITIAL, stream).outs == [];
    } else {
      GreetingFollows(p);
      AcceptAppend(Expecting, Greeting(p), Process(m, INITIAL, Split(stream).events).1);
      ProcessFollows(p, INITIAL, false, Split(stream).events);
    }
  }

  predicate IsAccepted(p: Setup, chunks: seq<Bytes>) {
    AcceptAll(Expecting, FeedAll(Translator(p), Fresh(INITIAL), chunks).1) != Refused
  }

  /**
    A run emits a prefix of: start, ping, at most one text block at index 0, tool blocks at consecutive
    indices, delta, stop; or such a prefix that ends with one error; and nothing after that.  All ways of
    cutting the stream do so exactly when no event says anything after the one that ended the output.
   */
  lemma {:induction false} EveryRunIsAccepted(p: Setup, stream: Bytes)
    ensures (forall chunks :: Concat(chunks) == stream ==> IsAccepted(p, chunks)) <==>
            QuietAfterEnd(p, INITIAL, false, Split(stream).events)
  {
    var m := Translator(p);
    ReadingFollows(p, stream);
    OnePieceSaysAll(m, INITIAL, stream);
    assert IsAccepted(p, [stream]) <==> QuietAfterEnd(p, INITIAL, false, Split(stream).events);
    if QuietAfterEnd(p, INITIAL, false, Split(stream).events) {
      forall chunks | Concat(chunks) == stream ensures IsAccepted(p, chunks) {
        var outs := FeedAll(m, Fresh(INITIAL), chunks).1;
        var rest := ChunksSayPrefix(m, INITIAL, chunks);
        AcceptAppend(Expecting, outs, rest);
        RefusedForGood(rest);
      }
    }
  }

  /** An inert tail is quiet. */
  lemma {:induction false} InertIsQuiet(p: Setup, c: Core, ended: bool, events: seq<Bytes>)
    requires ended ==> Terminal(c)
    requires TailIsInert(Translator(p), c, events)
    ensures QuietAfterEnd(p, c, ended, events)
    decreases |events|
  {
    if events != [] {
      var (c1, out) := OnEvent(p, c, events[0]);
      assert Translator(p).step(c, events[0]) == (c1, out);
      if !Terminal(c) {
        OnEventFollows(p, c, events[0]);
      }
      InertIsQuiet(p, c1, ended || Ends(out), events[1..]);
    }
  }

  /** Once closed or failed, the translator stays so. */
  lemma {:induction false} TerminalForGood(p: Setup)
    ensures StopsForGood(Translator(p))
  {
    forall c: Core, raw: Bytes | Terminal(c) ensures Terminal(OnEvent(p, c, raw).0) {
      var data := Data(p.codec, raw);
      if data != "" && Trim(data) != "[DONE]" && p.codec.parse(data).Some? {
        var payload := p.codec.parse(data).value;
        if payload.Obj? && payload.Get("choices").Arr? {
          var c1 := if payload.Get("usage").Obj? then c.(usage := payload.Get("usage")) else c;
          TerminalThroughChoices(c1, payload.Get("choices").items);
        }
      }
    }
  }

  lemma {:induction false} TerminalThroughChoice(c: Core, choice: Json)
    requires Terminal(c)
    ensures Terminal(Choice(c, choice).0)
  {
  }

  lemma {:induction false} TerminalThroughChoices(c: Core, choices: seq<Json>)
    requires Terminal(c)
    ensures Terminal(Choices(c, choices).0)
    decreases |choices|
  {
    if choices != [] {
      TerminalThroughChoice(c, choices[0]);
      TerminalThroughChoices(Choice(c, choices[0]).0, choices[1..]);
    }
  }

  /** For the translator: chunking is invisible exactly when every event after the terminal one is inert. */
  lemma {:induction false} TranslatorChunksExactly(p: Setup, stream: Bytes)
    ensures ChunksDoNotMatter(Translator(p), INITIAL, stream) <==>
            TailIsInert(Translator(p), INITIAL, Split(stream).events)
  {
    TerminalForGood(p);
    ChunksDoNotMatterExactly(Translator(p), INITIAL, stream);
  }

  // ---------------------------------------------------------------------------------------------
  // Which choices the translator accepts, by their fields
  // ---------------------------------------------------------------------------------------------

  predicate IsLetter(c: char, lower: char, upper: char) {
    c == lower || c == upper
  }

  /** At `i` stands the word `error`, in any case. */
  predicate ErrorAt(s: string, i: nat) {
    && i + 5 <= |s|
    && IsLetter(s[i], 'e', 'E') && IsLetter(s[i + 1], 'r', 'R') && IsLetter(s[i + 2], 'r', 'R')
    && IsLetter(s[i + 3], 'o', 'O') && IsLetter(s[i + 4], 'r', 'R')
  }

  predicate OnlySpaceOutside(s: string, i: nat, j: nat) {
    forall k :: 0 <= k < |s| && !(i <= k < j) ==> IsSpace(s[k])
  }

  /** It stands alone between white space. */
  ghost predicate SaysError(s: string) {
    exists i: nat :: ErrorAt(s, i) && OnlySpaceOutside(s, i, i + 5)
  }

  lemma {:induction false} LowerIsError(word: string)
    ensures Lower(word) == "error" <==> |word| == 5 && ErrorAt(word, 0)
  {
    if |word| == 5 {
      assert Lower(word) == [LowerChar(word[0]), LowerChar(word[1]), LowerChar(word[2]), LowerChar(word[3]),
          LowerChar(word[4])];
      assert "error" == ['e', 'r', 'r', 'o', 'r'];
    }
  }

  lemma {:induction false} ErrorFinishExactly(s: string)
    ensures IsErrorFinish(Str(s)) <==> SaysError(s)
  {
    var i, j := TrimIsCore(s);
    LowerIsError(s[i..j]);
    if SaysError(s) {
      var k: nat :| ErrorAt(s, k) && OnlySpaceOutside(s, k, k + 5);
      CoreIsTrimmed(s, k, k + 5);
      LowerIsError(s[k..k + 5]);
    }
    if IsErrorFinish(Str(s)) {
      assert ErrorAt(s, i) && OnlySpaceOutside(s, i, i + 5);
    }
  }

  /** The part of a choice that says something new: its delta, or its message where there is none. */
  predicate IsDelta(choice: Json, delta: Json) {
    if choice.Get("delta").Obj? then delta == choice.Get("delta")
    else if choice.Get("message").Obj? then delta == choice.Get("message")
    else delta == Obj(map[])
  }

  /** Content that is no text; nothing at all is no content, and a refusal can stand in for it. */
  predicate OddContent(delta: Json) {
    var content := delta.Get("content");
    && !content.Null? && !content.Str?
    && (content in {Bool(false), Int(0), Real(0.0), Arr([]), Obj(map[])} ==> !delta.Get("refusal").Str?)
  }

  /** Why a choice with this delta fails the stream, if it does. */
  ghost function SpoiledBy(choice: Json, delta: Json): Option<Objection> {
    if OddContent(delta) then
      Some(Objection("upstream stream contains unsupported content blocks", "unsupported_stream_content"))
    else if !delta.Get("audio").Null? then
      Some(Objection("upstream audio output cannot be represented as Anthropic content", "unsupported_stream_content"))
    else if !delta.Get("function_call").Null? then
      Some(Objection("legacy upstream function_call has no tool-call id to preserve", "unsupported_function_call"))
    else if choice.Get("finish_reason").Str? && SaysError(choice.Get("finish_reason").s) then
      Some(Objection("upstream response ended with an error finish reason", "upstream_finish_error"))
    else None
  }

  predicate IsTold(c: Core, o: Option<Objection>) {
    o.Some? && c.errorCode == Some(o.value.code) && c.errorDetail == Some(o.value.detail)
  }

  ghost predicate Spoils(choice: Json) {
    choice.Obj? && exists delta :: IsDelta(choice, delta) && SpoiledBy(choice, delta).Some?
  }

  lemma {:induction false} ContentPasses(delta: Json)
    ensures var content := ContentOf(delta);
            OddContent(delta) <==> !content.IsText() && !content.Null? && content != Str("")
  {
  }

  lemma {:induction false} NoteEndFailsExactly(c: Core, choice: Json)
    ensures var finish, (c1, out, failed) := choice.Get("finish_reason"), NoteEnd(c, choice);
            && (failed <==> finish.Str? && SaysError(finish.s))
            && (failed ==> c1.errorCode == Some("upstream_finish_error") &&
                           c1.errorDetail == Some("upstream response ended with an error finish reason"))
  {
    if choice.Get("finish_reason").Str? {
      ErrorFinishExactly(choice.Get("finish_reason").s);
    }
  }

  lemma {:induction false} AfterTextFailsExactly(c: Core, choice: Json)
    requires !OddContent(DeltaOf(choice))
    ensures var (c1, out, failed) := AfterText(c, choice);
            && (failed <==> SpoiledBy(choice, DeltaOf(choice)).Some?)
            && (failed ==> IsTold(c1, SpoiledBy(choice, DeltaOf(choice))))
  {
    var delta := DeltaOf(choice);
    if ObjectionTo(delta).None? {
      NoteEndFailsExactly(c.(tools := AbsorbCalls(c.tools, CallsOf(delta))), choice);
    }
  }

  /** The text of a choice does not fail it. */
  lemma {:induction false} ChoiceFailsAs(c: Core, choice: Json)
    requires choice.Obj?
    ensures var (c1, out, failed) := Choice(c, choice);
            && (failed <==> SpoiledBy(choice, DeltaOf(choice)).Some?)
            && (failed ==> IsTold(c1, SpoiledBy(choice, DeltaOf(choice))))
  {
    var delta := DeltaOf(choice);
    ContentPasses(delta);
    if !OddContent(delta) {
      AfterTextFailsExactly(if ContentOf(delta).IsText() then AppendText(c, ContentOf(delta).s).0 else c, choice);
    }
  }

  lemma {:induction false} DeltaIsDelta(choice: Json)
    ensures forall delta :: IsDelta(choice, delta) <==> delta == DeltaOf(choice)
  {
  }

  /** A choice fails the stream exactly when it is spoiled, and the error names the reason. */
  lemma {:induction false} ChoiceFailsExactly(c: Core, choice: Json)
    ensures Choice(c, choice).2 <==> Spoils(choice)
    ensures forall delta :: Choice(c, choice).2 && IsDelta(choice, delta) ==>
              IsTold(Choice(c, choice).0, SpoiledBy(choice, delta))
  {
    DeltaIsDelta(choice);
    if choice.Obj? {
      ChoiceFailsAs(c, choice);
      assert IsDelta(choice, DeltaOf(choice));
    }
  }

  /** A payload fails the stream exactly when one of its choices is spoiled. */
  ghost predicate SpoilsIn(payload: Json) {
    && payload.Get("choices").Arr?
    && exists i :: 0 <= i < |payload.Get("choices").items| && Spoils(payload.Get("choices").items[i])
  }

  lemma {:induction false} ChoicesFailExactly(c: Core, choices: seq<Json>)
    requires !c.failed
    ensures Choices(c, choices).0.failed <==> exists i :: 0 <= i < |choices| && Spoils(choices[i])
    decreases |choices|
  {
    if choices != [] {
      ChoiceFailsExactly(c, choices[0]);
      var (c1, out, failed) := Choice(c, choices[0]);
      ChoiceKeepsFailed(c, choices[0]);
      if !failed {
        ChoicesFailExactly(c1, choices[1..]);
        assert forall i :: 1 <= i < |choices| ==> choices[i] == choices[1..][i - 1];
      }
    }
  }

  lemma {:induction false} ChoiceKeepsFailed(c: Core, choice: Json)
    requires !c.failed
    ensures Choice(c, choice).0.failed <==> Choice(c, choice).2
  {
  }

  lemma {:induction false} ChunkFailsExactly(c: Core, payload: Json)
    requires !c.failed
    ensures Chunk(c, payload).0.failed <==> SpoilsIn(payload)
  {
    var c1 := if payload.Get("usage").Obj? then c.(usage := payload.Get("usage")) else c;
    if payload.Get("choices").Arr? {
      ChoicesFailExactly(c1, payload.Get("choices").items);
    }
  }

  /** The tool has no id, no name, or arguments that are not an object; none at all are an empty one. */
  ghost predicate IsBroken(codec: Codec, tool: Tool) {
    var spelled := Join(tool.fragments);
    || tool.id == "" || tool.name == ""
    || (spelled != "" && (codec.parse(spelled).None? || !codec.parse(spelled).value.Obj?))
    || (spelled == "" && (codec.parse("{}").None? || !codec.parse("{}").value.Obj?))
  }

  lemma {:induction false} BrokenExactly(codec: Codec, tools: seq<Tool>)
    ensures BrokenTool(codec, tools).Some? <==> exists i :: 0 <= i < |tools| && IsBroken(codec, tools[i])
    ensures forall i :: IsFirstBroken(codec, tools, i) ==> BrokenTool(codec, tools) == Some(Trouble(codec, tools[i]))
    decreases |tools|
  {
    if tools != [] {
      BrokenExactly(codec, tools[1..]);
      assert forall i :: 1 <= i < |tools| ==> tools[i] == tools[1..][i - 1];
      forall i | IsFirstBroken(codec, tools, i) && i > 0 ensures IsFirstBroken(codec, tools[1..], i - 1) {
      }
    }
  }

  ghost predicate IsFirstBroken(codec: Codec, tools: seq<Tool>, i: int) {
    0 <= i < |tools| && IsBroken(codec, tools[i]) && forall j :: 0 <= j < i ==> !IsBroken(codec, tools[j])
  }

  /** What is said of a broken tool. */
  ghost function Trouble(codec: Codec, tool: Tool): string {
    var spelled := Join(tool.fragments);
    if tool.id == "" || tool.name == "" then "tool call ended without an id and name"
    else if codec.parse(if spelled == "" then "{}" else spelled).None? then
      "tool arguments ended before a complete JSON object was received"
    else "tool arguments must be a JSON object"
  }

  /** The event says that the stream is done. */
  ghost predicate SaysDone(data: string) {
    exists i: nat, j: nat :: IsCore(data, i, j) && data[i..j] == "[DONE]"
  }

  lemma {:induction false} DoneExactly(data: string)
    ensures Trim(data) == "[DONE]" <==> SaysDone(data)
  {
    var i, j := TrimIsCore(data);
    if SaysDone(data) {
      var k: nat, l: nat :| IsCore(data, k, l) && data[k..l] == "[DONE]";
      CoreIsTrimmed(data, k, l);
    }
  }

  /** The message of an error, cut, or a text for an error without one. */
  function ErrorSays(codec: Codec, message: Json): string {
    if IsFalsy(message) then "upstream stream failed"
    else if |codec.text(message)| <= 2000 then codec.text(message)
    else codec.text(message)[..2000]
  }

  /** An event fails the translator exactly when it is done with a broken tool, no JSON, an error or spoiled. */
  lemma {:induction false} EventFailsExactly(p: Setup, c: Core, raw: Bytes)
    requires !Terminal(c)
    ensures var data, (c1, out) := Data(p.codec, raw), OnEvent(p, c, raw);
            var payload := p.codec.parse(data);
            if data == "" then c1 == c && out == []
            else if SaysDone(data) then
              && (c1.failed <==> exists i :: 0 <= i < |c.tools| && IsBroken(p.codec, c.tools[i]))
              && (c1.failed ==> c1.errorCode == Some("invalid_tool_arguments"))
              && (forall i :: IsFirstBroken(p.codec, c.tools, i) ==>
                    c1.errorDetail == Some(Trouble(p.codec, c.tools[i])))
              && (c1.closed <==> !c1.failed)
            else if payload.None? then
              && c1.failed && c1.errorCode == Some("invalid_sse")
              && out == [StreamError("invalid_sse", "upstream returned malformed SSE JSON")]
            else if !payload.value.Obj? then c1 == c && out == []
            else if payload.value.Get("error").Obj? then
              && c1.failed && c1.errorCode == Some("upstream_stream_error") && out == []
              && c1.errorDetail == Some(ErrorSays(p.codec, payload.value.Get("error").Get("message")))
            else c1.failed <==> SpoilsIn(payload.value)
  {
    var data := Data(p.codec, raw);
    DoneExactly(data);
    BrokenExactly(p.codec, c.tools);
    if p.codec.parse(data).Some? {
      var payload := p.codec.parse(data).value;
      FalsyExactly(payload.Get("error").Get("message"));
      ChunkFailsExactly(c, payload);
    }
  }

  /** A failure says its code and the first 2000 characters of the detail. */
  lemma {:induction false} FailSays(c: Core, detail: string, code: string)
    ensures var cut := if |detail| <= 2000 then detail else detail[..2000];
            Fail(c, detail, code) ==
            (c.(failed := true, errorCode := Some(code), errorDetail := Some(cut)), [StreamError(code, cut)])
  {
  }

  // ---------------------------------------------------------------------------------------------
  // What an event of the stream says, by its lines
  // ---------------------------------------------------------------------------------------------

  predicate IsPlainLine(line: string) {
    '\r' !in line && '\n' !in line
  }

  predicate ArePlainLines(lines: seq<string>) {
    forall i :: 0 <= i < |lines| ==> IsPlainLine(lines[i])
  }

  /** What a data line says after the field name, without white space before it. */
  function SaidOn(line: string): seq<string> {
    if |line| >= 5 && line[0] == 'd' && line[1] == 'a' && line[2] == 't' && line[3] == 'a' && line[4] == ':'
    then [TrimLeft(line[5..])] else []
  }

  function SaidOnAll(lines: seq<string>): seq<string>
    decreases |lines|
  {
    if lines == [] then [] else SaidOnAll(lines[..|lines| - 1]) + SaidOn(lines[|lines| - 1])
  }

  lemma {:induction false} DataLineExactly(line: string)
    ensures (if StartsWith(line, "data:") then [TrimLeft(line[5..])] else []) == SaidOn(line)
  {
    if |line| >= 5 {
      assert line[..5] == [line[0], line[1], line[2], line[3], line[4]];
      assert "data:" == ['d', 'a', 't', 'a', ':'];
    }
  }

  lemma {:induction false} DataLinesExactly(lines: seq<string>)
    ensures DataLines(lines) == SaidOnAll(lines)
    decreases |lines|
  {
    if lines != [] {
      var init, last := lines[..|lines| - 1], lines[|lines| - 1];
      assert lines == init + [last];
      DataLinesExactly(init);
      DataLinesSnoc(init, last);
    }
  }

  lemma {:induction false} DataLinesSnoc(lines: seq<string>, last: string)
    ensures DataLines(lines + [last]) == DataLines(lines) + SaidOn(last)
    decreases |lines|
  {
    DataLineExactly(last);
    if lines == [] {
      assert lines + [last] == [last] && [last][1..] == [];
      assert DataLines([last][1..]) == [];
      assert SaidOn(last) + [] == SaidOn(last);
    } else {
      assert (lines + [last])[0] == lines[0] && (lines + [last])[1..] == lines[1..] + [last];
      DataLinesSnoc(lines[1..], last);
    }
  }

  /** The line ends that a stream may use. */
  predicate IsLineEnd(end: string) {
    end == "\n" || end == "\r\n" || end == "\r"
  }

  lemma {:induction false} NormalizedLine(line: string, end: string, rest: string)
    requires IsPlainLine(line) && IsLineEnd(end) && (end == "\r" ==> !StartsWith(rest, "\n"))
    ensures Normalized(line + end + rest) == line + "\n" + Normalized(rest)
    decreases |line|
  {
    if line == "" {
      assert line + end + rest == end + rest;
      NormalizedEnd(end, rest);
    } else {
      var s := line + end + rest;
      assert s[0] == line[0] && s[1..] == line[1..] + end + rest;
      assert |s| >= 2 ==> s[..2][0] == s[0];
      NormalizedLine(line[1..], end, rest);
      assert line == [line[0]] + line[1..];
    }
  }

  lemma {:induction false} NormalizedEnd(end: string, rest: string)
    requires IsLineEnd(end) && (end == "\r" ==> !StartsWith(rest, "\n"))
    ensures Normalized(end + rest) == "\n" + Normalized(rest)
  {
    var s := end + rest;
    if end == "\r\n" {
      assert s[..2] == "\r\n" && s[2..] == rest;
    } else {
      assert s[1..] == rest && s[0] == end[0];
      assert |s| >= 2 ==> s[..2] == [s[0], s[1]] && s[1] == rest[0];
      assert |rest| >= 1 ==> rest[..1] == [rest[0]];
      assert !StartsWith(s, "\r\n");
    }
  }

  lemma {:induction false} NormalizedLines(lines: seq<string>, end: string)
    requires ArePlainLines(lines) && IsLineEnd(end)
    ensures Normalized(JoinWith(end, lines)) == JoinWith("\n", lines)
    decreases |lines|
  {
    if |lines| == 1 {
      NormalizedPlain(lines[0]);
    } else if |lines| > 1 {
      var rest := JoinWith(end, lines[1..]);
      NormalizedLines(lines[1..], end);
      if end == "\r" {
        NoLineFeed(lines[1..]);
      }
      NormalizedLine(lines[0], end, rest);
    }
  }

  lemma {:induction false} NoLineFeed(lines: seq<string>)
    requires ArePlainLines(lines)
    ensures '\n' !in JoinWith("\r", lines)
    decreases |lines|
  {
    if |lines| > 1 {
      NoLineFeed(lines[1..]);
    }
  }

  lemma {:induction false} SplitLine(line: string, rest: string)
    requires IsPlainLine(line)
    ensures SplitOn(line + "\n" + rest, '\n') == [line] + SplitOn(rest, '\n')
    decreases |line|
  {
    var s := line + "\n" + rest;
    if line == "" {
      assert s[0] == '\n' && s[1..] == rest;
    } else {
      assert s[0] == line[0] && s[1..] == line[1..] + "\n" + rest;
      SplitLine(line[1..], rest);
      assert line == [line[0]] + line[1..];
      assert ([line[1..]] + SplitOn(rest, '\n'))[1..] == SplitOn(rest, '\n');
    }
  }

  lemma {:induction false} SplitLines(lines: seq<string>)
    requires ArePlainLines(lines) && lines != []
    ensures SplitOn(JoinWith("\n", lines), '\n') == lines
    decreases |lines|
  {
    if |lines| == 1 {
      SplitOnPlain(lines[0], '\n');
    } else {
      SplitLines(lines[1..]);
      SplitLine(lines[0], JoinWith("\n", lines[1..]));
      assert lines == [lines[0]] + lines[1..];
    }
  }

  /** Whatever line ends an event uses, its data is what its data lines say, one below the other. */
  lemma {:induction false} DataExactly(codec: Codec, raw: Bytes, lines: seq<string>, end: string)
    requires ArePlainLines(lines) && lines != [] && IsLineEnd(end)
    requires codec.decode(raw) == JoinWith(end, lines)
    ensures Data(codec, raw) == JoinWith("\n", SaidOnAll(lines))
  {
    NormalizedLines(lines, end);
    SplitLines(lines);
    DataLinesExactly(lines);
  }

  // ---------------------------------------------------------------------------------------------
  // Where chunks show and a run is refused: an error after the end
  // ---------------------------------------------------------------------------------------------

  const DONE: Bytes := "data: [DONE]"
  const NO_JSON: Bytes := "data: x"

  /** The end, then an event that is not JSON. */
  const LATE_ERROR: Bytes := DONE + LF_LF + (NO_JSON + LF_LF)

  lemma {:induction false} NormalizedPlain(s: string)
    requires '\r' !in s
    ensures Normalized(s) == s
    decreases |s|
  {
    if s != "" {
      NormalizedPlain(s[1..]);
      assert |s| >= 2 ==> s[..2][0] == s[0];
      assert s == [s[0]] + s[1..];
    }
  }

  lemma {:induction false} SplitOnPlain(s: string, sep: char)
    requires sep !in s
    ensures SplitOn(s, sep) == [s]
    decreases |s|
  {
    if s != "" {
      SplitOnPlain(s[1..], sep);
      assert s == [s[0]] + s[1..];
    }
  }

  /** The data of an event that is one plain line. */
  lemma {:induction false} PlainData(codec: Codec, data: string)
    requires '\r' !in data && '\n' !in data && data != "" && !IsSpace(data[0])
    requires codec.decode("data: " + data) == "data: " + data
    ensures Data(codec, "data: " + data) == data
  {
    var line := "data: " + data;
    NormalizedPlain(line);
    SplitOnPlain(line, '\n');
    assert StartsWith(line, "data:") && line[5..] == " " + data;
    assert IsSpace(' ') && (" " + data)[1..] == data;
    assert TrimLeft(" " + data) == TrimLeft(data) == data;
    assert DataLines([line]) == [TrimLeft(line[5..])] + DataLines([line][1..]);
    assert DataLines([line]) == [data];
  }

  lemma {:induction false} LateErrorEvents()
    ensures Split(LATE_ERROR).events == [DONE, NO_JSON]
  {
    PlainEvent(DONE, NO_JSON + LF_LF);
    PlainEvent(NO_JSON, []);
    assert NO_JSON + LF_LF + [] == NO_JSON + LF_LF;
    assert Split([]) == Framed([], []);
    assert [NO_JSON] + [] == [NO_JSON];
    assert [DONE] + [NO_JSON] == [DONE, NO_JSON];
  }

  lemma {:induction false} DoneThenError(p: Setup)
    requires p.codec.decode(DONE) == DONE && p.codec.decode(NO_JSON) == NO_JSON && p.codec.parse("x").None?
    ensures OnEvent(p, INITIAL, DONE).0.closed && Ends(OnEvent(p, INITIAL, DONE).1)
    ensures forall c :: OnEvent(p, c, NO_JSON).1 != []
  {
    assert DONE == "data: " + "[DONE]" && NO_JSON == "data: " + "x";
    PlainData(p.codec, "[DONE]");
    PlainData(p.codec, "x");
    assert TrimLeft("[DONE]") == "[DONE]" == Trim("[DONE]");
    assert Trim("x") == "x";
    EmitFollows(p, INITIAL);
  }

  /** An event that is not JSON, after the end: it is neither inert nor quiet, and in one piece it is refused. */
  lemma {:induction false} LateErrorShowsChunks(p: Setup)
    requires p.codec.decode(DONE) == DONE && p.codec.decode(NO_JSON) == NO_JSON && p.codec.parse("x").None?
    ensures !ChunksDoNotMatter(Translator(p), INITIAL, LATE_ERROR)
    ensures Concat([LATE_ERROR]) == LATE_ERROR && !IsAccepted(p, [LATE_ERROR])
  {
    var m := Translator(p);
    var c := OnEvent(p, INITIAL, DONE).0;
    var events := [DONE, NO_JSON];
    LateErrorEvents();
    DoneThenError(p);
    assert events[1..] == [NO_JSON] && events[0] == DONE;
    assert m.step(INITIAL, DONE).0 == c && m.step(c, NO_JSON) == OnEvent(p, c, NO_JSON);
    assert !TailIsInert(m, c, [NO_JSON]);
    assert !TailIsInert(m, INITIAL, events);
    TranslatorChunksExactly(p, LATE_ERROR);
    assert !QuietAfterEnd(p, c, true, [NO_JSON]);
    assert !QuietAfterEnd(p, INITIAL, false, events);
    ReadingFollows(p, LATE_ERROR);
    OnePieceSaysAll(m, INITIAL, LATE_ERROR);
  }

  // ---------------------------------------------------------------------------------------------
  // The translator itself
  // ---------------------------------------------------------------------------------------------

  class OpenAIToAnthropicStreamTranslator {
    const setup: Setup
    var buffer: Bytes
    var started: bool
    var closed: bool
    var failed: bool
    var errorCode: Option<string>
    var errorDetail: Option<string>
    var text: string
    var finishReason: Option<string>
    var usage: Json
    var explicitStopSequence: Option<string>
    var hasText: bool
    var tools: seq<Tool>

    function State(): Core
      reads this
    {
      Core(closed, failed, errorCode, errorDetail, text, finishReason, usage, explicitStopSequence, hasText, tools)
    }

    function Whole(): Feeder<Core>
      reads this
    {
      Feeder(started, buffer, State())
    }

    constructor (setup: Setup)
      ensures this.setup == setup && Whole() == Fresh(INITIAL)
    {
      this.setup := setup;
      buffer, started := [], false;
      closed, failed := false, false;
      errorCode, errorDetail := None, None;
      text, finishReason, usage, explicitStopSequence := "", None, Obj(map[]), None;
      hasText, tools := false, [];
    }

    method RecordFailure(detail: string, code: string) returns (output: seq<Event>)
      modifies this
      ensures (State(), output) == Fail(old(State()), detail, code)
      ensures buffer == old(buffer) && started == old(started)
    {
      failed, errorCode, errorDetail := true, Some(code), Some(Take(detail, 2000));
      output := [StreamError(code, Take(detail, 2000))];
    }

    method AbsorbToolCalls(calls: seq<Json>)
      modifies this`tools
      ensures tools == AbsorbCalls(old(tools), calls)
    {
      var i := 0;
      while i < |calls|
        invariant 0 <= i <= |calls|
        invariant AbsorbCalls(tools, calls[i..]) == AbsorbCalls(old(tools), calls)
      {
        var call := calls[i];
        assert calls[i..][1..] == calls[i + 1..];
        if call.Obj? {
          var index := CallIndex(call);
          var at := Position(tools, index);
          if at == |tools| {
            tools := tools + [Tool(index, "", "", [])];
          }
          tools := tools[at := UpdatedTool(tools[at], call)];
        }
        i := i + 1;
      }
    }

    method OnChoiceAfterText(choice: Json) returns (output: seq<Event>, stop: bool)
      modifies this
      ensures (State(), output, stop) == AfterText(old(State()), choice)
      ensures buffer == old(buffer) && started == old(started)
    {
      var delta := DeltaOf(choice);
      match ObjectionTo(delta) {
        case Some(o) =>
          output := RecordFailure(o.detail, o.code);
          return output, true;
        case None =>
      }
      AbsorbToolCalls(CallsOf(delta));
      output, stop := OnEnd(choice);
    }

    method OnEnd(choice: Json) returns (output: seq<Event>, stop: bool)
      modifies this
      ensures (State(), output, stop) == NoteEnd(old(State()), choice)
      ensures buffer == old(buffer) && started == old(started)
    {
      var finish := choice.Get("finish_reason");
      if IsErrorFinish(finish) {
        output := RecordFailure("upstream response ended with an error finish reason", "upstream_finish_error");
        return output, true;
      }
      if finish.Str? {
        finishReason := Some(finish.s);
      }
      var explicit := choice.Get("stop_sequence").Or(choice.Get("matched_stop"));
      if explicit.Str? {
        explicitStopSequence := Some(explicit.s);
      }
      return [], false;
    }

    method OnChoice(choice: Json) returns (output: seq<Event>, stop: bool)
      modifies this
      ensures (State(), output, stop) == Choice(old(State()), choice)
      ensures buffer == old(buffer) && started == old(started)
    {
      output, stop := [], false;
      if !choice.Obj? {
        return;
      }
      var content := ContentOf(DeltaOf(choice));
      if content.IsText() {
        if !hasText {
          hasText := true;
          output := [BlockStart(0, TextBlock)];
        }
        text := text + content.s;
        output := output + [TextDelta(0, content.s)];
        assert (State(), output) == AppendText(old(State()), content.s);
        var more;
        more, stop := OnChoiceAfterText(choice);
        output := output + more;
      } else if !content.Null? && content != Str("") {
        output := RecordFailure("upstream stream contains unsupported content blocks", "unsupported_stream_content");
        stop := true;
      } else {
        output, stop := OnChoiceAfterText(choice);
      }
    }

    method OnChunk(payload: Json) returns (output: seq<Event>)
      modifies this
      ensures (State(), output) == Chunk(old(State()), payload)
      ensures buffer == old(buffer) && started == old(started)
    {
      output := [];
      if payload.Get("usage").Obj? {
        usage := payload.Get("usage");
      }
      if !payload.Get("choices").Arr? {
        return;
      }
      output := OnChoices(payload.Get("choices").items);
    }

    method OnChoices(choices: seq<Json>) returns (output: seq<Event>)
      modifies this
      ensures (State(), output) == Choices(old(State()), choices)
      ensures buffer == old(buffer) && started == old(started)
    {
      output := [];
      var i := 0;
      while i < |choices|
        invariant 0 <= i <= |choices|
        invariant buffer == old(buffer) && started == old(started)
        invariant ContinuesChoices(old(State()), choices, State(), output, i)
      {
        ghost var c, said := State(), output;
        var more, stop := OnChoice(choices[i]);
        output := output + more;
        ContinueChoices(old(State()), choices, c, said, i);
        if stop {
          return;
        }
        i := i + 1;
      }
      assert choices[i..] == [];
      assert output + [] == output;
    }

    method FirstBrokenTool() returns (detail: Option<string>)
      ensures detail == BrokenTool(setup.codec, tools)
    {
      var i := 0;
      while i < |tools|
        invariant 0 <= i <= |tools|
        invariant BrokenTool(setup.codec, tools[i..]) == BrokenTool(setup.codec, tools)
      {
        var tool := tools[i];
        assert tools[i..][0] == tool && tools[i..][1..] == tools[i + 1..];
        if tool.id == "" || tool.name == "" {
          return Some("tool call ended without an id and name");
        }
        var arguments := Join(tool.fragments);
        var parsed := setup.codec.parse(if arguments == "" then "{}" else arguments);
        if parsed.None? {
          return Some("tool arguments ended before a complete JSON object was received");
        }
        if !parsed.value.Obj? {
          return Some("tool arguments must be a JSON object");
        }
        i := i + 1;
      }
      return None;
    }

    method EmitFragments(index: nat, fragments: seq<string>) returns (output: seq<Event>)
      ensures output == Fragments(index, fragments)
    {
      output := [];
      var j := 0;
      while j < |fragments|
        invariant 0 <= j <= |fragments|
        invariant output + Fragments(index, fragments[j..]) == Fragments(index, fragments)
      {
        assert fragments[j..][1..] == fragments[j + 1..];
        output := output + [JsonDelta(index, fragments[j])];
        j := j + 1;
      }
      assert fragments[j..] == [];
    }

    method EmitTools(first: nat, sorted: seq<Tool>) returns (output: seq<Event>)
      ensures output == AllToolEvents(first, sorted)
    {
      output := [];
      var i := 0;
      while i < |sorted|
        invariant 0 <= i <= |sorted|
        invariant output + AllToolEvents(first + i, sorted[i..]) == AllToolEvents(first, sorted)
      {
        var tool := sorted[i];
        NextTool(first + i, sorted, i);
        ghost var before := output;
        var fragments := EmitFragments(first + i, tool.fragments);
        output := output + [BlockStart(first + i, ToolUseBlock(tool.id, tool.name))];
        output := output + fragments;
        output := output + [BlockStop(first + i)];
        ToolEventsInOrder(before, first + i, tool, AllToolEvents(first + i + 1, sorted[i + 1..]));
        i := i + 1;
      }
      assert sorted[i..] == [];
    }

    method OnDone() returns (output: seq<Event>)
      modifies this
      ensures (State(), output) == Finish(setup, old(State()))
      ensures buffer == old(buffer) && started == old(started)
    {
      if closed || failed {
        return [];
      }
      var broken := FirstBrokenTool();
      if broken.Some? {
        output := RecordFailure(broken.value, "invalid_tool_arguments");
        return;
      }
      output := if hasText then [BlockStop(0)] else [];
      var blocks := EmitTools(if hasText then 1 else 0, Sorted(tools));
      output := output + (blocks + Closing(setup, State()));
      closed := true;
    }

    method OnRawEvent(raw: Bytes) returns (output: seq<Event>)
      modifies this
      ensures (State(), output) == OnEvent(setup, old(State()), raw)
      ensures buffer == old(buffer) && started == old(started)
    {
      var data := Data(setup.codec, raw);
      if data == "" {
        return [];
      }
      if Trim(data) == "[DONE]" {
        output := OnDone();
        return;
      }
      var payload := setup.codec.parse(data);
      if payload.None? {
        output := RecordFailure("upstream returned malformed SSE JSON", "invalid_sse");
        return;
      }
      if payload.value.Get("error").Obj? {
        var message := payload.value.Get("error").Get("message");
        var detail := if message.Truthy() then setup.codec.text(message) else "upstream stream failed";
        failed, errorCode, errorDetail := true, Some("upstream_stream_error"), Some(Take(detail, 2000));
        return [];
      }
      if !payload.value.Obj? {
        return [];
      }
      output := OnChunk(payload.value);
    }

    method FeedChunk(chunk: Bytes) returns (output: seq<Event>)
      modifies this
      ensures (Whole(), output) == Feed(Translator(setup), old(Whole()), chunk)
    {
      if closed || failed {
        return [];
      }
      output := [];
      if chunk != [] && !started {
        started := true;
        output := Greeting(setup);
      }
      ghost var c := State();
      buffer := buffer + chunk;
      ghost var framed := Split(buffer);
      var said := DrainBuffer();
      output := output + said;
    }

    method DrainBuffer() returns (output: seq<Event>)
      modifies this
      ensures (State(), output) == Process(Translator(setup), old(State()), Split(old(buffer)).events)
      ensures buffer == Split(old(buffer)).rest && started == old(started)
    {
      output := [];
      while true
        invariant started == old(started)
        invariant Split(buffer).rest == Split(old(buffer)).rest
        invariant ContinuesEvents(Translator(setup), old(State()), Split(old(buffer)).events, State(), output,
            Split(buffer).events)
        decreases |buffer|
      {
        var cut := Boundary(buffer);
        if cut.None? {
          assert output + [] == output;
          break;
        }
        var event := buffer[..cut.value.start];
        ghost var c, said := State(), output;
        ghost var left := Split(buffer).events;
        SplitFirst(buffer);
        assert left[0] == event;
        buffer := buffer[cut.value.start + cut.value.width..];
        var more := OnRawEvent(event);
        output := output + more;
        StepIsOnEvent(setup, c, event);
        ContinueEvents(Translator(setup), old(State()), Split(old(buffer)).events, c, said, left, State(), more);
      }
    }
  }

  lemma {:induction false} StepIsOnEvent(p: Setup, c: Core, raw: Bytes)
    ensures Translator(p).step(c, raw) == OnEvent(p, c, raw)
  {
  }

  lemma {:induction false} SplitFirst(buffer: Bytes)
    requires Boundary(buffer).Some?
    ensures var cut := Boundary(buffer).value;
            var tail := Split(buffer[cut.start + cut.width..]);
            && Split(buffer).events != []
            && Split(buffer).events[0] == buffer[..cut.start]
            && Split(buffer).events[1..] == tail.events
            && Split(buffer).rest == tail.rest
  {
  }

  lemma {:induction false} NextTool(index: nat, sorted: seq<Tool>, i: nat)
    requires i < |sorted|
    ensures AllToolEvents(index, sorted[i..]) ==
            ToolEvents(index, sorted[i]) + AllToolEvents(index + 1, sorted[i + 1..])
  {
    assert sorted[i..][0] == sorted[i] && sorted[i..][1..] == sorted[i + 1..];
  }

  lemma {:induction false} ToolEventsInOrder(before: seq<Event>, index: nat, tool: Tool, after: seq<Event>)
    ensures before + [BlockStart(index, ToolUseBlock(tool.id, tool.name))] + Fragments(index, tool.fragments)
            + [BlockStop(index)] + after
            == before + (ToolEvents(index, tool) + after)
  {
  }

  /** What is left of `choices` from `i` on, after `said`, completes the chunk. */
  ghost predicate ContinuesChoices(c0: Core, choices: seq<Json>, c: Core, said: seq<Event>, i: nat)
    requires i <= |choices|
  {
    && Choices(c0, choices).0 == Choices(c, choices[i..]).0
    && Choices(c0, choices).1 == said + Choices(c, choices[i..]).1
  }

  lemma {:induction false} ContinueChoices(c0: Core, choices: seq<Json>, c: Core, said: seq<Event>, i: nat)
    requires i < |choices| && ContinuesChoices(c0, choices, c, said, i)
    ensures var (c1, more, stop) := Choice(c, choices[i]);
            if stop then Choices(c0, choices) == (c1, said + more)
            else ContinuesChoices(c0, choices, c1, said + more, i + 1)
  {
    assert choices[i..][0] == choices[i] && choices[i..][1..] == choices[i + 1..];
    var (c1, more, stop) := Choice(c, choices[i]);
    assert !stop ==> said + (more + Choices(c1, choices[i + 1..]).1) == said + more + Choices(c1, choices[i + 1..]).1;
  }

  /** Processing `left` from `c`, after `said`, completes processing `events` from `c0`. */
  ghost predicate ContinuesEvents<S, O>(m: Machine<S, O>, c0: S, events: seq<Bytes>, c: S, said: seq<O>,
                                        left: seq<Bytes>) {
    && Process(m, c0, events).0 == Process(m, c, left).0
    && Process(m, c0, events).1 == said + Process(m, c, left).1
  }

  lemma {:induction false} ContinueEvents<S, O>(m: Machine<S, O>, c0: S, events: seq<Bytes>, c: S, said: seq<O>,
                                                left: seq<Bytes>, c1: S, more: seq<O>)
    requires left != [] && ContinuesEvents(m, c0, events, c, said, left)
    requires m.step(c, left[0]) == (c1, more)
    ensures ContinuesEvents(m, c0, events, c1, said + more, left[1..])
  {
    assert said + (more + Process(m, c1, left[1..]).1) == said + more + Process(m, c1, left[1..]).1;
  }
}
