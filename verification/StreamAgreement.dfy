/** A streamed completion and the same completion in one piece mean the same message. */
module StreamAgreement {
  /*
    What a client reads from the translated stream is what `translate_openai_response` makes of the
    completion assembled from the same deltas.
   */
  import opened AnthropicMessages
  import opened Json
  import Sorting
  import opened SseFraming
  import opened StreamTranslator
  import opened Text
  import opened Wrappers

  // ---------------------------------------------------------------------------------------------
  // The completion a stream is the deltas of
  // ---------------------------------------------------------------------------------------------

  datatype Call = Call(index: int, id: string, name: string, arguments: string)

  datatype Assembled = Assembled(
    text: string,
    calls: seq<Call>,
    finish: Option<string>,
    stop: Option<string>,
    usage: Json
  )

  const EMPTY: Assembled := Assembled("", [], None, None, Obj(map[]))

  function CallAt(calls: seq<Call>, index: int): (i: nat)
    ensures i <= |calls|
    decreases |calls|
  {
    if calls == [] || calls[0].index == index then 0 else 1 + CallAt(calls[1..], index)
  }

  function IndexIn(call: Json): int {
    match call.Get("index")
    case Int(n) => n
    case _ => 0
  }

  /** The later text, where it is one and says something. */
  function Newer(known: string, value: Json): string {
    if value.Str? && value.s != "" then value.s else known
  }

  function Longer(known: string, value: Json): string {
    if value.Str? then known + value.s else known
  }

  function AddCall(calls: seq<Call>, call: Json): seq<Call> {
    if !call.Obj? then calls
    else
      var i := CallAt(calls, IndexIn(call));
      var known := if i < |calls| then calls else calls + [Call(IndexIn(call), "", "", "")];
      var asked := call.Get("function");
      known[i := Call(known[i].index, Newer(known[i].id, call.Get("id")), Newer(known[i].name, asked.Get("name")),
                      Longer(known[i].arguments, asked.Get("arguments")))]
  }

  function AddCalls(calls: seq<Call>, deltas: seq<Json>): seq<Call>
    decreases |deltas|
  {
    if deltas == [] then calls else AddCalls(AddCall(calls, deltas[0]), deltas[1..])
  }

  /** What a choice adds: its delta, or its message where there is no delta. */
  function Addition(choice: Json): Json {
    if choice.Get("delta").Obj? then choice.Get("delta") else choice.Get("message")
  }

  function AddChoice(a: Assembled, choice: Json): Assembled {
    var delta, explicit := Addition(choice), NamedStop(choice);
    Assembled(
      Longer(a.text, delta.Get("content")),
      AddCalls(a.calls, if delta.Get("tool_calls").Arr? then delta.Get("tool_calls").items else []),
      if choice.Get("finish_reason").Str? then Some(choice.Get("finish_reason").s) else a.finish,
      if explicit.Some? then explicit else a.stop,
      a.usage)
  }

  function AddPayload(a: Assembled, payload: Json): Assembled {
    var counted := if payload.Get("usage").Obj? then a.(usage := payload.Get("usage")) else a;
    var choices := payload.Get("choices");
    if choices.Arr? && choices.items != [] && choices.items[0].Obj? then AddChoice(counted, choices.items[0])
    else counted
  }

  function Assemble(a: Assembled, payloads: seq<Json>): Assembled
    decreases |payloads|
  {
    if payloads == [] then a else Assemble(AddPayload(a, payloads[0]), payloads[1..])
  }

  predicate CallByIndex(a: Call, b: Call) {
    a.index <= b.index
  }

  function SortedCalls(calls: seq<Call>): seq<Call> {
    Sorting.Sort(CallByIndex, calls)
  }

  function CallJson(call: Call): Json {
    Obj(map["id" := Str(call.id),
            "function" := Obj(map["name" := Str(call.name), "arguments" := Str(call.arguments)])])
  }

  function CallsJson(calls: seq<Call>): seq<Json>
    decreases |calls|
  {
    if calls == [] then [] else [CallJson(calls[0])] + CallsJson(calls[1..])
  }

  function StopJson(s: Option<string>): Json {
    if s.Some? then Str(s.value) else Null
  }

  /** The completion object as an upstream would have sent it without streaming. */
  function Completion(a: Assembled): Json {
    var message := Obj(map["content" := Str(a.text), "tool_calls" := Arr(CallsJson(SortedCalls(a.calls)))]);
    Obj(map["choices" := Arr([Obj(map["message" := message,
                                      "finish_reason" := StopJson(a.finish),
                                      "matched_stop" := StopJson(a.stop)])]),
            "usage" := a.usage])
  }

  // ---------------------------------------------------------------------------------------------
  // The translator's accumulators hold the assembled completion
  // ---------------------------------------------------------------------------------------------

  /** At most one choice, and no refusal text. */
  predicate SingleChoice(payload: Json) {
    var choices := payload.Get("choices");
    choices.Arr? ==>
      && |choices.items| <= 1
      && (choices.items != [] ==> !Addition(choices.items[0]).Get("refusal").Str?)
  }

  function Joined(tool: Tool): Call {
    Call(tool.index, tool.id, tool.name, Join(tool.fragments))
  }

  function AllJoined(tools: seq<Tool>): (calls: seq<Call>)
    ensures |calls| == |tools| && forall i :: 0 <= i < |tools| ==> calls[i] == Joined(tools[i])
    decreases |tools|
  {
    if tools == [] then [] else [Joined(tools[0])] + AllJoined(tools[1..])
  }

  /** The accumulators of a translator that has not stopped, against the assembled completion. */
  ghost predicate Accumulates(c: Core, a: Assembled) {
    && c.text == a.text
    && (c.hasText <==> c.text != "")
    && AllJoined(c.tools) == a.calls
    && c.finish == a.finish
    && c.explicitStop == a.stop
    && c.usage == a.usage
  }

  lemma {:induction false} SamePosition(tools: seq<Tool>, index: int)
    ensures Position(tools, index) == CallAt(AllJoined(tools), index)
    decreases |tools|
  {
    if tools != [] && tools[0].index != index {
      SamePosition(tools[1..], index);
      assert AllJoined(tools)[1..] == AllJoined(tools[1..]);
    }
  }

  lemma {:induction false} SameCall(tools: seq<Tool>, call: Json)
    ensures AllJoined(AbsorbCall(tools, call)) == AddCall(AllJoined(tools), call)
  {
    if call.Obj? {
      SamePosition(tools, CallIndex(call));
      var i := Position(tools, CallIndex(call));
      var known := if i < |tools| then tools else tools + [Tool(CallIndex(call), "", "", [])];
      var arguments := CallFunction(call).Get("arguments");
      if arguments.IsText() {
        JoinSnoc(known[i].fragments, arguments.s);
      }
      var left, right := AllJoined(AbsorbCall(tools, call)), AddCall(AllJoined(tools), call);
      assert |left| == |right|;
      forall k | 0 <= k < |left| ensures left[k] == right[k] {
      }
    }
  }

  lemma {:induction false} SameCalls(tools: seq<Tool>, calls: seq<Json>)
    ensures AllJoined(AbsorbCalls(tools, calls)) == AddCalls(AllJoined(tools), calls)
    decreases |calls|
  {
    if calls != [] {
      SameCall(tools, calls[0]);
      SameCalls(AbsorbCall(tools, calls[0]), calls[1..]);
    }
  }

  lemma {:induction false} SameAddition(choice: Json)
    ensures forall key :: DeltaOf(choice).Get(key) == Addition(choice).Get(key)
    ensures CallsOf(DeltaOf(choice)) ==
            if Addition(choice).Get("tool_calls").Arr? then Addition(choice).Get("tool_calls").items else []
  {
  }

  lemma {:induction false} SameStop(choice: Json)
    ensures var explicit := choice.Get("stop_sequence").Or(choice.Get("matched_stop"));
            NamedStop(choice) == if explicit.Str? then Some(explicit.s) else None
  {
    FalsyExactly(choice.Get("stop_sequence"));
  }

  lemma {:induction false} SameNotes(c: Core, a: Assembled, choice: Json)
    requires Accumulates(c, a)
    requires !AfterText(c, choice).2
    ensures Accumulates(AfterText(c, choice).0, AddChoice(a, choice).(text := a.text))
  {
    SameAddition(choice);
    SameStop(choice);
    SameCalls(c.tools, CallsOf(DeltaOf(choice)));
  }

  lemma {:induction false} SameChoice(c: Core, a: Assembled, choice: Json)
    requires choice.Obj? && !Addition(choice).Get("refusal").Str?
    requires Accumulates(c, a)
    requires !Choice(c, choice).2
    ensures Accumulates(Choice(c, choice).0, AddChoice(a, choice))
  {
    SameAddition(choice);
    var content := DeltaOf(choice).Get("content");
    assert ContentOf(DeltaOf(choice)) == content;
    if content.IsText() {
      var (c1, _) := AppendText(c, content.s);
      SameNotes(c1, a.(text := c1.text), choice);
    } else {
      if content == Str("") {
        assert a.text + "" == a.text;
      }
      SameNotes(c, a, choice);
    }
  }

  // ---------------------------------------------------------------------------------------------
  // What a client holds while the deltas come in
  // ---------------------------------------------------------------------------------------------

  function TextHeld(c: Core): seq<Received> {
    if c.hasText then [ReceivedText(c.text)] else []
  }

  /** The client's reading matches the translator's text. */
  ghost predicate Holding(r: Reading, c: Core) {
    r.blocks == TextHeld(c) && r.open == c.hasText && !r.complete
  }

  lemma {:induction false} ReadText(r: Reading, c: Core, text: string)
    requires Holding(r, c) && (c.hasText <==> c.text != "") && text != ""
    ensures var (c1, out) := AppendText(c, text);
            ReadEvents(r, out) == Some(r.(blocks := TextHeld(c1), open := true))
  {
    var delta := TextDelta(0, text);
    var s := r.(blocks := [ReceivedText(c.text)], open := true);
    assert s.blocks[0 := ReceivedText(c.text + text)] == [ReceivedText(c.text + text)];
    ReadCons(s, delta, []);
    assert [delta] + [] == [delta];
    if !c.hasText {
      var start := BlockStart(0, TextBlock);
      assert r.blocks + [ReceivedText("")] == [ReceivedText("")];
      ReadCons(r, start, [delta]);
    } else {
      assert [] + [delta] == [delta];
    }
  }

  /** One payload, on both sides. */
  lemma {:induction false} SamePayload(c: Core, a: Assembled, r: Reading, payload: Json)
    requires Accumulates(c, a) && Holding(r, c)
    requires SingleChoice(payload)
    requires !c.failed && !Chunk(c, payload).0.failed
    ensures var (d, out) := Chunk(c, payload);
            && Accumulates(d, AddPayload(a, payload))
            && d.closed == c.closed
            && ReadEvents(r, out) == Some(r.(blocks := TextHeld(d), open := d.hasText))
  {
    var c1 := if payload.Get("usage").Obj? then c.(usage := payload.Get("usage")) else c;
    var a1 := if payload.Get("usage").Obj? then a.(usage := payload.Get("usage")) else a;
    var choices := payload.Get("choices");
    if choices.Arr? && choices.items != [] {
      OneChoice(c1, choices.items);
      var choice := choices.items[0];
      if choice.Obj? {
        SameChoice(c1, a1, choice);
        ReadChoice(c1, r, choice);
      }
    }
  }

  lemma {:induction false} OneChoice(c: Core, choices: seq<Json>)
    requires |choices| == 1 && !c.failed && !Choices(c, choices).0.failed
    ensures !Choice(c, choices[0]).2
    ensures Choices(c, choices) == (Choice(c, choices[0]).0, Choice(c, choices[0]).1)
  {
    var (c1, out, failed) := Choice(c, choices[0]);
    assert Choices(c1, choices[1..]) == (c1, []);
    assert out + [] == out;
  }

  lemma {:induction false} ReadChoice(c: Core, r: Reading, choice: Json)
    requires choice.Obj? && !Choice(c, choice).2
    requires Holding(r, c) && (c.hasText <==> c.text != "")
    ensures var (d, out, _) := Choice(c, choice);
            && d.closed == c.closed
            && ReadEvents(r, out) == Some(r.(blocks := TextHeld(d), open := d.hasText))
  {
    var content := ContentOf(DeltaOf(choice));
    if content.IsText() {
      ReadText(r, c, content.s);
      var (c1, out) := AppendText(c, content.s);
      assert out + AfterText(c1, choice).1 == out;
      KeepsText(c1, choice);
    } else {
      KeepsText(c, choice);
    }
  }

  lemma {:induction false} KeepsText(c: Core, choice: Json)
    ensures AfterText(c, choice).0.text == c.text
  {
    var delta := DeltaOf(choice);
    if ObjectionTo(delta).None? {
      NoteEndKeepsText(c.(tools := AbsorbCalls(c.tools, CallsOf(delta))), choice);
    }
  }

  lemma {:induction false} NoteEndKeepsText(c: Core, choice: Json)
    ensures NoteEnd(c, choice).0.text == c.text
  {
  }

  /** The translator over a list of payloads. */
  function Chunks(c: Core, payloads: seq<Json>): (Core, seq<Event>)
    decreases |payloads|
  {
    if payloads == [] then (c, [])
    else
      var (c1, out) := Chunk(c, payloads[0]);
      var (c2, outs) := Chunks(c1, payloads[1..]);
      (c2, out + outs)
  }

  lemma {:induction false} SamePayloads(c: Core, a: Assembled, r: Reading, payloads: seq<Json>)
    requires Accumulates(c, a) && Holding(r, c)
    requires forall payload :: payload in payloads ==> SingleChoice(payload)
    requires !c.failed && !Chunks(c, payloads).0.failed
    ensures var (d, outs) := Chunks(c, payloads);
            && Accumulates(d, Assemble(a, payloads))
            && d.closed == c.closed
            && ReadEvents(r, outs) == Some(r.(blocks := TextHeld(d), open := d.hasText))
    decreases |payloads|
  {
    if payloads != [] {
      var (c1, out) := Chunk(c, payloads[0]);
      if c1.failed {
        FailedForGood(c1, payloads[1..]);
      } else {
        SamePayload(c, a, r, payloads[0]);
        var s := r.(blocks := TextHeld(c1), open := c1.hasText);
        SamePayloads(c1, AddPayload(a, payloads[0]), s, payloads[1..]);
        ReadAppend(r, out, Chunks(c1, payloads[1..]).1);
      }
    }
  }

  lemma {:induction false} FailedForGood(c: Core, payloads: seq<Json>)
    requires c.failed
    ensures Chunks(c, payloads).0.failed
    decreases |payloads|
  {
    if payloads != [] {
      var payload := payloads[0];
      var c1 := if payload.Get("usage").Obj? then c.(usage := payload.Get("usage")) else c;
      if payload.Get("choices").Arr? {
        FailedThroughChoices(c1, payload.Get("choices").items);
      }
      FailedForGood(Chunk(c, payload).0, payloads[1..]);
    }
  }

  lemma {:induction false} FailedThroughChoices(c: Core, choices: seq<Json>)
    requires c.failed
    ensures Choices(c, choices).0.failed
    decreases |choices|
  {
    if choices != [] {
      FailedThroughChoice(c, choices[0]);
      FailedThroughChoices(Choice(c, choices[0]).0, choices[1..]);
    }
  }

  lemma {:induction false} FailedThroughChoice(c: Core, choice: Json)
    requires c.failed
    ensures Choice(c, choice).0.failed
  {
  }

  /** No payload has a choice that is spoiled. */
  ghost predicate NoneSpoils(payloads: seq<Json>) {
    forall i :: 0 <= i < |payloads| ==> !SpoilsIn(payloads[i])
  }

  /** The translator accepts a list of payloads exactly when none of them has a choice that is spoiled. */
  lemma {:induction false} AcceptedExactly(c: Core, payloads: seq<Json>)
    requires !c.failed
    ensures !Chunks(c, payloads).0.failed <==> NoneSpoils(payloads)
    decreases |payloads|
  {
    if payloads != [] {
      var c1 := Chunk(c, payloads[0]).0;
      ChunkFailsExactly(c, payloads[0]);
      assert forall i :: 1 <= i < |payloads| ==> payloads[i] == payloads[1..][i - 1];
      if c1.failed {
        FailedForGood(c1, payloads[1..]);
      } else {
        AcceptedExactly(c1, payloads[1..]);
      }
    }
  }

  // ---------------------------------------------------------------------------------------------
  // The end of the stream
  // ---------------------------------------------------------------------------------------------

  /** The tool can be emitted: it has an id, a name, and arguments that are a JSON object. */
  predicate Emittable(codec: Codec, tool: Tool) {
    var arguments := Join(tool.fragments);
    var parsed := codec.parse(if arguments == "" then "{}" else arguments);
    tool.id != "" && tool.name != "" && parsed.Some? && parsed.value.Obj?
  }

  lemma {:induction false} BrokenExactly(codec: Codec, tools: seq<Tool>)
    ensures BrokenTool(codec, tools).None? <==> forall t :: t in tools ==> Emittable(codec, t)
    decreases |tools|
  {
    if tools != [] {
      BrokenExactly(codec, tools[1..]);
      assert tools[0] in tools;
      assert forall t :: t in tools <==> t == tools[0] || t in tools[1..];
      assert BrokenTool(codec, tools).None? <==> Emittable(codec, tools[0]) && BrokenTool(codec, tools[1..]).None?;
    }
  }

  predicate JoinsTo(tool: Tool, call: Call) {
    call == Joined(tool)
  }

  lemma {:induction false} SortedKeeps(tools: seq<Tool>)
    ensures forall t :: t in Sorted(tools) <==> t in tools
    ensures AllJoined(Sorted(tools)) == SortedCalls(AllJoined(tools))
  {
    Sorting.SortMembers(ByIndex, tools);
    Sorting.SortKeepsRelation(JoinsTo, ByIndex, CallByIndex, tools, AllJoined(tools));
  }

  ghost predicate InIndexOrder(tools: seq<Tool>) {
    forall i, j :: 0 <= i < j < |tools| ==> tools[i].index <= tools[j].index
  }

  /** Tools come out in the order of their indices. */
  lemma {:induction false} SortedOrders(tools: seq<Tool>)
    ensures InIndexOrder(Sorted(tools))
  {
    Sorting.SortAscends(ByIndex, tools);
    var sorted := Sorted(tools);
    forall i, j | 0 <= i < j < |sorted| ensures sorted[i].index <= sorted[j].index {
      assert ByIndex(sorted[i], sorted[j]);
    }
  }

  predicate AllSpelled(tools: seq<Tool>) {
    forall t :: t in tools ==> Join(t.fragments) != ""
  }

  function ToolContents(codec: Codec, tools: seq<Tool>): seq<Content>
    decreases |tools|
  {
    if tools == [] then []
    else
      [ToolUse(tools[0].id, tools[0].name, codec.parse(Join(tools[0].fragments)).GetOr(Null))]
      + ToolContents(codec, tools[1..])
  }

  /** Without streaming a tool needs what the stream asks for, and its arguments spelled out. */
  lemma {:induction false} SameToolBlock(codec: Codec, tool: Tool)
    requires codec.parse("").None?
    ensures ToolBlock(codec, CallJson(Joined(tool))).Ok? <==> Emittable(codec, tool) && Join(tool.fragments) != ""
    ensures ToolBlock(codec, CallJson(Joined(tool))).Ok? ==>
              ToolBlock(codec, CallJson(Joined(tool))) ==
              Ok(ToolUse(tool.id, tool.name, codec.parse(Join(tool.fragments)).GetOr(Null)))
  {
    var json := CallJson(Joined(tool));
    var f := json.Get("function");
    assert f == Obj(map["name" := Str(tool.name), "arguments" := Str(Join(tool.fragments))]);
    assert json.Get("id") == Str(tool.id) && f.Get("name") == Str(tool.name);
    assert "arguments" in f.fields && f.Get("arguments") == Str(Join(tool.fragments));
  }

  lemma {:induction false} SameToolBlocks(codec: Codec, tools: seq<Tool>)
    requires codec.parse("").None?
    ensures ToolBlocks(codec, CallsJson(AllJoined(tools))).Ok? <==>
            AllSpelled(tools) && forall t :: t in tools ==> Emittable(codec, t)
    ensures ToolBlocks(codec, CallsJson(AllJoined(tools))).Ok? ==>
              ToolBlocks(codec, CallsJson(AllJoined(tools))) == Ok(ToolContents(codec, tools))
    decreases |tools|
  {
    if tools != [] {
      SameToolBlock(codec, tools[0]);
      SameToolBlocks(codec, tools[1..]);
      FirstCall(tools);
      assert forall t :: t in tools <==> t == tools[0] || t in tools[1..];
    }
  }

  lemma {:induction false} FirstCall(tools: seq<Tool>)
    requires tools != []
    ensures CallsJson(AllJoined(tools)) != [] && CallsJson(AllJoined(tools))[0] == CallJson(Joined(tools[0]))
    ensures CallsJson(AllJoined(tools))[1..] == CallsJson(AllJoined(tools[1..]))
  {
    assert AllJoined(tools)[0] == Joined(tools[0]) && AllJoined(tools)[1..] == AllJoined(tools[1..]);
  }

  function Held(tools: seq<Tool>): seq<Received>
    decreases |tools|
  {
    if tools == [] then [] else [ReceivedTool(tools[0].id, tools[0].name, Join(tools[0].fragments))] + Held(tools[1..])
  }

  lemma {:induction false} ReadFragments(r: Reading, fragments: seq<string>, tool: Received)
    requires r.open && !r.complete && r.blocks != [] && r.blocks[|r.blocks| - 1] == tool && tool.ReceivedTool?
    ensures ReadEvents(r, Fragments(|r.blocks| - 1, fragments)) ==
            Some(r.(blocks := r.blocks[|r.blocks| - 1 := tool.(json := tool.json + Join(fragments))]))
    decreases |fragments|
  {
    var n := |r.blocks| - 1;
    if fragments == [] {
      assert tool.json + "" == tool.json;
      assert r.blocks[n := tool] == r.blocks;
    } else {
      var grown := tool.(json := tool.json + fragments[0]);
      var s := r.(blocks := r.blocks[n := grown]);
      ReadCons(r, JsonDelta(n, fragments[0]), Fragments(n, fragments[1..]));
      ReadFragments(s, fragments[1..], grown);
      assert grown.json + Join(fragments[1..]) == tool.json + Join(fragments);
      assert s.blocks[n := tool.(json := tool.json + Join(fragments))] ==
          r.blocks[n := tool.(json := tool.json + Join(fragments))];
    }
  }

  lemma {:induction false} ReadTool(r: Reading, tool: Tool)
    requires !r.open && !r.complete
    ensures ReadEvents(r, ToolEvents(|r.blocks|, tool)) == Some(r.(blocks := r.blocks + Held([tool])))
  {
    var n := |r.blocks|;
    var empty := ReceivedTool(tool.id, tool.name, "");
    var s := r.(blocks := r.blocks + [empty], open := true);
    var fragments := Fragments(n, tool.fragments);
    ReadCons(r, BlockStart(n, ToolUseBlock(tool.id, tool.name)), fragments + [BlockStop(n)]);
    ReadFragments(s, tool.fragments, empty);
    ReadAppend(s, fragments, [BlockStop(n)]);
    assert "" + Join(tool.fragments) == Join(tool.fragments);
    var t := s.(blocks := s.blocks[n := ReceivedTool(tool.id, tool.name, Join(tool.fragments))]);
    ReadCons(t, BlockStop(n), []);
    assert [BlockStop(n)] + [] == [BlockStop(n)];
    assert Held([tool]) == [ReceivedTool(tool.id, tool.name, Join(tool.fragments))];
    assert t.blocks == r.blocks + Held([tool]);
  }

  lemma {:induction false} HeldAppends(blocks: seq<Received>, tools: seq<Tool>)
    requires tools != []
    ensures (blocks + Held([tools[0]])) + Held(tools[1..]) == blocks + Held(tools)
    ensures |blocks + Held([tools[0]])| == |blocks| + 1
  {
    HeldFirst(tools);
    Associative(blocks, Held([tools[0]]), Held(tools[1..]));
  }

  lemma {:induction false} HeldFirst(tools: seq<Tool>)
    requires tools != []
    ensures Held(tools) == Held([tools[0]]) + Held(tools[1..]) && |Held([tools[0]])| == 1
  {
    assert [tools[0]][1..] == [];
  }

  lemma {:induction false} ReadTools(r: Reading, tools: seq<Tool>)
    requires !r.open && !r.complete
    ensures ReadEvents(r, AllToolEvents(|r.blocks|, tools)) == Some(r.(blocks := r.blocks + Held(tools)))
    decreases |tools|
  {
    if tools == [] {
      assert r.blocks + [] == r.blocks;
    } else {
      var n := |r.blocks|;
      ReadTool(r, tools[0]);
      ReadAppend(r, ToolEvents(n, tools[0]), AllToolEvents(n + 1, tools[1..]));
      var s := r.(blocks := r.blocks + Held([tools[0]]));
      ReadTools(s, tools[1..]);
      HeldAppends(r.blocks, tools);
    }
  }

  lemma {:induction false} ResolveHeld(codec: Codec, tools: seq<Tool>)
    requires forall t :: t in tools ==> Emittable(codec, t)
    requires AllSpelled(tools)
    ensures Resolve(codec, Held(tools)) == Some(ToolContents(codec, tools))
    decreases |tools|
  {
    if tools != [] {
      assert tools[0] in tools;
      ResolveHeld(codec, tools[1..]);
      assert Held(tools)[1..] == Held(tools[1..]);
    }
  }

  function TextContents(c: Core): seq<Content> {
    if c.hasText then [TextContent(c.text)] else []
  }

  lemma {:induction false} ReadClosing(p: Setup, c: Core, r: Reading)
    requires !r.open && !r.complete
    ensures var MessageDelta(reason, stop, input, output) := Closing(p, c)[0];
            ReadEvents(r, Closing(p, c)) ==
            Some(r.(stopReason := reason, stopSequence := stop, inputTokens := input, outputTokens := output,
                complete := true))
  {
    var closing := Closing(p, c);
    assert closing == [closing[0]] + ([MessageStop] + []);
    ReadCons(r, closing[0], [MessageStop] + []);
    ReadCons(ReadEvent(r, closing[0]).value, MessageStop, []);
  }

  /** What a client holds after a finish that does not fail. */
  lemma {:induction false} ReadFinish(p: Setup, c: Core, r: Reading)
    requires !Terminal(c) && BrokenTool(p.codec, c.tools).None?
    requires Holding(r, c)
    ensures var MessageDelta(reason, stop, input, output) := Closing(p, c)[0];
            ReadEvents(r, Finish(p, c).1) ==
            Some(r.(blocks := TextHeld(c) + Held(Sorted(c.tools)), open := false, stopReason := reason,
                    stopSequence := stop, inputTokens := input, outputTokens := output, complete := true))
  {
    var tools := AllToolEvents(if c.hasText then 1 else 0, Sorted(c.tools));
    var s := r.(open := false);
    if c.hasText {
      ReadCons(r, BlockStop(0), []);
      assert TextEnd(c) == [BlockStop(0)] + [];
    }
    assert ReadEvents(r, TextEnd(c)) == Some(s);
    ReadTools(s, Sorted(c.tools));
    ReadClosing(p, c, s.(blocks := TextHeld(c) + Held(Sorted(c.tools))));
    ReadAppend(s, tools, Closing(p, c));
    ReadAppend(r, TextEnd(c), tools + Closing(p, c));
  }

  lemma {:induction false} ResolveFinish(codec: Codec, c: Core)
    requires forall t :: t in c.tools ==> Emittable(codec, t)
    requires AllSpelled(c.tools)
    ensures Resolve(codec, TextHeld(c) + Held(Sorted(c.tools))) ==
            Some(TextContents(c) + ToolContents(codec, Sorted(c.tools)))
  {
    SortedKeeps(c.tools);
    var tools := Sorted(c.tools);
    ResolveHeld(codec, tools);
    if c.hasText {
      assert (TextHeld(c) + Held(tools))[1..] == Held(tools);
    } else {
      assert TextHeld(c) + Held(tools) == Held(tools);
      assert TextContents(c) + ToolContents(codec, tools) == ToolContents(codec, tools);
    }
  }

  lemma {:induction false} AssembledText(a: Assembled, message: Json)
    requires message.Get("content") == Str(a.text) && message.Get("refusal") == Null
    ensures MessageText(message) == Ok(if a.text != "" then [TextContent(a.text)] else [])
    ensures TextOf(if a.text != "" then [TextContent(a.text)] else []) == a.text
  {
    if a.text != "" {
      assert TextOf([TextContent(a.text)]) == a.text + TextOf([]) == a.text;
    }
  }

  lemma {:induction false} AssembledMessage(a: Assembled)
    ensures var message := FirstChoice(Completion(a)).Get("message");
            && message.Obj?
            && message.Get("content") == Str(a.text)
            && message.Get("refusal") == Null
            && message.Get("audio") == Null
            && message.Get("function_call") == Null
            && message.Get("tool_calls") == Arr(CallsJson(SortedCalls(a.calls)))
  {
  }

  lemma {:induction false} AssembledChoice(a: Assembled)
    ensures var choice := FirstChoice(Completion(a));
            && choice.Get("finish_reason") == StopJson(a.finish)
            && choice.Get("stop_sequence").Or(choice.Get("matched_stop")) == StopJson(a.stop)
    ensures Completion(a).Get("usage") == a.usage
  {
  }

  /** How an ordinary response is rendered once its text and its tools are known. */
  lemma {:induction false} Rendering(p: Setup, payload: Json, texts: seq<Content>, items: seq<Json>)
    requires payload.Obj? && FirstChoice(payload).Get("message").Obj?
    requires var message := FirstChoice(payload).Get("message");
             && MessageText(message) == Ok(texts)
             && message.Get("audio").Null? && message.Get("function_call").Null?
             && message.Get("tool_calls") == Arr(items)
    ensures var choice := FirstChoice(payload);
            var explicit := choice.Get("stop_sequence").Or(choice.Get("matched_stop"));
            var (reason, stop) := StopReason(choice.Get("finish_reason"), TextOf(texts), p.stops, explicit);
            var tools := ToolBlocks(p.codec, items);
            var r := TranslateResponse(p.codec, payload, p.requestId, p.model, p.stops);
            if tools.Err? then r.Err?
            else r == Ok(Message(MessageId(p.requestId), p.model, texts + tools.value, reason, stop,
                                 Tokens(p.codec, payload.Get("usage"), "prompt_tokens"),
                                 Tokens(p.codec, payload.Get("usage"), "completion_tokens")))
  {
  }

  /** `translate_openai_response` on the assembled completion, in terms of the accumulators. */
  lemma {:induction false} TranslateAssembled(p: Setup, c: Core, a: Assembled)
    requires Accumulates(c, a)
    requires p.codec.parse("").None?
    ensures var r := TranslateResponse(p.codec, Completion(a), p.requestId, p.model, p.stops);
            if AllSpelled(c.tools) && BrokenTool(p.codec, c.tools).None? then r == Ok(Emitted(p, c)) else r.Err?
  {
    var texts := if a.text != "" then [TextContent(a.text)] else [];
    SortedKeeps(c.tools);
    BrokenExactly(p.codec, c.tools);
    SameToolBlocks(p.codec, Sorted(c.tools));
    AssembledMessage(a);
    AssembledText(a, FirstChoice(Completion(a)).Get("message"));
    AssembledChoice(a);
    Rendering(p, Completion(a), texts, CallsJson(SortedCalls(a.calls)));
  }

  /** The message that the accumulators of a translator amount to. */
  function Emitted(p: Setup, c: Core): Message {
    var MessageDelta(reason, stop, input, output) := Closing(p, c)[0];
    Message(MessageId(p.requestId), p.model, TextContents(c) + ToolContents(p.codec, Sorted(c.tools)),
            reason, stop, input, output)
  }

  /**
    A finish that does not fail ends with the reason and the stop sequence that belong to the finish reason,
    with the usage, and with the stop.
   */
  lemma {:induction false} FinishSays(p: Setup, c: Core)
    requires !Terminal(c) && BrokenTool(p.codec, c.tools).None?
    ensures var out := Finish(p, c).1;
            && |out| >= 2 && out[|out| - 1] == MessageStop && out[|out| - 2].MessageDelta?
            && StopSays(StopJson(c.finish), c.text, p.stops, c.explicitStop, out[|out| - 2].stopReason,
                        out[|out| - 2].stopSequence)
            && out[|out| - 2].usageIn == CountIn(p.codec, c.usage, "prompt_tokens")
            && out[|out| - 2].usageOut == CountIn(p.codec, c.usage, "completion_tokens")
  {
    var closing := Closing(p, c);
    var before := TextEnd(c) + AllToolEvents(if c.hasText then 1 else 0, Sorted(c.tools));
    assert Finish(p, c).1 == before + closing && |closing| == 2;
    StopReasonExactly(StopJson(c.finish), c.text, p.stops, StopJson(c.explicitStop));
    FalsyExactly(c.usage.Get("prompt_tokens"));
    FalsyExactly(c.usage.Get("completion_tokens"));
  }

  // ---------------------------------------------------------------------------------------------
  // The agreement, for every stream and every way of cutting it
  // ---------------------------------------------------------------------------------------------

  /** The event carries this payload. */
  predicate Carries(p: Setup, raw: Bytes, payload: Json) {
    var data := Data(p.codec, raw);
    && data != ""
    && Trim(data) != "[DONE]"
    && p.codec.parse(data) == Some(payload)
    && payload.Obj?
    && !payload.Get("error").Obj?
  }

  predicate IsDone(p: Setup, raw: Bytes) {
    var data := Data(p.codec, raw);
    data != "" && Trim(data) == "[DONE]"
  }

  lemma {:induction false} ProcessPayloads(p: Setup, c: Core, events: seq<Bytes>, payloads: seq<Json>)
    requires |events| == |payloads|
    requires forall i :: 0 <= i < |events| ==> Carries(p, events[i], payloads[i])
    ensures Process(Translator(p), c, events) == Chunks(c, payloads)
    decreases |events|
  {
    if events != [] {
      assert OnEvent(p, c, events[0]) == Chunk(c, payloads[0]);
      ProcessPayloads(p, Chunk(c, payloads[0]).0, events[1..], payloads[1..]);
    }
  }

  /** `translate_openai_response` on the completion that the payloads are the deltas of. */
  function Whole(p: Setup, payloads: seq<Json>): Result<Message, string> {
    TranslateResponse(p.codec, Completion(Assemble(EMPTY, payloads)), p.requestId, p.model, p.stops)
  }

  /** The stream fails exactly when the completion cannot be translated, or a client of it holds the translation. */
  ghost predicate SameMessage(p: Setup, failed: bool, events: seq<Event>, whole: Result<Message, string>) {
    && (failed <==> whole.Err?)
    && (whole.Ok? ==> Decode(p.codec, events) == Some(whole.value))
  }

  /** Every tool has arguments, or the stream has another reason to fail. */
  predicate SpelledOrBroken(p: Setup, tools: seq<Tool>) {
    AllSpelled(tools) || BrokenTool(p.codec, tools).Some?
  }

  lemma {:induction false} StreamDecodes(p: Setup, payloads: seq<Json>)
    requires forall payload :: payload in payloads ==> SingleChoice(payload)
    requires NoneSpoils(payloads)
    requires var c := Chunks(INITIAL, payloads).0; AllSpelled(c.tools) && BrokenTool(p.codec, c.tools).None?
    ensures var (c, outs) := Chunks(INITIAL, payloads);
            Decode(p.codec, Greeting(p) + (outs + Finish(p, c).1)) == Some(Emitted(p, c))
  {
    var (c, outs) := Chunks(INITIAL, payloads);
    var greeted := NOTHING.(id := MessageId(p.requestId), model := p.model);
    assert Greeting(p) == [Greeting(p)[0]] + ([Ping] + []);
    ReadCons(NOTHING, Greeting(p)[0], [Ping] + []);
    ReadCons(greeted, Ping, []);
    AcceptedExactly(INITIAL, payloads);
    SamePayloads(INITIAL, EMPTY, greeted, payloads);
    BrokenExactly(p.codec, c.tools);
    var r := greeted.(blocks := TextHeld(c), open := c.hasText);
    ReadFinish(p, c, r);
    ReadAppend(greeted, outs, Finish(p, c).1);
    ReadAppend(NOTHING, Greeting(p), outs + Finish(p, c).1);
    ResolveFinish(p.codec, c);
  }

  /**
    For every single-choice stream of payloads the translator accepts, closed by `[DONE]`: the finish
    fails exactly when a tool is broken, the assembled completion is refused exactly when a tool is
    broken or has no arguments, and so the two agree exactly when the second cannot happen alone.
   */
  lemma {:induction false} StreamAgrees(p: Setup, payloads: seq<Json>)
    requires p.codec.parse("").None?
    requires forall payload :: payload in payloads ==> SingleChoice(payload)
    requires NoneSpoils(payloads)
    ensures var (c, outs) := Chunks(INITIAL, payloads);
            var (d, last) := Finish(p, c);
            && (d.failed <==> BrokenTool(p.codec, c.tools).Some?)
            && (Whole(p, payloads).Err? <==> BrokenTool(p.codec, c.tools).Some? || !AllSpelled(c.tools))
            && (SameMessage(p, d.failed, Greeting(p) + (outs + last), Whole(p, payloads)) <==>
                SpelledOrBroken(p, c.tools))
  {
    var c := Chunks(INITIAL, payloads).0;
    AcceptedExactly(INITIAL, payloads);
    SamePayloads(INITIAL, EMPTY, NOTHING, payloads);
    TranslateAssembled(p, c, Assemble(EMPTY, payloads));
    if AllSpelled(c.tools) && BrokenTool(p.codec, c.tools).None? {
      StreamDecodes(p, payloads);
    }
  }

  /** The same, from the bytes, for every way of cutting the stream into chunks. */
  lemma {:induction false} StreamedBytesAgree(p: Setup, stream: Bytes, chunks: seq<Bytes>, body: seq<Bytes>,
                                              done: Bytes, payloads: seq<Json>)
    requires p.codec.parse("").None?
    requires Concat(chunks) == stream
    requires Split(stream).events == body + [done]
    requires |body| == |payloads| && forall i :: 0 <= i < |body| ==> Carries(p, body[i], payloads[i])
    requires IsDone(p, done)
    requires forall payload :: payload in payloads ==> SingleChoice(payload)
    requires NoneSpoils(payloads)
    ensures var r := FeedAll(Translator(p), Fresh(INITIAL), chunks);
            SameMessage(p, r.0.core.failed, r.1, Whole(p, payloads)) <==>
            SpelledOrBroken(p, Chunks(INITIAL, payloads).0.tools)
  {
    AcceptedExactly(INITIAL, payloads);
    ReadsThroughDone(p, stream, body, done, payloads);
    LiveUntilDone(p, INITIAL, body, payloads, done);
    InertTailMakesChunksIrrelevant(Translator(p), INITIAL, stream);
    StreamAgrees(p, payloads);
  }

  /** What the events of the stream make of the translator, all at once. */
  lemma {:induction false} ReadsThroughDone(p: Setup, stream: Bytes, body: seq<Bytes>, done: Bytes,
                                            payloads: seq<Json>)
    requires Split(stream).events == body + [done]
    requires |body| == |payloads| && forall i :: 0 <= i < |body| ==> Carries(p, body[i], payloads[i])
    requires IsDone(p, done)
    ensures var (c, outs) := Chunks(INITIAL, payloads);
            var (d, last) := Finish(p, c);
            Read(Translator(p), INITIAL, stream) == Observed(true, d, Greeting(p) + (outs + last))
  {
    var m := Translator(p);
    ProcessPayloads(p, INITIAL, body, payloads);
    var c := Chunks(INITIAL, payloads).0;
    ProcessAppend(m, INITIAL, body, [done]);
    ProcessOne(m, c, done);
    assert m.step(c, done) == Finish(p, c);
    assert stream != [] by {
      assert Split([]) == Framed([], []);
    }
  }

  /** No event follows the terminal one. */
  lemma {:induction false} LiveUntilDone(p: Setup, c: Core, body: seq<Bytes>, payloads: seq<Json>, done: Bytes)
    requires |body| == |payloads| && forall i :: 0 <= i < |body| ==> Carries(p, body[i], payloads[i])
    requires !c.closed && !Chunks(c, payloads).0.failed
    ensures TailIsInert(Translator(p), c, body + [done])
    decreases |body|
  {
    if c.failed {
      FailedForGood(c, payloads);
    }
    var m := Translator(p);
    if body == [] {
      assert (body + [done])[1..] == [];
    } else {
      var c1 := Chunk(c, payloads[0]).0;
      assert OnEvent(p, c, body[0]) == Chunk(c, payloads[0]);
      assert (body + [done])[1..] == body[1..] + [done];
      NeverCloses(c, payloads[0]);
      LiveUntilDone(p, c1, body[1..], payloads[1..], done);
    }
  }

  lemma {:induction false} NeverCloses(c: Core, payload: Json)
    ensures Chunk(c, payload).0.closed == c.closed
  {
    var c1 := if payload.Get("usage").Obj? then c.(usage := payload.Get("usage")) else c;
    if payload.Get("choices").Arr? {
      ChoicesNeverClose(c1, payload.Get("choices").items);
    }
  }

  lemma {:induction false} ChoicesNeverClose(c: Core, choices: seq<Json>)
    ensures Choices(c, choices).0.closed == c.closed
    decreases |choices|
  {
    if choices != [] {
      ChoiceNeverCloses(c, choices[0]);
      ChoicesNeverClose(Choice(c, choices[0]).0, choices[1..]);
    }
  }

  lemma {:induction false} ChoiceNeverCloses(c: Core, choice: Json)
    ensures Choice(c, choice).0.closed == c.closed
  {
  }

  /** A tool that is called by name and never gets arguments. */
  const BARE_TOOL: Tool := Tool(0, "call", "look", [])
  const BARE_NAME: Json := Obj(map["name" := Str("look")])
  const BARE_CALL: Json := Obj(map["index" := Int(0), "id" := Str("call"), "function" := BARE_NAME])
  const BARE_DELTA: Json := Obj(map["tool_calls" := Arr([BARE_CALL])])
  const BARE_CHOICE: Json := Obj(map["delta" := BARE_DELTA])
  const BARE_PAYLOAD: Json := Obj(map["choices" := Arr([BARE_CHOICE])])

  lemma {:induction false} BareCall()
    ensures AbsorbCalls([], [BARE_CALL]) == [BARE_TOOL]
  {
    assert CallIndex(BARE_CALL) == 0 && CallFunction(BARE_CALL) == BARE_NAME;
    assert BARE_CALL.Get("id") == Str("call") && BARE_NAME.Get("name") == Str("look");
    assert BARE_NAME.Get("arguments") == Null;
    assert AbsorbCall([], BARE_CALL) == [BARE_TOOL];
    assert [BARE_CALL][1..] == [];
    assert AbsorbCalls([BARE_TOOL], []) == [BARE_TOOL];
  }

  lemma {:induction false} BareFields()
    ensures BARE_DELTA.Get("content") == Null && BARE_DELTA.Get("refusal") == Null
    ensures BARE_DELTA.Get("audio") == Null && BARE_DELTA.Get("function_call") == Null
    ensures BARE_DELTA.Get("tool_calls") == Arr([BARE_CALL])
  {
  }

  lemma {:induction false} BareDelta()
    ensures DeltaOf(BARE_CHOICE) == BARE_DELTA
    ensures ObjectionTo(BARE_DELTA).None? && CallsOf(BARE_DELTA) == [BARE_CALL]
  {
    BareFields();
    assert BARE_CHOICE.Get("delta") == BARE_DELTA;
  }

  lemma {:induction false} BareEnd(c: Core)
    ensures NoteEnd(c, BARE_CHOICE) == (c, [], false)
  {
    assert BARE_CHOICE.Get("finish_reason") == Null;
    assert BARE_CHOICE.Get("stop_sequence").Or(BARE_CHOICE.Get("matched_stop")) == Null;
  }

  lemma {:induction false} BareChoice()
    ensures Choice(INITIAL, BARE_CHOICE) == (INITIAL.(tools := [BARE_TOOL]), [], false)
    ensures !Addition(BARE_CHOICE).Get("refusal").Str?
  {
    BareCall();
    BareFields();
    BareDelta();
    BareEnd(INITIAL.(tools := [BARE_TOOL]));
  }

  lemma {:induction false} SilentChoice(c: Core, choice: Json, c1: Core)
    requires Choice(c, choice) == (c1, [], false)
    ensures Choices(c, [choice]) == (c1, [])
  {
    var none: seq<Event> := [];
    assert [choice][1..] == [] && Choices(c1, [choice][1..]) == (c1, none);
    assert none + none == none;
  }

  lemma {:induction false} SilentPayload(c: Core, payload: Json, c1: Core)
    requires Chunk(c, payload) == (c1, [])
    ensures Chunks(c, [payload]) == (c1, [])
  {
    var none: seq<Event> := [];
    assert [payload][1..] == [] && Chunks(c1, [payload][1..]) == (c1, none);
    assert none + none == none;
  }

  lemma {:induction false} BarePayload()
    ensures SingleChoice(BARE_PAYLOAD)
    ensures Chunks(INITIAL, [BARE_PAYLOAD]) == (INITIAL.(tools := [BARE_TOOL]), [])
  {
    BareChoice();
    var c := INITIAL.(tools := [BARE_TOOL]);
    assert BARE_PAYLOAD.Get("usage") == Null && BARE_PAYLOAD.Get("choices") == Arr([BARE_CHOICE]);
    SilentChoice(INITIAL, BARE_CHOICE, c);
    SilentPayload(INITIAL, BARE_PAYLOAD, c);
  }

  /** There the two disagree: the stream sends an empty object, the completion is refused. */
  lemma {:induction false} UnspelledArgumentsDisagree(p: Setup)
    requires p.codec.parse("").None? && p.codec.parse("{}") == Some(Obj(map[]))
    ensures var (c, outs) := Chunks(INITIAL, [BARE_PAYLOAD]);
            var (d, last) := Finish(p, c);
            && SingleChoice(BARE_PAYLOAD) && !c.failed
            && !d.failed && Whole(p, [BARE_PAYLOAD]).Err?
            && !SameMessage(p, d.failed, Greeting(p) + (outs + last), Whole(p, [BARE_PAYLOAD]))
  {
    BarePayload();
    BareToolIsEmitted(p.codec);
    assert BARE_TOOL in [BARE_TOOL] && Join([]) == "";
    AcceptedExactly(INITIAL, [BARE_PAYLOAD]);
    StreamAgrees(p, [BARE_PAYLOAD]);
  }

  lemma {:induction false} BareToolIsEmitted(codec: Codec)
    requires codec.parse("{}") == Some(Obj(map[]))
    ensures BrokenTool(codec, [BARE_TOOL]).None?
  {
    assert Join([]) == "" && [BARE_TOOL][1..] == [];
  }
}
