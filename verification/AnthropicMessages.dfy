/** Whole messages in `src/ficelle/anthropic_messages.py`: rendering, encoding, and reading the encoding back. */
module AnthropicMessages {
  import opened Json
  import opened Text
  import opened Wrappers

  /** The library functions the translation calls: UTF-8, `json.loads`, `json.dumps`, `str` and `int`. */
  datatype Codec = Codec(
    decode: seq<char> -> string,
    parse: string -> Option<Json>,
    dump: Json -> string,
    text: Json -> string,
    toInt: Json -> int
  )

  datatype Content = TextContent(text: string) | ToolUse(id: string, name: string, input: Json)

  datatype Message = Message(
    id: string,
    model: string,
    content: seq<Content>,
    stopReason: string,
    stopSequence: Option<string>,
    inputTokens: int,
    outputTokens: int
  )

  /** `_message_id`: the request id without unsafe characters. */
  function MessageId(requestId: string): string {
    var clean := SafeCharacters(requestId);
    "msg_" + if clean == "" then "request" else clean
  }

  function SafeCharacters(s: string): string {
    if s == "" then ""
    else
      var c := s[0];
      (if 'A' <= c <= 'Z' || 'a' <= c <= 'z' || '0' <= c <= '9' || c == '_' || c == '-' then [c] else "")
      + SafeCharacters(s[1..])
  }

  /** `int(usage.get(key, 0) or 0)`. */
  function Tokens(codec: Codec, usage: Json, key: string): int {
    if usage.Get(key).Truthy() then codec.toInt(usage.Get(key)) else 0
  }

  /** The first configured stop sequence that ends the text. */
  function MatchingStop(text: string, stops: seq<string>): Option<string> {
    if stops == [] then None
    else if stops[0] != "" && EndsWith(text, stops[0]) then Some(stops[0])
    else MatchingStop(text, stops[1..])
  }

  /** `_stop_reason`. */
  function StopReason(finish: Json, text: string, stops: seq<string>, explicit: Json): (string, Option<string>) {
    if finish in {Str("length"), Str("max_tokens")} then ("max_tokens", None)
    else if finish in {Str("tool_calls"), Str("function_call"), Str("tool_use")} then ("tool_use", None)
    else if finish in {Str("stop"), Str("end_turn"), Null} then
      if explicit.Str? && explicit.s in stops then ("stop_sequence", Some(explicit.s))
      else if MatchingStop(text, stops).Some? then ("stop_sequence", MatchingStop(text, stops))
      else if finish == Str("stop") && |stops| == 1 then ("stop_sequence", Some(stops[0]))
      else ("end_turn", None)
    else ("end_turn", None)
  }

  // ---------------------------------------------------------------------------------------------
  // A completion that was not streamed
  // ---------------------------------------------------------------------------------------------

  function TextBlocks(blocks: seq<Json>): Result<seq<Content>, string> {
    if blocks == [] then Ok([])
    else if blocks[0].Obj? && blocks[0].Get("type") == Str("text") && blocks[0].Get("text").Str? then
      var rest :- TextBlocks(blocks[1..]);
      Ok([TextContent(blocks[0].Get("text").s)] + rest)
    else Err("upstream response contains an unsupported content block")
  }

  function TextOf(content: seq<Content>): string {
    if content == [] then ""
    else (if content[0].TextContent? then content[0].text else "") + TextOf(content[1..])
  }

  /** The text blocks of the message, with the refusal standing in for missing text. */
  function MessageText(message: Json): Result<seq<Content>, string> {
    var content := message.Get("content");
    var blocks :-
      match content
      case Str(s) => Ok(if s != "" then [TextContent(s)] else [])
      case Arr(items) => TextBlocks(items)
      case Null => Ok([])
      case _ => Err("upstream response content has an unsupported shape");
    var refusal := message.Get("refusal");
    if TextOf(blocks) == "" && refusal.IsText() then Ok(blocks + [TextContent(refusal.s)]) else Ok(blocks)
  }

  function ToolBlock(codec: Codec, call: Json): Result<Content, string> {
    if !call.Obj? then Err("upstream tool call must be an object")
    else if !call.Get("function").Obj? then Err("upstream tool call is missing its function")
    else
      var asked := call.Get("function");
      if !call.Get("id").IsText() || !asked.Get("name").IsText() then
        Err("upstream tool call is missing its id or name")
      else
        var raw := if "arguments" in asked.fields then asked.Get("arguments") else Str("{}");
        var arguments := if raw.Str? then codec.parse(raw.s) else Some(raw);
        if arguments.None? then Err("tool arguments are not valid JSON")
        else if !arguments.value.Obj? then Err("tool arguments must be a JSON object")
        else Ok(ToolUse(call.Get("id").s, asked.Get("name").s, arguments.value))
  }

  function ToolBlocks(codec: Codec, calls: seq<Json>): Result<seq<Content>, string> {
    if calls == [] then Ok([])
    else
      var block :- ToolBlock(codec, calls[0]);
      var rest :- ToolBlocks(codec, calls[1..]);
      Ok([block] + rest)
  }

  function FirstChoice(payload: Json): Json {
    var choices := payload.Get("choices");
    if choices.Arr? && choices.items != [] && choices.items[0].Obj? then choices.items[0] else Obj(map[])
  }

  /** `translate_openai_response`. */
  function TranslateResponse(codec: Codec, payload: Json, requestId: string, model: string, stops: seq<string>)
    : Result<Message, string>
  {
    if !payload.Obj? then Err("upstream response must be an object")
    else
      var choice := FirstChoice(payload);
      var message := if choice.Get("message").Obj? then choice.Get("message") else Obj(map[]);
      var texts :- MessageText(message);
      if !message.Get("audio").Null? then Err("upstream audio output cannot be represented as Anthropic content")
      else if !message.Get("function_call").Null? then
          Err("legacy upstream function_call has no tool-call id to preserve")
      else
        var calls := message.Get("tool_calls");
        var tools :-
          match calls
          case Arr(items) => ToolBlocks(codec, items)
          case Null => Ok([])
          case _ => Err("upstream tool_calls must be an array");
        var explicit := choice.Get("stop_sequence").Or(choice.Get("matched_stop"));
        var (reason, stop) := StopReason(choice.Get("finish_reason"), TextOf(texts), stops, explicit);
        var usage := payload.Get("usage");
        Ok(Message(MessageId(requestId), model, texts + tools, reason, stop,
                   Tokens(codec, usage, "prompt_tokens"), Tokens(codec, usage, "completion_tokens")))
  }

  // ---------------------------------------------------------------------------------------------
  // Event streams
  // ---------------------------------------------------------------------------------------------

  datatype Block = TextBlock | ToolUseBlock(id: string, name: string)

  datatype Event =
    | MessageStart(id: string, model: string, inputTokens: int)
    | Ping
    | BlockStart(index: nat, block: Block)
    | TextDelta(index: nat, text: string)
    | JsonDelta(index: nat, partial: string)
    | BlockStop(index: nat)
    | MessageDelta(stopReason: string, stopSequence: Option<string>, usageIn: int, usageOut: int)
    | MessageStop
    | StreamError(code: string, detail: string)

  function EncodeBlock(codec: Codec, index: nat, content: Content): seq<Event> {
    match content
    case TextContent(text) =>
      [BlockStart(index, TextBlock), TextDelta(index, text), BlockStop(index)]
    case ToolUse(id, name, input) =>
      [BlockStart(index, ToolUseBlock(id, name)), JsonDelta(index, codec.dump(input)), BlockStop(index)]
  }

  function EncodeBlocks(codec: Codec, index: nat, content: seq<Content>): seq<Event>
    decreases |content|
  {
    if content == [] then []
    else EncodeBlock(codec, index, content[0]) + EncodeBlocks(codec, index + 1, content[1..])
  }

  /** `encode_anthropic_message_stream`. */
  function EncodeMessage(codec: Codec, m: Message): seq<Event> {
    [MessageStart(m.id, m.model, m.inputTokens), Ping]
    + EncodeBlocks(codec, 0, m.content)
    + [MessageDelta(m.stopReason, m.stopSequence, m.inputTokens, m.outputTokens), MessageStop]
  }

  // What a client does with the events: an independent reading of the stream.

  datatype Received = ReceivedText(text: string) | ReceivedTool(id: string, name: string, json: string)

  datatype Reading = Reading(
    id: string,
    model: string,
    blocks: seq<Received>,
    open: bool,
    stopReason: string,
    stopSequence: Option<string>,
    inputTokens: int,
    outputTokens: int,
    complete: bool
  )

  const NOTHING: Reading := Reading("", "", [], false, "", None, 0, 0, false)

  /** One event; an event that does not fit the stream so far is refused. */
  function ReadEvent(r: Reading, e: Event): Option<Reading> {
    if r.complete then None
    else
      match e
      case MessageStart(id, model, input) => Some(r.(id := id, model := model, inputTokens := input))
      case Ping => Some(r)
      case BlockStart(index, block) =>
        if r.open || index != |r.blocks| then None
        else
          var empty := match block
            case TextBlock => ReceivedText("")
            case ToolUseBlock(id, name) => ReceivedTool(id, name, "");
          Some(r.(blocks := r.blocks + [empty], open := true))
      case TextDelta(index, text) =>
        if !r.open || r.blocks == [] || index != |r.blocks| - 1 || !r.blocks[index].ReceivedText? then None
        else Some(r.(blocks := r.blocks[index := ReceivedText(r.blocks[index].text + text)]))
      case JsonDelta(index, partial) =>
        if !r.open || r.blocks == [] || index != |r.blocks| - 1 || !r.blocks[index].ReceivedTool? then None
        else Some(r.(blocks := r.blocks[index := r.blocks[index].(json := r.blocks[index].json + partial)]))
      case BlockStop(index) =>
        if !r.open || r.blocks == [] || index != |r.blocks| - 1 then None else Some(r.(open := false))
      case MessageDelta(reason, stop, input, output) =>
        if r.open then None
        else Some(r.(stopReason := reason, stopSequence := stop, inputTokens := input, outputTokens := output))
      case MessageStop => if r.open then None else Some(r.(complete := true))
      case StreamError(_, _) => None
  }

  function ReadEvents(r: Reading, events: seq<Event>): Option<Reading>
    decreases |events|
  {
    if events == [] then Some(r)
    else
      match ReadEvent(r, events[0])
      case None => None
      case Some(next) => ReadEvents(next, events[1..])
  }

  /** A tool block's input is the JSON its deltas spell, and an empty object when they spell nothing. */
  function Resolve(codec: Codec, blocks: seq<Received>): Option<seq<Content>>
    decreases |blocks|
  {
    if blocks == [] then Some([])
    else
      match Resolve(codec, blocks[1..])
      case None => None
      case Some(rest) =>
        match blocks[0]
        case ReceivedText(text) => Some([TextContent(text)] + rest)
        case ReceivedTool(id, name, json) =>
          match (if json == "" then Some(Obj(map[])) else codec.parse(json))
          case None => None
          case Some(input) => Some([ToolUse(id, name, input)] + rest)
  }

  /** The message a client has after the whole stream. */
  function Decode(codec: Codec, events: seq<Event>): Option<Message> {
    match ReadEvents(NOTHING, events)
    case None => None
    case Some(r) =>
      if !r.complete then None
      else
        match Resolve(codec, r.blocks)
        case None => None
        case Some(content) =>
          Some(Message(r.id, r.model, content, r.stopReason, r.stopSequence, r.inputTokens, r.outputTokens))
  }

  lemma {:induction false} ReadAppend(r: Reading, a: seq<Event>, b: seq<Event>)
    ensures ReadEvents(r, a + b) ==
            match ReadEvents(r, a) { case None => None case Some(s) => ReadEvents(s, b) }
    decreases |a|
  {
    if a == [] {
      assert a + b == b;
    } else {
      assert (a + b)[0] == a[0] && (a + b)[1..] == a[1..] + b;
      if ReadEvent(r, a[0]).Some? {
        ReadAppend(ReadEvent(r, a[0]).value, a[1..], b);
      }
    }
  }

  lemma {:induction false} ReadCons(r: Reading, e: Event, rest: seq<Event>)
    ensures ReadEvents(r, [e] + rest) ==
            match ReadEvent(r, e) { case None => None case Some(s) => ReadEvents(s, rest) }
  {
    assert ([e] + rest)[1..] == rest;
  }

  /** What a client holds after the blocks of `content`. */
  function Holds(codec: Codec, content: seq<Content>): seq<Received> {
    seq(|content|, i requires 0 <= i < |content| =>
      match content[i]
      case TextContent(text) => ReceivedText(text)
      case ToolUse(id, name, input) => ReceivedTool(id, name, codec.dump(input)))
  }

  lemma {:induction false} ReadBlock(codec: Codec, r: Reading, content: Content)
    requires !r.open && !r.complete
    ensures ReadEvents(r, EncodeBlock(codec, |r.blocks|, content)) ==
            Some(r.(blocks := r.blocks + Holds(codec, [content])))
  {
    var n := |r.blocks|;
    var e := EncodeBlock(codec, n, content);
    var r1 := ReadEvent(r, e[0]).value;
    var r2 := ReadEvent(r1, e[1]).value;
    assert e == [e[0]] + ([e[1]] + ([e[2]] + []));
    ReadCons(r, e[0], [e[1]] + ([e[2]] + []));
    ReadCons(r1, e[1], [e[2]] + []);
    ReadCons(r2, e[2], []);
    if content.TextContent? {
      assert "" + content.text == content.text;
    } else {
      assert "" + codec.dump(content.input) == codec.dump(content.input);
    }
    assert r2.blocks == r.blocks + Holds(codec, [content]);
  }

  lemma {:induction false} ReadBlocks(codec: Codec, r: Reading, content: seq<Content>)
    requires !r.open && !r.complete
    ensures ReadEvents(r, EncodeBlocks(codec, |r.blocks|, content)) ==
            Some(r.(blocks := r.blocks + Holds(codec, content)))
    decreases |content|
  {
    if content == [] {
      assert r.blocks + Holds(codec, content) == r.blocks;
    } else {
      var n := |r.blocks|;
      ReadBlock(codec, r, content[0]);
      ReadAppend(r, EncodeBlock(codec, n, content[0]), EncodeBlocks(codec, n + 1, content[1..]));
      var s := r.(blocks := r.blocks + Holds(codec, [content[0]]));
      ReadBlocks(codec, s, content[1..]);
      assert s.blocks + Holds(codec, content[1..]) == r.blocks + Holds(codec, content);
    }
  }

  /** A client takes the printed input for what it was; it takes nothing at all for an empty object. */
  predicate PrintsBack(codec: Codec, input: Json) {
    (if codec.dump(input) == "" then Some(Obj(map[])) else codec.parse(codec.dump(input))) == Some(input)
  }

  /** So with every tool input of the content. */
  predicate AllPrintBack(codec: Codec, content: seq<Content>) {
    forall i :: 0 <= i < |content| && content[i].ToolUse? ==> PrintsBack(codec, content[i].input)
  }

  lemma {:induction false} ResolveHolds(codec: Codec, content: seq<Content>)
    ensures Resolve(codec, Holds(codec, content)) == Some(content) <==> AllPrintBack(codec, content)
    decreases |content|
  {
    if content != [] {
      assert Holds(codec, content)[1..] == Holds(codec, content[1..]);
      ResolveHolds(codec, content[1..]);
      FirstAndRest(codec, content);
    }
  }

  lemma {:induction false} FirstAndRest(codec: Codec, content: seq<Content>)
    requires content != []
    ensures AllPrintBack(codec, content) <==>
            && (content[0].ToolUse? ==> PrintsBack(codec, content[0].input))
            && AllPrintBack(codec, content[1..])
    ensures forall first, rest :: [first] + rest == content <==> first == content[0] && rest == content[1..]
  {
    assert content == [content[0]] + content[1..];
    forall i | 1 <= i < |content| ensures content[i] == content[1..][i - 1] {
    }
    forall first, rest | [first] + rest == content ensures first == content[0] && rest == content[1..] {
      assert ([first] + rest)[0] == first && ([first] + rest)[1..] == rest;
    }
  }

  /** A client reads back from the encoded stream exactly the message, exactly when its tool inputs print back. */
  lemma {:induction false} EncodedMessageDecodes(codec: Codec, m: Message)
    ensures Decode(codec, EncodeMessage(codec, m)) == Some(m) <==> AllPrintBack(codec, m.content)
  {
    var head := [MessageStart(m.id, m.model, m.inputTokens), Ping];
    var body := EncodeBlocks(codec, 0, m.content);
    var last := [MessageDelta(m.stopReason, m.stopSequence, m.inputTokens, m.outputTokens), MessageStop];
    var started := NOTHING.(id := m.id, model := m.model, inputTokens := m.inputTokens);
    assert head == [head[0]] + ([Ping] + []);
    ReadCons(NOTHING, head[0], [Ping] + []);
    ReadCons(started, Ping, []);
    ReadBlocks(codec, started, m.content);
    ReadAppend(NOTHING, head, body);
    ReadAppend(NOTHING, head + body, last);
    var filled := started.(blocks := Holds(codec, m.content));
    assert last == [last[0]] + ([MessageStop] + []);
    ReadCons(filled, last[0], [MessageStop] + []);
    ReadCons(ReadEvent(filled, last[0]).value, MessageStop, []);
    assert [] + Holds(codec, m.content) == Holds(codec, m.content);
    ResolveHolds(codec, m.content);
  }

  // ---------------------------------------------------------------------------------------------
  // What a completion is rendered as, by its fields
  // ---------------------------------------------------------------------------------------------

  predicate IsSuffix(text: string, s: string) {
    |s| <= |text| && forall i :: 0 <= i < |s| ==> text[|text| - |s| + i] == s[i]
  }

  /** The stop sequence at `i` is the first one that is not empty and ends the text. */
  predicate EndsFirst(text: string, stops: seq<string>, i: int) {
    && 0 <= i < |stops| && stops[i] != "" && IsSuffix(text, stops[i])
    && forall j :: 0 <= j < i && stops[j] != "" ==> !IsSuffix(text, stops[j])
  }

  /** The finish reason leaves open what ended the text. */
  predicate IsPlainEnd(finish: Json) {
    finish == Str("stop") || finish == Str("end_turn") || finish == Null
  }

  /** The client is told this stop sequence. */
  ghost predicate NamesStop(finish: Json, text: string, stops: seq<string>, explicit: Option<string>, s: string) {
    IsPlainEnd(finish) &&
    if explicit.Some? && explicit.value in stops then s == explicit.value
    else if exists i :: EndsFirst(text, stops, i) then exists i :: EndsFirst(text, stops, i) && s == stops[i]
    else finish == Str("stop") && stops == [s]
  }

  /** The reason and the stop sequence that belong to a finish reason. */
  ghost predicate StopSays(finish: Json, text: string, stops: seq<string>, explicit: Option<string>, reason: string,
                           stop: Option<string>) {
    && (reason == "max_tokens" <==> finish == Str("length") || finish == Str("max_tokens"))
    && (reason == "tool_use" <==>
        finish == Str("tool_calls") || finish == Str("function_call") || finish == Str("tool_use"))
    && (reason == "stop_sequence" <==> stop.Some?)
    && (reason == "end_turn" <==> reason !in {"max_tokens", "tool_use", "stop_sequence"})
    && forall s :: stop == Some(s) <==> NamesStop(finish, text, stops, explicit, s)
  }

  lemma {:induction false} SuffixExactly(text: string, s: string)
    ensures EndsWith(text, s) <==> IsSuffix(text, s)
  {
    if |s| <= |text| {
      var end := text[|text| - |s|..];
      assert forall i :: 0 <= i < |s| ==> end[i] == text[|text| - |s| + i];
    }
  }

  lemma {:induction false} MatchingStopExactly(text: string, stops: seq<string>)
    ensures match MatchingStop(text, stops)
            case Some(s) => exists i :: EndsFirst(text, stops, i) && s == stops[i]
            case None => forall i :: !EndsFirst(text, stops, i)
    decreases |stops|
  {
    if stops != [] {
      SuffixExactly(text, stops[0]);
      if stops[0] != "" && EndsWith(text, stops[0]) {
        assert EndsFirst(text, stops, 0);
      } else {
        MatchingStopExactly(text, stops[1..]);
        forall i ensures EndsFirst(text, stops, i) <==> EndsFirst(text, stops[1..], i - 1) {
          EndsFirstInTail(text, stops, i);
        }
        if MatchingStop(text, stops[1..]).Some? {
          var i :| EndsFirst(text, stops[1..], i) && MatchingStop(text, stops[1..]).value == stops[1..][i];
          assert EndsFirst(text, stops, i + 1) && stops[i + 1] == stops[1..][i];
        }
      }
    }
  }

  lemma {:induction false} EndsFirstInTail(text: string, stops: seq<string>, i: int)
    requires stops != [] && !(stops[0] != "" && IsSuffix(text, stops[0]))
    ensures EndsFirst(text, stops, i) <==> EndsFirst(text, stops[1..], i - 1)
  {
    assert forall j :: 1 <= j < |stops| ==> stops[j] == stops[1..][j - 1];
    if EndsFirst(text, stops, i) {
      assert i != 0;
    }
    if EndsFirst(text, stops[1..], i - 1) {
      forall j | 0 <= j < i && stops[j] != "" ensures !IsSuffix(text, stops[j]) {
        if j > 0 {
          assert stops[1..][j - 1] == stops[j];
        }
      }
    }
  }

  lemma {:induction false} OneEndsFirst(text: string, stops: seq<string>, i: int, j: int)
    requires EndsFirst(text, stops, i) && EndsFirst(text, stops, j)
    ensures i == j
  {
  }

  lemma {:induction false} StopReasonExactly(finish: Json, text: string, stops: seq<string>, explicit: Json)
    ensures var (reason, stop) := StopReason(finish, text, stops, explicit);
            StopSays(finish, text, stops, if explicit.Str? then Some(explicit.s) else None, reason, stop)
  {
    var (reason, stop) := StopReason(finish, text, stops, explicit);
    var given := if explicit.Str? then Some(explicit.s) else None;
    ReasonsDiffer();
    forall s ensures stop == Some(s) <==> NamesStop(finish, text, stops, given, s) {
      NamedExactly(finish, text, stops, explicit, s);
    }
  }

  lemma {:induction false} NamedExactly(finish: Json, text: string, stops: seq<string>, explicit: Json, s: string)
    ensures StopReason(finish, text, stops, explicit).1 == Some(s) <==>
            NamesStop(finish, text, stops, if explicit.Str? then Some(explicit.s) else None, s)
  {
    ReasonsDiffer();
    MatchingStopExactly(text, stops);
    if MatchingStop(text, stops).Some? {
      var i :| EndsFirst(text, stops, i) && MatchingStop(text, stops).value == stops[i];
      forall j | EndsFirst(text, stops, j) ensures j == i {
        OneEndsFirst(text, stops, i, j);
      }
    }
  }

  lemma {:induction false} ReasonsDiffer()
    ensures "length" != "stop" && "length" != "end_turn" && "max_tokens" != "stop" && "max_tokens" != "end_turn"
    ensures "length" !in {"tool_calls", "function_call", "tool_use"}
    ensures "max_tokens" !in {"tool_calls", "function_call", "tool_use"}
    ensures "stop" !in {"tool_calls", "function_call", "tool_use"}
    ensures "end_turn" !in {"tool_calls", "function_call", "tool_use"}
    ensures "max_tokens" != "tool_use" && "max_tokens" != "stop_sequence" && "max_tokens" != "end_turn"
    ensures "tool_use" != "stop_sequence" && "tool_use" != "end_turn" && "stop_sequence" != "end_turn"
  {
    assert "length"[0] == 'l' && "max_tokens"[0] == 'm' && "stop"[0] == 's' && "end_turn"[0] == 'e';
    assert "tool_calls"[0] == 't' && "function_call"[0] == 'f' && "tool_use"[0] == 't' && "stop_sequence"[0] == 's';
  }

  /** The choice that counts: the first, when there is one and it is an object. */
  predicate IsFirstChoice(payload: Json, choice: Json) {
    var choices := payload.Get("choices");
    if choices.Arr? && choices.items != [] && choices.items[0].Obj? then choice == choices.items[0]
    else choice == Obj(map[])
  }

  predicate IsTextItem(item: Json) {
    item.Obj? && item.Get("type") == Str("text") && item.Get("text").Str?
  }

  /** The texts of the content, when that is nothing, a string or a list of texts. */
  function TextsOf(content: Json): Option<seq<string>> {
    match content
    case Null => Some([])
    case Str(s) => Some(if s == "" then [] else [s])
    case Arr(items) =>
      if forall i :: 0 <= i < |items| ==> IsTextItem(items[i]) then
        Some(seq(|items|, i requires 0 <= i < |items| => items[i].Get("text").s))
      else None
    case _ => None
  }

  /** With the refusal at the end where there is no other text. */
  function SpokenTexts(message: Json): Option<seq<string>> {
    match TextsOf(message.Get("content"))
    case None => None
    case Some(texts) =>
      var refusal := message.Get("refusal");
      Some(if Join(texts) == "" && refusal.Str? && refusal.s != "" then texts + [refusal.s] else texts)
  }

  /** The input of a call: its arguments, parsed where they are a string; none at all are an empty object. */
  function InputOf(codec: Codec, call: Json): Option<Json> {
    var asked := call.Get("function");
    var arguments := asked.Get("arguments");
    if !asked.Obj? then None
    else if "arguments" !in asked.fields then codec.parse("{}")
    else if arguments.Str? then codec.parse(arguments.s)
    else Some(arguments)
  }

  predicate IsUsableCall(codec: Codec, call: Json) {
    var id, name := call.Get("id"), call.Get("function").Get("name");
    && id.Str? && id.s != "" && name.Str? && name.s != ""
    && InputOf(codec, call).Some? && InputOf(codec, call).value.Obj?
  }

  predicate UsableCalls(codec: Codec, calls: Json) {
    calls.Null? || (calls.Arr? && forall i :: 0 <= i < |calls.items| ==> IsUsableCall(codec, calls.items[i]))
  }

  function CallsIn(calls: Json): seq<Json> {
    if calls.Arr? then calls.items else []
  }

  /** The text as it is, then one block for each call. */
  predicate IsContentOf(codec: Codec, texts: seq<string>, calls: seq<Json>, content: seq<Content>) {
    && |content| == |texts| + |calls|
    && (forall i :: 0 <= i < |texts| ==> content[i] == TextContent(texts[i]))
    && forall i :: 0 <= i < |calls| ==>
      && IsUsableCall(codec, calls[i])
      && content[|texts| + i] == ToolUse(calls[i].Get("id").s, calls[i].Get("function").Get("name").s,
          InputOf(codec, calls[i]).value)
  }

  /** The stop sequence that the upstream names itself. */
  function NamedStop(choice: Json): Option<string> {
    var own, matched := choice.Get("stop_sequence"), choice.Get("matched_stop");
    if !IsFalsy(own) then if own.Str? then Some(own.s) else None
    else if matched.Str? then Some(matched.s) else None
  }

  function CountIn(codec: Codec, usage: Json, key: string): int {
    if IsFalsy(usage.Get(key)) then 0 else codec.toInt(usage.Get(key))
  }

  /** A response that can be rendered. */
  predicate IsRenderable(codec: Codec, message: Json) {
    && SpokenTexts(message).Some?
    && message.Get("audio").Null? && message.Get("function_call").Null?
    && UsableCalls(codec, message.Get("tool_calls"))
  }

  /** `m` is the rendering of a response with this choice. */
  ghost predicate IsRendering(codec: Codec, choice: Json, usage: Json, stops: seq<string>, m: Message) {
    var message := choice.Get("message");
    && SpokenTexts(message).Some?
    && IsContentOf(codec, SpokenTexts(message).value, CallsIn(message.Get("tool_calls")), m.content)
    && StopSays(choice.Get("finish_reason"), Join(SpokenTexts(message).value), stops, NamedStop(choice), m.stopReason,
                m.stopSequence)
    && m.inputTokens == CountIn(codec, usage, "prompt_tokens")
    && m.outputTokens == CountIn(codec, usage, "completion_tokens")
  }

  lemma {:induction false} TextBlocksExactly(items: seq<Json>)
    ensures TextBlocks(items).Ok? <==> TextsOf(Arr(items)).Some?
    ensures TextBlocks(items).Ok? ==>
              var texts := TextsOf(Arr(items)).value;
              && |TextBlocks(items).value| == |texts| && TextOf(TextBlocks(items).value) == Join(texts)
              && forall i :: 0 <= i < |texts| ==> TextBlocks(items).value[i] == TextContent(texts[i])
    decreases |items|
  {
    if items != [] {
      TextBlocksExactly(items[1..]);
      assert forall i :: 1 <= i < |items| ==> items[i] == items[1..][i - 1];
      assert IsTextItem(items[0]) ==> (TextsOf(Arr(items)).Some? <==> TextsOf(Arr(items[1..])).Some?);
      if TextBlocks(items).Ok? {
        var texts, rest := TextsOf(Arr(items)).value, TextsOf(Arr(items[1..])).value;
        assert texts == [items[0].Get("text").s] + rest;
        var blocks := TextBlocks(items[1..]).value;
        assert TextBlocks(items).value == [TextContent(items[0].Get("text").s)] + blocks;
        assert ([TextContent(items[0].Get("text").s)] + blocks)[1..] == blocks;
      }
    }
  }

  lemma {:induction false} OneText(s: string)
    ensures TextOf([TextContent(s)]) == s && Join([s]) == s
  {
    JoinSnoc([], s);
    assert [] + [s] == [s] && "" + s == s;
    assert [TextContent(s)][1..] == [];
    assert TextOf([TextContent(s)]) == s + TextOf([]) == s;
  }

  lemma {:induction false} TextOfSnoc(blocks: seq<Content>, s: string)
    ensures TextOf(blocks + [TextContent(s)]) == TextOf(blocks) + s
    decreases |blocks|
  {
    if blocks == [] {
      OneText(s);
      assert [] + [TextContent(s)] == [TextContent(s)];
    } else {
      assert (blocks + [TextContent(s)])[0] == blocks[0];
      assert (blocks + [TextContent(s)])[1..] == blocks[1..] + [TextContent(s)];
      TextOfSnoc(blocks[1..], s);
    }
  }

  lemma {:induction false} ContentTextExactly(content: Json)
    ensures var blocks := match content
                          case Str(s) => Ok(if s != "" then [TextContent(s)] else [])
                          case Arr(items) => TextBlocks(items)
                          case Null => Ok([])
                          case _ => Err("");
            && (blocks.Ok? <==> TextsOf(content).Some?)
            && (blocks.Ok? ==> Tells(blocks.value, TextsOf(content).value))
  {
    match content
    case Str(s) => OneText(s);
    case Arr(items) => TextBlocksExactly(items);
    case _ =>
  }

  /** The blocks are these texts. */
  predicate Tells(blocks: seq<Content>, texts: seq<string>) {
    && |blocks| == |texts| && TextOf(blocks) == Join(texts)
    && forall i :: 0 <= i < |texts| ==> blocks[i] == TextContent(texts[i])
  }

  lemma {:induction false} TellsMore(blocks: seq<Content>, texts: seq<string>, s: string)
    requires Tells(blocks, texts)
    ensures Tells(blocks + [TextContent(s)], texts + [s])
  {
    TextOfSnoc(blocks, s);
    JoinSnoc(texts, s);
  }

  lemma {:induction false} MessageTextExactly(message: Json)
    ensures MessageText(message).Ok? <==> SpokenTexts(message).Some?
    ensures MessageText(message).Ok? ==> Tells(MessageText(message).value, SpokenTexts(message).value)
  {
    var content, refusal := message.Get("content"), message.Get("refusal");
    ContentTextExactly(content);
    if TextsOf(content).Some? && refusal.Str? {
      var blocks := match content
        case Str(s) => if s != "" then [TextContent(s)] else []
        case Arr(items) => TextBlocks(items).value
        case Null => [];
      TellsMore(blocks, TextsOf(content).value, refusal.s);
    }
  }

  lemma {:induction false} ToolBlockExactly(codec: Codec, call: Json)
    ensures ToolBlock(codec, call).Ok? <==> IsUsableCall(codec, call)
    ensures ToolBlock(codec, call).Ok? ==>
              ToolBlock(codec, call).value ==
              ToolUse(call.Get("id").s, call.Get("function").Get("name").s, InputOf(codec, call).value)
  {
  }

  lemma {:induction false} ToolBlocksExactly(codec: Codec, calls: seq<Json>)
    ensures ToolBlocks(codec, calls).Ok? <==> UsableCalls(codec, Arr(calls))
    ensures ToolBlocks(codec, calls).Ok? ==> IsContentOf(codec, [], calls, ToolBlocks(codec, calls).value)
    decreases |calls|
  {
    if calls != [] {
      ToolBlockExactly(codec, calls[0]);
      ToolBlocksExactly(codec, calls[1..]);
      assert forall i :: 1 <= i < |calls| ==> calls[i] == calls[1..][i - 1];
      assert UsableCalls(codec, Arr(calls)) <==> IsUsableCall(codec, calls[0]) && UsableCalls(codec, Arr(calls[1..]));
    }
  }

  lemma {:induction false} TextThenTools(codec: Codec, blocks: seq<Content>, texts: seq<string>, calls: seq<Json>,
                                         tools: seq<Content>)
    requires Tells(blocks, texts) && IsContentOf(codec, [], calls, tools)
    ensures IsContentOf(codec, texts, calls, blocks + tools)
  {
    forall i | 0 <= i < |calls| ensures (blocks + tools)[|texts| + i] == tools[i] {
    }
  }

  /**
    A response is rendered exactly when its first choice has text content and usable tool calls and nothing
    else, and then as those texts, those calls, the reason and stop sequence of its finish, and its usage.
   */
  lemma {:induction false} ResponseExactly(codec: Codec, payload: Json, choice: Json, requestId: string, model: string,
                                           stops: seq<string>)
    requires IsFirstChoice(payload, choice)
    ensures var r := TranslateResponse(codec, payload, requestId, model, stops);
            && (r.Ok? <==> payload.Obj? && IsRenderable(codec, choice.Get("message")))
            && (r.Ok? ==> IsRendering(codec, choice, payload.Get("usage"), stops, r.value))
            && (r.Ok? ==> r.value.id == MessageId(requestId) && r.value.model == model)
  {
    assert FirstChoice(payload) == choice;
    if payload.Obj? {
      var message := if choice.Get("message").Obj? then choice.Get("message") else Obj(map[]);
      SameGets(choice.Get("message"), message);
      SameGets(choice.Get("message"), message);
      RenderableExactly(codec, payload, choice, message, requestId, model, stops);
      if IsRenderable(codec, message) {
        RenderedMessage(codec, payload, choice, message, requestId, model, stops);
      }
    }
  }

  /** A message that is no object reads like an empty one. */
  lemma {:induction false} SameGets(given: Json, message: Json)
    requires message == if given.Obj? then given else Obj(map[])
    ensures forall key :: given.Get(key) == message.Get(key)
    ensures SpokenTexts(given) == SpokenTexts(message)
  {
  }

  /** The translation in terms of its parts. */
  lemma {:induction false} TranslatedParts(codec: Codec, payload: Json, choice: Json, message: Json, requestId: string,
                                           model: string, stops: seq<string>)
    requires payload.Obj? && FirstChoice(payload) == choice
    requires message == if choice.Get("message").Obj? then choice.Get("message") else Obj(map[])
    ensures var r := TranslateResponse(codec, payload, requestId, model, stops);
            var calls := message.Get("tool_calls");
            var texts, tools := MessageText(message), ToolBlocks(codec, CallsIn(calls));
            var explicit := choice.Get("stop_sequence").Or(choice.Get("matched_stop"));
            && (r.Ok? <==> texts.Ok? && message.Get("audio").Null? && message.Get("function_call").Null?
                           && (calls.Null? || (calls.Arr? && tools.Ok?)))
            && (r.Ok? ==>
                  tools.Ok? &&
                  var (reason, stop) := StopReason(choice.Get("finish_reason"), TextOf(texts.value), stops, explicit);
                  r.value == Message(MessageId(requestId), model, texts.value + tools.value, reason, stop,
                                     Tokens(codec, payload.Get("usage"), "prompt_tokens"),
                                     Tokens(codec, payload.Get("usage"), "completion_tokens")))
  {
  }

  lemma {:induction false} RenderableExactly(codec: Codec, payload: Json, choice: Json, message: Json,
                                             requestId: string, model: string, stops: seq<string>)
    requires payload.Obj? && FirstChoice(payload) == choice
    requires message == if choice.Get("message").Obj? then choice.Get("message") else Obj(map[])
    ensures TranslateResponse(codec, payload, requestId, model, stops).Ok? <==> IsRenderable(codec, message)
  {
    TranslatedParts(codec, payload, choice, message, requestId, model, stops);
    MessageTextExactly(message);
    ToolBlocksExactly(codec, CallsIn(message.Get("tool_calls")));
  }

  lemma {:induction false} RenderedMessage(codec: Codec, payload: Json, choice: Json, message: Json, requestId: string,
                                           model: string, stops: seq<string>)
    requires payload.Obj? && FirstChoice(payload) == choice
    requires message == if choice.Get("message").Obj? then choice.Get("message") else Obj(map[])
    requires TranslateResponse(codec, payload, requestId, model, stops).Ok?
    ensures var m := TranslateResponse(codec, payload, requestId, model, stops).value;
            IsRendering(codec, choice, payload.Get("usage"), stops, m) &&
            m.id == MessageId(requestId) && m.model == model
  {
    var calls := CallsIn(message.Get("tool_calls"));
    var m := TranslateResponse(codec, payload, requestId, model, stops).value;
    TranslatedParts(codec, payload, choice, message, requestId, model, stops);
    MessageTextExactly(message);
    ToolBlocksExactly(codec, calls);
    SameGets(choice.Get("message"), message);
    var blocks := MessageText(message).value;
    RenderedEnd(codec, payload, choice, blocks, stops);
    PartsRender(codec, choice, message, payload.Get("usage"), stops, blocks, ToolBlocks(codec, calls).value, m);
  }

  lemma {:induction false} PartsRender(codec: Codec, choice: Json, message: Json, usage: Json, stops: seq<string>,
                                       blocks: seq<Content>, tools: seq<Content>, m: Message)
    requires SpokenTexts(choice.Get("message")) == SpokenTexts(message)
    requires choice.Get("message").Get("tool_calls") == message.Get("tool_calls")
    requires SpokenTexts(message).Some? && Tells(blocks, SpokenTexts(message).value)
    requires IsContentOf(codec, [], CallsIn(message.Get("tool_calls")), tools) && m.content == blocks + tools
    requires StopSays(choice.Get("finish_reason"), TextOf(blocks), stops, NamedStop(choice), m.stopReason,
                      m.stopSequence)
    requires m.inputTokens == CountIn(codec, usage, "prompt_tokens")
    requires m.outputTokens == CountIn(codec, usage, "completion_tokens")
    ensures IsRendering(codec, choice, usage, stops, m)
  {
    TextThenTools(codec, blocks, SpokenTexts(message).value, CallsIn(message.Get("tool_calls")), tools);
  }

  /** The reason, the stop sequence and the usage. */
  lemma {:induction false} RenderedEnd(codec: Codec, payload: Json, choice: Json, blocks: seq<Content>,
                                       stops: seq<string>)
    ensures var explicit := choice.Get("stop_sequence").Or(choice.Get("matched_stop"));
            var (reason, stop) := StopReason(choice.Get("finish_reason"), TextOf(blocks), stops, explicit);
            StopSays(choice.Get("finish_reason"), TextOf(blocks), stops, NamedStop(choice), reason, stop)
    ensures forall key :: Tokens(codec, payload.Get("usage"), key) == CountIn(codec, payload.Get("usage"), key)
  {
    var explicit := choice.Get("stop_sequence").Or(choice.Get("matched_stop"));
    FalsyExactly(choice.Get("stop_sequence"));
    StopReasonExactly(choice.Get("finish_reason"), TextOf(blocks), stops, explicit);
    forall key ensures Tokens(codec, payload.Get("usage"), key) == CountIn(codec, payload.Get("usage"), key) {
      FalsyExactly(payload.Get("usage").Get(key));
    }
  }

  // ---- message ids ----

  /** A character that may stay in a message id. */
  predicate IsIdChar(c: char) {
    'a' <= c <= 'z' || 'A' <= c <= 'Z' || '0' <= c <= '9' || c == '-' || c == '_'
  }

  lemma {:induction false} OneSafeCharacter(c: char)
    ensures SafeCharacters([c]) == if IsIdChar(c) then [c] else ""
  {
    assert [c][1..] == "";
    assert SafeCharacters([c][1..]) == "";
  }

  lemma {:induction false} FirstSafeCharacter(c: char, rest: string)
    ensures SafeCharacters([c] + rest) == (if IsIdChar(c) then [c] else "") + SafeCharacters(rest)
  {
    assert ([c] + rest)[0] == c && ([c] + rest)[1..] == rest;
  }

  lemma {:induction false} SafeCharactersExactly(s: string, c: char)
    ensures SafeCharacters(s + [c]) == SafeCharacters(s) + if IsIdChar(c) then [c] else ""
    decreases |s|
  {
    if s == "" {
      assert s + [c] == [c];
      OneSafeCharacter(c);
    } else {
      var first, rest := s[0], s[1..];
      assert s == [first] + rest && s + [c] == [first] + (rest + [c]);
      SafeCharactersExactly(rest, c);
      FirstSafeCharacter(first, rest);
      FirstSafeCharacter(first, rest + [c]);
      JoinsOn(if IsIdChar(first) then [first] else "", SafeCharacters(rest), if IsIdChar(c) then [c] else "");
    }
  }

  lemma {:induction false} JoinsOn(a: string, b: string, c: string)
    ensures a + (b + c) == (a + b) + c
  {
  }

  /** A message id is the safe characters of the request id, in order, or a word for none of them. */
  lemma {:induction false} MessageIdExactly(requestId: string, c: char)
    ensures MessageId("") == "msg_request"
    ensures SafeCharacters("") == ""
    ensures SafeCharacters(requestId) != "" ==> MessageId(requestId) == "msg_" + SafeCharacters(requestId)
    ensures SafeCharacters(requestId) == "" ==> MessageId(requestId) == "msg_request"
    ensures SafeCharacters(requestId + [c]) == SafeCharacters(requestId) + if IsIdChar(c) then [c] else ""
  {
    SafeCharactersExactly(requestId, c);
    assert "msg_" + "request" == "msg_request";
  }
}
