/**
  The request side of `src/ficelle/anthropic_messages.py`: Anthropic turns become chat messages.

  Tool results come first and the user's own words after them.  When every turn of tool calls is
  answered by the next turn, each assistant message with calls is followed immediately by exactly its
  results; and nothing said is lost or reordered.  The set of ignored field names is not modelled.
 */
module MessageTranslation {
  import opened Json
  import opened Text
  import opened Wrappers

  /** `json.dumps` without spaces. */
  type Dumper = Json -> string

  datatype RequestError =
    | NotAnObject
    | RoleUnsupported
    | ContentInvalid
    | TextNotAString
    | ImageNotFromUser
    | ImageInvalid
    | ToolUseNotFromAssistant
    | ToolUseIncomplete
    | ToolInputNotAnObject
    | ToolResultNotFromUser
    | ToolResultWithoutId
    | IsErrorNotABoolean
    | BlockUnsupported

  datatype ToolCall = ToolCall(id: string, name: string, arguments: string)

  /** A chat message: a turn, with its tool calls if it has any, or the result of one call. */
  datatype ChatMessage =
    | Turn(role: string, content: Json, calls: seq<ToolCall>)
    | Answer(id: string, content: Json)

  /** What a content block contributes. */
  datatype Piece =
    | Part(part: Json)
    | Call(call: ToolCall)
    | Reply(id: string, content: Json)
    | Nothing

  function TextPart(text: string): Json {
    Obj(map["type" := Str("text"), "text" := Str(text)])
  }

  predicate OnlyKeys(value: Json, keys: set<string>)
    requires value.Obj?
  {
    value.fields.Keys <= keys
  }

  /** `_image_part`. */
  function ImagePart(block: Json): Result<Json, RequestError> {
    var source := block.Get("source");
    if !source.Obj? then Err(ImageInvalid)
    else if source.Get("type") == Str("base64") then
      if !OnlyKeys(source, {"type", "media_type", "data"}) || !source.Get("media_type").Str? || !source.Get("data").Str?
      then Err(ImageInvalid)
      else Ok(ImageUrl("data:" + source.Get("media_type").s + ";base64," + source.Get("data").s))
    else if source.Get("type") == Str("url") then
      if !OnlyKeys(source, {"type", "url"}) || !source.Get("url").IsText() then Err(ImageInvalid)
      else Ok(ImageUrl(source.Get("url").s))
    else Err(ImageInvalid)
  }

  function ImageUrl(url: string): Json {
    Obj(map["type" := Str("image_url"), "image_url" := Obj(map["url" := Str(url)])])
  }

  predicate IsThinking(kind: Json) {
    kind == Str("thinking") || kind == Str("redacted_thinking")
  }

  /** The pieces of a tool result: text as strings, images as parts. */
  function ResultPieces(blocks: seq<Json>): Result<seq<Json>, RequestError> {
    if blocks == [] then Ok([])
    else
      var block := blocks[0];
      var kind := block.Get("type");
      if !block.Obj? then Err(NotAnObject)
      else if kind == Str("text") && block.Get("text").Str? then
        var rest :- ResultPieces(blocks[1..]);
        Ok([block.Get("text")] + rest)
      else if kind == Str("image") then
        var image :- ImagePart(block);
        var rest :- ResultPieces(blocks[1..]);
        Ok([image] + rest)
      else if IsThinking(kind) then ResultPieces(blocks[1..])
      else Err(BlockUnsupported)
  }

  function JoinTexts(pieces: seq<Json>): string {
    if pieces == [] then "" else (if pieces[0].Str? then pieces[0].s else "") + JoinTexts(pieces[1..])
  }

  function AsParts(pieces: seq<Json>): seq<Json> {
    if pieces == [] then []
    else [if pieces[0].Str? then TextPart(pieces[0].s) else pieces[0]] + AsParts(pieces[1..])
  }

  /** `_tool_result_content`. */
  function ResultContent(dump: Dumper, content: Json): Result<Json, RequestError> {
    match content
    case Str(_) => Ok(content)
    case Null => Ok(Str(""))
    case Arr(blocks) =>
      var pieces :- ResultPieces(blocks);
      if forall i :: 0 <= i < |pieces| ==> pieces[i].Str? then Ok(Str(JoinTexts(pieces))) else Ok(Arr(AsParts(pieces)))
    case _ => Ok(Str(dump(content)))
  }

  /** `value.get(key, default)`. */
  function GetOrElse(value: Json, key: string, default: Json): Json {
    if value.Obj? && key in value.fields then value.fields[key] else default
  }

  function ReadBlock(dump: Dumper, role: string, block: Json): Result<Piece, RequestError> {
    var kind := block.Get("type");
    if !block.Obj? then Err(NotAnObject)
    else if kind == Str("text") then
      if block.Get("text").Str? then Ok(Part(TextPart(block.Get("text").s))) else Err(TextNotAString)
    else if kind == Str("image") then
      if role != "user" then Err(ImageNotFromUser)
      else
        var image :- ImagePart(block);
        Ok(Part(image))
    else if IsThinking(kind) then Ok(Nothing)
    else if kind == Str("tool_use") then ReadToolUse(dump, role, block)
    else if kind == Str("tool_result") then ReadToolResult(dump, role, block)
    else Err(BlockUnsupported)
  }

  function ReadToolUse(dump: Dumper, role: string, block: Json): Result<Piece, RequestError> {
    var input := GetOrElse(block, "input", Obj(map[]));
    if role != "assistant" then Err(ToolUseNotFromAssistant)
    else if !block.Get("id").IsText() || !block.Get("name").IsText() then Err(ToolUseIncomplete)
    else if !input.Obj? then Err(ToolInputNotAnObject)
    else Ok(Call(ToolCall(block.Get("id").s, block.Get("name").s, dump(input))))
  }

  function ReadToolResult(dump: Dumper, role: string, block: Json): Result<Piece, RequestError> {
    if role != "user" then Err(ToolResultNotFromUser)
    else if !block.Get("tool_use_id").IsText() then Err(ToolResultWithoutId)
    else if block.Obj? && "is_error" in block.fields && !block.fields["is_error"].Bool? then Err(IsErrorNotABoolean)
    else
      var content :- ResultContent(dump, GetOrElse(block, "content", Str("")));
      Ok(Reply(block.Get("tool_use_id").s, content))
  }

  type Reader = Json -> Result<Piece, RequestError>

  /** How the blocks of a turn of this role are read. */
  function Reading(dump: Dumper, role: string): Reader {
    (block: Json) => ReadBlock(dump, role, block)
  }

  /** The first `n` blocks. */
  function ReadBlocks(read: Reader, blocks: seq<Json>, n: nat): Result<seq<Piece>, RequestError>
    requires n <= |blocks|
  {
    if n == 0 then Ok([])
    else
      var before :- ReadBlocks(read, blocks, n - 1);
      var piece :- read(blocks[n - 1]);
      Ok(before + [piece])
  }

  function PartsOf(pieces: seq<Piece>): seq<Json>
    decreases |pieces|
  {
    if pieces == [] then []
    else PartsOf(pieces[..|pieces| - 1]) + if pieces[|pieces| - 1].Part? then [pieces[|pieces| - 1].part] else []
  }

  function CallsOf(pieces: seq<Piece>): seq<ToolCall>
    decreases |pieces|
  {
    if pieces == [] then []
    else CallsOf(pieces[..|pieces| - 1]) + if pieces[|pieces| - 1].Call? then [pieces[|pieces| - 1].call] else []
  }

  function AnswersOf(pieces: seq<Piece>): seq<ChatMessage>
    decreases |pieces|
  {
    if pieces == [] then []
    else
      var last := pieces[|pieces| - 1];
      AnswersOf(pieces[..|pieces| - 1]) + if last.Reply? then [Answer(last.id, last.content)] else []
  }

  predicate IsTextPart(part: Json) {
    part.Get("type") == Str("text")
  }

  function PartTexts(parts: seq<Json>): string {
    if parts == [] then ""
    else
      (if IsTextPart(parts[0]) && parts[0].Get("text").Str? then parts[0].Get("text").s else "")
      + PartTexts(parts[1..])
  }

  /** Text alone is one string, nothing at all is null, and anything else stays a list of parts. */
  function ContentOf(parts: seq<Json>): Json {
    if parts == [] then Null
    else if forall i :: 0 <= i < |parts| ==> IsTextPart(parts[i]) then Str(PartTexts(parts))
    else Arr(parts)
  }

  function TurnOf(role: string, parts: seq<Json>, calls: seq<ToolCall>): seq<ChatMessage> {
    if parts == [] && calls == [] then [] else [Turn(role, ContentOf(parts), calls)]
  }

  /** The user's results go before what the user says. */
  function InOrder(role: string, answers: seq<ChatMessage>, turn: seq<ChatMessage>): seq<ChatMessage> {
    if role == "user" && answers != [] then answers + turn else turn + answers
  }

  function Assemble(role: string, pieces: seq<Piece>): seq<ChatMessage> {
    InOrder(role, AnswersOf(pieces), TurnOf(role, PartsOf(pieces), CallsOf(pieces)))
  }

  function RoleOf(message: Json): string {
    if message.Get("role").Str? then message.Get("role").s else ""
  }

  /** `_message`. */
  function TranslateMessage(dump: Dumper, message: Json): Result<seq<ChatMessage>, RequestError> {
    var role, content := RoleOf(message), GetOrElse(message, "content", Str(""));
    if !message.Obj? then Err(NotAnObject)
    else if role != "user" && role != "assistant" then Err(RoleUnsupported)
    else if content.Str? then Ok([Turn(role, content, [])])
    else if !content.Arr? then Err(ContentInvalid)
    else
      var pieces :- ReadBlocks(Reading(dump, role), content.items, |content.items|);
      Ok(Assemble(role, pieces))
  }

  function TranslateMessages(dump: Dumper, messages: seq<Json>): Result<seq<ChatMessage>, RequestError> {
    if messages == [] then Ok([])
    else
      var first :- TranslateMessage(dump, messages[0]);
      var rest :- TranslateMessages(dump, messages[1..]);
      Ok(first + rest)
  }

  // ---------------------------------------------------------------------------------------------
  // As the source does it: three lists filled block by block
  // ---------------------------------------------------------------------------------------------

  method Message(dump: Dumper, message: Json) returns (r: Result<seq<ChatMessage>, RequestError>)
    ensures r == TranslateMessage(dump, message)
  {
    var role, content := RoleOf(message), GetOrElse(message, "content", Str(""));
    if !message.Obj? {
      return Err(NotAnObject);
    }
    if role != "user" && role != "assistant" {
      return Err(RoleUnsupported);
    }
    if content.Str? {
      return Ok([Turn(role, content, [])]);
    }
    if !content.Arr? {
      return Err(ContentInvalid);
    }
    var lists := FillLists(dump, role, content.items);
    if lists.Err? {
      return Err(lists.error);
    }
    var result := AddTurn(role, lists.value.answers, lists.value.regular, lists.value.calls);
    return Ok(result);
  }

  datatype Lists = Lists(answers: seq<ChatMessage>, regular: seq<Json>, calls: seq<ToolCall>)

  function Add(lists: Lists, piece: Piece): Lists {
    match piece
    case Part(part) => lists.(regular := lists.regular + [part])
    case Call(call) => lists.(calls := lists.calls + [call])
    case Reply(id, content) => lists.(answers := lists.answers + [Answer(id, content)])
    case Nothing => lists
  }

  function ListsOf(pieces: seq<Piece>): Lists {
    Lists(AnswersOf(pieces), PartsOf(pieces), CallsOf(pieces))
  }

  method FillLists(dump: Dumper, role: string, blocks: seq<Json>) returns (r: Result<Lists, RequestError>)
    ensures r == match ReadBlocks(Reading(dump, role), blocks, |blocks|)
                 case Ok(pieces) => Ok(ListsOf(pieces))
                 case Err(e) => Err(e)
  {
    var lists := Lists([], [], []);
    ghost var pieces: seq<Piece> := [];
    var n: nat := 0;
    while n < |blocks|
      invariant n <= |blocks|
      invariant ReadBlocks(Reading(dump, role), blocks, n) == Ok(pieces)
      invariant lists == ListsOf(pieces)
    {
      var piece := ReadBlock(dump, role, blocks[n]);
      if piece.Err? {
        StopsAtError(Reading(dump, role), blocks, n + 1, |blocks|);
        return Err(piece.error);
      }
      AddIsLast(pieces, piece.value);
      lists := Add(lists, piece.value);
      pieces := pieces + [piece.value];
      n := n + 1;
    }
    return Ok(lists);
  }

  lemma {:induction false} LastPiece(before: seq<Piece>, piece: Piece)
    ensures PartsOf(before + [piece]) == PartsOf(before) + if piece.Part? then [piece.part] else []
    ensures CallsOf(before + [piece]) == CallsOf(before) + if piece.Call? then [piece.call] else []
    ensures AnswersOf(before + [piece]) ==
            AnswersOf(before) + if piece.Reply? then [Answer(piece.id, piece.content)] else []
  {
    assert (before + [piece])[..|before|] == before;
  }

  lemma {:induction false} AddIsLast(pieces: seq<Piece>, piece: Piece)
    ensures Add(ListsOf(pieces), piece) == ListsOf(pieces + [piece])
  {
    LastPiece(pieces, piece);
  }

  method AddTurn(role: string, answers: seq<ChatMessage>, regular: seq<Json>, toolCalls: seq<ToolCall>)
    returns (result: seq<ChatMessage>)
    ensures result == InOrder(role, answers, TurnOf(role, regular, toolCalls))
  {
    result := answers;
    if regular != [] || toolCalls != [] {
      var entry := Turn(role, ContentOf(regular), toolCalls);
      if role == "user" && result != [] {
        result := result + [entry];
      } else {
        result := [entry] + result;
      }
    }
  }

  lemma {:induction false} StopsAtError(read: Reader, blocks: seq<Json>, n: nat, m: nat)
    requires n <= m <= |blocks| && ReadBlocks(read, blocks, n).Err?
    ensures ReadBlocks(read, blocks, m) == ReadBlocks(read, blocks, n)
    decreases m - n
  {
    if n < m {
      StopsAtError(read, blocks, n, m - 1);
    }
  }

  // ---------------------------------------------------------------------------------------------
  // Tool results follow their calls
  // ---------------------------------------------------------------------------------------------

  /** The ids under which a turn asks for tools, and those it answers, read off its blocks. */
  function BlockIds(blocks: seq<Json>, kind: string, key: string): multiset<string>
    decreases |blocks|
  {
    if blocks == [] then multiset{}
    else
      var last := blocks[|blocks| - 1];
      BlockIds(blocks[..|blocks| - 1], kind, key)
      + if last.Get("type") == Str(kind) && last.Get(key).Str? then multiset{last.Get(key).s} else multiset{}
  }

  function Blocks(message: Json): seq<Json> {
    var content := GetOrElse(message, "content", Str(""));
    if content.Arr? then content.items else []
  }

  function Asked(message: Json): multiset<string> {
    BlockIds(Blocks(message), "tool_use", "id")
  }

  function Answered(message: Json): multiset<string> {
    BlockIds(Blocks(message), "tool_result", "tool_use_id")
  }

  /** Every turn answers exactly what the turn before it asked for; nothing is owed at the end. */
  predicate EveryCallAnswered(messages: seq<Json>, owed: multiset<string>) {
    if messages == [] then owed == multiset{}
    else Answered(messages[0]) == owed && EveryCallAnswered(messages[1..], Asked(messages[0]))
  }

  function CallIds(calls: seq<ToolCall>): multiset<string>
    decreases |calls|
  {
    if calls == [] then multiset{} else CallIds(calls[..|calls| - 1]) + multiset{calls[|calls| - 1].id}
  }

  function AnswerIds(answers: seq<ChatMessage>): multiset<string>
    decreases |answers|
  {
    if answers == [] then multiset{}
    else
      AnswerIds(answers[..|answers| - 1])
      + if answers[|answers| - 1].Answer? then multiset{answers[|answers| - 1].id} else multiset{}
  }

  predicate AllAnswers(messages: seq<ChatMessage>) {
    forall i :: 0 <= i < |messages| ==> messages[i].Answer?
  }

  /** The list starts with exactly these results, and then every call is followed by its results. */
  ghost predicate PairedAfter(messages: seq<ChatMessage>, owed: multiset<string>)
    decreases |messages|, 1
  {
    exists n: nat :: n <= |messages| && AnswersFirst(messages, n, owed) && Paired(messages[n..])
  }

  predicate AnswersFirst(messages: seq<ChatMessage>, n: nat, owed: multiset<string>)
    requires n <= |messages|
  {
    AllAnswers(messages[..n]) && AnswerIds(messages[..n]) == owed
  }

  /** Each turn is followed at once by the results of its calls and by no others. */
  ghost predicate Paired(messages: seq<ChatMessage>)
    decreases |messages|, 0
  {
    messages == [] || (messages[0].Turn? && PairedAfter(messages[1..], CallIds(messages[0].calls)))
  }

  /** The pieces hold the ids that the blocks name, calls in assistant turns and results in user turns only. */
  ghost predicate PiecesHold(role: string, blocks: seq<Json>, pieces: seq<Piece>) {
    CallsHold(role, blocks, CallsOf(pieces)) && AnswersHold(role, blocks, AnswersOf(pieces))
  }

  ghost predicate CallsHold(role: string, blocks: seq<Json>, calls: seq<ToolCall>) {
    CallIds(calls) == BlockIds(blocks, "tool_use", "id") && (role != "assistant" ==> calls == [])
  }

  ghost predicate AnswersHold(role: string, blocks: seq<Json>, answers: seq<ChatMessage>) {
    && AnswerIds(answers) == BlockIds(blocks, "tool_result", "tool_use_id")
    && AllAnswers(answers)
    && (role != "user" ==> answers == [])
  }

  lemma {:induction false} LastBlockId(blocks: seq<Json>, block: Json, kind: string, key: string)
    ensures BlockIds(blocks + [block], kind, key) ==
            BlockIds(blocks, kind, key)
            + if block.Get("type") == Str(kind) && block.Get(key).Str? then multiset{block.Get(key).s} else multiset{}
  {
    assert (blocks + [block])[..|blocks|] == blocks;
  }

  lemma {:induction false} OneMoreCallHeld(role: string, blocks: seq<Json>, calls: seq<ToolCall>, block: Json,
                                           piece: Piece)
    requires CallsHold(role, blocks, calls) && PieceFits(role, block, piece)
    ensures CallsHold(role, blocks + [block], calls + if piece.Call? then [piece.call] else [])
  {
    LastBlockId(blocks, block, "tool_use", "id");
    OneMoreCall(calls, piece);
  }

  lemma {:induction false} OneMoreAnswerHeld(role: string, blocks: seq<Json>, answers: seq<ChatMessage>, block: Json,
                                             piece: Piece)
    requires AnswersHold(role, blocks, answers) && PieceFits(role, block, piece)
    ensures AnswersHold(role, blocks + [block],
                        answers + if piece.Reply? then [Answer(piece.id, piece.content)] else [])
  {
    LastBlockId(blocks, block, "tool_result", "tool_use_id");
    OneMoreAnswer(answers, piece);
  }

  ghost predicate PieceFits(role: string, block: Json, piece: Piece) {
    && (piece.Call? <==> block.Get("type") == Str("tool_use") && block.Get("id").Str?)
    && (piece.Call? ==> piece.call.id == block.Get("id").s && role == "assistant")
    && (piece.Reply? <==> block.Get("type") == Str("tool_result") && block.Get("tool_use_id").Str?)
    && (piece.Reply? ==> piece.id == block.Get("tool_use_id").s && role == "user")
  }

  lemma {:induction false} OneMorePiece(role: string, blocks: seq<Json>, pieces: seq<Piece>, block: Json, piece: Piece)
    requires PiecesHold(role, blocks, pieces) && PieceFits(role, block, piece)
    ensures PiecesHold(role, blocks + [block], pieces + [piece])
  {
    LastPiece(pieces, piece);
    OneMoreCallHeld(role, blocks, CallsOf(pieces), block, piece);
    OneMoreAnswerHeld(role, blocks, AnswersOf(pieces), block, piece);
  }

  lemma {:induction false} TakeSnoc(blocks: seq<Json>, n: nat)
    requires 0 < n <= |blocks|
    ensures blocks[..n] == blocks[..n - 1] + [blocks[n - 1]]
  {
  }

  /** The blocks are read one by one. */
  lemma {:induction false} ReadEach(read: Reader, blocks: seq<Json>, n: nat, pieces: seq<Piece>)
    requires n <= |blocks| && ReadBlocks(read, blocks, n) == Ok(pieces)
    ensures |pieces| == n && forall i :: 0 <= i < n ==> read(blocks[i]) == Ok(pieces[i])
    decreases n
  {
    if n > 0 {
      var before := ReadBlocks(read, blocks, n - 1).value;
      ReadEach(read, blocks, n - 1, before);
    }
  }

  /** All can be read exactly when each one can. */
  lemma {:induction false} ReadsAll(read: Reader, blocks: seq<Json>, n: nat)
    requires n <= |blocks|
    ensures ReadBlocks(read, blocks, n).Ok? <==> forall i :: 0 <= i < n ==> read(blocks[i]).Ok?
    decreases n
  {
    if n > 0 {
      ReadsAll(read, blocks, n - 1);
    }
  }

  lemma {:induction false} NoPieces(role: string, blocks: seq<Json>, pieces: seq<Piece>)
    requires blocks == [] && pieces == []
    ensures PiecesHold(role, blocks, pieces)
  {
  }

  lemma {:induction false} PiecesGrow(role: string, blocks: seq<Json>, n: nat, before: seq<Piece>, piece: Piece)
    requires 0 < n <= |blocks| && PiecesHold(role, blocks[..n - 1], before) && PieceFits(role, blocks[n - 1], piece)
    ensures PiecesHold(role, blocks[..n], before + [piece])
  {
    TakeSnoc(blocks, n);
    OneMorePiece(role, blocks[..n - 1], before, blocks[n - 1], piece);
  }

  lemma {:induction false} PiecesMatch(dump: Dumper, role: string, blocks: seq<Json>, n: nat, pieces: seq<Piece>)
    requires n <= |blocks| && ReadBlocks(Reading(dump, role), blocks, n) == Ok(pieces)
    ensures PiecesHold(role, blocks[..n], pieces)
  {
    ReadPiecesFit(dump, role, blocks, n, pieces);
    FittingPiecesHold(role, blocks, n, pieces);
  }

  ghost predicate AllFit(role: string, blocks: seq<Json>, pieces: seq<Piece>) {
    |pieces| <= |blocks| && forall i :: 0 <= i < |pieces| ==> PieceFits(role, blocks[i], pieces[i])
  }

  lemma {:induction false} ReadPiecesFit(dump: Dumper, role: string, blocks: seq<Json>, n: nat, pieces: seq<Piece>)
    requires n <= |blocks| && ReadBlocks(Reading(dump, role), blocks, n) == Ok(pieces)
    ensures |pieces| == n && AllFit(role, blocks, pieces)
  {
    ReadEach(Reading(dump, role), blocks, n, pieces);
    forall i | 0 <= i < n ensures PieceFits(role, blocks[i], pieces[i]) {
      OnePiece(dump, role, blocks[i]);
    }
  }

  lemma {:induction false} FittingPiecesHold(role: string, blocks: seq<Json>, n: nat, pieces: seq<Piece>)
    requires n == |pieces| && AllFit(role, blocks, pieces)
    ensures PiecesHold(role, blocks[..n], pieces)
    decreases n
  {
    if n == 0 {
      NoPieces(role, blocks[..n], pieces);
    } else {
      var before, piece := pieces[..n - 1], pieces[n - 1];
      assert pieces == before + [piece];
      FittingPiecesHold(role, blocks, n - 1, before);
      PiecesGrow(role, blocks, n, before, piece);
    }
  }

  lemma {:induction false} OneMoreCall(calls: seq<ToolCall>, piece: Piece)
    ensures CallIds(calls + if piece.Call? then [piece.call] else []) ==
            CallIds(calls) + if piece.Call? then multiset{piece.call.id} else multiset{}
  {
    if piece.Call? {
      assert (calls + [piece.call])[..|calls|] == calls;
    } else {
      assert calls + [] == calls;
    }
  }

  lemma {:induction false} OneMoreAnswer(answers: seq<ChatMessage>, piece: Piece)
    ensures AnswerIds(answers + if piece.Reply? then [Answer(piece.id, piece.content)] else []) ==
            AnswerIds(answers) + if piece.Reply? then multiset{piece.id} else multiset{}
  {
    if piece.Reply? {
      assert (answers + [Answer(piece.id, piece.content)])[..|answers|] == answers;
    } else {
      assert answers + [] == answers;
    }
  }

  lemma {:induction false} KindsDiffer()
    ensures "tool_use" != "tool_result" && "tool_use" != "text" && "tool_use" != "image"
    ensures "tool_result" != "text" && "tool_result" != "image"
    ensures "tool_use" != "thinking" && "tool_use" != "redacted_thinking"
    ensures "tool_result" != "thinking" && "tool_result" != "redacted_thinking"
    ensures "user" != "assistant"
  {
    assert |"tool_use"| == 8 && |"tool_result"| == 11 && |"text"| == 4 && |"image"| == 5;
    assert |"thinking"| == 8 && |"redacted_thinking"| == 17 && "tool_use"[1] == 'o' && "thinking"[1] == 'h';
    assert |"user"| == 4 && |"assistant"| == 9;
  }

  lemma {:induction false} OnePiece(dump: Dumper, role: string, block: Json)
    ensures match ReadBlock(dump, role, block)
            case Ok(piece) => PieceFits(role, block, piece)
            case Err(_) => true
  {
    KindsDiffer();
  }

  lemma {:induction false} BlocksShape(dump: Dumper, message: Json, blocks: seq<Json>, pieces: seq<Piece>)
    requires GetOrElse(message, "content", Str("")) == Arr(blocks)
    requires ReadBlocks(Reading(dump, RoleOf(message)), blocks, |blocks|) == Ok(pieces)
    ensures IsShape(message, Assemble(RoleOf(message), pieces), AnswersOf(pieces), CallsOf(pieces),
                    TurnOf(RoleOf(message), PartsOf(pieces), CallsOf(pieces)))
  {
    var role := RoleOf(message);
    var turn := TurnOf(role, PartsOf(pieces), CallsOf(pieces));
    PiecesMatch(dump, role, blocks, |blocks|, pieces);
    assert blocks[..|blocks|] == blocks;
    assert turn + [] == turn && [] + turn == turn;
  }

  /** A turn in the translation: its results if it is the user's, then what it says and asks for. */
  lemma {:induction false} TurnShape(dump: Dumper, message: Json)
    ensures match TranslateMessage(dump, message)
            case Ok(out) =>
              exists answers, calls, turn :: IsShape(message, out, answers, calls, turn)
            case Err(_) => true
  {
    KindsDiffer();
    var r := TranslateMessage(dump, message);
    if r.Ok? {
      var content, role := GetOrElse(message, "content", Str("")), RoleOf(message);
      if content.Str? {
        assert IsShape(message, r.value, [], [], r.value);
      } else {
        var pieces := ReadBlocks(Reading(dump, role), content.items, |content.items|).value;
        BlocksShape(dump, message, content.items, pieces);
        var turn := TurnOf(role, PartsOf(pieces), CallsOf(pieces));
        assert IsShape(message, r.value, AnswersOf(pieces), CallsOf(pieces), turn);
      }
    }
  }

  ghost predicate IsShape(message: Json, out: seq<ChatMessage>, answers: seq<ChatMessage>, calls: seq<ToolCall>,
                          turn: seq<ChatMessage>) {
    && out == answers + turn
    && AllAnswers(answers) && AnswerIds(answers) == Answered(message)
    && CallIds(calls) == Asked(message)
    && (calls == [] || answers == [])
    && (if turn == [] then calls == [] else |turn| == 1 && turn[0].Turn? && turn[0].calls == calls)
  }

  lemma {:induction false} NothingOwed(messages: seq<ChatMessage>)
    ensures PairedAfter(messages, multiset{}) ==> Paired(messages)
  {
    if PairedAfter(messages, multiset{}) {
      var n: nat :| n <= |messages| && AnswersFirst(messages, n, multiset{}) && Paired(messages[n..]);
      EachAnswerCounts(messages[..n]);
      assert messages[0..] == messages;
    }
  }

  lemma {:induction false} EachAnswerCounts(answers: seq<ChatMessage>)
    requires AllAnswers(answers)
    ensures |AnswerIds(answers)| == |answers|
    decreases |answers|
  {
    if answers != [] {
      EachAnswerCounts(answers[..|answers| - 1]);
    }
  }

  lemma {:induction false} AnswersThenPaired(answers: seq<ChatMessage>, rest: seq<ChatMessage>, owed: multiset<string>)
    requires AllAnswers(answers) && AnswerIds(answers) == owed && Paired(rest)
    ensures PairedAfter(answers + rest, owed)
  {
    var all := answers + rest;
    assert all[..|answers|] == answers && all[|answers|..] == rest;
    assert AnswersFirst(all, |answers|, owed);
  }

  lemma {:induction false} TurnThenPaired(calls: seq<ToolCall>, turn: seq<ChatMessage>, rest: seq<ChatMessage>)
    requires if turn == [] then calls == [] else |turn| == 1 && turn[0].Turn? && turn[0].calls == calls
    requires PairedAfter(rest, CallIds(calls))
    ensures Paired(turn + rest)
  {
    if turn == [] {
      assert turn + rest == rest;
      NothingOwed(rest);
    } else {
      assert (turn + rest)[0] == turn[0] && (turn + rest)[1..] == rest;
    }
  }

  lemma {:induction false} Associative<T>(a: seq<T>, b: seq<T>, c: seq<T>)
    ensures (a + b) + c == a + (b + c)
  {
  }

  lemma {:induction false} OneTurnPaired(message: Json, out: seq<ChatMessage>, answers: seq<ChatMessage>,
                                         calls: seq<ToolCall>, turn: seq<ChatMessage>, rest: seq<ChatMessage>)
    requires IsShape(message, out, answers, calls, turn)
    requires PairedAfter(rest, Asked(message))
    ensures PairedAfter(out + rest, Answered(message))
  {
    TurnThenPaired(calls, turn, rest);
    AnswersThenPaired(answers, turn + rest, Answered(message));
    Associative(answers, turn, rest);
  }

  lemma {:induction false} TurnsPaired(dump: Dumper, messages: seq<Json>, owed: multiset<string>)
    requires EveryCallAnswered(messages, owed)
    ensures match TranslateMessages(dump, messages)
            case Ok(out) => PairedAfter(out, owed)
            case Err(_) => true
    decreases |messages|
  {
    if messages == [] {
      var none: seq<ChatMessage> := [];
      AnswersThenPaired(none, none, multiset{});
      assert none + none == none;
    } else {
      TurnsPaired(dump, messages[1..], Asked(messages[0]));
      TurnShape(dump, messages[0]);
      var first, rest := TranslateMessage(dump, messages[0]), TranslateMessages(dump, messages[1..]);
      if first.Ok? && rest.Ok? {
        var answers, calls, turn :| IsShape(messages[0], first.value, answers, calls, turn);
        OneTurnPaired(messages[0], first.value, answers, calls, turn, rest.value);
      }
    }
  }

  /**
    When every turn is answered by the next, each message with tool calls is followed immediately by
    exactly its results before any other message, with a system message in front or not.
   */
  lemma {:induction false} ResultsFollowTheirCalls(dump: Dumper, system: string, messages: seq<Json>)
    requires EveryCallAnswered(messages, multiset{})
    ensures match TranslateMessages(dump, messages)
            case Ok(out) => Paired((if system == "" then [] else [Turn("system", Str(system), [])]) + out)
            case Err(_) => true
  {
    TurnsPaired(dump, messages, multiset{});
    var r := TranslateMessages(dump, messages);
    if r.Ok? {
      NothingOwed(r.value);
      if system == "" {
        assert [] + r.value == r.value;
      } else {
        var first := Turn("system", Str(system), []);
        assert ([first] + r.value)[1..] == r.value;
      }
    }
  }

  // ---------------------------------------------------------------------------------------------
  // Nothing said is lost
  // ---------------------------------------------------------------------------------------------

  /** The text of a turn's own blocks, in order. */
  function SaidIn(blocks: seq<Json>): string
    decreases |blocks|
  {
    if blocks == [] then ""
    else
      var last := blocks[|blocks| - 1];
      SaidIn(blocks[..|blocks| - 1]) + BlockText(last)
  }

  function Said(message: Json): string {
    var content := GetOrElse(message, "content", Str(""));
    if content.Str? then content.s else SaidIn(Blocks(message))
  }

  function AllSaid(messages: seq<Json>): string {
    if messages == [] then "" else Said(messages[0]) + AllSaid(messages[1..])
  }

  /** The text of the turns of a translated list, results left out. */
  function Spoken(message: ChatMessage): string {
    if message.Answer? then ""
    else if message.content.Str? then message.content.s
    else if message.content.Arr? then PartTexts(message.content.items)
    else ""
  }

  function AllSpoken(messages: seq<ChatMessage>): string {
    if messages == [] then "" else Spoken(messages[0]) + AllSpoken(messages[1..])
  }

  lemma {:induction false} PartTextsAppend(a: seq<Json>, b: seq<Json>)
    ensures PartTexts(a + b) == PartTexts(a) + PartTexts(b)
    decreases |a|
  {
    if a == [] {
      assert a + b == b;
    } else {
      assert (a + b)[0] == a[0] && (a + b)[1..] == a[1..] + b;
      PartTextsAppend(a[1..], b);
    }
  }

  lemma {:induction false} AllSpokenAppend(a: seq<ChatMessage>, b: seq<ChatMessage>)
    ensures AllSpoken(a + b) == AllSpoken(a) + AllSpoken(b)
    decreases |a|
  {
    if a == [] {
      assert a + b == b;
    } else {
      assert (a + b)[0] == a[0] && (a + b)[1..] == a[1..] + b;
      AllSpokenAppend(a[1..], b);
      Associative(Spoken(a[0]), AllSpoken(a[1..]), AllSpoken(b));
    }
  }

  lemma {:induction false} AnswersAreSilent(answers: seq<ChatMessage>)
    requires AllAnswers(answers)
    ensures AllSpoken(answers) == ""
    decreases |answers|
  {
    if answers != [] {
      AnswersAreSilent(answers[1..]);
    }
  }

  function BlockText(block: Json): string {
    if block.Get("type") == Str("text") && block.Get("text").Str? then block.Get("text").s else ""
  }

  function PieceText(piece: Piece): string {
    PartTexts(if piece.Part? then [piece.part] else [])
  }

  lemma {:induction false} OnePieceText(dump: Dumper, role: string, block: Json)
    ensures match ReadBlock(dump, role, block)
            case Ok(piece) => PieceText(piece) == BlockText(block)
            case Err(_) => true
  {
    KindsDiffer();
    var r := ReadBlock(dump, role, block);
    if r.Ok? && r.value.Part? {
      OnePart(r.value.part);
      if block.Get("type") == Str("text") {
        var text := block.Get("text").s;
        assert TextPart(text).Get("type") == Str("text") && TextPart(text).Get("text") == Str(text);
      } else {
        ImageIsNoText(block);
      }
    }
  }

  lemma {:induction false} OnePart(part: Json)
    ensures PartTexts([part]) == if IsTextPart(part) && part.Get("text").Str? then part.Get("text").s else ""
  {
    assert [part][1..] == [];
  }

  lemma {:induction false} ImageIsNoText(block: Json)
    ensures match ImagePart(block) case Ok(part) => !IsTextPart(part) case Err(_) => true
  {
    assert "image_url"[0] == 'i' && "text"[0] == 't';
    forall url: string ensures ImageUrl(url).Get("type") == Str("image_url") {
    }
  }

  lemma {:induction false} OneMoreText(blocks: seq<Json>, pieces: seq<Piece>, block: Json, piece: Piece)
    requires PartTexts(PartsOf(pieces)) == SaidIn(blocks)
    requires PieceText(piece) == BlockText(block)
    ensures PartTexts(PartsOf(pieces + [piece])) == SaidIn(blocks + [block])
  {
    LastPiece(pieces, piece);
    PartTextsAppend(PartsOf(pieces), if piece.Part? then [piece.part] else []);
    assert (blocks + [block])[..|blocks|] == blocks;
  }

  lemma {:induction false} PiecesSay(dump: Dumper, role: string, blocks: seq<Json>, n: nat, pieces: seq<Piece>)
    requires n <= |blocks| && ReadBlocks(Reading(dump, role), blocks, n) == Ok(pieces)
    ensures PartTexts(PartsOf(pieces)) == SaidIn(blocks[..n])
  {
    ReadEach(Reading(dump, role), blocks, n, pieces);
    forall i | 0 <= i < n ensures PieceText(pieces[i]) == BlockText(blocks[i]) {
      OnePieceText(dump, role, blocks[i]);
    }
    SayingPieces(blocks, n, pieces);
  }

  lemma {:induction false} SayingPieces(blocks: seq<Json>, n: nat, pieces: seq<Piece>)
    requires n == |pieces| <= |blocks|
    requires forall i :: 0 <= i < n ==> PieceText(pieces[i]) == BlockText(blocks[i])
    ensures PartTexts(PartsOf(pieces)) == SaidIn(blocks[..n])
    decreases n
  {
    if n == 0 {
      assert pieces == [] && blocks[..n] == [];
    } else {
      TakeSnoc(blocks, n);
      assert pieces == pieces[..n - 1] + [pieces[n - 1]];
      SayingPieces(blocks, n - 1, pieces[..n - 1]);
      OneMoreText(blocks[..n - 1], pieces[..n - 1], blocks[n - 1], pieces[n - 1]);
    }
  }

  lemma {:induction false} TurnSays(role: string, parts: seq<Json>, calls: seq<ToolCall>)
    ensures AllSpoken(TurnOf(role, parts, calls)) == PartTexts(parts)
  {
    var turn := TurnOf(role, parts, calls);
    if turn != [] {
      assert turn[1..] == [];
      assert Spoken(turn[0]) == PartTexts(parts);
    }
  }

  lemma {:induction false} AssembledSays(role: string, pieces: seq<Piece>)
    requires AllAnswers(AnswersOf(pieces))
    ensures AllSpoken(Assemble(role, pieces)) == PartTexts(PartsOf(pieces))
  {
    var answers, turn := AnswersOf(pieces), TurnOf(role, PartsOf(pieces), CallsOf(pieces));
    TurnSays(role, PartsOf(pieces), CallsOf(pieces));
    AnswersAreSilent(answers);
    AllSpokenAppend(answers, turn);
    AllSpokenAppend(turn, answers);
  }

  lemma {:induction false} MessageSays(dump: Dumper, message: Json)
    ensures match TranslateMessage(dump, message)
            case Ok(out) => AllSpoken(out) == Said(message)
            case Err(_) => true
  {
    var r := TranslateMessage(dump, message);
    if r.Ok? {
      var content, role := GetOrElse(message, "content", Str("")), RoleOf(message);
      if content.Str? {
        assert r.value[1..] == [];
      } else {
        var pieces := ReadBlocks(Reading(dump, role), content.items, |content.items|).value;
        PiecesSay(dump, role, content.items, |content.items|, pieces);
        PiecesMatch(dump, role, content.items, |content.items|, pieces);
        assert content.items[..|content.items|] == content.items;
        AssembledSays(role, pieces);
      }
    }
  }

  /** What the turns say, all together and in order, is what the translated turns say. */
  lemma {:induction false} TextIsKept(dump: Dumper, messages: seq<Json>)
    ensures match TranslateMessages(dump, messages)
            case Ok(out) => AllSpoken(out) == AllSaid(messages)
            case Err(_) => true
    decreases |messages|
  {
    if messages != [] {
      TextIsKept(dump, messages[1..]);
      MessageSays(dump, messages[0]);
      var first, rest := TranslateMessage(dump, messages[0]), TranslateMessages(dump, messages[1..]);
      if first.Ok? && rest.Ok? {
        AllSpokenAppend(first.value, rest.value);
      }
    }
  }

  // ---------------------------------------------------------------------------------------------
  // What a message is translated to, by its fields
  // ---------------------------------------------------------------------------------------------

  /** The URL of an image block: its data as a data URL, or the URL that it gives. */
  function UrlOf(block: Json): Option<string> {
    var source := block.Get("source");
    var kind, media, data, url := source.Get("type"), source.Get("media_type"), source.Get("data"), source.Get("url");
    if !source.Obj? then None
    else if kind == Str("base64") then
      if media.Str? && data.Str? && (forall k :: k in source.fields ==> k in ["type", "media_type", "data"]) then
        Some("data:" + media.s + ";base64," + data.s)
      else None
    else if kind == Str("url") && url.Str? && url.s != "" && (forall k :: k in source.fields ==> k in ["type", "url"])
    then Some(url.s)
    else None
  }

  function SpokenPart(text: string): Json {
    Obj(map["type" := Str("text"), "text" := Str(text)])
  }

  function SeenPart(url: string): Json {
    Obj(map["type" := Str("image_url"), "image_url" := Obj(map["url" := Str(url)])])
  }

  predicate IsThought(block: Json) {
    block.Get("type") == Str("thinking") || block.Get("type") == Str("redacted_thinking")
  }

  predicate IsSpoken(block: Json) {
    block.Get("type") == Str("text") && block.Get("text").Str?
  }

  predicate IsSeen(block: Json) {
    block.Get("type") == Str("image") && UrlOf(block).Some?
  }

  /** What a text or an image block is in a list of parts; anything else is nothing. */
  function PartIn(block: Json): seq<Json> {
    if IsSpoken(block) then [SpokenPart(block.Get("text").s)]
    else if IsSeen(block) then [SeenPart(UrlOf(block).value)]
    else []
  }

  function PartsIn(blocks: seq<Json>): seq<Json>
    decreases |blocks|
  {
    if blocks == [] then [] else PartsIn(blocks[..|blocks| - 1]) + PartIn(blocks[|blocks| - 1])
  }

  function TextsIn(blocks: seq<Json>): string
    decreases |blocks|
  {
    if blocks == [] then ""
    else
      var last := blocks[|blocks| - 1];
      TextsIn(blocks[..|blocks| - 1]) + if IsSpoken(last) then last.Get("text").s else ""
  }

  predicate HasImage(blocks: seq<Json>) {
    exists i :: 0 <= i < |blocks| && blocks[i].Get("type") == Str("image")
  }

  predicate IsResultBlock(block: Json) {
    block.Obj? && (IsSpoken(block) || IsSeen(block) || IsThought(block))
  }

  predicate AreResultBlocks(blocks: seq<Json>) {
    forall i :: 0 <= i < |blocks| ==> IsResultBlock(blocks[i])
  }

  /** What a tool result says: a string stays, blocks are joined text or a list of parts, the rest is printed. */
  function ResultSays(dump: Dumper, content: Json): Option<Json> {
    match content
    case Str(_) => Some(content)
    case Null => Some(Str(""))
    case Arr(blocks) =>
      if !AreResultBlocks(blocks) then None
      else if HasImage(blocks) then Some(Arr(PartsIn(blocks)))
      else Some(Str(TextsIn(blocks)))
    case _ => Some(Str(dump(content)))
  }

  /** The value under a key, or the default where the key is not there. */
  function ValueOr(block: Json, key: string, default: Json): Json {
    if block.Obj? && key in block.fields then block.fields[key] else default
  }

  predicate IsGoodText(value: Json) {
    value.Str? && value.s != ""
  }

  predicate IsCallBlock(block: Json) {
    && block.Get("type") == Str("tool_use")
    && IsGoodText(block.Get("id")) && IsGoodText(block.Get("name"))
    && ValueOr(block, "input", Obj(map[])).Obj?
  }

  predicate IsAnswerBlock(dump: Dumper, block: Json) {
    && block.Get("type") == Str("tool_result")
    && IsGoodText(block.Get("tool_use_id"))
    && ValueOr(block, "is_error", Bool(false)).Bool?
    && ResultSays(dump, ValueOr(block, "content", Str(""))).Some?
  }

  /** A block that a message of this role may have. */
  predicate IsGoodBlock(dump: Dumper, role: string, block: Json) {
    && block.Obj?
    && (|| IsSpoken(block) || IsThought(block)
        || (role == "user" && (IsSeen(block) || IsAnswerBlock(dump, block)))
        || (role == "assistant" && IsCallBlock(block)))
  }

  predicate AreGoodBlocks(dump: Dumper, role: string, blocks: seq<Json>) {
    forall i :: 0 <= i < |blocks| ==> IsGoodBlock(dump, role, blocks[i])
  }

  function CallIn(dump: Dumper, block: Json): seq<ToolCall> {
    if IsCallBlock(block) then
      [ToolCall(block.Get("id").s, block.Get("name").s, dump(ValueOr(block, "input", Obj(map[]))))]
    else []
  }

  function AnswerIn(dump: Dumper, block: Json): seq<ChatMessage> {
    if IsAnswerBlock(dump, block) then
      [Answer(block.Get("tool_use_id").s, ResultSays(dump, ValueOr(block, "content", Str(""))).value)]
    else []
  }

  function CallsIn(dump: Dumper, blocks: seq<Json>): seq<ToolCall>
    decreases |blocks|
  {
    if blocks == [] then [] else CallsIn(dump, blocks[..|blocks| - 1]) + CallIn(dump, blocks[|blocks| - 1])
  }

  function AnswersIn(dump: Dumper, blocks: seq<Json>): seq<ChatMessage>
    decreases |blocks|
  {
    if blocks == [] then [] else AnswersIn(dump, blocks[..|blocks| - 1]) + AnswerIn(dump, blocks[|blocks| - 1])
  }

  /** The content of a turn: nothing, the joined text, or the parts when there is an image among them. */
  function ContentIn(blocks: seq<Json>): Json {
    if PartsIn(blocks) == [] then Null else if HasImage(blocks) then Arr(PartsIn(blocks)) else Str(TextsIn(blocks))
  }

  predicate IsGoodMessage(dump: Dumper, message: Json) {
    var role, content := message.Get("role"), ValueOr(message, "content", Str(""));
    && message.Obj?
    && (role == Str("user") || role == Str("assistant"))
    && (content.Str? || (content.Arr? && AreGoodBlocks(dump, role.s, content.items)))
  }

  lemma {:induction false} UrlExactly(block: Json)
    ensures match ImagePart(block)
            case Ok(part) => UrlOf(block).Some? && part == SeenPart(UrlOf(block).value)
            case Err(_) => UrlOf(block).None?
  {
    var source := block.Get("source");
    if source.Obj? {
      assert OnlyKeys(source, {"type", "media_type", "data"}) <==>
          forall k :: k in source.fields ==> k in ["type", "media_type", "data"];
      assert OnlyKeys(source, {"type", "url"}) <==> forall k :: k in source.fields ==> k in ["type", "url"];
    }
  }

  lemma {:induction false} TypesDiffer()
    ensures "text" != "image" && "text" != "thinking" && "text" != "redacted_thinking"
    ensures "image" != "thinking" && "image" != "redacted_thinking" && "image" != "tool_use" && "image" != "tool_result"
  {
    KindsDiffer();
    assert |"text"| == 4 && |"image"| == 5 && |"thinking"| == 8 && |"redacted_thinking"| == 17;
  }

  // The model reads a result from its first block on, the lists above from the last.

  lemma {:induction false} FirstPart(block: Json, rest: seq<Json>)
    ensures PartsIn([block] + rest) == PartIn(block) + PartsIn(rest)
    ensures TextsIn([block] + rest) == (if IsSpoken(block) then block.Get("text").s else "") + TextsIn(rest)
    decreases |rest|
  {
    if rest == [] {
      assert [block] + rest == [block] && [block][..0] == [];
      assert PartsIn([block][..0]) == [] && TextsIn([block][..0]) == "";
      assert [] + PartIn(block) == PartIn(block) + [];
    } else {
      var init, last := rest[..|rest| - 1], rest[|rest| - 1];
      var all := [block] + rest;
      assert all[..|all| - 1] == [block] + init && all[|all| - 1] == last;
      FirstPart(block, init);
      JoinsOn(PartIn(block), PartsIn(init), PartIn(last));
      JoinsOn(if IsSpoken(block) then block.Get("text").s else "", TextsIn(init),
          if IsSpoken(last) then last.Get("text").s else "");
    }
  }

  lemma {:induction false} JoinsOn<T>(a: seq<T>, b: seq<T>, c: seq<T>)
    ensures a + (b + c) == (a + b) + c
  {
  }

  /** The pieces of a result as parts and as text. */
  lemma {:induction false} PiecesExactly(blocks: seq<Json>)
    ensures ResultPieces(blocks).Ok? <==> AreResultBlocks(blocks)
    ensures ResultPieces(blocks).Ok? ==>
              var pieces := ResultPieces(blocks).value;
              && AsParts(pieces) == PartsIn(blocks) && JoinTexts(pieces) == TextsIn(blocks)
              && (HasImage(blocks) <==> exists i :: 0 <= i < |pieces| && !pieces[i].Str?)
    decreases |blocks|
  {
    if blocks != [] {
      PiecesExactly(blocks[1..]);
      FirstPart(blocks[0], blocks[1..]);
      assert blocks == [blocks[0]] + blocks[1..];
      assert forall i :: 1 <= i < |blocks| ==> blocks[i] == blocks[1..][i - 1];
      TypesDiffer();
      UrlExactly(blocks[0]);
      FirstPiece(blocks);
    }
  }

  lemma {:induction false} FirstPiece(blocks: seq<Json>)
    requires blocks != []
    ensures AreResultBlocks(blocks) <==> IsResultBlock(blocks[0]) && AreResultBlocks(blocks[1..])
    ensures HasImage(blocks) <==> blocks[0].Get("type") == Str("image") || HasImage(blocks[1..])
    ensures ResultPieces(blocks).Ok? <==> IsResultBlock(blocks[0]) && ResultPieces(blocks[1..]).Ok?
    ensures ResultPieces(blocks).Ok? ==>
              ResultPieces(blocks).value ==
              (if IsSpoken(blocks[0]) then [blocks[0].Get("text")] else PartIn(blocks[0]))
              + ResultPieces(blocks[1..]).value
  {
    assert forall i :: 1 <= i < |blocks| ==> blocks[i] == blocks[1..][i - 1];
    TypesDiffer();
    UrlExactly(blocks[0]);
    if ResultPieces(blocks[1..]).Ok? {
      var rest := ResultPieces(blocks[1..]).value;
      assert [] + rest == rest;
    }
  }

  lemma {:induction false} ResultExactly(dump: Dumper, content: Json)
    ensures match ResultContent(dump, content)
            case Ok(value) => ResultSays(dump, content) == Some(value)
            case Err(_) => ResultSays(dump, content).None?
  {
    if content.Arr? {
      PiecesExactly(content.items);
    }
  }

  lemma {:induction false} BlockExactly(dump: Dumper, role: string, block: Json)
    ensures ReadBlock(dump, role, block).Ok? <==> IsGoodBlock(dump, role, block)
    ensures ReadBlock(dump, role, block).Ok? ==>
              IsPieceOf(dump, block, ReadBlock(dump, role, block).value)
  {
    TypesDiffer();
    KindsDiffer();
    UrlExactly(block);
    ResultExactly(dump, ValueOr(block, "content", Str("")));
  }

  lemma {:induction false} GoodBlocksExactly(dump: Dumper, role: string, blocks: seq<Json>, n: nat)
    requires n <= |blocks|
    ensures ReadBlocks(Reading(dump, role), blocks, n).Ok? <==> AreGoodBlocks(dump, role, blocks[..n])
  {
    var read := Reading(dump, role);
    ReadsAll(read, blocks, n);
    forall i | 0 <= i < n ensures read(blocks[i]).Ok? <==> IsGoodBlock(dump, role, blocks[..n][i]) {
      BlockExactly(dump, role, blocks[i]);
    }
  }

  lemma {:induction false} BlocksExactly(dump: Dumper, role: string, blocks: seq<Json>, n: nat)
    requires n <= |blocks|
    ensures ReadBlocks(Reading(dump, role), blocks, n).Ok? <==> AreGoodBlocks(dump, role, blocks[..n])
    ensures ReadBlocks(Reading(dump, role), blocks, n).Ok? ==>
              ArePiecesOf(dump, blocks[..n], ReadBlocks(Reading(dump, role), blocks, n).value)
  {
    GoodBlocksExactly(dump, role, blocks, n);
    if ReadBlocks(Reading(dump, role), blocks, n).Ok? {
      ReadPiecesAre(dump, role, blocks, n, ReadBlocks(Reading(dump, role), blocks, n).value);
    }
  }

  /** The parts, calls and answers among the pieces are those that the blocks say. */
  ghost predicate ArePiecesOf(dump: Dumper, blocks: seq<Json>, pieces: seq<Piece>) {
    && PartsOf(pieces) == PartsIn(blocks)
    && CallsOf(pieces) == CallsIn(dump, blocks)
    && AnswersOf(pieces) == AnswersIn(dump, blocks)
  }

  ghost predicate IsPieceOf(dump: Dumper, block: Json, piece: Piece) {
    && (if piece.Part? then [piece.part] else []) == PartIn(block)
    && (if piece.Call? then [piece.call] else []) == CallIn(dump, block)
    && (if piece.Reply? then [Answer(piece.id, piece.content)] else []) == AnswerIn(dump, block)
  }

  lemma {:induction false} ReadPiecesAre(dump: Dumper, role: string, blocks: seq<Json>, n: nat, pieces: seq<Piece>)
    requires n <= |blocks| && ReadBlocks(Reading(dump, role), blocks, n) == Ok(pieces)
    ensures ArePiecesOf(dump, blocks[..n], pieces)
  {
    ReadEach(Reading(dump, role), blocks, n, pieces);
    forall i | 0 <= i < n ensures IsPieceOf(dump, blocks[i], pieces[i]) {
      BlockExactly(dump, role, blocks[i]);
    }
    PiecesAre(dump, blocks, n, pieces);
  }

  lemma {:induction false} PiecesAre(dump: Dumper, blocks: seq<Json>, n: nat, pieces: seq<Piece>)
    requires n == |pieces| <= |blocks|
    requires forall i :: 0 <= i < n ==> IsPieceOf(dump, blocks[i], pieces[i])
    ensures ArePiecesOf(dump, blocks[..n], pieces)
    decreases n
  {
    if n > 0 {
      var before, piece := pieces[..n - 1], pieces[n - 1];
      assert pieces == before + [piece];
      PiecesAre(dump, blocks, n - 1, before);
      OneMoreIn(dump, blocks, n);
      LastPiece(before, piece);
    }
  }

  lemma {:induction false} OneMoreIn(dump: Dumper, blocks: seq<Json>, n: nat)
    requires 0 < n <= |blocks|
    ensures PartsIn(blocks[..n]) == PartsIn(blocks[..n - 1]) + PartIn(blocks[n - 1])
    ensures CallsIn(dump, blocks[..n]) == CallsIn(dump, blocks[..n - 1]) + CallIn(dump, blocks[n - 1])
    ensures AnswersIn(dump, blocks[..n]) == AnswersIn(dump, blocks[..n - 1]) + AnswerIn(dump, blocks[n - 1])
  {
    var all := blocks[..n];
    assert all[..|all| - 1] == blocks[..n - 1] && all[|all| - 1] == blocks[n - 1];
  }

  lemma {:induction false} ContentExactly(dump: Dumper, role: string, blocks: seq<Json>)
    requires AreGoodBlocks(dump, role, blocks)
    ensures ContentOf(PartsIn(blocks)) == ContentIn(blocks)
    ensures PartTexts(PartsIn(blocks)) == TextsIn(blocks)
    ensures HasImage(blocks) <==> exists i :: 0 <= i < |PartsIn(blocks)| && !IsTextPart(PartsIn(blocks)[i])
    decreases |blocks|
  {
    if blocks != [] {
      var init, last := blocks[..|blocks| - 1], blocks[|blocks| - 1];
      ContentExactly(dump, role, init);
      PartTextsAppend(PartsIn(init), PartIn(last));
      LastPartExactly(dump, role, last);
      LastImage(blocks);
      OneMorePart(PartsIn(init), PartIn(last));
    }
  }

  lemma {:induction false} LastImage(blocks: seq<Json>)
    requires blocks != []
    ensures HasImage(blocks) <==>
            HasImage(blocks[..|blocks| - 1]) || blocks[|blocks| - 1].Get("type") == Str("image")
  {
    var init := blocks[..|blocks| - 1];
    assert forall i :: 0 <= i < |init| ==> init[i] == blocks[i];
    if HasImage(init) {
      var i :| 0 <= i < |init| && init[i].Get("type") == Str("image");
      assert blocks[i].Get("type") == Str("image");
    }
  }

  lemma {:induction false} OneMorePart(parts: seq<Json>, more: seq<Json>)
    requires |more| <= 1
    ensures (exists i :: 0 <= i < |parts + more| && !IsTextPart((parts + more)[i])) <==>
            || (exists i :: 0 <= i < |parts| && !IsTextPart(parts[i]))
            || (more != [] && !IsTextPart(more[0]))
  {
    var all := parts + more;
    assert forall i :: 0 <= i < |parts| ==> all[i] == parts[i];
    if more != [] {
      assert all[|parts|] == more[0];
    }
    if i :| 0 <= i < |parts| && !IsTextPart(parts[i]) {
      assert !IsTextPart(all[i]);
    }
  }

  lemma {:induction false} LastPartExactly(dump: Dumper, role: string, block: Json)
    requires IsGoodBlock(dump, role, block)
    ensures PartTexts(PartIn(block)) == if IsSpoken(block) then block.Get("text").s else ""
    ensures (PartIn(block) != [] && !IsTextPart(PartIn(block)[0])) <==> block.Get("type") == Str("image")
  {
    TypesDiffer();
    KindsDiffer();
    if IsSpoken(block) {
      OnePart(SpokenPart(block.Get("text").s));
      assert SpokenPart(block.Get("text").s).Get("type") == Str("text");
      assert SpokenPart(block.Get("text").s).Get("text") == Str(block.Get("text").s);
    } else if IsSeen(block) {
      OnePart(SeenPart(UrlOf(block).value));
      assert SeenPart(UrlOf(block).value).Get("type") == Str("image_url");
      assert "image_url"[0] == 'i' && "text"[0] == 't';
    }
  }

  /**
    A message is translated exactly when its role and its blocks are good ones: to itself when its content
    is text; otherwise to its results in order, and then one turn with what it says and asks, if anything.
   */
  lemma {:induction false} MessageExactly(dump: Dumper, message: Json)
    ensures TranslateMessage(dump, message).Ok? <==> IsGoodMessage(dump, message)
    ensures TranslateMessage(dump, message).Ok? ==>
              var role, content := message.Get("role").s, ValueOr(message, "content", Str(""));
              TranslateMessage(dump, message).value ==
              if content.Str? then [Turn(role, content, [])]
              else
                AnswersIn(dump, content.items)
                + if PartsIn(content.items) == [] && CallsIn(dump, content.items) == [] then []
                  else [Turn(role, ContentIn(content.items), CallsIn(dump, content.items))]
  {
    var content := ValueOr(message, "content", Str(""));
    if content.Arr? {
      var blocks, role := content.items, RoleOf(message);
      BlocksExactly(dump, role, blocks, |blocks|);
      assert blocks[..|blocks|] == blocks;
      if AreGoodBlocks(dump, role, blocks) {
        ContentExactly(dump, role, blocks);
        OnlyUsersAnswer(dump, role, blocks);
        AssembledExactly(role, ReadBlocks(Reading(dump, role), blocks, |blocks|).value);
      }
    }
  }

  lemma {:induction false} OnlyUsersAnswer(dump: Dumper, role: string, blocks: seq<Json>)
    requires AreGoodBlocks(dump, role, blocks)
    ensures role != "user" ==> AnswersIn(dump, blocks) == []
    decreases |blocks|
  {
    if blocks != [] {
      OnlyUsersAnswer(dump, role, blocks[..|blocks| - 1]);
      TypesDiffer();
      KindsDiffer();
      assert IsGoodBlock(dump, role, blocks[|blocks| - 1]);
    }
  }

  lemma {:induction false} AssembledExactly(role: string, pieces: seq<Piece>)
    requires role != "user" ==> AnswersOf(pieces) == []
    ensures Assemble(role, pieces) == AnswersOf(pieces) + TurnOf(role, PartsOf(pieces), CallsOf(pieces))
  {
    var turn := TurnOf(role, PartsOf(pieces), CallsOf(pieces));
    assert turn + [] == turn && [] + turn == turn;
  }
}
