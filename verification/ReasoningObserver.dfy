/** `ReasoningStreamObserver` of `src/ficelle/reasoning_replay.py`: traces and tool calls of a streamed completion. */
module ReasoningObserver {
  /*
    How the stream is cut into chunks is invisible exactly when every line fits the cap or nothing would
    have been recorded anyway.  What is recorded is the subject of ReasoningAgreement.
   */
  import opened Json
  import opened Text
  import opened Wrappers
  import opened ReplayEntries
  import opened ReplayStore
  import Sorting
  import SseFraming

  type Bytes = SseFraming.Bytes

  /** `json.loads` of the decoded bytes, when they are JSON. */
  type Parser = Bytes -> Option<Json>

  const LF: char := '\n'

  // ---------------------------------------------------------------------------------------------
  // Lines
  // ---------------------------------------------------------------------------------------------

  function FindLf(s: Bytes): (k: Option<nat>)
    ensures k.Some? ==> k.value < |s|
  {
    if s == [] then None
    else if s[0] == LF then Some(0)
    else
      var k := FindLf(s[1..]);
      if k.Some? then Some(k.value + 1) else None
  }

  datatype Lines = Lines(whole: seq<Bytes>, rest: Bytes)

  /** `*lines, rest = s.split(b"\n")`. */
  function Split(s: Bytes): Lines
    decreases |s|
  {
    var k := FindLf(s);
    if k.None? then Lines([], s)
    else
      var tail := Split(s[k.value + 1..]);
      Lines([s[..k.value]] + tail.whole, tail.rest)
  }

  lemma {:induction false} FindLfIsStable(x: Bytes, y: Bytes)
    ensures FindLf(x).Some? ==> FindLf(x + y) == FindLf(x)
    ensures FindLf(x).None? && FindLf(x + y).Some? ==> FindLf(x + y).value >= |x|
    decreases |x|
  {
    if x != [] {
      assert (x + y)[0] == x[0] && (x + y)[1..] == x[1..] + y;
      FindLfIsStable(x[1..], y);
    }
  }

  lemma {:induction false} SplitAppend(x: Bytes, y: Bytes)
    ensures Split(x + y).whole == Split(x).whole + Split(Split(x).rest + y).whole
    ensures Split(x + y).rest == Split(Split(x).rest + y).rest
    decreases |x|
  {
    var k := FindLf(x);
    if k.None? {
      assert [] + Split(x + y).whole == Split(x + y).whole;
    } else {
      FindLfIsStable(x, y);
      assert (x + y)[..k.value] == x[..k.value];
      assert (x + y)[k.value + 1..] == x[k.value + 1..] + y;
      SplitAppend(x[k.value + 1..], y);
      SseFraming.Associative([x[..k.value]], Split(x[k.value + 1..]).whole, Split(Split(x).rest + y).whole);
    }
  }

  lemma {:induction false} RestHasNoLf(x: Bytes)
    ensures FindLf(Split(x).rest).None?
    decreases |x|
  {
    if FindLf(x).Some? {
      RestHasNoLf(x[FindLf(x).value + 1..]);
    }
  }

  lemma {:induction false} FirstLf(x: Bytes, y: Bytes)
    requires FindLf(x).None?
    ensures FindLf(x + [LF] + y) == Some(|x|)
    decreases |x|
  {
    if x != [] {
      assert (x + [LF] + y)[1..] == x[1..] + [LF] + y;
      FirstLf(x[1..], y);
    }
  }

  lemma {:induction false} NoLf(s: Bytes)
    ensures FindLf(s).None? <==> LF !in s
    decreases |s|
  {
    if s != [] {
      NoLf(s[1..]);
      assert s == [s[0]] + s[1..];
    }
  }

  predicate Fits(line: Bytes) {
    |line| <= MAX_TRACE_CHARS
  }

  predicate AllFit(lines: seq<Bytes>) {
    forall i :: 0 <= i < |lines| ==> Fits(lines[i])
  }

  /** Every line fits the cap, the last one too. */
  predicate LinesFit(s: Bytes) {
    AllFit(Split(s).whole) && Fits(Split(s).rest)
  }

  lemma {:induction false} PrefixRestFits(x: Bytes, y: Bytes)
    requires LinesFit(x + y)
    ensures Fits(Split(x).rest)
  {
    var r := Split(x).rest;
    SplitAppend(x, y);
    RestHasNoLf(x);
    FindLfIsStable(r, y);
    var lines := Split(r + y);
    if FindLf(r + y).Some? {
      assert Split(x + y).whole[|Split(x).whole|] == lines.whole[0];
    }
  }

  lemma {:induction false} LinesFitWithHead(s: Bytes, k: nat)
    requires FindLf(s) == Some(k) && k <= MAX_TRACE_CHARS && LinesFit(s[k + 1..])
    ensures LinesFit(s)
  {
  }

  /** A line that does not fit can be cut where it is too long. */
  lemma {:induction false} CutInLongLine(s: Bytes) returns (x: Bytes, y: Bytes)
    requires !LinesFit(s)
    ensures s == x + y && !Fits(Split(x).rest)
    decreases |s|
  {
    var k := FindLf(s);
    if k.None? {
      x, y := s, [];
    } else if k.value > MAX_TRACE_CHARS {
      x, y := s[..k.value], s[k.value..];
      assert s == x + y;
      FindLfIsStable(x, y);
    } else {
      var tail := s[k.value + 1..];
      if LinesFit(tail) {
        LinesFitWithHead(s, k.value);
      }
      var p, q := CutInLongLine(tail);
      var head := s[..k.value + 1];
      x, y := head + p, q;
      assert s == head + tail;
      SseFraming.Associative(head, p, q);
      SplitAppend(head, p);
      HeadLine(s, k.value);
    }
  }

  lemma {:induction false} HeadLine(s: Bytes, k: nat)
    requires FindLf(s) == Some(k)
    ensures Split(s[..k + 1]).rest == [] && forall p: Bytes :: Split([] + p) == Split(p)
  {
    var head := s[..k + 1];
    FindLfIsStable(head, s[k + 1..]);
    assert s == head + s[k + 1..];
    assert head[k + 1..] == [];
    forall p: Bytes ensures Split([] + p) == Split(p) {
      assert [] + p == p;
    }
  }

  // ---------------------------------------------------------------------------------------------
  // What a delta does
  // ---------------------------------------------------------------------------------------------

  /** One streamed tool call, and one choice; `parts` are the pieces of its trace and `chars` their full length. */
  datatype StreamedCall = StreamedCall(index: int, id: string, name: string, arguments: string)

  datatype StreamedChoice = StreamedChoice(index: int, parts: seq<string>, chars: nat, calls: seq<StreamedCall>)

  /** `isinstance(value, int)`, which holds of the two truth values too. */
  function AsIndex(value: Json): Option<int> {
    match value
    case Int(n) => Some(n)
    case Bool(t) => Some(if t then 1 else 0)
    case _ => None
  }

  function CallAt(calls: seq<StreamedCall>, index: int): (i: nat)
    ensures i <= |calls| && (i < |calls| ==> calls[i].index == index)
  {
    if calls == [] || calls[0].index == index then 0 else 1 + CallAt(calls[1..], index)
  }

  function Absorbed(known: StreamedCall, call: Json): StreamedCall {
    var asked := call.Get("function");
    known.(id := if IdOf(call) != "" then IdOf(call) else known.id,
           name := known.name + TextOf(asked.Get("name")),
           arguments := if |known.arguments| < MAX_SIGNATURE_ARG_CHARS
                        then known.arguments + TextOf(asked.Get("arguments")) else known.arguments)
  }

  function AbsorbCall(calls: seq<StreamedCall>, call: Json, position: nat): seq<StreamedCall> {
    if !call.Obj? then calls
    else
      var index := AsIndex(call.Get("index")).GetOr(position);
      var at := CallAt(calls, index);
      if at < |calls| then calls[at := Absorbed(calls[at], call)]
      else calls + [Absorbed(StreamedCall(index, "", "", ""), call)]
  }

  /** `absorb_tool_calls`. */
  function AbsorbCalls(calls: seq<StreamedCall>, items: seq<Json>, position: nat): seq<StreamedCall>
    decreases |items|
  {
    if items == [] then calls
    else AbsorbCalls(AbsorbCall(calls, items[0], position), items[1..], position + 1)
  }

  /** The first of the two reasoning keys that has text. */
  function Part(delta: Json): string {
    if RawTrace(delta.Get("reasoning_content")) != "" then RawTrace(delta.Get("reasoning_content"))
    else RawTrace(delta.Get("reasoning"))
  }

  function AddPart(c: StreamedChoice, part: string): StreamedChoice {
    if part == "" then c
    else if c.chars < MAX_TRACE_CHARS then
      c.(parts := c.parts + [Take(part, MAX_TRACE_CHARS - c.chars)], chars := c.chars + |part|)
    else c.(chars := c.chars + |part|)
  }

  function AddDelta(c: StreamedChoice, delta: Json): StreamedChoice {
    var c' := AddPart(c, Part(delta));
    c'.(calls := AbsorbCalls(c'.calls, Items(delta.Get("tool_calls")), 0))
  }

  function ChoiceAt(choices: seq<StreamedChoice>, index: int): (i: nat)
    ensures i <= |choices| && (i < |choices| ==> choices[i].index == index)
  {
    if choices == [] || choices[0].index == index then 0 else 1 + ChoiceAt(choices[1..], index)
  }

  function NewChoice(index: int): StreamedChoice {
    StreamedChoice(index, [], 0, [])
  }

  /** `_consume_delta`. */
  function ConsumeDelta(choices: seq<StreamedChoice>, index: int, delta: Json): seq<StreamedChoice> {
    var at := ChoiceAt(choices, index);
    if at < |choices| then choices[at := AddDelta(choices[at], delta)]
    else choices + [AddDelta(NewChoice(index), delta)]
  }

  function ConsumeChoice(choices: seq<StreamedChoice>, choice: Json, position: nat): seq<StreamedChoice> {
    if choice.Get("delta").Obj?
    then ConsumeDelta(choices, AsIndex(choice.Get("index")).GetOr(position), choice.Get("delta"))
    else choices
  }

  function ConsumeChoices(choices: seq<StreamedChoice>, items: seq<Json>, position: nat): seq<StreamedChoice>
    decreases |items|
  {
    if items == [] then choices
    else ConsumeChoices(ConsumeChoice(choices, items[0], position), items[1..], position + 1)
  }

  predicate IsByteSpace(c: char) {
    '\t' <= c <= '\r' || c == ' '
  }

  function TrimBytesLeft(s: Bytes): Bytes {
    if s != [] && IsByteSpace(s[0]) then TrimBytesLeft(s[1..]) else s
  }

  function TrimBytesRight(s: Bytes): Bytes {
    if s != [] && IsByteSpace(s[|s| - 1]) then TrimBytesRight(s[..|s| - 1]) else s
  }

  /** `bytes.strip()`. */
  function TrimBytes(s: Bytes): Bytes {
    TrimBytesRight(TrimBytesLeft(s))
  }

  /** The choices of the event on a line; none when the line carries no event. */
  function EventChoices(parse: Parser, line: Bytes): seq<Json> {
    var stripped := TrimBytes(line);
    if !StartsWith(stripped, "data:") then []
    else
      var data := TrimBytes(stripped[5..]);
      if data == [] || data == "[DONE]" then []
      else Items(parse(data).GetOr(Null).Get("choices"))
  }

  /** `_consume_line`. */
  function ConsumeLine(parse: Parser, choices: seq<StreamedChoice>, line: Bytes): seq<StreamedChoice> {
    ConsumeChoices(choices, EventChoices(parse, line), 0)
  }

  function ConsumeLines(parse: Parser, choices: seq<StreamedChoice>, lines: seq<Bytes>): seq<StreamedChoice>
    decreases |lines|
  {
    if lines == [] then choices else ConsumeLines(parse, ConsumeLine(parse, choices, lines[0]), lines[1..])
  }

  // ---- what a line carries, by its characters ----

  predicate IsGap(s: Bytes) {
    forall i :: 0 <= i < |s| ==> s[i] == ' ' || '\t' <= s[i] <= '\r'
  }

  /** Not empty, and without white space at its ends. */
  predicate IsTight(s: Bytes) {
    s != [] && !IsGap([s[0]]) && !IsGap([s[|s| - 1]])
  }

  /** The bytes after `data:` on the line, without the white space around the two. */
  ghost predicate Carries(line: Bytes, data: Bytes) {
    IsTight(data) && exists a, b, c :: CarriesAt(line, data, a, b, c)
  }

  predicate CarriesAt(line: Bytes, data: Bytes, a: Bytes, b: Bytes, c: Bytes) {
    IsGap(a) && IsGap(b) && IsGap(c) && line == a + ("data:" + (b + data)) + c
  }

  /** The choices of the event that a line carries are heard, unless it says that the stream is done. */
  lemma {:induction false} EventExactly(parse: Parser, line: Bytes, data: Bytes)
    requires Carries(line, data)
    ensures EventChoices(parse, line) ==
            if data == "[DONE]" || parse(data).None? || !parse(data).value.Get("choices").Arr? then []
            else parse(data).value.Get("choices").items
  {
    var a, b, c :| CarriesAt(line, data, a, b, c);
    var inner := "data:" + (b + data);
    assert inner[0] == 'd' && inner[|inner| - 1] == data[|data| - 1];
    TrimsTo(a, inner, c);
    assert inner[..5] == "data:" && inner[5..] == b + data;
    assert b + data == b + data + [];
    TrimsTo(b, data, []);
  }

  lemma {:induction false} TrimsTo(a: Bytes, s: Bytes, c: Bytes)
    requires IsGap(a) && IsTight(s) && IsGap(c)
    ensures TrimBytes(a + s + c) == s
  {
    assert a + s + c == a + (s + c) && (s + c)[0] == s[0];
    TrimsLeftTo(a, s + c);
    TrimsRightTo(s, c);
  }

  lemma {:induction false} TrimsLeftTo(a: Bytes, s: Bytes)
    requires IsGap(a) && s != [] && !IsByteSpace(s[0])
    ensures TrimBytesLeft(a + s) == s
    decreases |a|
  {
    if a == [] {
      assert a + s == s;
    } else {
      assert (a + s)[0] == a[0] && (a + s)[1..] == a[1..] + s;
      TrimsLeftTo(a[1..], s);
    }
  }

  lemma {:induction false} TrimsRightTo(s: Bytes, c: Bytes)
    requires IsGap(c) && s != [] && !IsByteSpace(s[|s| - 1])
    ensures TrimBytesRight(s + c) == s
    decreases |c|
  {
    if c == [] {
      assert s + c == s;
    } else {
      var n := |c| - 1;
      assert (s + c)[|s + c| - 1] == c[n] && (s + c)[..|s + c| - 1] == s + c[..n];
      TrimsRightTo(s, c[..n]);
    }
  }

  /** A line that carries nothing says nothing. */
  lemma {:induction false} NoEvent(parse: Parser, line: Bytes)
    requires forall data :: !Carries(line, data)
    ensures EventChoices(parse, line) == []
  {
    var inner := TrimBytes(line);
    if StartsWith(inner, "data:") && TrimBytes(inner[5..]) != [] {
      CarriesTheRest(line);
    }
  }

  lemma {:induction false} CarriesTheRest(line: Bytes)
    requires StartsWith(TrimBytes(line), "data:") && TrimBytes(TrimBytes(line)[5..]) != []
    ensures Carries(line, TrimBytes(TrimBytes(line)[5..]))
  {
    var after := TrimBytes(line)[5..];
    var a, c := TrimBytesCuts(line);
    var b, d := TrimBytesCuts(after);
    assert TrimBytes(line) == "data:" + after;
    Regroup(line, a, b, TrimBytes(after), d, c);
    GapAppends(d, c);
    assert CarriesAt(line, TrimBytes(after), a, b, d + c);
  }

  lemma {:induction false} Regroup(line: Bytes, a: Bytes, b: Bytes, data: Bytes, d: Bytes, c: Bytes)
    requires line == a + ("data:" + (b + data + d)) + c
    ensures line == a + ("data:" + (b + data)) + (d + c)
  {
    assert "data:" + (b + data + d) == "data:" + (b + data) + d;
    var x := "data:" + (b + data);
    assert a + (x + d) + c == a + x + (d + c);
  }

  lemma {:induction false} GapAppends(a: Bytes, b: Bytes)
    requires IsGap(a) && IsGap(b)
    ensures IsGap(a + b)
  {
  }

  lemma {:induction false} TrimBytesCuts(s: Bytes) returns (a: Bytes, c: Bytes)
    ensures IsGap(a) && IsGap(c) && s == a + TrimBytes(s) + c
    ensures TrimBytes(s) != [] ==> IsTight(TrimBytes(s))
  {
    a := LeftCuts(s);
    c := RightCuts(TrimBytesLeft(s));
    var t := TrimBytes(s);
    assert TrimBytesLeft(s) == t + c && s == a + (t + c);
    assert a + (t + c) == a + t + c;
    if t != [] {
      assert (t + c)[0] == t[0];
      OneGap(t[0]);
      OneGap(t[|t| - 1]);
    }
  }

  lemma {:induction false} OneGap(x: char)
    ensures IsGap([x]) <==> IsByteSpace(x)
  {
    assert [x][0] == x;
  }

  lemma {:induction false} LeftCuts(s: Bytes) returns (a: Bytes)
    ensures IsGap(a) && s == a + TrimBytesLeft(s)
    ensures TrimBytesLeft(s) != [] ==> !IsByteSpace(TrimBytesLeft(s)[0])
    decreases |s|
  {
    if s != [] && IsByteSpace(s[0]) {
      var rest := LeftCuts(s[1..]);
      a := [s[0]] + rest;
      assert s == [s[0]] + s[1..];
      assert [s[0]] + (rest + TrimBytesLeft(s[1..])) == a + TrimBytesLeft(s[1..]);
    } else {
      a := [];
      assert [] + s == s;
    }
  }

  lemma {:induction false} RightCuts(s: Bytes) returns (c: Bytes)
    ensures IsGap(c) && s == TrimBytesRight(s) + c
    ensures var t := TrimBytesRight(s); t != [] ==> !IsByteSpace(t[|t| - 1])
    decreases |s|
  {
    if s != [] && IsByteSpace(s[|s| - 1]) {
      var init, last := s[..|s| - 1], s[|s| - 1];
      var rest := RightCuts(init);
      c := rest + [last];
      assert s == init + [last];
      assert TrimBytesRight(init) + rest + [last] == TrimBytesRight(init) + c;
    } else {
      c := [];
      assert s == s + c;
    }
  }

  // ---------------------------------------------------------------------------------------------
  // The observer
  // ---------------------------------------------------------------------------------------------

  datatype Observer = Observer(buffer: Bytes, choices: seq<StreamedChoice>, done: bool)

  const GIVEN_UP := Observer([], [], true)

  predicate Over(choices: seq<StreamedChoice>) {
    exists i :: 0 <= i < |choices| && choices[i].chars >= MAX_TRACE_CHARS
  }

  function AfterFeed(parse: Parser, o: Observer, chunk: Bytes): Observer {
    if o.done then o
    else
      var lines := Split(o.buffer + chunk);
      var choices := ConsumeLines(parse, o.choices, lines.whole);
      if !Fits(lines.rest) || Over(choices) then GIVEN_UP else Observer(lines.rest, choices, false)
  }

  function AfterFeeds(parse: Parser, o: Observer, chunks: seq<Bytes>): Observer
    decreases |chunks|
  {
    if chunks == [] then o else AfterFeeds(parse, AfterFeed(parse, o, chunks[0]), chunks[1..])
  }

  predicate ByIndex(a: StreamedCall, b: StreamedCall) {
    a.index <= b.index
  }

  /** `sorted(self.calls)`. */
  function SortedCalls(calls: seq<StreamedCall>): seq<StreamedCall> {
    Sorting.Sort(ByIndex, calls)
  }

  predicate IsResolved(call: StreamedCall) {
    call.id != "" && Trim(call.name) != ""
  }

  function ResolvedIds(calls: seq<StreamedCall>): seq<string> {
    if calls == [] then []
    else (if IsResolved(calls[0]) then [calls[0].id] else []) + ResolvedIds(calls[1..])
  }

  function ResolvedSignatures(calls: seq<StreamedCall>): seq<string> {
    if calls == [] then []
    else
      (if IsResolved(calls[0]) then [Signature(calls[0].name, calls[0].arguments)] else [])
      + ResolvedSignatures(calls[1..])
  }

  /** The arguments of one `observe` of the store. */
  datatype Record = Record(trace: string, ids: seq<string>, signatures: seq<string>)

  function RecordOf(c: StreamedChoice): seq<Record> {
    var calls := SortedCalls(c.calls);
    if ResolvedIds(calls) == [] || Trim(Join(c.parts)) == "" then []
    else [Record(Trim(Join(c.parts)), ResolvedIds(calls), ResolvedSignatures(calls))]
  }

  function RecordsOf(choices: seq<StreamedChoice>): seq<Record> {
    if choices == [] then [] else RecordOf(choices[0]) + RecordsOf(choices[1..])
  }

  /** `finish`: what it hands to the store. */
  function Finished(parse: Parser, o: Observer): seq<Record> {
    RecordsOf(ConsumeLine(parse, o.choices, o.buffer))
  }

  function Recorded(parse: Parser, chunks: seq<Bytes>): seq<Record> {
    Finished(parse, AfterFeeds(parse, Observer([], [], false), chunks))
  }

  // ---------------------------------------------------------------------------------------------
  // Chunks
  // ---------------------------------------------------------------------------------------------

  lemma {:induction false} ChoiceStaysOver(choices: seq<StreamedChoice>, choice: Json, position: nat)
    requires Over(choices)
    ensures Over(ConsumeChoice(choices, choice, position))
  {
    var i :| 0 <= i < |choices| && choices[i].chars >= MAX_TRACE_CHARS;
    var after := ConsumeChoice(choices, choice, position);
    assert after[i].chars >= choices[i].chars;
  }

  lemma {:induction false} ChoicesStayOver(choices: seq<StreamedChoice>, items: seq<Json>, position: nat)
    requires Over(choices)
    ensures Over(ConsumeChoices(choices, items, position))
    decreases |items|
  {
    if items != [] {
      ChoiceStaysOver(choices, items[0], position);
      ChoicesStayOver(ConsumeChoice(choices, items[0], position), items[1..], position + 1);
    }
  }

  lemma {:induction false} LinesStayOver(parse: Parser, choices: seq<StreamedChoice>, lines: seq<Bytes>)
    requires Over(choices)
    ensures Over(ConsumeLines(parse, choices, lines))
    decreases |lines|
  {
    if lines != [] {
      ChoicesStayOver(choices, EventChoices(parse, lines[0]), 0);
      LinesStayOver(parse, ConsumeLine(parse, choices, lines[0]), lines[1..]);
    }
  }

  lemma {:induction false} ConsumeAppend(parse: Parser, choices: seq<StreamedChoice>, a: seq<Bytes>, b: seq<Bytes>)
    ensures ConsumeLines(parse, choices, a + b) == ConsumeLines(parse, ConsumeLines(parse, choices, a), b)
    decreases |a|
  {
    if a == [] {
      assert a + b == b;
    } else {
      assert (a + b)[0] == a[0] && (a + b)[1..] == a[1..] + b;
      ConsumeAppend(parse, ConsumeLine(parse, choices, a[0]), a[1..], b);
    }
  }

  function ReadChoices(parse: Parser, s: Bytes): seq<StreamedChoice> {
    ConsumeLines(parse, [], Split(s).whole)
  }

  /** The observer that has read these bytes and has not given up. */
  function HavingRead(parse: Parser, s: Bytes): Observer {
    Observer(Split(s).rest, ReadChoices(parse, s), false)
  }

  /** Having been given these bytes up to the end of a chunk, the observer gives up. */
  predicate GivesUp(parse: Parser, s: Bytes) {
    !Fits(Split(s).rest) || Over(ReadChoices(parse, s))
  }

  lemma {:induction false} FeedReads(parse: Parser, x: Bytes, chunk: Bytes)
    ensures AfterFeed(parse, HavingRead(parse, x), chunk) ==
            if GivesUp(parse, x + chunk) then GIVEN_UP else HavingRead(parse, x + chunk)
  {
    SplitAppend(x, chunk);
    ConsumeAppend(parse, [], Split(x).whole, Split(Split(x).rest + chunk).whole);
  }

  lemma {:induction false} OverIsFinal(parse: Parser, x: Bytes, y: Bytes)
    requires Over(ReadChoices(parse, x))
    ensures Over(ReadChoices(parse, x + y))
  {
    SplitAppend(x, y);
    ConsumeAppend(parse, [], Split(x).whole, Split(Split(x).rest + y).whole);
    LinesStayOver(parse, ReadChoices(parse, x), Split(Split(x).rest + y).whole);
  }

  lemma {:induction false} GivenUpIsFinal(parse: Parser, chunks: seq<Bytes>)
    ensures AfterFeeds(parse, GIVEN_UP, chunks) == GIVEN_UP
    decreases |chunks|
  {
    if chunks != [] {
      GivenUpIsFinal(parse, chunks[1..]);
    }
  }

  lemma {:induction false} GivenUpRecordsNothing(parse: Parser)
    ensures Finished(parse, GIVEN_UP) == []
  {
    NothingOnEmptyLine(parse, []);
  }

  /** However the rest arrives: either the observer gives up on the way, or it has read it all. */
  lemma {:induction false} FeedsReadOrGiveUp(parse: Parser, x: Bytes, chunks: seq<Bytes>)
    requires !GivesUp(parse, x)
    ensures var o, s := AfterFeeds(parse, HavingRead(parse, x), chunks), x + SseFraming.Concat(chunks);
            || (o == HavingRead(parse, s) && !GivesUp(parse, s))
            || (o == GIVEN_UP && (!LinesFit(s) || Over(ReadChoices(parse, s))))
    decreases |chunks|
  {
    if chunks == [] {
      assert x + SseFraming.Concat(chunks) == x;
    } else {
      var later := SseFraming.Concat(chunks[1..]);
      var y := x + chunks[0];
      SseFraming.Associative(x, chunks[0], later);
      FeedReads(parse, x, chunks[0]);
      if GivesUp(parse, y) {
        GivenUpIsFinal(parse, chunks[1..]);
        if LinesFit(y + later) {
          PrefixRestFits(y, later);
          OverIsFinal(parse, y, later);
        }
      } else {
        FeedsReadOrGiveUp(parse, y, chunks[1..]);
      }
    }
  }

  lemma {:induction false} NothingRead(parse: Parser)
    ensures HavingRead(parse, []) == Observer([], [], false) && !GivesUp(parse, [])
  {
  }

  lemma {:induction false} OneChunk(parse: Parser, s: Bytes)
    ensures Recorded(parse, [s]) == if GivesUp(parse, s) then [] else Finished(parse, HavingRead(parse, s))
  {
    NothingRead(parse);
    assert [] + s == s;
    FeedReads(parse, [], s);
    assert [s][1..] == [];
    var first := AfterFeed(parse, HavingRead(parse, []), s);
    assert AfterFeeds(parse, HavingRead(parse, []), [s]) == AfterFeeds(parse, first, []) == first;
    GivenUpRecordsNothing(parse);
  }

  ghost predicate ChunksDoNotMatter(parse: Parser, s: Bytes) {
    forall chunks :: SseFraming.Concat(chunks) == s ==> Recorded(parse, chunks) == Recorded(parse, [s])
  }

  lemma {:induction false} ChunkedRecords(parse: Parser, s: Bytes, chunks: seq<Bytes>)
    requires SseFraming.Concat(chunks) == s
    requires LinesFit(s) || Recorded(parse, [s]) == []
    ensures Recorded(parse, chunks) == Recorded(parse, [s])
  {
    NothingRead(parse);
    assert [] + s == s;
    FeedsReadOrGiveUp(parse, [], chunks);
    GivenUpRecordsNothing(parse);
    OneChunk(parse, s);
  }

  lemma {:induction false} LongLineShowsChunks(parse: Parser, s: Bytes)
    requires !LinesFit(s) && Recorded(parse, [s]) != []
    ensures !ChunksDoNotMatter(parse, s)
  {
    var x, y := CutInLongLine(s);
    var chunks := [x, y];
    assert chunks[1..] == [y] && [y][1..] == [];
    assert SseFraming.Concat([y]) == y + [];
    assert SseFraming.Concat(chunks) == s;
    CutIsGivenUp(parse, x, y);
    assert Recorded(parse, chunks) != Recorded(parse, [s]);
  }

  lemma {:induction false} CutIsGivenUp(parse: Parser, x: Bytes, y: Bytes)
    requires GivesUp(parse, x)
    ensures Recorded(parse, [x, y]) == []
  {
    NothingRead(parse);
    assert [] + x == x;
    FeedReads(parse, [], x);
    assert [x, y][1..] == [y];
    GivenUpIsFinal(parse, [y]);
    GivenUpRecordsNothing(parse);
  }

  /** All lines of a stream, the unfinished one too. */
  function AllLines(s: Bytes): seq<Bytes> {
    Split(s).whole + [Split(s).rest]
  }

  lemma {:induction false} OnePieceRecords(parse: Parser, s: Bytes)
    ensures Recorded(parse, [s]) ==
            if GivesUp(parse, s) then [] else RecordsOf(ConsumeLines(parse, [], AllLines(s)))
  {
    OneChunk(parse, s);
    ConsumeAppend(parse, [], Split(s).whole, [Split(s).rest]);
    var before := ReadChoices(parse, s);
    assert [Split(s).rest][1..] == [];
    assert ConsumeLines(parse, before, [Split(s).rest]) == ConsumeLine(parse, before, Split(s).rest);
  }

  /**
    What is recorded depends only on the bytes, not on how they are cut, exactly when every line fits
    the cap, or the last one does not, or a trace has reached the cap on a finished line, or the choices
    that all lines make up have nothing to record.
   */
  lemma {:induction false} ObserverChunksExactly(parse: Parser, s: Bytes)
    ensures ChunksDoNotMatter(parse, s) <==>
            || LinesFit(s)
            || !Fits(Split(s).rest)
            || Over(ReadChoices(parse, s))
            || RecordsOf(ConsumeLines(parse, [], AllLines(s))) == []
  {
    OnePieceRecords(parse, s);
    if LinesFit(s) || Recorded(parse, [s]) == [] {
      forall chunks | SseFraming.Concat(chunks) == s ensures Recorded(parse, chunks) == Recorded(parse, [s]) {
        ChunkedRecords(parse, s, chunks);
      }
    } else {
      LongLineShowsChunks(parse, s);
    }
  }

  // ---------------------------------------------------------------------------------------------
  // Where chunks show: an event that is padded over the cap
  // ---------------------------------------------------------------------------------------------

  function Spaces(n: nat): Bytes {
    seq(n, i => ' ')
  }

  lemma {:induction false} PaddingIsTrimmed(s: Bytes, n: nat)
    ensures TrimBytesRight(s + Spaces(n)) == TrimBytesRight(s)
    decreases n
  {
    if n == 0 {
      assert s + Spaces(0) == s;
    } else {
      assert (s + Spaces(n))[..|s| + n - 1] == s + Spaces(n - 1);
      PaddingIsTrimmed(s, n - 1);
    }
  }

  /** The bytes of one event, as they stand in a line. */
  predicate PlainEvent(event: Bytes) {
    && event != [] && event != "[DONE]" && LF !in event
    && !IsByteSpace(event[0]) && !IsByteSpace(event[|event| - 1])
  }

  function ChoicesIn(parse: Parser, event: Bytes): seq<StreamedChoice> {
    ConsumeChoices([], Items(parse(event).GetOr(Null).Get("choices")), 0)
  }

  lemma {:induction false} PaddedEvent(parse: Parser, event: Bytes, n: nat)
    requires PlainEvent(event)
    ensures ConsumeLine(parse, [], "data:" + event + Spaces(n)) == ChoicesIn(parse, event)
  {
    var line := "data:" + event;
    var padded := line + Spaces(n);
    assert TrimBytesLeft(padded) == padded;
    PaddingIsTrimmed(line, n);
    assert line[|line| - 1] == event[|event| - 1];
    assert TrimBytes(padded) == line;
    assert StartsWith(line, "data:") && line[5..] == event;
    assert TrimBytes(event) == event;
  }

  lemma {:induction false} OneLine(line: Bytes)
    requires LF !in line
    ensures Split(line + [LF]) == Lines([line], [])
  {
    NoLf(line);
    FirstLf(line, []);
    assert line + [LF] + [] == line + [LF];
    assert (line + [LF])[..|line|] == line && (line + [LF])[|line| + 1..] == [];
  }

  /** One finished line in one piece: its length makes no difference then. */
  lemma {:induction false} OneLineIsRecorded(parse: Parser, line: Bytes, choices: seq<StreamedChoice>)
    requires LF !in line && ConsumeLine(parse, [], line) == choices && !Over(choices)
    ensures Recorded(parse, [line + [LF]]) == RecordsOf(choices)
  {
    OneLine(line);
    OneLineReads(parse, line);
    OneChunk(parse, line + [LF]);
    NothingOnEmptyLine(parse, choices);
  }

  lemma {:induction false} OneLineReads(parse: Parser, line: Bytes)
    ensures ConsumeLines(parse, [], [line]) == ConsumeLine(parse, [], line)
  {
    var choices := ConsumeLine(parse, [], line);
    assert [line][1..] == [];
    assert ConsumeLines(parse, choices, []) == choices;
  }

  /** An event that would be recorded, on a line padded over the cap: in one piece it is, in two it need not be. */
  lemma {:induction false} PaddedEventShowsChunks(parse: Parser, event: Bytes)
    requires PlainEvent(event)
    requires RecordsOf(ChoicesIn(parse, event)) != [] && !Over(ChoicesIn(parse, event))
    ensures var s := "data:" + event + Spaces(MAX_TRACE_CHARS) + [LF];
            Recorded(parse, [s]) == RecordsOf(ChoicesIn(parse, event)) && !ChunksDoNotMatter(parse, s)
  {
    var line := "data:" + event + Spaces(MAX_TRACE_CHARS);
    PaddedEvent(parse, event, MAX_TRACE_CHARS);
    OneLineIsRecorded(parse, line, ChoicesIn(parse, event));
    OneLine(line);
    assert !Fits(Split(line + [LF]).whole[0]);
    LongLineShowsChunks(parse, line + [LF]);
  }

  lemma {:induction false} NothingOnEmptyLine(parse: Parser, choices: seq<StreamedChoice>)
    ensures ConsumeLine(parse, choices, []) == choices
  {
    assert TrimBytes([]) == [];
    assert EventChoices(parse, []) == [];
  }

  /** Once a trace has reached the cap on a finished line nothing is recorded, however the stream is cut. */
  lemma {:induction false} OverTheCapRecordsNothing(parse: Parser, s: Bytes, chunks: seq<Bytes>)
    requires SseFraming.Concat(chunks) == s && Over(ReadChoices(parse, s))
    ensures Recorded(parse, chunks) == []
  {
    NothingRead(parse);
    assert [] + s == s;
    FeedsReadOrGiveUp(parse, [], chunks);
    GivenUpRecordsNothing(parse);
  }

  // ---------------------------------------------------------------------------------------------
  // The class
  // ---------------------------------------------------------------------------------------------

  /** What the store holds after these records. */
  function StoreAll(b: Bounds, s: Store, model: string, records: seq<Record>, now: real): Store
    decreases |records|
  {
    if records == [] then s
    else
      StoreAll(b, AfterObserve(b, s, model, records[0].trace, records[0].ids, records[0].signatures, now), model,
          records[1..], now)
  }

  lemma {:induction false} StoreAppend(b: Bounds, s: Store, model: string, x: seq<Record>, y: seq<Record>, now: real)
    ensures StoreAll(b, s, model, x + y, now) == StoreAll(b, StoreAll(b, s, model, x, now), model, y, now)
    decreases |x|
  {
    if x == [] {
      assert x + y == y;
    } else {
      assert (x + y)[0] == x[0] && (x + y)[1..] == x[1..] + y;
      StoreAppend(b, AfterObserve(b, s, model, x[0].trace, x[0].ids, x[0].signatures, now), model, x[1..], y, now);
    }
  }

  lemma {:induction false} AbsorbNext(calls: seq<StreamedCall>, items: seq<Json>, position: nat)
    requires position < |items|
    ensures AbsorbCalls(calls, items[position..], position) ==
            AbsorbCalls(AbsorbCall(calls, items[position], position), items[position + 1..], position + 1)
  {
    assert items[position..][0] == items[position] && items[position..][1..] == items[position + 1..];
  }

  /** One fragment, looked up by its index or its position. */
  method AbsorbOne(known: seq<StreamedCall>, call: Json, position: nat) returns (calls: seq<StreamedCall>)
    ensures calls == AbsorbCall(known, call, position)
  {
    calls := known;
    if !call.Obj? {
      return;
    }
    var index := AsIndex(call.Get("index")).GetOr(position);
    var at := CallAt(calls, index);
    if at == |calls| {
      calls := calls + [StreamedCall(index, "", "", "")];
    }
    calls := calls[at := Absorbed(calls[at], call)];
  }

  /** `_StreamedChoice.absorb_tool_calls`. */
  method AbsorbToolCalls(known: seq<StreamedCall>, items: seq<Json>) returns (calls: seq<StreamedCall>)
    ensures calls == AbsorbCalls(known, items, 0)
  {
    calls := known;
    var position: nat := 0;
    while position < |items|
      invariant position <= |items|
      invariant AbsorbCalls(calls, items[position..], position) == AbsorbCalls(known, items, 0)
    {
      AbsorbNext(calls, items, position);
      calls := AbsorbOne(calls, items[position], position);
      position := position + 1;
    }
  }

  class ReasoningStreamObserver {
    const parse: Parser
    const store: ReasoningReplayStore
    const model: string
    var buffer: Bytes
    var choices: seq<StreamedChoice>
    var done: bool

    constructor (parse: Parser, store: ReasoningReplayStore, model: string)
      ensures this.parse == parse && this.store == store && this.model == model
      ensures State() == Observer([], [], false)
    {
      this.parse, this.store, this.model := parse, store, model;
      buffer, choices, done := [], [], false;
    }

    function State(): Observer
      reads this
    {
      Observer(buffer, choices, done)
    }

    method GiveUp()
      modifies this
      ensures State() == GIVEN_UP
    {
      done, buffer, choices := true, [], [];
    }

    method Feed(chunk: Bytes)
      modifies this
      ensures State() == AfterFeed(parse, old(State()), chunk)
    {
      if done {
        return;
      }
      var lines := Split(buffer + chunk);
      buffer := lines.rest;
      ConsumeAll(lines.whole);
      var over := AnyOver();
      if |buffer| > MAX_TRACE_CHARS || over {
        GiveUp();
      }
    }

    method ConsumeAll(lines: seq<Bytes>)
      modifies this`choices
      ensures choices == ConsumeLines(parse, old(choices), lines)
    {
      var i := 0;
      while i < |lines|
        invariant 0 <= i <= |lines|
        invariant ConsumeLines(parse, choices, lines[i..]) == ConsumeLines(parse, old(choices), lines)
      {
        assert lines[i..][0] == lines[i] && lines[i..][1..] == lines[i + 1..];
        ConsumeOne(lines[i]);
        i := i + 1;
      }
    }

    method ConsumeOne(line: Bytes)
      modifies this`choices
      ensures choices == ConsumeLine(parse, old(choices), line)
    {
      var items := EventChoices(parse, line);
      var position: nat := 0;
      while position < |items|
        invariant position <= |items|
        invariant ConsumeChoices(choices, items[position..], position) == ConsumeChoices(old(choices), items, 0)
      {
        assert items[position..][0] == items[position] && items[position..][1..] == items[position + 1..];
        var delta := items[position].Get("delta");
        if delta.Obj? {
          AbsorbDelta(AsIndex(items[position].Get("index")).GetOr(position), delta);
        }
        position := position + 1;
      }
    }

    method AbsorbDelta(index: int, delta: Json)
      modifies this`choices
      ensures choices == ConsumeDelta(old(choices), index, delta)
    {
      var at := ChoiceAt(choices, index);
      if at == |choices| {
        choices := choices + [NewChoice(index)];
      }
      var accumulator := AddPart(choices[at], Part(delta));
      var calls := AbsorbToolCalls(accumulator.calls, Items(delta.Get("tool_calls")));
      choices := choices[at := accumulator.(calls := calls)];
    }

    method AnyOver() returns (over: bool)
      ensures over == Over(choices)
    {
      over := false;
      var i := 0;
      while i < |choices|
        invariant 0 <= i <= |choices|
        invariant over <==> exists k :: 0 <= k < i && choices[k].chars >= MAX_TRACE_CHARS
      {
        if choices[i].chars >= MAX_TRACE_CHARS {
          over := true;
        }
        i := i + 1;
      }
    }

    method Finish(now: real)
      modifies this, store
      ensures store.State() == StoreAll(store.bounds, old(store.State()), model, Finished(parse, old(State())), now)
    {
      ConsumeOne(buffer);
      buffer := [];
      ghost var records := RecordsOf(choices);
      var i := 0;
      while i < |choices|
        invariant 0 <= i <= |choices| && records == RecordsOf(choices)
        invariant StoreAll(store.bounds, store.State(), model, RecordsOf(choices[i..]), now) ==
                  StoreAll(store.bounds, old(store.State()), model, records, now)
      {
        assert choices[i..][0] == choices[i] && choices[i..][1..] == choices[i + 1..];
        StoreAppend(store.bounds, store.State(), model, RecordOf(choices[i]), RecordsOf(choices[i + 1..]), now);
        StoreChoice(choices[i], now);
        i := i + 1;
      }
    }

    method StoreChoice(c: StreamedChoice, now: real)
      modifies store
      ensures store.State() == StoreAll(store.bounds, old(store.State()), model, RecordOf(c), now)
    {
      var calls := SortedCalls(c.calls);
      var ids, signatures := ResolvedIds(calls), ResolvedSignatures(calls);
      if ids == [] {
        return;
      }
      var trace := Trim(Join(c.parts));
      if trace != "" {
        store.Observe(model, trace, ids, signatures, now);
      }
    }
  }
}
