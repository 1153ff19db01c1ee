/** What the observer records is what `record_completion_payload` records of the assembled completion. */
module ReasoningAgreement {
  import opened Json
  import opened Text
  import opened Wrappers
  import opened ReplayEntries
  import opened ReplayStore
  import opened ReasoningObserver
  import Sorting
  import SseFraming

  // ---------------------------------------------------------------------------------------------
  // record_completion_payload
  // ---------------------------------------------------------------------------------------------

  function MessageRecord(message: Json): seq<Record> {
    var calls := Items(message.Get("tool_calls"));
    var ids, signatures := CallIds(calls), CallSignatures(calls);
    if ids == [] then []
    else if CleanTrace(message.Get("reasoning_content")) != "" then
      [Record(CleanTrace(message.Get("reasoning_content")), ids, signatures)]
    else if CleanTrace(message.Get("reasoning")) != "" then
        [Record(CleanTrace(message.Get("reasoning")), ids, signatures)]
    else []
  }

  function ChoiceRecords(choices: seq<Json>): seq<Record> {
    if choices == [] then [] else MessageRecord(choices[0].Get("message")) + ChoiceRecords(choices[1..])
  }

  /** What `record_completion_payload` hands to the store. */
  function CompletionRecords(payload: Json): seq<Record> {
    ChoiceRecords(Items(payload.Get("choices")))
  }

  method RecordCompletionPayload(store: ReasoningReplayStore, model: string, payload: Json, now: real)
    modifies store
    ensures store.State() == StoreAll(store.bounds, old(store.State()), model, CompletionRecords(payload), now)
  {
    var choices := Items(payload.Get("choices"));
    var i := 0;
    while i < |choices|
      invariant 0 <= i <= |choices|
      invariant StoreAll(store.bounds, store.State(), model, ChoiceRecords(choices[i..]), now) ==
                StoreAll(store.bounds, old(store.State()), model, ChoiceRecords(choices), now)
    {
      var message := choices[i].Get("message");
      assert choices[i..][0] == choices[i] && choices[i..][1..] == choices[i + 1..];
      StoreAppend(store.bounds, store.State(), model, MessageRecord(message), ChoiceRecords(choices[i + 1..]), now);
      RecordMessage(store, model, message, now);
      i := i + 1;
    }
  }

  method RecordMessage(store: ReasoningReplayStore, model: string, message: Json, now: real)
    modifies store
    ensures store.State() == StoreAll(store.bounds, old(store.State()), model, MessageRecord(message), now)
  {
    var calls := Items(message.Get("tool_calls"));
    var ids, signatures := CallIds(calls), CallSignatures(calls);
    if ids == [] {
      return;
    }
    var trace := CleanTrace(message.Get("reasoning_content"));
    if trace == "" {
      trace := CleanTrace(message.Get("reasoning"));
    }
    if trace != "" {
      store.Observe(model, trace, ids, signatures, now);
    }
  }

  /** The ids of the calls that have one, in the order of the calls. */
  function IdsIn(calls: seq<Json>): seq<string>
    decreases |calls|
  {
    if calls == [] then []
    else
      var init, last := calls[..|calls| - 1], calls[|calls| - 1];
      if CallId(last) == "" then IdsIn(init) else IdsIn(init) + [CallId(last)]
  }

  /** The text of a value: a string, or the texts of its parts on lines of their own. */
  function Said(value: Json): string {
    match value
    case Str(s) => s
    case Arr(items) => SaidByParts(items)
    case _ => ""
  }

  predicate HasText(item: Json) {
    item.Get("text").Str?
  }

  function SaidByParts(items: seq<Json>): string {
    if items == [] then ""
    else if !HasText(items[0]) then SaidByParts(items[1..])
    else if forall i :: 1 <= i < |items| ==> !HasText(items[i]) then items[0].Get("text").s
    else items[0].Get("text").s + "\n" + SaidByParts(items[1..])
  }

  /** A message is recorded when it has calls with ids and text under a key, the first of the two that has. */
  lemma {:induction false} MessageRecordExactly(message: Json)
    ensures var calls := if message.Get("tool_calls").Arr? then message.Get("tool_calls").items else [];
            var key := if IsBlank(message.Get("reasoning_content")) then "reasoning" else "reasoning_content";
            var records := MessageRecord(message);
            if (forall i :: 0 <= i < |calls| ==> CallId(calls[i]) == "") || IsBlank(message.Get(key)) then records == []
            else
              && |records| == 1 && records[0].trace == Trim(Said(message.Get(key)))
              && records[0].ids == IdsIn(calls) && SetOf(records[0].signatures) == AskedFor(calls)
  {
    var calls := Items(message.Get("tool_calls"));
    BlankExactly(message.Get("reasoning_content"));
    BlankExactly(message.Get("reasoning"));
    SaidExactly(message.Get("reasoning_content"));
    SaidExactly(message.Get("reasoning"));
    IdsExactly(calls);
    SignaturesExactly(calls);
  }

  lemma {:induction false} IdsExactly(calls: seq<Json>)
    ensures CallIds(calls) == IdsIn(calls)
    ensures CallIds(calls) == [] <==> forall i :: 0 <= i < |calls| ==> CallId(calls[i]) == ""
    decreases |calls|
  {
    if calls != [] {
      var init, last := calls[..|calls| - 1], calls[|calls| - 1];
      assert calls == init + [last];
      IdsExactly(init);
      CallIdsSnoc(init, last);
      assert IdOf(last) == CallId(last);
    }
  }

  lemma {:induction false} CallIdsSnoc(calls: seq<Json>, last: Json)
    ensures CallIds(calls + [last]) == CallIds(calls) + if IdOf(last) == "" then [] else [IdOf(last)]
    decreases |calls|
  {
    var id := if IdOf(last) == "" then [] else [IdOf(last)];
    if calls == [] {
      FirstId(last, []);
      assert [] + [last] == [last] + [] && id + CallIds([]) == CallIds([]) + id;
    } else {
      var first, rest := calls[0], calls[1..];
      assert calls == [first] + rest && calls + [last] == [first] + (rest + [last]);
      CallIdsSnoc(rest, last);
      FirstId(first, rest);
      FirstId(first, rest + [last]);
      JoinsOn(if IdOf(first) == "" then [] else [IdOf(first)], CallIds(rest), id);
    }
  }

  lemma {:induction false} FirstId(call: Json, rest: seq<Json>)
    ensures CallIds([call] + rest) == (if IdOf(call) == "" then [] else [IdOf(call)]) + CallIds(rest)
  {
    assert ([call] + rest)[0] == call && ([call] + rest)[1..] == rest;
  }

  lemma {:induction false} SaidExactly(value: Json)
    ensures RawTrace(value) == Said(value)
  {
    if value.Arr? {
      PartsExactly(value.items);
    }
  }

  lemma {:induction false} PartsExactly(items: seq<Json>)
    ensures JoinWith("\n", TextParts(items)) == SaidByParts(items)
    ensures TextParts(items) == [] <==> forall i :: 0 <= i < |items| ==> !HasText(items[i])
    decreases |items|
  {
    if items != [] {
      PartsExactly(items[1..]);
      assert forall i :: 1 <= i < |items| ==> items[i] == items[1..][i - 1];
      var rest := TextParts(items[1..]);
      if HasText(items[0]) {
        JoinFirst(items[0].Get("text").s, rest);
      } else {
        assert [] + rest == rest;
      }
    }
  }

  lemma {:induction false} JoinFirst(first: string, rest: seq<string>)
    ensures JoinWith("\n", [first] + rest) == if rest == [] then first else first + "\n" + JoinWith("\n", rest)
  {
    assert ([first] + rest)[1..] == rest;
  }

  // ---------------------------------------------------------------------------------------------
  // The completion the deltas assemble to: everything joined, nothing cut
  // ---------------------------------------------------------------------------------------------

  /** `text` is the whole trace; the ids of `calls` are as they were sent. */
  datatype Whole = Whole(index: int, text: string, calls: seq<StreamedCall>)

  function Extended(known: StreamedCall, call: Json): StreamedCall {
    var asked := call.Get("function");
    known.(id := if IdOf(call) != "" then call.Get("id").s else known.id,
           name := known.name + TextOf(asked.Get("name")),
           arguments := known.arguments + TextOf(asked.Get("arguments")))
  }

  /** The place of something in a list: the number it gives, or the truth value as one, or where it stands. */
  function Place(index: Json, position: nat): int {
    if index.Int? then index.n
    else if index == Bool(true) then 1
    else if index == Bool(false) then 0
    else position
  }

  function AddCall(calls: seq<StreamedCall>, call: Json, position: nat): seq<StreamedCall> {
    if !call.Obj? then calls
    else
      var index := Place(call.Get("index"), position);
      var at := CallAt(calls, index);
      if at < |calls| then calls[at := Extended(calls[at], call)]
      else calls + [Extended(StreamedCall(index, "", "", ""), call)]
  }

  function AddCalls(calls: seq<StreamedCall>, items: seq<Json>, position: nat): seq<StreamedCall>
    decreases |items|
  {
    if items == [] then calls else AddCalls(AddCall(calls, items[0], position), items[1..], position + 1)
  }

  function Extend(key: string, w: Whole, delta: Json): Whole {
    w.(text := w.text + RawTrace(delta.Get(key)), calls := AddCalls(w.calls, Items(delta.Get("tool_calls")), 0))
  }

  function WholeAt(wholes: seq<Whole>, index: int): (i: nat)
    ensures i <= |wholes| && (i < |wholes| ==> wholes[i].index == index)
  {
    if wholes == [] || wholes[0].index == index then 0 else 1 + WholeAt(wholes[1..], index)
  }

  function AddDeltaTo(key: string, wholes: seq<Whole>, index: int, delta: Json): seq<Whole> {
    var at := WholeAt(wholes, index);
    if at < |wholes| then wholes[at := Extend(key, wholes[at], delta)]
    else wholes + [Extend(key, Whole(index, "", []), delta)]
  }

  function AddChoice(key: string, wholes: seq<Whole>, choice: Json, position: nat): seq<Whole> {
    if choice.Get("delta").Obj?
    then AddDeltaTo(key, wholes, Place(choice.Get("index"), position), choice.Get("delta"))
    else wholes
  }

  function AddChoices(key: string, wholes: seq<Whole>, items: seq<Json>, position: nat): seq<Whole>
    decreases |items|
  {
    if items == [] then wholes
    else AddChoices(key, AddChoice(key, wholes, items[0], position), items[1..], position + 1)
  }

  function AddLines(parse: Parser, key: string, wholes: seq<Whole>, lines: seq<Bytes>): seq<Whole>
    decreases |lines|
  {
    if lines == [] then wholes
    else AddLines(parse, key, AddChoices(key, wholes, EventChoices(parse, lines[0]), 0), lines[1..])
  }

  function CallJson(call: StreamedCall): Json {
    Obj(map["id" := Str(call.id), "function" := Obj(map["name" := Str(call.name), "arguments" := Str(call.arguments)])])
  }

  function CallsJson(calls: seq<StreamedCall>): seq<Json> {
    if calls == [] then [] else [CallJson(calls[0])] + CallsJson(calls[1..])
  }

  function MessageJson(key: string, w: Whole): Json {
    Obj(map["tool_calls" := Arr(CallsJson(SortedCalls(w.calls))), key := Str(w.text)])
  }

  function ChoicesJson(key: string, wholes: seq<Whole>): seq<Json> {
    if wholes == [] then []
    else [Obj(map["message" := MessageJson(key, wholes[0])])] + ChoicesJson(key, wholes[1..])
  }

  function Completion(key: string, wholes: seq<Whole>): Json {
    Obj(map["choices" := Arr(ChoicesJson(key, wholes))])
  }

  // ---------------------------------------------------------------------------------------------
  // The observer keeps pace with the assembly
  // ---------------------------------------------------------------------------------------------

  /** The observer's call: the id stripped, and the arguments at least as far as they are looked at. */
  predicate CallTracks(c: StreamedCall, w: StreamedCall) {
    && c.index == w.index && c.id == Trim(w.id) && c.name == w.name
    && c.arguments <= w.arguments
    && (c.arguments == w.arguments || |c.arguments| >= MAX_SIGNATURE_ARG_CHARS)
  }

  ghost predicate CallsTrack(cs: seq<StreamedCall>, ws: seq<StreamedCall>) {
    |cs| == |ws| && forall i :: 0 <= i < |cs| ==> CallTracks(cs[i], ws[i])
  }

  ghost predicate Tracks(c: StreamedChoice, w: Whole) {
    && c.index == w.index
    && c.chars == |w.text|
    && (|w.text| <= MAX_TRACE_CHARS ==> Join(c.parts) == w.text)
    && CallsTrack(c.calls, w.calls)
  }

  ghost predicate AllTrack(cs: seq<StreamedChoice>, ws: seq<Whole>) {
    |cs| == |ws| && forall i :: 0 <= i < |cs| ==> Tracks(cs[i], ws[i])
  }

  const CONTENT := "reasoning_content"
  const PLAIN := "reasoning"

  /** The stream puts its traces under one of the two keys. */
  predicate OneKey(key: string, delta: Json) {
    || (key == CONTENT && RawTrace(delta.Get(PLAIN)) == "")
    || (key == PLAIN && RawTrace(delta.Get(CONTENT)) == "")
  }

  predicate ChoicesUse(key: string, items: seq<Json>) {
    forall i :: 0 <= i < |items| ==> OneKey(key, items[i].Get("delta"))
  }

  predicate LinesUse(parse: Parser, key: string, lines: seq<Bytes>) {
    forall i :: 0 <= i < |lines| ==> ChoicesUse(key, EventChoices(parse, lines[i]))
  }

  lemma {:induction false} PartIsText(key: string, delta: Json)
    requires OneKey(key, delta)
    ensures Part(delta) == RawTrace(delta.Get(key))
  {
  }

  /** A delta with text under both keys adds the one under the first. */
  lemma {:induction false} PartExactly(delta: Json)
    ensures Part(delta) ==
            if Said(delta.Get("reasoning_content")) != "" then Said(delta.Get("reasoning_content"))
            else Said(delta.Get("reasoning"))
  {
    SaidExactly(delta.Get("reasoning_content"));
    SaidExactly(delta.Get("reasoning"));
  }

  lemma {:induction false} TrimEmpty()
    ensures Trim("") == ""
  {
  }

  lemma {:induction false} CallKeepsPace(c: StreamedCall, w: StreamedCall, call: Json)
    requires CallTracks(c, w)
    ensures CallTracks(Absorbed(c, call), Extended(w, call))
  {
    var more := TextOf(call.Get("function").Get("arguments"));
    if c.arguments != w.arguments {
      assert c.arguments <= w.arguments + more;
    }
    if IdOf(call) != "" {
      TrimEmpty();
    }
  }

  lemma {:induction false} SameCallPosition(cs: seq<StreamedCall>, ws: seq<StreamedCall>, index: int)
    requires CallsTrack(cs, ws)
    ensures CallAt(cs, index) == CallAt(ws, index)
    decreases |cs|
  {
    if cs != [] {
      assert CallTracks(cs[0], ws[0]);
      SameCallPosition(cs[1..], ws[1..], index);
    }
  }

  lemma {:induction false} PlaceExactly(index: Json, position: nat)
    ensures AsIndex(index).GetOr(position) == Place(index, position)
  {
  }

  lemma {:induction false} CallsKeepPaceOnce(cs: seq<StreamedCall>, ws: seq<StreamedCall>, call: Json, position: nat)
    requires CallsTrack(cs, ws)
    ensures CallsTrack(AbsorbCall(cs, call, position), AddCall(ws, call, position))
  {
    if call.Obj? {
      var index := Place(call.Get("index"), position);
      PlaceExactly(call.Get("index"), position);
      SameCallPosition(cs, ws, index);
      var at := CallAt(cs, index);
      TrimEmpty();
      if at < |cs| {
        CallKeepsPace(cs[at], ws[at], call);
      } else {
        CallKeepsPace(StreamedCall(index, "", "", ""), StreamedCall(index, "", "", ""), call);
      }
    }
  }

  lemma {:induction false} CallsKeepPace(cs: seq<StreamedCall>, ws: seq<StreamedCall>, items: seq<Json>, position: nat)
    requires CallsTrack(cs, ws)
    ensures CallsTrack(AbsorbCalls(cs, items, position), AddCalls(ws, items, position))
    decreases |items|
  {
    if items != [] {
      CallsKeepPaceOnce(cs, ws, items[0], position);
      CallsKeepPace(AbsorbCall(cs, items[0], position), AddCall(ws, items[0], position), items[1..], position + 1);
    }
  }

  lemma {:induction false} PartKeepsPace(c: StreamedChoice, text: string, part: string)
    requires c.chars == |text| && (|text| <= MAX_TRACE_CHARS ==> Join(c.parts) == text)
    ensures var c' := AddPart(c, part);
            c'.chars == |text + part| && (|text + part| <= MAX_TRACE_CHARS ==> Join(c'.parts) == text + part)
  {
    if part == "" {
      assert text + part == text;
    } else if |text + part| <= MAX_TRACE_CHARS {
      JoinSnoc(c.parts, part);
    }
  }

  lemma {:induction false} DeltaKeepsPace(key: string, c: StreamedChoice, w: Whole, delta: Json)
    requires Tracks(c, w) && OneKey(key, delta)
    ensures Tracks(AddDelta(c, delta), Extend(key, w, delta))
  {
    PartIsText(key, delta);
    PartKeepsPace(c, w.text, Part(delta));
    CallsKeepPace(c.calls, w.calls, Items(delta.Get("tool_calls")), 0);
  }

  lemma {:induction false} SameChoicePosition(cs: seq<StreamedChoice>, ws: seq<Whole>, index: int)
    requires AllTrack(cs, ws)
    ensures ChoiceAt(cs, index) == WholeAt(ws, index)
    decreases |cs|
  {
    if cs != [] {
      assert Tracks(cs[0], ws[0]);
      SameChoicePosition(cs[1..], ws[1..], index);
    }
  }

  lemma {:induction false} ChoiceKeepsPace(key: string, cs: seq<StreamedChoice>, ws: seq<Whole>, choice: Json,
                                           position: nat)
    requires AllTrack(cs, ws) && OneKey(key, choice.Get("delta"))
    ensures AllTrack(ConsumeChoice(cs, choice, position), AddChoice(key, ws, choice, position))
  {
    var delta := choice.Get("delta");
    if delta.Obj? {
      var index := Place(choice.Get("index"), position);
      PlaceExactly(choice.Get("index"), position);
      SameChoicePosition(cs, ws, index);
      var at := ChoiceAt(cs, index);
      if at < |cs| {
        DeltaKeepsPace(key, cs[at], ws[at], delta);
      } else {
        DeltaKeepsPace(key, NewChoice(index), Whole(index, "", []), delta);
      }
    }
  }

  lemma {:induction false} ChoicesKeepPace(key: string, cs: seq<StreamedChoice>, ws: seq<Whole>, items: seq<Json>,
                                           position: nat)
    requires AllTrack(cs, ws) && ChoicesUse(key, items)
    ensures AllTrack(ConsumeChoices(cs, items, position), AddChoices(key, ws, items, position))
    decreases |items|
  {
    if items != [] {
      ChoiceKeepsPace(key, cs, ws, items[0], position);
      ChoicesKeepPace(key, ConsumeChoice(cs, items[0], position), AddChoice(key, ws, items[0], position), items[1..],
          position + 1);
    }
  }

  lemma {:induction false} LinesKeepPace(parse: Parser, key: string, cs: seq<StreamedChoice>, ws: seq<Whole>,
                                         lines: seq<Bytes>)
    requires AllTrack(cs, ws) && LinesUse(parse, key, lines)
    ensures AllTrack(ConsumeLines(parse, cs, lines), AddLines(parse, key, ws, lines))
    decreases |lines|
  {
    if lines != [] {
      var items := EventChoices(parse, lines[0]);
      ChoicesKeepPace(key, cs, ws, items, 0);
      LinesKeepPace(parse, key, ConsumeLine(parse, cs, lines[0]), AddChoices(key, ws, items, 0), lines[1..]);
    }
  }

  // ---------------------------------------------------------------------------------------------
  // Equal records
  // ---------------------------------------------------------------------------------------------

  const CUT: nat := MAX_SIGNATURE_ARG_CHARS

  /** It makes no difference whether the arguments are cut before they are stripped or after. */
  predicate CutsClean(arguments: string) {
    || |arguments| <= CUT
    || (forall i :: CUT <= i < |arguments| ==> IsSpace(arguments[i]))
    || (!IsSpace(arguments[0]) && !IsSpace(arguments[CUT - 1]))
  }

  lemma {:induction false} TrimRightKeeps(s: string, k: nat)
    requires k < |s| && !IsSpace(s[k])
    ensures |TrimRight(s)| > k
    decreases |s|
  {
    if IsSpace(s[|s| - 1]) {
      TrimRightKeeps(s[..|s| - 1], k);
    }
  }

  lemma {:induction false} TrimLeftAppend(x: string, y: string)
    ensures TrimLeft(x + y) == if TrimLeft(x) != "" then TrimLeft(x) + y else TrimLeft(y)
    decreases |x|
  {
    if x == "" {
      assert x + y == y;
    } else if IsSpace(x[0]) {
      assert (x + y)[1..] == x[1..] + y;
      TrimLeftAppend(x[1..], y);
    }
  }

  lemma {:induction false} TrimShrinks(s: string)
    ensures |Trim(s)| <= |TrimLeft(s)| <= |s|
    ensures s != "" && (IsSpace(s[0]) || IsSpace(s[|s| - 1])) ==> |Trim(s)| < |s|
  {
    TrimLeftStops(s);
    TrimRightIsPrefix(TrimLeft(s));
    if s != "" && IsSpace(s[0]) {
      TrimLeftStops(s[1..]);
    } else if s != "" && IsSpace(s[|s| - 1]) {
      TrimRightIsPrefix(s[..|s| - 1]);
    }
  }

  lemma {:induction false} TrimRightAppend(x: string, y: string, k: nat)
    requires k < |y| && !IsSpace(y[k])
    ensures |TrimRight(x + y)| > |x| + k
  {
    assert (x + y)[|x| + k] == y[k];
    TrimRightKeeps(x + y, |x| + k);
  }

  lemma {:induction false} TrimLeftFinds(s: string, k: nat)
    requires k < |s| && !IsSpace(s[k])
    ensures TrimLeft(s) != ""
    decreases |s|
  {
    if IsSpace(s[0]) {
      TrimLeftFinds(s[1..], k - 1);
    }
  }

  /** Text after the cut is not lost by stripping. */
  lemma {:induction false} TrimGrows(x: string, y: string, k: nat)
    requires k < |y| && !IsSpace(y[k])
    ensures |Trim(x + y)| > |Trim(x)|
  {
    TrimLeftAppend(x, y);
    TrimRightIsPrefix(TrimLeft(x));
    if TrimLeft(x) != "" {
      TrimRightAppend(TrimLeft(x), y, k);
    } else {
      TrimLeftFinds(y, k);
      TrimLeftStops(y);
      TrimRightKeeps(TrimLeft(y), 0);
    }
  }

  lemma {:induction false} SpaceIsTrimmed(x: string, c: char)
    requires IsSpace(c)
    ensures Trim(x + [c]) == Trim(x)
  {
    TrimLeftAppend(x, [c]);
    if TrimLeft(x) != "" {
      assert (TrimLeft(x) + [c])[..|TrimLeft(x)|] == TrimLeft(x);
    } else {
      assert [c][1..] == "";
      assert TrimLeft([c]) == TrimLeft([c][1..]) == "";
    }
  }

  lemma {:induction false} SpacesAreTrimmed(s: string, k: nat)
    requires k <= |s| && forall i :: k <= i < |s| ==> IsSpace(s[i])
    ensures Trim(s[..k]) == Trim(s)
    decreases |s| - k
  {
    if k == |s| {
      assert s[..k] == s;
    } else {
      assert s[..k + 1] == s[..k] + [s[k]];
      SpaceIsTrimmed(s[..k], s[k]);
      SpacesAreTrimmed(s, k + 1);
    }
  }

  lemma {:induction false} LongTrim(s: string)
    requires |s| >= CUT && !IsSpace(s[0]) && !IsSpace(s[CUT - 1])
    ensures Take(Trim(s), CUT) == s[..CUT]
  {
    assert TrimLeft(s) == s;
    TrimRightKeeps(s, CUT - 1);
    TrimRightIsPrefix(s);
  }

  /** The part of the arguments from some point behind the cut gives the same signature. */
  predicate SameAfterCut(arguments: string, k: nat)
    requires k <= |arguments|
  {
    Take(Trim(arguments[..k]), CUT) == Take(Trim(arguments), CUT)
  }

  lemma {:induction false} CleanIsSame(arguments: string, k: nat)
    requires CutsClean(arguments) && CUT <= k <= |arguments|
    ensures SameAfterCut(arguments, k)
  {
    if |arguments| <= CUT {
      assert arguments[..k] == arguments;
    } else if forall i :: CUT <= i < |arguments| ==> IsSpace(arguments[i]) {
      SpacesAreTrimmed(arguments, k);
    } else {
      LongTrim(arguments);
      LongTrim(arguments[..k]);
      assert arguments[..k][..CUT] == arguments[..CUT];
    }
  }

  lemma {:induction false} SameIsClean(arguments: string)
    requires |arguments| >= CUT && SameAfterCut(arguments, CUT)
    ensures CutsClean(arguments)
  {
    if !CutsClean(arguments) {
      var x, y := arguments[..CUT], arguments[CUT..];
      var i :| CUT <= i < |arguments| && !IsSpace(arguments[i]);
      assert arguments == x + y && y[i - CUT] == arguments[i];
      TrimGrows(x, y, i - CUT);
      TrimShrinks(x);
    }
  }

  /** However long a part is kept, the signature is that of the whole exactly when the arguments cut clean. */
  lemma {:induction false} CutsCleanExactly(arguments: string)
    ensures (forall k :: CUT <= k <= |arguments| ==> SameAfterCut(arguments, k)) <==> CutsClean(arguments)
  {
    if CutsClean(arguments) {
      forall k | CUT <= k <= |arguments| ensures SameAfterCut(arguments, k) {
        CleanIsSame(arguments, k);
      }
    } else {
      if SameAfterCut(arguments, CUT) {
        SameIsClean(arguments);
      }
      assert !SameAfterCut(arguments, CUT);
    }
  }

  /** What the observer keeps of arguments that come in fragments. */
  function Kept(sofar: string, fragments: seq<string>): string
    decreases |fragments|
  {
    if fragments == [] then sofar
    else Kept(if |sofar| < CUT then sofar + fragments[0] else sofar, fragments[1..])
  }

  lemma {:induction false} KeptIsPrefix(sofar: string, fragments: seq<string>)
    ensures Kept(sofar, fragments) <= sofar + Join(fragments)
    ensures Kept(sofar, fragments) == sofar + Join(fragments) || |Kept(sofar, fragments)| >= CUT
    decreases |fragments|
  {
    if fragments == [] {
      assert sofar + Join(fragments) == sofar;
    } else if |sofar| < CUT {
      KeptIsPrefix(sofar + fragments[0], fragments[1..]);
      assert (sofar + fragments[0]) + Join(fragments[1..]) == sofar + Join(fragments);
    } else {
      KeptIsPrefix(sofar, fragments[1..]);
      assert sofar + Join(fragments[1..]) <= sofar + Join(fragments) || Kept(sofar, fragments) == sofar by {
        KeptIsFull(sofar, fragments[1..]);
      }
    }
  }

  lemma {:induction false} KeptIsFull(sofar: string, fragments: seq<string>)
    requires |sofar| >= CUT
    ensures Kept(sofar, fragments) == sofar
    decreases |fragments|
  {
    if fragments != [] {
      KeptIsFull(sofar, fragments[1..]);
    }
  }

  lemma {:induction false} TwoFragments(arguments: string)
    requires |arguments| >= CUT
    ensures Join([arguments[..CUT], arguments[CUT..]]) == arguments
    ensures Kept("", [arguments[..CUT], arguments[CUT..]]) == arguments[..CUT]
  {
    var fragments := [arguments[..CUT], arguments[CUT..]];
    assert fragments[1..] == [arguments[CUT..]] && fragments[1..][1..] == [];
    assert "" + arguments[..CUT] == arguments[..CUT] && arguments[CUT..] + "" == arguments[CUT..];
    assert Join(fragments[1..]) == arguments[CUT..];
    KeptIsFull(arguments[..CUT], fragments[1..]);
  }

  /** The signature does not depend on how the arguments are fragmented exactly when they cut clean. */
  lemma {:induction false} FragmentsAgreeExactly(name: string, arguments: string)
    ensures (forall fragments :: Join(fragments) == arguments ==>
              Signature(name, Kept("", fragments)) == Signature(name, arguments)) <==> CutsClean(arguments)
  {
    if CutsClean(arguments) {
      forall fragments | Join(fragments) == arguments
        ensures Signature(name, Kept("", fragments)) == Signature(name, arguments)
      {
        KeptIsPrefix("", fragments);
        assert "" + arguments == arguments;
        var kept := Kept("", fragments);
        if kept != arguments {
          assert kept == arguments[..|kept|];
          CleanIsSame(arguments, |kept|);
        }
      }
    } else {
      var fragments := [arguments[..CUT], arguments[CUT..]];
      TwoFragments(arguments);
      if Signature(name, arguments[..CUT]) == Signature(name, arguments) {
        SignatureHolds(name, arguments[..CUT], arguments);
        SameIsClean(arguments);
      }
      assert Signature(name, Kept("", fragments)) != Signature(name, arguments);
    }
  }

  lemma {:induction false} SignatureHolds(name: string, x: string, y: string)
    requires Signature(name, x) == Signature(name, y)
    ensures Take(Trim(x), CUT) == Take(Trim(y), CUT)
  {
    SameMiddle(Trim(name) + "(", Take(Trim(x), CUT), Take(Trim(y), CUT), ")");
  }

  lemma {:induction false} SameMiddle(head: string, x: string, y: string, tail: string)
    requires head + x + tail == head + y + tail
    ensures x == y
  {
    assert |x| == |y|;
    assert x == (head + x + tail)[|head|..|head| + |x|];
    assert y == (head + y + tail)[|head|..|head| + |x|];
  }

  lemma {:induction false} SameSignature(c: StreamedCall, w: StreamedCall)
    requires CallTracks(c, w) && CutsClean(w.arguments)
    ensures Signature(c.name, c.arguments) == Signature(w.name, w.arguments)
  {
    if c.arguments != w.arguments {
      assert c.arguments == w.arguments[..|c.arguments|];
      CleanIsSame(w.arguments, |c.arguments|);
    }
  }

  /** A call has both an id and a name and its arguments cut clean, or it has neither. */
  predicate CallReady(call: StreamedCall) {
    && ((Trim(call.id) != "") == (Trim(call.name) != ""))
    && (Trim(call.id) != "" ==> CutsClean(call.arguments))
  }

  predicate AllReady(calls: seq<StreamedCall>) {
    forall i :: 0 <= i < |calls| ==> CallReady(calls[i])
  }

  predicate NoIds(calls: seq<StreamedCall>) {
    forall i :: 0 <= i < |calls| ==> Trim(calls[i].id) == ""
  }

  lemma {:induction false} SortedTrack(cs: seq<StreamedCall>, ws: seq<StreamedCall>)
    requires CallsTrack(cs, ws)
    ensures CallsTrack(SortedCalls(cs), SortedCalls(ws))
  {
    Sorting.SortKeepsRelation(CallTracks, ByIndex, ByIndex, cs, ws);
  }

  ghost predicate InIndexOrder(calls: seq<StreamedCall>) {
    forall i, j :: 0 <= i < j < |calls| ==> calls[i].index <= calls[j].index
  }

  /** The calls are taken in the order of their indices, each once. */
  lemma {:induction false} SortedCallsAreSorted(calls: seq<StreamedCall>)
    ensures InIndexOrder(SortedCalls(calls)) && multiset(SortedCalls(calls)) == multiset(calls)
    ensures forall x :: x in SortedCalls(calls) <==> x in calls
  {
    Sorting.SortAscends(ByIndex, calls);
    Sorting.SortCounts(ByIndex, calls);
    Sorting.SortMembers(ByIndex, calls);
    var sorted := SortedCalls(calls);
    forall i, j | 0 <= i < j < |sorted| ensures sorted[i].index <= sorted[j].index {
      assert ByIndex(sorted[i], sorted[j]);
    }
  }

  lemma {:induction false} SortedAreReady(calls: seq<StreamedCall>)
    ensures AllReady(SortedCalls(calls)) <==> AllReady(calls)
    ensures NoIds(SortedCalls(calls)) <==> NoIds(calls)
  {
    SortedCallsAreSorted(calls);
    var sorted := SortedCalls(calls);
    SameMembers(sorted, calls);
    SameMembers(calls, sorted);
  }

  lemma {:induction false} SameMembers(xs: seq<StreamedCall>, ys: seq<StreamedCall>)
    requires forall x :: x in ys ==> x in xs
    ensures AllReady(xs) ==> AllReady(ys)
    ensures NoIds(xs) ==> NoIds(ys)
  {
    forall i | 0 <= i < |ys| ensures exists j :: 0 <= j < |xs| && xs[j] == ys[i] {
      assert ys[i] in xs;
    }
  }

  lemma {:induction false} CallJsonReads(call: StreamedCall)
    ensures IdOf(CallJson(call)) == Trim(call.id) && NameOf(CallJson(call)) == Trim(call.name)
    ensures SignatureOf(CallJson(call)) == Signature(call.name, call.arguments)
  {
    var asked := CallJson(call).Get("function");
    assert asked.Get("name") == Str(call.name) && asked.Get("arguments") == Str(call.arguments);
  }

  lemma {:induction false} FirstCall(ws: seq<StreamedCall>)
    requires ws != []
    ensures CallIds(CallsJson(ws)) ==
            (if Trim(ws[0].id) != "" then [Trim(ws[0].id)] else []) + CallIds(CallsJson(ws[1..]))
    ensures CallSignatures(CallsJson(ws)) ==
            (if Trim(ws[0].name) != "" then [Signature(ws[0].name, ws[0].arguments)] else [])
            + CallSignatures(CallsJson(ws[1..]))
  {
    CallJsonReads(ws[0]);
    assert CallsJson(ws)[0] == CallJson(ws[0]) && CallsJson(ws)[1..] == CallsJson(ws[1..]);
  }

  lemma {:induction false} SameCalls(cs: seq<StreamedCall>, ws: seq<StreamedCall>)
    requires CallsTrack(cs, ws) && AllReady(ws)
    ensures ResolvedIds(cs) == CallIds(CallsJson(ws))
    ensures ResolvedSignatures(cs) == CallSignatures(CallsJson(ws))
    decreases |cs|
  {
    if cs != [] {
      assert CallTracks(cs[0], ws[0]) && CallReady(ws[0]);
      SameCalls(cs[1..], ws[1..]);
      FirstCall(ws);
      if Trim(ws[0].id) != "" {
        SameSignature(cs[0], ws[0]);
      }
    }
  }

  lemma {:induction false} NoIdsNoCalls(cs: seq<StreamedCall>, ws: seq<StreamedCall>)
    requires CallsTrack(cs, ws)
    ensures NoIds(ws) ==> ResolvedIds(cs) == []
    ensures NoIds(ws) <==> CallIds(CallsJson(ws)) == []
    decreases |cs|
  {
    if cs != [] {
      assert CallTracks(cs[0], ws[0]);
      NoIdsNoCalls(cs[1..], ws[1..]);
      FirstCall(ws);
      assert NoIds(ws) <==> Trim(ws[0].id) == "" && NoIds(ws[1..]);
    }
  }

  predicate CallCutEarly(c: StreamedCall, w: StreamedCall) {
    CallTracks(c, w) && c.arguments == Take(w.arguments, CUT)
  }

  /** The arguments were cut as early as can be. */
  ghost predicate CutEarly(cs: seq<StreamedCall>, ws: seq<StreamedCall>) {
    |cs| == |ws| && forall i :: 0 <= i < |cs| ==> CallCutEarly(cs[i], ws[i])
  }

  lemma {:induction false} FewerCalls(cs: seq<StreamedCall>, ws: seq<StreamedCall>)
    requires CallsTrack(cs, ws)
    ensures |ResolvedIds(cs)| <= |CallIds(CallsJson(ws))|
    ensures |ResolvedSignatures(cs)| <= |CallSignatures(CallsJson(ws))|
    decreases |cs|
  {
    if cs != [] {
      assert CallTracks(cs[0], ws[0]);
      FewerCalls(cs[1..], ws[1..]);
      FirstCall(ws);
    }
  }

  /** A call that is not ready shows. */
  lemma {:induction false} FirstCallShows(cs: seq<StreamedCall>, ws: seq<StreamedCall>)
    requires cs != [] && CutEarly(cs, ws)
    requires ResolvedIds(cs) == CallIds(CallsJson(ws)) && ResolvedSignatures(cs) == CallSignatures(CallsJson(ws))
    ensures IsResolved(cs[0]) <==> Trim(ws[0].id) != ""
    ensures IsResolved(cs[0]) <==> Trim(ws[0].name) != ""
    ensures IsResolved(cs[0]) ==> Signature(cs[0].name, cs[0].arguments) == Signature(ws[0].name, ws[0].arguments)
    ensures ResolvedIds(cs[1..]) == CallIds(CallsJson(ws[1..]))
    ensures ResolvedSignatures(cs[1..]) == CallSignatures(CallsJson(ws[1..]))
  {
    assert CallCutEarly(cs[0], ws[0]);
    FewerCalls(cs[1..], ws[1..]);
    FirstCall(ws);
    SameHead(IsResolved(cs[0]), Trim(ws[0].id) != "", cs[0].id, Trim(ws[0].id), ResolvedIds(cs[1..]),
        CallIds(CallsJson(ws[1..])));
    SameHead(IsResolved(cs[0]), Trim(ws[0].name) != "", Signature(cs[0].name, cs[0].arguments),
        Signature(ws[0].name, ws[0].arguments), ResolvedSignatures(cs[1..]), CallSignatures(CallsJson(ws[1..])));
  }

  /** Lists that agree, one of which has no more than the other before and after its first. */
  lemma {:induction false} SameHead(p: bool, q: bool, a: string, b: string, xs: seq<string>, ys: seq<string>)
    requires (if p then [a] else []) + xs == (if q then [b] else []) + ys
    requires (p ==> q) && |xs| <= |ys|
    ensures p == q && xs == ys && (p ==> a == b)
  {
    if p {
      assert xs == ([a] + xs)[1..] && ys == ([b] + ys)[1..];
      assert a == ([a] + xs)[0] && b == ([b] + ys)[0];
    } else {
      assert [] + xs == xs;
      assert |[b] + ys| == 1 + |ys|;
      assert [] + ys == ys;
    }
  }

  lemma {:induction false} SameCallsAreReady(cs: seq<StreamedCall>, ws: seq<StreamedCall>)
    requires CutEarly(cs, ws)
    requires ResolvedIds(cs) == CallIds(CallsJson(ws)) && ResolvedSignatures(cs) == CallSignatures(CallsJson(ws))
    ensures AllReady(ws)
    decreases |cs|
  {
    if cs != [] {
      FirstCallShows(cs, ws);
      SameCallsAreReady(cs[1..], ws[1..]);
      assert CallCutEarly(cs[0], ws[0]);
      SignatureShows(ws[0]);
      assert CallReady(ws[0]);
    }
  }

  lemma {:induction false} SignatureShows(w: StreamedCall)
    ensures Signature(w.name, Take(w.arguments, CUT)) == Signature(w.name, w.arguments) ==> CutsClean(w.arguments)
  {
    if |w.arguments| > CUT && Signature(w.name, Take(w.arguments, CUT)) == Signature(w.name, w.arguments) {
      SignatureHolds(w.name, w.arguments[..CUT], w.arguments);
      SameIsClean(w.arguments);
    }
  }

  /** The choice leaves no record at all, or all its calls are ready. */
  predicate ChoiceReady(w: Whole) {
    Trim(w.text) == "" || NoIds(w.calls) || AllReady(w.calls)
  }

  predicate WholeReady(w: Whole) {
    |w.text| < MAX_TRACE_CHARS && ChoiceReady(w)
  }

  lemma {:induction false} MessageReads(key: string, w: Whole)
    requires key == CONTENT || key == PLAIN
    ensures var m := MessageJson(key, w);
            && m.Get("tool_calls") == Arr(CallsJson(SortedCalls(w.calls)))
            && CleanTrace(m.Get(key)) == Trim(w.text)
            && CleanTrace(m.Get(if key == CONTENT then PLAIN else CONTENT)) == ""
  {
    assert CONTENT[0] != "tool_calls"[0] && PLAIN[0] != "tool_calls"[0];
    assert |CONTENT| != |PLAIN|;
    TrimEmpty();
  }

  lemma {:induction false} SameRecord(key: string, c: StreamedChoice, w: Whole)
    requires key == CONTENT || key == PLAIN
    requires Tracks(c, w) && WholeReady(w)
    ensures RecordOf(c) == MessageRecord(MessageJson(key, w))
  {
    SortedTrack(c.calls, w.calls);
    SortedAreReady(w.calls);
    NoIdsNoCalls(SortedCalls(c.calls), SortedCalls(w.calls));
    if AllReady(w.calls) {
      SameCalls(SortedCalls(c.calls), SortedCalls(w.calls));
    }
    MessageReads(key, w);
  }

  lemma {:induction false} SortedCutEarly(cs: seq<StreamedCall>, ws: seq<StreamedCall>)
    requires CutEarly(cs, ws)
    ensures CutEarly(SortedCalls(cs), SortedCalls(ws))
  {
    Sorting.SortKeepsRelation(CallCutEarly, ByIndex, ByIndex, cs, ws);
  }

  /** When the arguments were cut as early as can be, the records agree only for a choice that is ready. */
  lemma {:induction false} SameRecordIsReady(key: string, c: StreamedChoice, w: Whole)
    requires key == CONTENT || key == PLAIN
    requires Tracks(c, w) && |w.text| < MAX_TRACE_CHARS && CutEarly(c.calls, w.calls)
    requires RecordOf(c) == MessageRecord(MessageJson(key, w))
    ensures ChoiceReady(w)
  {
    SortedCutEarly(c.calls, w.calls);
    SortedAreReady(w.calls);
    NoIdsNoCalls(SortedCalls(c.calls), SortedCalls(w.calls));
    MessageReads(key, w);
    if !ChoiceReady(w) {
      var records := MessageRecord(MessageJson(key, w));
      assert |records| == 1 && records == RecordOf(c);
      assert records[0].ids == CallIds(CallsJson(SortedCalls(w.calls)));
      SameCallsAreReady(SortedCalls(c.calls), SortedCalls(w.calls));
    }
  }

  lemma {:induction false} JoinOne(text: string)
    ensures Join([text]) == text
  {
    JoinSnoc([], text);
    assert [] + [text] == [text] && "" + text == text;
  }

  /** The choice as the observer holds it when each call comes in two fragments, the first one just long enough. */
  function CutChoice(w: Whole): StreamedChoice {
    StreamedChoice(w.index, [w.text], |w.text|, seq(|w.calls|, i requires 0 <= i < |w.calls| =>
      w.calls[i].(id := Trim(w.calls[i].id), arguments := Take(w.calls[i].arguments, CUT))))
  }

  /** However a choice below the cap is fragmented its record is the same exactly when the choice is ready. */
  lemma {:induction false} RecordAgreesExactly(key: string, w: Whole)
    requires key == CONTENT || key == PLAIN
    requires |w.text| < MAX_TRACE_CHARS
    ensures (forall c :: Tracks(c, w) ==> RecordOf(c) == MessageRecord(MessageJson(key, w))) <==> ChoiceReady(w)
  {
    if ChoiceReady(w) {
      forall c | Tracks(c, w) ensures RecordOf(c) == MessageRecord(MessageJson(key, w)) {
        SameRecord(key, c, w);
      }
    } else {
      var c := CutChoice(w);
      JoinOne(w.text);
      assert Tracks(c, w) && CutEarly(c.calls, w.calls);
      if RecordOf(c) == MessageRecord(MessageJson(key, w)) {
        SameRecordIsReady(key, c, w);
      }
    }
  }

  lemma {:induction false} SameRecords(key: string, cs: seq<StreamedChoice>, ws: seq<Whole>)
    requires key == CONTENT || key == PLAIN
    requires AllTrack(cs, ws) && forall i :: 0 <= i < |ws| ==> WholeReady(ws[i])
    ensures RecordsOf(cs) == CompletionRecords(Completion(key, ws))
    decreases |cs|
  {
    assert Completion(key, ws).Get("choices") == Arr(ChoicesJson(key, ws));
    if cs != [] {
      SameRecord(key, cs[0], ws[0]);
      SameRecords(key, cs[1..], ws[1..]);
      assert Completion(key, ws[1..]).Get("choices") == Arr(ChoicesJson(key, ws[1..]));
      var first := Obj(map["message" := MessageJson(key, ws[0])]);
      assert ChoicesJson(key, ws)[0] == first && ChoicesJson(key, ws)[1..] == ChoicesJson(key, ws[1..]);
      assert first.Get("message") == MessageJson(key, ws[0]);
    }
  }

  /** The choices that a whole stream assembles to. */
  function Assembled(parse: Parser, key: string, s: Bytes): seq<Whole> {
    AddLines(parse, key, [], AllLines(s))
  }

  lemma {:induction false} NotOver(parse: Parser, cs: seq<StreamedChoice>, line: Bytes, key: string, ws: seq<Whole>)
    requires AllTrack(ConsumeLine(parse, cs, line), ws) && forall i :: 0 <= i < |ws| ==> WholeReady(ws[i])
    ensures !Over(cs)
  {
    var after := ConsumeLine(parse, cs, line);
    forall i | 0 <= i < |after| ensures after[i].chars < MAX_TRACE_CHARS {
      assert Tracks(after[i], ws[i]) && WholeReady(ws[i]);
    }
    if Over(cs) {
      ChoicesStayOver(cs, EventChoices(parse, line), 0);
    }
  }

  /**
    When every line fits, traces come under one key and stay below the cap, and every choice is ready,
    then however the stream is cut the observer records what the assembled completion would record.
   */
  lemma {:induction false} ObserverAgrees(parse: Parser, key: string, s: Bytes, chunks: seq<Bytes>)
    requires key == CONTENT || key == PLAIN
    requires SseFraming.Concat(chunks) == s && LinesFit(s)
    requires LinesUse(parse, key, AllLines(s))
    requires forall i :: 0 <= i < |Assembled(parse, key, s)| ==> WholeReady(Assembled(parse, key, s)[i])
    ensures Recorded(parse, chunks) == CompletionRecords(Completion(key, Assembled(parse, key, s)))
  {
    var ws := Assembled(parse, key, s);
    LinesKeepPace(parse, key, [], [], AllLines(s));
    ConsumeAppend(parse, [], Split(s).whole, [Split(s).rest]);
    var before := ReadChoices(parse, s);
    assert [Split(s).rest][1..] == [];
    assert ConsumeLines(parse, before, [Split(s).rest]) == ConsumeLine(parse, before, Split(s).rest);
    NotOver(parse, before, Split(s).rest, key, ws);
    SameRecords(key, ConsumeLine(parse, before, Split(s).rest), ws);
    ChunkedRecords(parse, s, chunks);
    OneChunk(parse, s);
  }

  // ---------------------------------------------------------------------------------------------
  // A stream whose record differs
  // ---------------------------------------------------------------------------------------------

  /** One call, its arguments in two fragments that meet at the cut. */
  function FirstPart(arguments: string): Json {
    Obj(map["id" := Str("call"),
            "function" := Obj(map["name" := Str("look"), "arguments" := Str(Take(arguments, CUT))])])
  }

  function SecondPart(arguments: string): Json
    requires |arguments| >= CUT
  {
    Obj(map["function" := Obj(map["arguments" := Str(arguments[CUT..])])])
  }

  function FirstDelta(arguments: string): Json {
    Obj(map[CONTENT := Str("because"), "tool_calls" := Arr([FirstPart(arguments)])])
  }

  function SecondDelta(arguments: string): Json
    requires |arguments| >= CUT
  {
    Obj(map["tool_calls" := Arr([SecondPart(arguments)])])
  }

  /** The line carries one choice with this delta. */
  predicate LineCarries(parse: Parser, line: Bytes, delta: Json) {
    FindLf(line).None? && Fits(line) && EventChoices(parse, line) == [Obj(map["delta" := delta])]
  }

  lemma {:induction false} TwoLines(x: Bytes, y: Bytes)
    requires FindLf(x).None? && FindLf(y).None?
    ensures Split(x + [LF] + y) == Lines([x], y)
  {
    FirstLf(x, y);
    assert (x + [LF] + y)[..|x|] == x && (x + [LF] + y)[|x| + 1..] == y;
  }

  function TheCall(arguments: string): StreamedCall {
    StreamedCall(0, "call", "look", arguments)
  }

  lemma {:induction false} FirstPartReads(arguments: string)
    requires |arguments| > CUT
    ensures AbsorbCall([], FirstPart(arguments), 0) == [TheCall(arguments[..CUT])]
    ensures AddCall([], FirstPart(arguments), 0) == [TheCall(arguments[..CUT])]
  {
    var part := FirstPart(arguments);
    var asked := part.Get("function");
    assert asked.Get("name") == Str("look") && asked.Get("arguments") == Str(arguments[..CUT]);
    TrimSolid("call");
    assert "" + "look" == "look" && "" + arguments[..CUT] == arguments[..CUT];
    var none := StreamedCall(0, "", "", "");
    assert Absorbed(none, part) == TheCall(arguments[..CUT]);
    assert Extended(none, part) == TheCall(arguments[..CUT]);
  }

  lemma {:induction false} SecondPartReads(arguments: string)
    requires |arguments| > CUT
    ensures var known := [TheCall(arguments[..CUT])];
            && AbsorbCall(known, SecondPart(arguments), 0) == known
            && AddCall(known, SecondPart(arguments), 0) == [TheCall(arguments)]
  {
    var part := SecondPart(arguments);
    var asked := part.Get("function");
    var known := TheCall(arguments[..CUT]);
    assert asked.Get("name") == Null && asked.Get("arguments") == Str(arguments[CUT..]);
    TrimEmpty();
    assert "look" + "" == "look" && arguments[..CUT] + arguments[CUT..] == arguments;
    assert Absorbed(known, part) == known && Extended(known, part) == TheCall(arguments);
    assert [known][0 := known] == [known] && [known][0 := TheCall(arguments)] == [TheCall(arguments)];
  }

  lemma {:induction false} OnePart(cs: seq<StreamedCall>, ws: seq<StreamedCall>, part: Json)
    ensures AbsorbCalls(cs, [part], 0) == AbsorbCall(cs, part, 0)
    ensures AddCalls(ws, [part], 0) == AddCall(ws, part, 0)
  {
    assert [part][1..] == [];
  }

  lemma {:induction false} FirstDeltaReads(arguments: string)
    requires |arguments| > CUT
    ensures var first := FirstDelta(arguments);
            && OneKey(CONTENT, first) && Part(first) == "because"
            && AbsorbCalls([], Items(first.Get("tool_calls")), 0) == [TheCall(arguments[..CUT])]
            && AddCalls([], Items(first.Get("tool_calls")), 0) == [TheCall(arguments[..CUT])]
  {
    var first := FirstDelta(arguments);
    assert CONTENT[0] != "tool_calls"[0] && PLAIN[0] != "tool_calls"[0] && |PLAIN| != |CONTENT|;
    assert first.Get(CONTENT) == Str("because") && first.Get(PLAIN) == Null;
    assert Items(first.Get("tool_calls")) == [FirstPart(arguments)];
    FirstPartReads(arguments);
    OnePart([], [], FirstPart(arguments));
  }

  lemma {:induction false} SecondDeltaReads(arguments: string)
    requires |arguments| > CUT
    ensures var second := SecondDelta(arguments);
            var known := [TheCall(arguments[..CUT])];
            && OneKey(CONTENT, second) && Part(second) == ""
            && AbsorbCalls(known, Items(second.Get("tool_calls")), 0) == known
            && AddCalls(known, Items(second.Get("tool_calls")), 0) == [TheCall(arguments)]
  {
    var second := SecondDelta(arguments);
    var known := [TheCall(arguments[..CUT])];
    assert CONTENT[0] != "tool_calls"[0] && PLAIN[0] != "tool_calls"[0];
    assert second.Get(CONTENT) == Null && second.Get(PLAIN) == Null;
    SecondPartReads(arguments);
    OnePart(known, known, SecondPart(arguments));
  }

  lemma {:induction false} OneChoiceReads(delta: Json, cs: seq<StreamedChoice>, ws: seq<Whole>)
    requires delta.Obj?
    ensures var items := [Obj(map["delta" := delta])];
            && ConsumeChoices(cs, items, 0) == ConsumeDelta(cs, 0, delta)
            && AddChoices(CONTENT, ws, items, 0) == AddDeltaTo(CONTENT, ws, 0, delta)
  {
    var choice := Obj(map["delta" := delta]);
    assert choice.Get("delta") == delta && choice.Get("index") == Null;
    assert [choice][1..] == [];
  }

  function TheChoice(arguments: string): StreamedChoice {
    StreamedChoice(0, ["because"], 7, [TheCall(arguments)])
  }

  function TheWhole(arguments: string): Whole {
    Whole(0, "because", [TheCall(arguments)])
  }

  lemma {:induction false} FirstLineReads(parse: Parser, x: Bytes, arguments: string)
    requires |arguments| > CUT && LineCarries(parse, x, FirstDelta(arguments))
    ensures ConsumeLine(parse, [], x) == [TheChoice(arguments[..CUT])]
    ensures AddChoices(CONTENT, [], EventChoices(parse, x), 0) == [TheWhole(arguments[..CUT])]
  {
    var first := FirstDelta(arguments);
    FirstDeltaReads(arguments);
    OneChoiceReads(first, [], []);
    PartIsText(CONTENT, first);
    assert AddDelta(NewChoice(0), first) == TheChoice(arguments[..CUT]);
    assert "" + "because" == "because";
    assert Extend(CONTENT, Whole(0, "", []), first) == TheWhole(arguments[..CUT]);
  }

  lemma {:induction false} SecondLineReads(parse: Parser, y: Bytes, arguments: string)
    requires |arguments| > CUT && LineCarries(parse, y, SecondDelta(arguments))
    ensures ConsumeLine(parse, [TheChoice(arguments[..CUT])], y) == [TheChoice(arguments[..CUT])]
    ensures AddChoices(CONTENT, [TheWhole(arguments[..CUT])], EventChoices(parse, y), 0) == [TheWhole(arguments)]
  {
    var second := SecondDelta(arguments);
    var c, w := TheChoice(arguments[..CUT]), TheWhole(arguments[..CUT]);
    SecondDeltaReads(arguments);
    OneChoiceReads(second, [c], [w]);
    PartIsText(CONTENT, second);
    assert AddDelta(c, second) == c;
    assert "because" + "" == "because";
    assert Extend(CONTENT, w, second) == TheWhole(arguments);
  }

  /** What the observer and the assembly hold after both lines. */
  lemma {:induction false} LinesRead(parse: Parser, x: Bytes, y: Bytes, arguments: string)
    requires |arguments| > CUT
    requires LineCarries(parse, x, FirstDelta(arguments)) && LineCarries(parse, y, SecondDelta(arguments))
    ensures ConsumeLines(parse, [], [x]) == [TheChoice(arguments[..CUT])]
    ensures AddLines(parse, CONTENT, [], [x, y]) == [TheWhole(arguments)]
  {
    FirstLineReads(parse, x, arguments);
    SecondLineReads(parse, y, arguments);
    assert [x][1..] == [] && [x, y][1..] == [y] && [y][1..] == [];
    var w := TheWhole(arguments[..CUT]);
    assert AddLines(parse, CONTENT, [w], [y]) == AddLines(parse, CONTENT, [TheWhole(arguments)], []);
  }

  lemma {:induction false} StreamIsInOrder(parse: Parser, x: Bytes, y: Bytes, arguments: string)
    requires |arguments| > CUT
    requires LineCarries(parse, x, FirstDelta(arguments)) && LineCarries(parse, y, SecondDelta(arguments))
    ensures var s := x + [LF] + y;
            Split(s) == Lines([x], y) && LinesFit(s) && LinesUse(parse, CONTENT, AllLines(s))
  {
    var s := x + [LF] + y;
    TwoLines(x, y);
    assert AllLines(s) == [x, y];
    TheLinesUse(parse, x, y, arguments);
  }

  lemma {:induction false} TheLinesUse(parse: Parser, x: Bytes, y: Bytes, arguments: string)
    requires |arguments| > CUT
    requires LineCarries(parse, x, FirstDelta(arguments)) && LineCarries(parse, y, SecondDelta(arguments))
    ensures LinesUse(parse, CONTENT, [x, y])
  {
    FirstDeltaReads(arguments);
    SecondDeltaReads(arguments);
    LineUses(parse, x, FirstDelta(arguments));
    LineUses(parse, y, SecondDelta(arguments));
  }

  lemma {:induction false} LineUses(parse: Parser, line: Bytes, delta: Json)
    requires LineCarries(parse, line, delta) && OneKey(CONTENT, delta)
    ensures ChoicesUse(CONTENT, EventChoices(parse, line))
  {
    assert Obj(map["delta" := delta]).Get("delta") == delta;
  }

  lemma {:induction false} StreamIsRecorded(parse: Parser, x: Bytes, y: Bytes, arguments: string)
    requires |arguments| > CUT
    requires LineCarries(parse, x, FirstDelta(arguments)) && LineCarries(parse, y, SecondDelta(arguments))
    ensures var s := x + [LF] + y;
            && Recorded(parse, [s]) == RecordsOf([TheChoice(arguments[..CUT])])
            && Assembled(parse, CONTENT, s) == [TheWhole(arguments)]
  {
    var s := x + [LF] + y;
    StreamIsInOrder(parse, x, y, arguments);
    LinesRead(parse, x, y, arguments);
    SecondLineReads(parse, y, arguments);
    assert AllLines(s) == [x, y];
    OneChunk(parse, s);
    assert ReadChoices(parse, s) == [TheChoice(arguments[..CUT])];
    assert !GivesUp(parse, s);
  }

  /**
    Arguments that do not cut clean, in two fragments that meet at the cut: everything else is in order,
    and the observer records another signature than the completion would have given.
   */
  lemma {:induction false} SpaceAtTheCutDiffers(parse: Parser, x: Bytes, y: Bytes, arguments: string)
    requires !CutsClean(arguments)
    requires LineCarries(parse, x, FirstDelta(arguments)) && LineCarries(parse, y, SecondDelta(arguments))
    ensures var s := x + [LF] + y;
            && LinesFit(s) && LinesUse(parse, CONTENT, AllLines(s))
            && Recorded(parse, [s]) != CompletionRecords(Completion(CONTENT, Assembled(parse, CONTENT, s)))
  {
    StreamIsInOrder(parse, x, y, arguments);
    StreamIsRecorded(parse, x, y, arguments);
    TheRecordsDiffer(arguments);
  }

  lemma {:induction false} OnlyField(key: string, value: Json)
    ensures Obj(map[key := value]).Get(key) == value
  {
  }

  lemma {:induction false} OneMessage(key: string, w: Whole)
    ensures CompletionRecords(Completion(key, [w])) == MessageRecord(MessageJson(key, w))
  {
    var message := MessageJson(key, w);
    var first := Obj(map["message" := message]);
    OnlyField("message", message);
    OnlyField("choices", Arr([first]));
    assert [w][1..] == [] && [first][1..] == [];
    assert ChoicesJson(key, [w]) == [first];
    assert Completion(key, [w]) == Obj(map["choices" := Arr([first])]);
    assert ChoiceRecords([first][1..]) == [];
    assert MessageRecord(message) + [] == MessageRecord(message);
  }

  lemma {:induction false} OneRecord(c: StreamedChoice)
    ensures RecordsOf([c]) == RecordOf(c)
  {
    assert [c][1..] == [] && RecordsOf([c][1..]) == [];
    assert RecordOf(c) + [] == RecordOf(c);
  }

  lemma {:induction false} TheChoiceTracks(arguments: string)
    requires |arguments| > CUT
    ensures var c, w := TheChoice(arguments[..CUT]), TheWhole(arguments);
            Tracks(c, w) && CutEarly(c.calls, w.calls)
  {
    TrimSolid("call");
    JoinOne("because");
    var c, w := TheCall(arguments[..CUT]), TheCall(arguments);
    assert c.id == Trim(w.id) && c.arguments == Take(w.arguments, CUT) && c.arguments <= w.arguments;
    assert CallCutEarly(c, w);
    assert |"because"| == 7;
  }

  lemma {:induction false} TrimSolid(s: string)
    requires s != "" && !IsSpace(s[0]) && !IsSpace(s[|s| - 1])
    ensures Trim(s) == s
  {
  }

  lemma {:induction false} TheWholeIsNotReady(arguments: string)
    requires !CutsClean(arguments)
    ensures !ChoiceReady(TheWhole(arguments))
  {
    TrimSolid("call");
    TrimSolid("look");
    TrimSolid("because");
    var calls := TheWhole(arguments).calls;
    assert calls[0] == TheCall(arguments) && !CallReady(TheCall(arguments));
  }

  lemma {:induction false} TheRecordsDiffer(arguments: string)
    requires !CutsClean(arguments)
    ensures RecordsOf([TheChoice(arguments[..CUT])]) !=
            CompletionRecords(Completion(CONTENT, [TheWhole(arguments)]))
  {
    var c, w := TheChoice(arguments[..CUT]), TheWhole(arguments);
    TheChoiceTracks(arguments);
    OneRecord(c);
    OneMessage(CONTENT, w);
    if RecordOf(c) == MessageRecord(MessageJson(CONTENT, w)) {
      SameRecordIsReady(CONTENT, c, w);
      TheWholeIsNotReady(arguments);
    }
  }
}
