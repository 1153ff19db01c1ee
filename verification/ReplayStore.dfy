/** `ReasoningReplayStore` of `src/ficelle/reasoning_replay.py`: what lookups, replays and whole runs give. */
module ReplayStore {
  import opened Json
  import opened Text
  import opened Wrappers
  import opened ReplayEntries

  // ---------------------------------------------------------------------------------------------
  // Looking a trace up
  // ---------------------------------------------------------------------------------------------

  lemma {:induction false} FindMember(traces: seq<Entry>, id: string)
    ensures match Find(traces, id)
            case Some(e) => e in traces && e.id == id
            case None => forall e :: e in traces ==> e.id != id
    decreases |traces|
  {
    if traces != [] {
      FindMember(traces[1..], id);
      assert forall e :: e in traces <==> e == traces[0] || e in traces[1..];
    }
  }

  lemma {:induction false} FindWithout(traces: seq<Entry>, id: string, k: string)
    ensures Find(Without(traces, id), k) == if k == id then None else Find(traces, k)
    decreases |traces|
  {
    if traces != [] {
      FindWithout(traces[1..], id, k);
      if traces[0].id == id {
        assert Without(traces, id) == Without(traces[1..], id);
      } else {
        assert Without(traces, id)[1..] == Without(traces[1..], id);
      }
    }
  }

  lemma {:induction false} FindIsUnique(traces: seq<Entry>, e: Entry, now: real)
    requires Orderly(traces, now) && e in traces
    ensures Find(traces, e.id) == Some(e)
  {
    FindMember(traces, e.id);
    var f := Find(traces, e.id);
    if f.Some? {
      var i :| 0 <= i < |traces| && traces[i] == e;
      var j :| 0 <= j < |traces| && traces[j] == f.value;
    }
  }

  /** Only what is not expired can be found not expired. */
  lemma {:induction false} FindUnexpired(traces: seq<Entry>, id: string, now: real, ttl: real)
    requires Orderly(traces, now)
    ensures Find(Unexpired(traces, now, ttl), id) ==
            match Find(traces, id)
            case Some(e) => if IsFresh(e, now, ttl) then Some(e) else None
            case None => None
  {
    var u := Unexpired(traces, now, ttl);
    UnexpiredIsOrderly(traces, now, ttl, now);
    FindMember(traces, id);
    FindMember(u, id);
    if Find(traces, id).Some? && IsFresh(Find(traces, id).value, now, ttl) {
      FindIsUnique(u, Find(traces, id).value, now);
    }
    if Find(u, id).Some? {
      FindIsUnique(traces, Find(u, id).value, now);
    }
  }

  /** The trace under an id, if it may answer. */
  function Answer(b: Bounds, traces: seq<Entry>, id: string, wanted: set<string>, now: real): Option<string> {
    match Find(traces, id)
    case None => None
    case Some(e) => if IsFresh(e, now, b.ttl) && Matches(e, wanted) then Some(e.trace) else None
  }

  /** The first of the ids under which a trace may answer. */
  function FirstAnswer(b: Bounds, traces: seq<Entry>, ids: seq<string>, wanted: set<string>, now: real): string
    decreases |ids|
  {
    if ids == [] then ""
    else Answer(b, traces, ids[0], wanted, now).GetOr(FirstAnswer(b, traces, ids[1..], wanted, now))
  }

  lemma {:induction false} AnswersWithout(b: Bounds, traces: seq<Entry>, id: string, ids: seq<string>,
                                          wanted: set<string>, now: real)
    requires Answer(b, traces, id, wanted, now) == None
    ensures FirstAnswer(b, Without(traces, id), ids, wanted, now) == FirstAnswer(b, traces, ids, wanted, now)
    decreases |ids|
  {
    if ids != [] {
      FindWithout(traces, id, ids[0]);
      AnswersWithout(b, traces, id, ids[1..], wanted, now);
    }
  }

  /** Dropping the expired entries on the way changes no answer. */
  lemma {:induction false} LookupIsFirstAnswer(b: Bounds, traces: seq<Entry>, ids: seq<string>, wanted: set<string>,
                                               now: real)
    ensures Lookup(b, traces, ids, wanted, now).0 == FirstAnswer(b, traces, ids, wanted, now)
    decreases |ids|
  {
    if ids != [] {
      var found := Find(traces, ids[0]);
      if found.Some? && !IsFresh(found.value, now, b.ttl) {
        LookupIsFirstAnswer(b, Without(traces, ids[0]), ids[1..], wanted, now);
        AnswersWithout(b, traces, ids[0], ids[1..], wanted, now);
      } else {
        LookupIsFirstAnswer(b, traces, ids[1..], wanted, now);
      }
    }
  }

  /** The answer depends only on what is not expired. */
  lemma {:induction false} AnswersAreFresh(b: Bounds, traces: seq<Entry>, ids: seq<string>, wanted: set<string>,
                                           now: real)
    requires Orderly(traces, now)
    ensures FirstAnswer(b, Unexpired(traces, now, b.ttl), ids, wanted, now) == FirstAnswer(b, traces, ids, wanted, now)
    decreases |ids|
  {
    if ids != [] {
      FindUnexpired(traces, ids[0], now, b.ttl);
      AnswersAreFresh(b, traces, ids[1..], wanted, now);
    }
  }

  /** What a lookup leaves behind: nothing that was not there, and everything that is not expired. */
  lemma {:induction false} LookupKeepsFresh(b: Bounds, traces: seq<Entry>, ids: seq<string>, wanted: set<string>,
                                            now: real)
    requires Orderly(traces, now)
    ensures var left := Lookup(b, traces, ids, wanted, now).1;
            && Orderly(left, now)
            && |left| <= |traces|
            && Unexpired(left, now, b.ttl) == Unexpired(traces, now, b.ttl)
            && forall e :: e in left ==> e in traces
    decreases |ids|
  {
    if ids != [] {
      var found := Find(traces, ids[0]);
      if found.Some? && !IsFresh(found.value, now, b.ttl) {
        WithoutIsOrderly(traces, ids[0], now);
        WithoutLength(traces, ids[0], now);
        WithoutMembers(traces, ids[0]);
        DropExpired(b, traces, ids[0], now);
        LookupKeepsFresh(b, Without(traces, ids[0]), ids[1..], wanted, now);
      } else {
        LookupKeepsFresh(b, traces, ids[1..], wanted, now);
      }
    }
  }

  lemma {:induction false} DropExpired(b: Bounds, traces: seq<Entry>, id: string, now: real)
    requires Orderly(traces, now)
    requires Find(traces, id).Some? && !IsFresh(Find(traces, id).value, now, b.ttl)
    ensures Unexpired(Without(traces, id), now, b.ttl) == Unexpired(traces, now, b.ttl)
  {
    UnexpiredWithout(traces, id, now, b.ttl);
    FindUnexpired(traces, id, now, b.ttl);
    FindMember(Unexpired(traces, now, b.ttl), id);
    WithoutNone(Unexpired(traces, now, b.ttl), id);
  }

  /** A trace that is given was stored under one of the ids, is not expired, and has fitting signatures. */
  lemma {:induction false} AnswerHasSource(b: Bounds, traces: seq<Entry>, ids: seq<string>, wanted: set<string>,
                                           now: real)
    requires FirstAnswer(b, traces, ids, wanted, now) != ""
    ensures exists e :: e in traces && e.id in ids && IsFresh(e, now, b.ttl) && Matches(e, wanted)
                        && e.trace == FirstAnswer(b, traces, ids, wanted, now)
    decreases |ids|
  {
    if Answer(b, traces, ids[0], wanted, now).Some? {
      FindMember(traces, ids[0]);
    } else {
      AnswerHasSource(b, traces, ids[1..], wanted, now);
    }
  }

  // ---------------------------------------------------------------------------------------------
  // Rewriting the messages
  // ---------------------------------------------------------------------------------------------

  lemma {:induction false} TrimSpeaks(t: string)
    requires Speaks(t)
    ensures Trim(t) != ""
  {
    assert TrimLeft(t) == t;
    TrimRightKeepsHead(t);
  }

  lemma {:induction false} TrimRightKeepsHead(s: string)
    requires s != "" && !IsSpace(s[0])
    ensures TrimRight(s) != ""
    decreases |s|
  {
    if IsSpace(s[|s| - 1]) {
      TrimRightKeepsHead(s[..|s| - 1]);
    }
  }

  lemma {:induction false} AnswerSpeaks(b: Bounds, traces: seq<Entry>, ids: seq<string>, wanted: set<string>, now: real)
    requires Orderly(traces, now)
    ensures var t := FirstAnswer(b, traces, ids, wanted, now); t == "" || Speaks(t)
    decreases |ids|
  {
    if ids != [] {
      FindMember(traces, ids[0]);
      AnswerSpeaks(b, traces, ids[1..], wanted, now);
    }
  }

  lemma {:induction false} FallbackSpeaks(calls: seq<Json>)
    ensures Speaks(FallbackTrace(calls))
  {
    assert FallbackTrace(calls)[0] == 'C';
    assert !IsSpace('C');
  }

  /** With a trace that speaks the message lacks one no more. */
  lemma {:induction false} FilledLacksNothing(message: Json, trace: string)
    requires message.Obj? && Speaks(trace)
    ensures !LacksTrace(WithTrace(message, trace))
  {
    var filled := WithTrace(message, trace);
    assert filled.Get("reasoning_content") == Str(trace);
    TrimSpeaks(trace);
  }

  /** What becomes of one message, and of nothing else in it. */
  ghost predicate OnlyFilled(before: Json, after: Json) {
    after == before || (LacksTrace(before) && exists t :: Speaks(t) && after == WithTrace(before, t))
  }

  lemma {:induction false} MessageOnlyFilled(b: Bounds, known: bool, traces: seq<Entry>, message: Json, now: real)
    requires Orderly(traces, now)
    ensures OnlyFilled(message, ReplayMessage(b, known, traces, message, now).0)
  {
    if LacksTrace(message) {
      var calls := Items(message.Get("tool_calls"));
      var ids, wanted := CallIds(calls), SetOf(CallSignatures(calls));
      LookupIsFirstAnswer(b, traces, ids, wanted, now);
      AnswerSpeaks(b, traces, ids, wanted, now);
      FallbackSpeaks(calls);
    }
  }

  lemma {:induction false} MessageKeepsFresh(b: Bounds, known: bool, traces: seq<Entry>, message: Json, now: real)
    requires Orderly(traces, now)
    ensures var left := ReplayMessage(b, known, traces, message, now).1;
            && Orderly(left, now)
            && |left| <= |traces|
            && Unexpired(left, now, b.ttl) == Unexpired(traces, now, b.ttl)
            && forall e :: e in left ==> e in traces
  {
    if LacksTrace(message) {
      var calls := Items(message.Get("tool_calls"));
      LookupKeepsFresh(b, traces, CallIds(calls), SetOf(CallSignatures(calls)), now);
    }
  }

  lemma {:induction false} MessagesKeepFresh(b: Bounds, known: bool, traces: seq<Entry>, messages: seq<Json>, now: real)
    requires Orderly(traces, now)
    ensures var left := ReplayMessages(b, known, traces, messages, now).1;
            && Orderly(left, now)
            && |left| <= |traces|
            && Unexpired(left, now, b.ttl) == Unexpired(traces, now, b.ttl)
            && forall e :: e in left ==> e in traces
    decreases |messages|
  {
    if messages != [] {
      MessageKeepsFresh(b, known, traces, messages[0], now);
      MessagesKeepFresh(b, known, ReplayMessage(b, known, traces, messages[0], now).1, messages[1..], now);
    }
  }

  /** Two stores with the same entries that are not expired answer a message alike. */
  lemma {:induction false} MessageDependsOnFresh(b: Bounds, known: bool, x: seq<Entry>, y: seq<Entry>, message: Json,
                                                 now: real)
    requires Orderly(x, now) && Orderly(y, now) && Unexpired(x, now, b.ttl) == Unexpired(y, now, b.ttl)
    ensures ReplayMessage(b, known, x, message, now).0 == ReplayMessage(b, known, y, message, now).0
  {
    if LacksTrace(message) {
      var calls := Items(message.Get("tool_calls"));
      var ids, wanted := CallIds(calls), SetOf(CallSignatures(calls));
      LookupIsFirstAnswer(b, x, ids, wanted, now);
      LookupIsFirstAnswer(b, y, ids, wanted, now);
      AnswersAreFresh(b, x, ids, wanted, now);
      AnswersAreFresh(b, y, ids, wanted, now);
    }
  }

  /** Each message is rewritten as if it were the only one; their number and order stay. */
  lemma {:induction false} MessagesOneByOne(b: Bounds, known: bool, traces: seq<Entry>, messages: seq<Json>, now: real)
    requires Orderly(traces, now)
    ensures var after := ReplayMessages(b, known, traces, messages, now).0;
            && |after| == |messages|
            && forall i :: 0 <= i < |messages| ==> after[i] == ReplayMessage(b, known, traces, messages[i], now).0
    decreases |messages|
  {
    if messages != [] {
      var (message, left) := ReplayMessage(b, known, traces, messages[0], now);
      MessageKeepsFresh(b, known, traces, messages[0], now);
      MessagesOneByOne(b, known, left, messages[1..], now);
      forall i | 0 <= i < |messages[1..]|
        ensures ReplayMessage(b, known, left, messages[1..][i], now).0 ==
            ReplayMessage(b, known, traces, messages[1..][i], now).0
      {
        MessageDependsOnFresh(b, known, left, traces, messages[1..][i], now);
      }
    }
  }

  /** `replay_into_body` keeps the messages and their order, and only sets traces where one is lacking. */
  lemma {:induction false} ReplayOnlyFills(b: Bounds, s: Store, model: string, body: Json, now: real)
    requires Orderly(s.traces, now)
    ensures var after := ReplayedBody(b, s, model, body, now).0;
            && (!body.Get("messages").Arr? ==> after == body)
            && (body.Get("messages").Arr? ==>
                  && after.Get("messages").Arr?
                  && after == Obj(body.fields["messages" := after.Get("messages")])
                  && |after.Get("messages").items| == |body.Get("messages").items|
                  && forall i :: 0 <= i < |body.Get("messages").items| ==>
                       OnlyFilled(body.Get("messages").items[i], after.Get("messages").items[i]))
  {
    if body.Get("messages").Arr? {
      var messages := body.Get("messages").items;
      var known := Trim(model) in s.thinking;
      MessagesOneByOne(b, known, s.traces, messages, now);
      forall i | 0 <= i < |messages|
        ensures OnlyFilled(messages[i], ReplayMessages(b, known, s.traces, messages, now).0[i])
      {
        MessageOnlyFilled(b, known, s.traces, messages[i], now);
      }
    }
  }

  lemma {:induction false} MessageTwice(b: Bounds, known: bool, traces: seq<Entry>, message: Json, now: real)
    requires Orderly(traces, now)
    ensures var once := ReplayMessage(b, known, traces, message, now).0;
            ReplayMessage(b, known, traces, once, now).0 == once
  {
    MessageOnlyFilled(b, known, traces, message, now);
    var once := ReplayMessage(b, known, traces, message, now).0;
    if once != message {
      var t :| Speaks(t) && once == WithTrace(message, t);
      FilledLacksNothing(message, t);
    }
  }

  /** Replaying again at the same time changes nothing. */
  lemma {:induction false} ReplayIsIdempotent(b: Bounds, s: Store, model: string, body: Json, now: real)
    requires Orderly(s.traces, now)
    ensures var (once, left) := ReplayedBody(b, s, model, body, now);
            ReplayedBody(b, left, model, once, now).0 == once
  {
    if body.Get("messages").Arr? {
      var messages := body.Get("messages").items;
      var known := Trim(model) in s.thinking;
      var (once, left) := ReplayMessages(b, known, s.traces, messages, now);
      MessagesOneByOne(b, known, s.traces, messages, now);
      MessagesKeepFresh(b, known, s.traces, messages, now);
      MessagesOneByOne(b, known, left, once, now);
      var twice := ReplayMessages(b, known, left, once, now).0;
      forall i | 0 <= i < |messages| ensures twice[i] == once[i] {
        MessageTwice(b, known, s.traces, messages[i], now);
        MessageDependsOnFresh(b, known, left, s.traces, once[i], now);
      }
      assert twice == once;
      SameBody(body, once);
    }
  }

  lemma {:induction false} SameBody(body: Json, messages: seq<Json>)
    requires body.Obj?
    ensures var after := Obj(body.fields["messages" := Arr(messages)]);
            && after.Get("messages") == Arr(messages)
            && Obj(after.fields["messages" := Arr(messages)]) == after
  {
    var after := Obj(body.fields["messages" := Arr(messages)]);
    assert after.fields["messages" := Arr(messages)] == after.fields;
  }

  // ---------------------------------------------------------------------------------------------
  // Whole runs
  // ---------------------------------------------------------------------------------------------

  datatype Call =
    | ObserveCall(model: string, trace: string, ids: seq<string>, signatures: seq<string>, at: real)
    | LookupCall(ids: seq<string>, signatures: seq<string>, at: real)
    | ReplayCall(model: string, body: Json, at: real)

  function AfterCall(b: Bounds, s: Store, call: Call): Store {
    match call
    case ObserveCall(model, trace, ids, signatures, at) => AfterObserve(b, s, model, trace, ids, signatures, at)
    case LookupCall(ids, signatures, at) => s.(traces := Lookup(b, s.traces, ids, SetOf(signatures), at).1)
    case ReplayCall(model, body, at) => ReplayedBody(b, s, model, body, at).1
  }

  function AfterCalls(b: Bounds, calls: seq<Call>): Store
    decreases |calls|
  {
    if calls == [] then Store([], {}) else AfterCall(b, AfterCalls(b, calls[..|calls| - 1]), calls[|calls| - 1])
  }

  /** The last observation of every id, in the order they came; nothing expires and nothing is evicted. */
  function AllObserved(calls: seq<Call>): seq<Entry>
    decreases |calls|
  {
    if calls == [] then []
    else
      var before, call := AllObserved(calls[..|calls| - 1]), calls[|calls| - 1];
      if call.ObserveCall? && Kept(call.trace) != ""
      then PutAll(before, call.ids, call.at, Kept(call.trace), SetOf(call.signatures))
      else before
  }

  ghost predicate InTime(calls: seq<Call>, now: real) {
    && (forall i, j :: 0 <= i < j < |calls| ==> calls[i].at <= calls[j].at)
    && forall i :: 0 <= i < |calls| ==> calls[i].at <= now
  }

  /**
    On a clock that does not run backwards, at any time after any calls, the entries that are not
    expired are exactly those not expired among the `maxEntries` ids observed last.
   */
  lemma {:induction false} StoreKeepsMostRecent(b: Bounds, calls: seq<Call>, now: real)
    requires InTime(calls, now)
    ensures Mirrors(b, AfterCalls(b, calls).traces, AllObserved(calls), now)
    ensures |AfterCalls(b, calls).traces| <= b.maxEntries
    decreases |calls|
  {
    if calls != [] {
      var before, call := calls[..|calls| - 1], calls[|calls| - 1];
      StoreKeepsMostRecent(b, before, call.at);
      CallKeepsMostRecent(b, AfterCalls(b, before), AllObserved(before), call);
      MirrorsLater(b, AfterCalls(b, calls).traces, AllObserved(calls), call.at, now);
    }
  }

  lemma {:induction false} CallKeepsMostRecent(b: Bounds, s: Store, all: seq<Entry>, call: Call)
    requires Mirrors(b, s.traces, all, call.at) && |s.traces| <= b.maxEntries
    ensures var next := if call.ObserveCall? && Kept(call.trace) != ""
                        then PutAll(all, call.ids, call.at, Kept(call.trace), SetOf(call.signatures)) else all;
            Mirrors(b, AfterCall(b, s, call).traces, next, call.at)
    ensures |AfterCall(b, s, call).traces| <= b.maxEntries
  {
    match call
    case ObserveCall(model, trace, ids, signatures, at) =>
      if Kept(trace) != "" {
        KeptSpeaks(trace);
        MirrorsObserve(b, s.traces, all, ids, at, Kept(trace), SetOf(signatures));
        PutAllIsOrderly(s.traces, ids, at, Kept(trace), SetOf(signatures));
        EvictedIsOrderly(b, PutAll(s.traces, ids, at, Kept(trace), SetOf(signatures)), at);
      }
    case LookupCall(ids, signatures, at) =>
      LookupKeepsFresh(b, s.traces, ids, SetOf(signatures), at);
    case ReplayCall(model, body, at) =>
      if body.Get("messages").Arr? {
        MessagesKeepFresh(b, Trim(model) in s.thinking, s.traces, body.Get("messages").items, at);
      }
  }

  /** A lookup answers as an unbounded store would that forgets all but the ids observed last. */
  lemma {:induction false} LookupIsUnbounded(b: Bounds, calls: seq<Call>, ids: seq<string>, wanted: set<string>,
                                             now: real)
    requires InTime(calls, now)
    ensures Lookup(b, AfterCalls(b, calls).traces, ids, wanted, now).0 ==
            FirstAnswer(b, Newest(AllObserved(calls), b.maxEntries), ids, wanted, now)
  {
    var traces, newest := AfterCalls(b, calls).traces, Newest(AllObserved(calls), b.maxEntries);
    StoreKeepsMostRecent(b, calls, now);
    LookupIsFirstAnswer(b, traces, ids, wanted, now);
    AnswersAreFresh(b, traces, ids, wanted, now);
    NewestIsOrderly(AllObserved(calls), b.maxEntries, now);
    AnswersAreFresh(b, newest, ids, wanted, now);
  }

  /** The entry is what some observation among the calls stored. */
  ghost predicate WasObserved(calls: seq<Call>, e: Entry) {
    exists i :: 0 <= i < |calls| && Stores(calls[i], e)
  }

  ghost predicate Stores(call: Call, e: Entry) {
    && call.ObserveCall?
    && e.id in call.ids
    && e == Entry(e.id, call.at, Kept(call.trace), SetOf(call.signatures))
  }

  lemma {:induction false} ObservedIsFromCalls(calls: seq<Call>, e: Entry)
    requires e in AllObserved(calls)
    ensures WasObserved(calls, e)
    decreases |calls|
  {
    if calls != [] {
      var before, call := calls[..|calls| - 1], calls[|calls| - 1];
      if call.ObserveCall? && Kept(call.trace) != "" {
        PutAllMembers(AllObserved(before), call.ids, call.at, Kept(call.trace), SetOf(call.signatures), e);
      }
      if e in AllObserved(before) {
        ObservedIsFromCalls(before, e);
        var i :| 0 <= i < |before| && Stores(before[i], e);
        assert Stores(calls[i], e);
      } else {
        assert Stores(calls[|calls| - 1], e);
      }
    }
  }

  lemma {:induction false} OneMoreThinks(b: Bounds, calls: seq<Call>, model: string)
    requires calls != []
    ensures model in AfterCalls(b, calls).thinking <==>
            model in AfterCalls(b, calls[..|calls| - 1]).thinking || Thinks(calls[|calls| - 1], model)
  {
  }

  /** The models that may get the stand-in are those observed with a trace. */
  lemma {:induction false} ThinkingWasObserved(b: Bounds, calls: seq<Call>, model: string)
    ensures model in AfterCalls(b, calls).thinking <==>
            exists i :: 0 <= i < |calls| && Thinks(calls[i], model)
    decreases |calls|
  {
    if calls != [] {
      var before, call := calls[..|calls| - 1], calls[|calls| - 1];
      ThinkingWasObserved(b, before, model);
      OneMoreThinks(b, calls, model);
      if i :| 0 <= i < |before| && Thinks(before[i], model) {
        assert calls[i] == before[i];
      }
      if i :| 0 <= i < |calls| && Thinks(calls[i], model) {
        assert i == |calls| - 1 || before[i] == calls[i];
      }
    }
  }

  ghost predicate Thinks(call: Call, model: string) {
    call.ObserveCall? && Kept(call.trace) != "" && model != "" && model == Trim(call.model)
  }

  /** Where an inserted trace may come from. */
  ghost predicate HasSource(b: Bounds, calls: seq<Call>, model: string, message: Json, trace: string, now: real) {
    var toolCalls := Items(message.Get("tool_calls"));
    || (exists e :: && WasObserved(calls, e) && e.id in CallIds(toolCalls) && IsFresh(e, now, b.ttl)
                    && Matches(e, SetOf(CallSignatures(toolCalls))) && e.trace == trace)
    || (trace == FallbackTrace(toolCalls) && exists i :: 0 <= i < |calls| && Thinks(calls[i], Trim(model)))
  }

  /**
    Every trace that a replay inserts was observed for one of the message's call ids within the time to
    live with fitting signatures, or is the stand-in for a model observed thinking.
   */
  lemma {:induction false} ReplayHasSource(b: Bounds, calls: seq<Call>, model: string, message: Json, now: real)
    requires InTime(calls, now)
    ensures var s := AfterCalls(b, calls);
            var after := ReplayMessage(b, Trim(model) in s.thinking, s.traces, message, now).0;
            || after == message
            || exists t :: message.Obj? && after == WithTrace(message, t) && HasSource(b, calls, model, message, t, now)
  {
    if LacksTrace(message) {
      var s := AfterCalls(b, calls);
      var toolCalls := Items(message.Get("tool_calls"));
      var ids, wanted := CallIds(toolCalls), SetOf(CallSignatures(toolCalls));
      LookupIsUnbounded(b, calls, ids, wanted, now);
      var newest := Newest(AllObserved(calls), b.maxEntries);
      var t := FirstAnswer(b, newest, ids, wanted, now);
      if t != "" {
        AnswerHasSource(b, newest, ids, wanted, now);
        var e :| e in newest && e.id in ids && IsFresh(e, now, b.ttl) && Matches(e, wanted) && e.trace == t;
        StoreKeepsMostRecent(b, calls, now);
        NewestIsOrderly(AllObserved(calls), b.maxEntries, now);
        ObservedIsFromCalls(calls, e);
        assert HasSource(b, calls, model, message, t, now);
      } else if Trim(model) in s.thinking {
        ThinkingWasObserved(b, calls, Trim(model));
        assert HasSource(b, calls, model, message, FallbackTrace(toolCalls), now);
      }
    }
  }

  /** The same through `replay_into_body`, message by message. */
  lemma {:induction false} ReplayedBodyHasSources(b: Bounds, calls: seq<Call>, model: string, body: Json, now: real,
                                                  i: nat)
    requires InTime(calls, now)
    requires body.Get("messages").Arr? && i < |body.Get("messages").items|
    ensures var before := body.Get("messages").items;
            var after := Items(ReplayedBody(b, AfterCalls(b, calls), model, body, now).0.Get("messages"));
            && |after| == |before|
            && (after[i] == before[i]
                || exists t ::
                     && before[i].Obj? && after[i] == WithTrace(before[i], t)
                     && HasSource(b, calls, model, before[i], t, now))
  {
    var s := AfterCalls(b, calls);
    StoreKeepsMostRecent(b, calls, now);
    MessagesOneByOne(b, Trim(model) in s.thinking, s.traces, body.Get("messages").items, now);
    ReplayHasSource(b, calls, model, body.Get("messages").items[i], now);
  }

  // ---------------------------------------------------------------------------------------------
  // What is stored, and what a replay writes, by the fields
  // ---------------------------------------------------------------------------------------------

  predicate OnlySpace(s: string) {
    forall i :: 0 <= i < |s| ==> IsSpace(s[i])
  }

  /** The text of a value, a string or the texts of its parts, is nothing but white space. */
  predicate IsBlank(value: Json) {
    match value
    case Str(s) => OnlySpace(s)
    case Arr(items) => forall i :: 0 <= i < |items| && items[i].Get("text").Str? ==> OnlySpace(items[i].Get("text").s)
    case _ => true
  }

  /** An assistant message with tool calls and no text under either reasoning key. */
  predicate WantsTrace(message: Json) {
    && message.Obj? && message.Get("role") == Str("assistant")
    && message.Get("tool_calls").Arr? && message.Get("tool_calls").items != []
    && IsBlank(message.Get("reasoning_content")) && IsBlank(message.Get("reasoning"))
  }

  function TextIn(value: Json): string {
    if value.Str? then value.s else ""
  }

  /** The id, the name and the arguments of a call, without white space around them. */
  function CallId(call: Json): string {
    Trim(TextIn(call.Get("id")))
  }

  function CallName(call: Json): string {
    Trim(TextIn(call.Get("function").Get("name")))
  }

  function CallText(call: Json): string {
    var arguments := Trim(TextIn(call.Get("function").Get("arguments")));
    CallName(call) + "(" + (if |arguments| <= 512 then arguments else arguments[..512]) + ")"
  }

  /** What the calls ask for, as far as they have names. */
  function AskedFor(calls: seq<Json>): set<string> {
    set i | 0 <= i < |calls| && CallName(calls[i]) != "" :: CallText(calls[i])
  }

  /** The entry may stand for the call at `p`: its id, in time, and the same requests or none on one side. */
  predicate Stands(b: Bounds, e: Entry, calls: seq<Json>, p: nat, now: real)
    requires p < |calls|
  {
    && e.id == CallId(calls[p]) && e.id != "" && now - e.at <= b.ttl
    && (e.names == {} || AskedFor(calls) == {} || e.names == AskedFor(calls))
  }

  /** It is the first of the calls that has such an entry. */
  ghost predicate StandsFirst(b: Bounds, traces: seq<Entry>, e: Entry, calls: seq<Json>, p: nat, now: real) {
    && p < |calls| && e in traces && Stands(b, e, calls, p, now)
    && forall q: nat, f :: q < p && f in traces ==> !Stands(b, f, calls, q, now)
  }

  /** A stand-in that names the calls. */
  function StandIn(calls: seq<Json>): string {
    var names := NamesIn(calls);
    if names == [] then "Continuing from the previous tool call."
    else "Calling " + JoinWith(", ", Unique(names)) + " to answer the request."
  }

  function NamesIn(calls: seq<Json>): seq<string>
    decreases |calls|
  {
    if calls == [] then []
    else
      var init, last := calls[..|calls| - 1], calls[|calls| - 1];
      if CallName(last) == "" then NamesIn(init) else NamesIn(init) + [CallName(last)]
  }

  lemma {:induction false} TrimsToNothing(s: string)
    ensures Trim(s) == "" <==> OnlySpace(s)
  {
    var i, j := TrimIsCore(s);
    if Trim(s) == "" {
      forall k | 0 <= k < |s| ensures IsSpace(s[k]) {
        assert k < i || j <= k;
      }
    } else {
      assert !IsSpace(s[i]);
    }
  }

  lemma {:induction false} SpaceAppends(a: string, b: string)
    ensures OnlySpace(a + b) <==> OnlySpace(a) && OnlySpace(b)
  {
    if OnlySpace(a + b) {
      assert forall i :: 0 <= i < |a| ==> a[i] == (a + b)[i];
      assert forall i :: 0 <= i < |b| ==> b[i] == (a + b)[|a| + i];
    }
  }

  lemma {:induction false} JoinedSpace(parts: seq<string>)
    ensures OnlySpace(JoinWith("\n", parts)) <==> AllSpaces(parts)
    decreases |parts|
  {
    if |parts| > 1 {
      JoinedSpace(parts[1..]);
      SpaceAppends(parts[0], "\n");
      SpaceAppends(parts[0] + "\n", JoinWith("\n", parts[1..]));
      AllSpacesCons(parts[0], parts[1..]);
      assert parts == [parts[0]] + parts[1..];
    }
  }

  predicate AllSpaces(parts: seq<string>) {
    forall i :: 0 <= i < |parts| ==> OnlySpace(parts[i])
  }

  lemma {:induction false} AllSpacesCons(first: string, rest: seq<string>)
    ensures AllSpaces([first] + rest) <==> OnlySpace(first) && AllSpaces(rest)
  {
    var all := [first] + rest;
    if AllSpaces(all) {
      assert OnlySpace(all[0]);
      forall i | 0 <= i < |rest| ensures OnlySpace(rest[i]) {
        assert OnlySpace(all[i + 1]);
      }
    }
  }

  lemma {:induction false} PartsSpace(items: seq<Json>)
    ensures AllSpaces(TextParts(items)) <==> IsBlank(Arr(items))
    decreases |items|
  {
    if items != [] {
      PartsSpace(items[1..]);
      assert forall i :: 1 <= i < |items| ==> items[i] == items[1..][i - 1];
      assert IsBlank(Arr(items)) <==>
          (items[0].Get("text").Str? ==> OnlySpace(items[0].Get("text").s)) && IsBlank(Arr(items[1..]));
      var rest := TextParts(items[1..]);
      if items[0].Get("text").Str? {
        AllSpacesCons(items[0].Get("text").s, rest);
      } else {
        assert [] + rest == rest;
      }
    }
  }

  lemma {:induction false} BlankExactly(value: Json)
    ensures CleanTrace(value) == "" <==> IsBlank(value)
  {
    TrimsToNothing(RawTrace(value));
    match value
    case Arr(items) =>
      JoinedSpace(TextParts(items));
      PartsSpace(items);
    case _ =>
  }

  lemma {:induction false} LacksExactly(message: Json)
    ensures LacksTrace(message) <==> WantsTrace(message)
  {
    BlankExactly(message.Get("reasoning_content"));
    BlankExactly(message.Get("reasoning"));
  }

  lemma {:induction false} SignaturesExactly(calls: seq<Json>)
    ensures SetOf(CallSignatures(calls)) == AskedFor(calls)
    decreases |calls|
  {
    if calls != [] {
      SignaturesExactly(calls[1..]);
      var first, rest := calls[0], CallSignatures(calls[1..]);
      assert NameOf(first) == CallName(first) && SignatureOf(first) == CallText(first);
      AskedForFirst(calls);
      if CallName(first) != "" {
        assert SetOf([SignatureOf(first)] + rest) == {SignatureOf(first)} + SetOf(rest);
      } else {
        assert [] + rest == rest;
      }
    }
  }

  lemma {:induction false} AskedForFirst(calls: seq<Json>)
    requires calls != []
    ensures AskedFor(calls) ==
            (if CallName(calls[0]) != "" then {CallText(calls[0])} else {}) + AskedFor(calls[1..])
  {
    var rest := calls[1..];
    forall x | x in AskedFor(calls)
      ensures x in (if CallName(calls[0]) != "" then {CallText(calls[0])} else {}) + AskedFor(rest) {
      var i :| 0 <= i < |calls| && CallName(calls[i]) != "" && x == CallText(calls[i]);
      if i > 0 {
        assert rest[i - 1] == calls[i];
      }
    }
    forall x | x in AskedFor(rest) ensures x in AskedFor(calls) {
      var i :| 0 <= i < |rest| && CallName(rest[i]) != "" && x == CallText(rest[i]);
      assert calls[i + 1] == rest[i];
    }
  }

  /** Under one call: an entry that stands for it is the answer. */
  lemma {:induction false} AnswerExactly(b: Bounds, traces: seq<Entry>, calls: seq<Json>, p: nat, now: real)
    requires Orderly(traces, now) && p < |calls| && CallId(calls[p]) != ""
    ensures match Answer(b, traces, CallId(calls[p]), AskedFor(calls), now)
            case Some(t) => exists e :: e in traces && Stands(b, e, calls, p, now) && e.trace == t
            case None => forall e :: e in traces ==> !Stands(b, e, calls, p, now)
  {
    FindMember(traces, CallId(calls[p]));
    forall e | e in traces && Stands(b, e, calls, p, now)
      ensures Answer(b, traces, CallId(calls[p]), AskedFor(calls), now) == Some(e.trace)
    {
      FindIsUnique(traces, e, now);
    }
  }

  /** The ids of the calls from `p` on. */
  lemma {:induction false} FirstAnswerExactly(b: Bounds, traces: seq<Entry>, calls: seq<Json>, p: nat, now: real)
    returns (e: Option<Entry>, at: nat)
    requires Orderly(traces, now) && p <= |calls|
    requires forall q: nat, f :: q < p && f in traces ==> !Stands(b, f, calls, q, now)
    ensures match e
            case Some(f) => StandsFirst(b, traces, f, calls, at, now)
                            && FirstAnswer(b, traces, CallIds(calls[p..]), AskedFor(calls), now) == f.trace
            case None => (forall q: nat, f :: q < |calls| && f in traces ==> !Stands(b, f, calls, q, now))
                         && FirstAnswer(b, traces, CallIds(calls[p..]), AskedFor(calls), now) == ""
    decreases |calls| - p
  {
    if p == |calls| {
      e, at := None, 0;
      assert calls[p..] == [] && CallIds(calls[p..]) == [];
    } else {
      e := AnswerAt(b, traces, calls, p, now);
      at := p;
      if e.None? {
        e, at := FirstAnswerExactly(b, traces, calls, p + 1, now);
      }
    }
  }

  /** The answer of the call at `p`, or that of the calls after it. */
  lemma {:induction false} AnswerAt(b: Bounds, traces: seq<Entry>, calls: seq<Json>, p: nat, now: real)
    returns (e: Option<Entry>)
    requires Orderly(traces, now) && p < |calls|
    ensures match e
            case Some(f) => f in traces && Stands(b, f, calls, p, now)
                            && FirstAnswer(b, traces, CallIds(calls[p..]), AskedFor(calls), now) == f.trace
            case None => (forall f :: f in traces ==> !Stands(b, f, calls, p, now))
                         && FirstAnswer(b, traces, CallIds(calls[p..]), AskedFor(calls), now) ==
                            FirstAnswer(b, traces, CallIds(calls[p + 1..]), AskedFor(calls), now)
  {
    var id, rest := CallId(calls[p]), CallIds(calls[p + 1..]);
    IdsFrom(calls, p);
    e := None;
    if id == "" {
      assert [] + rest == rest;
    } else {
      assert ([id] + rest)[0] == id && ([id] + rest)[1..] == rest;
      AnswerExactly(b, traces, calls, p, now);
      var answer := Answer(b, traces, id, AskedFor(calls), now);
      if answer.Some? {
        var f :| f in traces && Stands(b, f, calls, p, now) && f.trace == answer.value;
        e := Some(f);
      }
    }
  }

  lemma {:induction false} IdsFrom(calls: seq<Json>, p: nat)
    requires p < |calls|
    ensures CallIds(calls[p..]) ==
            (if CallId(calls[p]) != "" then [CallId(calls[p])] else []) + CallIds(calls[p + 1..])
  {
    assert calls[p..][0] == calls[p] && calls[p..][1..] == calls[p + 1..];
    assert IdOf(calls[p]) == CallId(calls[p]);
  }

  lemma {:induction false} NamesExactly(calls: seq<Json>)
    ensures CallNames(calls) == NamesIn(calls)
    decreases |calls|
  {
    if calls != [] {
      var init, last := calls[..|calls| - 1], calls[|calls| - 1];
      assert calls == init + [last];
      NamesExactly(init);
      CallNamesSnoc(init, last);
    }
  }

  lemma {:induction false} FirstName(call: Json, rest: seq<Json>)
    ensures CallNames([call] + rest) == (if CallName(call) == "" then [] else [CallName(call)]) + CallNames(rest)
  {
    assert NameOf(call) == CallName(call);
    assert ([call] + rest)[0] == call && ([call] + rest)[1..] == rest;
  }

  lemma {:induction false} CallNamesSnoc(calls: seq<Json>, last: Json)
    ensures CallNames(calls + [last]) == CallNames(calls) + if CallName(last) == "" then [] else [CallName(last)]
    decreases |calls|
  {
    var name := if CallName(last) == "" then [] else [CallName(last)];
    if calls == [] {
      FirstName(last, []);
      assert [] + [last] == [last] + [] && name + CallNames([]) == CallNames([]) + name;
    } else {
      var first, rest := calls[0], calls[1..];
      assert calls == [first] + rest && calls + [last] == [first] + (rest + [last]);
      CallNamesSnoc(rest, last);
      FirstName(first, rest);
      FirstName(first, rest + [last]);
      JoinsOn(if CallName(first) == "" then [] else [CallName(first)], CallNames(rest), name);
    }
  }

  lemma {:induction false} JoinsOn(a: seq<string>, b: seq<string>, c: seq<string>)
    ensures a + (b + c) == (a + b) + c
  {
  }

  lemma {:induction false} StandInExactly(calls: seq<Json>)
    ensures FallbackTrace(calls) == StandIn(calls)
  {
    NamesExactly(calls);
  }

  /** The model was observed with a trace that is more than white space. */
  ghost predicate WasThinking(calls: seq<Call>, model: string) {
    model != "" && exists i :: 0 <= i < |calls| && ThoughtIn(calls[i], model)
  }

  predicate ThoughtIn(call: Call, model: string) {
    call.ObserveCall? && !OnlySpace(call.trace) && Trim(call.model) == model
  }

  lemma {:induction false} ThinksExactly(call: Call, model: string)
    ensures Thinks(call, model) <==> model != "" && ThoughtIn(call, model)
  {
    if call.ObserveCall? {
      TrimsToNothing(call.trace);
    }
  }

  lemma {:induction false} ThinkingExactly(b: Bounds, calls: seq<Call>, model: string)
    ensures model in AfterCalls(b, calls).thinking <==> WasThinking(calls, model)
  {
    ThinkingWasObserved(b, calls, model);
    forall i | 0 <= i < |calls| ensures Thinks(calls[i], model) <==> model != "" && ThoughtIn(calls[i], model) {
      ThinksExactly(calls[i], model);
    }
  }

  /** What the entry under an id comes from: the last observation of it with a trace that says something. */
  function LastObservation(calls: seq<Call>, id: string): Option<Entry>
    decreases |calls|
  {
    if calls == [] then None
    else
      var call := calls[|calls| - 1];
      if call.ObserveCall? && !OnlySpace(call.trace) && id in call.ids then
        var trace := Trim(call.trace);
        Some(Entry(id, call.at, if |trace| <= 32768 then trace else trace[..32768], set x | x in call.signatures))
      else LastObservation(calls[..|calls| - 1], id)
  }

  lemma {:induction false} FindPut(traces: seq<Entry>, e: Entry, id: string)
    ensures Find(Put(traces, e), id) == if id == e.id then Some(e) else Find(traces, id)
  {
    FindWithout(traces, e.id, id);
    FindAppend(Without(traces, e.id), e, id);
  }

  lemma {:induction false} FindAppend(traces: seq<Entry>, e: Entry, id: string)
    ensures Find(traces + [e], id) ==
            if Find(traces, id).Some? then Find(traces, id) else if e.id == id then Some(e) else None
    decreases |traces|
  {
    if traces == [] {
      assert traces + [e] == [e] && [e][1..] == [];
    } else {
      assert (traces + [e])[0] == traces[0] && (traces + [e])[1..] == traces[1..] + [e];
      FindAppend(traces[1..], e, id);
    }
  }

  lemma {:induction false} FindPutAll(traces: seq<Entry>, ids: seq<string>, at: real, trace: string, names: set<string>,
                                      id: string)
    ensures Find(PutAll(traces, ids, at, trace, names), id) ==
            if id in ids then Some(Entry(id, at, trace, names)) else Find(traces, id)
    decreases |ids|
  {
    if ids != [] {
      var e := Entry(ids[0], at, trace, names);
      FindPut(traces, e, id);
      FindPutAll(Put(traces, e), ids[1..], at, trace, names, id);
      assert id in ids <==> id == ids[0] || id in ids[1..];
    }
  }

  /** Under every id stands its last observation, the trace stripped and cut to 32768 characters. */
  lemma {:induction false} ObservedExactly(calls: seq<Call>, id: string)
    ensures Find(AllObserved(calls), id) == LastObservation(calls, id)
    decreases |calls|
  {
    if calls != [] {
      var before, call := calls[..|calls| - 1], calls[|calls| - 1];
      ObservedExactly(before, id);
      if call.ObserveCall? {
        TrimsToNothing(call.trace);
        if Kept(call.trace) != "" {
          FindPutAll(AllObserved(before), call.ids, call.at, Kept(call.trace), SetOf(call.signatures), id);
        }
      }
    }
  }

  function AsEntries(ids: seq<string>, at: real, trace: string, names: set<string>): seq<Entry> {
    seq(|ids|, i requires 0 <= i < |ids| => Entry(ids[i], at, trace, names))
  }

  /** The ids of the last observation are the newest, in the order in which they were given. */
  lemma {:induction false} NewestAreLast(traces: seq<Entry>, ids: seq<string>, at: real, trace: string,
                                         names: set<string>) returns (older: seq<Entry>)
    requires forall i, j :: 0 <= i < j < |ids| ==> ids[i] != ids[j]
    ensures PutAll(traces, ids, at, trace, names) == older + AsEntries(ids, at, trace, names)
    ensures forall e :: e in older ==> e in traces && e.id !in ids
    decreases |ids|
  {
    if ids == [] {
      older := traces;
      assert traces + AsEntries(ids, at, trace, names) == traces;
    } else {
      var init, last := ids[..|ids| - 1], ids[|ids| - 1];
      assert ids == init + [last];
      var p := NewestAreLast(traces, init, at, trace, names);
      var newer, e := AsEntries(init, at, trace, names), Entry(last, at, trace, names);
      older := Without(p, last);
      PutAllSnoc(traces, init, last, at, trace, names);
      WithoutAppend(p, newer, last);
      NoneIsKept(newer, last);
      WithoutMembers(p, last);
      assert AsEntries(ids, at, trace, names) == newer + [e];
      Associative(older, newer, [e]);
    }
  }

  lemma {:induction false} PutAllSnoc(traces: seq<Entry>, ids: seq<string>, last: string, at: real, trace: string,
                                      names: set<string>)
    ensures PutAll(traces, ids + [last], at, trace, names) ==
            Put(PutAll(traces, ids, at, trace, names), Entry(last, at, trace, names))
    decreases |ids|
  {
    if ids == [] {
      assert ids + [last] == [last] && [last][1..] == [];
    } else {
      assert (ids + [last])[0] == ids[0] && (ids + [last])[1..] == ids[1..] + [last];
      PutAllSnoc(Put(traces, Entry(ids[0], at, trace, names)), ids[1..], last, at, trace, names);
    }
  }

  lemma {:induction false} NoneIsKept(traces: seq<Entry>, id: string)
    requires forall i :: 0 <= i < |traces| ==> traces[i].id != id
    ensures Without(traces, id) == traces
    decreases |traces|
  {
    if traces != [] {
      NoneIsKept(traces[1..], id);
    }
  }

  /** The message with this trace and otherwise as it was. */
  predicate IsFilled(before: Json, after: Json, trace: string) {
    before.Obj? && after == Obj(before.fields["reasoning_content" := Str(trace)])
  }

  /** What a replay makes of a message. */
  ghost predicate FilledExactly(b: Bounds, traces: seq<Entry>, thinking: bool, before: Json, after: Json, now: real) {
    if !WantsTrace(before) then after == before
    else
      var calls := before.Get("tool_calls").items;
      if exists e, p :: StandsFirst(b, traces, e, calls, p, now) then
        exists e, p :: StandsFirst(b, traces, e, calls, p, now) && IsFilled(before, after, e.trace)
      else if thinking then IsFilled(before, after, StandIn(calls))
      else after == before
  }

  lemma {:induction false} MessageFilledExactly(b: Bounds, known: bool, traces: seq<Entry>, newest: seq<Entry>,
                                                message: Json, now: real)
    requires Orderly(traces, now) && Orderly(newest, now)
    requires Unexpired(traces, now, b.ttl) == Unexpired(newest, now, b.ttl)
    ensures FilledExactly(b, newest, known, message, ReplayMessage(b, known, traces, message, now).0, now)
  {
    LacksExactly(message);
    if WantsTrace(message) {
      var calls := message.Get("tool_calls").items;
      var ids, wanted := CallIds(calls), SetOf(CallSignatures(calls));
      LookupIsFirstAnswer(b, traces, ids, wanted, now);
      AnswersAreFresh(b, traces, ids, wanted, now);
      AnswersAreFresh(b, newest, ids, wanted, now);
      SignaturesExactly(calls);
      assert calls[0..] == calls;
      var e, at := FirstAnswerExactly(b, newest, calls, 0, now);
      StandInExactly(calls);
      if e.None? {
        NothingStands(b, newest, calls, now);
      } else {
        assert Speaks(e.value.trace);
      }
    }
  }

  lemma {:induction false} NothingStands(b: Bounds, traces: seq<Entry>, calls: seq<Json>, now: real)
    requires forall q: nat, f :: q < |calls| && f in traces ==> !Stands(b, f, calls, q, now)
    ensures !exists e, p :: StandsFirst(b, traces, e, calls, p, now)
  {
  }

  /**
    After any calls on a clock that does not run backwards: an assistant message with tool calls and
    nothing under its reasoning keys gets the trace of the first call that has a fitting entry in time among
    the ids observed last, else the stand-in if its model was observed thinking; everything else stays.
   */
  lemma {:induction false} ReplayFillsExactly(b: Bounds, calls: seq<Call>, model: string, body: Json, now: real, i: nat)
    requires InTime(calls, now)
    requires body.Get("messages").Arr? && i < |body.Get("messages").items|
    ensures var before := body.Get("messages").items;
            var after := Items(ReplayedBody(b, AfterCalls(b, calls), model, body, now).0.Get("messages"));
            && |after| == |before|
            && FilledExactly(b, Newest(AllObserved(calls), b.maxEntries), WasThinking(calls, Trim(model)), before[i],
                             after[i], now)
  {
    var s := AfterCalls(b, calls);
    var newest := Newest(AllObserved(calls), b.maxEntries);
    StoreKeepsMostRecent(b, calls, now);
    NewestIsOrderly(AllObserved(calls), b.maxEntries, now);
    ThinkingExactly(b, calls, Trim(model));
    MessagesOneByOne(b, Trim(model) in s.thinking, s.traces, body.Get("messages").items, now);
    MessageFilledExactly(b, Trim(model) in s.thinking, s.traces, newest, body.Get("messages").items[i], now);
  }

  // ---------------------------------------------------------------------------------------------
  // The class
  // ---------------------------------------------------------------------------------------------

  class ReasoningReplayStore {
    const bounds: Bounds
    var traces: seq<Entry>
    var thinkingModels: set<string>

    constructor (bounds: Bounds)
      ensures this.bounds == bounds && State() == Store([], {})
    {
      this.bounds := bounds;
      traces, thinkingModels := [], {};
    }

    function State(): Store
      reads this
    {
      Store(traces, thinkingModels)
    }

    method Observe(model: string, trace: string, ids: seq<string>, signatures: seq<string>, now: real)
      modifies this
      ensures State() == AfterObserve(bounds, old(State()), model, trace, ids, signatures, now)
    {
      var cleaned := Kept(trace);
      if cleaned == "" {
        return;
      }
      var names := SetOf(signatures);
      if Trim(model) != "" {
        thinkingModels := thinkingModels + {Trim(model)};
      }
      ghost var start, thinking := traces, thinkingModels;
      var i := 0;
      while i < |ids|
        invariant 0 <= i <= |ids| && thinkingModels == thinking
        invariant PutAll(traces, ids[i..], now, cleaned, names) == PutAll(start, ids, now, cleaned, names)
      {
        traces := Put(traces, Entry(ids[i], now, cleaned, names));
        assert ids[i..][0] == ids[i] && ids[i..][1..] == ids[i + 1..];
        i := i + 1;
      }
      Evict(now);
    }

    method Evict(now: real)
      modifies this`traces
      ensures traces == Evicted(bounds, old(traces), now)
    {
      traces := Unexpired(traces, now, bounds.ttl);
      ghost var live := traces;
      while |traces| > bounds.maxEntries
        invariant Newest(traces, bounds.maxEntries) == Newest(live, bounds.maxEntries)
        decreases |traces|
      {
        traces := traces[1..];
      }
    }

    method TraceFor(ids: seq<string>, signatures: seq<string>, now: real) returns (trace: string)
      modifies this`traces
      ensures (trace, traces) == Lookup(bounds, old(traces), ids, SetOf(signatures), now)
    {
      var wanted := SetOf(signatures);
      var i := 0;
      while i < |ids|
        invariant 0 <= i <= |ids|
        invariant Lookup(bounds, traces, ids[i..], wanted, now) == Lookup(bounds, old(traces), ids, wanted, now)
      {
        assert ids[i..][0] == ids[i] && ids[i..][1..] == ids[i + 1..];
        var entry := Find(traces, ids[i]);
        if entry.Some? {
          if !IsFresh(entry.value, now, bounds.ttl) {
            traces := Without(traces, ids[i]);
          } else if Matches(entry.value, wanted) {
            return entry.value.trace;
          }
        }
        i := i + 1;
      }
      return "";
    }

    method ReplayOne(known: bool, message: Json, now: real) returns (filled: Option<Json>)
      modifies this`traces
      ensures (filled.GetOr(message), traces) == ReplayMessage(bounds, known, old(traces), message, now)
    {
      if !LacksTrace(message) {
        return None;
      }
      var calls := Items(message.Get("tool_calls"));
      var trace := TraceFor(CallIds(calls), CallSignatures(calls), now);
      if trace == "" {
        if !known {
          return None;
        }
        trace := FallbackTrace(calls);
        FallbackSpeaks(calls);
      }
      return Some(WithTrace(message, trace));
    }

    /** Copies the list of messages at the first message that it fills in. */
    method ReplayIntoBody(model: string, body: Json, now: real) returns (result: Json)
      modifies this`traces
      ensures (result, State()) == ReplayedBody(bounds, old(State()), model, body, now)
    {
      if !body.Get("messages").Arr? {
        return body;
      }
      var messages := body.Get("messages").items;
      var known := Trim(model) in thinkingModels;
      var rewritten: Option<seq<Json>> := None;
      var i := 0;
      assert messages[0..] == messages;
      NothingBefore(ReplayMessages(bounds, known, traces, messages, now).0);
      while i < |messages|
        invariant 0 <= i <= |messages|
        invariant |rewritten.GetOr(messages)| == |messages| && rewritten.GetOr(messages)[i..] == messages[i..]
        invariant var (rest, final) := ReplayMessages(bounds, known, traces, messages[i..], now);
                  ReplayMessages(bounds, known, old(traces), messages, now) ==
                      (rewritten.GetOr(messages)[..i] + rest, final)
      {
        ghost var before, held := rewritten.GetOr(messages), traces;
        var filled := ReplayOne(known, messages[i], now);
        if filled.Some? {
          rewritten := Some(rewritten.GetOr(messages)[i := filled.value]);
        }
        NextMessage(bounds, known, held, before, messages, i, now);
        assert rewritten.GetOr(messages) == before[i := filled.GetOr(messages[i])];
        i := i + 1;
      }
      assert rewritten.GetOr(messages)[..i] == rewritten.GetOr(messages);
      assert messages[i..] == [];
      NothingAfter(rewritten.GetOr(messages));
      if rewritten == None {
        assert body.fields["messages" := Arr(messages)] == body.fields;
        return body;
      }
      return Obj(body.fields["messages" := Arr(rewritten.value)]);
    }
  }

  lemma {:induction false} NothingBefore<T>(xs: seq<T>)
    ensures [] + xs == xs
  {
  }

  lemma {:induction false} NothingAfter<T>(xs: seq<T>)
    ensures xs + [] == xs
  {
  }

  lemma {:induction false} NextMessage(b: Bounds, known: bool, traces: seq<Entry>, done: seq<Json>,
                                       messages: seq<Json>, i: nat, now: real)
    requires i < |messages| == |done| && done[i..] == messages[i..]
    ensures var (message, left) := ReplayMessage(b, known, traces, messages[i], now);
            var (rest, final) := ReplayMessages(b, known, left, messages[i + 1..], now);
            && ReplayMessages(b, known, traces, messages[i..], now) == ([message] + rest, final)
            && done[i := message][i + 1..] == messages[i + 1..]
            && done[..i] + ([message] + rest) == done[i := message][..i + 1] + rest
  {
    assert messages[i..][0] == messages[i] && messages[i..][1..] == messages[i + 1..];
    assert done[i..][1..] == done[i + 1..];
  }
}
