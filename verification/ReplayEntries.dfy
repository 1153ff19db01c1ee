/**
  The entries of `ReasoningReplayStore` in `src/ficelle/reasoning_replay.py`: what is read off messages
  and tool calls, the ordered dictionary of traces as a sequence of entries with distinct ids, and what
  each operation does to it.

  The lemmas are about that sequence: it stays in time order, and expiry and capacity can be applied in
  either order.  What they add up to for the store is in ReplayStore.
 */
module ReplayEntries {
  import opened Json
  import opened Text
  import opened Wrappers

  const MAX_TRACE_CHARS: nat := 32768
  const MAX_SIGNATURE_ARG_CHARS: nat := 512
  const FALLBACK_WITHOUT_NAMES := "Continuing from the previous tool call."

  // ---------------------------------------------------------------------------------------------
  // Reading traces and tool calls
  // ---------------------------------------------------------------------------------------------

  function TextParts(items: seq<Json>): seq<string> {
    if items == [] then []
    else (if items[0].Get("text").Str? then [items[0].Get("text").s] else []) + TextParts(items[1..])
  }

  /** `_clean_trace(value, strip=False)`. */
  function RawTrace(value: Json): string {
    match value
    case Str(s) => s
    case Arr(items) => JoinWith("\n", TextParts(items))
    case _ => ""
  }

  /** `_clean_trace(value)`. */
  function CleanTrace(value: Json): string {
    Trim(RawTrace(value))
  }

  function Items(value: Json): seq<Json> {
    if value.Arr? then value.items else []
  }

  function TextOf(value: Json): string {
    if value.Str? then value.s else ""
  }

  function IdOf(call: Json): string {
    Trim(TextOf(call.Get("id")))
  }

  function NameOf(call: Json): string {
    Trim(TextOf(call.Get("function").Get("name")))
  }

  /** `_tool_call_ids`. */
  function CallIds(calls: seq<Json>): seq<string> {
    if calls == [] then []
    else (if IdOf(calls[0]) != "" then [IdOf(calls[0])] else []) + CallIds(calls[1..])
  }

  /** `_tool_call_names`. */
  function CallNames(calls: seq<Json>): seq<string> {
    if calls == [] then []
    else (if NameOf(calls[0]) != "" then [NameOf(calls[0])] else []) + CallNames(calls[1..])
  }

  /** `name(arguments)`, both stripped and the arguments cut. */
  function Signature(name: string, arguments: string): string {
    Trim(name) + "(" + Take(Trim(arguments), MAX_SIGNATURE_ARG_CHARS) + ")"
  }

  function SignatureOf(call: Json): string {
    Signature(TextOf(call.Get("function").Get("name")), TextOf(call.Get("function").Get("arguments")))
  }

  /** `_tool_call_signatures`. */
  function CallSignatures(calls: seq<Json>): seq<string> {
    if calls == [] then []
    else (if NameOf(calls[0]) != "" then [SignatureOf(calls[0])] else []) + CallSignatures(calls[1..])
  }

  function FallbackTrace(calls: seq<Json>): string {
    var names := CallNames(calls);
    if names == [] then FALLBACK_WITHOUT_NAMES
    else "Calling " + JoinWith(", ", Unique(names)) + " to answer the request."
  }

  // ---------------------------------------------------------------------------------------------
  // The store
  // ---------------------------------------------------------------------------------------------

  datatype Entry = Entry(id: string, at: real, trace: string, names: set<string>)

  datatype Bounds = Bounds(maxEntries: nat, ttl: real)

  datatype Store = Store(traces: seq<Entry>, thinking: set<string>)

  function SetOf(xs: seq<string>): set<string> {
    set x | x in xs
  }

  function Without(traces: seq<Entry>, id: string): seq<Entry> {
    if traces == [] then []
    else (if traces[0].id == id then [] else [traces[0]]) + Without(traces[1..], id)
  }

  /** Set and move to the end. */
  function Put(traces: seq<Entry>, e: Entry): seq<Entry> {
    Without(traces, e.id) + [e]
  }

  function PutAll(traces: seq<Entry>, ids: seq<string>, at: real, trace: string, names: set<string>): seq<Entry>
    decreases |ids|
  {
    if ids == [] then traces
    else PutAll(Put(traces, Entry(ids[0], at, trace, names)), ids[1..], at, trace, names)
  }

  predicate IsFresh(e: Entry, now: real, ttl: real) {
    now - e.at <= ttl
  }

  function Unexpired(traces: seq<Entry>, now: real, ttl: real): seq<Entry> {
    if traces == [] then []
    else (if IsFresh(traces[0], now, ttl) then [traces[0]] else []) + Unexpired(traces[1..], now, ttl)
  }

  function Newest(traces: seq<Entry>, n: nat): seq<Entry> {
    if |traces| <= n then traces else traces[|traces| - n..]
  }

  function Evicted(b: Bounds, traces: seq<Entry>, now: real): seq<Entry> {
    Newest(Unexpired(traces, now, b.ttl), b.maxEntries)
  }

  /** What `observe` keeps of a trace. */
  function Kept(trace: string): string {
    Take(Trim(trace), MAX_TRACE_CHARS)
  }

  function AfterObserve(b: Bounds, s: Store, model: string, trace: string, ids: seq<string>, signatures: seq<string>,
                        now: real): Store {
    if Kept(trace) == "" then s
    else
      Store(Evicted(b, PutAll(s.traces, ids, now, Kept(trace), SetOf(signatures)), now),
            if Trim(model) != "" then s.thinking + {Trim(model)} else s.thinking)
  }

  function Find(traces: seq<Entry>, id: string): Option<Entry> {
    if traces == [] then None
    else if traces[0].id == id then Some(traces[0]) else Find(traces[1..], id)
  }

  /** A stored entry may answer for these calls: same signatures, or one side has none. */
  predicate Matches(e: Entry, wanted: set<string>) {
    e.names == {} || wanted == {} || e.names == wanted
  }

  /** `trace_for`: the trace, and the entries without the expired ones it met. */
  function Lookup(b: Bounds, traces: seq<Entry>, ids: seq<string>, wanted: set<string>, now: real): (string, seq<Entry>)
    decreases |ids|
  {
    if ids == [] then ("", traces)
    else
      match Find(traces, ids[0])
      case None => Lookup(b, traces, ids[1..], wanted, now)
      case Some(e) =>
        if !IsFresh(e, now, b.ttl) then Lookup(b, Without(traces, ids[0]), ids[1..], wanted, now)
        else if !Matches(e, wanted) then Lookup(b, traces, ids[1..], wanted, now)
        else (e.trace, traces)
  }

  /** An assistant turn with tool calls and no trace. */
  predicate LacksTrace(message: Json) {
    && message.Get("role") == Str("assistant")
    && Items(message.Get("tool_calls")) != []
    && CleanTrace(message.Get("reasoning_content")) == ""
    && CleanTrace(message.Get("reasoning")) == ""
  }

  function ReplayMessage(b: Bounds, known: bool, traces: seq<Entry>, message: Json, now: real): (Json, seq<Entry>) {
    if !LacksTrace(message) then (message, traces)
    else
      var calls := Items(message.Get("tool_calls"));
      var (trace, left) := Lookup(b, traces, CallIds(calls), SetOf(CallSignatures(calls)), now);
      if trace != "" then (WithTrace(message, trace), left)
      else if known then (WithTrace(message, FallbackTrace(calls)), left)
      else (message, left)
  }

  function WithTrace(message: Json, trace: string): Json
    requires message.Obj?
  {
    Obj(message.fields["reasoning_content" := Str(trace)])
  }

  function ReplayMessages(b: Bounds, known: bool, traces: seq<Entry>, messages: seq<Json>, now: real): (seq<Json>,
                          seq<Entry>)
    decreases |messages|
  {
    if messages == [] then ([], traces)
    else
      var (message, left) := ReplayMessage(b, known, traces, messages[0], now);
      var (rest, final) := ReplayMessages(b, known, left, messages[1..], now);
      ([message] + rest, final)
  }

  function ReplayedBody(b: Bounds, s: Store, model: string, body: Json, now: real): (Json, Store) {
    if !body.Get("messages").Arr? then (body, s)
    else
      var (messages, left) := ReplayMessages(b, Trim(model) in s.thinking, s.traces, body.Get("messages").items, now);
      (Obj(body.fields["messages" := Arr(messages)]), s.(traces := left))
  }

  // ---------------------------------------------------------------------------------------------
  // Filters
  // ---------------------------------------------------------------------------------------------

  ghost predicate Distinct(traces: seq<Entry>) {
    forall i, j :: 0 <= i < j < |traces| ==> traces[i].id != traces[j].id
  }

  ghost predicate InOrder(traces: seq<Entry>, now: real) {
    && (forall i, j :: 0 <= i < j < |traces| ==> traces[i].at <= traces[j].at)
    && forall i :: 0 <= i < |traces| ==> traces[i].at <= now
  }

  /** What is stored is never blank, so a message that got it lacks a trace no more. */
  predicate Speaks(trace: string) {
    trace != "" && !IsSpace(trace[0])
  }

  ghost predicate AllSpeak(traces: seq<Entry>) {
    forall i :: 0 <= i < |traces| ==> Speaks(traces[i].trace) && |traces[i].trace| <= MAX_TRACE_CHARS
  }

  ghost predicate Orderly(traces: seq<Entry>, now: real) {
    Distinct(traces) && InOrder(traces, now) && AllSpeak(traces)
  }

  lemma {:induction false} OrderlyTail(traces: seq<Entry>, now: real)
    requires Orderly(traces, now) && traces != []
    ensures Orderly(traces[1..], now)
  {
  }

  lemma {:induction false} OrderlyCons(e: Entry, traces: seq<Entry>, now: real)
    requires Orderly(traces, now) && e.at <= now
    requires Speaks(e.trace) && |e.trace| <= MAX_TRACE_CHARS
    requires forall x :: x in traces ==> x.id != e.id && e.at <= x.at
    ensures Orderly([e] + traces, now)
  {
    var all := [e] + traces;
    forall i, j | 0 <= i < j < |all| ensures all[i].id != all[j].id && all[i].at <= all[j].at {
      assert all[j] == traces[j - 1] && all[j] in traces;
      if i > 0 {
        assert all[i] == traces[i - 1];
      }
    }
  }

  lemma {:induction false} HeadIsFirst(traces: seq<Entry>, now: real)
    requires Orderly(traces, now) && traces != []
    ensures forall x :: x in traces[1..] ==> x.id != traces[0].id && traces[0].at <= x.at
  {
  }

  lemma {:induction false} WithoutMembers(traces: seq<Entry>, id: string)
    ensures forall e :: e in Without(traces, id) <==> e in traces && e.id != id
    decreases |traces|
  {
    if traces != [] {
      WithoutMembers(traces[1..], id);
      assert forall e :: e in traces <==> e == traces[0] || e in traces[1..];
    }
  }

  lemma {:induction false} WithoutNone(traces: seq<Entry>, id: string)
    requires forall e :: e in traces ==> e.id != id
    ensures Without(traces, id) == traces
    decreases |traces|
  {
    if traces != [] {
      assert traces[0] in traces;
      WithoutNone(traces[1..], id);
    }
  }

  lemma {:induction false} WithoutLength(traces: seq<Entry>, id: string, now: real)
    requires Orderly(traces, now)
    ensures |traces| - 1 <= |Without(traces, id)| <= |traces|
    decreases |traces|
  {
    if traces != [] {
      OrderlyTail(traces, now);
      HeadIsFirst(traces, now);
      WithoutLength(traces[1..], id, now);
      if traces[0].id == id {
        WithoutNone(traces[1..], id);
      }
    }
  }

  lemma {:induction false} WithoutIsOrderly(traces: seq<Entry>, id: string, now: real)
    requires Orderly(traces, now)
    ensures Orderly(Without(traces, id), now)
    decreases |traces|
  {
    if traces != [] {
      OrderlyTail(traces, now);
      HeadIsFirst(traces, now);
      WithoutIsOrderly(traces[1..], id, now);
      if traces[0].id != id {
        WithoutMembers(traces[1..], id);
        OrderlyCons(traces[0], Without(traces[1..], id), now);
      }
    }
  }

  lemma {:induction false} UnexpiredMembers(traces: seq<Entry>, now: real, ttl: real)
    ensures forall e :: e in Unexpired(traces, now, ttl) <==> e in traces && IsFresh(e, now, ttl)
    ensures |Unexpired(traces, now, ttl)| <= |traces|
    decreases |traces|
  {
    if traces != [] {
      UnexpiredMembers(traces[1..], now, ttl);
      assert forall e :: e in traces <==> e == traces[0] || e in traces[1..];
    }
  }

  lemma {:induction false} UnexpiredStaysOrderly(traces: seq<Entry>, now: real, ttl: real, later: real)
    requires Orderly(traces, later)
    ensures Orderly(Unexpired(traces, now, ttl), later)
    decreases |traces|
  {
    if traces != [] {
      OrderlyTail(traces, later);
      HeadIsFirst(traces, later);
      UnexpiredMembers(traces[1..], now, ttl);
      UnexpiredStaysOrderly(traces[1..], now, ttl, later);
      if IsFresh(traces[0], now, ttl) {
        OrderlyCons(traces[0], Unexpired(traces[1..], now, ttl), later);
      }
    }
  }

  lemma {:induction false} UnexpiredIsOrderly(traces: seq<Entry>, now: real, ttl: real, later: real)
    requires Orderly(traces, later)
    ensures Orderly(Unexpired(traces, now, ttl), later)
    ensures forall e :: e in Unexpired(traces, now, ttl) <==> e in traces && IsFresh(e, now, ttl)
    ensures |Unexpired(traces, now, ttl)| <= |traces|
  {
    UnexpiredStaysOrderly(traces, now, ttl, later);
    UnexpiredMembers(traces, now, ttl);
  }

  lemma {:induction false} NewestIsOrderly(traces: seq<Entry>, n: nat, now: real)
    requires Orderly(traces, now)
    ensures Orderly(Newest(traces, n), now) && |Newest(traces, n)| <= n
    ensures forall e :: e in Newest(traces, n) ==> e in traces
  {
  }

  lemma {:induction false} OrderlySnoc(traces: seq<Entry>, e: Entry, now: real)
    requires Orderly(traces, now) && e.at == now
    requires Speaks(e.trace) && |e.trace| <= MAX_TRACE_CHARS
    requires forall i :: 0 <= i < |traces| ==> traces[i].id != e.id
    ensures Orderly(traces + [e], now)
  {
  }

  lemma {:induction false} PutMembers(traces: seq<Entry>, e: Entry)
    ensures forall x :: x in Put(traces, e) <==> x == e || (x in traces && x.id != e.id)
  {
    WithoutMembers(traces, e.id);
  }

  lemma {:induction false} PutIsOrderly(traces: seq<Entry>, e: Entry, now: real)
    requires Orderly(traces, now) && e.at == now
    requires Speaks(e.trace) && |e.trace| <= MAX_TRACE_CHARS
    ensures Orderly(Put(traces, e), now)
  {
    WithoutIsOrderly(traces, e.id, now);
    WithoutMembers(traces, e.id);
    var rest := Without(traces, e.id);
    forall i | 0 <= i < |rest| ensures rest[i].id != e.id {
      assert rest[i] in rest;
    }
    OrderlySnoc(rest, e, now);
  }

  lemma {:induction false} PutAllIsOrderly(traces: seq<Entry>, ids: seq<string>, at: real, trace: string,
                                           names: set<string>)
    requires Orderly(traces, at)
    requires Speaks(trace) && |trace| <= MAX_TRACE_CHARS
    ensures Orderly(PutAll(traces, ids, at, trace, names), at)
    decreases |ids|
  {
    if ids != [] {
      var e := Entry(ids[0], at, trace, names);
      PutIsOrderly(traces, e, at);
      PutAllIsOrderly(Put(traces, e), ids[1..], at, trace, names);
    }
  }

  lemma {:induction false} PutAllMembers(traces: seq<Entry>, ids: seq<string>, at: real, trace: string,
                                         names: set<string>, e: Entry)
    ensures e in PutAll(traces, ids, at, trace, names) <==>
            if e.id in ids then e == Entry(e.id, at, trace, names) else e in traces
    decreases |ids|
  {
    if ids != [] {
      var first := Entry(ids[0], at, trace, names);
      PutMembers(traces, first);
      PutAllMembers(Put(traces, first), ids[1..], at, trace, names, e);
    }
  }

  lemma {:induction false} LaterIsOrderly(traces: seq<Entry>, now: real, later: real)
    requires Orderly(traces, now) && now <= later
    ensures Orderly(traces, later)
  {
  }

  lemma {:induction false} KeptSpeaks(trace: string)
    requires Kept(trace) != ""
    ensures Speaks(Kept(trace)) && |Kept(trace)| <= MAX_TRACE_CHARS
  {
    TrimLeftStops(trace);
    TrimRightIsPrefix(TrimLeft(trace));
  }

  lemma {:induction false} TrimRightIsPrefix(s: string)
    ensures TrimRight(s) <= s
    decreases |s|
  {
    if s != "" && IsSpace(s[|s| - 1]) {
      TrimRightIsPrefix(s[..|s| - 1]);
    }
  }

  // ---------------------------------------------------------------------------------------------
  // The store after any run is the most recent part of all that was observed
  // ---------------------------------------------------------------------------------------------

  lemma {:induction false} WithoutAppend(x: seq<Entry>, y: seq<Entry>, id: string)
    ensures Without(x + y, id) == Without(x, id) + Without(y, id)
    decreases |x|
  {
    if x == [] {
      assert x + y == y;
    } else {
      assert (x + y)[0] == x[0] && (x + y)[1..] == x[1..] + y;
      WithoutAppend(x[1..], y, id);
      Associative(if x[0].id == id then [] else [x[0]], Without(x[1..], id), Without(y, id));
    }
  }

  lemma {:induction false} UnexpiredAppend(x: seq<Entry>, y: seq<Entry>, now: real, ttl: real)
    ensures Unexpired(x + y, now, ttl) == Unexpired(x, now, ttl) + Unexpired(y, now, ttl)
    decreases |x|
  {
    if x == [] {
      assert x + y == y;
    } else {
      assert (x + y)[0] == x[0] && (x + y)[1..] == x[1..] + y;
      UnexpiredAppend(x[1..], y, now, ttl);
      Associative(if IsFresh(x[0], now, ttl) then [x[0]] else [], Unexpired(x[1..], now, ttl), Unexpired(y, now, ttl));
    }
  }

  lemma {:induction false} Associative(x: seq<Entry>, y: seq<Entry>, z: seq<Entry>)
    ensures (x + y) + z == x + (y + z)
  {
  }

  lemma {:induction false} UnexpiredWithout(x: seq<Entry>, id: string, now: real, ttl: real)
    ensures Unexpired(Without(x, id), now, ttl) == Without(Unexpired(x, now, ttl), id)
    decreases |x|
  {
    if x != [] {
      UnexpiredWithout(x[1..], id, now, ttl);
      WithoutAppend(if IsFresh(x[0], now, ttl) then [x[0]] else [], Unexpired(x[1..], now, ttl), id);
      UnexpiredAppend(if x[0].id == id then [] else [x[0]], Without(x[1..], id), now, ttl);
      WithoutOne(x[0], id);
      UnexpiredOne(x[0], now, ttl);
    }
  }

  lemma {:induction false} WithoutOne(e: Entry, id: string)
    ensures Without([e], id) == if e.id == id then [] else [e]
  {
    assert [e][1..] == [];
  }

  lemma {:induction false} UnexpiredOne(e: Entry, now: real, ttl: real)
    ensures Unexpired([e], now, ttl) == if IsFresh(e, now, ttl) then [e] else []
  {
    assert [e][1..] == [];
  }

  lemma {:induction false} UnexpiredPut(x: seq<Entry>, e: Entry, now: real, ttl: real)
    requires IsFresh(e, now, ttl)
    ensures Unexpired(Put(x, e), now, ttl) == Put(Unexpired(x, now, ttl), e)
  {
    UnexpiredWithout(x, e.id, now, ttl);
    UnexpiredAppend(Without(x, e.id), [e], now, ttl);
    UnexpiredOne(e, now, ttl);
  }

  lemma {:induction false} UnexpiredPutAll(x: seq<Entry>, ids: seq<string>, at: real, trace: string,
                                           names: set<string>, ttl: real)
    requires ttl >= 0.0
    ensures Unexpired(PutAll(x, ids, at, trace, names), at, ttl) == PutAll(Unexpired(x, at, ttl), ids, at, trace, names)
    decreases |ids|
  {
    if ids != [] {
      var e := Entry(ids[0], at, trace, names);
      UnexpiredPut(x, e, at, ttl);
      UnexpiredPutAll(Put(x, e), ids[1..], at, trace, names, ttl);
    }
  }

  lemma {:induction false} UnexpiredTwice(x: seq<Entry>, now: real, later: real, ttl: real)
    requires now <= later
    ensures Unexpired(Unexpired(x, now, ttl), later, ttl) == Unexpired(x, later, ttl)
    decreases |x|
  {
    if x != [] {
      UnexpiredTwice(x[1..], now, later, ttl);
      UnexpiredAppend(if IsFresh(x[0], now, ttl) then [x[0]] else [], Unexpired(x[1..], now, ttl), later, ttl);
      UnexpiredOne(x[0], later, ttl);
    }
  }

  lemma {:induction false} AllFresh(x: seq<Entry>, now: real, ttl: real)
    requires forall e :: e in x ==> IsFresh(e, now, ttl)
    ensures Unexpired(x, now, ttl) == x
    decreases |x|
  {
    if x != [] {
      assert x[0] in x;
      AllFresh(x[1..], now, ttl);
    }
  }

  lemma {:induction false} NoneFresh(x: seq<Entry>, now: real, ttl: real)
    requires forall e :: e in x ==> !IsFresh(e, now, ttl)
    ensures Unexpired(x, now, ttl) == []
    decreases |x|
  {
    if x != [] {
      assert x[0] in x;
      NoneFresh(x[1..], now, ttl);
    }
  }

  lemma {:induction false} UnexpiredLength(x: seq<Entry>, now: real, ttl: real)
    ensures |Unexpired(x, now, ttl)| <= |x|
    decreases |x|
  {
    if x != [] {
      UnexpiredLength(x[1..], now, ttl);
    }
  }

  lemma {:induction false} FreshHead(x: seq<Entry>, now: real, ttl: real)
    requires Orderly(x, now) && x != [] && IsFresh(x[0], now, ttl)
    ensures forall e :: e in x ==> IsFresh(e, now, ttl)
  {
    HeadIsFirst(x, now);
    assert forall e :: e in x ==> e == x[0] || e in x[1..];
  }

  /** In time order the expired entries come first, so expiry and capacity can be applied in either order. */
  lemma {:induction false} UnexpiredNewest(x: seq<Entry>, n: nat, now: real, ttl: real)
    requires Orderly(x, now)
    ensures Unexpired(Newest(x, n), now, ttl) == Newest(Unexpired(x, now, ttl), n)
    decreases |x|
  {
    if |x| <= n {
      UnexpiredLength(x, now, ttl);
    } else if IsFresh(x[0], now, ttl) {
      FreshHead(x, now, ttl);
      FreshNewest(x, n, now, ttl);
    } else {
      OrderlyTail(x, now);
      UnexpiredNewest(x[1..], n, now, ttl);
      NewestOfTail(x, n);
    }
  }

  lemma {:induction false} FreshNewest(x: seq<Entry>, n: nat, now: real, ttl: real)
    requires forall e :: e in x ==> IsFresh(e, now, ttl)
    ensures Unexpired(Newest(x, n), now, ttl) == Newest(Unexpired(x, now, ttl), n)
  {
    AllFresh(x, now, ttl);
    NewestMembers(x, n);
    AllFresh(Newest(x, n), now, ttl);
  }

  lemma {:induction false} NewestMembers(x: seq<Entry>, n: nat)
    ensures forall e :: e in Newest(x, n) ==> e in x
  {
  }

  lemma {:induction false} NewestOfTail(x: seq<Entry>, n: nat)
    requires |x| > n
    ensures Newest(x, n) == Newest(x[1..], n)
  {
  }

  lemma {:induction false} NewestOfAppend(p: seq<Entry>, c: seq<Entry>, n: nat)
    requires |c| >= n
    ensures Newest(p + c, n) == Newest(c, n)
  {
  }

  lemma {:induction false} NewestPut(x: seq<Entry>, e: Entry, n: nat, now: real)
    requires Orderly(x, now)
    ensures Newest(Put(Newest(x, n), e), n) == Newest(Put(x, e), n)
  {
    if |x| > n {
      var p, c := x[..|x| - n], x[|x| - n..];
      assert x == p + c;
      WithoutAppend(p, c, e.id);
      NewestIsOrderly(x, n, now);
      WithoutLength(c, e.id, now);
      Associative(Without(p, e.id), Without(c, e.id), [e]);
      NewestOfAppend(Without(p, e.id), Put(c, e), n);
    }
  }

  lemma {:induction false} NewestPutAll(x: seq<Entry>, ids: seq<string>, at: real, trace: string, names: set<string>,
                                        n: nat)
    requires Orderly(x, at)
    requires Speaks(trace) && |trace| <= MAX_TRACE_CHARS
    ensures Newest(PutAll(Newest(x, n), ids, at, trace, names), n) == Newest(PutAll(x, ids, at, trace, names), n)
    decreases |ids|
  {
    NewestIsOrderly(x, n, at);
    if ids == [] {
    } else {
      var e := Entry(ids[0], at, trace, names);
      var y, z := Put(Newest(x, n), e), Put(x, e);
      PutIsOrderly(Newest(x, n), e, at);
      PutIsOrderly(x, e, at);
      NewestPut(x, e, n, at);
      NewestPutAll(y, ids[1..], at, trace, names, n);
      NewestPutAll(z, ids[1..], at, trace, names, n);
    }
  }

  /** What is not expired in the store is what is not expired among the newest of all that was observed. */
  ghost predicate Mirrors(b: Bounds, traces: seq<Entry>, all: seq<Entry>, now: real) {
    && Orderly(traces, now) && Orderly(all, now)
    && Unexpired(traces, now, b.ttl) == Unexpired(Newest(all, b.maxEntries), now, b.ttl)
  }

  lemma {:induction false} MirrorsLater(b: Bounds, traces: seq<Entry>, all: seq<Entry>, now: real, later: real)
    requires Mirrors(b, traces, all, now) && now <= later
    ensures Mirrors(b, traces, all, later)
  {
    LaterIsOrderly(traces, now, later);
    LaterIsOrderly(all, now, later);
    UnexpiredTwice(traces, now, later, b.ttl);
    UnexpiredTwice(Newest(all, b.maxEntries), now, later, b.ttl);
  }

  lemma {:induction false} EvictedIsOrderly(b: Bounds, traces: seq<Entry>, now: real)
    requires Orderly(traces, now)
    ensures Orderly(Evicted(b, traces, now), now)
    ensures |Evicted(b, traces, now)| <= b.maxEntries
    ensures forall e :: e in Evicted(b, traces, now) ==> e in traces && IsFresh(e, now, b.ttl)
  {
    UnexpiredIsOrderly(traces, now, b.ttl, now);
    NewestIsOrderly(Unexpired(traces, now, b.ttl), b.maxEntries, now);
  }

  lemma {:induction false} MirrorsObserve(b: Bounds, traces: seq<Entry>, all: seq<Entry>, ids: seq<string>, at: real,
                                          trace: string, names: set<string>)
    requires Mirrors(b, traces, all, at)
    requires Speaks(trace) && |trace| <= MAX_TRACE_CHARS
    ensures Mirrors(b, Evicted(b, PutAll(traces, ids, at, trace, names), at), PutAll(all, ids, at, trace, names), at)
  {
    var t, l := PutAll(traces, ids, at, trace, names), PutAll(all, ids, at, trace, names);
    PutAllIsOrderly(traces, ids, at, trace, names);
    PutAllIsOrderly(all, ids, at, trace, names);
    EvictedIsOrderly(b, t, at);
    AllFresh(Evicted(b, t, at), at, b.ttl);
    if b.ttl >= 0.0 {
      SameNewest(b, traces, all, ids, at, trace, names);
      UnexpiredNewest(l, b.maxEntries, at, b.ttl);
    } else {
      NewestIsOrderly(l, b.maxEntries, at);
      TooOld(Newest(l, b.maxEntries), at, b.ttl);
      TooOld(Evicted(b, t, at), at, b.ttl);
    }
  }

  lemma {:induction false} TooOld(x: seq<Entry>, now: real, ttl: real)
    requires Orderly(x, now) && ttl < 0.0
    ensures Unexpired(x, now, ttl) == []
  {
    NoneFresh(x, now, ttl);
  }

  lemma {:induction false} SameNewest(b: Bounds, traces: seq<Entry>, all: seq<Entry>, ids: seq<string>, at: real,
                                      trace: string, names: set<string>)
    requires Mirrors(b, traces, all, at) && b.ttl >= 0.0
    requires Speaks(trace) && |trace| <= MAX_TRACE_CHARS
    ensures Evicted(b, PutAll(traces, ids, at, trace, names), at) ==
            Newest(Unexpired(PutAll(all, ids, at, trace, names), at, b.ttl), b.maxEntries)
  {
    UnexpiredPutAll(traces, ids, at, trace, names, b.ttl);
    UnexpiredPutAll(all, ids, at, trace, names, b.ttl);
    UnexpiredNewest(all, b.maxEntries, at, b.ttl);
    UnexpiredIsOrderly(all, at, b.ttl, at);
    NewestPutAll(Unexpired(all, at, b.ttl), ids, at, trace, names, b.maxEntries);
  }
}
