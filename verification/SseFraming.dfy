/** The framing of `OpenAIToAnthropicStreamTranslator.feed`: an incremental event stream parser. */
module SseFraming {
  /*
    It keeps a byte buffer and cuts it at LF LF or CR LF CR LF, whichever starts first.  What an event
    does is left open: a `Machine` supplies it.  The result is about every machine: how a stream is cut
    into chunks does not matter exactly when every complete event after the one that stopped the
    machine does nothing.
   */
  import opened Wrappers

  /** A byte string, one character per byte. */
  type Bytes = seq<char>

  const LF: char := '\n'
  const CR: char := '\r'
  const LF_LF: Bytes := [LF, LF]
  const CRLF_CRLF: Bytes := [CR, LF, CR, LF]

  predicate OccursAt(s: Bytes, needle: Bytes, i: nat) {
    i + |needle| <= |s| && s[i..i + |needle|] == needle
  }

  /** `bytes.find` from position `i`. */
  function FindFrom(s: Bytes, needle: Bytes, i: nat): (r: Option<nat>)
    ensures r.Some? ==> r.value + |needle| <= |s|
    decreases |s| - i
  {
    if OccursAt(s, needle, i) then Some(i)
    else if i >= |s| then None
    else FindFrom(s, needle, i + 1)
  }

  /** It is the first occurrence, and there is none when it finds none. */
  lemma {:induction false} FindFromIsFirst(s: Bytes, needle: Bytes, i: nat)
    ensures match FindFrom(s, needle, i)
            case Some(k) => i <= k && OccursAt(s, needle, k) && forall j :: i <= j < k ==> !OccursAt(s, needle, j)
            case None => forall j :: i <= j ==> !OccursAt(s, needle, j)
    decreases |s| - i
  {
    if !OccursAt(s, needle, i) && i < |s| {
      FindFromIsFirst(s, needle, i + 1);
    }
  }

  datatype Cut = Cut(start: nat, width: nat)

  /** `min` of the (boundary, width) pairs that were found. */
  function Boundary(buffer: Bytes): (cut: Option<Cut>)
    ensures cut.Some? ==> cut.value.width > 0 && cut.value.start + cut.value.width <= |buffer|
  {
    var lf := FindFrom(buffer, LF_LF, 0);
    var crlf := FindFrom(buffer, CRLF_CRLF, 0);
    if lf.None? && crlf.None? then None
    else if crlf.None? || (lf.Some? && lf.value <= crlf.value) then Some(Cut(lf.value, 2))
    else Some(Cut(crlf.value, 4))
  }

  datatype Framed = Framed(events: seq<Bytes>, rest: Bytes)

  /** All complete events of a buffer and the bytes left over. */
  function Split(buffer: Bytes): Framed
    decreases |buffer|
  {
    var cut := Boundary(buffer);
    if cut.None? then Framed([], buffer)
    else
      var tail := Split(buffer[cut.value.start + cut.value.width..]);
      Framed([buffer[..cut.value.start]] + tail.events, tail.rest)
  }

  // ---------------------------------------------------------------------------------------------
  // Framing does not depend on what has not arrived yet
  // ---------------------------------------------------------------------------------------------

  lemma {:induction false} OccursInPrefix(x: Bytes, y: Bytes, needle: Bytes, i: nat)
    requires i + |needle| <= |x|
    ensures OccursAt(x + y, needle, i) <==> OccursAt(x, needle, i)
  {
    assert (x + y)[i..i + |needle|] == x[i..i + |needle|];
  }

  lemma {:induction false} LfLfAt(s: Bytes, i: nat)
    ensures OccursAt(s, LF_LF, i) <==> i + 2 <= |s| && s[i] == LF && s[i + 1] == LF
  {
    if i + 2 <= |s| {
      assert s[i..i + 2] == [s[i], s[i + 1]];
    }
  }

  lemma {:induction false} CrlfCrlfAt(s: Bytes, i: nat)
    ensures OccursAt(s, CRLF_CRLF, i) <==>
            i + 4 <= |s| && s[i] == CR && s[i + 1] == LF && s[i + 2] == CR && s[i + 3] == LF
  {
    if i + 4 <= |s| {
      assert s[i..i + 4] == [s[i], s[i + 1], s[i + 2], s[i + 3]];
    }
  }

  /** `cut` is a delimiter of `s`, and no delimiter starts before it. */
  ghost predicate IsFirstCut(s: Bytes, cut: Cut) {
    && (cut.width == 2 || cut.width == 4)
    && OccursAt(s, if cut.width == 2 then LF_LF else CRLF_CRLF, cut.start)
    && forall i: nat :: i < cut.start ==> !OccursAt(s, LF_LF, i) && !OccursAt(s, CRLF_CRLF, i)
  }

  lemma {:induction false} BoundaryIsFirstCut(s: Bytes)
    ensures Boundary(s).Some? ==> IsFirstCut(s, Boundary(s).value)
  {
    FindFromIsFirst(s, LF_LF, 0);
    FindFromIsFirst(s, CRLF_CRLF, 0);
  }

  lemma {:induction false} FirstCutIsBoundary(s: Bytes, cut: Cut)
    requires IsFirstCut(s, cut)
    ensures Boundary(s) == Some(cut)
  {
    FindFromIsFirst(s, LF_LF, 0);
    FindFromIsFirst(s, CRLF_CRLF, 0);
    LfLfAt(s, cut.start);
    CrlfCrlfAt(s, cut.start);
  }

  /** The delimiter that starts first also ends first: later bytes cannot complete an earlier one. */
  lemma {:induction false} FirstCutEndsFirst(x: Bytes, y: Bytes, cut: Cut, i: nat)
    requires IsFirstCut(x, cut) && i < cut.start
    ensures !OccursAt(x + y, LF_LF, i) && !OccursAt(x + y, CRLF_CRLF, i)
  {
    LfLfAt(x, i);
    LfLfAt(x + y, i);
    CrlfCrlfAt(x, i);
    CrlfCrlfAt(x + y, i);
    LfLfAt(x, cut.start);
    CrlfCrlfAt(x, cut.start);
  }

  /** Bytes that arrive later do not move the delimiter that was found. */
  lemma {:induction false} BoundaryIsStable(x: Bytes, y: Bytes)
    requires Boundary(x).Some?
    ensures Boundary(x + y) == Boundary(x)
  {
    BoundaryIsFirstCut(x);
    var cut := Boundary(x).value;
    forall i: nat | i < cut.start
      ensures !OccursAt(x + y, LF_LF, i) && !OccursAt(x + y, CRLF_CRLF, i)
    {
      FirstCutEndsFirst(x, y, cut, i);
    }
    OccursInPrefix(x, y, if cut.width == 2 then LF_LF else CRLF_CRLF, cut.start);
    FirstCutIsBoundary(x + y, cut);
  }

  /** Framing what has arrived, then what arrives later, is framing all of it. */
  lemma {:induction false} SplitAppend(x: Bytes, y: Bytes)
    ensures Split(x + y).events == Split(x).events + Split(Split(x).rest + y).events
    ensures Split(x + y).rest == Split(Split(x).rest + y).rest
    decreases |x|
  {
    var cut := Boundary(x);
    if cut.None? {
      assert [] + Split(x + y).events == Split(x + y).events;
    } else {
      var k := cut.value.start + cut.value.width;
      var event := x[..cut.value.start];
      BoundaryIsStable(x, y);
      assert (x + y)[..cut.value.start] == event;
      assert (x + y)[k..] == x[k..] + y;
      SplitAppend(x[k..], y);
      assert Split(x + y).events == [event] + Split(x[k..] + y).events;
      assert Split(x).events == [event] + Split(x[k..]).events;
      Associative([event], Split(x[k..]).events, Split(Split(x).rest + y).events);
    }
  }

  lemma {:induction false} Associative<T>(a: seq<T>, b: seq<T>, c: seq<T>)
    ensures (a + b) + c == a + (b + c)
  {
  }

  /** Whole events followed by whole events. */
  lemma {:induction false} AppendWhole(x: Bytes, y: Bytes)
    requires Split(x).rest == []
    ensures Split(x + y) == Framed(Split(x).events + Split(y).events, Split(y).rest)
  {
    SplitAppend(x, y);
    assert [] + y == y;
  }

  lemma {:induction false} PrependEvent(x: Bytes, n: nat, p: Bytes, q: Bytes)
    requires Boundary(x).Some?
    requires 0 < n <= |Split(AfterFirst(x)).events| + 1
    requires AfterFirst(x) == p + q && Split(p) == Framed(Split(AfterFirst(x)).events[..n - 1], [])
    ensures n <= |Split(x).events|
    ensures x == (FirstEvent(x) + p) + q && Split(FirstEvent(x) + p) == Framed(Split(x).events[..n], [])
  {
    OneEvent(x);
    AppendWhole(FirstEvent(x), p);
    PrefixOfCons(x[..Boundary(x).value.start], Split(AfterFirst(x)).events, n);
    assert x == FirstEvent(x) + AfterFirst(x);
    Associative(FirstEvent(x), p, q);
  }

  /** The bytes of the first event with its delimiter, and the bytes after it. */
  function FirstEvent(x: Bytes): Bytes
    requires Boundary(x).Some?
  {
    x[..Boundary(x).value.start + Boundary(x).value.width]
  }

  function AfterFirst(x: Bytes): Bytes
    requires Boundary(x).Some?
  {
    x[Boundary(x).value.start + Boundary(x).value.width..]
  }

  /** Some prefix of the bytes holds exactly the first `n` events. */
  lemma {:induction false} PrefixOfEvents(x: Bytes, n: nat) returns (p: Bytes, q: Bytes)
    requires n <= |Split(x).events|
    ensures x == p + q && Split(p) == Framed(Split(x).events[..n], [])
    decreases |x|
  {
    if n == 0 {
      p, q := [], x;
      assert Split([]) == Framed([], []);
    } else {
      p, q := PrefixOfEvents(AfterFirst(x), n - 1);
      PrependEvent(x, n, p, q);
      p := FirstEvent(x) + p;
    }
  }

  lemma {:induction false} PrefixOfCons<T>(x: T, s: seq<T>, n: nat)
    requires 0 < n <= |s| + 1
    ensures ([x] + s)[..n] == [x] + s[..n - 1]
  {
  }

  lemma {:induction false} OneEvent(x: Bytes)
    requires Boundary(x).Some?
    ensures var cut := Boundary(x).value;
            Split(x[..cut.start + cut.width]) == Framed([x[..cut.start]], [])
  {
    BoundaryIsFirstCut(x);
    var cut := Boundary(x).value;
    var p, q := x[..cut.start + cut.width], x[cut.start + cut.width..];
    var needle := if cut.width == 2 then LF_LF else CRLF_CRLF;
    assert x == p + q;
    OccursInPrefix(p, q, needle, cut.start);
    forall i: nat | i < cut.start ensures !OccursAt(p, LF_LF, i) && !OccursAt(p, CRLF_CRLF, i) {
      if i + 2 <= |p| {
        OccursInPrefix(p, q, LF_LF, i);
      }
      if i + 4 <= |p| {
        OccursInPrefix(p, q, CRLF_CRLF, i);
      }
    }
    FirstCutIsBoundary(p, cut);
    assert p[cut.start + cut.width..] == [];
    assert p[..cut.start] == x[..cut.start];
    assert Split([]) == Framed([], []);
  }

  // ---------------------------------------------------------------------------------------------
  // Feeding a machine
  // ---------------------------------------------------------------------------------------------

  /** What is said on the first byte, what an event does, and when later chunks are ignored. */
  datatype Machine<!S, !O> = Machine(greeting: seq<O>, step: (S, Bytes) -> (S, seq<O>), stopped: S -> bool)

  datatype Feeder<S> = Feeder(started: bool, buffer: Bytes, core: S)

  function Process<S, O>(m: Machine<S, O>, s: S, events: seq<Bytes>): (S, seq<O>)
    decreases |events|
  {
    if events == [] then (s, [])
    else
      var (s1, out) := m.step(s, events[0]);
      var (s2, outs) := Process(m, s1, events[1..]);
      (s2, out + outs)
  }

  /** One chunk.  The stop is looked at once, before the chunk, and not again between its events. */
  function Feed<S, O>(m: Machine<S, O>, f: Feeder<S>, chunk: Bytes): (Feeder<S>, seq<O>) {
    if m.stopped(f.core) then (f, [])
    else
      var framed := Split(f.buffer + chunk);
      var (core, outs) := Process(m, f.core, framed.events);
      var greeting := if chunk != [] && !f.started then m.greeting else [];
      (Feeder(f.started || chunk != [], framed.rest, core), greeting + outs)
  }

  function FeedAll<S, O>(m: Machine<S, O>, f: Feeder<S>, chunks: seq<Bytes>): (Feeder<S>, seq<O>)
    decreases |chunks|
  {
    if chunks == [] then (f, [])
    else
      var (f1, out) := Feed(m, f, chunks[0]);
      var (f2, outs) := FeedAll(m, f1, chunks[1..]);
      (f2, out + outs)
  }

  function Concat(chunks: seq<Bytes>): Bytes
    decreases |chunks|
  {
    if chunks == [] then [] else chunks[0] + Concat(chunks[1..])
  }

  function Fresh<S>(core: S): Feeder<S> {
    Feeder(false, [], core)
  }

  /** The state and the output, apart from what is left in the buffer. */
  datatype Observed<S, O> = Observed(started: bool, core: S, outs: seq<O>)

  function Observe<S, O>(r: (Feeder<S>, seq<O>)): Observed<S, O> {
    Observed(r.0.started, r.0.core, r.1)
  }

  /** The reference reading of a whole stream: all its events, in order, through the machine. */
  function Read<S, O>(m: Machine<S, O>, s: S, stream: Bytes): Observed<S, O> {
    var (core, outs) := Process(m, s, Split(stream).events);
    Observed(stream != [], core, (if stream != [] then m.greeting else []) + outs)
  }

  /** Every event after the one that stopped the machine leaves it as it is and says nothing. */
  ghost predicate TailIsInert<S, O>(m: Machine<S, O>, s: S, events: seq<Bytes>)
    decreases |events|
  {
    events == [] ||
    if m.stopped(s) then m.step(s, events[0]) == (s, []) && TailIsInert(m, s, events[1..])
    else TailIsInert(m, m.step(s, events[0]).0, events[1..])
  }

  ghost predicate ChunksDoNotMatter<S(!new), O(!new)>(m: Machine<S, O>, s: S, stream: Bytes) {
    forall chunks :: Concat(chunks) == stream ==> Observe(FeedAll(m, Fresh(s), chunks)) == Read(m, s, stream)
  }

  lemma {:induction false} ProcessAppend<S, O>(m: Machine<S, O>, s: S, a: seq<Bytes>, b: seq<Bytes>)
    ensures Process(m, s, a + b).0 == Process(m, Process(m, s, a).0, b).0
    ensures Process(m, s, a + b).1 == Process(m, s, a).1 + Process(m, Process(m, s, a).0, b).1
    decreases |a|
  {
    if a == [] {
      assert a + b == b;
    } else {
      assert (a + b)[0] == a[0] && (a + b)[1..] == a[1..] + b;
      ProcessAppend(m, m.step(s, a[0]).0, a[1..], b);
    }
  }

  /** With an inert tail, nothing happens once the machine has stopped. */
  lemma {:induction false} StoppedIsFinal<S, O>(m: Machine<S, O>, s: S, a: seq<Bytes>, b: seq<Bytes>)
    requires TailIsInert(m, s, a + b)
    requires m.stopped(Process(m, s, a).0)
    ensures Process(m, Process(m, s, a).0, b) == (Process(m, s, a).0, [])
    decreases |a| + |b|
  {
    if a == [] {
      assert a + b == b;
      if b != [] {
        assert a + b[1..] == b[1..];
        StoppedIsFinal(m, s, a, b[1..]);
      }
    } else {
      assert (a + b)[0] == a[0] && (a + b)[1..] == a[1..] + b;
      StoppedIsFinal(m, m.step(s, a[0]).0, a[1..], b);
    }
  }

  /** The feeder agrees with the reading of what it has been given so far. */
  ghost predicate Agrees<S, O>(m: Machine<S, O>, s: S, read: Bytes, f: Feeder<S>, outs: seq<O>) {
    && Observed(f.started, f.core, outs) == Read(m, s, read)
    && (!m.stopped(f.core) ==> f.buffer == Split(read).rest)
  }

  lemma {:induction false} FeedKeepsAgreement<S, O>(m: Machine<S, O>, s: S, read: Bytes, f: Feeder<S>, outs: seq<O>,
                                                    chunk: Bytes, later: Bytes)
    requires Agrees(m, s, read, f, outs)
    requires TailIsInert(m, s, Split(read + chunk + later).events)
    requires !m.stopped(s)
    ensures var (g, more) := Feed(m, f, chunk);
            Agrees(m, s, read + chunk, g, outs + more)
  {
    if m.stopped(f.core) {
      assert read != [];
      StoppedFeed(m, s, read, chunk, later);
      assert outs + [] == outs;
    } else {
      LiveFeed(m, s, read, f, outs, chunk);
    }
  }

  lemma {:induction false} LiveFeed<S, O>(m: Machine<S, O>, s: S, read: Bytes, f: Feeder<S>, outs: seq<O>, chunk: Bytes)
    requires Agrees(m, s, read, f, outs)
    requires !m.stopped(f.core)
    ensures var (g, more) := Feed(m, f, chunk);
            Agrees(m, s, read + chunk, g, outs + more)
  {
    var a := Split(read).events;
    var b := Split(Split(read).rest + chunk).events;
    SplitAppend(read, chunk);
    ProcessAppend(m, s, a, b);
    assert read == [] ==> a == [];
    GreetOnce(m.greeting, read, chunk, Process(m, s, a).1, Process(m, f.core, b).1);
  }

  lemma {:induction false} GreetOnce<O>(greeting: seq<O>, read: Bytes, chunk: Bytes, p: seq<O>, q: seq<O>)
    requires read == [] ==> p == []
    ensures ((if read != [] then greeting else []) + p) + ((if chunk != [] && read == [] then greeting else []) + q) ==
            (if read + chunk != [] then greeting else []) + (p + q)
  {
  }

  /** A chunk that reaches a stopped machine would have changed nothing. */
  lemma {:induction false} StoppedFeed<S, O>(m: Machine<S, O>, s: S, read: Bytes, chunk: Bytes, later: Bytes)
    requires TailIsInert(m, s, Split(read + chunk + later).events)
    requires m.stopped(Process(m, s, Split(read).events).0)
    ensures Process(m, s, Split(read + chunk).events) == Process(m, s, Split(read).events)
  {
    var a := Split(read).events;
    var b := Split(Split(read).rest + chunk).events;
    var c := Split(Split(read + chunk).rest + later).events;
    SplitAppend(read, chunk);
    SplitAppend(read + chunk, later);
    Associative(a, b, c);
    InertPrefix(m, s, a + b, c);
    StoppedIsFinal(m, s, a, b);
    ProcessAppend(m, s, a, b);
    assert Process(m, s, a).1 + [] == Process(m, s, a).1;
  }

  lemma {:induction false} InertPrefix<S, O>(m: Machine<S, O>, s: S, a: seq<Bytes>, b: seq<Bytes>)
    requires TailIsInert(m, s, a + b)
    ensures TailIsInert(m, s, a)
    decreases |a|
  {
    if a != [] {
      assert (a + b)[0] == a[0] && (a + b)[1..] == a[1..] + b;
      InertPrefix(m, if m.stopped(s) then s else m.step(s, a[0]).0, a[1..], b);
    }
  }

  lemma {:induction false} FeedAllKeepsAgreement<S, O>(m: Machine<S, O>, s: S, read: Bytes, f: Feeder<S>, outs: seq<O>,
                                                       chunks: seq<Bytes>)
    requires Agrees(m, s, read, f, outs)
    requires TailIsInert(m, s, Split(read + Concat(chunks)).events)
    requires !m.stopped(s)
    ensures var (g, more) := FeedAll(m, f, chunks);
            Agrees(m, s, read + Concat(chunks), g, outs + more)
    decreases |chunks|
  {
    if chunks == [] {
      assert read + Concat(chunks) == read;
      assert outs + [] == outs;
    } else {
      var later := Concat(chunks[1..]);
      Associative(read, chunks[0], later);
      FeedKeepsAgreement(m, s, read, f, outs, chunks[0], later);
      var (g, more) := Feed(m, f, chunks[0]);
      FeedAllKeepsAgreement(m, s, read + chunks[0], g, outs + more, chunks[1..]);
      Associative(outs, more, FeedAll(m, g, chunks[1..]).1);
    }
  }

  lemma {:induction false} InertTailMakesChunksIrrelevant<S(!new), O(!new)>(m: Machine<S, O>, s: S, stream: Bytes)
    requires !m.stopped(s)
    requires TailIsInert(m, s, Split(stream).events)
    ensures ChunksDoNotMatter(m, s, stream)
  {
    forall chunks | Concat(chunks) == stream
      ensures Observe(FeedAll(m, Fresh(s), chunks)) == Read(m, s, stream)
    {
      assert [] + Concat(chunks) == stream;
      FeedAllKeepsAgreement(m, s, [], Fresh(s), [], chunks);
      var (g, more) := FeedAll(m, Fresh(s), chunks);
      assert [] + more == more;
    }
  }

  // ---------------------------------------------------------------------------------------------
  // However a stream is cut, no more is said than for all of it
  // ---------------------------------------------------------------------------------------------

  lemma {:induction false} StoppedSaysPrefix<S, O>(m: Machine<S, O>, s: S, read: Bytes, outs: seq<O>, later: Bytes)
    returns (rest: seq<O>)
    requires !m.stopped(s) && m.stopped(Read(m, s, read).core) && Read(m, s, read).outs == outs
    ensures outs + rest == Read(m, s, read + later).outs
  {
    assert read == [] ==> Split(read) == Framed([], []);
    var a, b := Split(read).events, Split(Split(read).rest + later).events;
    SplitAppend(read, later);
    ProcessAppend(m, s, a, b);
    rest := Process(m, Process(m, s, a).0, b).1;
    Associative(m.greeting, Process(m, s, a).1, rest);
  }

  lemma {:induction false} FeedAllSaysPrefix<S, O>(m: Machine<S, O>, s: S, read: Bytes, f: Feeder<S>, outs: seq<O>,
                                                   chunks: seq<Bytes>) returns (rest: seq<O>)
    requires !m.stopped(s) && Agrees(m, s, read, f, outs)
    ensures (outs + FeedAll(m, f, chunks).1) + rest == Read(m, s, read + Concat(chunks)).outs
    decreases |chunks|
  {
    if m.stopped(f.core) {
      StoppedFeedAll(m, f, chunks);
      rest := StoppedSaysPrefix(m, s, read, outs, Concat(chunks));
      assert outs + [] == outs;
    } else if chunks == [] {
      rest := [];
      assert read + Concat(chunks) == read;
      assert (outs + []) + [] == outs;
    } else {
      LiveFeed(m, s, read, f, outs, chunks[0]);
      var (g, more) := Feed(m, f, chunks[0]);
      rest := FeedAllSaysPrefix(m, s, read + chunks[0], g, outs + more, chunks[1..]);
      Associative(outs, more, FeedAll(m, g, chunks[1..]).1);
      Associative(read, chunks[0], Concat(chunks[1..]));
    }
  }

  /** Whatever the cuts, what is said is the beginning of what the reading of the whole stream says. */
  lemma {:induction false} ChunksSayPrefix<S, O>(m: Machine<S, O>, s: S, chunks: seq<Bytes>) returns (rest: seq<O>)
    requires !m.stopped(s)
    ensures FeedAll(m, Fresh(s), chunks).1 + rest == Read(m, s, Concat(chunks)).outs
  {
    assert Split([]) == Framed([], []);
    rest := FeedAllSaysPrefix(m, s, [], Fresh(s), [], chunks);
    assert [] + FeedAll(m, Fresh(s), chunks).1 == FeedAll(m, Fresh(s), chunks).1;
    assert [] + Concat(chunks) == Concat(chunks);
  }

  /** In one piece all of it is said. */
  lemma {:induction false} OnePieceSaysAll<S, O>(m: Machine<S, O>, s: S, stream: Bytes)
    requires !m.stopped(s)
    ensures Concat([stream]) == stream
    ensures FeedAll(m, Fresh(s), [stream]).1 == Read(m, s, stream).outs
  {
    assert [stream][1..] == [] && stream + [] == stream && [] + stream == stream;
    var (g, more) := Feed(m, Fresh(s), stream);
    assert FeedAll(m, g, []).1 == [] && more + [] == more;
  }

  /** An event without a line feed, then a delimiter. */
  lemma {:induction false} PlainEvent(event: Bytes, rest: Bytes)
    requires LF !in event
    ensures Split(event + LF_LF + rest) == Framed([event] + Split(rest).events, Split(rest).rest)
  {
    var s := event + LF_LF + rest;
    var cut := Cut(|event|, 2);
    LfLfAt(s, |event|);
    forall i: nat | i < |event| ensures !OccursAt(s, LF_LF, i) && !OccursAt(s, CRLF_CRLF, i) {
      LfLfAt(s, i);
      CrlfCrlfAt(s, i);
      assert s[i] == event[i];
      if i + 1 < |event| {
        assert s[i + 1] == event[i + 1];
      } else {
        assert s[i + 2] == LF;
      }
    }
    FirstCutIsBoundary(s, cut);
    assert s[..|event|] == event && s[|event| + 2..] == rest;
  }

  // ---------------------------------------------------------------------------------------------
  // And only then
  // ---------------------------------------------------------------------------------------------

  /** The first event after the stop that does something. */
  lemma {:induction false} FirstLoudEvent<S, O>(m: Machine<S, O>, s: S, events: seq<Bytes>)
    returns (stop: nat, loud: nat)
    requires !TailIsInert(m, s, events)
    ensures stop <= loud < |events|
    ensures m.stopped(Process(m, s, events[..stop]).0)
    ensures Process(m, s, events[..loud]) == Process(m, s, events[..stop])
    ensures m.step(Process(m, s, events[..stop]).0, events[loud]) != (Process(m, s, events[..stop]).0, [])
    decreases |events|
  {
    if m.stopped(s) && m.step(s, events[0]) != (s, []) {
      stop, loud := 0, 0;
    } else if m.stopped(s) {
      var p, q := FirstLoudEvent(m, s, events[1..]);
      stop, loud := p + 1, q + 1;
      ProcessTake(m, s, events, stop);
      ProcessTake(m, s, events, loud);
    } else {
      var p, q := FirstLoudEvent(m, m.step(s, events[0]).0, events[1..]);
      stop, loud := p + 1, q + 1;
      ProcessTake(m, s, events, stop);
      ProcessTake(m, s, events, loud);
    }
  }

  lemma {:induction false} ProcessTake<S, O>(m: Machine<S, O>, s: S, events: seq<Bytes>, n: nat)
    requires 0 < n <= |events|
    ensures var (s1, out) := m.step(s, events[0]);
            var (s2, outs) := Process(m, s1, events[1..][..n - 1]);
            Process(m, s, events[..n]) == (s2, out + outs)
  {
    assert events[..n][0] == events[0] && events[..n][1..] == events[1..][..n - 1];
  }

  /** The machine never leaves the stopped states. */
  ghost predicate StopsForGood<S(!new), O>(m: Machine<S, O>) {
    forall s, e :: m.stopped(s) ==> m.stopped(m.step(s, e).0)
  }

  lemma {:induction false} StoppedFeedAll<S, O>(m: Machine<S, O>, f: Feeder<S>, chunks: seq<Bytes>)
    requires m.stopped(f.core)
    ensures FeedAll(m, f, chunks).0 == f && FeedAll(m, f, chunks).1 == []
    decreases |chunks|
  {
    if chunks != [] {
      StoppedFeedAll(m, f, chunks[1..]);
      assert Feed(m, f, chunks[0]) == (f, []);
      assert FeedAll(m, f, chunks).1 == [] + FeedAll(m, f, chunks[1..]).1;
    }
  }

  /** A stream cut where the machine has stopped is read up to the cut. */
  lemma {:induction false} CutAtStop<S, O>(m: Machine<S, O>, s: S, p: Bytes, q: Bytes)
    requires !m.stopped(s) && m.stopped(Read(m, s, p).core)
    ensures Concat([p, q]) == p + q
    ensures Observe(FeedAll(m, Fresh(s), [p, q])) == Read(m, s, p)
  {
    var chunks := [p, q];
    assert Concat([q]) == q + Concat([]) == q;
    assert chunks[1..] == [q];
    assert [] + p == p;
    assert p == [] ==> Split(p) == Framed([], []);
    var (g, more) := Feed(m, Fresh(s), p);
    assert Observe((g, more)) == Read(m, s, p);
    StoppedFeedAll(m, g, [q]);
    assert FeedAll(m, Fresh(s), chunks).1 == more + FeedAll(m, g, [q]).1 == more;
  }

  lemma {:induction false} TwoReadings<S(!new), O(!new)>(m: Machine<S, O>, s: S, stream: Bytes, a: seq<Bytes>,
                                         b: seq<Bytes>)
    requires Concat(a) == stream && Concat(b) == stream
    requires Observe(FeedAll(m, Fresh(s), a)) != Observe(FeedAll(m, Fresh(s), b))
    ensures !ChunksDoNotMatter(m, s, stream)
  {
  }

  /** A stream cut right after the stop and the same stream cut right after the loud event differ. */
  lemma {:induction false} LoudTailShowsChunks<S(!new), O(!new)>(m: Machine<S, O>, s: S, stream: Bytes)
    requires StopsForGood(m)
    requires !m.stopped(s)
    requires !TailIsInert(m, s, Split(stream).events)
    ensures !ChunksDoNotMatter(m, s, stream)
  {
    var stop, loud := FirstLoudEvent(m, s, Split(stream).events);
    var p, p' := PrefixOfEvents(stream, stop);
    var q, q' := PrefixOfEvents(stream, loud + 1);
    LoudReadsDiffer(m, s, Split(stream).events, stop, loud, p, q);
    CutAtStop(m, s, p, p');
    CutAtStop(m, s, q, q');
    TwoReadings(m, s, stream, [p, p'], [q, q']);
  }

  lemma {:induction false} LoudReadsDiffer<S(!new), O>(m: Machine<S, O>, s: S, events: seq<Bytes>, stop: nat,
                                             loud: nat, x: Bytes, y: Bytes)
    requires StopsForGood(m) && !m.stopped(s)
    requires stop <= loud < |events|
    requires m.stopped(Process(m, s, events[..stop]).0)
    requires Process(m, s, events[..loud]) == Process(m, s, events[..stop])
    requires m.step(Process(m, s, events[..stop]).0, events[loud]) != (Process(m, s, events[..stop]).0, [])
    requires Split(x).events == events[..stop] && Split(y).events == events[..loud + 1]
    ensures Read(m, s, x) != Read(m, s, y)
    ensures m.stopped(Read(m, s, x).core) && m.stopped(Read(m, s, y).core)
  {
    ReadPastLoud(m, s, events, stop, loud);
    var (t, said) := Process(m, s, events[..stop]);
    var (t', more) := m.step(t, events[loud]);
    assert stop > 0;
    assert x != [] && y != [];
    DifferentReads(m.greeting, t, said, t', more);
  }

  lemma {:induction false} DifferentReads<S, O>(greeting: seq<O>, t: S, said: seq<O>, t': S, more: seq<O>)
    requires (t', more) != (t, [])
    ensures Observed(true, t, greeting + said) != Observed(true, t', greeting + (said + more))
  {
    assert |greeting + said| == |greeting + (said + more)| ==> more == [];
  }

  lemma {:induction false} ReadPastLoud<S(!new), O>(m: Machine<S, O>, s: S, events: seq<Bytes>, stop: nat, loud: nat)
    requires StopsForGood(m)
    requires stop <= loud < |events|
    requires m.stopped(Process(m, s, events[..stop]).0)
    requires Process(m, s, events[..loud]) == Process(m, s, events[..stop])
    ensures var (t, said) := Process(m, s, events[..stop]);
            var (t', more) := m.step(t, events[loud]);
            Process(m, s, events[..loud + 1]) == (t', said + more) && m.stopped(t')
  {
    var t := Process(m, s, events[..stop]).0;
    assert events[..loud + 1] == events[..loud] + [events[loud]];
    ProcessAppend(m, s, events[..loud], [events[loud]]);
    ProcessOne(m, t, events[loud]);
  }

  lemma {:induction false} ProcessOne<S, O>(m: Machine<S, O>, s: S, event: Bytes)
    ensures Process(m, s, [event]) == m.step(s, event)
  {
    assert [event][1..] == [];
    assert m.step(s, event).1 + [] == m.step(s, event).1;
  }

  /**
    How a stream is cut into chunks is invisible in the output and in the state exactly when every
    complete event after the one that stopped the machine is inert.
   */
  lemma {:induction false} ChunksDoNotMatterExactly<S(!new), O(!new)>(m: Machine<S, O>, s: S, stream: Bytes)
    requires StopsForGood(m)
    requires !m.stopped(s)
    ensures ChunksDoNotMatter(m, s, stream) <==> TailIsInert(m, s, Split(stream).events)
  {
    if TailIsInert(m, s, Split(stream).events) {
      InertTailMakesChunksIrrelevant(m, s, stream);
    } else {
      LoudTailShowsChunks(m, s, stream);
    }
  }
}
