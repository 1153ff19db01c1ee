/** `ProviderAdmissionLedger` in `src/ficelle/provider_admission.py`: a rolling request-per-minute guard. */
module ProviderAdmission {
  /* It is overridden while a provider's own rate-limit headers are in force.  Time is a real number. */
  import opened Wrappers

  const WINDOW: real := 60.0
  const HEADROOM: real := 0.9

  datatype Key = Key(space: string, source: string, scope: string)

  datatype Observed = Observed(limit: int, remaining: int, resetAt: real)

  datatype Decision = Decision(
    allowed: bool,
    retryAfter: Option<int>,
    limit: Option<int>,
    remaining: Option<int>,
    source: string
  )

  datatype Ledger = Ledger(requests: map<Key, seq<real>>, observed: map<Key, Observed>)

  const EMPTY: Ledger := Ledger(map[], map[])

  function Ceil(x: real): int {
    -((-x).Floor)
  }

  function AtLeastOne(n: int): int {
    if n < 1 then 1 else n
  }

  /** `_limit`, once the configured value has been read as a finite number. */
  function Limit(rpm: Option<real>): (limit: Option<nat>)
    ensures limit.Some? ==> limit.value >= 1
  {
    if rpm.None? || rpm.value <= 0.0 then None else Some(AtLeastOne((rpm.value * HEADROOM).Floor))
  }

  /** The `popleft` loop. */
  function DropOld(rows: seq<real>, cutoff: real): seq<real> {
    if rows == [] || rows[0] > cutoff then rows else DropOld(rows[1..], cutoff)
  }

  function Rows(l: Ledger, key: Key): seq<real> {
    if key in l.requests then l.requests[key] else []
  }

  /** The part of `reserve` that looks at the declared limit. */
  function ReserveDeclared(l: Ledger, key: Key, rpm: Option<real>, now: real): (Ledger, Decision) {
    match Limit(rpm)
    case None => (l, Decision(true, None, None, None, "unknown_limit"))
    case Some(limit) =>
      var rows := DropOld(Rows(l, key), now - WINDOW);
      if |rows| >= limit then
        (l.(requests := l.requests[key := rows]),
         Decision(false, Some(AtLeastOne(Ceil(rows[0] + WINDOW - now))), Some(limit), Some(0), "declared_rpm"))
      else
        (l.(requests := l.requests[key := rows + [now]]),
         Decision(true, None, Some(limit), Some(limit - (|rows| + 1)), "declared_rpm"))
  }

  function Reserve(l: Ledger, key: Key, rpm: Option<real>, now: real): (Ledger, Decision) {
    if key !in l.observed then ReserveDeclared(l, key, rpm, now)
    else
      var o := l.observed[key];
      if o.resetAt <= now then ReserveDeclared(l.(observed := l.observed - {key}), key, rpm, now)
      else if o.remaining <= 0 then
        (l, Decision(false, Some(AtLeastOne(Ceil(o.resetAt - now))), Some(o.limit), Some(0), "provider_headers"))
      else
        (l.(observed := l.observed[key := o.(remaining := o.remaining - 1)]),
         Decision(true, None, Some(o.limit), Some(o.remaining - 1), "provider_headers"))
  }

  /** The headers of a response, once read: unusable ones change nothing. */
  datatype Headers = Headers(limit: int, remaining: int, reset: Option<real>)

  function Observe(l: Ledger, key: Key, h: Headers, now: real): Ledger {
    if h.limit <= 0 || h.remaining < 0 || h.reset.None? then l
    else
      var remaining := if h.remaining < h.limit then h.remaining else h.limit;
      l.(observed := l.observed[key := Observed(h.limit, remaining, now + h.reset.value)])
  }

  /** The ledger itself. */
  class ProviderAdmissionLedger {
    var requests: map<Key, seq<real>>
    var observed: map<Key, Observed>

    function State(): Ledger
      reads this
    {
      Ledger(requests, observed)
    }

    constructor ()
      ensures State() == EMPTY
    {
      requests, observed := map[], map[];
    }

    method ReserveSlot(key: Key, rpm: Option<real>, now: real) returns (d: Decision)
      modifies this
      ensures (State(), d) == Reserve(old(State()), key, rpm, now)
    {
      if key in observed {
        var o := observed[key];
        if o.resetAt <= now {
          observed := observed - {key};
        } else if o.remaining <= 0 {
          return Decision(false, Some(AtLeastOne(Ceil(o.resetAt - now))), Some(o.limit), Some(0), "provider_headers");
        } else {
          observed := observed[key := o.(remaining := o.remaining - 1)];
          return Decision(true, None, Some(o.limit), Some(o.remaining - 1), "provider_headers");
        }
      }
      var limit := Limit(rpm);
      if limit.None? {
        return Decision(true, None, None, None, "unknown_limit");
      }
      var rows := if key in requests then requests[key] else [];
      ghost var before := rows;
      while rows != [] && rows[0] <= now - WINDOW
        invariant DropOld(rows, now - WINDOW) == DropOld(before, now - WINDOW)
        decreases |rows|
      {
        rows := rows[1..];
      }
      if |rows| >= limit.value {
        requests := requests[key := rows];
        return Decision(false, Some(AtLeastOne(Ceil(rows[0] + WINDOW - now))), Some(limit.value), Some(0),
            "declared_rpm");
      }
      rows := rows + [now];
      requests := requests[key := rows];
      return Decision(true, None, Some(limit.value), Some(limit.value - |rows|), "declared_rpm");
    }

    method ObserveHeaders(key: Key, h: Headers, now: real)
      modifies this
      ensures State() == Observe(old(State()), key, h, now)
    {
      if h.limit <= 0 || h.remaining < 0 || h.reset.None? {
        return;
      }
      observed := observed[key :=
          Observed(h.limit, if h.remaining < h.limit then h.remaining else h.limit, now + h.reset.value)];
    }
  }

  // ---------------------------------------------------------------------------------------------
  // Runs
  // ---------------------------------------------------------------------------------------------

  datatype Op = Reserving(key: Key, rpm: Option<real>, now: real) | Observing(key: Key, headers: Headers, now: real)

  function After(l: Ledger, op: Op): Ledger {
    match op
    case Reserving(key, rpm, now) => Reserve(l, key, rpm, now).0
    case Observing(key, headers, now) => Observe(l, key, headers, now)
  }

  function Run(l: Ledger, ops: seq<Op>): Ledger
    decreases |ops|
  {
    if ops == [] then l else Run(After(l, ops[0]), ops[1..])
  }

  /** The operation admits a call of this key under the declared limit. */
  predicate AdmitsDeclared(l: Ledger, op: Op, key: Key) {
    && op.Reserving? && op.key == key
    && Reserve(l, op.key, op.rpm, op.now).1.allowed
    && Reserve(l, op.key, op.rpm, op.now).1.source == "declared_rpm"
  }

  /** The times at which a run admits calls of a key under the declared limit. */
  function Admissions(l: Ledger, ops: seq<Op>, key: Key): seq<real>
    decreases |ops|
  {
    if ops == [] then []
    else (if AdmitsDeclared(l, ops[0], key) then [ops[0].now] else []) + Admissions(After(l, ops[0]), ops[1..], key)
  }

  /** The clock does not go back. */
  predicate ClockRuns(start: real, ops: seq<Op>)
    decreases |ops|
  {
    ops == [] || (start <= ops[0].now && ClockRuns(ops[0].now, ops[1..]))
  }

  /** The clock after a run. */
  function Ending(start: real, ops: seq<Op>): real
    decreases |ops|
  {
    if ops == [] then start else Ending(ops[0].now, ops[1..])
  }

  /** Every reservation for the key is made under the same configured limit. */
  ghost predicate FixedLimit(ops: seq<Op>, key: Key, n: nat) {
    forall op :: op in ops && op.Reserving? && op.key == key ==> Limit(op.rpm) == Some(n)
  }

  // ---------------------------------------------------------------------------------------------
  // The sliding window
  // ---------------------------------------------------------------------------------------------

  ghost predicate Ascending(xs: seq<real>) {
    forall i, j :: 0 <= i < j < |xs| ==> xs[i] <= xs[j]
  }

  /** Admissions `n` apart are at least a window apart. */
  ghost predicate Spaced(adm: seq<real>, n: nat) {
    forall i, j :: 0 <= i && i + n <= j < |adm| ==> adm[i] + WINDOW <= adm[j]
  }

  /** The deque holds the admissions of the last window, and everything dropped is older. */
  ghost predicate Windowed(adm: seq<real>, rows: seq<real>, n: nat, now: real) {
    && |rows| <= n && |rows| <= |adm|
    && adm[|adm| - |rows|..] == rows
    && (forall i :: 0 <= i < |adm| - |rows| ==> adm[i] <= now - WINDOW)
    && (forall i :: 0 <= i < |adm| ==> adm[i] <= now)
    && Ascending(adm) && Spaced(adm, n)
  }

  lemma {:induction false} DropOldIsSuffix(rows: seq<real>, cutoff: real) returns (k: nat)
    ensures k <= |rows| && DropOld(rows, cutoff) == rows[k..]
    ensures forall i :: 0 <= i < k ==> rows[i] <= cutoff
    ensures k < |rows| ==> rows[k] > cutoff
    decreases |rows|
  {
    if rows == [] || rows[0] > cutoff {
      k := 0;
    } else {
      var j := DropOldIsSuffix(rows[1..], cutoff);
      k := j + 1;
    }
  }

  /** Dropping what has left the window keeps the picture. */
  lemma {:induction false} DropKeepsWindow(adm: seq<real>, rows: seq<real>, n: nat, before: real, now: real)
    requires Windowed(adm, rows, n, before) && before <= now
    ensures Windowed(adm, DropOld(rows, now - WINDOW), n, now)
  {
    var k := DropOldIsSuffix(rows, now - WINDOW);
    var d := |adm| - |rows|;
    assert forall i :: 0 <= i < |rows| ==> rows[i] == adm[d + i];
    assert adm[d + k..] == rows[k..];
    forall i | 0 <= i < d + k ensures adm[i] <= now - WINDOW {
      if i >= d {
        assert adm[i] == rows[i - d];
      }
    }
  }

  lemma {:induction false} AdmitKeepsWindow(adm: seq<real>, rows: seq<real>, n: nat, now: real)
    requires Windowed(adm, rows, n, now) && |rows| < n
    ensures Windowed(adm + [now], rows + [now], n, now)
  {
    var grown := adm + [now];
    assert grown[|grown| - |rows| - 1..] == rows + [now];
  }

  lemma {:induction false} ReserveKeepsWindow(l: Ledger, key: Key, rpm: Option<real>, n: nat, adm: seq<real>,
                                              before: real, now: real)
    requires Limit(rpm) == Some(n)
    requires Windowed(adm, Rows(l, key), n, before) && before <= now
    ensures var op := Reserving(key, rpm, now);
            var l' := After(l, op);
            Windowed(if AdmitsDeclared(l, op, key) then adm + [now] else adm, Rows(l', key), n, now)
  {
    var rows := DropOld(Rows(l, key), now - WINDOW);
    DropKeepsWindow(adm, Rows(l, key), n, before, now);
    LaterKeepsWindow(adm, Rows(l, key), n, before, now);
    DeclaredRows(l, key, rpm, now);
    if |rows| < n {
      AdmitKeepsWindow(adm, rows, n, now);
    }
  }

  /** What a reservation does to the deque of its key. */
  lemma {:induction false} DeclaredRows(l: Ledger, key: Key, rpm: Option<real>, now: real)
    requires Limit(rpm).Some?
    ensures var op := Reserving(key, rpm, now);
            var dropped := DropOld(Rows(l, key), now - WINDOW);
            var live := key in l.observed && l.observed[key].resetAt > now;
            && (AdmitsDeclared(l, op, key) <==> !live && |dropped| < Limit(rpm).value)
            && Rows(After(l, op), key) ==
               if live then Rows(l, key) else if AdmitsDeclared(l, op, key) then dropped + [now] else dropped
  {
  }

  lemma {:induction false} OtherKeepsRows(l: Ledger, op: Op, key: Key)
    requires !(op.Reserving? && op.key == key)
    ensures Rows(After(l, op), key) == Rows(l, key) && !AdmitsDeclared(l, op, key)
  {
  }

  lemma {:induction false} StepKeepsWindow(l: Ledger, op: Op, key: Key, n: nat, adm: seq<real>, now: real)
    requires now <= op.now && (op.Reserving? && op.key == key ==> Limit(op.rpm) == Some(n))
    requires Windowed(adm, Rows(l, key), n, now)
    ensures Windowed(adm + if AdmitsDeclared(l, op, key) then [op.now] else [], Rows(After(l, op), key), n, op.now)
  {
    assert adm + [] == adm;
    if op.Reserving? && op.key == key {
      ReserveKeepsWindow(l, key, op.rpm, n, adm, now, op.now);
    } else {
      OtherKeepsRows(l, op, key);
      LaterKeepsWindow(adm, Rows(l, key), n, now, op.now);
    }
  }

  lemma {:induction false} LaterKeepsWindow(adm: seq<real>, rows: seq<real>, n: nat, before: real, now: real)
    requires Windowed(adm, rows, n, before) && before <= now
    ensures Windowed(adm, rows, n, now)
  {
  }

  lemma {:induction false} Associative(a: seq<real>, b: seq<real>, c: seq<real>)
    ensures (a + b) + c == a + (b + c)
  {
  }

  lemma {:induction false} RunKeepsWindow(l: Ledger, ops: seq<Op>, key: Key, n: nat, adm: seq<real>, now: real)
    requires ClockRuns(now, ops) && FixedLimit(ops, key, n)
    requires Windowed(adm, Rows(l, key), n, now)
    ensures Windowed(adm + Admissions(l, ops, key), Rows(Run(l, ops), key), n, Ending(now, ops))
    decreases |ops|
  {
    if ops == [] {
      assert adm + [] == adm;
    } else {
      var op := ops[0];
      var admitted := if AdmitsDeclared(l, op, key) then [op.now] else [];
      StepKeepsWindow(l, op, key, n, adm, now);
      RunKeepsWindow(After(l, op), ops[1..], key, n, adm + admitted, op.now);
      Associative(adm, admitted, Admissions(After(l, op), ops[1..], key));
    }
  }

  predicate InWindow(x: real, t: real) {
    t <= x < t + 60.0
  }

  /** The number of admissions in the half-open window that starts at `t`. */
  function CountInWindow(adm: seq<real>, t: real): nat
    decreases |adm|
  {
    if adm == [] then 0 else (if InWindow(adm[0], t) then 1 else 0) + CountInWindow(adm[1..], t)
  }

  lemma {:induction false} FirstOnlyInWindow(adm: seq<real>, n: nat, t: real)
    requires forall i :: n <= i < |adm| ==> !InWindow(adm[i], t)
    ensures CountInWindow(adm, t) <= n
    decreases |adm|
  {
    if adm != [] {
      FirstOnlyInWindow(adm[1..], if n == 0 then 0 else n - 1, t);
    }
  }

  lemma {:induction false} SpacedFillsNoWindow(adm: seq<real>, n: nat, t: real)
    requires Ascending(adm) && Spaced(adm, n)
    ensures CountInWindow(adm, t) <= n
    decreases |adm|
  {
    if adm == [] {
    } else if InWindow(adm[0], t) {
      assert forall i :: n <= i < |adm| ==> adm[0] + WINDOW <= adm[i];
      FirstOnlyInWindow(adm, n, t);
    } else {
      TailIsSpaced(adm, n);
      SpacedFillsNoWindow(adm[1..], n, t);
    }
  }

  lemma {:induction false} TailIsSpaced(adm: seq<real>, n: nat)
    requires adm != [] && Ascending(adm) && Spaced(adm, n)
    ensures Ascending(adm[1..]) && Spaced(adm[1..], n)
  {
    var tail := adm[1..];
    forall i, j | 0 <= i && i + n <= j < |tail| ensures tail[i] + WINDOW <= tail[j] {
      assert adm[i + 1] + WINDOW <= adm[j + 1];
    }
  }

  lemma {:induction false} FromEmptyKeepsWindow(ops: seq<Op>, start: real, key: Key, n: nat)
    requires ClockRuns(start, ops) && FixedLimit(ops, key, n)
    ensures Windowed(Admissions(EMPTY, ops, key), Rows(Run(EMPTY, ops), key), n, Ending(start, ops))
  {
    RunKeepsWindow(EMPTY, ops, key, n, [], start);
    assert [] + Admissions(EMPTY, ops, key) == Admissions(EMPTY, ops, key);
  }

  /**
    In every run with a clock that does not go back and a fixed limit for the key, every half-open
    minute holds at most that many admissions under the declared limit.
   */
  lemma {:induction false} SlidingWindowBound(ops: seq<Op>, start: real, key: Key, n: nat, t: real)
    requires ClockRuns(start, ops) && FixedLimit(ops, key, n)
    ensures CountInWindow(Admissions(EMPTY, ops, key), t) <= n
  {
    FromEmptyKeepsWindow(ops, start, key, n);
    SpacedFillsNoWindow(Admissions(EMPTY, ops, key), n, t);
  }

  /** The configured headroom: the largest number that is one or at most nine tenths of the configured rate. */
  lemma {:induction false} LimitHasHeadroom(rpm: real, m: nat)
    requires rpm > 0.0
    ensures m <= Limit(Some(rpm)).value <==> m <= 1 || 10.0 * m as real <= 9.0 * rpm
  {
    var share := rpm * HEADROOM;
    assert share.Floor as real <= share < share.Floor as real + 1.0;
  }

  /** Who decided, and what the caller is told is left. */
  lemma {:induction false} DecisionSays(l: Ledger, key: Key, rpm: Option<real>, now: real)
    ensures var (l', d) := Reserve(l, key, rpm, now);
            && (d.allowed ==> d.retryAfter == None)
            && if key in l.observed && l.observed[key].resetAt > now then
                 var o := l.observed[key];
                 && d.source == "provider_headers" && d.limit == Some(o.limit)
                 && d.remaining == Some(if o.remaining > 0 then o.remaining - 1 else 0)
               else if rpm.None? || rpm.value <= 0.0 then
                 d == Decision(true, None, None, None, "unknown_limit") && l'.requests == l.requests
               else
                 && d.source == "declared_rpm" && d.limit == Some(Limit(rpm).value)
                 && Rows(l', key) == Dropped(l, key, now) + (if d.allowed then [now] else [])
                 && d.remaining == Some(if d.allowed then Limit(rpm).value - |Rows(l', key)| else 0)
  {
  }

  // ---------------------------------------------------------------------------------------------
  // Retry-after
  // ---------------------------------------------------------------------------------------------

  /** An observation of the key is in force. */
  predicate Live(l: Ledger, key: Key, now: real) {
    key in l.observed && l.observed[key].resetAt > now
  }

  predicate RefusedAs(d: Decision, source: string) {
    !d.allowed && d.source == source
  }

  /** The declared limit, if there is one, would admit a call at this time. */
  predicate HasRoom(rows: seq<real>, rpm: Option<real>, now: real) {
    Limit(rpm).None? || |DropOld(rows, now - WINDOW)| < Limit(rpm).value
  }

  /** The key, left alone after a reservation, is admitted `k` whole seconds later. */
  predicate AdmittedAfter(l: Ledger, key: Key, rpm: Option<real>, now: real, k: nat) {
    Reserve(Reserve(l, key, rpm, now).0, key, rpm, now + k as real).1.allowed
  }

  /** What the key is told is true: it is admitted exactly from that second on. */
  ghost predicate RetryIsLeast(l: Ledger, key: Key, rpm: Option<real>, now: real) {
    var told := Reserve(l, key, rpm, now).1.retryAfter;
    && told.Some? && told.value >= 1
    && forall k: nat :: AdmittedAfter(l, key, rpm, now, k) <==> k >= told.value
  }

  lemma {:induction false} CeilIsLeast(x: real, k: int)
    ensures k >= Ceil(x) <==> k as real >= x
  {
    assert (-k) as real == -(k as real);
  }

  /** The deque of a key as a reservation finds it. */
  function Dropped(l: Ledger, key: Key, now: real): seq<real> {
    DropOld(Rows(l, key), now - WINDOW)
  }

  /** The whole seconds until an entry leaves the window. */
  function Due(x: real, now: real): int {
    Ceil(x + WINDOW - now)
  }

  /** Without an observation in force the declared limit decides, whether one has expired or not. */
  lemma {:induction false} DeclaredDecides(l: Ledger, key: Key, rpm: Option<real>, now: real)
    requires !Live(l, key, now)
    ensures var (l', d) := Reserve(l, key, rpm, now);
            && key !in l'.observed
            && (d.allowed <==> HasRoom(Rows(l, key), rpm, now))
            && (!d.allowed ==> Rows(l', key) == Dropped(l, key, now))
  {
  }

  /** What a refusal under the declared limit found and said. */
  lemma {:induction false} DeclaredRefusal(l: Ledger, key: Key, rpm: Option<real>, now: real)
    requires RefusedAs(Reserve(l, key, rpm, now).1, "declared_rpm")
    ensures !Live(l, key, now) && Limit(rpm).Some? && |Dropped(l, key, now)| >= Limit(rpm).value
    ensures Dropped(l, key, now)[0] > now - WINDOW
    ensures Reserve(l, key, rpm, now).1.retryAfter == Some(Due(Dropped(l, key, now)[0], now))
  {
    var k := DropOldIsSuffix(Rows(l, key), now - WINDOW);
    CeilIsLeast(Dropped(l, key, now)[0] + WINDOW - now, 0);
  }

  /** In a sequence in order, as many as `n` are left exactly as long as the `n`-th last is. */
  lemma {:induction false} DropsInOrder(rows: seq<real>, n: nat, cutoff: real)
    requires Ascending(rows) && 1 <= n <= |rows|
    ensures |DropOld(rows, cutoff)| < n <==> rows[|rows| - n] <= cutoff
  {
    var k := DropOldIsSuffix(rows, cutoff);
  }

  lemma {:induction false} WindowDrains(rows: seq<real>, n: nat, now: real, k: nat)
    requires Ascending(rows) && 1 <= n <= |rows|
    ensures |DropOld(rows, now + k as real - WINDOW)| < n <==> k >= Due(rows[|rows| - n], now)
  {
    DropsInOrder(rows, n, now + k as real - WINDOW);
    CeilIsLeast(rows[|rows| - n] + WINDOW - now, k);
  }

  /** The entries of a deque are in order and not in the future. */
  ghost predicate Ordered(rows: seq<real>, now: real) {
    Ascending(rows) && forall i :: 0 <= i < |rows| ==> rows[i] <= now
  }

  lemma {:induction false} DropKeepsOrder(rows: seq<real>, cutoff: real, now: real)
    requires Ordered(rows, now)
    ensures Ordered(DropOld(rows, cutoff), now)
  {
    var k := DropOldIsSuffix(rows, cutoff);
  }

  lemma {:induction false} AppendKeepsOrder(rows: seq<real>, before: real, now: real)
    requires Ordered(rows, before) && before <= now
    ensures Ordered(rows, now) && Ordered(rows + [now], now)
  {
  }

  lemma {:induction false} StepKeepsOrder(l: Ledger, op: Op, key: Key, now: real)
    requires now <= op.now && Ordered(Rows(l, key), now)
    ensures Ordered(Rows(After(l, op), key), op.now)
  {
    AppendKeepsOrder(Rows(l, key), now, op.now);
    if !(op.Reserving? && op.key == key) {
      OtherKeepsRows(l, op, key);
    } else if Limit(op.rpm).Some? {
      DropKeepsOrder(Rows(l, key), op.now - WINDOW, now);
      AppendKeepsOrder(Dropped(l, key, op.now), now, op.now);
      DeclaredRows(l, key, op.rpm, op.now);
    }
  }

  lemma {:induction false} RunKeepsOrder(l: Ledger, ops: seq<Op>, key: Key, now: real)
    requires ClockRuns(now, ops) && Ordered(Rows(l, key), now)
    ensures Ordered(Rows(Run(l, ops), key), Ending(now, ops))
    decreases |ops|
  {
    if ops != [] {
      StepKeepsOrder(l, ops[0], key, now);
      RunKeepsOrder(After(l, ops[0]), ops[1..], key, ops[0].now);
    }
  }

  /** After a refusal under the declared limit the key is admitted once the entry that leaves room is out. */
  lemma {:induction false} DeclaredAdmitsFrom(l: Ledger, key: Key, rpm: Option<real>, n: nat, now: real, k: nat)
    requires Ascending(Dropped(l, key, now)) && Limit(rpm) == Some(n) && |Dropped(l, key, now)| >= n
    requires RefusedAs(Reserve(l, key, rpm, now).1, "declared_rpm")
    ensures AdmittedAfter(l, key, rpm, now, k) <==> k >= Due(Dropped(l, key, now)[|Dropped(l, key, now)| - n], now)
  {
    var rows := Dropped(l, key, now);
    var l' := Reserve(l, key, rpm, now).0;
    DeclaredRefusal(l, key, rpm, now);
    DeclaredDecides(l, key, rpm, now);
    DeclaredDecides(l', key, rpm, now + k as real);
    WindowDrains(rows, n, now, k);
  }

  /**
    Whatever the limits along the run were, a key that is refused under the declared limit is told
    the truth exactly when the oldest entry and the one that leaves room are due at the same second.
   */
  lemma {:induction false} DeclaredRetryExactly(ops: seq<Op>, start: real, key: Key, rpm: Option<real>, now: real)
    requires ClockRuns(start, ops) && Ending(start, ops) <= now
    requires RefusedAs(Reserve(Run(EMPTY, ops), key, rpm, now).1, "declared_rpm")
    ensures var rows := Dropped(Run(EMPTY, ops), key, now);
            && Limit(rpm).Some? && |rows| >= Limit(rpm).value
            && (RetryIsLeast(Run(EMPTY, ops), key, rpm, now) <==>
                Due(rows[|rows| - Limit(rpm).value], now) == Due(rows[0], now))
  {
    var l := Run(EMPTY, ops);
    RunKeepsOrder(EMPTY, ops, key, start);
    DropKeepsOrder(Rows(l, key), now - WINDOW, Ending(start, ops));
    DeclaredRefusal(l, key, rpm, now);
    RetryExactly(l, key, rpm, Limit(rpm).value, now);
  }

  lemma {:induction false} RetryExactly(l: Ledger, key: Key, rpm: Option<real>, n: nat, now: real)
    requires Ascending(Dropped(l, key, now)) && Limit(rpm) == Some(n) && |Dropped(l, key, now)| >= n
    requires RefusedAs(Reserve(l, key, rpm, now).1, "declared_rpm")
    ensures var rows := Dropped(l, key, now);
            RetryIsLeast(l, key, rpm, now) <==> Due(rows[|rows| - n], now) == Due(rows[0], now)
  {
    var rows := Dropped(l, key, now);
    var due, told := Due(rows[|rows| - n], now), Due(rows[0], now);
    DeclaredRefusal(l, key, rpm, now);
    CeilIsLeast(rows[0] + WINDOW - now, 0);
    CeilIsLeast(rows[|rows| - n] + WINDOW - now, 0);
    forall k: nat ensures AdmittedAfter(l, key, rpm, now, k) <==> k >= due {
      DeclaredAdmitsFrom(l, key, rpm, n, now, k);
    }
    if due != told {
      CeilIsLeast(rows[0] + WINDOW - now, due);
      var k: nat := told;
      assert AdmittedAfter(l, key, rpm, now, k) <==> k >= due;
      assert !RetryIsLeast(l, key, rpm, now);
    }
  }

  /**
    In every run with a clock that does not go back and a fixed limit for the key, a key without an
    observation in force is refused exactly when as many admissions as the limit allows lie in the last minute.
   */
  lemma {:induction false} RefusalFindsFullWindow(ops: seq<Op>, start: real, key: Key, rpm: Option<real>, n: nat,
                                                  now: real)
    requires ClockRuns(start, ops) && Ending(start, ops) <= now
    requires FixedLimit(ops, key, n) && Limit(rpm) == Some(n)
    requires !Live(Run(EMPTY, ops), key, now)
    ensures var adm := Admissions(EMPTY, ops, key);
            !Reserve(Run(EMPTY, ops), key, rpm, now).1.allowed <==> |adm| >= n && adm[|adm| - n] > now - WINDOW
  {
    var l := Run(EMPTY, ops);
    FromEmptyKeepsWindow(ops, start, key, n);
    DeclaredDecides(l, key, rpm, now);
    FullWindow(Admissions(EMPTY, ops, key), Rows(l, key), n, Ending(start, ops), now);
  }

  lemma {:induction false} FullWindow(adm: seq<real>, rows: seq<real>, n: nat, before: real, now: real)
    requires n >= 1 && Windowed(adm, rows, n, before) && before <= now
    ensures |DropOld(rows, now - WINDOW)| >= n <==> |adm| >= n && adm[|adm| - n] > now - WINDOW
    ensures |DropOld(rows, now - WINDOW)| <= n
  {
    var k := DropOldIsSuffix(rows, now - WINDOW);
    var d := |adm| - |rows|;
    assert forall i :: 0 <= i < |rows| ==> rows[i] == adm[d + i];
    DropKeepsWindow(adm, rows, n, before, now);
  }

  /** In such a run every key that is refused under the declared limit is told the truth. */
  lemma {:induction false} DeclaredRetryIsLeast(ops: seq<Op>, start: real, key: Key, rpm: Option<real>, n: nat,
                                                now: real)
    requires ClockRuns(start, ops) && Ending(start, ops) <= now
    requires FixedLimit(ops, key, n) && Limit(rpm) == Some(n)
    requires RefusedAs(Reserve(Run(EMPTY, ops), key, rpm, now).1, "declared_rpm")
    ensures RetryIsLeast(Run(EMPTY, ops), key, rpm, now)
  {
    FromEmptyKeepsWindow(ops, start, key, n);
    FullWindow(Admissions(EMPTY, ops, key), Rows(Run(EMPTY, ops), key), n, Ending(start, ops), now);
    DeclaredRetryExactly(ops, start, key, rpm, now);
  }

  lemma {:induction false} RunTwo(first: Op, second: Op)
    ensures Run(EMPTY, [first, second]) == After(After(EMPTY, first), second)
    ensures Ending(first.now, [first, second]) == second.now
    ensures ClockRuns(first.now, [first, second]) <==> first.now <= second.now
  {
    assert [first, second][1..] == [second] && [second][1..] == [];
    assert Run(After(EMPTY, first), [second]) == After(After(EMPTY, first), second);
    assert Ending(first.now, [second]) == second.now;
    assert ClockRuns(first.now, [second]) <==> first.now <= second.now;
  }

  const SOMEONE: Key := Key("", "provider", "")

  /** A limit that was lowered along the run: the key is told thirty seconds and refused after them. */
  lemma {:induction false} LoweredLimitIsToldTooEarly()
    ensures var ops := [Reserving(SOMEONE, Some(3.0), 0.0), Reserving(SOMEONE, Some(3.0), 30.0)];
            && ClockRuns(0.0, ops) && Ending(0.0, ops) <= 30.0
            && Reserve(Run(EMPTY, ops), SOMEONE, Some(1.0), 30.0).1 ==
               Decision(false, Some(30), Some(1), Some(0), "declared_rpm")
            && !AdmittedAfter(Run(EMPTY, ops), SOMEONE, Some(1.0), 30.0, 30)
  {
    var first, second := Reserving(SOMEONE, Some(3.0), 0.0), Reserving(SOMEONE, Some(3.0), 30.0);
    RunTwo(first, second);
    var l := Run(EMPTY, [first, second]);
    assert Rows(After(EMPTY, first), SOMEONE) == [0.0];
    assert Rows(l, SOMEONE) == [0.0, 30.0];
    var (l', d) := Reserve(l, SOMEONE, Some(1.0), 30.0);
    assert d.retryAfter == Some(30) && Rows(l', SOMEONE) == [0.0, 30.0];
    DropsInOrder([0.0, 30.0], 1, 0.0);
    DeclaredDecides(l', SOMEONE, Some(1.0), 60.0);
  }

  lemma {:induction false} DropTwice(rows: seq<real>, before: real, cutoff: real)
    requires before <= cutoff
    ensures DropOld(DropOld(rows, before), cutoff) == DropOld(rows, cutoff)
    decreases |rows|
  {
    if rows != [] && rows[0] <= before {
      DropTwice(rows[1..], before, cutoff);
    }
  }

  /** The longer the wait, the more room. */
  lemma {:induction false} RoomStays(rows: seq<real>, rpm: Option<real>, before: real, now: real)
    requires before <= now && HasRoom(rows, rpm, before)
    ensures HasRoom(rows, rpm, now)
  {
    DropTwice(rows, before - WINDOW, now - WINDOW);
    var k := DropOldIsSuffix(DropOld(rows, before - WINDOW), now - WINDOW);
  }

  /**
    After a refusal under the provider's headers the key, left alone, is admitted after `k` whole seconds
    exactly when `k` is at least the number it was told and the declared limit has room by then.
   */
  lemma {:induction false} HeaderAdmitsFrom(l: Ledger, key: Key, rpm: Option<real>, now: real, k: nat)
    requires RefusedAs(Reserve(l, key, rpm, now).1, "provider_headers")
    ensures var told := Reserve(l, key, rpm, now).1.retryAfter;
            && told.Some? && told.value >= 1
            && (AdmittedAfter(l, key, rpm, now, k) <==>
                k >= told.value && HasRoom(Rows(l, key), rpm, now + k as real))
  {
    CeilIsLeast(l.observed[key].resetAt - now, k);
    CeilIsLeast(l.observed[key].resetAt - now, 0);
    if k as real >= l.observed[key].resetAt - now {
      DeclaredDecides(l, key, rpm, now + k as real);
    }
  }

  /** Such a key is told the truth exactly when the declared limit has room at the time it is told. */
  lemma {:induction false} HeaderRetryIsLeast(l: Ledger, key: Key, rpm: Option<real>, now: real)
    requires RefusedAs(Reserve(l, key, rpm, now).1, "provider_headers")
    ensures var told := Reserve(l, key, rpm, now).1.retryAfter;
            && told.Some?
            && (RetryIsLeast(l, key, rpm, now) <==> HasRoom(Rows(l, key), rpm, now + told.value as real))
  {
    HeaderAdmitsFrom(l, key, rpm, now, 0);
    var told: nat := Reserve(l, key, rpm, now).1.retryAfter.value;
    HeaderAdmitsFrom(l, key, rpm, now, told);
    if HasRoom(Rows(l, key), rpm, now + told as real) {
      forall k: nat ensures AdmittedAfter(l, key, rpm, now, k) <==> k >= told {
        HeaderAdmitsFrom(l, key, rpm, now, k);
        if k >= told {
          RoomStays(Rows(l, key), rpm, now + told as real, now + k as real);
        }
      }
    }
  }

  /** A provider that resets before the declared window does: the key is told five seconds and refused after them. */
  lemma {:induction false} HeaderRetryIsToldTooEarly()
    ensures var ops := [Reserving(SOMEONE, Some(1.0), 0.0), Observing(SOMEONE, Headers(1, 0, Some(5.0)), 0.0)];
            && ClockRuns(0.0, ops) && FixedLimit(ops, SOMEONE, 1) && Ending(0.0, ops) <= 0.0
            && Reserve(Run(EMPTY, ops), SOMEONE, Some(1.0), 0.0).1 ==
               Decision(false, Some(5), Some(1), Some(0), "provider_headers")
            && !AdmittedAfter(Run(EMPTY, ops), SOMEONE, Some(1.0), 0.0, 5)
  {
    var first, second := Reserving(SOMEONE, Some(1.0), 0.0), Observing(SOMEONE, Headers(1, 0, Some(5.0)), 0.0);
    RunTwo(first, second);
    var l := Run(EMPTY, [first, second]);
    assert Rows(After(EMPTY, first), SOMEONE) == [0.0];
    assert Rows(l, SOMEONE) == [0.0];
    DropsInOrder([0.0], 1, -55.0);
    HeaderAdmitsFrom(l, SOMEONE, Some(1.0), 0.0, 5);
  }

  // ---------------------------------------------------------------------------------------------
  // Provider headers
  // ---------------------------------------------------------------------------------------------

  /** How many reservations of the key the run makes, and how many it admits. */
  function Asked(ops: seq<Op>, key: Key): nat
    decreases |ops|
  {
    if ops == [] then 0 else (if ops[0].Reserving? && ops[0].key == key then 1 else 0) + Asked(ops[1..], key)
  }

  function Admitted(l: Ledger, ops: seq<Op>, key: Key): nat
    decreases |ops|
  {
    if ops == [] then 0
    else
      var op := ops[0];
      (if op.Reserving? && op.key == key && Reserve(l, op.key, op.rpm, op.now).1.allowed then 1 else 0)
      + Admitted(After(l, op), ops[1..], key)
  }

  function Min(a: nat, b: nat): nat {
    if a < b then a else b
  }

  /**
    Between an observation and its reset, with no other observation of the key, exactly the first
    `remaining` reservations of the key are admitted, whatever happens to other keys, and none of them
    enters the declared window.
   */
  lemma {:induction false} HeadersAdmitRemaining(l: Ledger, ops: seq<Op>, key: Key)
    requires key in l.observed && l.observed[key].remaining >= 0
    requires forall op :: op in ops ==> op.now < l.observed[key].resetAt && !(op.Observing? && op.key == key)
    ensures Admitted(l, ops, key) == Min(l.observed[key].remaining, Asked(ops, key))
    ensures Rows(Run(l, ops), key) == Rows(l, key) && Admissions(l, ops, key) == []
    decreases |ops|
  {
    if ops != [] {
      var op := ops[0];
      assert op in ops;
      var next := After(l, op);
      assert key in next.observed && next.observed[key].resetAt == l.observed[key].resetAt;
      HeadersAdmitRemaining(next, ops[1..], key);
    }
  }

  /** Headers that name a limit, what is left of it, and the time until it starts anew. */
  predicate Usable(h: Headers) {
    h.limit > 0 && h.remaining >= 0 && h.reset.Some?
  }

  /** An observation records the limit, the smaller of it and what is left, and the reset; or nothing at all. */
  lemma {:induction false} ObservedExactly(l: Ledger, key: Key, h: Headers, now: real)
    ensures Observe(l, key, h, now).requests == l.requests
    ensures forall k :: k != key ==> (k in Observe(l, key, h, now).observed <==> k in l.observed)
                                     && (k in l.observed ==> Observe(l, key, h, now).observed[k] == l.observed[k])
    ensures !Usable(h) ==> Observe(l, key, h, now) == l
    ensures Usable(h) ==>
              && key in Observe(l, key, h, now).observed
              && var o := Observe(l, key, h, now).observed[key];
                 o.limit == h.limit && o.remaining == Min(h.limit, h.remaining) && o.resetAt == now + h.reset.value
  {
  }

  /**
    After usable headers, with no other observation of the key and before the reset, exactly as many
    reservations of the key are admitted as its limit and what was left of it both allow, the first ones.
   */
  lemma {:induction false} HeadersAdmit(l: Ledger, key: Key, h: Headers, now: real, ops: seq<Op>)
    requires Usable(h)
    requires forall op :: op in ops ==> op.now < now + h.reset.value && !(op.Observing? && op.key == key)
    ensures var left := if h.remaining < h.limit then h.remaining else h.limit;
            var after := Observe(l, key, h, now);
            && Admitted(after, ops, key) == (if left < Asked(ops, key) then left else Asked(ops, key))
            && forall i :: 0 <= i < |ops| && ops[i].Reserving? && ops[i].key == key ==>
                 (Reserve(Run(after, ops[..i]), key, ops[i].rpm, ops[i].now).1.allowed <==> Asked(ops[..i], key) < left)
  {
    var left: nat := if h.remaining < h.limit then h.remaining else h.limit;
    var after := Observe(l, key, h, now);
    ObservedExactly(l, key, h, now);
    HeadersAdmitRemaining(after, ops, key);
    forall i | 0 <= i < |ops| && ops[i].Reserving? && ops[i].key == key
      ensures Reserve(Run(after, ops[..i]), key, ops[i].rpm, ops[i].now).1.allowed <==> Asked(ops[..i], key) < left
    {
      LeftAfter(after, ops[..i], key);
    }
  }

  /** What is left of an observation after some reservations. */
  lemma {:induction false} LeftAfter(l: Ledger, ops: seq<Op>, key: Key)
    requires key in l.observed && l.observed[key].remaining >= 0
    requires forall op :: op in ops ==> op.now < l.observed[key].resetAt && !(op.Observing? && op.key == key)
    ensures var after := Run(l, ops);
            var asked := Asked(ops, key);
            && key in after.observed && after.observed[key].resetAt == l.observed[key].resetAt
            && after.observed[key].remaining ==
               (if asked < l.observed[key].remaining then l.observed[key].remaining - asked else 0)
    decreases |ops|
  {
    if ops != [] {
      var next := After(l, ops[0]);
      assert ops[0] in ops;
      assert key in next.observed && next.observed[key].resetAt == l.observed[key].resetAt;
      LeftAfter(next, ops[1..], key);
    }
  }

  // ---------------------------------------------------------------------------------------------
  // Keys do not affect each other
  // ---------------------------------------------------------------------------------------------

  function Only(ops: seq<Op>, key: Key): seq<Op>
    decreases |ops|
  {
    if ops == [] then [] else (if ops[0].key == key then [ops[0]] else []) + Only(ops[1..], key)
  }

  /** Two ledgers that a key cannot tell apart. */
  ghost predicate SameFor(l: Ledger, m: Ledger, key: Key) {
    && Rows(l, key) == Rows(m, key)
    && (key in l.observed <==> key in m.observed)
    && (key in l.observed ==> l.observed[key] == m.observed[key])
  }

  lemma {:induction false} SameStep(l: Ledger, m: Ledger, op: Op)
    requires SameFor(l, m, op.key)
    ensures SameFor(After(l, op), After(m, op), op.key)
    ensures op.Reserving? ==> Reserve(l, op.key, op.rpm, op.now).1 == Reserve(m, op.key, op.rpm, op.now).1
  {
  }

  lemma {:induction false} OtherStep(l: Ledger, op: Op, key: Key)
    requires op.key != key
    ensures SameFor(l, After(l, op), key)
  {
  }

  /** The decisions a run gives to a key. */
  function Decisions(l: Ledger, ops: seq<Op>, key: Key): seq<Decision>
    decreases |ops|
  {
    if ops == [] then []
    else
      var op := ops[0];
      (if op.Reserving? && op.key == key then [Reserve(l, op.key, op.rpm, op.now).1] else [])
      + Decisions(After(l, op), ops[1..], key)
  }

  /** A key gets from a run exactly the decisions it would get from its own operations alone. */
  lemma {:induction false} KeysAreIndependent(l: Ledger, m: Ledger, ops: seq<Op>, key: Key)
    requires SameFor(l, m, key)
    ensures Decisions(l, ops, key) == Decisions(m, Only(ops, key), key)
    ensures SameFor(Run(l, ops), Run(m, Only(ops, key)), key)
    decreases |ops|
  {
    if ops != [] {
      var op := ops[0];
      var rest := Only(ops[1..], key);
      if op.key == key {
        SameStep(l, m, op);
        KeysAreIndependent(After(l, op), After(m, op), ops[1..], key);
        assert ([op] + rest)[1..] == rest;
      } else {
        OtherStep(l, op, key);
        KeysAreIndependent(After(l, op), m, ops[1..], key);
        assert [] + rest == rest;
      }
    }
  }
}
