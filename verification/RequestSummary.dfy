/**
  The windowed aggregates of `summary` in `src/ficelle/request_log.py`.

  The timeline is made of contiguous slots that add up to the totals, and the percentiles are
  nearest-rank percentiles of the recorded latencies.
 */
module RequestSummary {
  import opened RequestIndex
  import Sorting
  import opened Wrappers

  /** A reporting window: `cutoff <= ts <= reference`. */
  datatype Window = Window(cutoff: real, reference: real, bucket: nat)

  /** `int(x // bucket) * bucket`. */
  function SlotStart(x: real, bucket: nat): int
    requires bucket > 0
  {
    (x / bucket as real).Floor * bucket
  }

  predicate InWindow(w: Window, r: Row) {
    r.data.ts.Some? && w.cutoff <= r.data.ts.value <= w.reference
  }

  /** `CAST((ts - first) / bucket AS INT) * bucket + first`; the quotient is not negative in the window. */
  function SlotOf(w: Window, r: Row): int
    requires w.bucket > 0 && r.data.ts.Some?
  {
    var first := SlotStart(w.cutoff, w.bucket);
    ((r.data.ts.value - first as real) / w.bucket as real).Floor * w.bucket + first
  }

  predicate IsOk(r: Row) {
    r.reason == Some("ok")
  }

  /** A row of the window; with `okOnly`, a successful one. */
  predicate Counted(w: Window, r: Row, okOnly: bool) {
    InWindow(w, r) && (okOnly ==> IsOk(r))
  }

  /** `COUNT(*)`, or the sum of the `ok` cases, over the window. */
  function CountAll(w: Window, rows: seq<Row>, okOnly: bool): nat
    decreases |rows|
  {
    if rows == [] then 0 else (if Counted(w, rows[0], okOnly) then 1 else 0) + CountAll(w, rows[1..], okOnly)
  }

  /** The same over the rows whose slot starts at `start`. */
  function CountIn(w: Window, rows: seq<Row>, start: int, okOnly: bool): nat
    requires w.bucket > 0
    decreases |rows|
  {
    if rows == [] then 0
    else
      (if Counted(w, rows[0], okOnly) && SlotOf(w, rows[0]) == start then 1 else 0)
      + CountIn(w, rows[1..], start, okOnly)
  }

  datatype Slot = Slot(start: int, total: nat, ok: nat)

  /** The number of slots from the bucket of the cutoff to the bucket of the reference. */
  function SlotCount(w: Window): int
    requires w.bucket > 0
  {
    (w.reference / w.bucket as real).Floor - (w.cutoff / w.bucket as real).Floor + 1
  }

  function StartAt(w: Window, k: int): int
    requires w.bucket > 0
  {
    SlotStart(w.cutoff, w.bucket) + k * w.bucket
  }

  // ---------------------------------------------------------------------------------------------
  // Every row of the window falls in exactly one slot
  // ---------------------------------------------------------------------------------------------

  /** The slot number of a row. */
  function SlotIndex(w: Window, r: Row): int
    requires w.bucket > 0 && r.data.ts.Some?
  {
    (r.data.ts.value / w.bucket as real).Floor - (w.cutoff / w.bucket as real).Floor
  }

  lemma {:induction false} FloorMonotone(x: real, y: real)
    requires x <= y
    ensures x.Floor <= y.Floor
  {
  }

  lemma {:induction false} ShiftedQuotient(x: real, f: int, b: nat)
    requires b > 0
    ensures ((x - (f * b) as real) / b as real).Floor == (x / b as real).Floor - f
  {
    QuotientOf(x, b as real, f as real);
    SameQuotient(x, (f * b) as real, f as real * b as real, b as real);
    FloorShift(x / b as real, f);
  }

  lemma {:induction false} SameQuotient(x: real, y: real, z: real, d: real)
    requires y == z && d > 0.0
    ensures (x - y) / d == (x - z) / d
  {
  }

  lemma {:induction false} QuotientOf(x: real, d: real, f: real)
    requires d > 0.0
    ensures (x - f * d) / d == x / d - f
  {
    var q := x / d;
    assert x == q * d;
    assert q * d - f * d == (q - f) * d;
  }

  lemma {:induction false} FloorShift(q: real, f: int)
    ensures (q - f as real).Floor == q.Floor - f
  {
    var g := (q - f as real).Floor;
    assert (g + f) as real == g as real + f as real;
    assert (g + f) as real <= q < (g + f) as real + 1.0;
  }

  lemma {:induction false} Divided(x: real, y: real, b: nat)
    requires b > 0 && x <= y
    ensures x / b as real <= y / b as real
  {
  }

  lemma {:induction false} SlotOfIndex(w: Window, r: Row)
    requires w.bucket > 0 && InWindow(w, r)
    ensures SlotOf(w, r) == StartAt(w, SlotIndex(w, r))
    ensures 0 <= SlotIndex(w, r) < SlotCount(w)
  {
    var ts := r.data.ts.value;
    ShiftedQuotient(ts, (w.cutoff / w.bucket as real).Floor, w.bucket);
    Divided(w.cutoff, ts, w.bucket);
    Divided(ts, w.reference, w.bucket);
    FloorMonotone(w.cutoff / w.bucket as real, ts / w.bucket as real);
    FloorMonotone(ts / w.bucket as real, w.reference / w.bucket as real);
  }

  lemma {:induction false} DistinctStarts(w: Window, j: int, k: int)
    requires w.bucket > 0
    ensures StartAt(w, j) == StartAt(w, k) <==> j == k
  {
    if j < k {
      Scaled(k - j, w.bucket);
      assert k * w.bucket - j * w.bucket == (k - j) * w.bucket;
    } else if k < j {
      Scaled(j - k, w.bucket);
      assert j * w.bucket - k * w.bucket == (j - k) * w.bucket;
    }
  }

  lemma {:induction false} Scaled(n: int, b: nat)
    requires n > 0 && b > 0
    ensures n * b > 0
  {
  }

  /** The slots of the window are contiguous, start at the cutoff's bucket and end at the reference's. */
  lemma {:induction false} SlotsAreContiguous(w: Window, k: int)
    requires w.bucket > 0 && w.cutoff <= w.reference
    ensures StartAt(w, k + 1) == StartAt(w, k) + w.bucket
    ensures StartAt(w, 0) == SlotStart(w.cutoff, w.bucket)
    ensures StartAt(w, SlotCount(w) - 1) == SlotStart(w.reference, w.bucket)
    ensures SlotCount(w) >= 1
  {
    var f, l := (w.cutoff / w.bucket as real).Floor, (w.reference / w.bucket as real).Floor;
    assert (k + 1) * w.bucket == k * w.bucket + w.bucket;
    assert f * w.bucket + (l - f) * w.bucket == l * w.bucket;
    Divided(w.cutoff, w.reference, w.bucket);
    FloorMonotone(w.cutoff / w.bucket as real, w.reference / w.bucket as real);
  }

  /** A row of the window is counted in one slot of the timeline and in no other. */
  lemma {:induction false} ExactlyOneSlot(w: Window, r: Row)
    requires w.bucket > 0 && InWindow(w, r)
    ensures 0 <= SlotIndex(w, r) < SlotCount(w)
    ensures forall k :: SlotOf(w, r) == StartAt(w, k) <==> k == SlotIndex(w, r)
  {
    SlotOfIndex(w, r);
    forall k ensures SlotOf(w, r) == StartAt(w, k) <==> k == SlotIndex(w, r) {
      DistinctStarts(w, SlotIndex(w, r), k);
    }
  }

  /** A slot holds the rows from its start to the start of the next one. */
  lemma {:induction false} SlotHoldsRow(w: Window, r: Row)
    requires w.bucket > 0 && InWindow(w, r)
    ensures SlotOf(w, r) as real <= r.data.ts.value < (SlotOf(w, r) + w.bucket) as real
  {
    SlotOfIndex(w, r);
    var f, k := (w.cutoff / w.bucket as real).Floor, SlotIndex(w, r);
    assert SlotOf(w, r) == f * w.bucket + k * w.bucket == (f + k) * w.bucket;
    assert f + k == (r.data.ts.value / w.bucket as real).Floor;
    FloorHolds(r.data.ts.value, w.bucket);
  }

  lemma {:induction false} FloorHolds(x: real, b: nat)
    requires b > 0
    ensures SlotStart(x, b) as real <= x < (SlotStart(x, b) + b) as real
  {
    var q, d := x / b as real, b as real;
    TimesQuotient(x, d);
    ScaledReal(q.Floor as real, q, d);
    ScaledReal(q, q.Floor as real + 1.0, d);
    Distributes(q.Floor as real, d);
    WholeProduct(q.Floor, b);
  }

  lemma {:induction false} TimesQuotient(x: real, d: real)
    requires d > 0.0
    ensures x / d * d == x
  {
  }

  lemma {:induction false} Distributes(f: real, d: real)
    ensures (f + 1.0) * d == f * d + d
  {
  }

  lemma {:induction false} WholeProduct(f: int, b: nat)
    ensures (f * b) as real == f as real * b as real
  {
  }

  lemma {:induction false} ScaledReal(x: real, y: real, b: real)
    requires b > 0.0
    ensures x <= y ==> x * b <= y * b
    ensures x < y ==> x * b < y * b
  {
  }

  /** The first slot holds the cutoff and the last one the reference. */
  lemma {:induction false} WindowIsCovered(w: Window)
    requires w.bucket > 0 && w.cutoff <= w.reference
    ensures StartAt(w, 0) as real <= w.cutoff < (StartAt(w, 0) + w.bucket) as real
    ensures var last := StartAt(w, SlotCount(w) - 1); last as real <= w.reference < (last + w.bucket) as real
  {
    SlotsAreContiguous(w, 0);
    FloorHolds(w.cutoff, w.bucket);
    FloorHolds(w.reference, w.bucket);
  }

  /** A row counts when its time is in the window; for the oks its reason has to be `ok`. */
  lemma {:induction false} CountedExactly(w: Window, rows: seq<Row>, r: Row, okOnly: bool)
    ensures CountAll(w, [], okOnly) == 0
    ensures CountAll(w, rows + [r], okOnly) ==
            CountAll(w, rows, okOnly)
            + (if && r.data.ts.Some? && w.cutoff <= r.data.ts.value <= w.reference
                  && (okOnly ==> r.reason == Some("ok")) then 1 else 0)
    decreases |rows|
  {
    if rows == [] {
      assert rows + [r] == [r] && [r][1..] == [];
    } else {
      assert (rows + [r])[0] == rows[0] && (rows + [r])[1..] == rows[1..] + [r];
      CountedExactly(w, rows[1..], r, okOnly);
    }
  }

  // ---------------------------------------------------------------------------------------------
  // The slots add up
  // ---------------------------------------------------------------------------------------------

  function SumSlots(w: Window, rows: seq<Row>, n: nat, okOnly: bool): nat
    requires w.bucket > 0
    decreases n
  {
    if n == 0 then 0 else SumSlots(w, rows, n - 1, okOnly) + CountIn(w, rows, StartAt(w, n - 1), okOnly)
  }

  lemma {:induction false} SumCons(w: Window, rows: seq<Row>, n: nat, okOnly: bool)
    requires w.bucket > 0 && rows != []
    ensures SumSlots(w, rows, n, okOnly) == SumSlots(w, rows[1..], n, okOnly) +
            (if Counted(w, rows[0], okOnly) && SlotIndex(w, rows[0]) < n then 1 else 0)
    decreases n
  {
    if n == 0 {
      if Counted(w, rows[0], okOnly) {
        ExactlyOneSlot(w, rows[0]);
      }
    } else {
      SumCons(w, rows, n - 1, okOnly);
      if Counted(w, rows[0], okOnly) {
        ExactlyOneSlot(w, rows[0]);
      }
    }
  }

  lemma {:induction false} NoRowsNoSum(w: Window, n: nat, okOnly: bool)
    requires w.bucket > 0
    ensures SumSlots(w, [], n, okOnly) == 0
    decreases n
  {
    if n > 0 {
      NoRowsNoSum(w, n - 1, okOnly);
    }
  }

  /** The totals of the slots add up to the reported total, and their oks to the reported ok. */
  lemma {:induction false} SlotsAddUp(w: Window, rows: seq<Row>, okOnly: bool)
    requires w.bucket > 0 && w.cutoff <= w.reference
    ensures SlotCount(w) >= 1
    ensures SumSlots(w, rows, SlotCount(w), okOnly) == CountAll(w, rows, okOnly)
    decreases |rows|
  {
    SlotsAreContiguous(w, 0);
    if rows == [] {
      NoRowsNoSum(w, SlotCount(w), okOnly);
    } else {
      SumCons(w, rows, SlotCount(w), okOnly);
      SlotsAddUp(w, rows[1..], okOnly);
      if Counted(w, rows[0], okOnly) {
        ExactlyOneSlot(w, rows[0]);
      }
    }
  }

  /** The timeline as the source builds it: group the rows by slot, then emit every slot, idle ones included. */
  method Timeline(w: Window, rows: seq<Row>) returns (timeline: seq<Slot>)
    requires w.bucket > 0 && w.cutoff <= w.reference
    ensures |timeline| == SlotCount(w)
    ensures forall k :: 0 <= k < |timeline| ==>
              timeline[k] == 
                Slot(StartAt(w, k), CountIn(w, rows, StartAt(w, k), false), CountIn(w, rows, StartAt(w, k), true))
  {
    var counted: map<int, (nat, nat)> := map[];
    var i := |rows|;
    while i > 0
      invariant 0 <= i <= |rows|
      invariant forall b :: b in counted ==>
                  counted[b] == (CountIn(w, rows[i..], b, false), CountIn(w, rows[i..], b, true))
      invariant forall b :: b !in counted ==>
                  CountIn(w, rows[i..], b, false) == 0 && CountIn(w, rows[i..], b, true) == 0
    {
      i := i - 1;
      var r := rows[i];
      assert rows[i..][0] == r && rows[i..][1..] == rows[i + 1..];
      if InWindow(w, r) {
        var b := SlotOf(w, r);
        var (total, ok) := if b in counted then counted[b] else (0, 0);
        counted := counted[b := (total + 1, ok + if IsOk(r) then 1 else 0)];
      }
    }
    assert rows[0..] == rows;
    timeline := [];
    SlotsAreContiguous(w, 0);
    var k := 0;
    while k < SlotCount(w)
      invariant 0 <= k <= SlotCount(w) && |timeline| == k
      invariant forall j :: 0 <= j < k ==>
                  timeline[j] == 
                    Slot(StartAt(w, j), CountIn(w, rows, StartAt(w, j), false), CountIn(w, rows, StartAt(w, j), true))
    {
      var start := StartAt(w, k);
      var (total, ok) := if start in counted then counted[start] else (0, 0);
      timeline := timeline + [Slot(start, total, ok)];
      k := k + 1;
    }
  }

  // ---------------------------------------------------------------------------------------------
  // Percentiles
  // ---------------------------------------------------------------------------------------------

  predicate Leq(x: real, y: real) {
    x <= y
  }

  /** `ORDER BY`. */
  function Sorted(xs: seq<real>): seq<real> {
    Sorting.Sort(Leq, xs)
  }

  /** `max(0, min((count * pct + 99) // 100 - 1, count - 1))`. */
  function Offset(count: nat, pct: nat): (o: int)
    ensures count > 0 ==> 0 <= o < count
  {
    var rank := (count * pct + 99) / 100 - 1;
    var capped := if rank < count - 1 then rank else count - 1;
    if capped < 0 then 0 else capped
  }

  /** `_percentile` over the recorded latencies. */
  function Percentile(xs: seq<real>, pct: nat): Option<real> {
    if xs == [] then None
    else
      Sorting.SortMembers(Leq, xs);
      Some(Sorted(xs)[Offset(|xs|, pct)])
  }

  /** The samples at or below `v`. */
  function AtMost(xs: seq<real>, v: real): nat
    decreases |xs|
  {
    if xs == [] then 0 else (if xs[0] <= v then 1 else 0) + AtMost(xs[1..], v)
  }

  ghost predicate Ascending(xs: seq<real>) {
    forall i, j :: 0 <= i < j < |xs| ==> xs[i] <= xs[j]
  }

  lemma {:induction false} AtMostInsert(x: real, sorted: seq<real>, v: real)
    ensures AtMost(Sorting.Insert(Leq, x, sorted), v) == AtMost(sorted, v) + if x <= v then 1 else 0
    decreases |sorted|
  {
    if sorted == [] || x <= sorted[0] {
      assert ([x] + sorted)[1..] == sorted;
    } else {
      AtMostInsert(x, sorted[1..], v);
      var tail := Sorting.Insert(Leq, x, sorted[1..]);
      assert ([sorted[0]] + tail)[1..] == tail;
    }
  }

  lemma {:induction false} AtMostSorted(xs: seq<real>, v: real)
    ensures AtMost(Sorted(xs), v) == AtMost(xs, v)
    decreases |xs|
  {
    if xs != [] {
      AtMostSorted(xs[1..], v);
      AtMostInsert(xs[0], Sorted(xs[1..]), v);
    }
  }

  lemma {:induction false} SortedKeeps(xs: seq<real>, v: real)
    ensures |Sorted(xs)| == |xs| && Ascending(Sorted(xs))
    ensures AtMost(Sorted(xs), v) == AtMost(xs, v)
    ensures forall y :: y in Sorted(xs) <==> y in xs
  {
    AtMostSorted(xs, v);
    Sorting.SortMembers(Leq, xs);
    Sorting.SortAscends(Leq, xs);
    var sorted := Sorted(xs);
    forall i, j | 0 <= i < j < |sorted| ensures sorted[i] <= sorted[j] {
      assert Leq(sorted[i], sorted[j]);
    }
  }

  /** On ascending samples, the one at offset `o` has at least `o + 1` samples at or below it. */
  lemma {:induction false} RankFromBelow(xs: seq<real>, o: nat)
    requires Ascending(xs) && o < |xs|
    ensures AtMost(xs, xs[o]) >= o + 1
    decreases |xs|
  {
    if o == 0 {
    } else {
      RankFromBelow(xs[1..], o - 1);
    }
  }

  /** And a smaller value has at most `o` samples at or below it. */
  lemma {:induction false} RankFromAbove(xs: seq<real>, o: nat, v: real)
    requires Ascending(xs) && o < |xs| && v < xs[o]
    ensures AtMost(xs, v) <= o
    decreases |xs|
  {
    if o == 0 {
      NoneAtMost(xs, v);
    } else {
      RankFromAbove(xs[1..], o - 1, v);
    }
  }

  lemma {:induction false} NoneAtMost(xs: seq<real>, v: real)
    requires forall x :: x in xs ==> v < x
    ensures AtMost(xs, v) == 0
    decreases |xs|
  {
    if xs != [] {
      assert xs[0] in xs && forall x :: x in xs[1..] ==> x in xs;
      NoneAtMost(xs[1..], v);
    }
  }

  /** The percentile is the least recorded latency with at least `pct` per cent of the samples at or below it. */
  lemma {:induction false} PercentileIsLeast(xs: seq<real>, pct: nat)
    requires xs != [] && pct <= 100
    ensures var v := Percentile(xs, pct).value;
            && v in xs
            && AtMost(xs, v) * 100 >= pct * |xs|
            && forall x :: x in xs && AtMost(xs, x) * 100 >= pct * |xs| ==> v <= x
  {
    var v := Percentile(xs, pct).value;
    var o := Offset(|xs|, pct);
    SortedKeeps(xs, v);
    assert v == Sorted(xs)[o] && v in Sorted(xs);
    RankFromBelow(Sorted(xs), o);
    OffsetIsRank(|xs|, pct);
    forall x | x in xs && x < v ensures AtMost(xs, x) * 100 < pct * |xs| {
      SmallerIsShort(xs, pct, x);
    }
  }

  lemma {:induction false} OffsetIsRank(n: nat, pct: nat)
    requires n > 0 && pct <= 100
    ensures (Offset(n, pct) + 1) * 100 >= pct * n
    ensures Offset(n, pct) > 0 ==> Offset(n, pct) * 100 < pct * n
  {
    assert n * pct <= n * 100;
  }

  lemma {:induction false} SmallerIsShort(xs: seq<real>, pct: nat, x: real)
    requires x in xs && pct <= 100
    requires x < Percentile(xs, pct).value
    ensures AtMost(xs, x) * 100 < pct * |xs|
  {
    var o := Offset(|xs|, pct);
    SortedKeeps(xs, x);
    RankFromAbove(Sorted(xs), o, x);
    SelfCounts(xs, x);
    OffsetIsRank(|xs|, pct);
  }

  lemma {:induction false} SelfCounts(xs: seq<real>, x: real)
    requires x in xs
    ensures AtMost(xs, x) >= 1
    decreases |xs|
  {
    if xs[0] != x {
      SelfCounts(xs[1..], x);
    }
  }
}
