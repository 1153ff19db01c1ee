/** The live tail of `src/ficelle/request_log.py`: polls with a row id cursor get new rows, or are told to reload. */
module LiveTail {
  import opened RequestIndex
  import opened Wrappers

  const MAX_TAIL_REPLAY: nat := 200
  const MAX_QUERY_LIMIT: int := 200
  const DEFAULT_TAIL_LIMIT: int := 100

  datatype Batch = Batch(cursor: nat, entries: seq<Row>, resync: bool)

  /** `max(1, min(limit or DEFAULT_TAIL_LIMIT, MAX_QUERY_LIMIT))`. */
  function Bounded(limit: int): (n: nat)
    ensures 1 <= n <= 200
  {
    var asked := if limit == 0 then DEFAULT_TAIL_LIMIT else limit;
    if asked < 1 then 1 else if asked > MAX_QUERY_LIMIT then MAX_QUERY_LIMIT else asked
  }

  /** The rows with a row id above the cursor, and those up to it. */
  function Later(rows: seq<Row>, cursor: nat): seq<Row> {
    if rows == [] then []
    else if rows[0].rowid > cursor then [rows[0]] + Later(rows[1..], cursor)
    else Later(rows[1..], cursor)
  }

  function Earlier(rows: seq<Row>, cursor: nat): seq<Row> {
    if rows == [] then []
    else if rows[0].rowid <= cursor then [rows[0]] + Earlier(rows[1..], cursor)
    else Earlier(rows[1..], cursor)
  }

  /** The rows that pass the filter, in order. */
  function Filter(rows: seq<Row>, keep: Row -> bool): seq<Row> {
    if rows == [] then []
    else if keep(rows[0]) then [rows[0]] + Filter(rows[1..], keep)
    else Filter(rows[1..], keep)
  }

  predicate HasCorrectionBehind(t: Table, cursor: nat) {
    exists r :: r in t && r.rowid > cursor && r.corrected
  }

  /** `tail`, after its catch-up left table `t` and reported `updated`. */
  function Tail(t: Table, updated: bool, cursor: Option<nat>, limit: int, keep: Row -> bool): Batch {
    var head := Head(t);
    if cursor.None? then Batch(head, [], false)
    else
      var start := cursor.value;
      if updated || start > head || head - start > MAX_TAIL_REPLAY || HasCorrectionBehind(t, start) then
        Batch(head, [], true)
      else
        Page(Filter(Later(t, start), keep), Bounded(limit), head)
  }

  /** The first `n` rows; a full page leaves the cursor at its last row, a shorter one at the head. */
  function Page(all: seq<Row>, n: nat, head: nat): Batch
    requires n >= 1
  {
    var rows := if |all| > n then all[..n] else all;
    Batch(if |rows| >= n then rows[|rows| - 1].rowid else head, rows, false)
  }

  // ---------------------------------------------------------------------------------------------
  // A subscriber's run
  // ---------------------------------------------------------------------------------------------

  /** Row ids grow along the table. */
  ghost predicate Ordered(t: Table) {
    forall i, j :: 0 <= i < j < |t| ==> t[i].rowid < t[j].rowid
  }

  /** Some other reader's catch-up ingests entries, or the subscriber polls, ingesting entries first. */
  datatype Step = Ingesting(entries: seq<Entry>) | Polling(entries: seq<Entry>, limit: int)

  /** The table, every row as it was when it was inserted, and the subscriber: its cursor and what it got. */
  datatype World = World(table: Table, born: seq<Row>, cursor: nat, received: seq<Row>, resynced: bool)

  /** The rows that ingesting the entries inserts, as they are inserted. */
  function Born(t: Table, entries: seq<Entry>): seq<Row>
    decreases |entries|
  {
    if entries == [] then []
    else
      var next := Apply(t, entries[0]).0;
      (if entries[0].Route? && Lookup(t, entries[0].id).None? then [next[|next| - 1]] else [])
          + Born(next, entries[1..])
  }

  function Next(w: World, step: Step, keep: Row -> bool): World {
    var (t, updated) := Ingest(w.table, step.entries);
    var grown := w.(table := t, born := w.born + Born(w.table, step.entries));
    if step.Ingesting? then grown
    else
      var batch := Tail(t, updated, Some(w.cursor), step.limit, keep);
      grown.(cursor := batch.cursor, received := w.received + batch.entries, resynced := w.resynced || batch.resync)
  }

  function Run(w: World, steps: seq<Step>, keep: Row -> bool): World
    decreases |steps|
  {
    if steps == [] then w else Run(Next(w, steps[0], keep), steps[1..], keep)
  }

  /** A subscriber behind a correction; or one for which the rows behind it are the born rows behind it. */
  ghost predicate Tracks(w: World) {
    && Ordered(w.table) && Ordered(w.born)
    && w.cursor <= Head(w.table)
    && (forall r :: r in w.born ==> r.rowid <= Head(w.table))
    && (|| HasCorrectionBehind(w.table, w.cursor)
        || Later(w.table, w.cursor) == Later(w.born, w.cursor))
  }

  // ---------------------------------------------------------------------------------------------
  // Proofs
  // ---------------------------------------------------------------------------------------------

  lemma {:induction false} LaterAppend(a: seq<Row>, b: seq<Row>, cursor: nat)
    ensures Later(a + b, cursor) == Later(a, cursor) + Later(b, cursor)
    decreases |a|
  {
    if a == [] {
      assert a + b == b;
    } else {
      assert (a + b)[0] == a[0] && (a + b)[1..] == a[1..] + b;
      LaterAppend(a[1..], b, cursor);
    }
  }

  lemma {:induction false} EarlierAppend(a: seq<Row>, b: seq<Row>, cursor: nat)
    ensures Earlier(a + b, cursor) == Earlier(a, cursor) + Earlier(b, cursor)
    decreases |a|
  {
    if a == [] {
      assert a + b == b;
    } else {
      assert (a + b)[0] == a[0] && (a + b)[1..] == a[1..] + b;
      EarlierAppend(a[1..], b, cursor);
    }
  }

  lemma {:induction false} FilterAppend(a: seq<Row>, b: seq<Row>, keep: Row -> bool)
    ensures Filter(a + b, keep) == Filter(a, keep) + Filter(b, keep)
    decreases |a|
  {
    if a == [] {
      assert a + b == b;
    } else {
      assert (a + b)[0] == a[0] && (a + b)[1..] == a[1..] + b;
      FilterAppend(a[1..], b, keep);
    }
  }

  lemma {:induction false} AllLater(rows: seq<Row>, cursor: nat)
    requires forall r :: r in rows ==> r.rowid > cursor
    ensures Later(rows, cursor) == rows && Earlier(rows, cursor) == []
    decreases |rows|
  {
    if rows != [] {
      assert rows[0] in rows;
      AllLater(rows[1..], cursor);
    }
  }

  lemma {:induction false} AllEarlier(rows: seq<Row>, cursor: nat)
    requires forall r :: r in rows ==> r.rowid <= cursor
    ensures Earlier(rows, cursor) == rows && Later(rows, cursor) == []
    decreases |rows|
  {
    if rows != [] {
      assert rows[0] in rows;
      AllEarlier(rows[1..], cursor);
    }
  }

  lemma {:induction false} LaterKeeps(rows: seq<Row>, cursor: nat)
    ensures forall r :: r in Later(rows, cursor) ==> r in rows && r.rowid > cursor
    ensures forall r :: r in Earlier(rows, cursor) ==> r in rows && r.rowid <= cursor
    decreases |rows|
  {
    if rows != [] {
      LaterKeeps(rows[1..], cursor);
    }
  }

  /** On rows in row id order, a cursor cuts in two. */
  lemma {:induction false} CursorCuts(rows: seq<Row>, cursor: nat)
    requires Ordered(rows)
    ensures rows == Earlier(rows, cursor) + Later(rows, cursor)
    decreases |rows|
  {
    if rows != [] {
      if rows[0].rowid > cursor {
        RestIsLater(rows);
        AllLater(rows, cursor);
      } else {
        CursorCuts(rows[1..], cursor);
      }
    }
  }

  lemma {:induction false} RestIsLater(rows: seq<Row>)
    requires Ordered(rows) && rows != []
    ensures forall r :: r in rows ==> r.rowid >= rows[0].rowid
  {
  }

  lemma {:induction false} LaterOrdered(rows: seq<Row>, cursor: nat)
    requires Ordered(rows)
    ensures Ordered(Later(rows, cursor))
  {
    CursorCuts(rows, cursor);
    var k := |Earlier(rows, cursor)|;
    assert forall i :: 0 <= i < |Later(rows, cursor)| ==> Later(rows, cursor)[i] == rows[k + i];
  }

  /** Moving the cursor up: what is behind it splits into what it passes and what stays behind. */
  lemma {:induction false} CursorAdvances(rows: seq<Row>, from: nat, to: nat)
    requires Ordered(rows) && from <= to
    ensures Earlier(rows, to) == Earlier(rows, from) + Earlier(Later(rows, from), to)
    ensures Later(rows, to) == Later(Later(rows, from), to)
  {
    CursorCuts(rows, from);
    LaterKeeps(rows, from);
    var a, b := Earlier(rows, from), Later(rows, from);
    EarlierAppend(a, b, to);
    LaterAppend(a, b, to);
    AllEarlier(a, to);
    assert [] + Later(b, to) == Later(b, to);
  }

  lemma {:induction false} WithoutIsSubsequence(t: Table, id: string)
    requires Ordered(t)
    ensures Ordered(Without(t, id))
    ensures forall r :: r in Without(t, id) ==> r in t
    decreases |t|
  {
    if t != [] && t[0].id != id {
      WithoutIsSubsequence(t[1..], id);
      ConsOrdered(t[0], Without(t[1..], id));
    }
  }

  lemma {:induction false} ConsOrdered(r: Row, t: Table)
    requires Ordered(t) && forall x :: x in t ==> x.rowid > r.rowid
    ensures Ordered([r] + t)
  {
  }

  lemma {:induction false} OrderedAppend(t: Table, r: Row)
    requires Ordered(t) && forall x :: x in t ==> x.rowid < r.rowid
    ensures Ordered(t + [r])
  {
  }

  lemma {:induction false} HeadIsLast(t: Table)
    requires Ordered(t)
    ensures forall r :: r in t ==> r.rowid <= Head(t)
  {
  }

  /** The world after one entry. */
  function Entering(w: World, e: Entry): World {
    w.(table := Apply(w.table, e).0, born := w.born + Born(w.table, [e]))
  }

  lemma {:induction false} NothingBorn(w: World, e: Entry)
    requires !(e.Route? && Lookup(w.table, e.id).None?)
    ensures Entering(w, e).born == w.born
  {
    assert [e][1..] == [];
    assert Born(w.table, [e]) == [];
    assert w.born + [] == w.born;
  }

  /** A new row goes behind the cursor on both sides. */
  lemma {:induction false} RouteTracks(w: World, e: Entry)
    requires Tracks(w) && e.Route? && Lookup(w.table, e.id).None?
    ensures Tracks(Entering(w, e))
    ensures HasCorrectionBehind(w.table, w.cursor) ==> HasCorrectionBehind(Entering(w, e).table, w.cursor)
  {
    var r := Row(Head(w.table) + 1, e.id, e.data, e.reason, e.errorType, false);
    HeadIsLast(w.table);
    OrderedAppend(w.table, r);
    OrderedAppend(w.born, r);
    var t' := Apply(w.table, e).0;
    assert t' == w.table + [r];
    assert [e][1..] == [];
    assert Born(w.table, [e]) == [r] + Born(t', []) == [r];
    LaterAppend(w.table, [r], w.cursor);
    LaterAppend(w.born, [r], w.cursor);
    KeptBehind(w.table, t', w.cursor);
  }

  /** A correction that changes a row moves it behind every cursor. */
  lemma {:induction false} DeliveryTracks(w: World, e: Entry)
    requires Tracks(w) && e.Delivery? && Apply(w.table, e).1
    ensures Tracks(Entering(w, e)) && HasCorrectionBehind(Entering(w, e).table, w.cursor)
  {
    HeadIsLast(w.table);
    NothingBorn(w, e);
    var t' := Apply(w.table, e).0;
    var r := t'[|t'| - 1];
    WithoutIsSubsequence(w.table, e.id);
    OrderedAppend(Without(w.table, e.id), r);
    assert r in t' && r.rowid > w.cursor && r.corrected;
  }

  lemma {:induction false} EntryTracks(w: World, e: Entry)
    requires Tracks(w)
    ensures Tracks(Entering(w, e))
    ensures Apply(w.table, e).1 || HasCorrectionBehind(w.table, w.cursor) ==>
              HasCorrectionBehind(Entering(w, e).table, w.cursor)
  {
    if e.Route? && Lookup(w.table, e.id).None? {
      RouteTracks(w, e);
    } else if e.Delivery? && Apply(w.table, e).1 {
      DeliveryTracks(w, e);
    } else {
      NothingBorn(w, e);
      assert Entering(w, e) == w;
    }
  }

  lemma {:induction false} KeptBehind(t: Table, u: Table, cursor: nat)
    requires t <= u
    ensures HasCorrectionBehind(t, cursor) ==> HasCorrectionBehind(u, cursor)
  {
    if HasCorrectionBehind(t, cursor) {
      var r :| r in t && r.rowid > cursor && r.corrected;
      assert r in u;
    }
  }

  /** The world after a batch of entries. */
  function EnteringAll(w: World, entries: seq<Entry>): World {
    w.(table := Ingest(w.table, entries).0, born := w.born + Born(w.table, entries))
  }

  lemma {:induction false} EnteringCons(w: World, entries: seq<Entry>)
    requires entries != []
    ensures EnteringAll(w, entries) == EnteringAll(Entering(w, entries[0]), entries[1..])
  {
    var e := entries[0];
    assert [e][1..] == [];
    var t' := Apply(w.table, e).0;
    assert Born(w.table, [e]) + Born(t', entries[1..]) == Born(w.table, entries);
    Associative(w.born, Born(w.table, [e]), Born(t', entries[1..]));
  }

  lemma {:induction false} Associative(a: seq<Row>, b: seq<Row>, c: seq<Row>)
    ensures (a + b) + c == a + (b + c)
  {
  }

  lemma {:induction false} IngestTracks(w: World, entries: seq<Entry>)
    requires Tracks(w)
    ensures Tracks(EnteringAll(w, entries))
    ensures Ingest(w.table, entries).1 || HasCorrectionBehind(w.table, w.cursor) ==>
              HasCorrectionBehind(EnteringAll(w, entries).table, w.cursor)
    decreases |entries|
  {
    if entries == [] {
      assert w.born + [] == w.born;
    } else {
      EntryTracks(w, entries[0]);
      IngestTracks(Entering(w, entries[0]), entries[1..]);
      EnteringCons(w, entries);
    }
  }

  lemma {:induction false} FilterKeeps(rows: seq<Row>, keep: Row -> bool)
    requires Ordered(rows)
    ensures forall r :: r in Filter(rows, keep) ==> r in rows && keep(r)
    ensures Ordered(Filter(rows, keep))
    decreases |rows|
  {
    if rows != [] {
      FilterKeeps(rows[1..], keep);
      assert forall r :: r in rows[1..] ==> r.rowid > rows[0].rowid;
    }
  }

  lemma {:induction false} EarlierFilter(rows: seq<Row>, cursor: nat, keep: Row -> bool)
    ensures Earlier(Filter(rows, keep), cursor) == Filter(Earlier(rows, cursor), keep)
    decreases |rows|
  {
    if rows != [] {
      EarlierFilter(rows[1..], cursor, keep);
      var r := rows[0];
      if keep(r) {
        assert ([r] + Filter(rows[1..], keep))[1..] == Filter(rows[1..], keep);
      }
      if r.rowid <= cursor {
        assert ([r] + Earlier(rows[1..], cursor))[1..] == Earlier(rows[1..], cursor);
      }
    }
  }

  /** The first rows of a batch are those up to the last of them. */
  lemma {:induction false} FirstRows(all: seq<Row>, n: nat)
    requires 1 <= n <= |all| && Ordered(all)
    ensures Earlier(all, all[n - 1].rowid) == all[..n]
  {
    var to := all[n - 1].rowid;
    assert all == all[..n] + all[n..];
    EarlierAppend(all[..n], all[n..], to);
    assert forall r :: r in all[..n] ==> r.rowid <= to;
    AllEarlier(all[..n], to);
    AllLater(all[n..], to);
  }

  /** A page holds exactly the rows that its cursor passes. */
  lemma {:induction false} PageIsExact(all: seq<Row>, n: nat, head: nat)
    requires n >= 1 && Ordered(all) && forall r :: r in all ==> r.rowid <= head
    ensures var page := Page(all, n, head);
            && Earlier(all, page.cursor) == page.entries
            && page.cursor <= head
            && (page.cursor == head || exists r :: r in all && r.rowid == page.cursor)
            && (|page.entries| < n ==> page.cursor == head)
  {
    if |all| >= n {
      FirstRows(all, n);
      assert all[n - 1] in all;
      assert |all| == n ==> all[..n] == all;
    } else {
      AllEarlier(all, head);
    }
  }

  /** What the subscriber has is what was born up to its cursor and passes its filter. */
  ghost predicate Exact(w: World, keep: Row -> bool) {
    w.received == Filter(Earlier(w.born, w.cursor), keep)
  }

  /** The rows of a poll without resync are those that its cursor passes. */
  lemma {:induction false} PollPasses(t: Table, updated: bool, cursor: nat, limit: int, keep: Row -> bool)
    requires Ordered(t) && cursor <= Head(t)
    requires !Tail(t, updated, Some(cursor), limit, keep).resync
    ensures var batch := Tail(t, updated, Some(cursor), limit, keep);
            && cursor <= batch.cursor <= Head(t)
            && batch.entries == Filter(Earlier(Later(t, cursor), batch.cursor), keep)
            && (|batch.entries| < Bounded(limit) ==> batch.cursor == Head(t))
  {
    var batch := Tail(t, updated, Some(cursor), limit, keep);
    KeptBehindCursor(t, cursor, keep);
    PageIsExact(Filter(Later(t, cursor), keep), Bounded(limit), Head(t));
    EarlierFilter(Later(t, cursor), batch.cursor, keep);
  }

  lemma {:induction false} KeptBehindCursor(t: Table, cursor: nat, keep: Row -> bool)
    requires Ordered(t)
    ensures Ordered(Filter(Later(t, cursor), keep))
    ensures forall r :: r in Filter(Later(t, cursor), keep) ==> cursor < r.rowid <= Head(t)
  {
    HeadIsLast(t);
    LaterKeeps(t, cursor);
    LaterOrdered(t, cursor);
    FilterKeeps(Later(t, cursor), keep);
  }

  lemma {:induction false} PollIsExact(w: World, updated: bool, limit: int, keep: Row -> bool)
    requires Tracks(w) && Exact(w, keep)
    requires updated ==> HasCorrectionBehind(w.table, w.cursor)
    requires !Tail(w.table, updated, Some(w.cursor), limit, keep).resync
    ensures var batch := Tail(w.table, updated, Some(w.cursor), limit, keep);
            var w' := w.(cursor := batch.cursor, received := w.received + batch.entries);
            && w.cursor <= batch.cursor
            && Tracks(w') && Exact(w', keep)
  {
    var batch := Tail(w.table, updated, Some(w.cursor), limit, keep);
    PollPasses(w.table, updated, w.cursor, limit, keep);
    CursorAdvances(w.born, w.cursor, batch.cursor);
    CursorAdvances(w.table, w.cursor, batch.cursor);
    FilterAppend(Earlier(w.born, w.cursor), Earlier(Later(w.born, w.cursor), batch.cursor), keep);
  }

  lemma {:induction false} RunIsExact(w: World, steps: seq<Step>, keep: Row -> bool)
    requires Tracks(w) && Exact(w, keep) && !Run(w, steps, keep).resynced
    ensures Tracks(Run(w, steps, keep)) && Exact(Run(w, steps, keep), keep)
    decreases |steps|
  {
    if steps != [] {
      var next := Next(w, steps[0], keep);
      ResyncStays(next, steps[1..], keep);
      StepIsExact(w, steps[0], keep);
      RunIsExact(next, steps[1..], keep);
    }
  }

  lemma {:induction false} StepIsExact(w: World, step: Step, keep: Row -> bool)
    requires Tracks(w) && Exact(w, keep)
    requires !Next(w, step, keep).resynced
    ensures Tracks(Next(w, step, keep)) && Exact(Next(w, step, keep), keep)
  {
    var grown := EnteringAll(w, step.entries);
    var born := Born(w.table, step.entries);
    IngestTracks(w, step.entries);
    BornBehind(w, step.entries);
    EarlierAppend(w.born, born, w.cursor);
    AllLater(born, w.cursor);
    assert Earlier(w.born, w.cursor) + [] == Earlier(w.born, w.cursor);
    if step.Polling? {
      PollIsExact(grown, Ingest(w.table, step.entries).1, step.limit, keep);
    }
  }

  lemma {:induction false} ResyncStays(w: World, steps: seq<Step>, keep: Row -> bool)
    ensures w.resynced ==> Run(w, steps, keep).resynced
    decreases |steps|
  {
    if steps != [] {
      ResyncStays(Next(w, steps[0], keep), steps[1..], keep);
    }
  }

  lemma {:induction false} BornBehind(w: World, entries: seq<Entry>)
    requires Tracks(w)
    ensures forall r :: r in Born(w.table, entries) ==> r.rowid > w.cursor
    decreases |entries|
  {
    if entries != [] {
      EntryTracks(w, entries[0]);
      BornBehind(Entering(w, entries[0]), entries[1..]);
    }
  }

  /** A subscriber that has just primed: `tail` without a cursor on an ordered table. */
  function Primed(t: Table): World {
    World(t, [], Tail(t, false, None, DEFAULT_TAIL_LIMIT, r => true).cursor, [], false)
  }

  /**
    In every run of ingests and polls, a primed subscriber that is never told to reload has exactly the
    rows ingested since that pass its filter, in order, up to its cursor, whatever the limits.
   */
  lemma {:induction false} LiveTailIsExactlyOnce(t: Table, steps: seq<Step>, keep: Row -> bool)
    requires Ordered(t)
    requires !Run(Primed(t), steps, keep).resynced
    ensures var w := Run(Primed(t), steps, keep);
            w.received == Filter(Earlier(w.born, w.cursor), keep) && w.cursor <= Head(w.table)
  {
    PrimedTracks(t, keep);
    RunIsExact(Primed(t), steps, keep);
  }

  lemma {:induction false} PrimedTracks(t: Table, keep: Row -> bool)
    requires Ordered(t)
    ensures Tracks(Primed(t)) && Exact(Primed(t), keep)
  {
    HeadIsLast(t);
    AllEarlier(t, Primed(t).cursor);
  }

  /** After a poll in such a run that returned fewer rows than its limit nothing is missing. */
  lemma {:induction false} ShortPollIsComplete(t: Table, steps: seq<Step>, poll: Step, keep: Row -> bool)
    requires Ordered(t) && poll.Polling?
    requires !Next(Run(Primed(t), steps, keep), poll, keep).resynced
    requires var w := Run(Primed(t), steps, keep);
             |Next(w, poll, keep).received| < |w.received| + Bounded(poll.limit)
    ensures var v := Next(Run(Primed(t), steps, keep), poll, keep);
            v.received == Filter(v.born, keep) && v.cursor == Head(v.table)
  {
    var w := Run(Primed(t), steps, keep);
    var v := Next(w, poll, keep);
    PrimedTracks(t, keep);
    RunIsExact(Primed(t), steps, keep);
    StepIsExact(w, poll, keep);
    IngestTracks(w, poll.entries);
    var (table, updated) := Ingest(w.table, poll.entries);
    PollPasses(table, updated, w.cursor, poll.limit, keep);
    AllEarlier(v.born, v.cursor);
  }

  /** Ingests by other readers only: a correction behind the cursor stays behind it. */
  lemma {:induction false} CorrectionStaysBehind(w: World, ingests: seq<Step>, keep: Row -> bool)
    requires Tracks(w) && HasCorrectionBehind(w.table, w.cursor)
    requires forall s :: s in ingests ==> s.Ingesting?
    ensures var v := Run(w, ingests, keep);
            v.cursor == w.cursor && v.received == w.received && Tracks(v) && HasCorrectionBehind(v.table, v.cursor)
    decreases |ingests|
  {
    if ingests != [] {
      assert ingests[0] in ingests;
      IngestTracks(w, ingests[0].entries);
      CorrectionStaysBehind(Next(w, ingests[0], keep), ingests[1..], keep);
    }
  }

  lemma {:induction false} CorrectionReaches(w: World, correction: seq<Entry>, ingests: seq<Step>, poll: Step,
                                             keep: Row -> bool)
    requires Tracks(w)
    requires Ingest(w.table, correction).1
    requires forall s :: s in ingests ==> s.Ingesting?
    requires poll.Polling?
    ensures var v := Run(Next(w, Ingesting(correction), keep), ingests, keep);
            && v.cursor == w.cursor && v.received == w.received
            && Next(v, poll, keep).resynced && Next(v, poll, keep).received == w.received
  {
    IngestTracks(w, correction);
    var u := Next(w, Ingesting(correction), keep);
    CorrectionStaysBehind(u, ingests, keep);
    var v := Run(u, ingests, keep);
    IngestTracks(v, poll.entries);
    var (t, updated) := Ingest(v.table, poll.entries);
    assert HasCorrectionBehind(t, v.cursor);
    assert Tail(t, updated, Some(v.cursor), poll.limit, keep).resync;
    assert v.received + [] == v.received;
  }

  /**
    In every run of a primed subscriber that has not been told to reload: once any reader has ingested a
    correction, its next poll tells it to, and it receives nothing before that.
   */
  lemma {:induction false} CorrectionForcesResync(t: Table, steps: seq<Step>, correction: seq<Entry>,
                                                  ingests: seq<Step>, poll: Step, keep: Row -> bool)
    requires Ordered(t) && !Run(Primed(t), steps, keep).resynced
    requires Ingest(Run(Primed(t), steps, keep).table, correction).1
    requires forall s :: s in ingests ==> s.Ingesting?
    requires poll.Polling?
    ensures var w := Run(Primed(t), steps, keep);
            var v := Run(Next(w, Ingesting(correction), keep), ingests, keep);
            && v.cursor == w.cursor && v.received == w.received
            && Next(v, poll, keep).resynced && Next(v, poll, keep).received == w.received
  {
    PrimedTracks(t, keep);
    RunIsExact(Primed(t), steps, keep);
    CorrectionReaches(Run(Primed(t), steps, keep), correction, ingests, poll, keep);
  }

  // ---------------------------------------------------------------------------------------------
  // When a subscriber is told to reload
  // ---------------------------------------------------------------------------------------------

  /**
    A poll tells its subscriber to reload exactly when its own catch-up took in a correction, its cursor is
    past the head, it is more than 200 row ids behind, or a corrected row lies behind its cursor.
   */
  lemma {:induction false} TailReloadsExactly(t: Table, updated: bool, cursor: nat, limit: int, keep: Row -> bool)
    ensures Tail(t, updated, Some(cursor), limit, keep).resync <==>
            || updated || cursor > Head(t) || Head(t) - cursor > 200
            || exists i :: 0 <= i < |t| && t[i].rowid > cursor && t[i].corrected
    ensures Tail(t, updated, Some(cursor), limit, keep).resync ==>
              Tail(t, updated, Some(cursor), limit, keep) == Batch(Head(t), [], true)
  {
    if i :| 0 <= i < |t| && t[i].rowid > cursor && t[i].corrected {
      assert t[i] in t;
    }
  }

  /** A page holds at most 200 rows, 100 when nothing is asked for, and one at least. */
  lemma {:induction false} LimitExactly(limit: int)
    ensures Bounded(limit) == if limit == 0 then 100 else if limit > 200 then 200 else if limit < 1 then 1 else limit
  {
  }

  /** Entries without a correction bring no corrected row. */
  lemma {:induction false} UncorrectedIngest(t: Table, entries: seq<Entry>)
    requires !Ingest(t, entries).1
    ensures forall r :: r in Ingest(t, entries).0 && r.corrected ==> r in t
    decreases |entries|
  {
    if entries != [] {
      UncorrectedIngest(Apply(t, entries[0]).0, entries[1..]);
    }
  }

  /** One step of a subscriber that was not told to reload before. */
  lemma {:induction false} StepReloads(w: World, step: Step, keep: Row -> bool)
    requires Tracks(w) && !w.resynced
    ensures var v := Next(w, step, keep);
            var corrected := HasCorrectionBehind(w.table, w.cursor) || Ingest(w.table, step.entries).1;
            && (v.resynced <==> step.Polling? && (corrected || Head(v.table) - w.cursor > 200))
            && (!v.resynced ==> (HasCorrectionBehind(v.table, v.cursor) <==> corrected))
  {
    var v := Next(w, step, keep);
    var (t, updated) := Ingest(w.table, step.entries);
    IngestTracks(w, step.entries);
    if !updated {
      UncorrectedIngest(w.table, step.entries);
    }
    assert HasCorrectionBehind(t, w.cursor) <==> HasCorrectionBehind(w.table, w.cursor) || updated;
    if step.Polling? {
      TailReloadsExactly(t, updated, w.cursor, step.limit, keep);
      if !v.resynced {
        PollPasses(t, updated, w.cursor, step.limit, keep);
      }
    }
  }

  function Before(t: Table, steps: seq<Step>, keep: Row -> bool, i: nat): World
    requires i <= |steps|
  {
    Run(Primed(t), steps[..i], keep)
  }

  /** The step takes a correction into the table. */
  predicate TakesCorrection(t: Table, steps: seq<Step>, keep: Row -> bool, i: nat)
    requires i < |steps|
  {
    Ingest(Before(t, steps, keep, i).table, steps[i].entries).1
  }

  predicate CorrectedUpTo(t: Table, steps: seq<Step>, keep: Row -> bool, i: nat)
    requires i < |steps|
  {
    exists j: nat :: j <= i && TakesCorrection(t, steps, keep, j)
  }

  /** The step is a poll after some correction, or one that finds the head more than 200 row ids ahead. */
  predicate Reloads(t: Table, steps: seq<Step>, keep: Row -> bool, i: nat)
    requires i < |steps|
  {
    && steps[i].Polling?
    && (|| CorrectedUpTo(t, steps, keep, i)
        || Head(Before(t, steps, keep, i + 1).table) - Before(t, steps, keep, i).cursor > 200)
  }

  lemma {:induction false} RunSnoc(w: World, steps: seq<Step>, last: Step, keep: Row -> bool)
    ensures Run(w, steps + [last], keep) == Next(Run(w, steps, keep), last, keep)
    decreases |steps|
  {
    if steps == [] {
      assert steps + [last] == [last] && [last][1..] == [];
    } else {
      assert (steps + [last])[0] == steps[0] && (steps + [last])[1..] == steps[1..] + [last];
      RunSnoc(Next(w, steps[0], keep), steps[1..], last, keep);
    }
  }

  lemma {:induction false} SameSteps(t: Table, steps: seq<Step>, keep: Row -> bool)
    requires steps != []
    ensures var init := steps[..|steps| - 1];
            && steps == init + [steps[|steps| - 1]]
            && (forall i: nat :: i < |init| ==> Before(t, init, keep, i) == Before(t, steps, keep, i))
            && (forall i: nat :: i < |init| ==> TakesCorrection(t, init, keep, i) == TakesCorrection(t, steps, keep, i))
            && (forall i: nat :: i < |init| ==> Reloads(t, init, keep, i) == Reloads(t, steps, keep, i))
  {
    var init := steps[..|steps| - 1];
    forall i: nat | i <= |init| ensures init[..i] == steps[..i] {
    }
    forall i: nat | i < |init| ensures Reloads(t, init, keep, i) == Reloads(t, steps, keep, i) {
      forall j: nat | j <= i ensures TakesCorrection(t, init, keep, j) == TakesCorrection(t, steps, keep, j) {
      }
    }
  }

  /** The last poll of a run that was not told to reload before it. */
  lemma {:induction false} LastStepReloads(t: Table, steps: seq<Step>, keep: Row -> bool)
    requires Ordered(t) && steps != []
    requires var w := Before(t, steps, keep, |steps| - 1);
             && !w.resynced && Tracks(w)
             && (HasCorrectionBehind(w.table, w.cursor) <==>
                 exists j: nat :: j < |steps| - 1 && TakesCorrection(t, steps, keep, j))
    ensures var v := Run(Primed(t), steps, keep);
            && (v.resynced <==> Reloads(t, steps, keep, |steps| - 1))
            && (!v.resynced ==>
                (HasCorrectionBehind(v.table, v.cursor) <==> CorrectedUpTo(t, steps, keep, |steps| - 1)))
  {
    var n := |steps| - 1;
    var w := Before(t, steps, keep, n);
    assert steps == steps[..n] + [steps[n]] && steps[..n + 1] == steps;
    RunSnoc(Primed(t), steps[..n], steps[n], keep);
    StepReloads(w, steps[n], keep);
    assert CorrectedUpTo(t, steps, keep, n) <==>
        HasCorrectionBehind(w.table, w.cursor) || TakesCorrection(t, steps, keep, n);
  }

  lemma {:induction false} RunReloads(t: Table, steps: seq<Step>, keep: Row -> bool)
    requires Ordered(t)
    ensures var w := Run(Primed(t), steps, keep);
            && (w.resynced <==> exists i: nat :: i < |steps| && Reloads(t, steps, keep, i))
            && (!w.resynced ==>
                  (HasCorrectionBehind(w.table, w.cursor) <==>
                   exists j: nat :: j < |steps| && TakesCorrection(t, steps, keep, j)))
    decreases |steps|
  {
    if steps == [] {
      HeadIsLast(t);
    } else {
      var n := |steps| - 1;
      var init := steps[..n];
      SameSteps(t, steps, keep);
      RunReloads(t, init, keep);
      RunSnoc(Primed(t), init, steps[n], keep);
      assert Before(t, steps, keep, n) == Run(Primed(t), init, keep);
      if !Run(Primed(t), init, keep).resynced {
        PrimedTracks(t, keep);
        RunIsExact(Primed(t), init, keep);
        LastStepReloads(t, steps, keep);
      } else {
        var i: nat :| i < |init| && Reloads(t, init, keep, i);
        assert Reloads(t, steps, keep, i);
      }
    }
  }

  /**
    A primed subscriber is told to reload exactly when one of its polls comes after a correction was taken
    in, by itself or by another reader, or finds the head more than 200 row ids ahead of its cursor.
   */
  lemma {:induction false} ReloadedExactly(t: Table, steps: seq<Step>, keep: Row -> bool)
    requires Ordered(t)
    ensures Run(Primed(t), steps, keep).resynced <==> exists i: nat :: i < |steps| && Reloads(t, steps, keep, i)
  {
    RunReloads(t, steps, keep);
  }

  // ---------------------------------------------------------------------------------------------
  // The index itself
  // ---------------------------------------------------------------------------------------------

  class RequestLog {
    const parse: RequestIndex.Bytes -> Entry
    var disk: Store

    constructor (parse: RequestIndex.Bytes -> Entry, disk: Store)
      ensures this.parse == parse && this.disk == disk
    {
      this.parse, this.disk := parse, disk;
    }

    method CatchUpWith(log: LogFile, luck: Luck) returns (updated: bool)
      modifies this
      ensures (disk, updated) == CatchUp(parse, old(disk), log, luck)
    {
      var offset: nat := if disk.identity != Some(log.identity) || |log.content| < disk.offset then 0 else disk.offset;
      updated := false;
      if |log.content| == offset {
        if !luck.Dies? {
          disk := disk.(identity := Some(log.identity));
        }
        return;
      }
      ghost var w := Reading(parse, disk, log, luck);
      var table, pending;
      table, offset, pending, updated := ReadLines(log.identity, disk.table, offset, Seen(disk, log, luck));
      if luck.Dies? {
        return false;
      }
      var changed;
      table, changed := InsertRows(table, pending);
      updated := updated || changed;
      disk := Store(table, offset, Some(log.identity));
    }

    method ReadLines(identity: string, base: Table, start: nat, lines: seq<RequestIndex.Bytes>)
      returns (table: Table, offset: nat, pending: seq<Entry>, updated: bool)
      modifies this
      ensures Work(disk, table, offset, pending, updated) ==
              OnLines(parse, identity, Work(old(disk), base, start, [], false), lines)
    {
      table, offset, pending, updated := base, start, [], false;
      var i := 0;
      while i < |lines|
        invariant 0 <= i <= |lines|
        invariant OnLines(parse, identity, Work(disk, table, offset, pending, updated), lines[i..]) ==
                  OnLines(parse, identity, Work(old(disk), base, start, [], false), lines)
      {
        OnLinesStep(parse, identity, Work(disk, table, offset, pending, updated), lines, i);
        table, offset, pending, updated := ReadLine(identity, table, offset, pending, updated, lines[i]);
        i := i + 1;
      }
    }

    method ReadLine(identity: string, base: Table, start: nat, waiting: seq<Entry>, flag: bool,
                    line: RequestIndex.Bytes)
      returns (table: Table, offset: nat, pending: seq<Entry>, updated: bool)
      modifies this
      ensures Work(disk, table, offset, pending, updated) ==
              OnLine(parse, identity, Work(old(disk), base, start, waiting, flag), line)
    {
      table, offset, pending, updated := base, start + |line|, waiting, flag;
      var row := parse(line);
      if !row.Skipped? {
        pending := pending + [row];
      }
      if |pending| >= INGEST_BATCH {
        var changed;
        table, changed := InsertRows(table, pending);
        updated, pending := updated || changed, [];
        disk := Store(table, offset, Some(identity));
      }
    }

    method InsertRows(table: Table, rows: seq<Entry>) returns (result: Table, updated: bool)
      ensures (result, updated) == Ingest(table, rows)
    {
      result, updated := table, false;
      var i := 0;
      while i < |rows|
        invariant 0 <= i <= |rows|
        invariant Ingest(result, rows[i..]).0 == Ingest(table, rows).0
        invariant (updated || Ingest(result, rows[i..]).1) == Ingest(table, rows).1
      {
        assert rows[i..][0] == rows[i] && rows[i..][1..] == rows[i + 1..];
        var (next, changed) := Apply(result, rows[i]);
        result, updated := next, updated || changed;
        i := i + 1;
      }
    }

    method TailRows(log: LogFile, cursor: Option<nat>, limit: int, keep: Row -> bool) returns (batch: Batch)
      modifies this
      ensures disk == CatchUp(parse, old(disk), log, Completes).0
      ensures batch == Tail(disk.table, CatchUp(parse, old(disk), log, Completes).1, cursor, limit, keep)
    {
      var updated := CatchUpWith(log, Completes);
      var table := disk.table;
      var head := Head(table);
      if cursor.None? {
        return Batch(head, [], false);
      }
      var start := cursor.value;
      if updated || start > head || head - start > MAX_TAIL_REPLAY || HasCorrectionBehind(table, start) {
        return Batch(head, [], true);
      }
      var rows := SelectBehind(table, start, Bounded(limit), keep);
      batch := Batch(if |rows| >= Bounded(limit) then rows[|rows| - 1].rowid else head, rows, false);
    }

    method SelectBehind(table: Table, start: nat, limit: nat, keep: Row -> bool) returns (rows: seq<Row>)
      ensures var all := Filter(Later(table, start), keep);
              rows == if |all| > limit then all[..limit] else all
    {
      rows := [];
      var i := 0;
      while i < |table| && |rows| < limit
        invariant 0 <= i <= |table| && |rows| <= limit
        invariant Filter(Later(table, start), keep) == rows + Filter(Later(table[i..], start), keep)
      {
        FilterStep(table, i, start, keep);
        if table[i].rowid > start && keep(table[i]) {
          MoveFirst(rows, table[i], Filter(Later(table[i + 1..], start), keep));
          rows := rows + [table[i]];
        } else {
          assert [] + Filter(Later(table[i + 1..], start), keep) == Filter(Later(table[i + 1..], start), keep);
        }
        i := i + 1;
      }
      assert i == |table| ==> table[i..] == [] && Filter(Later(table[i..], start), keep) == [];
      FirstOfAll(rows, Filter(Later(table[i..], start), keep), limit);
    }
  }

  lemma {:induction false} OnLinesStep(parse: RequestIndex.Bytes -> Entry, identity: string, w: Work,
                                       lines: seq<RequestIndex.Bytes>, i: nat)
    requires i < |lines|
    ensures OnLines(parse, identity, w, lines[i..]) ==
        OnLines(parse, identity, OnLine(parse, identity, w, lines[i]), lines[i + 1..])
  {
    assert lines[i..][0] == lines[i] && lines[i..][1..] == lines[i + 1..];
  }

  lemma {:induction false} MoveFirst(rows: seq<Row>, row: Row, rest: seq<Row>)
    ensures rows + ([row] + rest) == (rows + [row]) + rest
  {
  }

  lemma {:induction false} FirstOfAll(rows: seq<Row>, rest: seq<Row>, limit: nat)
    requires |rows| <= limit && (rest == [] || |rows| == limit)
    ensures rows == if |rows + rest| > limit then (rows + rest)[..limit] else rows + rest
  {
  }

  /** One more row: it is taken when it is behind the cursor and passes the filter. */
  lemma {:induction false} FilterStep(table: Table, i: nat, start: nat, keep: Row -> bool)
    requires i < |table|
    ensures Filter(Later(table[i..], start), keep) ==
            (if table[i].rowid > start && keep(table[i]) then [table[i]] else [])
            + Filter(Later(table[i + 1..], start), keep)
  {
    assert table[i..][0] == table[i] && table[i..][1..] == table[i + 1..];
    if table[i].rowid > start {
      FilterLater(table[i..], start, keep);
    }
  }

  lemma {:induction false} FilterLater(rows: seq<Row>, cursor: nat, keep: Row -> bool)
    requires rows != [] && rows[0].rowid > cursor
    ensures Filter(Later(rows, cursor), keep) ==
            (if keep(rows[0]) then [rows[0]] else []) + Filter(Later(rows[1..], cursor), keep)
  {
    assert ([rows[0]] + Later(rows[1..], cursor))[1..] == Later(rows[1..], cursor);
  }
}
