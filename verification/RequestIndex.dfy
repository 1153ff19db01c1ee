/** The derived request index of `src/ficelle/request_log.py`: a table that follows an append-only log. */
module RequestIndex {
  /*
    It is caught up a batch at a time and survives a crash between commits.  Retention (`_trim`) and
    schema rebuilds are set aside, so row ids only grow.
   */
  import opened Wrappers

  /** The log is a byte string, one character per byte. */
  type Bytes = seq<char>

  /** A parsed line: nothing, a routed request, or a correction of an earlier row's delivery. */
  datatype Entry =
    | Skipped
    | Route(id: string, data: RowData, reason: Option<string>, errorType: Option<string>)
    | Delivery(id: string, errorType: Option<string>)

  /** The columns that a correction leaves alone. */
  datatype RowData = RowData(ts: Option<real>, latency: Option<real>, rest: string)

  datatype Row = Row(
    rowid: nat,
    id: string,
    data: RowData,
    reason: Option<string>,
    errorType: Option<string>,
    corrected: bool
  )

  /** The rows in row id order. */
  type Table = seq<Row>

  const DISCONNECTED: Option<string> := Some("client_disconnected")

  // ---------------------------------------------------------------------------------------------
  // Ingesting parsed lines
  // ---------------------------------------------------------------------------------------------

  /** `COALESCE(MAX(rowid), 0)`. */
  function Head(t: Table): nat {
    if t == [] then 0 else t[|t| - 1].rowid
  }

  function Lookup(t: Table, id: string): (r: Option<Row>)
    ensures r.Some? ==> r.value in t && r.value.id == id
    ensures r.None? ==> forall x :: x in t ==> x.id != id
  {
    if t == [] then None else if t[0].id == id then Some(t[0]) else Lookup(t[1..], id)
  }

  function Without(t: Table, id: string): Table {
    if t == [] then [] else if t[0].id == id then t[1..] else [t[0]] + Without(t[1..], id)
  }

  predicate Says(r: Row, errorType: Option<string>) {
    r.reason == DISCONNECTED && r.errorType == errorType
  }

  /** `INSERT OR IGNORE`, or the `UPDATE` of a delivery correction; the flag is `delivery_updated`. */
  function Apply(t: Table, e: Entry): (Table, bool) {
    match e
    case Skipped => (t, false)
    case Route(id, data, reason, errorType) =>
      if Lookup(t, id).Some? then (t, false)
      else (t + [Row(Head(t) + 1, id, data, reason, errorType, false)], false)
    case Delivery(id, errorType) =>
      match Lookup(t, id)
      case None => (t, false)
      case Some(r) =>
        if Says(r, errorType) then (t, false)
        else (Without(t, id) + [Row(Head(t) + 1, id, r.data, DISCONNECTED, errorType, true)], true)
  }

  /** `_insert_rows`, in source order. */
  function Ingest(t: Table, entries: seq<Entry>): (Table, bool)
    decreases |entries|
  {
    if entries == [] then (t, false)
    else
      var (t1, u1) := Apply(t, entries[0]);
      var (t2, u2) := Ingest(t1, entries[1..]);
      (t2, u1 || u2)
  }

  lemma {:induction false} IngestAppend(t: Table, a: seq<Entry>, b: seq<Entry>)
    ensures Ingest(t, a + b).0 == Ingest(Ingest(t, a).0, b).0
    ensures Ingest(t, a + b).1 == (Ingest(t, a).1 || Ingest(Ingest(t, a).0, b).1)
    decreases |a|
  {
    if a == [] {
      assert a + b == b;
    } else {
      assert (a + b)[0] == a[0] && (a + b)[1..] == a[1..] + b;
      IngestAppend(Apply(t, a[0]).0, a[1..], b);
    }
  }

  // ---------------------------------------------------------------------------------------------
  // Catching up with the log
  // ---------------------------------------------------------------------------------------------

  const INGEST_BATCH: nat := 1000

  /** The number of bytes of the first line with its newline, or 0 when there is no complete line. */
  function LineLength(bytes: Bytes): (n: nat)
    ensures n <= |bytes|
  {
    if bytes == [] then 0
    else if bytes[0] == '\n' then 1
    else if LineLength(bytes[1..]) == 0 then 0
    else 1 + LineLength(bytes[1..])
  }

  /** `readline` until the end or a partial line. */
  function Lines(bytes: Bytes): seq<Bytes>
    decreases |bytes|
  {
    var n := LineLength(bytes);
    if n == 0 then [] else [bytes[..n]] + Lines(bytes[n..])
  }

  function Total(lines: seq<Bytes>): nat
    decreases |lines|
  {
    if lines == [] then 0 else |lines[0]| + Total(lines[1..])
  }

  function Parsed(parse: Bytes -> Entry, lines: seq<Bytes>): seq<Entry>
    decreases |lines|
  {
    if lines == [] then []
    else (if parse(lines[0]).Skipped? then [] else [parse(lines[0])]) + Parsed(parse, lines[1..])
  }

  /** What is on disk: the table, the meta offset and the identity of the log it belongs to. */
  datatype Store = Store(table: Table, offset: nat, identity: Option<string>)

  datatype LogFile = LogFile(identity: string, content: Bytes)

  /** How a catch-up goes: to the end, a read error after some lines, or a crash after some lines. */
  datatype Luck = Completes | ReadFails(lines: nat) | Dies(lines: nat)

  /** A catch-up under way: the last commit, and what is not committed yet. */
  datatype Work = Work(disk: Store, table: Table, offset: nat, pending: seq<Entry>, updated: bool)

  function Flushed(w: Work): Work {
    var (t, u) := Ingest(w.table, w.pending);
    w.(table := t, pending := [], updated := w.updated || u)
  }

  function Committed(w: Work, identity: string): Work {
    w.(disk := Store(w.table, w.offset, Some(identity)))
  }

  /** One complete line. */
  function OnLine(parse: Bytes -> Entry, identity: string, w: Work, line: Bytes): Work {
    var e := parse(line);
    var noted := w.(offset := w.offset + |line|, pending := if e.Skipped? then w.pending else w.pending + [e]);
    if |noted.pending| >= INGEST_BATCH then Committed(Flushed(noted), identity) else noted
  }

  function OnLines(parse: Bytes -> Entry, identity: string, w: Work, lines: seq<Bytes>): Work
    decreases |lines|
  {
    if lines == [] then w else OnLines(parse, identity, OnLine(parse, identity, w, lines[0]), lines[1..])
  }

  /** Where reading starts. */
  function StartOffset(s: Store, log: LogFile): (n: nat)
    ensures n <= |log.content|
  {
    if s.identity != Some(log.identity) || |log.content| < s.offset then 0 else s.offset
  }

  /** The lines a catch-up gets to read. */
  function Seen(s: Store, log: LogFile, luck: Luck): seq<Bytes> {
    var lines := Lines(log.content[StartOffset(s, log)..]);
    match luck
    case Completes => lines
    case ReadFails(n) => if n <= |lines| then lines[..n] else lines
    case Dies(n) => if n <= |lines| then lines[..n] else lines
  }

  /** The work after the lines that a catch-up sees. */
  function Reading(parse: Bytes -> Entry, s: Store, log: LogFile, luck: Luck): Work {
    OnLines(parse, log.identity, Work(s, s.table, StartOffset(s, log), [], false), Seen(s, log, luck))
  }

  /** `_catch_up`: the store it leaves on disk, and whether it reports a delivery correction. */
  function CatchUp(parse: Bytes -> Entry, s: Store, log: LogFile, luck: Luck): (Store, bool) {
    var start := StartOffset(s, log);
    if |log.content| == start then
      // only the identity is committed here: the meta offset keeps its old value
      (if luck.Dies? then s else s.(identity := Some(log.identity)), false)
    else
      var w := Reading(parse, s, log, luck);
      if luck.Dies? then (w.disk, false)
      else
        var last := Committed(Flushed(w), log.identity);
        (last.disk, last.updated)
  }

  // ---------------------------------------------------------------------------------------------
  // The incremental index equals a replay of the log
  // ---------------------------------------------------------------------------------------------

  /** The bytes end where a line ends. */
  predicate AtLineEnd(bytes: Bytes) {
    bytes == [] || bytes[|bytes| - 1] == '\n'
  }

  /** One sequential ingest of the complete lines into an empty table. */
  function Replay(parse: Bytes -> Entry, bytes: Bytes): Table {
    Ingest([], Parsed(parse, Lines(bytes))).0
  }

  /** The store is a replay of the part of the log it has committed. */
  ghost predicate Synced(parse: Bytes -> Entry, s: Store, log: LogFile) {
    && (s.identity == Some(log.identity) || s == Store([], 0, s.identity))
    && s.offset <= |log.content|
    && AtLineEnd(log.content[..s.offset])
    && s.table == Replay(parse, log.content[..s.offset])
  }

  lemma {:induction false} LineLengthAppend(a: Bytes, b: Bytes)
    requires LineLength(a) != 0
    ensures LineLength(a + b) == LineLength(a)
    ensures a[LineLength(a) - 1] == '\n'
    decreases |a|
  {
    if a[0] != '\n' {
      assert (a + b)[1..] == a[1..] + b;
      LineLengthAppend(a[1..], b);
    }
  }

  lemma {:induction false} NoLineLength(a: Bytes)
    requires a != [] && AtLineEnd(a)
    ensures LineLength(a) != 0
    decreases |a|
  {
    if a[0] != '\n' {
      NoLineLength(a[1..]);
    }
  }

  /** Lines before a line end and lines after it are independent. */
  lemma {:induction false} LinesAppend(a: Bytes, b: Bytes)
    requires AtLineEnd(a)
    ensures Lines(a + b) == Lines(a) + Lines(b)
    decreases |a|
  {
    if a == [] {
      assert a + b == b;
    } else {
      NoLineLength(a);
      LineLengthAppend(a, b);
      var n := LineLength(a);
      assert (a + b)[..n] == a[..n] && (a + b)[n..] == a[n..] + b;
      LinesAppend(a[n..], b);
    }
  }

  lemma {:induction false} ParsedAppend(parse: Bytes -> Entry, a: seq<Bytes>, b: seq<Bytes>)
    ensures Parsed(parse, a + b) == Parsed(parse, a) + Parsed(parse, b)
    decreases |a|
  {
    if a == [] {
      assert a + b == b;
    } else {
      assert (a + b)[0] == a[0] && (a + b)[1..] == a[1..] + b;
      ParsedAppend(parse, a[1..], b);
    }
  }

  /** The bytes are these complete lines and nothing else. */
  predicate IsWhole(bytes: Bytes, lines: seq<Bytes>) {
    AtLineEnd(bytes) && Lines(bytes) == lines && Total(lines) == |bytes|
  }

  /** Some prefix of the bytes is exactly the first `k` lines. */
  lemma {:induction false} LinesPrefix(bytes: Bytes, k: nat) returns (p: Bytes, q: Bytes)
    requires k <= |Lines(bytes)|
    ensures bytes == p + q && IsWhole(p, Lines(bytes)[..k])
    decreases |bytes|
  {
    if k == 0 {
      p, q := [], bytes;
      assert Lines(bytes)[..0] == [] && Lines([]) == [];
    } else {
      var n := LineLength(bytes);
      p, q := LinesPrefix(bytes[n..], k - 1);
      PrependLine(bytes, k, p, q);
      p := bytes[..n] + p;
    }
  }

  lemma {:induction false} PrependLine(bytes: Bytes, k: nat, p: Bytes, q: Bytes)
    requires 0 < k <= |Lines(bytes)|
    requires var tail := bytes[LineLength(bytes)..];
             tail == p + q && IsWhole(p, Lines(tail)[..k - 1])
    ensures var head := bytes[..LineLength(bytes)];
            bytes == (head + p) + q && IsWhole(head + p, Lines(bytes)[..k])
  {
    var n := LineLength(bytes);
    var head, tail := bytes[..n], bytes[n..];
    WholeLine(bytes);
    ConsPrefix(head, Lines(tail), k);
    JoinWhole(head, p, [head], Lines(tail)[..k - 1]);
    CutAndJoin(bytes, n);
    Associative(head, p, q);
  }

  lemma {:induction false} CutAndJoin(s: Bytes, n: nat)
    requires n <= |s|
    ensures s == s[..n] + s[n..]
  {
  }

  lemma {:induction false} Associative(a: Bytes, b: Bytes, c: Bytes)
    ensures a + (b + c) == (a + b) + c
  {
  }

  lemma {:induction false} ConsPrefix(x: Bytes, xs: seq<Bytes>, k: nat)
    requires 0 < k <= |xs| + 1
    ensures ([x] + xs)[..k] == [x] + xs[..k - 1]
  {
  }

  lemma {:induction false} JoinWhole(a: Bytes, b: Bytes, x: seq<Bytes>, y: seq<Bytes>)
    requires IsWhole(a, x) && IsWhole(b, y)
    ensures IsWhole(a + b, x + y)
  {
    LinesAppend(a, b);
    LineEndAppend(a, b);
    TotalAppend(x, y);
  }

  lemma {:induction false} WholeLine(bytes: Bytes)
    requires LineLength(bytes) != 0
    ensures IsWhole(bytes[..LineLength(bytes)], [bytes[..LineLength(bytes)]])
  {
    var n := LineLength(bytes);
    LineLengthAppend(bytes, []);
    LineLengthOfLine(bytes);
    assert bytes[..n][..n] == bytes[..n];
    assert bytes[..n][n..] == [];
    assert Lines([]) == [];
  }

  lemma {:induction false} LineLengthOfLine(bytes: Bytes)
    requires LineLength(bytes) != 0
    ensures LineLength(bytes[..LineLength(bytes)]) == LineLength(bytes)
    decreases |bytes|
  {
    if bytes[0] != '\n' {
      var n := LineLength(bytes);
      LineLengthOfLine(bytes[1..]);
      assert bytes[..n][1..] == bytes[1..][..n - 1];
    }
  }

  /** What is not committed yet is the rest of the lines read. */
  ghost predicate OnTrack(parse: Bytes -> Entry, w: Work, base: Table, lines: seq<Bytes>, start: nat) {
    && w.offset == start + Total(lines)
    && Ingest(w.table, w.pending).0 == Ingest(base, Parsed(parse, lines)).0
    && (w.updated || Ingest(w.table, w.pending).1) == Ingest(base, Parsed(parse, lines)).1
  }

  /** The last commit is the store before, or an ingest of some of the lines up to their end. */
  ghost predicate CommittedPrefix(parse: Bytes -> Entry, w: Work, s: Store, identity: string, lines: seq<Bytes>,
                                  start: nat) {
    || w.disk == s
    || exists k :: && 0 <= k <= |lines|
                   && w.disk == Store(Ingest(s.table, Parsed(parse, lines[..k])).0, start + Total(lines[..k]),
                       Some(identity))
  }

  lemma {:induction false} TotalAppend(a: seq<Bytes>, b: seq<Bytes>)
    ensures Total(a + b) == Total(a) + Total(b)
    decreases |a|
  {
    if a == [] {
      assert a + b == b;
    } else {
      assert (a + b)[0] == a[0] && (a + b)[1..] == a[1..] + b;
      TotalAppend(a[1..], b);
    }
  }

  lemma {:induction false} OnLineKeepsTrack(parse: Bytes -> Entry, identity: string, w: Work, s: Store,
                                            lines: seq<Bytes>, line: Bytes, start: nat)
    requires OnTrack(parse, w, s.table, lines, start)
    requires CommittedPrefix(parse, w, s, identity, lines, start)
    ensures OnTrack(parse, OnLine(parse, identity, w, line), s.table, lines + [line], start)
    ensures CommittedPrefix(parse, OnLine(parse, identity, w, line), s, identity, lines + [line], start)
  {
    var next := OnLine(parse, identity, w, line);
    var e := parse(line);
    var fresh_ := if e.Skipped? then [] else [e];
    ParsedAppend(parse, lines, [line]);
    assert Parsed(parse, [line]) == fresh_ + Parsed(parse, [line][1..]) == fresh_;
    TotalAppend(lines, [line]);
    assert Total([line]) == |line| + Total([line][1..]) == |line|;
    IngestAppend(s.table, Parsed(parse, lines), fresh_);
    IngestAppend(w.table, w.pending, fresh_);
    assert w.pending + [] == w.pending;
    if next.disk != w.disk {
      var k := |lines| + 1;
      assert (lines + [line])[..k] == lines + [line];
    } else if w.disk != s {
      var k :| 0 <= k <= |lines| && w.disk ==
          Store(Ingest(s.table, Parsed(parse, lines[..k])).0, start + Total(lines[..k]), Some(identity));
      assert (lines + [line])[..k] == lines[..k];
    }
  }

  lemma {:induction false} OnLinesKeepTrack(parse: Bytes -> Entry, identity: string, w: Work, s: Store,
                                            before: seq<Bytes>, lines: seq<Bytes>, start: nat)
    requires OnTrack(parse, w, s.table, before, start)
    requires CommittedPrefix(parse, w, s, identity, before, start)
    ensures OnTrack(parse, OnLines(parse, identity, w, lines), s.table, before + lines, start)
    ensures CommittedPrefix(parse, OnLines(parse, identity, w, lines), s, identity, before + lines, start)
    decreases |lines|
  {
    if lines == [] {
      assert before + lines == before;
    } else {
      OnLineKeepsTrack(parse, identity, w, s, before, lines[0], start);
      assert before + lines == before + [lines[0]] + lines[1..];
      OnLinesKeepTrack(parse, identity, OnLine(parse, identity, w, lines[0]), s, before + [lines[0]], lines[1..],
          start);
    }
  }

  lemma {:induction false} FreshWork(parse: Bytes -> Entry, s: Store, identity: string, start: nat)
    ensures var w := Work(s, s.table, start, [], false);
            OnTrack(parse, w, s.table, [], start) && CommittedPrefix(parse, w, s, identity, [], start)
  {
  }

  /** The store `r`, left by a catch-up: the one before, or an ingest of the first `k` lines, up to their end. */
  ghost predicate Commits(parse: Bytes -> Entry, s: Store, log: LogFile, r: Store, k: nat) {
    var start := StartOffset(s, log);
    var lines := Lines(log.content[start..]);
    && k <= |lines|
    && (|| (r == s && k == 0)
        || (r == s.(identity := Some(log.identity)) && k == 0 && start == |log.content|)
        || r == Store(Ingest(s.table, Parsed(parse, lines[..k])).0, start + Total(lines[..k]), Some(log.identity)))
  }

  lemma {:induction false} ReadingKeepsTrack(parse: Bytes -> Entry, s: Store, log: LogFile, luck: Luck)
    ensures var w := Reading(parse, s, log, luck);
            var seen := Seen(s, log, luck);
            OnTrack(parse, w, s.table, seen, StartOffset(s, log))
            && CommittedPrefix(parse, w, s, log.identity, seen, StartOffset(s, log))
  {
    var start := StartOffset(s, log);
    FreshWork(parse, s, log.identity, start);
    OnLinesKeepTrack(parse, log.identity, Work(s, s.table, start, [], false), s, [], Seen(s, log, luck), start);
    assert [] + Seen(s, log, luck) == Seen(s, log, luck);
  }

  lemma {:induction false} SeenIsPrefix(s: Store, log: LogFile, luck: Luck)
    ensures var lines := Lines(log.content[StartOffset(s, log)..]);
            && |Seen(s, log, luck)| <= |lines|
            && Seen(s, log, luck) == lines[..|Seen(s, log, luck)|]
            && (luck.Completes? ==> |Seen(s, log, luck)| == |lines|)
            && (|log.content| == StartOffset(s, log) ==> lines == [])
  {
    var lines := Lines(log.content[StartOffset(s, log)..]);
    assert lines[..|lines|] == lines;
    assert Lines([]) == [];
  }

  lemma {:induction false} DyingCommits(parse: Bytes -> Entry, s: Store, log: LogFile, luck: Luck) returns (k: nat)
    ensures Commits(parse, s, log, Reading(parse, s, log, luck).disk, k)
  {
    ReadingKeepsTrack(parse, s, log, luck);
    SeenIsPrefix(s, log, luck);
    var w := Reading(parse, s, log, luck);
    var seen := Seen(s, log, luck);
    var start := StartOffset(s, log);
    if w.disk == s {
      k := 0;
    } else {
      k :| 0 <= k <= |seen| && w.disk ==
          Store(Ingest(s.table, Parsed(parse, seen[..k])).0, start + Total(seen[..k]), Some(log.identity));
      assert seen[..k] == Lines(log.content[start..])[..k];
    }
  }

  lemma {:induction false} FinishingCommits(parse: Bytes -> Entry, s: Store, log: LogFile, luck: Luck)
    ensures var last := Committed(Flushed(Reading(parse, s, log, luck)), log.identity);
            && Commits(parse, s, log, last.disk, |Seen(s, log, luck)|)
            && last.updated == Ingest(s.table, Parsed(parse, Seen(s, log, luck))).1
  {
    ReadingKeepsTrack(parse, s, log, luck);
    SeenIsPrefix(s, log, luck);
  }

  /** A catch-up commits some of the lines it saw, and all of the lines when it completes. */
  lemma {:induction false} CatchUpCommits(parse: Bytes -> Entry, s: Store, log: LogFile, luck: Luck) returns (k: nat)
    ensures Commits(parse, s, log, CatchUp(parse, s, log, luck).0, k)
    ensures luck.Completes? ==> k == |Lines(log.content[StartOffset(s, log)..])|
    ensures !luck.Dies? ==> CatchUp(parse, s, log, luck).1 == Ingest(s.table, Parsed(parse, Seen(s, log, luck))).1
  {
    SeenIsPrefix(s, log, luck);
    if |log.content| == StartOffset(s, log) {
      k := 0;
    } else if luck.Dies? {
      k := DyingCommits(parse, s, log, luck);
    } else {
      k := |Seen(s, log, luck)|;
      FinishingCommits(parse, s, log, luck);
    }
  }

  lemma {:induction false} CommittedTable(parse: Bytes -> Entry, s: Store, log: LogFile, r: Store, k: nat)
    requires Commits(parse, s, log, r, k)
    requires k == |Lines(log.content[StartOffset(s, log)..])|
    ensures r.table == Ingest(s.table, Parsed(parse, Lines(log.content[StartOffset(s, log)..]))).0
  {
    var lines := Lines(log.content[StartOffset(s, log)..]);
    assert lines[..k] == lines;
  }

  /** Replaying a prefix that ends with a line, then the lines after it. */
  lemma {:induction false} ReplayAppend(parse: Bytes -> Entry, a: Bytes, b: Bytes)
    requires AtLineEnd(a)
    ensures Replay(parse, a + b) == Ingest(Replay(parse, a), Parsed(parse, Lines(b))).0
  {
    ReadOn(parse, [], a, b);
  }

  /** A catch-up, interrupted anywhere, keeps the store a replay of what it committed. */
  lemma {:induction false} CatchUpKeepsSynced(parse: Bytes -> Entry, s: Store, log: LogFile, luck: Luck)
    requires Synced(parse, s, log)
    ensures Synced(parse, CatchUp(parse, s, log, luck).0, log)
    ensures luck.Completes? ==> CatchUp(parse, s, log, luck).0.table == Replay(parse, log.content)
  {
    var k := CatchUpCommits(parse, s, log, luck);
    CommitsKeepSynced(parse, s, log, CatchUp(parse, s, log, luck).0, k);
    if luck.Completes? {
      CommittedTable(parse, s, log, CatchUp(parse, s, log, luck).0, k);
      ReplayRest(parse, s, log);
    }
  }

  lemma {:induction false} CommitsKeepSynced(parse: Bytes -> Entry, s: Store, log: LogFile, r: Store, k: nat)
    requires Synced(parse, s, log) && Commits(parse, s, log, r, k)
    ensures Synced(parse, r, log)
  {
    if r != s && r != s.(identity := Some(log.identity)) {
      CommitKeepsSynced(parse, s, log, k);
    }
  }

  lemma {:induction false} ReplayRest(parse: Bytes -> Entry, s: Store, log: LogFile)
    requires Synced(parse, s, log)
    ensures Ingest(s.table, Parsed(parse, Lines(log.content[s.offset..]))).0 == Replay(parse, log.content)
  {
    var a, b := log.content[..s.offset], log.content[s.offset..];
    assert log.content == a + b;
    ReplayAppend(parse, a, b);
  }

  lemma {:induction false} SyncedAt(parse: Bytes -> Entry, s: Store, log: LogFile, committed: Bytes, rest: Bytes)
    requires log.content == committed + rest && |committed| == s.offset && AtLineEnd(committed)
    requires s.identity == Some(log.identity) && s.table == Replay(parse, committed)
    ensures Synced(parse, s, log)
  {
    assert log.content[..s.offset] == committed;
  }

  lemma {:induction false} CommitKeepsSynced(parse: Bytes -> Entry, s: Store, log: LogFile, k: nat)
    requires Synced(parse, s, log)
    requires k <= |Lines(log.content[s.offset..])|
    ensures var lines := Lines(log.content[s.offset..])[..k];
            Synced(parse, Store(Ingest(s.table, Parsed(parse, lines)).0, s.offset + Total(lines), Some(log.identity)),
                log)
  {
    var a, b := log.content[..s.offset], log.content[s.offset..];
    CutAndJoin(log.content, s.offset);
    var p, q := LinesPrefix(b, k);
    var lines := Lines(b)[..k];
    CommittedAfter(parse, s.table, a, p, lines);
    Associative(a, p, q);
    SyncedAt(parse, Store(Ingest(s.table, Parsed(parse, lines)).0, s.offset + Total(lines), Some(log.identity)), log,
        a + p, q);
  }

  lemma {:induction false} CommittedAfter(parse: Bytes -> Entry, table: Table, a: Bytes, p: Bytes, lines: seq<Bytes>)
    requires AtLineEnd(a) && IsWhole(p, lines) && table == Replay(parse, a)
    ensures AtLineEnd(a + p)
    ensures Ingest(table, Parsed(parse, lines)).0 == Replay(parse, a + p)
  {
    ReplayAppend(parse, a, p);
    LineEndAppend(a, p);
  }

  lemma {:induction false} LineEndAppend(a: Bytes, b: Bytes)
    requires AtLineEnd(a) && AtLineEnd(b)
    ensures AtLineEnd(a + b)
  {
    if b == [] {
      assert a + b == a;
    }
  }

  /** One thing that happens to the log or to the index. */
  datatype Op = Append(bytes: Bytes) | Catch(luck: Luck)

  function AfterOps(parse: Bytes -> Entry, s: Store, log: LogFile, ops: seq<Op>): (Store, LogFile)
    decreases |ops|
  {
    if ops == [] then (s, log)
    else
      match ops[0]
      case Append(bytes) => AfterOps(parse, s, log.(content := log.content + bytes), ops[1..])
      case Catch(luck) => AfterOps(parse, CatchUp(parse, s, log, luck).0, log, ops[1..])
  }

  lemma {:induction false} OpsKeepSynced(parse: Bytes -> Entry, s: Store, log: LogFile, ops: seq<Op>)
    requires Synced(parse, s, log)
    ensures var (s', log') := AfterOps(parse, s, log, ops); Synced(parse, s', log')
    decreases |ops|
  {
    if ops != [] {
      match ops[0]
      case Append(bytes) =>
        var grown := log.(content := log.content + bytes);
        assert grown.content[..s.offset] == log.content[..s.offset];
        OpsKeepSynced(parse, s, grown, ops[1..]);
      case Catch(luck) =>
        CatchUpKeepsSynced(parse, s, log, luck);
        OpsKeepSynced(parse, CatchUp(parse, s, log, luck).0, log, ops[1..]);
    }
  }

  /**
    After every schedule of appends and interrupted catch-ups, one that completes leaves exactly the
    table, row ids included, that a single sequential ingest of the complete lines builds.
   */
  lemma {:induction false} IncrementalIndexIsReplay(parse: Bytes -> Entry, identity: string, ops: seq<Op>)
    ensures var (s, log) := AfterOps(parse, Store([], 0, None), LogFile(identity, []), ops);
            && s.offset <= |log.content|
            && s.table == Replay(parse, log.content[..s.offset])
            && CatchUp(parse, s, log, Completes).0.table == Replay(parse, log.content)
  {
    var none := Store([], 0, None);
    var empty := LogFile(identity, []);
    assert empty.content[..0] == [] && Lines([]) == [];
    OpsKeepSynced(parse, none, empty, ops);
    var (s, log) := AfterOps(parse, none, empty, ops);
    CatchUpKeepsSynced(parse, s, log, Completes);
  }

  // ---------------------------------------------------------------------------------------------
  // A log that was rotated
  // ---------------------------------------------------------------------------------------------

  /**
    The index meets another log file, first with content `first`, later with content `grown`.  All of its
    lines are read from byte zero exactly when the file was not seen empty, or the old offset was zero
    or is past its end; otherwise reading resumes at the old file's offset.
   */
  lemma {:induction false} RotatedLogIsReadFrom(parse: Bytes -> Entry, s: Store, identity: string, first: Bytes,
                                                grown: Bytes)
    requires s.identity != Some(identity)
    requires first <= grown
    ensures var s1 := CatchUp(parse, s, LogFile(identity, first), Completes).0;
            var s2 := CatchUp(parse, s1, LogFile(identity, grown), Completes).0;
            var from := if first != [] || |grown| < s.offset then 0 else s.offset;
            s2.table == Ingest(s.table, Parsed(parse, Lines(grown[from..]))).0
  {
    var log1, log2 := LogFile(identity, first), LogFile(identity, grown);
    var k1 := CatchUpCommits(parse, s, log1, Completes);
    var s1 := CatchUp(parse, s, log1, Completes).0;
    assert first[0..] == first;
    CommittedTable(parse, s, log1, s1, k1);
    var k2 := CatchUpCommits(parse, s1, log2, Completes);
    CommittedTable(parse, s1, log2, CatchUp(parse, s1, log2, Completes).0, k2);
    assert grown[0..] == grown;
    if first != [] {
      RotatedStart(parse, s, log1, s1, k1, grown);
    }
  }

  lemma {:induction false} OneLine(c: char)
    requires c != '\n'
    ensures Lines([c, '\n']) == [[c, '\n']]
  {
    var line := [c, '\n'];
    assert line[1..] == ['\n'] && LineLength(line) == 2;
    assert line[..2] == line && line[2..] == [];
    assert Lines([]) == [];
  }

  lemma {:induction false} OneRow(parse: Bytes -> Entry, t: Table, line: Bytes)
    requires parse(line).Route? && Lookup(t, parse(line).id).None?
    ensures var e := parse(line);
            Ingest(t, Parsed(parse, [line])).0 == t + [Row(Head(t) + 1, e.id, e.data, e.reason, e.errorType, false)]
  {
    var none: seq<Bytes> := [];
    assert [line][1..] == none && Parsed(parse, none) == [];
    assert Parsed(parse, [line]) == [parse(line)];
    assert [parse(line)][1..] == [];
  }

  /**
    A log that replaces one of the same length and is first seen empty: its row never reaches the table,
    however often the index catches up.
   */
  lemma {:induction false} RotatedLogLosesRow(parse: Bytes -> Entry, identity: string, other: string)
    requires identity != other
    requires parse("a\n").Route? && parse("a\n").id == "a" && parse("b\n").Route? && parse("b\n").id == "b"
    ensures var s := CatchUp(parse, Store([], 0, None), LogFile(identity, "a\n"), Completes).0;
            var s1 := CatchUp(parse, s, LogFile(other, []), Completes).0;
            var s2 := CatchUp(parse, s1, LogFile(other, "b\n"), Completes).0;
            && Lookup(s.table, "a").Some?
            && Lookup(s2.table, "b").None? && CatchUp(parse, s2, LogFile(other, "b\n"), Completes).0 == s2
            && Lookup(Replay(parse, "b\n"), "b").Some?
  {
    var s := FirstLog(parse, identity);
    var log := LogFile(other, "b\n");
    OneLine('b');
    OneRow(parse, [], "b\n");
    var s1 := CatchUp(parse, s, LogFile(other, []), Completes).0;
    assert s1 == s.(identity := Some(other));
    assert StartOffset(s1, log) == 2 == |log.content|;
    assert CatchUp(parse, s1, log, Completes).0 == s1;
  }

  lemma {:induction false} FirstLog(parse: Bytes -> Entry, identity: string) returns (s: Store)
    requires parse("a\n").Route? && parse("a\n").id == "a"
    ensures s == CatchUp(parse, Store([], 0, None), LogFile(identity, "a\n"), Completes).0
    ensures s.offset == 2 && s.identity == Some(identity) && |s.table| == 1 && s.table[0].id == "a"
  {
    var none, log := Store([], 0, None), LogFile(identity, "a\n");
    s := CatchUp(parse, none, log, Completes).0;
    assert log.content[0..] == "a\n";
    OneLine('a');
    OneRow(parse, [], "a\n");
    var k := CatchUpCommits(parse, none, log, Completes);
    assert ["a\n"][..1] == ["a\n"] && ["a\n"][1..] == [];
    assert Total(["a\n"]) == 2;
    assert k == 1 && s == Store(Ingest([], Parsed(parse, ["a\n"])).0, 2, Some(identity));
  }

  /** After a first reading of the new file, its lines so far and its later lines add up. */
  lemma {:induction false} RotatedStart(parse: Bytes -> Entry, s: Store, log: LogFile, r: Store, k: nat, grown: Bytes)
    requires s.identity != Some(log.identity) && log.content != [] && log.content <= grown
    requires Commits(parse, s, log, r, k) && k == |Lines(log.content)| && r.identity == Some(log.identity)
    requires r.table == Ingest(s.table, Parsed(parse, Lines(log.content))).0
    ensures r.offset <= |grown|
    ensures Ingest(r.table, Parsed(parse, Lines(grown[r.offset..]))).0 == Ingest(s.table, Parsed(parse, Lines(grown))).0
  {
    assert log.content[0..] == log.content;
    var lines := Lines(log.content);
    assert lines[..k] == lines;
    var p, q := LinesPrefix(log.content, k);
    assert r.offset == |p|;
    RestOf(p, q, grown);
    ReadOn(parse, s.table, p, grown[|p|..]);
  }

  lemma {:induction false} RestOf(p: Bytes, q: Bytes, grown: Bytes)
    requires p + q <= grown
    ensures grown == p + grown[|p|..]
  {
    assert grown[..|p|] == p;
  }

  /** Ingesting the lines of `a`, then those of `b`, is ingesting the lines of both. */
  lemma {:induction false} ReadOn(parse: Bytes -> Entry, t: Table, a: Bytes, b: Bytes)
    requires AtLineEnd(a)
    ensures Ingest(Ingest(t, Parsed(parse, Lines(a))).0, Parsed(parse, Lines(b))).0 ==
        Ingest(t, Parsed(parse, Lines(a + b))).0
  {
    LinesAppend(a, b);
    ParsedAppend(parse, Lines(a), Lines(b));
    IngestAppend(t, Parsed(parse, Lines(a)), Parsed(parse, Lines(b)));
  }

  // ---------------------------------------------------------------------------------------------
  // Reading the log again
  // ---------------------------------------------------------------------------------------------

  /** A row without its row id. */
  datatype Content = Content(data: RowData, reason: Option<string>, errorType: Option<string>, corrected: bool)

  function ContentOf(t: Table, id: string): Option<Content> {
    match Lookup(t, id)
    case None => None
    case Some(r) => Some(Content(r.data, r.reason, r.errorType, r.corrected))
  }

  predicate Unique(t: Table) {
    t == [] || (Lookup(t[1..], t[0].id).None? && Unique(t[1..]))
  }

  /** What one entry does to the content under one id. */
  function Affect(c: Option<Content>, e: Entry, id: string): Option<Content> {
    match e
    case Skipped => c
    case Route(x, data, reason, errorType) =>
      if x == id && c.None? then Some(Content(data, reason, errorType, false)) else c
    case Delivery(x, errorType) =>
      if x == id && c.Some? && !Settled(c.value, errorType) then
          Some(Content(c.value.data, DISCONNECTED, errorType, true)) else c
  }

  predicate Settled(c: Content, errorType: Option<string>) {
    c.reason == DISCONNECTED && c.errorType == errorType
  }

  function AffectAll(c: Option<Content>, entries: seq<Entry>, id: string): Option<Content>
    decreases |entries|
  {
    if entries == [] then c else AffectAll(Affect(c, entries[0], id), entries[1..], id)
  }

  lemma {:induction false} LookupAppend(t: Table, r: Row, id: string)
    ensures Lookup(t + [r], id) == if Lookup(t, id).Some? then Lookup(t, id) else if r.id == id then Some(r) else None
    decreases |t|
  {
    if t == [] {
      assert t + [r] == [r] && [r][1..] == [];
    } else {
      assert (t + [r])[0] == t[0] && (t + [r])[1..] == t[1..] + [r];
      LookupAppend(t[1..], r, id);
    }
  }

  lemma {:induction false} LookupWithout(t: Table, x: string, id: string)
    requires Unique(t)
    ensures Lookup(Without(t, x), id) == if id == x then None else Lookup(t, id)
    decreases |t|
  {
    if t != [] && t[0].id != x {
      LookupWithout(t[1..], x, id);
      assert ([t[0]] + Without(t[1..], x))[1..] == Without(t[1..], x);
    }
  }

  lemma {:induction false} UniqueAppend(t: Table, r: Row)
    requires Unique(t) && Lookup(t, r.id).None?
    ensures Unique(t + [r])
    decreases |t|
  {
    if t == [] {
      assert t + [r] == [r] && [r][1..] == [];
    } else {
      assert (t + [r])[0] == t[0] && (t + [r])[1..] == t[1..] + [r];
      UniqueAppend(t[1..], r);
      LookupAppend(t[1..], r, t[0].id);
    }
  }

  lemma {:induction false} UniqueWithout(t: Table, x: string)
    requires Unique(t)
    ensures Unique(Without(t, x))
    decreases |t|
  {
    if t != [] && t[0].id != x {
      UniqueWithout(t[1..], x);
      LookupWithout(t[1..], x, t[0].id);
      assert ([t[0]] + Without(t[1..], x))[1..] == Without(t[1..], x);
    }
  }

  /** One entry changes the table under its own id as `Affect` says, and nowhere else. */
  lemma {:induction false} ApplyAffects(t: Table, e: Entry, id: string)
    requires Unique(t)
    ensures Unique(Apply(t, e).0)
    ensures ContentOf(Apply(t, e).0, id) == Affect(ContentOf(t, id), e, id)
  {
    match e
    case Skipped =>
    case Route(x, data, reason, errorType) =>
      if Lookup(t, x).None? {
        var r := Row(Head(t) + 1, x, data, reason, errorType, false);
        UniqueAppend(t, r);
        LookupAppend(t, r, id);
      }
    case Delivery(x, errorType) =>
      if Lookup(t, x).Some? && !Says(Lookup(t, x).value, errorType) {
        var r := Row(Head(t) + 1, x, Lookup(t, x).value.data, DISCONNECTED, errorType, true);
        UniqueWithout(t, x);
        LookupWithout(t, x, x);
        LookupWithout(t, x, id);
        UniqueAppend(Without(t, x), r);
        LookupAppend(Without(t, x), r, id);
      }
  }

  /**
    A request keeps the content it first came with; a correction of a request that is there says that the
    client disconnected, with its error, unless the row says so already; nothing else changes a row.
   */
  lemma {:induction false} ApplyExactly(t: Table, e: Entry, id: string)
    requires Unique(t)
    ensures ContentOf(Apply(t, e).0, id) ==
            if e.Route? && e.id == id && ContentOf(t, id).None? then
              Some(Content(e.data, e.reason, e.errorType, false))
            else if && e.Delivery? && e.id == id && ContentOf(t, id).Some?
                    && !(ContentOf(t, id).value.reason == Some("client_disconnected")
                         && ContentOf(t, id).value.errorType == e.errorType) then
              Some(Content(ContentOf(t, id).value.data, Some("client_disconnected"), e.errorType, true))
            else ContentOf(t, id)
    ensures Apply(t, e).1 <==>
            && e.Delivery? && ContentOf(t, e.id).Some?
            && !(ContentOf(t, e.id).value.reason == Some("client_disconnected")
                 && ContentOf(t, e.id).value.errorType == e.errorType)
  {
    ApplyAffects(t, e, id);
  }

  lemma {:induction false} IngestAffects(t: Table, entries: seq<Entry>, id: string)
    requires Unique(t)
    ensures Unique(Ingest(t, entries).0)
    ensures ContentOf(Ingest(t, entries).0, id) == AffectAll(ContentOf(t, id), entries, id)
    decreases |entries|
  {
    if entries != [] {
      ApplyAffects(t, entries[0], id);
      IngestAffects(Apply(t, entries[0]).0, entries[1..], id);
    }
  }

  /** The content is corrected, or every correction in `entries` for its id is already what it says. */
  ghost predicate Absorbs(c: Content, entries: seq<Entry>, id: string) {
    c.corrected || forall e :: e in entries && e.Delivery? && e.id == id ==> Settled(c, e.errorType)
  }

  lemma {:induction false} AbsorbedChangesNothing(c: Content, entries: seq<Entry>, id: string)
    requires forall e :: e in entries && e.Delivery? && e.id == id ==> Settled(c, e.errorType)
    ensures AffectAll(Some(c), entries, id) == Some(c)
    decreases |entries|
  {
    if entries != [] {
      assert entries[0] in entries;
      AbsorbedChangesNothing(c, entries[1..], id);
    }
  }

  /** The verdict of the last correction, if there is one. */
  function LastVerdict(entries: seq<Entry>, id: string): Option<Option<string>>
    decreases |entries|
  {
    if entries == [] then None
    else
      var later := LastVerdict(entries[1..], id);
      if later.Some? then later
      else if entries[0].Delivery? && entries[0].id == id then Some(entries[0].errorType) else None
  }

  /** An existing row ends with the verdict of the last correction. */
  lemma {:induction false} LastVerdictWins(c: Content, entries: seq<Entry>, id: string)
    ensures var r := AffectAll(Some(c), entries, id);
            && r.Some?
            && r.value.data == c.data
            && (c.corrected ==> r.value.corrected)
            && (LastVerdict(entries, id).Some? ==> Settled(r.value, LastVerdict(entries, id).value))
            && (LastVerdict(entries, id).None? ==> r.value == c)
            && (!r.value.corrected ==>
                  r.value == c && forall e :: e in entries && e.Delivery? && e.id == id ==> Settled(c, e.errorType))
    decreases |entries|
  {
    if entries != [] {
      LastVerdictWins(Affect(Some(c), entries[0], id).value, entries[1..], id);
    }
  }

  /** A corrected row ends with the verdict of the last correction in the whole log. */
  lemma {:induction false} CorrectedHasLastVerdict(entries: seq<Entry>, id: string)
    requires AffectAll(None, entries, id).Some? && AffectAll(None, entries, id).value.corrected
    ensures LastVerdict(entries, id).Some?
    ensures Settled(AffectAll(None, entries, id).value, LastVerdict(entries, id).value)
    decreases |entries|
  {
    if entries != [] {
      var first := Affect(None, entries[0], id);
      if first.Some? {
        LastVerdictWins(first.value, entries[1..], id);
      } else {
        CorrectedHasLastVerdict(entries[1..], id);
      }
    }
  }

  /** Under one id, reading the log again changes nothing exactly when the row absorbs the log's corrections. */
  lemma {:induction false} ReplayUnderOneId(entries: seq<Entry>, id: string)
    requires AffectAll(None, entries, id).Some?
    ensures var c := AffectAll(None, entries, id).value;
            AffectAll(Some(c), entries, id) == Some(c) <==> Absorbs(c, entries, id)
  {
    var c := AffectAll(None, entries, id).value;
    LastVerdictWins(c, entries, id);
    if c.corrected {
      CorrectedHasLastVerdict(entries, id);
      var r := AffectAll(Some(c), entries, id).value;
      assert r == Content(c.data, DISCONNECTED, LastVerdict(entries, id).value, true);
    } else if Absorbs(c, entries, id) {
      AbsorbedChangesNothing(c, entries, id);
    }
  }

  /** No row that was never corrected has a correction in the log that would change it. */
  ghost predicate CorrectionsTookEffect(t: Table, entries: seq<Entry>) {
    forall id :: ContentOf(t, id).Some? ==> Absorbs(ContentOf(t, id).value, entries, id)
  }

  ghost predicate SameContents(t: Table, u: Table) {
    forall id :: ContentOf(t, id) == ContentOf(u, id)
  }

  /** Reading a whole log again leaves the row contents as they are exactly when its corrections took effect. */
  lemma {:induction false} RereadingKeepsContents(entries: seq<Entry>)
    ensures var t := Ingest([], entries).0;
            SameContents(Ingest(t, entries).0, t) <==> CorrectionsTookEffect(t, entries)
  {
    var t := Ingest([], entries).0;
    var u := Ingest(t, entries).0;
    forall id
      ensures ContentOf(u, id) == ContentOf(t, id) <==>
              (ContentOf(t, id).Some? ==> Absorbs(ContentOf(t, id).value, entries, id))
    {
      IngestAffects([], entries, id);
      IngestAffects(t, entries, id);
      if ContentOf(t, id).Some? {
        ReplayUnderOneId(entries, id);
      }
    }
  }

  /** A correction that comes before its row: it is ignored at first and changes the row when the log is read again. */
  lemma {:induction false} EarlyCorrectionTakesEffectLate(data: RowData, reason: Option<string>)
    requires reason != DISCONNECTED
    ensures var entries := [Delivery("x", None), Route("x", data, reason, None)];
            var t := Ingest([], entries).0;
            && ContentOf(t, "x") == Some(Content(data, reason, None, false))
            && ContentOf(Ingest(t, entries).0, "x") == Some(Content(data, DISCONNECTED, None, true))
            && !CorrectionsTookEffect(t, entries)
  {
    var entries := [Delivery("x", None), Route("x", data, reason, None)];
    var t := Ingest([], entries).0;
    var none: Option<Content> := None;
    var c, d := Content(data, reason, None, false), Content(data, DISCONNECTED, None, true);
    assert entries[1..] == [entries[1]] && [entries[1]][1..] == [];
    assert AffectAll(none, entries, "x") == AffectAll(none, [entries[1]], "x") == Some(c);
    assert AffectAll(Some(c), entries, "x") == AffectAll(Some(d), [entries[1]], "x") == Some(d);
    IngestAffects([], entries, "x");
    IngestAffects(t, entries, "x");
    RereadingKeepsContents(entries);
  }

  /** Every correction of a request that is in the log comes after its row. */
  ghost predicate CorrectionsFollowRows(entries: seq<Entry>) {
    forall i, j ::
      0 <= i < j < |entries| && entries[i].Delivery? && entries[j].Route? && entries[i].id == entries[j].id ==>
      exists k :: 0 <= k < i && entries[k].Route? && entries[k].id == entries[i].id
  }

  /** One more entry, when a row comes before the corrections of its request. */
  lemma {:induction false} AbsorbStep(c: Option<Content>, before: seq<Entry>, e: Entry, id: string)
    requires c.Some? ==> Absorbs(c.value, before, id)
    requires c.None? && e.Route? && e.id == id ==> forall d :: d in before ==> !(d.Delivery? && d.id == id)
    ensures Affect(c, e, id).Some? ==> Absorbs(Affect(c, e, id).value, before + [e], id)
  {
    assert forall d :: d in before + [e] <==> d in before || d == e;
  }

  ghost predicate IsFirstRow(entries: seq<Entry>, n: nat, id: string)
    requires n < |entries|
  {
    && entries[n].Route? && entries[n].id == id
    && forall k :: 0 <= k < n ==> !(entries[k].Route? && entries[k].id == id)
  }

  ghost predicate NotCorrected(entries: seq<Entry>, id: string) {
    forall d :: d in entries ==> !(d.Delivery? && d.id == id)
  }

  /** Before the first row of the request there is no correction of it. */
  ghost predicate NoEarlyCorrection(entries: seq<Entry>, id: string) {
    forall n: nat :: n < |entries| && IsFirstRow(entries, n, id) ==> NotCorrected(entries[..n], id)
  }

  lemma {:induction false} FollowingIsNotEarly(entries: seq<Entry>, id: string)
    requires CorrectionsFollowRows(entries)
    ensures NoEarlyCorrection(entries, id)
  {
    forall n: nat | n < |entries| && IsFirstRow(entries, n, id) ensures NotCorrected(entries[..n], id) {
      forall i | 0 <= i < n ensures !(entries[i].Delivery? && entries[i].id == id) {
        assert i < n;
      }
    }
  }

  /** What reading the first `n` entries leaves under the id absorbs their corrections. */
  ghost predicate TookEffect(entries: seq<Entry>, n: nat, id: string)
    requires n <= |entries|
  {
    var c := AffectAll(None, entries[..n], id);
    && (c.None? ==> forall k :: 0 <= k < n ==> !(entries[k].Route? && entries[k].id == id))
    && (c.Some? ==> Absorbs(c.value, entries[..n], id))
  }

  lemma {:induction false} OneMoreTakesEffect(entries: seq<Entry>, n: nat, id: string)
    requires n < |entries| && TookEffect(entries, n, id)
    requires IsFirstRow(entries, n, id) ==> NotCorrected(entries[..n], id)
    ensures TookEffect(entries, n + 1, id)
  {
    var before, e := entries[..n], entries[n];
    AffectSnoc(None, before, e, id);
    assert entries[..n + 1] == before + [e];
    AbsorbStep(AffectAll(None, before, id), before, e, id);
  }

  lemma {:induction false} FollowedCorrectionsTakeEffect(entries: seq<Entry>, n: nat, id: string)
    requires NoEarlyCorrection(entries, id)
    requires n <= |entries|
    ensures TookEffect(entries, n, id)
    decreases n
  {
    if n > 0 {
      FollowedCorrectionsTakeEffect(entries, n - 1, id);
      OneMoreTakesEffect(entries, n - 1, id);
    }
  }

  lemma {:induction false} AffectSnoc(c: Option<Content>, entries: seq<Entry>, e: Entry, id: string)
    ensures AffectAll(c, entries + [e], id) == Affect(AffectAll(c, entries, id), e, id)
    decreases |entries|
  {
    if entries == [] {
      assert entries + [e] == [e] && [e][1..] == [];
    } else {
      assert (entries + [e])[0] == entries[0] && (entries + [e])[1..] == entries[1..] + [e];
      AffectSnoc(Affect(c, entries[0], id), entries[1..], e, id);
    }
  }

  /** When each correction follows its row, a log can be read again from byte zero. */
  lemma {:induction false} OrderedLogsCanBeReread(entries: seq<Entry>)
    requires CorrectionsFollowRows(entries)
    ensures var t := Ingest([], entries).0; SameContents(Ingest(t, entries).0, t)
  {
    var t := Ingest([], entries).0;
    forall id | ContentOf(t, id).Some? ensures Absorbs(ContentOf(t, id).value, entries, id) {
      IngestAffects([], entries, id);
      FollowingIsNotEarly(entries, id);
      FollowedCorrectionsTakeEffect(entries, |entries|, id);
      assert entries[..|entries|] == entries;
    }
    RereadingKeepsContents(entries);
  }
}
