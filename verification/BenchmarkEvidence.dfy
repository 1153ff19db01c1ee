/**
  The producer in `scripts/coding-benchmark-adapter.py` always satisfies the validator in
  `src/ficelle/coding_benchmark_policy.py`, which counts again from what the producer wrote.
 */
module BenchmarkEvidence {
  import opened Json
  import opened Wrappers
  import opened A = BenchmarkAdapter
  import P = BenchmarkPolicy

  // ---------------------------------------------------------------------------------------------
  // The relay audit
  // ---------------------------------------------------------------------------------------------

  /** The incident of an event is its outcome, or a reason that no other outcome is called. */
  predicate Honest(e: Event) {
    match e.outcome
    case Success => e.incident == "success"
    case ProviderError => e.incident == "provider_error"
    case ModelFailure => e.incident != "provider_error"
  }

  predicate AllHonest(events: seq<Event>) {
    forall i :: 0 <= i < |events| ==> Honest(events[i])
  }

  predicate AllWithin(events: seq<Event>, tasks: seq<string>) {
    forall i :: 0 <= i < |events| ==> events[i].task in tasks && events[i].schema in {1, 2}
  }

  /** Whatever the log claims, what a model failure can end in is counted as one. */
  predicate NotMistaken(e: Event) {
    e.outcome != ModelFailure ==> e.incident !in MODEL_FAILURE_REASONS
  }

  lemma {:induction false} OutcomesAreNoReasons()
    ensures "success" !in MODEL_FAILURE_REASONS && "provider_error" !in MODEL_FAILURE_REASONS
  {
    assert "success"[0] == 's' && "provider_error"[0] == 'p';
    assert "model_failure"[0] == 'm' && "truncated_before_content"[0] == 't' && "empty_assistant_message"[0] == 'e';
  }

  lemma {:induction false} KeptEvent(str: P.Printer, event: Json, outcome: Outcome, fingerprint: string,
                                     tasks: seq<string>, budget: Option<int>)
    ensures var r := KeepEvent(str, event, outcome, fingerprint, tasks, budget);
            r.Ok? && r.value.Some? ==>
              && r.value.value.task in tasks && r.value.value.schema in {1, 2}
              && NotMistaken(r.value.value)
              && (r.value.value.schema == 2 ==> Honest(r.value.value))
              && (budget.Some? ==> r.value.value.schema == 2)
  {
    OutcomesAreNoReasons();
    var reason := event.Get("failure_reason");
    if IsExactReason(reason) {
      assert reason.s != "";
    }
  }

  lemma {:induction false} EventsAreKept(str: P.Printer, lines: seq<Option<Json>>, n: nat, tasks: seq<string>,
                                         budget: Option<int>)
    requires n <= |lines|
    ensures var r := ReadEvents(str, lines, n, tasks, budget);
            r.Ok? ==>
              && |r.value| <= n
              && AllWithin(r.value, tasks)
              && (forall i :: 0 <= i < |r.value| ==>
                    NotMistaken(r.value[i]) && (r.value[i].schema == 2 ==> Honest(r.value[i])))
              && (budget.Some? ==> forall i :: 0 <= i < |r.value| ==> r.value[i].schema == 2)
    decreases n
  {
    if n > 0 {
      EventsAreKept(str, lines, n - 1, tasks, budget);
      LineIsKept(str, lines[n - 1], n, tasks, budget);
    }
  }

  lemma {:induction false} LineIsKept(str: P.Printer, line: Option<Json>, number: nat, tasks: seq<string>,
                                      budget: Option<int>)
    ensures var r := ReadEvent(str, line, number, tasks, budget);
            r.Ok? && r.value.Some? ==>
              && r.value.value.task in tasks && r.value.value.schema in {1, 2}
              && NotMistaken(r.value.value)
              && (r.value.value.schema == 2 ==> Honest(r.value.value))
              && (budget.Some? ==> r.value.value.schema == 2)
  {
    if line.Some? {
      var event := line.value;
      var outcome, fingerprint := OutcomeOf(event.Get("outcome")), event.Get("request_fingerprint");
      if outcome.Some? && fingerprint.Str? {
        KeptEvent(str, event, outcome.value, fingerprint.s, tasks, budget);
      }
    }
  }

  lemma {:induction false} OneMore(finals: Finals, key: (string, string), incident: string, kinds: set<string>)
    ensures |EndedWith(finals[key := incident], kinds)| <=
            |EndedWith(finals, kinds)| + if incident in kinds then 1 else 0
  {
    var before, after := EndedWith(finals, kinds), EndedWith(finals[key := incident], kinds);
    if incident in kinds {
      assert after == before + {key};
    } else {
      assert after == before - {key};
      assert before == after + (before * {key});
    }
  }

  /** No more requests end with an incident of some kind than events have it. */
  lemma {:induction false} EndedAtMost(events: seq<Event>, outcome: Outcome, kinds: set<string>)
    requires forall i :: 0 <= i < |events| ==> events[i].incident in kinds ==> events[i].outcome == outcome
    ensures |EndedWith(FinalsOf(events), kinds)| <= CountOutcome(events, outcome) <= |events|
    decreases |events|
  {
    if events == [] {
      assert EndedWith(map[], kinds) == {};
    } else {
      var before, last := events[..|events| - 1], events[|events| - 1];
      EndedAtMost(before, outcome, kinds);
      OneMore(FinalsOf(before), (last.task, last.fingerprint), last.incident, kinds);
    }
  }

  lemma {:induction false} FinalsWithin(events: seq<Event>, tasks: seq<string>)
    requires AllWithin(events, tasks)
    ensures forall k :: k in FinalsOf(events) ==> k.0 in tasks
    decreases |events|
  {
    if events != [] {
      FinalsWithin(events[..|events| - 1], tasks);
    }
  }

  lemma {:induction false} SetOfAtMost(xs: seq<string>)
    ensures |P.SetOf(xs)| <= |xs|
    decreases |xs|
  {
    if xs == [] {
      assert P.SetOf(xs) == {};
    } else {
      SetOfAtMost(xs[1..]);
      assert P.SetOf(xs) == {xs[0]} + P.SetOf(xs[1..]);
    }
  }

  lemma {:induction false} SmallerSet(a: set<string>, b: set<string>)
    requires a <= b
    ensures |a| <= |b|
  {
    assert b == a + (b - a);
  }

  lemma {:induction false} SchemaIsSupported(events: seq<Event>, tasks: seq<string>)
    requires AllWithin(events, tasks)
    ensures MaxSchema(events) in {1, 2}
    decreases |events|
  {
    if |events| > 1 {
      SchemaIsSupported(events[..|events| - 1], tasks);
    }
  }

  /** The summary's numbers are in the relation that the validator asks for. */
  predicate Consistent(s: Summary, taskCount: int) {
    && s.schema in {1, 2}
    && s.tasks <= taskCount
    && s.openProviderErrors <= s.providerIncidents <= s.completions
    && s.openModelFailures <= s.modelIncidents <= s.completions
  }

  /** No more requests are left with a provider error than events have it for their outcome. */
  predicate ProviderErrorsAreCounted(events: seq<Event>) {
    |EndedWith(FinalsOf(events), {"provider_error"})| <= CountOutcome(events, ProviderError)
  }

  lemma {:induction false} CountsAreConsistent(events: seq<Event>, tasks: seq<string>)
    requires AllWithin(events, tasks)
    requires forall i :: 0 <= i < |events| ==> NotMistaken(events[i])
    ensures Consistent(Summarize(events), |tasks|) <==> ProviderErrorsAreCounted(events)
  {
    CountedAtMost(events, ProviderError);
    EndedAtMost(events, ModelFailure, MODEL_FAILURE_REASONS);
    FinalsWithin(events, tasks);
    SetOfAtMost(tasks);
    SmallerSet(TasksOf(FinalsOf(events)), P.SetOf(tasks));
    SchemaIsSupported(events, tasks);
  }

  lemma {:induction false} CountedAtMost(events: seq<Event>, outcome: Outcome)
    ensures CountOutcome(events, outcome) <= |events|
    decreases |events|
  {
    if events != [] {
      CountedAtMost(events[..|events| - 1], outcome);
    }
  }

  lemma {:induction false} SummaryIsConsistent(events: seq<Event>, tasks: seq<string>)
    requires AllWithin(events, tasks) && AllHonest(events)
    requires forall i :: 0 <= i < |events| ==> NotMistaken(events[i])
    ensures ProviderErrorsAreCounted(events) && Consistent(Summarize(events), |tasks|)
  {
    EndedAtMost(events, ProviderError, {"provider_error"});
    CountsAreConsistent(events, tasks);
  }

  lemma {:induction false} SummaryReads(s: Summary)
    ensures var j := SummaryJson(s);
            && j.Get("schema_version") == Int(s.schema) && j.Get("chat_completion_count") == Int(s.completions)
            && j.Get("task_count") == Int(s.tasks) && j.Get("provider_incident_count") == Int(s.providerIncidents)
            && j.Get("model_failure_incident_count") == Int(s.modelIncidents)
            && j.Get("unresolved_provider_error_count") == Int(s.openProviderErrors)
            && j.Get("unresolved_model_failure_count") == Int(s.openModelFailures)
  {
  }

  lemma {:induction false} NoBadCount(value: Json, fields: seq<string>)
    requires forall i :: 0 <= i < |fields| ==> P.IsCount(value.Get(fields[i]))
    ensures P.FirstBadCount(value, fields) == None
    decreases |fields|
  {
    if fields != [] {
      NoBadCount(value, fields[1..]);
    }
  }

  lemma {:induction false} AuditCountsAreCounts(s: Summary)
    ensures P.FirstBadCount(SummaryJson(s), P.AUDIT_FIELDS) == None
  {
    SummaryReads(s);
    NoBadCount(SummaryJson(s), P.AUDIT_FIELDS);
  }

  /** The validator accepts a summary exactly when its numbers are consistent. */
  lemma {:induction false} AuditAcceptedExactly(s: Summary, taskCount: int)
    ensures P.AuditViolation(SummaryJson(s), taskCount) == None <==> Consistent(s, taskCount)
  {
    SummaryReads(s);
    AuditCountsAreCounts(s);
  }

  /**
    For every log that can be read, the summary is accepted exactly when it counts the provider errors
    that requests are left with.
   */
  lemma {:induction false} LogIsAcceptedExactly(str: P.Printer, lines: seq<Option<Json>>, tasks: seq<string>,
                                                budget: Option<int>)
    ensures match ReadEvents(str, lines, |lines|, tasks, budget)
            case Ok(events) =>
              P.AuditViolation(SummaryJson(Summarize(events)), |tasks|) == None <==> ProviderErrorsAreCounted(events)
            case Err(_) => true
  {
    EventsAreKept(str, lines, |lines|, tasks, budget);
    var r := ReadEvents(str, lines, |lines|, tasks, budget);
    if r.Ok? {
      CountsAreConsistent(r.value, tasks);
      AuditAcceptedExactly(Summarize(r.value), |tasks|);
    }
  }

  predicate IsSchemaTwo(line: Option<Json>) {
    line.Some? ==> P.NumberIs(line.value.Get("schema_version"), 2)
  }

  predicate SchemaTwoLog(lines: seq<Option<Json>>) {
    forall i :: 0 <= i < |lines| ==> IsSchemaTwo(lines[i])
  }

  /** For every log that is read with a budget, and every log of schema 2, the summary is accepted. */
  lemma {:induction false} AuditIsAccepted(str: P.Printer, lines: seq<Option<Json>>, tasks: seq<string>,
                                           budget: Option<int>)
    requires budget.Some? || SchemaTwoLog(lines)
    ensures match ReadEvents(str, lines, |lines|, tasks, budget)
            case Ok(events) => P.AuditViolation(SummaryJson(Summarize(events)), |tasks|) == None
            case Err(_) => true
  {
    EventsAreKept(str, lines, |lines|, tasks, budget);
    SchemaTwoOnly(str, lines, |lines|, tasks, budget);
    var r := ReadEvents(str, lines, |lines|, tasks, budget);
    LogIsAcceptedExactly(str, lines, tasks, budget);
    if r.Ok? {
      EndedAtMost(r.value, ProviderError, {"provider_error"});
    }
  }

  lemma {:induction false} SchemaTwoOnly(str: P.Printer, lines: seq<Option<Json>>, n: nat, tasks: seq<string>,
                                         budget: Option<int>)
    requires n <= |lines|
    requires budget.Some? || SchemaTwoLog(lines)
    ensures var r := ReadEvents(str, lines, n, tasks, budget);
            r.Ok? ==> forall i :: 0 <= i < |r.value| ==> r.value[i].schema == 2
    decreases n
  {
    if n > 0 {
      SchemaTwoOnly(str, lines, n - 1, tasks, budget);
      LineIsKept(str, lines[n - 1], n, tasks, budget);
      assert budget.None? ==> IsSchemaTwo(lines[n - 1]);
    }
  }

  /** A schema 1 model failure may call itself a provider error. */
  function ProviderErrorLine(task: string, fingerprint: string): Json {
    Obj(map["schema_version" := Int(1), "event_index" := Int(1), "task_id" := Str(task),
            "outcome" := Str("model_failure"), "response_status" := Int(200),
            "request_fingerprint" := Str(fingerprint), "failure_reason" := Str("provider_error")])
  }

  predicate IsFingerprint(s: string) {
    |s| == 64 && IsHex(s)
  }

  lemma {:induction false} ProviderErrorFields(task: string, fingerprint: string)
    ensures var line := ProviderErrorLine(task, fingerprint);
            && line.Get("schema_version") == Int(1) && line.Get("event_index") == Int(1)
            && line.Get("task_id") == Str(task) && line.Get("outcome") == Str("model_failure")
            && line.Get("response_status") == Int(200) && line.Get("request_fingerprint") == Str(fingerprint)
            && line.Get("failure_reason") == Str("provider_error")
  {
  }

  lemma {:induction false} ProviderErrorIsRead(str: P.Printer, task: string, fingerprint: string)
    requires IsFingerprint(fingerprint)
    ensures ReadEvent(str, Some(ProviderErrorLine(task, fingerprint)), 1, [task], None) ==
            Ok(Some(Event(1, task, fingerprint, ModelFailure, "provider_error")))
  {
    ProviderErrorFields(task, fingerprint);
    assert "success"[0] != "model_failure"[0];
  }

  /** A log of one such line makes a summary that is refused. */
  lemma {:induction false} SchemaOneMayBeRefused(str: P.Printer, task: string, fingerprint: string)
    requires IsFingerprint(fingerprint)
    ensures match ReadEvents(str, [Some(ProviderErrorLine(task, fingerprint))], 1, [task], None)
            case Ok(events) =>
              P.AuditViolation(SummaryJson(Summarize(events)), 1) == Some(P.AuditProviderIncidentsInconsistent)
            case Err(_) => false
  {
    var lines := [Some(ProviderErrorLine(task, fingerprint))];
    var e := Event(1, task, fingerprint, ModelFailure, "provider_error");
    ProviderErrorIsRead(str, task, fingerprint);
    assert lines[0] == Some(ProviderErrorLine(task, fingerprint)) && [] + [e] == [e];
    assert ReadEvents(str, lines, 0, [task], None) == Ok([]);
    assert ReadEvents(str, lines, 1, [task], None) == Ok([e]);
    MiscalledFailureIsRefused(task, fingerprint);
  }

  lemma {:induction false} MiscalledFailureIsRefused(task: string, fingerprint: string)
    ensures var e := Event(1, task, fingerprint, ModelFailure, "provider_error");
            P.AuditViolation(SummaryJson(Summarize([e])), 1) == Some(P.AuditProviderIncidentsInconsistent)
  {
    var e := Event(1, task, fingerprint, ModelFailure, "provider_error");
    var key := (task, fingerprint);
    assert [e][..0] == [];
    assert FinalsOf([e]) == map[key := "provider_error"];
    assert EndedWith(FinalsOf([e]), {"provider_error"}) == {key};
    OutcomesAreNoReasons();
    assert EndedWith(FinalsOf([e]), MODEL_FAILURE_REASONS) == {};
    assert TasksOf(FinalsOf([e])) == {task};
    var s := Summarize([e]);
    assert CountOutcome([e], ProviderError) == CountOutcome([], ProviderError) == 0;
    assert CountOutcome([e], ModelFailure) == CountOutcome([], ModelFailure) + 1 == 1;
    assert s == Summary(1, 1, 1, 0, 1, 1, 0);
    SummaryReads(s);
    AuditCountsAreCounts(s);
  }

  // ---------------------------------------------------------------------------------------------
  // The rows
  // ---------------------------------------------------------------------------------------------

  /** A task is counted as completed exactly when its row is a verdict, and it passed exactly when it says so. */
  lemma {:induction false} StepCountsVerdicts(x: Patterns, task: string, file: Option<Json>, incidents: set<string>,
                                              pending: Pending)
    ensures var step := RowStep(x, task, file, incidents, pending);
            && step.row.task == task
            && step.completed == (if IsVerdict(step.row.status) then 1 else 0)
            && (step.row.passed <==> step.row.status == Passed)
  {
  }

  /** One row per task, in order; the number completed is the number of verdicts; the three counts cover all. */
  lemma {:induction false} RowsCoverTasks(x: Patterns, run: Run, tasks: seq<string>, pending: Pending)
    ensures var (rows, completed) := ResultRows(x, run, tasks, pending);
            && TaskIds(rows) == tasks
            && |rows| == |tasks|
            && completed == CountStatus(rows, {Passed, Failed})
            && forall i :: 0 <= i < |rows| ==> (rows[i].passed <==> rows[i].status == Passed)
    decreases |tasks|
  {
    if tasks != [] {
      var step := RowStep(x, tasks[0], run.files(tasks[0]), run.incidents(tasks[0]), pending);
      StepCountsVerdicts(x, tasks[0], run.files(tasks[0]), run.incidents(tasks[0]), pending);
      RowsCoverTasks(x, run, tasks[1..], step.pending);
      var rows := ResultRows(x, run, tasks, pending).0;
      assert rows[0] == step.row && rows[1..] == ResultRows(x, run, tasks[1..], step.pending).0;
    }
  }

  lemma {:induction false} CountsCover(rows: seq<Row>)
    ensures CountStatus(rows, {Passed, Failed}) + CountStatus(rows, {ProviderDown})
        + CountStatus(rows, {HarnessDown}) == |rows|
    decreases |rows|
  {
    if rows != [] {
      CountsCover(rows[1..]);
      match rows[0].status
      case Passed =>
      case Failed =>
      case ProviderDown =>
      case HarnessDown =>
    }
  }

  lemma {:induction false} FailedHarnessRows(tasks: seq<string>)
    ensures var rows := HarnessFailedRows(tasks);
            TaskIds(rows) == tasks && |rows| == |tasks| && CountStatus(rows, {Passed, Failed}) == 0
    decreases |tasks|
  {
    if tasks != [] {
      FailedHarnessRows(tasks[1..]);
      assert HarnessFailedRows(tasks)[1..] == HarnessFailedRows(tasks[1..]);
    }
  }

  /** A run that may be reported: rows for its tasks, the verdicts counted, and a consistent audit. */
  ghost predicate Sound(m: Measured, tasks: seq<string>) {
    && TaskIds(m.rows) == tasks && |m.rows| == |tasks|
    && m.completed == CountStatus(m.rows, {Passed, Failed})
    && Consistent(m.audit, |tasks|)
  }

  lemma {:induction false} MeasureIsSound(x: Patterns, str: P.Printer, lines: seq<Option<Json>>,
                                          files: string -> Option<Json>, log: string,
                       tasks: seq<string>, budget: int)
    ensures match Measure(x, str, lines, files, log, tasks, budget)
            case Ok(m) => Sound(m, tasks)
            case Err(_) => true
  {
    EventsAreKept(str, lines, |lines|, tasks, Some(budget));
    var events := ReadEvents(str, lines, |lines|, tasks, Some(budget));
    if events.Ok? {
      var run := Run(files, task => IncidentsOf(FinalsOf(events.value), task), log);
      SummaryIsConsistent(events.value, tasks);
      RowsCoverTasks(x, run, tasks, StartPending(x, run));
      var (rows, completed) := ResultRows(x, run, tasks, StartPending(x, run));
      assert Sound(Measured(rows, completed, Summarize(events.value)), tasks);
    }
  }

  lemma {:induction false} ExtendedIsSound(x: Patterns, str: P.Printer, lines: seq<Option<Json>>,
                                           files: Option<string -> Option<Json>>,
                        log: string, tasks: seq<string>)
    ensures Sound(MeasureExtended(x, str, lines, files, log, tasks), tasks)
  {
    FailedHarnessRows(tasks);
    if files.Some? {
      MeasureIsSound(x, str, lines, files.value, log, tasks, P.EXTENDED_DIAGNOSTIC_TOKEN_BUDGET);
    }
  }

  // ---------------------------------------------------------------------------------------------
  // Reading the rows back
  // ---------------------------------------------------------------------------------------------

  lemma {:induction false} RowFields(row: Row)
    ensures var j := RowJson(row);
            && j.Get("task_id") == Str(row.task)
            && j.Get("status") == Str(StatusText(row.status))
            && j.Get("diagnostic") == (if row.diagnostic.Some? then Str(row.diagnostic.value) else Null)
  {
    assert "task_id"[0] == 't' && "status"[0] == 's' && "passed"[0] == 'p' && "diagnostic"[0] == 'd';
    assert "first_passed"[0] == 'f' && "attempt_count"[0] == 'a';
  }

  lemma {:induction false} TextReads(str: P.Printer, j: Json, key: string, s: string)
    requires j.Get(key) == Str(s)
    ensures P.TextAt(str, j, key) == s
  {
  }

  lemma {:induction false} RowReads(str: P.Printer, row: Row)
    ensures var j := RowJson(row);
            && j.Obj?
            && j.Get("task_id") == Str(row.task)
            && j.Get("status") == Str(StatusText(row.status))
            && j.Get("diagnostic") == (if row.diagnostic.Some? then Str(row.diagnostic.value) else Null)
            && P.TextAt(str, j, "task_id") == row.task
            && P.TextAt(str, j, "status") == StatusText(row.status)
  {
    var j := RowJson(row);
    RowFields(row);
    TextReads(str, j, "task_id", row.task);
    TextReads(str, j, "status", StatusText(row.status));
  }

  lemma {:induction false} StatusTextsDiffer()
    ensures |{P.PASSED, P.FAILED, P.PROVIDER_ERROR, P.HARNESS_ERROR}| == 4
    ensures P.PASSED != P.FAILED && P.PASSED != P.PROVIDER_ERROR && P.PASSED != P.HARNESS_ERROR
    ensures P.FAILED != P.PROVIDER_ERROR && P.FAILED != P.HARNESS_ERROR && P.PROVIDER_ERROR != P.HARNESS_ERROR
  {
    assert P.PASSED[1] == 'a' && P.PROVIDER_ERROR[1] == 'r' && P.FAILED[0] == 'f' && P.HARNESS_ERROR[0] == 'h';
    assert P.PASSED[0] == 'p' && P.PROVIDER_ERROR[0] == 'p';
  }

  function StatusTexts(rows: seq<Row>): seq<string> {
    if rows == [] then [] else [StatusText(rows[0].status)] + StatusTexts(rows[1..])
  }

  lemma {:induction false} RowsRead(str: P.Printer, rows: seq<Row>)
    ensures |RowsJson(rows)| == |rows| && P.AllObjects(RowsJson(rows))
    ensures P.TextsAt(str, RowsJson(rows), "task_id") == TaskIds(rows)
    ensures P.TextsAt(str, RowsJson(rows), "status") == StatusTexts(rows)
    ensures |StatusTexts(rows)| == |rows|
    decreases |rows|
  {
    if rows != [] {
      RowReads(str, rows[0]);
      RowsRead(str, rows[1..]);
      assert RowsJson(rows)[0] == RowJson(rows[0]) && RowsJson(rows)[1..] == RowsJson(rows[1..]);
    }
  }

  lemma {:induction false} TextsMatch(rows: seq<Row>)
    ensures |StatusTexts(rows)| == |rows|
    ensures forall i :: 0 <= i < |rows| ==> StatusTexts(rows)[i] == StatusText(rows[i].status)
    decreases |rows|
  {
    if rows != [] {
      TextsMatch(rows[1..]);
    }
  }

  lemma {:induction false} TalliesMatch(rows: seq<Row>)
    ensures P.Tally(StatusTexts(rows), {P.PASSED, P.FAILED}) == CountStatus(rows, {Passed, Failed})
    ensures P.Tally(StatusTexts(rows), {P.PROVIDER_ERROR}) == CountStatus(rows, {ProviderDown})
    ensures P.Tally(StatusTexts(rows), {P.HARNESS_ERROR}) == CountStatus(rows, {HarnessDown})
    decreases |rows|
  {
    StatusTextsDiffer();
    if rows != [] {
      TalliesMatch(rows[1..]);
      assert StatusTexts(rows)[0] == StatusText(rows[0].status) && StatusTexts(rows)[1..] == StatusTexts(rows[1..]);
    }
  }

  /** On rows that are there, the producer's classification is the one the validator computes. */
  lemma {:induction false} ClassificationMatches(rows: seq<Row>)
    requires rows != []
    ensures Classification(rows) == P.ExpectedClassification(StatusTexts(rows))
  {
    StatusTextsDiffer();
    TextsMatch(rows);
    var texts := StatusTexts(rows);
    if forall i :: 0 <= i < |texts| ==> texts[i] == P.PASSED {
      forall i | 0 <= i < |rows| ensures rows[i].status == Passed {
        assert texts[i] == P.PASSED;
      }
    } else {
      var k :| 0 <= k < |texts| && texts[k] != P.PASSED;
      assert rows[k].status != Passed;
      forall i | 0 <= i < |rows|
        ensures texts[i] in {P.PROVIDER_ERROR, P.HARNESS_ERROR} <==>
                rows[i].status == ProviderDown || rows[i].status == HarnessDown
      {
        assert texts[i] == StatusText(rows[i].status);
      }
    }
  }

  // ---------------------------------------------------------------------------------------------
  // What the extended diagnostic is run for
  // ---------------------------------------------------------------------------------------------

  lemma {:induction false} TruncatedRow(str: P.Printer, row: Row)
    ensures P.IsTruncated(RowJson(row)) <==> RanOutOfTokens(row)
    ensures RowJson(row).Get("status") == Str(P.PASSED) <==> row.status == Passed
  {
    RowReads(str, row);
    StatusTextsDiffer();
  }

  /** Only tasks that ran out of tokens are unresolved. */
  predicate OnlyOutOfTokens(rows: seq<Row>) {
    forall i :: 0 <= i < |rows| ==> rows[i].status == Passed || RanOutOfTokens(rows[i])
  }

  lemma {:induction false} UnresolvedExactly(rows: seq<Row>)
    ensures (forall i :: 0 <= i < |Unresolved(rows)| ==> RanOutOfTokens(Unresolved(rows)[i])) <==> OnlyOutOfTokens(rows)
    decreases |rows|
  {
    if rows != [] {
      UnresolvedExactly(rows[1..]);
      var rest := Unresolved(rows[1..]);
      if rows[0].status != Passed {
        assert Unresolved(rows)[0] == rows[0] && Unresolved(rows)[1..] == rest;
        if forall i :: 0 <= i < |Unresolved(rows)| ==> RanOutOfTokens(Unresolved(rows)[i]) {
          forall i | 0 <= i < |rest| ensures RanOutOfTokens(rest[i]) {
            assert rest[i] == Unresolved(rows)[i + 1];
          }
        }
      } else {
        assert Unresolved(rows) == rest;
      }
      assert OnlyOutOfTokens(rows) <==>
             (rows[0].status == Passed || RanOutOfTokens(rows[0])) && OnlyOutOfTokens(rows[1..]);
    }
  }

  lemma {:induction false} OnlyTruncatedMatches(str: P.Printer, rows: seq<Row>)
    ensures P.OnlyTruncated(RowsJson(rows)) <==> OnlyOutOfTokens(rows)
    decreases |rows|
  {
    if rows != [] {
      TruncatedRow(str, rows[0]);
      OnlyTruncatedMatches(str, rows[1..]);
      assert RowsJson(rows)[0] == RowJson(rows[0]) && RowsJson(rows)[1..] == RowsJson(rows[1..]);
      assert OnlyOutOfTokens(rows) <==>
             (rows[0].status == Passed || RanOutOfTokens(rows[0])) && OnlyOutOfTokens(rows[1..]);
      OnlyTruncatedCons(RowJson(rows[0]), RowsJson(rows[1..]));
    }
  }

  lemma {:induction false} OnlyTruncatedCons(row: Json, rows: seq<Json>)
    ensures P.OnlyTruncated([row] + rows) <==>
            (row.Get("status") == Str(P.PASSED) || P.IsTruncated(row)) && P.OnlyTruncated(rows)
  {
    var all := [row] + rows;
    assert all[0] == row;
    if P.OnlyTruncated(all) {
      forall i | 0 <= i < |rows| ensures rows[i].Get("status") == Str(P.PASSED) || P.IsTruncated(rows[i]) {
        assert rows[i] == all[i + 1];
      }
    }
  }

  lemma {:induction false} UnresolvedHead(rows: seq<Row>)
    requires rows != []
    ensures TaskIds(Unresolved(rows)) ==
            (if rows[0].status != Passed then [rows[0].task] else []) + TaskIds(Unresolved(rows[1..]))
  {
    if rows[0].status != Passed {
      assert Unresolved(rows)[1..] == Unresolved(rows[1..]);
    } else {
      assert Unresolved(rows) == Unresolved(rows[1..]);
    }
  }

  /** With nothing but truncation unresolved, the validator's trigger set is the set of unresolved tasks. */
  lemma {:induction false} TriggerMatches(str: P.Printer, rows: seq<Row>)
    requires OnlyOutOfTokens(rows)
    ensures P.TriggerTasks(str, RowsJson(rows)) == P.SetOf(TaskIds(Unresolved(rows)))
    decreases |rows|
  {
    if rows != [] {
      TruncatedRow(str, rows[0]);
      RowReads(str, rows[0]);
      TriggerMatches(str, rows[1..]);
      assert RowsJson(rows)[0] == RowJson(rows[0]) && RowsJson(rows)[1..] == RowsJson(rows[1..]);
      assert rows[0].status == Passed || RanOutOfTokens(rows[0]);
      UnresolvedHead(rows);
    }
  }

  ghost predicate Distinct(xs: seq<string>) {
    forall i, j :: 0 <= i < j < |xs| ==> xs[i] != xs[j]
  }

  lemma {:induction false} DistinctSet(xs: seq<string>)
    requires Distinct(xs)
    ensures |P.SetOf(xs)| == |xs|
    decreases |xs|
  {
    if xs == [] {
      assert P.SetOf(xs) == {};
    } else {
      DistinctSet(xs[1..]);
      assert P.SetOf(xs) == {xs[0]} + P.SetOf(xs[1..]);
      assert xs[0] !in xs[1..];
    }
  }

  lemma {:induction false} UnresolvedAmong(rows: seq<Row>)
    ensures forall t :: t in TaskIds(Unresolved(rows)) ==> t in TaskIds(rows)
    ensures |TaskIds(Unresolved(rows))| <= |TaskIds(rows)| == |rows|
    decreases |rows|
  {
    if rows != [] {
      UnresolvedAmong(rows[1..]);
      UnresolvedHead(rows);
    }
  }

  lemma {:induction false} UnresolvedTasks(rows: seq<Row>)
    requires Distinct(TaskIds(rows))
    ensures Distinct(TaskIds(Unresolved(rows)))
    decreases |rows|
  {
    if rows != [] {
      assert TaskIds(rows)[0] == rows[0].task && TaskIds(rows)[1..] == TaskIds(rows[1..]);
      UnresolvedTasks(rows[1..]);
      UnresolvedHead(rows);
      UnresolvedAmong(rows[1..]);
      if rows[0].status != Passed {
        assert rows[0].task !in TaskIds(rows[1..]);
        DistinctCons(rows[0].task, TaskIds(Unresolved(rows[1..])));
      }
    }
  }

  lemma {:induction false} DistinctCons(x: string, xs: seq<string>)
    requires Distinct(xs) && x !in xs
    ensures Distinct([x] + xs)
  {
  }

  /**
    When the producer asks for the extended diagnostic, its tasks are exactly the validator's trigger set, and
    truncation is the sole unresolved condition; it asks whenever the validator would allow it.
   */
  lemma {:induction false} ExtendedTasksAreTheTriggers(str: P.Printer, rows: seq<Row>)
    requires Distinct(TaskIds(rows))
    ensures ExtendedTasks(rows) != [] <==>
            P.TriggerTasks(str, RowsJson(rows)) != {} && P.OnlyTruncated(RowsJson(rows))
    ensures ExtendedTasks(rows) != [] ==>
              && P.SetOf(ExtendedTasks(rows)) == P.TriggerTasks(str, RowsJson(rows))
              && Distinct(ExtendedTasks(rows)) && |ExtendedTasks(rows)| <= |rows|
  {
    UnresolvedExactly(rows);
    OnlyTruncatedMatches(str, rows);
    UnresolvedTasks(rows);
    UnresolvedAmong(rows);
    if OnlyOutOfTokens(rows) {
      TriggerMatches(str, rows);
      var tasks := TaskIds(Unresolved(rows));
      if tasks != [] {
        assert tasks[0] in P.SetOf(tasks);
      }
    }
  }

  // ---------------------------------------------------------------------------------------------
  // The evidence as a whole
  // ---------------------------------------------------------------------------------------------

  lemma {:induction false} ReportReads(tasks: Json, completed: Json, verdicts: Json, provider: Json, harness: Json,
                                       audit: Json, rows: Json)
    ensures var j := Obj(ReportFields(tasks, completed, verdicts, provider, harness, audit, rows));
            && j.Get("task_count") == tasks && j.Get("completed_count") == completed
            && j.Get("model_verdict_count") == verdicts && j.Get("provider_error_count") == provider
            && j.Get("harness_error_count") == harness && j.Get("relay_audit") == audit && j.Get("results") == rows
  {
  }

  /** A field that both reports have. */
  predicate Shared(key: string) {
    key in {"task_count", "completed_count", "model_verdict_count", "provider_error_count", "harness_error_count",
            "relay_audit", "results"}
  }

  lemma {:induction false} SharedKeyIsNotExtra(key: string)
    requires Shared(key)
    ensures key != "trigger_reason" && key != "completion_token_budget" && key != "classification"
    ensures key != "extended_token_diagnostic"
  {
    assert |"trigger_reason"| == 14 && |"completion_token_budget"| == 23 && |"classification"| == 14;
    assert |"extended_token_diagnostic"| == 25;
    assert |key| in {10, 15, 19, 20, 11, 7};
  }

  lemma {:induction false} ReportHasNoDiagnostic(m: Measured)
    ensures Obj(Report(m)).Get("extended_token_diagnostic") == Null
  {
    if "extended_token_diagnostic" in Report(m) {
      assert Shared("extended_token_diagnostic");
      SharedKeyIsNotExtra("extended_token_diagnostic");
    }
  }

  lemma {:induction false} TriggerReads(report: map<string, Json>, classification: Json, key: string)
    requires Shared(key)
    ensures var j := Obj(WithTrigger(report, classification));
            && j.Get(key) == Obj(report).Get(key)
            && j.Get("trigger_reason") == Str(P.TRUNCATED)
            && j.Get("completion_token_budget") == Int(P.EXTENDED_DIAGNOSTIC_TOKEN_BUDGET)
            && j.Get("classification") == classification
  {
    SharedKeyIsNotExtra(key);
    assert "trigger_reason"[0] == 't' && "completion_token_budget"[1] == 'o' && "classification"[1] == 'l';
    assert "classification"[0] == 'c';
  }

  lemma {:induction false} CountsRead(m: Measured)
    ensures var j := Obj(Report(m));
            && j.Get("task_count") == Int(|m.rows|) && j.Get("completed_count") == Int(m.completed)
            && j.Get("model_verdict_count") == Int(CountStatus(m.rows, {Passed, Failed}))
            && j.Get("provider_error_count") == Int(CountStatus(m.rows, {ProviderDown}))
            && j.Get("harness_error_count") == Int(CountStatus(m.rows, {HarnessDown}))
            && j.Get("relay_audit") == SummaryJson(m.audit) && j.Get("results") == Arr(RowsJson(m.rows))
  {
    ReportReads(Int(|m.rows|), Int(m.completed), Int(CountStatus(m.rows, {Passed, Failed})),
                Int(CountStatus(m.rows, {ProviderDown})), Int(CountStatus(m.rows, {HarnessDown})),
                SummaryJson(m.audit), Arr(RowsJson(m.rows)));
  }

  lemma {:induction false} DiagnosticReads(m: Measured, key: string)
    requires Shared(key)
    ensures DiagnosticJson(m).Get(key) == Obj(Report(m)).Get(key)
    ensures DiagnosticJson(m).Get("trigger_reason") == Str(P.TRUNCATED)
    ensures DiagnosticJson(m).Get("completion_token_budget") == Int(P.EXTENDED_DIAGNOSTIC_TOKEN_BUDGET)
    ensures DiagnosticJson(m).Get("classification") == Str(Classification(m.rows))
  {
    TriggerReads(Report(m), Str(Classification(m.rows)), key);
  }

  lemma {:induction false} EvidenceReads(m: Measured, diagnostic: Option<Measured>, key: string)
    requires Shared(key)
    ensures EvidenceJson(m, diagnostic).Get(key) == Obj(Report(m)).Get(key)
    ensures EvidenceJson(m, diagnostic).Get("extended_token_diagnostic") ==
            if diagnostic.Some? then DiagnosticJson(diagnostic.value) else Null
  {
    SharedKeyIsNotExtra(key);
    ReportHasNoDiagnostic(m);
  }

  lemma {:induction false} CountFieldsAreCounts(payload: Json)
    requires P.IsCount(payload.Get("model_verdict_count")) && P.IsCount(payload.Get("provider_error_count"))
    requires P.IsCount(payload.Get("harness_error_count"))
    ensures P.FirstBadCount(payload, P.COUNT_FIELDS) == None
  {
    NoBadCount(payload, P.COUNT_FIELDS);
  }

  lemma {:induction false} DiagnosticCountsAccepted(m: Measured, tasks: seq<string>)
    requires Sound(m, tasks) && tasks != []
    ensures P.DiagnosticCountsViolation(DiagnosticJson(m), StatusTexts(m.rows)) == None
  {
    CountsRead(m);
    DiagnosticReads(m, "completed_count");
    DiagnosticReads(m, "model_verdict_count");
    DiagnosticReads(m, "provider_error_count");
    DiagnosticReads(m, "harness_error_count");
    DiagnosticReads(m, "relay_audit");
    TextsMatch(m.rows);
    TalliesMatch(m.rows);
    ClassificationMatches(m.rows);
    AuditAcceptedExactly(m.audit, |tasks|);
  }

  lemma {:induction false} DiagnosticRowsAccepted(str: P.Printer, m: Measured, standard: seq<Row>, taskCount: int)
    requires Distinct(TaskIds(standard)) && |standard| <= taskCount
    requires ExtendedTasks(standard) != [] && Sound(m, ExtendedTasks(standard))
    ensures P.DiagnosticRowsViolation(str, DiagnosticJson(m), RowsJson(m.rows), RowsJson(standard), taskCount) == None
  {
    var tasks := ExtendedTasks(standard);
    ExtendedTasksAreTheTriggers(str, standard);
    DistinctSet(tasks);
    RowsRead(str, m.rows);
    CountsRead(m);
    DiagnosticReads(m, "task_count");
    DiagnosticCountsAccepted(m, tasks);
  }

  lemma {:induction false} DiagnosticAccepted(str: P.Printer, m: Measured, diagnostic: Measured, tasks: seq<string>)
    requires Distinct(tasks) && Sound(m, tasks)
    requires ExtendedTasks(m.rows) != [] && Sound(diagnostic, ExtendedTasks(m.rows))
    ensures P.DiagnosticViolation(str, EvidenceJson(m, Some(diagnostic)), true, |tasks|) == None
  {
    CountsRead(m);
    CountsRead(diagnostic);
    EvidenceReads(m, Some(diagnostic), "results");
    DiagnosticReads(diagnostic, "results");
    RowsRead(str, m.rows);
    RowsRead(str, diagnostic.rows);
    DiagnosticRowsAccepted(str, diagnostic, m.rows, |tasks|);
  }

  /**
    The validator accepts what the producer writes, with and without the extended diagnostic; a
    certification it accepts exactly when every task has a verdict.
   */
  lemma {:induction false} EvidenceIsAccepted(str: P.Printer, m: Measured, diagnostic: Option<Measured>,
                                              tasks: seq<string>, practical: bool, certification: bool)
    requires Distinct(tasks) && Sound(m, tasks)
    requires diagnostic.Some? ==>
               practical && ExtendedTasks(m.rows) != [] && Sound(diagnostic.value, ExtendedTasks(m.rows))
    ensures P.EvidenceViolation(str, EvidenceJson(m, diagnostic), practical, certification, |tasks|) ==
            if certification && m.completed != |tasks| then Some(P.CertificationIncomplete) else None
  {
    var payload := EvidenceJson(m, diagnostic);
    CountsRead(m);
    EvidenceReads(m, diagnostic, "task_count");
    EvidenceReads(m, diagnostic, "completed_count");
    EvidenceReads(m, diagnostic, "model_verdict_count");
    EvidenceReads(m, diagnostic, "provider_error_count");
    EvidenceReads(m, diagnostic, "harness_error_count");
    EvidenceReads(m, diagnostic, "relay_audit");
    CountFieldsAreCounts(payload);
    CountsCover(m.rows);
    AuditAcceptedExactly(m.audit, |tasks|);
    if diagnostic.Some? {
      DiagnosticAccepted(str, m, diagnostic.value, tasks);
    }
  }

  /** From the relay's log and the result files to accepted evidence. */
  lemma {:induction false} RunIsAccepted(x: Patterns, str: P.Printer, lines: seq<Option<Json>>,
                                         files: string -> Option<Json>, log: string,
                      tasks: seq<string>, budget: int, practical: bool,
                      lines2: seq<Option<Json>>, files2: Option<string -> Option<Json>>, log2: string)
    requires Distinct(tasks)
    ensures match Measure(x, str, lines, files, log, tasks, budget)
            case Err(_) => true
            case Ok(m) =>
              var extended := if practical then ExtendedTasks(m.rows) else [];
              var diagnostic := if extended == [] then None
                  else Some(MeasureExtended(x, str, lines2, files2, log2, extended));
              P.EvidenceViolation(str, EvidenceJson(m, diagnostic), practical, false, |tasks|) == None
  {
    MeasureIsSound(x, str, lines, files, log, tasks, budget);
    var measured := Measure(x, str, lines, files, log, tasks, budget);
    if measured.Ok? {
      var m := measured.value;
      var extended := if practical then ExtendedTasks(m.rows) else [];
      var diagnostic := if extended == [] then None else Some(MeasureExtended(x, str, lines2, files2, log2, extended));
      ExtendedIsSound(x, str, lines2, files2, log2, extended);
      EvidenceIsAccepted(str, m, diagnostic, tasks, practical, false);
    }
  }
}
