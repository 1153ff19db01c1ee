/**
  The evidence producer of `scripts/coding-benchmark-adapter.py`: the audit of the relay log, one result
  row per task, and what the extended diagnostic is run for.
 */
module BenchmarkAdapter {
  import opened Json
  import opened Wrappers
  import P = BenchmarkPolicy

  const EXACT_MODEL_FAILURE_REASONS: set<string> := {"truncated_before_content", "empty_assistant_message"}
  const MODEL_FAILURE_REASONS: set<string> := {"model_failure", "truncated_before_content", "empty_assistant_message"}

  // ---------------------------------------------------------------------------------------------
  // _relay_audit_by_task
  // ---------------------------------------------------------------------------------------------

  datatype AuditError =
    | InvalidJson(line: nat)
    | NotAnObject(line: nat)
    | SchemaUnsupported
    | IndexesNotContiguous
    | OutcomeUnsupported
    | StatusInvalid
    | FingerprintInvalid
    | BudgetInvalid
    | FailureReasonUnsupported
    | FailureReasonInconsistent
    | BudgetNotIdentified

  datatype Outcome = Success | ModelFailure | ProviderError

  /** A kept event; `incident` is its outcome, or why the model failed. */
  datatype Event = Event(schema: int, task: string, fingerprint: string, outcome: Outcome, incident: string)

  predicate IsHex(s: string) {
    forall i :: 0 <= i < |s| ==> '0' <= s[i] <= '9' || 'a' <= s[i] <= 'f'
  }

  function OutcomeOf(value: Json): Option<Outcome> {
    if value == Str("success") then Some(Success)
    else if value == Str("model_failure") then Some(ModelFailure)
    else if value == Str("provider_error") then Some(ProviderError)
    else None
  }

  function OutcomeText(o: Outcome): string {
    match o
    case Success => "success"
    case ModelFailure => "model_failure"
    case ProviderError => "provider_error"
  }

  predicate IsExactReason(value: Json) {
    value.Str? && value.s in EXACT_MODEL_FAILURE_REASONS
  }

  /** The event that a line contributes, if any. */
  function ReadEvent(str: P.Printer, line: Option<Json>, number: nat, tasks: seq<string>, budget: Option<int>)
    : Result<Option<Event>, AuditError>
  {
    if line.None? then Err(InvalidJson(number))
    else
      var event := line.value;
      var schema := event.Get("schema_version");
      var outcome := OutcomeOf(event.Get("outcome"));
      var status, fingerprint := event.Get("response_status"), event.Get("request_fingerprint");
      if !event.Obj? then Err(NotAnObject(number))
      else if !P.NumberIs(schema, 1) && !P.NumberIs(schema, 2) then Err(SchemaUnsupported)
      else if !P.NumberIs(event.Get("event_index"), number) then Err(IndexesNotContiguous)
      else if outcome.None? then Err(OutcomeUnsupported)
      else if !status.Int? || !(100 <= status.n <= 599) then Err(StatusInvalid)
      else if !fingerprint.Str? || |fingerprint.s| != 64 || !IsHex(fingerprint.s) then Err(FingerprintInvalid)
      else KeepEvent(str, event, outcome.value, fingerprint.s, tasks, budget)
  }

  function KeepEvent(str: P.Printer, event: Json, outcome: Outcome, fingerprint: string, tasks: seq<string>,
                     budget: Option<int>)
    : Result<Option<Event>, AuditError>
  {
    var task, spent, reason := event.Get("task_id"), event.Get("completion_token_budget"), event.Get("failure_reason");
    if !task.Str? || task.s !in tasks then Ok(None)
    else if P.NumberIs(event.Get("schema_version"), 2) then
      if !spent.Int? || spent.n <= 0 then Err(BudgetInvalid)
      else if outcome == ModelFailure && !IsExactReason(reason) then Err(FailureReasonUnsupported)
      else if outcome != ModelFailure && !reason.Null? then Err(FailureReasonInconsistent)
      else if budget.Some? && spent.n != budget.value then Ok(None)
      else Ok(Some(Event(2, task.s, fingerprint, outcome, Incident(str, event, outcome))))
    else if budget.Some? then Err(BudgetNotIdentified)
    else Ok(Some(Event(1, task.s, fingerprint, outcome, Incident(str, event, outcome))))
  }

  /** `str(event.get("failure_reason") or "model_failure")` of a model failure. */
  function Incident(str: P.Printer, event: Json, outcome: Outcome): string {
    if outcome != ModelFailure then OutcomeText(outcome)
    else if P.TextAt(str, event, "failure_reason") != "" then P.TextAt(str, event, "failure_reason")
    else "model_failure"
  }

  /** The first `n` lines. */
  function ReadEvents(str: P.Printer, lines: seq<Option<Json>>, n: nat, tasks: seq<string>, budget: Option<int>)
    : Result<seq<Event>, AuditError>
    requires n <= |lines|
  {
    if n == 0 then Ok([])
    else
      var before :- ReadEvents(str, lines, n - 1, tasks, budget);
      var event :- ReadEvent(str, lines[n - 1], n, tasks, budget);
      Ok(if event.Some? then before + [event.value] else before)
  }

  /** The incident that each request ended with. */
  type Finals = map<(string, string), string>

  function FinalsOf(events: seq<Event>): Finals
    decreases |events|
  {
    if events == [] then map[]
    else
      var last := events[|events| - 1];
      FinalsOf(events[..|events| - 1])[(last.task, last.fingerprint) := last.incident]
  }

  /** The requests that ended with one of these incidents. */
  function EndedWith(finals: Finals, kinds: set<string>): set<(string, string)> {
    set k | k in finals && finals[k] in kinds
  }

  function TasksOf(finals: Finals): set<string> {
    set k | k in finals :: k.0
  }

  function CountOutcome(events: seq<Event>, outcome: Outcome): nat
    decreases |events|
  {
    if events == [] then 0
    else CountOutcome(events[..|events| - 1], outcome) + if events[|events| - 1].outcome == outcome then 1 else 0
  }

  function MaxSchema(events: seq<Event>): int
    decreases |events|
  {
    if events == [] then 2
    else if |events| == 1 then events[0].schema
    else
      var before := MaxSchema(events[..|events| - 1]);
      if events[|events| - 1].schema > before then events[|events| - 1].schema else before
  }

  datatype Summary = Summary(
    schema: int, completions: nat, tasks: nat, providerIncidents: nat, modelIncidents: nat,
    openProviderErrors: nat, openModelFailures: nat)

  function Summarize(events: seq<Event>): Summary {
    var finals := FinalsOf(events);
    Summary(MaxSchema(events), |events|, |TasksOf(finals)|,
            CountOutcome(events, ProviderError), CountOutcome(events, ModelFailure),
            |EndedWith(finals, {"provider_error"})|, |EndedWith(finals, MODEL_FAILURE_REASONS)|)
  }

  /** What a task was left with: the incidents of its requests that did not end in success. */
  function IncidentsOf(finals: Finals, task: string): set<string> {
    set k | k in finals && k.0 == task && finals[k] != "success" :: finals[k]
  }

  method RelayAuditByTask(str: P.Printer, lines: seq<Option<Json>>, tasks: seq<string>, budget: Option<int>)
    returns (r: Result<(Finals, Summary), AuditError>)
    ensures r == match ReadEvents(str, lines, |lines|, tasks, budget)
                 case Ok(events) => Ok((FinalsOf(events), Summarize(events)))
                 case Err(e) => Err(e)
  {
    var events: seq<Event> := [];
    var n: nat := 0;
    while n < |lines|
      invariant n <= |lines|
      invariant ReadEvents(str, lines, n, tasks, budget) == Ok(events)
    {
      var event := ReadEvent(str, lines[n], n + 1, tasks, budget);
      if event.Err? {
        StopsAtError(str, lines, n + 1, |lines|, tasks, budget);
        return Err(event.error);
      }
      if event.value.Some? {
        events := events + [event.value.value];
      }
      n := n + 1;
    }
    var finals, provider, model := TallyEvents(events);
    return Ok((finals, Summary(MaxSchema(events), |events|, |TasksOf(finals)|, provider, model,
                               |EndedWith(finals, {"provider_error"})|, |EndedWith(finals, MODEL_FAILURE_REASONS)|)));
  }

  method TallyEvents(events: seq<Event>) returns (finals: Finals, provider: nat, model: nat)
    ensures finals == FinalsOf(events)
    ensures provider == CountOutcome(events, ProviderError) && model == CountOutcome(events, ModelFailure)
  {
    finals, provider, model := map[], 0, 0;
    var i := 0;
    while i < |events|
      invariant 0 <= i <= |events|
      invariant finals == FinalsOf(events[..i])
      invariant provider == CountOutcome(events[..i], ProviderError) && model == CountOutcome(events[..i], ModelFailure)
    {
      assert events[..i + 1][..i] == events[..i];
      finals := finals[(events[i].task, events[i].fingerprint) := events[i].incident];
      if events[i].outcome == ProviderError {
        provider := provider + 1;
      } else if events[i].outcome == ModelFailure {
        model := model + 1;
      }
      i := i + 1;
    }
    assert events[..i] == events;
  }

  lemma {:induction false} StopsAtError(str: P.Printer, lines: seq<Option<Json>>, n: nat, m: nat, tasks: seq<string>,
                                        budget: Option<int>)
    requires n <= m <= |lines| && ReadEvents(str, lines, n, tasks, budget).Err?
    ensures ReadEvents(str, lines, m, tasks, budget) == ReadEvents(str, lines, n, tasks, budget)
    decreases m - n
  {
    if n < m {
      StopsAtError(str, lines, n, m - 1, tasks, budget);
    }
  }

  // ---------------------------------------------------------------------------------------------
  // _aider_result_rows
  // ---------------------------------------------------------------------------------------------

  /** The three regular expressions, and `json.dumps` of an exception. */
  datatype Patterns = Patterns(
    modelFailure: string -> bool, providerError: string -> bool, providerRetry: string -> bool, dumps: Json -> string)

  datatype Status = Passed | Failed | ProviderDown | HarnessDown

  function StatusText(s: Status): string {
    match s
    case Passed => P.PASSED
    case Failed => P.FAILED
    case ProviderDown => P.PROVIDER_ERROR
    case HarnessDown => P.HARNESS_ERROR
  }

  predicate IsVerdict(s: Status) {
    s == Passed || s == Failed
  }

  /** `passed` is the row's own flag; `attempts` and `firstPassed` are set when there are outcomes. */
  datatype Row = Row(
    task: string, status: Status, passed: bool, diagnostic: Option<string>, firstPassed: Option<bool>,
        attempts: Option<nat>)

  function NewRow(task: string): Row {
    Row(task, HarnessDown, false, None, None, None)
  }

  /** What is left of the log's hints: they are spent on the first task that has nothing better. */
  datatype Pending = Pending(modelFailure: bool, providerError: bool)

  datatype Step = Step(row: Row, pending: Pending, completed: nat)

  /** The one reason that requests were left with, or the general one when there are several. */
  function ModelFailureReason(incidents: set<string>): Option<string> {
    var reasons := incidents * MODEL_FAILURE_REASONS;
    if reasons == {} then None
    else if reasons == {"truncated_before_content"} then Some("truncated_before_content")
    else if reasons == {"empty_assistant_message"} then Some("empty_assistant_message")
    else Some("model_failure")
  }

  function FailureDiagnostic(reason: string): string {
    if reason == "model_failure" then "unresolved_model_response" else reason
  }

  function NothingYet(row: Row, pending: Pending): Step {
    Step(row, pending, 0)
  }

  function Provider(row: Row, pending: Pending): Step {
    Step(row.(status := ProviderDown, diagnostic := Some("unresolved_provider_request")), pending, 0)
  }

  /** With test outcomes on file. */
  function FromOutcomes(row: Row, payload: Json, outcomes: seq<Json>, incidents: set<string>, pending: Pending): Step
    requires outcomes != []
  {
    var passed := outcomes[|outcomes| - 1].Truthy();
    var anyPassed := exists i :: 0 <= i < |outcomes| && outcomes[i].Truthy();
    var reason := ModelFailureReason(incidents);
    var counted := row.(attempts := Some(|outcomes|));
    if !passed && "provider_error" in incidents then Provider(counted, pending)
    else if !passed && reason.Some? then
      Step(counted.(status := Failed, diagnostic := Some(FailureDiagnostic(reason.value)),
                    firstPassed := Some(outcomes[0].Truthy())), pending, 1)
    else if !anyPassed && P.NumberIs(payload.Get("prompt_tokens"), 0) && P.NumberIs(payload.Get("completion_tokens"), 0)
    then NothingYet(counted.(diagnostic := Some("no_measured_generation")), pending)
    else
      Step(counted.(status := if passed then Passed else Failed, passed := passed,
                    firstPassed := Some(outcomes[0].Truthy())), pending, 1)
  }

  /** With an exception on file. */
  function FromException(x: Patterns, row: Row, exception: Json, incidents: set<string>, pending: Pending): Step {
    var reason := ModelFailureReason(incidents);
    if "provider_error" in incidents then Provider(row, pending)
    else if reason.Some? then
      Step(row.(status := Failed, diagnostic := Some(FailureDiagnostic(reason.value))),
          pending.(modelFailure := false), 1)
    else if x.modelFailure(x.dumps(exception)) then Step(row.(status := Failed), pending.(modelFailure := false), 1)
    else if x.providerError(x.dumps(exception)) then
      Step(row.(status := ProviderDown), pending.(providerError := false), 0)
    else NothingYet(row, pending)
  }

  /** With no result on file. */
  function FromNothing(row: Row, incidents: set<string>, pending: Pending): Step {
    var reason := ModelFailureReason(incidents);
    if "provider_error" in incidents then Provider(row, pending)
    else if reason.Some? then
        Step(row.(status := Failed, diagnostic := Some(FailureDiagnostic(reason.value))), pending, 1)
    else if pending.modelFailure then Step(row.(status := Failed), pending.(modelFailure := false), 1)
    else if pending.providerError then Step(row.(status := ProviderDown), pending.(providerError := false), 0)
    else NothingYet(row, pending)
  }

  function RowStep(x: Patterns, task: string, file: Option<Json>, incidents: set<string>, pending: Pending): Step {
    if file.None? then FromNothing(NewRow(task), incidents, pending)
    else
      var outcomes := file.value.Get("tests_outcomes");
      if outcomes.Arr? && outcomes.items != [] then
        FromOutcomes(NewRow(task), file.value, outcomes.items, incidents, pending)
      else if file.value.Get("exception").Truthy() then
        FromException(x, NewRow(task), file.value.Get("exception"), incidents, pending)
      else NothingYet(NewRow(task), pending)
  }

  /** The result file of each benchmark exercise, if it is there, and what the relay left it with. */
  datatype Run = Run(files: string -> Option<Json>, incidents: string -> set<string>, log: string)

  function StartPending(x: Patterns, run: Run): Pending {
    Pending(x.modelFailure(run.log), x.providerRetry(run.log))
  }

  function ResultRows(x: Patterns, run: Run, tasks: seq<string>, pending: Pending): (seq<Row>, nat)
    decreases |tasks|
  {
    if tasks == [] then ([], 0)
    else
      var step := RowStep(x, tasks[0], run.files(tasks[0]), run.incidents(tasks[0]), pending);
      var (rows, completed) := ResultRows(x, run, tasks[1..], step.pending);
      ([step.row] + rows, step.completed + completed)
  }

  method AiderResultRows(x: Patterns, run: Run, tasks: seq<string>) returns (rows: seq<Row>, completed: nat)
    ensures (rows, completed) == ResultRows(x, run, tasks, StartPending(x, run))
  {
    rows, completed := [], 0;
    var pending := StartPending(x, run);
    var i := 0;
    assert tasks[0..] == tasks;
    assert [] + ResultRows(x, run, tasks, pending).0 == ResultRows(x, run, tasks, pending).0;
    while i < |tasks|
      invariant 0 <= i <= |tasks|
      invariant var (more, count) := ResultRows(x, run, tasks[i..], pending);
                ResultRows(x, run, tasks, StartPending(x, run)) == (rows + more, completed + count)
    {
      assert tasks[i..][0] == tasks[i] && tasks[i..][1..] == tasks[i + 1..];
      var step := RowStep(x, tasks[i], run.files(tasks[i]), run.incidents(tasks[i]), pending);
      Associative(rows, [step.row], ResultRows(x, run, tasks[i + 1..], step.pending).0);
      rows, pending, completed := rows + [step.row], step.pending, completed + step.completed;
      i := i + 1;
    }
    assert tasks[i..] == [];
    assert rows + [] == rows;
  }

  lemma {:induction false} Associative<T>(a: seq<T>, b: seq<T>, c: seq<T>)
    ensures (a + b) + c == a + (b + c)
  {
  }

  function CountStatus(rows: seq<Row>, kinds: set<Status>): nat {
    if rows == [] then 0 else (if rows[0].status in kinds then 1 else 0) + CountStatus(rows[1..], kinds)
  }

  // ---------------------------------------------------------------------------------------------
  // The extended diagnostic
  // ---------------------------------------------------------------------------------------------

  predicate RanOutOfTokens(row: Row) {
    row.status == Failed && row.diagnostic == Some(P.TRUNCATED)
  }

  function Unresolved(rows: seq<Row>): seq<Row> {
    if rows == [] then [] else (if rows[0].status != Passed then [rows[0]] else []) + Unresolved(rows[1..])
  }

  function TaskIds(rows: seq<Row>): seq<string> {
    if rows == [] then [] else [rows[0].task] + TaskIds(rows[1..])
  }

  /** `_extended_diagnostic_task_ids`. */
  function ExtendedTasks(rows: seq<Row>): seq<string> {
    var unresolved := Unresolved(rows);
    if forall i :: 0 <= i < |unresolved| ==> RanOutOfTokens(unresolved[i]) then TaskIds(unresolved) else []
  }

  /** `_extended_diagnostic_classification`. */
  function Classification(rows: seq<Row>): string {
    if rows != [] && forall i :: 0 <= i < |rows| ==> rows[i].status == Passed then P.CAPABLE
    else if exists i :: 0 <= i < |rows| && (rows[i].status == ProviderDown || rows[i].status == HarnessDown)
    then P.INCONCLUSIVE
    else P.FAILED_EXTENDED
  }

  // ---------------------------------------------------------------------------------------------
  // The evidence
  // ---------------------------------------------------------------------------------------------

  function AuditFields(schema: Json, completions: Json, tasks: Json, provider: Json, model: Json, openProvider: Json,
                       openModel: Json)
    : map<string, Json>
  {
    map["schema_version" := schema, "chat_completion_count" := completions, "task_count" := tasks,
        "provider_incident_count" := provider, "model_failure_incident_count" := model,
        "unresolved_provider_error_count" := openProvider, "unresolved_model_failure_count" := openModel]
  }

  function SummaryJson(s: Summary): Json {
    Obj(AuditFields(Int(s.schema), Int(s.completions), Int(s.tasks), Int(s.providerIncidents), Int(s.modelIncidents),
                    Int(s.openProviderErrors), Int(s.openModelFailures)))
  }

  function RowJson(row: Row): Json {
    Obj(map["task_id" := Str(row.task), "status" := Str(StatusText(row.status)), "passed" := Bool(row.passed)]
        + (if row.diagnostic.Some? then map["diagnostic" := Str(row.diagnostic.value)] else map[])
        + (if row.firstPassed.Some? then map["first_passed" := Bool(row.firstPassed.value)] else map[])
        + (if row.attempts.Some? then map["attempt_count" := Int(row.attempts.value)] else map[]))
  }

  function RowsJson(rows: seq<Row>): seq<Json> {
    if rows == [] then [] else [RowJson(rows[0])] + RowsJson(rows[1..])
  }

  /** The rows of a run with how many of them were counted as completed, and its audit. */
  datatype Measured = Measured(rows: seq<Row>, completed: nat, audit: Summary)

  /** What the evidence and the diagnostic both report. */
  function ReportFields(tasks: Json, completed: Json, verdicts: Json, provider: Json, harness: Json, audit: Json,
                        rows: Json)
    : map<string, Json>
  {
    map["task_count" := tasks, "completed_count" := completed, "model_verdict_count" := verdicts,
        "provider_error_count" := provider, "harness_error_count" := harness, "relay_audit" := audit, "results" := rows]
  }

  function Report(m: Measured): map<string, Json> {
    ReportFields(Int(|m.rows|), Int(m.completed), Int(CountStatus(m.rows, {Passed, Failed})),
                 Int(CountStatus(m.rows, {ProviderDown})), Int(CountStatus(m.rows, {HarnessDown})),
                 SummaryJson(m.audit), Arr(RowsJson(m.rows)))
  }

  function WithTrigger(report: map<string, Json>, classification: Json): map<string, Json> {
    report["trigger_reason" := Str(P.TRUNCATED)]
    ["completion_token_budget" := Int(P.EXTENDED_DIAGNOSTIC_TOKEN_BUDGET)]
    ["classification" := classification]
  }

  function DiagnosticJson(m: Measured): Json {
    Obj(WithTrigger(Report(m), Str(Classification(m.rows))))
  }

  function EvidenceJson(m: Measured, diagnostic: Option<Measured>): Json {
    Obj(if diagnostic.Some? then Report(m)["extended_token_diagnostic" := DiagnosticJson(diagnostic.value)]
        else Report(m))
  }

  const NO_AUDIT := Summary(2, 0, 0, 0, 0, 0, 0)

  function HarnessFailedRows(tasks: seq<string>): seq<Row> {
    if tasks == [] then []
    else [NewRow(tasks[0]).(diagnostic := Some("extended_diagnostic_harness_failed"))] + HarnessFailedRows(tasks[1..])
  }

  /** What a run of these tasks measures, with `log` the relay's log as read so far. */
  function Measure(x: Patterns, str: P.Printer, lines: seq<Option<Json>>, files: string -> Option<Json>, log: string,
                   tasks: seq<string>, budget: int): Result<Measured, AuditError>
  {
    var events :- ReadEvents(str, lines, |lines|, tasks, Some(budget));
    var run := Run(files, task => IncidentsOf(FinalsOf(events), task), log);
    var (rows, completed) := ResultRows(x, run, tasks, StartPending(x, run));
    Ok(Measured(rows, completed, Summarize(events)))
  }

  /** The second run, which is recorded as failed when anything in it goes wrong. */
  function MeasureExtended(x: Patterns, str: P.Printer, lines: seq<Option<Json>>, files: Option<string -> Option<Json>>,
                           log: string, tasks: seq<string>): Measured
  {
    if files.None? then Measured(HarnessFailedRows(tasks), 0, NO_AUDIT)
    else
      match Measure(x, str, lines, files.value, log, tasks, P.EXTENDED_DIAGNOSTIC_TOKEN_BUDGET)
      case Ok(m) => m
      case Err(_) => Measured(HarnessFailedRows(tasks), 0, NO_AUDIT)
  }

  // ---------------------------------------------------------------------------------------------
  // What a log line contributes, by its fields
  // ---------------------------------------------------------------------------------------------

  predicate IsNumber(value: Json, n: int) {
    value == Int(n) || value == Real(n as real) || (value == Bool(true) && n == 1) || (value == Bool(false) && n == 0)
  }

  lemma {:induction false} NumberIsExactly(value: Json, n: int)
    ensures P.NumberIs(value, n) <==> IsNumber(value, n)
  {
  }

  predicate IsOutcomeWord(value: Json) {
    value == Str("success") || value == Str("model_failure") || value == Str("provider_error")
  }

  predicate IsFingerprintText(value: Json) {
    && value.Str? && |value.s| == 64
    && forall i :: 0 <= i < 64 ==> '0' <= value.s[i] <= '9' || 'a' <= value.s[i] <= 'f'
  }

  /** A line that the audit can read: one object per line, numbered from one. */
  predicate IsReadable(event: Json, number: nat) {
    && event.Obj?
    && (IsNumber(event.Get("schema_version"), 1) || IsNumber(event.Get("schema_version"), 2))
    && IsNumber(event.Get("event_index"), number)
    && IsOutcomeWord(event.Get("outcome"))
    && event.Get("response_status").Int? && 100 <= event.Get("response_status").n <= 599
    && IsFingerprintText(event.Get("request_fingerprint"))
  }

  predicate IsAbout(event: Json, tasks: seq<string>) {
    event.Get("task_id").Str? && event.Get("task_id").s in tasks
  }

  predicate IsSchema(event: Json, n: int) {
    IsNumber(event.Get("schema_version"), n)
  }

  /** A budget is there, and a reason exactly for a model failure, one of the two that are told apart. */
  predicate IsSoundTwo(event: Json) {
    var spent, reason := event.Get("completion_token_budget"), event.Get("failure_reason");
    && spent.Int? && spent.n > 0
    && (if event.Get("outcome") == Str("model_failure") then
          reason == Str("truncated_before_content") || reason == Str("empty_assistant_message")
        else reason == Null)
  }

  /** The line is about one of the tasks, and sound in its schema. */
  predicate IsSound(event: Json, tasks: seq<string>, budget: Option<int>) {
    IsAbout(event, tasks) ==> if IsSchema(event, 2) then IsSoundTwo(event) else budget.None?
  }

  /** It is kept: with a budget, only when it was made with it. */
  predicate IsKept(event: Json, tasks: seq<string>, budget: Option<int>) {
    && IsAbout(event, tasks)
    && (IsSchema(event, 2) && budget.Some? ==> event.Get("completion_token_budget") == Int(budget.value))
  }

  /** What a request is left with: its outcome, or the reason of a model failure. */
  predicate IsIncident(str: P.Printer, event: Json, incident: string) {
    var reason := event.Get("failure_reason");
    if event.Get("outcome") != Str("model_failure") then Str(incident) == event.Get("outcome")
    else if IsFalsy(reason) then incident == "model_failure"
    else if reason.Str? then incident == reason.s
    else incident == str(reason)
  }

  predicate IsEventOf(str: P.Printer, event: Json, e: Event) {
    && e.schema == (if IsSchema(event, 2) then 2 else 1)
    && Str(e.task) == event.Get("task_id") && Str(e.fingerprint) == event.Get("request_fingerprint")
    && Str(OutcomeText(e.outcome)) == event.Get("outcome")
    && IsIncident(str, event, e.incident)
  }

  lemma {:induction false} OutcomesDiffer()
    ensures "success" != "model_failure" && "success" != "provider_error" && "model_failure" != "provider_error"
  {
    assert "success"[0] == 's' && "model_failure"[0] == 'm' && "provider_error"[0] == 'p';
  }

  lemma {:induction false} OutcomeExactly(value: Json)
    ensures OutcomeOf(value).Some? <==> IsOutcomeWord(value)
    ensures match OutcomeOf(value)
            case Some(Success) => value == Str("success")
            case Some(ModelFailure) => value == Str("model_failure")
            case Some(ProviderError) => value == Str("provider_error")
            case None => true
    ensures OutcomeOf(value).Some? ==> Str(OutcomeText(OutcomeOf(value).value)) == value
  {
    OutcomesDiffer();
  }

  lemma {:induction false} IncidentExactly(str: P.Printer, event: Json, outcome: Outcome)
    requires OutcomeOf(event.Get("outcome")) == Some(outcome)
    requires event.Get("failure_reason").Str? || IsFalsy(event.Get("failure_reason"))
             || str(event.Get("failure_reason")) != ""
    ensures IsIncident(str, event, Incident(str, event, outcome))
  {
    OutcomeExactly(event.Get("outcome"));
    OutcomesDiffer();
    FalsyExactly(event.Get("failure_reason"));
  }

  lemma {:induction false} KeptExactly(str: P.Printer, event: Json, outcome: Outcome, fingerprint: string,
                                       tasks: seq<string>, budget: Option<int>)
    requires OutcomeOf(event.Get("outcome")) == Some(outcome) && event.Get("request_fingerprint") == Str(fingerprint)
    requires IsSchema(event, 1) || IsSchema(event, 2)
    ensures var r := KeepEvent(str, event, outcome, fingerprint, tasks, budget);
            && (r.Ok? <==> IsSound(event, tasks, budget))
            && (r.Ok? ==> (r.value.Some? <==> IsKept(event, tasks, budget)))
            && (r.Ok? && r.value.Some? ==>
                  && r.value.value.schema == (if IsSchema(event, 2) then 2 else 1)
                  && Str(r.value.value.task) == event.Get("task_id") && r.value.value.fingerprint == fingerprint
                  && r.value.value.outcome == outcome && r.value.value.incident == Incident(str, event, outcome))
  {
    OutcomeExactly(event.Get("outcome"));
    OutcomesDiffer();
    NumberIsExactly(event.Get("schema_version"), 2);
    ExactReasons(event.Get("failure_reason"));
  }

  lemma {:induction false} ExactReasons(value: Json)
    ensures IsExactReason(value) <==>
            value == Str("truncated_before_content") || value == Str("empty_assistant_message")
  {
  }

  /**
    A line is read exactly when it is well formed and sound for the tasks that are asked for, and it is kept
    exactly when it is about one of them and was made with the budget, if one is asked for.
   */
  lemma {:induction false} LineExactly(str: P.Printer, line: Option<Json>, number: nat, tasks: seq<string>,
                                       budget: Option<int>)
    requires line.Some? && !line.value.Get("failure_reason").Str? && !IsFalsy(line.value.Get("failure_reason")) ==>
               str(line.value.Get("failure_reason")) != ""
    ensures var r := ReadEvent(str, line, number, tasks, budget);
            && (r.Ok? <==> line.Some? && IsReadable(line.value, number) && IsSound(line.value, tasks, budget))
            && (r.Ok? ==> (r.value.Some? <==> IsKept(line.value, tasks, budget)))
            && (r.Ok? && r.value.Some? ==> IsEventOf(str, line.value, r.value.value))
  {
    if line.Some? {
      var event := line.value;
      var outcome, fingerprint := OutcomeOf(event.Get("outcome")), event.Get("request_fingerprint");
      NumberIsExactly(event.Get("schema_version"), 1);
      NumberIsExactly(event.Get("schema_version"), 2);
      NumberIsExactly(event.Get("event_index"), number);
      OutcomeExactly(event.Get("outcome"));
      if outcome.Some? && fingerprint.Str? && (IsSchema(event, 1) || IsSchema(event, 2)) {
        KeptExactly(str, event, outcome.value, fingerprint.s, tasks, budget);
        IncidentExactly(str, event, outcome.value);
      }
    }
  }

  /** The last event of a request, which decides what it is left with. */
  predicate IsLastOf(events: seq<Event>, key: (string, string), i: int) {
    && 0 <= i < |events| && (events[i].task, events[i].fingerprint) == key
    && forall j :: i < j < |events| ==> (events[j].task, events[j].fingerprint) != key
  }

  lemma {:induction false} FinalsExactly(events: seq<Event>, key: (string, string))
    ensures key in FinalsOf(events) <==> exists i :: IsLastOf(events, key, i)
    ensures forall i :: IsLastOf(events, key, i) ==>
            key in FinalsOf(events) && FinalsOf(events)[key] == events[i].incident
    decreases |events|
  {
    if events != [] {
      var init, last := events[..|events| - 1], events[|events| - 1];
      FinalsExactly(init, key);
      if (last.task, last.fingerprint) == key {
        assert IsLastOf(events, key, |events| - 1);
      } else {
        forall i ensures IsLastOf(events, key, i) <==> IsLastOf(init, key, i) {
          assert forall j :: 0 <= j < |init| ==> events[j] == init[j];
        }
      }
    }
  }

  /** The events that are the last ones of their requests and are left with this. */
  predicate IsLeft(events: seq<Event>, i: int, incident: string) {
    0 <= i < |events| && IsLastOf(events, (events[i].task, events[i].fingerprint), i) && events[i].incident == incident
  }

  function Requests(events: seq<Event>, at: set<int>): set<(string, string)> {
    set i | i in at && 0 <= i < |events| :: (events[i].task, events[i].fingerprint)
  }

  function LeftWith(events: seq<Event>, incident: string): set<int> {
    set i | 0 <= i < |events| && IsLeft(events, i, incident)
  }

  function EventsThat(events: seq<Event>, outcome: Outcome): set<int> {
    set i | 0 <= i < |events| && events[i].outcome == outcome
  }

  /** What the summary counts: events by their outcome, requests by what their last event leaves them with. */
  lemma {:induction false} SummaryExactly(events: seq<Event>)
    ensures var s := Summarize(events);
            && s.completions == |events|
            && s.tasks == |set i | 0 <= i < |events| :: events[i].task|
            && s.providerIncidents == |EventsThat(events, ProviderError)|
            && s.modelIncidents == |EventsThat(events, ModelFailure)|
            && s.openProviderErrors == |Requests(events, LeftWith(events, "provider_error"))|
            && s.openModelFailures ==
               |Requests(events, LeftWith(events, "model_failure") + LeftWith(events, "truncated_before_content")
                                 + LeftWith(events, "empty_assistant_message"))|
    ensures Summarize([]).schema == 2
    ensures events != [] ==> IsGreatestSchema(events, Summarize(events).schema)
  {
    OutcomesExactly(events, ProviderError);
    OutcomesExactly(events, ModelFailure);
    TasksExactly(events);
    EndedExactly(events, {"provider_error"}, LeftWith(events, "provider_error"));
    EndedExactly(events, MODEL_FAILURE_REASONS,
        LeftWith(events, "model_failure") + LeftWith(events, "truncated_before_content")
        + LeftWith(events, "empty_assistant_message"));
    if events != [] {
      SchemaExactly(events);
    }
  }

  predicate IsGreatestSchema(events: seq<Event>, schema: int) {
    && (exists i :: 0 <= i < |events| && events[i].schema == schema)
    && forall i :: 0 <= i < |events| ==> events[i].schema <= schema
  }

  lemma {:induction false} SchemaExactly(events: seq<Event>)
    requires events != []
    ensures IsGreatestSchema(events, MaxSchema(events))
    decreases |events|
  {
    if |events| > 1 {
      var init, last := events[..|events| - 1], events[|events| - 1];
      SchemaExactly(init);
      assert forall i :: 0 <= i < |init| ==> init[i] == events[i];
      var i :| 0 <= i < |init| && init[i].schema == MaxSchema(init);
      assert events[i].schema == MaxSchema(init) && events[|events| - 1] == last;
    }
  }

  lemma {:induction false} OutcomesExactly(events: seq<Event>, outcome: Outcome)
    ensures CountOutcome(events, outcome) == |EventsThat(events, outcome)|
    decreases |events|
  {
    if events != [] {
      var n := |events| - 1;
      var init := events[..n];
      OutcomesExactly(init, outcome);
      assert EventsThat(events, outcome) ==
          EventsThat(init, outcome) + if events[n].outcome == outcome then {n} else {};
      assert n !in EventsThat(init, outcome);
    }
  }

  lemma {:induction false} TasksExactly(events: seq<Event>)
    ensures TasksOf(FinalsOf(events)) == set i | 0 <= i < |events| :: events[i].task
    decreases |events|
  {
    if events != [] {
      var n := |events| - 1;
      var init, last := events[..n], events[n];
      TasksExactly(init);
      assert events == init + [last];
      var finals, key := FinalsOf(init), (last.task, last.fingerprint);
      assert TasksOf(finals[key := last.incident]) == TasksOf(finals) + {last.task} by {
        assert key in finals[key := last.incident] && key.0 == last.task;
        forall k | k in finals ensures k.0 in TasksOf(finals[key := last.incident]) {
          assert k in finals[key := last.incident];
        }
      }
    }
  }

  lemma {:induction false} EndedExactly(events: seq<Event>, kinds: set<string>, at: set<int>)
    requires forall i :: i in at <==>
               && 0 <= i < |events| && IsLastOf(events, (events[i].task, events[i].fingerprint), i)
               && events[i].incident in kinds
    ensures EndedWith(FinalsOf(events), kinds) == Requests(events, at)
  {
    var finals := FinalsOf(events);
    forall key ensures key in EndedWith(finals, kinds) <==> key in Requests(events, at) {
      FinalsExactly(events, key);
      if key in EndedWith(finals, kinds) {
        var i :| IsLastOf(events, key, i);
        assert i in at;
      }
    }
  }

  /** A task is left with what its requests are left with, unless that is success. */
  lemma {:induction false} IncidentsExactly(events: seq<Event>, task: string, incident: string)
    ensures incident in IncidentsOf(FinalsOf(events), task) <==>
            incident != "success" && exists i :: IsLeft(events, i, incident) && events[i].task == task
  {
    var finals := FinalsOf(events);
    if incident in IncidentsOf(finals, task) {
      var key :| key in finals && key.0 == task && finals[key] == incident;
      FinalsExactly(events, key);
      var i :| IsLastOf(events, key, i);
      assert IsLeft(events, i, incident);
    }
    if incident != "success" && exists i :: IsLeft(events, i, incident) && events[i].task == task {
      var i :| IsLeft(events, i, incident) && events[i].task == task;
      FinalsExactly(events, (task, events[i].fingerprint));
    }
  }

  // ---------------------------------------------------------------------------------------------
  // What a task's row says, by its result file and its incidents
  // ---------------------------------------------------------------------------------------------

  /** There are test outcomes on file. */
  predicate HasOutcomes(file: Option<Json>) {
    file.Some? && file.value.Get("tests_outcomes").Arr? && file.value.Get("tests_outcomes").items != []
  }

  function OutcomesIn(file: Option<Json>): seq<Json> {
    if HasOutcomes(file) then file.value.Get("tests_outcomes").items else []
  }

  predicate LastPassed(file: Option<Json>) {
    HasOutcomes(file) && !IsFalsy(OutcomesIn(file)[|OutcomesIn(file)| - 1])
  }

  /** No attempt passed, and not one token was counted. */
  predicate NothingGenerated(file: Option<Json>) {
    && HasOutcomes(file) && (forall i :: 0 <= i < |OutcomesIn(file)| ==> IsFalsy(OutcomesIn(file)[i]))
    && IsNumber(file.value.Get("prompt_tokens"), 0) && IsNumber(file.value.Get("completion_tokens"), 0)
  }

  predicate HasException(file: Option<Json>) {
    file.Some? && !HasOutcomes(file) && !IsFalsy(file.value.Get("exception"))
  }

  /** There is something to decide: outcomes that did not end well, an exception, or no file at all. */
  predicate IsOpen(file: Option<Json>) {
    (HasOutcomes(file) && !LastPassed(file)) || HasException(file) || file.None?
  }

  predicate IsFailureReason(reason: string) {
    reason == "model_failure" || reason == "truncated_before_content" || reason == "empty_assistant_message"
  }

  predicate HasFailure(incidents: set<string>) {
    exists reason :: reason in incidents && IsFailureReason(reason)
  }

  /** The diagnosis of the failures that requests were left with: the only reason, or a general word. */
  predicate Diagnoses(incidents: set<string>, diagnostic: string) {
    if exists reason :: reason in incidents && IsFailureReason(reason) && reason != "truncated_before_content" then
      if exists reason :: reason in incidents && IsFailureReason(reason) && reason != "empty_assistant_message" then
        diagnostic == "unresolved_model_response"
      else diagnostic == "empty_assistant_message"
    else diagnostic == "truncated_before_content"
  }

  predicate ThrewAs(matches: string -> bool, x: Patterns, file: Option<Json>) {
    HasException(file) && matches(x.dumps(file.value.Get("exception")))
  }

  /** The provider is to blame. */
  predicate SaysProvider(x: Patterns, file: Option<Json>, incidents: set<string>, pending: Pending) {
    && IsOpen(file)
    && (|| "provider_error" in incidents
        || (!HasFailure(incidents)
            && (|| (ThrewAs(x.providerError, x, file) && !ThrewAs(x.modelFailure, x, file))
                || (file.None? && pending.providerError && !pending.modelFailure))))
  }

  /** The model failed the task. */
  predicate SaysFailed(x: Patterns, file: Option<Json>, incidents: set<string>, pending: Pending) {
    && IsOpen(file) && "provider_error" !in incidents
    && (|| HasFailure(incidents)
        || (HasOutcomes(file) && !NothingGenerated(file))
        || ThrewAs(x.modelFailure, x, file)
        || (file.None? && pending.modelFailure))
  }

  /** What goes into the diagnostic field, if anything. */
  predicate SaysDiagnostic(file: Option<Json>, incidents: set<string>, diagnostic: Option<string>) {
    if IsOpen(file) && "provider_error" in incidents then diagnostic == Some("unresolved_provider_request")
    else if IsOpen(file) && HasFailure(incidents) then diagnostic.Some? && Diagnoses(incidents, diagnostic.value)
    else if NothingGenerated(file) then diagnostic == Some("no_measured_generation")
    else diagnostic == None
  }

  lemma {:induction false} ReasonExactly(incidents: set<string>)
    ensures ModelFailureReason(incidents).Some? <==> HasFailure(incidents)
    ensures ModelFailureReason(incidents).Some? ==>
              Diagnoses(incidents, FailureDiagnostic(ModelFailureReason(incidents).value))
  {
    var reasons := incidents * MODEL_FAILURE_REASONS;
    assert forall r :: r in reasons <==> r in incidents && IsFailureReason(r);
    assert "model_failure"[0] == 'm' && "truncated_before_content"[0] == 't' && "empty_assistant_message"[0] == 'e';
    if reasons != {} {
      var r :| r in reasons;
      if reasons == {"truncated_before_content"} {
      } else if reasons == {"empty_assistant_message"} {
        assert "empty_assistant_message" in reasons;
      } else {
        SomeOther(reasons, r, "truncated_before_content");
        SomeOther(reasons, r, "empty_assistant_message");
      }
    }
  }

  lemma {:induction false} SomeOther(reasons: set<string>, r: string, one: string)
    requires r in reasons && reasons != {one}
    ensures exists other :: other in reasons && other != one
  {
    if r == one {
      assert reasons == {one} + (reasons - {one});
      assert reasons - {one} != {};
      var other :| other in reasons - {one};
    }
  }

  lemma {:induction false} AnyPassed(outcomes: seq<Json>)
    ensures (exists i :: 0 <= i < |outcomes| && outcomes[i].Truthy()) <==>
            !(forall i :: 0 <= i < |outcomes| ==> IsFalsy(outcomes[i]))
  {
    forall i | 0 <= i < |outcomes| ensures outcomes[i].Truthy() <==> !IsFalsy(outcomes[i]) {
      FalsyExactly(outcomes[i]);
    }
  }

  lemma {:induction false} OutcomesSay(x: Patterns, task: string, file: Option<Json>, incidents: set<string>,
                                       pending: Pending)
    requires HasOutcomes(file)
    ensures RowSays(x, task, file, incidents, pending, RowStep(x, task, file, incidents, pending))
  {
    var outcomes := OutcomesIn(file);
    ReasonExactly(incidents);
    AnyPassed(outcomes);
    FalsyExactly(outcomes[|outcomes| - 1]);
    FalsyExactly(outcomes[0]);
    NumberIsExactly(file.value.Get("prompt_tokens"), 0);
    NumberIsExactly(file.value.Get("completion_tokens"), 0);
  }

  lemma {:induction false} OthersSay(x: Patterns, task: string, file: Option<Json>, incidents: set<string>,
                                     pending: Pending)
    requires !HasOutcomes(file)
    ensures RowSays(x, task, file, incidents, pending, RowStep(x, task, file, incidents, pending))
  {
    ReasonExactly(incidents);
    if file.Some? {
      FalsyExactly(file.value.Get("exception"));
    }
  }

  /** The row and the hints that are left, by what is on file and what the relay saw. */
  predicate RowSays(x: Patterns, task: string, file: Option<Json>, incidents: set<string>, pending: Pending,
                    step: Step) {
    var row := step.row;
    && row.task == task
    && (row.status == Passed <==> LastPassed(file))
    && (row.status == ProviderDown <==> SaysProvider(x, file, incidents, pending))
    && (row.status == Failed <==> SaysFailed(x, file, incidents, pending))
    && (row.passed <==> LastPassed(file))
    && SaysDiagnostic(file, incidents, row.diagnostic)
    && row.attempts == (if HasOutcomes(file) then Some(|OutcomesIn(file)|) else None)
    && row.firstPassed ==
       (if HasOutcomes(file) && (row.status == Passed || row.status == Failed) then Some(!IsFalsy(OutcomesIn(file)[0]))
        else None)
    && step.completed == (if row.status == Passed || row.status == Failed then 1 else 0)
    && (step.pending.modelFailure <==>
        pending.modelFailure
        && !(row.status == Failed && (HasException(file) || (file.None? && !HasFailure(incidents)))))
    && (step.pending.providerError <==>
        pending.providerError && !(row.status == ProviderDown && "provider_error" !in incidents))
  }

  /** Each row says what the result file and the incidents of its task say. */
  lemma {:induction false} RowExactly(x: Patterns, task: string, file: Option<Json>, incidents: set<string>,
                                      pending: Pending)
    ensures RowSays(x, task, file, incidents, pending, RowStep(x, task, file, incidents, pending))
  {
    if HasOutcomes(file) {
      OutcomesSay(x, task, file, incidents, pending);
    } else {
      OthersSay(x, task, file, incidents, pending);
    }
  }

  /** The words of the evidence. */
  lemma {:induction false} WordsOfRow(row: Row)
    ensures RowJson(row).Get("task_id") == Str(row.task)
    ensures RowJson(row).Get("passed") == Bool(row.passed)
    ensures RowJson(row).Get("status") ==
            match row.status
            case Passed => Str("passed")
            case Failed => Str("failed")
            case ProviderDown => Str("provider_error")
            case HarnessDown => Str("harness_error")
  {
    assert "task_id"[0] == 't' && "status"[0] == 's' && "passed"[0] == 'p' && "diagnostic"[0] == 'd';
    assert "first_passed"[0] == 'f' && "attempt_count"[0] == 'a';
  }

  lemma {:induction false} AttemptsOfRow(row: Row)
    ensures RowJson(row).Get("first_passed") == if row.firstPassed.Some? then Bool(row.firstPassed.value) else Null
    ensures RowJson(row).Get("attempt_count") == if row.attempts.Some? then Int(row.attempts.value) else Null
  {
    assert "task_id"[0] == 't' && "status"[0] == 's' && "passed"[0] == 'p' && "diagnostic"[0] == 'd';
    assert "first_passed"[0] == 'f' && "attempt_count"[0] == 'a';
  }
}
