/**
  The checks of `src/ficelle/coding_benchmark_policy.py` that look at counts: the relay audit summary,
  the extended token diagnostic, and the outcome counts of the evidence.

  A check gives the violation that the source raises, or none.
 */
module BenchmarkPolicy {
  import opened Json
  import opened Wrappers

  const TRUNCATED := "truncated_before_content"
  const EXTENDED_DIAGNOSTIC_TOKEN_BUDGET := 24000

  const PASSED := "passed"
  const FAILED := "failed"
  const PROVIDER_ERROR := "provider_error"
  const HARNESS_ERROR := "harness_error"

  const CAPABLE := "capable_but_output_hungry"
  const INCONCLUSIVE := "inconclusive"
  const FAILED_EXTENDED := "failed_at_extended_budget"

  datatype Violation =
    | AuditSchemaUnsupported
    | AuditCountNegative(field: string)
    | AuditTooManyTasks
    | AuditIncidentsInconsistent
    | AuditProviderIncidentsInconsistent
    | AuditModelIncidentsInconsistent
    | DiagnosticNotAnObject
    | DiagnosticNotForThisBenchmark
    | DiagnosticTriggerUnsupported
    | DiagnosticBudgetInvalid
    | DiagnosticRowsMissing
    | StandardRowsMissing
    | NotOnlyTruncated
    | DiagnosticTasksDiffer
    | DiagnosticTaskCountInvalid
    | DiagnosticStatusUnsupported
    | DiagnosticCountsInconsistent
    | DiagnosticCompletedInconsistent
    | DiagnosticClassificationInconsistent
    | TaskCountDiffers
    | CompletedCountInvalid
    | CountNegative(field: string)
    | CountsDoNotCover
    | CompletedIsNotVerdicts
    | CertificationIncomplete

  /** `str` of a value that is not a string. */
  type Printer = Json -> string

  /** `value == n`. */
  predicate NumberIs(value: Json, n: int) {
    match value
    case Int(m) => m == n
    case Bool(b) => (if b then 1 else 0) == n
    case Real(r) => r == n as real
    case _ => false
  }

  predicate IsCount(value: Json) {
    value.Int? && value.n >= 0
  }

  function FirstBadCount(value: Json, fields: seq<string>): Option<string> {
    if fields == [] then None
    else if IsCount(value.Get(fields[0])) then FirstBadCount(value, fields[1..]) else Some(fields[0])
  }

  const AUDIT_FIELDS := [
    "chat_completion_count", "task_count", "provider_incident_count", "model_failure_incident_count",
    "unresolved_provider_error_count", "unresolved_model_failure_count"
  ]

  function Count(value: Json, field: string): int {
    if value.Get(field).Int? then value.Get(field).n else 0
  }

  /** `_validate_relay_audit_summary`. */
  function AuditViolation(value: Json, taskCount: int): Option<Violation> {
    var completions := Count(value, "chat_completion_count");
    var provider, model := Count(value, "provider_incident_count"), Count(value, "model_failure_incident_count");
    var openProvider, openModel :=
      Count(value, "unresolved_provider_error_count"), Count(value, "unresolved_model_failure_count");
    if !value.Obj? || !(NumberIs(value.Get("schema_version"), 1) || NumberIs(value.Get("schema_version"), 2))
    then Some(AuditSchemaUnsupported)
    else if FirstBadCount(value, AUDIT_FIELDS).Some?
    then Some(AuditCountNegative(FirstBadCount(value, AUDIT_FIELDS).value))
    else if Count(value, "task_count") > taskCount then Some(AuditTooManyTasks)
    else if provider > completions || model > completions || openProvider > completions || openModel > completions
    then Some(AuditIncidentsInconsistent)
    else if openProvider > provider then Some(AuditProviderIncidentsInconsistent)
    else if openModel > model then Some(AuditModelIncidentsInconsistent)
    else None
  }

  /** `str(row.get(key) or "")`. */
  function TextAt(str: Printer, row: Json, key: string): string {
    var value := row.Get(key);
    if !value.Truthy() then "" else if value.Str? then value.s else str(value)
  }

  function TextsAt(str: Printer, rows: seq<Json>, key: string): seq<string> {
    if rows == [] then [] else [TextAt(str, rows[0], key)] + TextsAt(str, rows[1..], key)
  }

  predicate IsTruncated(row: Json) {
    row.Get("status") == Str(FAILED) && row.Get("diagnostic") == Str(TRUNCATED)
  }

  function TriggerTasks(str: Printer, rows: seq<Json>): set<string> {
    if rows == [] then {}
    else (if IsTruncated(rows[0]) then {TextAt(str, rows[0], "task_id")} else {}) + TriggerTasks(str, rows[1..])
  }

  predicate OnlyTruncated(rows: seq<Json>) {
    forall i :: 0 <= i < |rows| ==> rows[i].Get("status") == Str(PASSED) || IsTruncated(rows[i])
  }

  predicate AllObjects(rows: seq<Json>) {
    forall i :: 0 <= i < |rows| ==> rows[i].Obj?
  }

  function SetOf(xs: seq<string>): set<string> {
    set x | x in xs
  }

  /** How many of the statuses are one of the kinds. */
  function Tally(statuses: seq<string>, kinds: set<string>): nat {
    if statuses == [] then 0 else (if statuses[0] in kinds then 1 else 0) + Tally(statuses[1..], kinds)
  }

  function ExpectedClassification(statuses: seq<string>): string {
    if forall i :: 0 <= i < |statuses| ==> statuses[i] == PASSED then CAPABLE
    else if exists i :: 0 <= i < |statuses| && statuses[i] in {PROVIDER_ERROR, HARNESS_ERROR} then INCONCLUSIVE
    else FAILED_EXTENDED
  }

  /** `_validate_extended_token_diagnostic`, apart from the settings that are copied from the policy. */
  function DiagnosticViolation(str: Printer, payload: Json, practical: bool, taskCount: int): Option<Violation> {
    var d := payload.Get("extended_token_diagnostic");
    if d.Null? then None
    else if !d.Obj? then Some(DiagnosticNotAnObject)
    else if !practical then Some(DiagnosticNotForThisBenchmark)
    else if d.Get("trigger_reason") != Str(TRUNCATED) then Some(DiagnosticTriggerUnsupported)
    else if !NumberIs(d.Get("completion_token_budget"), EXTENDED_DIAGNOSTIC_TOKEN_BUDGET) then
        Some(DiagnosticBudgetInvalid)
    else if !d.Get("results").Arr? || d.Get("results").items == [] || !AllObjects(d.Get("results").items)
    then Some(DiagnosticRowsMissing)
    else if !payload.Get("results").Arr? || !AllObjects(payload.Get("results").items) then Some(StandardRowsMissing)
    else DiagnosticRowsViolation(str, d, d.Get("results").items, payload.Get("results").items, taskCount)
  }

  function DiagnosticRowsViolation(str: Printer, d: Json, rows: seq<Json>, standard: seq<Json>,
                                   taskCount: int): Option<Violation> {
    match DiagnosticTasksViolation(str, d, rows, standard, taskCount)
    case Some(v) => Some(v)
    case None => DiagnosticCountsViolation(d, TextsAt(str, rows, "status"))
  }

  function DiagnosticTasksViolation(str: Printer, d: Json, rows: seq<Json>, standard: seq<Json>,
                                    taskCount: int): Option<Violation> {
    var tasks := TextsAt(str, rows, "task_id");
    if TriggerTasks(str, standard) == {} || !OnlyTruncated(standard) then Some(NotOnlyTruncated)
    else if |SetOf(tasks)| != |tasks| || SetOf(tasks) != TriggerTasks(str, standard) then Some(DiagnosticTasksDiffer)
    else if !NumberIs(d.Get("task_count"), |rows|) || !(0 < |rows| <= taskCount) then Some(DiagnosticTaskCountInvalid)
    else None
  }

  function DiagnosticCountsViolation(d: Json, statuses: seq<string>): Option<Violation> {
    var verdicts := Tally(statuses, {PASSED, FAILED});
    if exists i :: 0 <= i < |statuses| && statuses[i] !in {PASSED, FAILED, PROVIDER_ERROR, HARNESS_ERROR}
    then Some(DiagnosticStatusUnsupported)
    else if !NumberIs(d.Get("model_verdict_count"), verdicts)
         || !NumberIs(d.Get("provider_error_count"), Tally(statuses, {PROVIDER_ERROR}))
         || !NumberIs(d.Get("harness_error_count"), Tally(statuses, {HARNESS_ERROR}))
    then Some(DiagnosticCountsInconsistent)
    else if !NumberIs(d.Get("completed_count"), verdicts) then Some(DiagnosticCompletedInconsistent)
    else if d.Get("classification") != Str(ExpectedClassification(statuses)) then
        Some(DiagnosticClassificationInconsistent)
    else if d.Get("relay_audit").Null? then None
    else AuditViolation(d.Get("relay_audit"), |statuses|)
  }

  const COUNT_FIELDS := ["model_verdict_count", "provider_error_count", "harness_error_count"]

  /** The part of `validate_evidence_metadata` about counts; `expected` is the pinned number of tasks. */
  function EvidenceViolation(str: Printer, payload: Json, practical: bool, certification: bool,
                             expected: int): Option<Violation> {
    var verdicts, provider, harness :=
      Count(payload, "model_verdict_count"), Count(payload, "provider_error_count"),
      Count(payload, "harness_error_count");
    var completed := payload.Get("completed_count");
    if !NumberIs(payload.Get("task_count"), expected) then Some(TaskCountDiffers)
    else if !completed.Int? || !(0 <= completed.n <= expected) then Some(CompletedCountInvalid)
    else if FirstBadCount(payload, COUNT_FIELDS).Some? then
        Some(CountNegative(FirstBadCount(payload, COUNT_FIELDS).value))
    else if verdicts + provider + harness != expected then Some(CountsDoNotCover)
    else if completed.n != verdicts then Some(CompletedIsNotVerdicts)
    else if !payload.Get("relay_audit").Null? && AuditViolation(payload.Get("relay_audit"), expected).Some?
    then AuditViolation(payload.Get("relay_audit"), expected)
    else if DiagnosticViolation(str, payload, practical, expected).Some?
    then DiagnosticViolation(str, payload, practical, expected)
    else if certification && verdicts != expected then Some(CertificationIncomplete)
    else None
  }

  // ---------------------------------------------------------------------------------------------
  // What passes, by the fields
  // ---------------------------------------------------------------------------------------------

  /** Equal to the number, as Python compares. */
  predicate Equals(value: Json, n: int) {
    value == Int(n) || value == Real(n as real) || (value == Bool(true) && n == 1) || (value == Bool(false) && n == 0)
  }

  lemma {:induction false} NumberExactly(value: Json, n: int)
    ensures NumberIs(value, n) <==> Equals(value, n)
  {
  }

  /** A whole number that is not negative stands under the name. */
  predicate Counts(value: Json, field: string) {
    value.Get(field).Int? && value.Get(field).n >= 0
  }

  predicate AuditPasses(audit: Json, taskCount: int) {
    && audit.Obj? && (Equals(audit.Get("schema_version"), 1) || Equals(audit.Get("schema_version"), 2))
    && Counts(audit, "chat_completion_count") && Counts(audit, "task_count")
    && Counts(audit, "provider_incident_count") && Counts(audit, "model_failure_incident_count")
    && Counts(audit, "unresolved_provider_error_count") && Counts(audit, "unresolved_model_failure_count")
    && audit.Get("task_count").n <= taskCount
    && audit.Get("unresolved_provider_error_count").n <= audit.Get("provider_incident_count").n
    && audit.Get("provider_incident_count").n <= audit.Get("chat_completion_count").n
    && audit.Get("unresolved_model_failure_count").n <= audit.Get("model_failure_incident_count").n
    && audit.Get("model_failure_incident_count").n <= audit.Get("chat_completion_count").n
  }

  lemma {:induction false} FieldsCount(value: Json, fields: seq<string>)
    ensures FirstBadCount(value, fields).None? <==> forall i :: 0 <= i < |fields| ==> Counts(value, fields[i])
    decreases |fields|
  {
    if fields != [] {
      FieldsCount(value, fields[1..]);
      assert forall i :: 1 <= i < |fields| ==> fields[i] == fields[1..][i - 1];
    }
  }

  lemma {:induction false} AuditFieldsCount(audit: Json)
    ensures FirstBadCount(audit, AUDIT_FIELDS).None? <==>
            && Counts(audit, "chat_completion_count") && Counts(audit, "task_count")
            && Counts(audit, "provider_incident_count") && Counts(audit, "model_failure_incident_count")
            && Counts(audit, "unresolved_provider_error_count") && Counts(audit, "unresolved_model_failure_count")
  {
    FieldsCount(audit, AUDIT_FIELDS);
    var f := AUDIT_FIELDS;
    assert f[0] == "chat_completion_count" && f[1] == "task_count" && f[2] == "provider_incident_count";
    assert f[3] == "model_failure_incident_count" && f[4] == "unresolved_provider_error_count";
    assert f[5] == "unresolved_model_failure_count" && |f| == 6;
  }

  /** A relay audit passes exactly when its numbers are counts in the right relations. */
  lemma {:induction false} AuditPassesExactly(audit: Json, taskCount: int)
    ensures AuditViolation(audit, taskCount).None? <==> AuditPasses(audit, taskCount)
  {
    AuditFieldsCount(audit);
    NumberExactly(audit.Get("schema_version"), 1);
    NumberExactly(audit.Get("schema_version"), 2);
  }

  /** `str(row.get(key) or "")`, read off the value. */
  function WordAt(str: Printer, row: Json, key: string): string {
    var value := row.Get(key);
    if IsFalsy(value) then "" else if value.Str? then value.s else str(value)
  }

  function WordsAt(str: Printer, rows: seq<Json>, key: string): seq<string> {
    seq(|rows|, i requires 0 <= i < |rows| => WordAt(str, rows[i], key))
  }

  lemma {:induction false} WordsExactly(str: Printer, rows: seq<Json>, key: string)
    ensures TextsAt(str, rows, key) == WordsAt(str, rows, key)
    decreases |rows|
  {
    if rows != [] {
      WordsExactly(str, rows[1..], key);
      FalsyExactly(rows[0].Get(key));
      assert WordsAt(str, rows, key) == [WordAt(str, rows[0], key)] + WordsAt(str, rows[1..], key);
    }
  }

  /** The row failed because its budget ran out before there was any content. */
  predicate RanOut(row: Json) {
    row.Get("status") == Str("failed") && row.Get("diagnostic") == Str("truncated_before_content")
  }

  /** The tasks that ran out. */
  function RunOutTasks(str: Printer, rows: seq<Json>): set<string> {
    set i | 0 <= i < |rows| && RanOut(rows[i]) :: WordAt(str, rows[i], "task_id")
  }

  lemma {:induction false} TriggersExactly(str: Printer, rows: seq<Json>)
    ensures TriggerTasks(str, rows) == RunOutTasks(str, rows)
    decreases |rows|
  {
    if rows != [] {
      TriggersExactly(str, rows[1..]);
      FalsyExactly(rows[0].Get("task_id"));
      var rest := rows[1..];
      assert forall i :: 1 <= i < |rows| ==> rows[i] == rest[i - 1];
      FirstTrigger(str, rows);
    }
  }

  lemma {:induction false} FirstTrigger(str: Printer, rows: seq<Json>)
    requires rows != []
    ensures RunOutTasks(str, rows) ==
            (if RanOut(rows[0]) then {WordAt(str, rows[0], "task_id")} else {}) + RunOutTasks(str, rows[1..])
  {
    var rest := rows[1..];
    forall t ensures t in RunOutTasks(str, rows) <==>
        (RanOut(rows[0]) && t == WordAt(str, rows[0], "task_id")) || t in RunOutTasks(str, rest)
    {
      if t in RunOutTasks(str, rows) {
        var i :| 0 <= i < |rows| && RanOut(rows[i]) && t == WordAt(str, rows[i], "task_id");
        assert i > 0 ==> rest[i - 1] == rows[i];
      }
      if t in RunOutTasks(str, rest) {
        var i :| 0 <= i < |rest| && RanOut(rest[i]) && t == WordAt(str, rest[i], "task_id");
        assert rows[i + 1] == rest[i];
      }
    }
  }

  lemma {:induction false} TallyExactly(statuses: seq<string>, kinds: set<string>, k: string)
    ensures Tally(statuses, {k}) == multiset(statuses)[k]
    ensures k !in kinds ==> Tally(statuses, kinds + {k}) == Tally(statuses, kinds) + Tally(statuses, {k})
    decreases |statuses|
  {
    if statuses != [] {
      TallyExactly(statuses[1..], kinds, k);
      assert statuses == [statuses[0]] + statuses[1..];
      assert multiset(statuses) == multiset{statuses[0]} + multiset(statuses[1..]);
    }
  }

  predicate IsOutcome(status: string) {
    status == "passed" || status == "failed" || status == "provider_error" || status == "harness_error"
  }

  function HowMany(statuses: seq<string>, status: string): nat {
    multiset(statuses)[status]
  }

  /** What a diagnostic says of the model: everything passed, some task has no verdict, or it failed again. */
  predicate Classifies(statuses: seq<string>, classification: Json) {
    if forall i :: 0 <= i < |statuses| ==> statuses[i] == "passed" then
      classification == Str("capable_but_output_hungry")
    else if HowMany(statuses, "provider_error") + HowMany(statuses, "harness_error") > 0 then
      classification == Str("inconclusive")
    else classification == Str("failed_at_extended_budget")
  }

  predicate DiagnosticCountsPass(d: Json, statuses: seq<string>) {
    && (forall i :: 0 <= i < |statuses| ==> IsOutcome(statuses[i]))
    && Equals(d.Get("model_verdict_count"), HowMany(statuses, "passed") + HowMany(statuses, "failed"))
    && Equals(d.Get("provider_error_count"), HowMany(statuses, "provider_error"))
    && Equals(d.Get("harness_error_count"), HowMany(statuses, "harness_error"))
    && Equals(d.Get("completed_count"), HowMany(statuses, "passed") + HowMany(statuses, "failed"))
    && Classifies(statuses, d.Get("classification"))
    && (d.Get("relay_audit").Null? || AuditPasses(d.Get("relay_audit"), |statuses|))
  }

  lemma {:induction false} ClassifiesExactly(statuses: seq<string>, classification: Json)
    ensures Classifies(statuses, classification) <==> classification == Str(ExpectedClassification(statuses))
  {
    if i :| 0 <= i < |statuses| && statuses[i] in {PROVIDER_ERROR, HARNESS_ERROR} {
      assert statuses[i] in multiset(statuses);
    }
    if HowMany(statuses, "provider_error") > 0 {
      assert "provider_error" in multiset(statuses);
    }
    if HowMany(statuses, "harness_error") > 0 {
      assert "harness_error" in multiset(statuses);
    }
  }

  lemma {:induction false} OutcomeTallies(statuses: seq<string>)
    ensures Tally(statuses, {PASSED, FAILED}) == HowMany(statuses, "passed") + HowMany(statuses, "failed")
    ensures Tally(statuses, {PROVIDER_ERROR}) == HowMany(statuses, "provider_error")
    ensures Tally(statuses, {HARNESS_ERROR}) == HowMany(statuses, "harness_error")
  {
    assert "passed"[0] == 'p' && "failed"[0] == 'f';
    TallyExactly(statuses, {}, "passed");
    TallyExactly(statuses, {"passed"}, "failed");
    assert {PASSED, FAILED} == {"passed"} + {"failed"};
    TallyExactly(statuses, {}, "provider_error");
    TallyExactly(statuses, {}, "harness_error");
  }

  lemma {:induction false} DiagnosticCountsExactly(d: Json, statuses: seq<string>)
    ensures DiagnosticCountsViolation(d, statuses).None? <==> DiagnosticCountsPass(d, statuses)
  {
    OutcomeTallies(statuses);
    ClassifiesExactly(statuses, d.Get("classification"));
    AuditPassesExactly(d.Get("relay_audit"), |statuses|);
    var verdicts := Tally(statuses, {PASSED, FAILED});
    NumberExactly(d.Get("model_verdict_count"), verdicts);
    NumberExactly(d.Get("provider_error_count"), Tally(statuses, {PROVIDER_ERROR}));
    NumberExactly(d.Get("harness_error_count"), Tally(statuses, {HARNESS_ERROR}));
    NumberExactly(d.Get("completed_count"), verdicts);
  }

  /** Its rows are, each once, the tasks that ran out, and the standard rows have no other failure. */
  ghost predicate DiagnosticRowsPass(str: Printer, d: Json, rows: seq<Json>, standard: seq<Json>, taskCount: int) {
    DiagnosticTasksPass(str, d, rows, standard, taskCount) && DiagnosticCountsPass(d, WordsAt(str, rows, "status"))
  }

  ghost predicate DiagnosticTasksPass(str: Printer, d: Json, rows: seq<Json>, standard: seq<Json>, taskCount: int) {
    var tasks := WordsAt(str, rows, "task_id");
    && (forall i :: 0 <= i < |standard| ==> standard[i].Get("status") == Str("passed") || RanOut(standard[i]))
    && (exists i :: 0 <= i < |standard| && RanOut(standard[i]))
    && (forall i, j :: 0 <= i < j < |tasks| ==> tasks[i] != tasks[j])
    && (forall t :: t in tasks <==> t in RunOutTasks(str, standard))
    && Equals(d.Get("task_count"), |rows|) && 0 < |rows| <= taskCount
  }

  lemma {:induction false} EachOnce(xs: seq<string>)
    ensures |SetOf(xs)| <= |xs|
    ensures |SetOf(xs)| == |xs| <==> forall i, j :: 0 <= i < j < |xs| ==> xs[i] != xs[j]
    decreases |xs|
  {
    if xs == [] {
      assert SetOf(xs) == {};
    } else {
      var rest := xs[1..];
      EachOnce(rest);
      assert SetOf(xs) == {xs[0]} + SetOf(rest);
      assert forall i :: 1 <= i < |xs| ==> xs[i] == rest[i - 1];
      if xs[0] in rest {
        assert {xs[0]} + SetOf(rest) == SetOf(rest);
        var j :| 0 <= j < |rest| && rest[j] == xs[0];
        assert xs[0] == xs[j + 1];
      } else {
        forall i, j | 0 <= i < j < |xs| && (forall k, l :: 0 <= k < l < |rest| ==> rest[k] != rest[l])
          ensures xs[i] != xs[j]
        {
          assert xs[j] == rest[j - 1] && xs[j] in rest;
        }
        if forall i, j :: 0 <= i < j < |xs| ==> xs[i] != xs[j] {
          forall k, l | 0 <= k < l < |rest| ensures rest[k] != rest[l] {
            assert xs[k + 1] != xs[l + 1];
          }
        }
      }
    }
  }

  lemma {:induction false} SomeRanOut(str: Printer, rows: seq<Json>)
    ensures RunOutTasks(str, rows) != {} <==> exists i :: 0 <= i < |rows| && RanOut(rows[i])
  {
    if i :| 0 <= i < |rows| && RanOut(rows[i]) {
      assert WordAt(str, rows[i], "task_id") in RunOutTasks(str, rows);
    }
    if RunOutTasks(str, rows) != {} {
      var t :| t in RunOutTasks(str, rows);
    }
  }

  lemma {:induction false} DiagnosticRowsExactly(str: Printer, d: Json, rows: seq<Json>, standard: seq<Json>,
                                                 taskCount: int)
    ensures DiagnosticRowsViolation(str, d, rows, standard, taskCount).None? <==>
            DiagnosticRowsPass(str, d, rows, standard, taskCount)
  {
    TasksPassExactly(str, d, rows, standard, taskCount);
    WordsExactly(str, rows, "status");
    DiagnosticCountsExactly(d, WordsAt(str, rows, "status"));
  }

  lemma {:induction false} TasksPassExactly(str: Printer, d: Json, rows: seq<Json>, standard: seq<Json>,
                                            taskCount: int)
    ensures DiagnosticTasksViolation(str, d, rows, standard, taskCount).None? <==>
            DiagnosticTasksPass(str, d, rows, standard, taskCount)
  {
    WordsExactly(str, rows, "task_id");
    TriggersExactly(str, standard);
    SomeRanOut(str, standard);
    DiagnosticTasksExactly(WordsAt(str, rows, "task_id"), RunOutTasks(str, standard));
    NumberExactly(d.Get("task_count"), |rows|);
  }

  lemma {:induction false} DiagnosticTasksExactly(tasks: seq<string>, wanted: set<string>)
    ensures |SetOf(tasks)| == |tasks| && SetOf(tasks) == wanted <==>
            && (forall i, j :: 0 <= i < j < |tasks| ==> tasks[i] != tasks[j])
            && forall t :: t in tasks <==> t in wanted
  {
    EachOnce(tasks);
    assert SetOf(tasks) == wanted <==> forall t :: t in tasks <==> t in wanted;
  }

  predicate AreRows(value: Json) {
    value.Arr? && forall i :: 0 <= i < |value.items| ==> value.items[i].Obj?
  }

  /** No extended diagnostic; or, for the benchmark that may have one, one that fits the standard rows. */
  ghost predicate DiagnosticPasses(str: Printer, payload: Json, practical: bool, taskCount: int) {
    var d := payload.Get("extended_token_diagnostic");
    !d.Null? ==>
      && d.Obj? && practical
      && d.Get("trigger_reason") == Str("truncated_before_content")
      && Equals(d.Get("completion_token_budget"), 24000)
      && AreRows(d.Get("results")) && d.Get("results").items != [] && AreRows(payload.Get("results"))
      && DiagnosticRowsPass(str, d, d.Get("results").items, payload.Get("results").items, taskCount)
  }

  lemma {:induction false} DiagnosticPassesExactly(str: Printer, payload: Json, practical: bool, taskCount: int)
    ensures DiagnosticViolation(str, payload, practical, taskCount).None? <==>
            DiagnosticPasses(str, payload, practical, taskCount)
  {
    var d := payload.Get("extended_token_diagnostic");
    NumberExactly(d.Get("completion_token_budget"), 24000);
    if d.Get("results").Arr? && payload.Get("results").Arr? {
      DiagnosticRowsExactly(str, d, d.Get("results").items, payload.Get("results").items, taskCount);
    }
  }

  /** The counts of the evidence cover the expected tasks, and its audit and its diagnostic pass. */
  ghost predicate EvidencePasses(str: Printer, payload: Json, practical: bool, certification: bool, expected: int) {
    var completed := payload.Get("completed_count");
    && Equals(payload.Get("task_count"), expected)
    && Counts(payload, "completed_count")
    && Counts(payload, "model_verdict_count") && Counts(payload, "provider_error_count")
    && Counts(payload, "harness_error_count")
    && payload.Get("model_verdict_count").n + payload.Get("provider_error_count").n
       + payload.Get("harness_error_count").n == expected
    && completed.n == payload.Get("model_verdict_count").n
    && (payload.Get("relay_audit").Null? || AuditPasses(payload.Get("relay_audit"), expected))
    && DiagnosticPasses(str, payload, practical, expected)
    && (certification ==> completed.n == expected)
  }

  /** Evidence passes exactly then. */
  lemma {:induction false} EvidencePassesExactly(str: Printer, payload: Json, practical: bool, certification: bool,
                                                 expected: int)
    ensures EvidenceViolation(str, payload, practical, certification, expected).None? <==>
            EvidencePasses(str, payload, practical, certification, expected)
  {
    NumberExactly(payload.Get("task_count"), expected);
    FieldsCount(payload, COUNT_FIELDS);
    var f := COUNT_FIELDS;
    assert f[0] == "model_verdict_count" && f[1] == "provider_error_count" && f[2] == "harness_error_count";
    assert |f| == 3;
    AuditPassesExactly(payload.Get("relay_audit"), expected);
    DiagnosticPassesExactly(str, payload, practical, expected);
  }
}
