# Ficelle: a model of its stateful parts, with proofs

Ficelle is a local router for language models. This project models the parts of it in which state has to
survive something: a crash in the middle of an update, a stream that is cut anywhere, an index that is read
while it grows, a writer with a stale copy, a clock that moves on. Each component is a module.

| module | models |
|---|---|
| UpdateRecovery | `src/ficelle/update.py`: backup, marker, swap, commit, rollback and recovery, as steps over durable state |
| SseFraming, StreamTranslator | `src/ficelle/anthropic_messages.py`: the incremental event stream parser and the translator behind it |
| AnthropicMessages, StreamAgreement | the same file: the non-streaming translation, the encoded message, and their agreement with the stream |
| MessageTranslation | the same file: requests, with tool results next to their calls |
| RequestIndex, LiveTail, RequestSummary | `src/ficelle/request_log.py`: the derived index, its subscribers, its summary |
| ReplayEntries, ReplayStore, ReasoningObserver, ReasoningAgreement | `src/ficelle/reasoning_replay.py`: the trace cache, the stream observer, and its agreement with the non-streaming recorder |
| ProviderAdmission | `src/ficelle/provider_admission.py`: rolling-window admission |
| StateMerge | `src/ficelle/state_store.py`: merges that a stale writer cannot undo |
| BenchmarkAdapter, BenchmarkPolicy, BenchmarkEvidence | `scripts/coding-benchmark-adapter.py` and `src/ficelle/coding_benchmark_policy.py`: a producer and its validator |
| ExceptionChain | `src/ficelle/failures.py`: the search along wrapped exceptions |
| ProviderRegistry | `src/ficelle/provider_intake.py`: the registry that may only grow |
| Selection | `src/ficelle/selection.py`, `src/ficelle/routing_policy.py`: candidates and reasons |
| Json, Text, Sorting, Wrappers | values, string operations and orders that the others share |

Where the source changes an object step by step, a class has its fields and its methods, and each method is
proved equal to a function of the old state; the laws are lemmas about those functions.
What such a function decides is said once more by itself, in literal names and numbers and by the fields of its
input: lemmas that end in `Exactly` do so, and the liveness ones say that an undisturbed step goes through.

Where the code does not keep a law on all inputs, one lemma says exactly when it does and another one gives an
input for which it does not:

| law | exact condition | input |
|---|---|---|
| an update survives errors and crashes | `CrashSafeExactlyWhenSound` | `ChmodFailureLosesPackages`, `TornClearMixesPackages`, `IgnoredErrorMixesPackages` |
| the translator does not see chunks | `TranslatorChunksExactly` | `LateErrorShowsChunks` |
| its output is well formed | `EveryRunIsAccepted` | `LateErrorShowsChunks` |
| streaming or not, the message is the same | `StreamAgrees` | `UnspelledArgumentsDisagree` |
| the observer does not see chunks | `ObserverChunksExactly` | `PaddedEventShowsChunks` |
| streaming or not, the record is the same | `RecordAgreesExactly`, `FragmentsAgreeExactly` | `SpaceAtTheCutDiffers` |
| a log can be read again | `RereadingKeepsContents` | `EarlyCorrectionTakesEffectLate` |
| a log that replaces another is read whole | `RotatedLogIsReadFrom` | `RotatedLogLosesRow` |
| a refused key is told when to come back | `DeclaredRetryExactly`, `HeaderRetryIsLeast` | `LoweredLimitIsToldTooEarly`, `HeaderRetryIsToldTooEarly` |
| a stale writer undoes no evidence | `WritersThatUndoNothing` | `StampedModelUndoes` |
| how three merges are grouped makes no difference | `MergeAssociatesExactly` | `UndatedRowsDoNotAssociate` |
| a summary passes its validator | `LogIsAcceptedExactly` | `SchemaOneMayBeRefused` |
| the order of the catalog makes no difference | `NamedModelExactly` | `FirstNamedIsTaken` |

What comes from outside is a parameter: JSON parsing and printing, date parsing, hashes, regular expressions,
the policies behind selection, the clock as a real number. In UpdateRecovery a list of fates says for every
step whether it works, raises or is the last one before a crash, so a statement about all lists is one about
every run. A step that is not atomic leaves arbitrary debris when it does not finish.

Three points where the code is to be read with care, each with its lemma:

* A crash or an error at every place is survived only as long as `chmod` after the commit's rename cannot raise
  and the recursive delete of the recovery directory leaves nothing behind. The delete is called with
  `ignore_errors=True`, so an error in it is enough, without a crash (`CrashSafeExactlyWhenSound`).
* Stored evidence survives a stale writer, except one whose entry for a whole model carries one of the four
  time stamps itself (`WritersThatUndoNothing`).
* A comment at `src/ficelle/request_log.py:465` says that a log file which replaces another one is read from
  byte zero. When the new file is first seen empty, the code notes its identity but keeps the old offset, and
  later reads from there (`RotatedLogIsReadFrom`, `RotatedLogLosesRow`). The model follows the code.

Every lemma carries `{:induction false}`: it is proved by what its body says.

## Model

| member | source | states |
|---|---|---|
| UpdateRecovery.CrashSafeExactlyWhenSound | src/ficelle/update.py:1148-1186 | After any history of updates and recoveries, each failing or dying at any step, a recovery that completes leaves exactly a package set that whole updates can produce and no marker; this holds exactly in the sound worlds: the commit's `chmod` cannot raise after the marker was replaced, and the recursive delete leaves nothing behind, neither when the process dies in it nor when it ignores an error |
| UpdateRecovery.HistoryStandsFor | src/ficelle/update.py:1263-1370 | In a sound world every such history leaves a disk that stands for one whole set: installed when there is no marker or a committed one, restorable from the backup when the marker says prepared |
| UpdateRecovery.ApplyKeepsWhole | src/ficelle/update.py:1263-1370 | In a sound world one update run cut anywhere stands for the old set or for the complete target set, and reports success only with the whole target installed and no marker |
| UpdateRecovery.UpdateSucceedsExactly | src/ficelle/update.py:1263-1370 | From a disk without a marker an update ends with 0 exactly when it is queued, something is installed, and each step of it goes or may fail unnoticed; the whole target is installed then |
| UpdateRecovery.UpdateCompletes | src/ficelle/update.py:1263-1370 | From every disk that stands for a non-empty whole set, and for every queued update, there are fates without failure with which it ends with 0, the whole target installed and no marker |
| UpdateRecovery.TargetIsLastSaid | src/ficelle/update.py:1332-1345 | Under every name the target has what the last wheel that says something of it says, or what was there |
| UpdateRecovery.RecoverKeepsWhole | src/ficelle/update.py:1152-1186 | In a sound world a recovery interrupted anywhere keeps the whole set that the disk stands for; one that completes has it installed and leaves no marker |
| UpdateRecovery.RecoveryCompletes | src/ficelle/update.py:1152-1186 | From every disk that stands for a whole set an undisturbed recovery does complete |
| UpdateRecovery.UnreadableIsRefused | src/ficelle/update.py:1096-1134 | A marker without entries, or with an entry whose copy is not there, is refused, and nothing is touched |
| UpdateRecovery.PrepareBacksUpWhole | src/ficelle/update.py:1322-1330 | In a sound world, after the first guarded block the prepared marker's backup restores exactly what is installed; when the block fails nothing is lost |
| UpdateRecovery.SwapKeepsWhole | src/ficelle/update.py:1332-1345 | In a sound world the backup stands for the old set during the swap until the commit, which puts the complete target set in place in one step |
| UpdateRecovery.RollBackKeepsWhole | src/ficelle/update.py:1346-1357 | In a sound world a rollback cut anywhere still stands for the old set |
| UpdateRecovery.RollBackRestores | src/ficelle/update.py:1346-1357 | A rollback whose steps work installs exactly what the backup holds, leaves neither marker nor backup, and raises, whatever the swap had left |
| UpdateRecovery.FailedSwapIsUndone | src/ficelle/update.py:1331-1358 | Whichever step of the swap fails, and whatever it leaves, the update raises and the old packages are back without a trace when the steps that undo it work |
| UpdateRecovery.SwapOrRollBackKeepsWhole | src/ficelle/update.py:1331-1370 | In a sound world swap, rollback and final clean-up together stand for the old or for the target set, and return 0 only for the target |
| UpdateRecovery.BackUpHoldsWhole | src/ficelle/update.py:1017-1029 | A backup that completes has an entry and restores exactly the installed set; it touches neither the packages nor the marker |
| UpdateRecovery.RestoreInstallsBackup | src/ficelle/update.py:1046-1053 | A restore that completes installs exactly what the backup holds, whatever was there before |
| UpdateRecovery.ChmodFailureLosesPackages | src/ficelle/update.py:1137-1145 | A commit whose `chmod` raises after the replacement, then a crash in the rollback, leaves a committed marker over missing packages |
| UpdateRecovery.TornClearMixesPackages | src/ficelle/update.py:1148-1149 | A clean-up that dies half way tears the backup under a prepared marker, and the next recovery installs a set that is neither old nor new |
| UpdateRecovery.IgnoredErrorMixesPackages | src/ficelle/update.py:1148-1149 | So does a clean-up that meets an error, ignores it and leaves a part of the backup under the prepared marker; no process dies in that run |
| UpdateRecovery.Updater.ApplyUpdateLocked | src/ficelle/update.py:1263-1370 | The step-by-step update changes the disk exactly as the specification function of the protocol says, for every list of failures and crashes |
| UpdateRecovery.Updater.RecoverInterruptedUpdateLocked | src/ficelle/update.py:1152-1186 | The recovery changes the disk exactly as its specification |
| UpdateRecovery.Updater.BackupInstalledPackages | src/ficelle/update.py:1017-1029 | Entry by entry, the loop builds the specified backup and its list of entries |
| UpdateRecovery.Updater.RestoreInstalledPackages | src/ficelle/update.py:1032-1053 | Removal and copying back, entry by entry, give the specified package set |
| UpdateRecovery.Updater.SwapPackages | src/ficelle/update.py:1332-1345 | Stop, install, checks, restart and commit in the specified order |
| UpdateRecovery.Updater.RollBackSwap | src/ficelle/update.py:1346-1357 | Stop, restore, restart and clean-up in the specified order, and the error is raised again |
| UpdateRecovery.Updater.WriteRecoveryMarker | src/ficelle/update.py:1077-1093 | The marker is replaced as a whole or not at all |
| UpdateRecovery.Updater.WriteRecoveryPhase | src/ficelle/update.py:1137-1145 | Only the phase of the marker changes; an error may still follow the replacement |
| UpdateRecovery.Updater.ClearUpdateRecovery | src/ficelle/update.py:1148-1149 | Backup and marker go and nothing is raised; where the delete can die half way, or ignore an error and go on, any part of them may be left |
| SseFraming.ChunksDoNotMatterExactly | src/ficelle/anthropic_messages.py:1021-1044 | For any machine behind this framing, how a stream is cut into chunks is invisible in output and state exactly when every complete event after the stopping one is inert |
| SseFraming.FirstCutEndsFirst | src/ficelle/anthropic_messages.py:1031-1038 | The delimiter that starts first also ends first: bytes that arrive later cannot complete an earlier one |
| SseFraming.BoundaryIsStable | src/ficelle/anthropic_messages.py:1031-1038 | Bytes that arrive later do not move the delimiter that was found |
| SseFraming.SplitAppend | src/ficelle/anthropic_messages.py:1030-1043 | Framing what has arrived, then what arrives later, gives the events and the rest of framing all of it |
| SseFraming.FindFromIsFirst | src/ficelle/anthropic_messages.py:1031-1032 | The search finds the first occurrence, and nothing only when there is none |
| StreamTranslator.TranslatorChunksExactly | src/ficelle/anthropic_messages.py:996-1044 | For the translator, chunking is invisible exactly when every event after the terminal one is inert |
| StreamTranslator.EveryRunIsAccepted | src/ficelle/anthropic_messages.py:794-994 | However a stream is cut, what is emitted is a prefix of start, ping, at most one text block at index 0, tool blocks at consecutive indices, delta, stop, or such a prefix ended by one error, with blocks stopped before the delta and nothing after the end: for all ways of cutting it exactly when no event says anything after the one that ended the output |
| StreamTranslator.InertIsQuiet | src/ficelle/anthropic_messages.py:1021-1044 | When every event after the terminal one is inert, none says anything after the end |
| StreamTranslator.LateErrorShowsChunks | src/ficelle/anthropic_messages.py:1006-1043 | An event that is not JSON after `[DONE]`: how the stream is cut shows, and in one piece the output goes on after its end |
| StreamTranslator.TerminalForGood | src/ficelle/anthropic_messages.py:815-824 | Once closed or failed the translator stays so, whatever events come |
| StreamTranslator.ChunkFailsExactly | src/ficelle/anthropic_messages.py:826-916 | A payload fails the translator exactly when, among the choices that are reached, one has content that is neither null nor a string, or audio, or a function call, or a finish reason that trims and lowers to `error` |
| StreamTranslator.ChoiceFailsExactly | src/ficelle/anthropic_messages.py:834-916 | The same for one choice, with the error code and the text that name what is wrong with it |
| StreamTranslator.EventFailsExactly | src/ficelle/anthropic_messages.py:996-1019 | An event fails the translator exactly when it says done and a tool is broken, or is no JSON, or is an object with an error or spoiled; with the code of each, and an empty or other event changes nothing |
| StreamTranslator.FailSays | src/ficelle/anthropic_messages.py:815-824 | A failure is told with its code and at most 2000 characters of detail, and both are kept |
| StreamTranslator.DataExactly | src/ficelle/anthropic_messages.py:996-1005 | The data of an event is what its `data:` lines say, without white space before it, on lines of their own, whatever ends the lines |
| StreamTranslator.OpenAIToAnthropicStreamTranslator.FeedChunk | src/ficelle/anthropic_messages.py:1021-1044 | Buffer, accumulators and output after a chunk are those of the framing specification with the translator as its machine |
| StreamTranslator.OpenAIToAnthropicStreamTranslator.DrainBuffer | src/ficelle/anthropic_messages.py:1030-1043 | The loop handles every complete event of the buffer and keeps the rest, without looking at the stop flags in between |
| StreamTranslator.OpenAIToAnthropicStreamTranslator.OnRawEvent | src/ficelle/anthropic_messages.py:996-1019 | One event gives the specified output and accumulators |
| StreamTranslator.OpenAIToAnthropicStreamTranslator.OnChunk | src/ficelle/anthropic_messages.py:826-833 | Usage and choices of one payload are taken over as specified, with the rejections |
| StreamTranslator.OpenAIToAnthropicStreamTranslator.OnChoice | src/ficelle/anthropic_messages.py:834-916 | Text, refusal, function call, tool fragments, finish reason and stop sequence of one choice, in the order of the source |
| StreamTranslator.OpenAIToAnthropicStreamTranslator.OnDone | src/ficelle/anthropic_messages.py:919-994 | Closing the stream checks the tools, then emits blocks, delta and stop as specified |
| StreamTranslator.OpenAIToAnthropicStreamTranslator.EmitTools | src/ficelle/anthropic_messages.py:940-978 | The tool blocks come out at consecutive indices in the order of the tools |
| StreamTranslator.OpenAIToAnthropicStreamTranslator.FirstBrokenTool | src/ficelle/anthropic_messages.py:922-931 | The first tool without id or name, or with arguments that are not an object, fails the stream |
| AnthropicMessages.EncodedMessageDecodes | src/ficelle/anthropic_messages.py:668-759 | A client that reads the encoded stream of a message holds exactly that message, content, stop fields and usage, exactly when each tool input of it prints back: what is printed parses to the input, or nothing is printed for an empty object |
| AnthropicMessages.StopReasonExactly | src/ficelle/anthropic_messages.py:480-504 | With literal names: `max_tokens` exactly for `length` and `max_tokens`; `tool_use` exactly for `tool_calls`, `function_call` and `tool_use`; `stop_sequence` exactly when a natural end names a configured sequence, and which; `end_turn` otherwise |
| AnthropicMessages.ResponseExactly | src/ficelle/anthropic_messages.py:512-607 | A completion is translated exactly when its first choice can be rendered, by its fields, and the message has the parts, stop fields, counts, id and model that the fields call for |
| AnthropicMessages.MessageIdExactly | src/ficelle/anthropic_messages.py:507-509 | The id keeps the safe characters of the request id, in order, and is `msg_request` when there are none |
| StreamAgreement.StreamAgrees | src/ficelle/anthropic_messages.py:512-607 | For every stream of single choices that no payload spoils, closing it fails exactly when a tool is broken, the completion assembled from the same deltas is refused exactly when a tool is broken or has no arguments, and a client holds exactly the translation of the completion, or both fail, exactly when all tools have arguments or one is broken |
| StreamAgreement.AcceptedExactly | src/ficelle/anthropic_messages.py:826-916 | A stream is accepted exactly when none of its payloads spoils it, by the fields of the payloads |
| StreamAgreement.FinishSays | src/ficelle/anthropic_messages.py:919-994 | A stream that closes well ends with the stop reason that its last finish reason, text, stops and named stop call for, and with the token counts of its usage |
| StreamAgreement.StreamedBytesAgree | src/ficelle/anthropic_messages.py:826-1044 | The same from the bytes, under the same exact condition, for every way of cutting the stream |
| StreamAgreement.TranslateAssembled | src/ficelle/anthropic_messages.py:512-607 | What the non-streaming translation makes of the assembled completion, in terms of the stream's accumulators |
| StreamAgreement.UnspelledArgumentsDisagree | src/ficelle/anthropic_messages.py:922-931 | The shortest stream that disagrees: one payload that calls a tool by name and never gives it arguments, an empty object in the stream and an error without streaming |
| StreamAgreement.SortedOrders | src/ficelle/anthropic_messages.py:941 | The tools are emitted in the order of their indices |
| RequestIndex.IncrementalIndexIsReplay | src/ficelle/request_log.py:446-522 | After every schedule of appends and catch-ups, cut in the middle of lines and crashing between commits, the table is a replay of what was committed, and a catch-up that completes leaves exactly the table, row ids included, of one sequential ingest of the complete lines |
| RequestIndex.CatchUpKeepsSynced | src/ficelle/request_log.py:446-522 | A catch-up interrupted anywhere keeps the store a replay of its offset |
| RequestIndex.ApplyExactly | src/ficelle/request_log.py:667-695 | One entry changes the content under an id exactly when it is the first row of the id, or a delivery correction of a row that does not have its verdict yet; literal, for every id |
| RequestIndex.RotatedLogIsReadFrom | src/ficelle/request_log.py:460-481 | Another log file is read from byte zero exactly when it was not seen empty, or the old offset was zero or is past its end; otherwise reading resumes at the old file's offset |
| RequestIndex.RotatedLogLosesRow | src/ficelle/request_log.py:460-481 | A new log of one line that replaces one of the same length and is first seen empty: its row never reaches the table, though a replay has it |
| RequestIndex.RereadingKeepsContents | src/ficelle/request_log.py:667-695 | Reading a whole log again leaves the row contents as they are exactly when its corrections took effect |
| RequestIndex.EarlyCorrectionTakesEffectLate | src/ficelle/request_log.py:667-695 | A correction before its row is ignored at first and changes the row when the log is read again |
| RequestIndex.OrderedLogsCanBeReread | src/ficelle/request_log.py:667-695 | When each delivery correction follows its row, a log can be read again from byte zero |
| RequestIndex.CorrectedHasLastVerdict | src/ficelle/request_log.py:667-695 | A corrected row ends with the verdict of the last correction in the log |
| LiveTail.LiveTailIsExactlyOnce | src/ficelle/request_log.py:202-255 | In every run of ingests and polls a primed subscriber that is never told to reload has exactly the rows ingested since that pass its filter, in order, up to its cursor, under any limits |
| LiveTail.TailReloadsExactly | src/ficelle/request_log.py:229-255 | A poll of a primed subscriber tells it to reload exactly when the catch-up made a correction, or a corrected row is behind the cursor, or the cursor is past the head, or the head is more than 200 row ids ahead; it has no rows then |
| LiveTail.ReloadedExactly | src/ficelle/request_log.py:202-255 | Along a run a primed subscriber is told to reload exactly when at some poll one of these holds; with no correction and no gap over 200 it never is |
| LiveTail.LimitExactly | src/ficelle/request_log.py:225 | A limit is 100 when none is given and between 1 and 200 otherwise |
| LiveTail.ShortPollIsComplete | src/ficelle/request_log.py:202-255 | After a poll in such a run that returned fewer rows than its limit the cursor is at the head and no row that passes the filter is missing |
| LiveTail.PollPasses | src/ficelle/request_log.py:246-255 | The rows of a poll are those that its cursor passes |
| LiveTail.CorrectionForcesResync | src/ficelle/request_log.py:202-255 | In every run of a primed subscriber that was not told to reload, once any reader has ingested a correction its next poll tells it to reload, and it receives nothing before that |
| LiveTail.RequestLog.CatchUpWith | src/ficelle/request_log.py:446-522 | Batches of lines, each committed with its offset, give the specified store for every crash point |
| LiveTail.RequestLog.InsertRows | src/ficelle/request_log.py:667-695 | Row by row, inserts and corrections give the specified table and flag |
| LiveTail.RequestLog.TailRows | src/ficelle/request_log.py:202-255 | Priming, resync, limit and cursor of a poll as specified |
| LiveTail.RequestLog.SelectBehind | src/ficelle/request_log.py:246-251 | The rows behind the cursor that pass the filter, oldest first and at most as many as asked for |
| RequestSummary.SlotsAreContiguous | src/ficelle/request_log.py:341-343 | The timeline slots are contiguous from the cutoff's bucket to the reference's |
| RequestSummary.ExactlyOneSlot | src/ficelle/request_log.py:363-375 | Every row of the window is counted in exactly one slot of the timeline |
| RequestSummary.SlotsAddUp | src/ficelle/request_log.py:346-382 | Slot totals and oks add up to the reported total and ok |
| RequestSummary.CountedExactly | src/ficelle/request_log.py:346-361 | A row counts exactly when its time lies in the window, and as ok exactly when its reason is `ok` |
| RequestSummary.SlotHoldsRow | src/ficelle/request_log.py:363-375 | The slot of a row begins at or before the row's time and ends after it |
| RequestSummary.WindowIsCovered | src/ficelle/request_log.py:341-343 | The first slot holds the cutoff and the last one the reference |
| RequestSummary.Timeline | src/ficelle/request_log.py:363-382 | Grouping the rows and emitting every slot, idle ones included, gives the count of each slot |
| RequestSummary.PercentileIsLeast | src/ficelle/request_log.py:741-759 | The percentile is the least recorded latency with at least that share of the samples at or below it, at an offset that is always in range |
| ProviderAdmission.SlidingWindowBound | src/ficelle/provider_admission.py:86-139 | On a clock that does not go back and with a fixed configuration, every half-open minute holds at most the limit of declared admissions of a key |
| ProviderAdmission.LimitHasHeadroom | src/ficelle/provider_admission.py:75-84 | The limit is the largest number that is one or at most nine tenths of the configured rate, in literal numbers |
| ProviderAdmission.DeclaredRetryIsLeast | src/ficelle/provider_admission.py:117-132 | In every run on a clock that does not go back and with a fixed limit, a key that is refused under the declared limit, with no observation in force or an expired one, is admitted after a whole number of seconds exactly when it is at least the number it was told |
| ProviderAdmission.DeclaredRetryExactly | src/ficelle/provider_admission.py:117-132 | Whatever the limits along a run on such a clock were, a key refused under the declared limit is told the truth exactly when the oldest entry and the one that leaves room are due at the same second |
| ProviderAdmission.LoweredLimitIsToldTooEarly | src/ficelle/provider_admission.py:117-132 | With a limit lowered along the run a key is told thirty seconds and is refused after them |
| ProviderAdmission.RefusalFindsFullWindow | src/ficelle/provider_admission.py:120-132 | In every run on a clock that does not go back and with a fixed limit a key without an observation in force is refused exactly when as many of its declared admissions as the limit allows lie in the last minute |
| ProviderAdmission.HeaderRetryIsLeast | src/ficelle/provider_admission.py:98-108 | A key that is refused under the provider's headers is told the truth exactly when there is no declared limit or its window has room at the second it is told |
| ProviderAdmission.HeaderAdmitsFrom | src/ficelle/provider_admission.py:98-132 | After such a refusal the key is admitted after a number of seconds exactly when it is at least the number it was told and the declared window has room by then |
| ProviderAdmission.HeaderRetryIsToldTooEarly | src/ficelle/provider_admission.py:98-132 | One admission, then headers that reset in five seconds: the key is told five and is refused after them |
| ProviderAdmission.HeadersAdmitRemaining | src/ficelle/provider_admission.py:109-116 | Between an observation and its reset exactly the first `remaining` reservations are admitted, and none of them enters the declared window |
| ProviderAdmission.HeadersAdmit | src/ficelle/provider_admission.py:109-169 | From the headers directly: with no other observation and before the reset exactly the first min(limit, remaining) reservations after them are admitted |
| ProviderAdmission.DecisionSays | src/ficelle/provider_admission.py:86-139 | Which source a decision names, and that what it says is left is what is left |
| ProviderAdmission.ObservedExactly | src/ficelle/provider_admission.py:141-169 | Usable headers are recorded as their limit, the smaller of limit and remaining, and now plus their reset; unusable ones leave everything as it was, and no other key changes |
| ProviderAdmission.KeysAreIndependent | src/ficelle/provider_admission.py:86-169 | A key gets from a run exactly the decisions of its own operations alone |
| ProviderAdmission.ProviderAdmissionLedger.ReserveSlot | src/ficelle/provider_admission.py:86-139 | Popping expired entries from the left, then admitting or refusing, gives the specified decision and ledger |
| ProviderAdmission.ProviderAdmissionLedger.ObserveHeaders | src/ficelle/provider_admission.py:141-169 | Only the observation of the key changes, and only for usable headers |
| StateMerge.MergeAssociatesExactly | src/ficelle/state_store.py:105-143 | For all values, the two ways of grouping the merge of three of them give the same exactly when an outer one is no object, or the middle one is none and merging the outer ones gives the last, or, under every key that all three have, dates and merged dates fall as the condition says: a middle row with a date, or two outer ones, always; one outer date when the other two together have none that beats it; dates that only show after a merge when both groupings end with them; and without dates the same again one level down |
| StateMerge.MergeIsAssociative | src/ficelle/state_store.py:105-143 | So on two-level histories of dated rows the merge is associative |
| StateMerge.UndatedRowsDoNotAssociate | src/ficelle/state_store.py:105-143 | Rows whose first stamp key holds no date, merged with a writer that blanks it and with a dated row, give different results in the two orders |
| StateMerge.MergeIsIdempotent | src/ficelle/state_store.py:105-143 | Merging anything with itself changes nothing |
| StateMerge.MergeKeepsLatest | src/ficelle/state_store.py:105-143 | Under every model and profile the merge holds the row with the latest stamp of the two, the incoming one on a tie |
| StateMerge.MergedRowExactly | src/ficelle/state_store.py:105-143 | In two-level histories of dated rows the merge holds under every model and profile the row that only one side has, or the one with the later stamp, the incoming one on a tie |
| StateMerge.StampExactly | src/ficelle/state_store.py:47-62 | The stamp of a row is the date under the first of its stamp keys that is set |
| StateMerge.MergeIsTwoLevel | src/ficelle/state_store.py:105-143 | It keeps the union of the models and stays a two-level history |
| StateMerge.WritersThatUndoNothing | src/ficelle/state_store.py:105-143 | A writer can make no dated row disappear or go back in time, whatever is stored, exactly when none of the model entries it holds carries a stamp of its own |
| StateMerge.StampedModelUndoes | src/ficelle/state_store.py:122-129 | A model entry with a stamp of its own replaces a stored model, and with it a profile that it does not have |
| StateMerge.CallsUndoNothing | src/ficelle/state_store.py:372-392 | Over every sequence of writes and updates with any mutators that hand in no stamped model entry, no evidence row disappears or goes back in time |
| StateMerge.FeedbackKeepsNewest | src/ficelle/state_store.py:146-188 | Under every key the feedback merge holds the active slot of greater revision, the stored one on a tie |
| StateMerge.MergedSlotExactly | src/ficelle/state_store.py:146-188 | Under every key, by its fields: nothing when neither slot is active, the active one when one is, and the newer one when both are |
| StateMerge.FeedbackIsAssociative | src/ficelle/state_store.py:146-206 | At a fixed time the feedback merge is associative on all inputs |
| StateMerge.FeedbackIsIdempotent | src/ficelle/state_store.py:146-206 | And idempotent on its own output |
| StateMerge.WriteMergesHistories | src/ficelle/state_store.py:208-231 | A write merges the two evidence histories and the feedback ledger and takes everything else from the writer |
| StateMerge.WriteKeepsActiveFeedback | src/ficelle/state_store.py:219-225 | No active feedback slot is lost by a write or replaced by one that is not newer |
| StateMerge.MergeRuntimeHistoryRows | src/ficelle/state_store.py:105-143 | Filling one dictionary, current keys first, gives the specified merge at every depth |
| StateMerge.StateStore.Write | src/ficelle/state_store.py:372-376 | The stored state becomes the merge of what was stored and what was given |
| StateMerge.StateStore.Update | src/ficelle/state_store.py:378-392 | The stored state becomes the merge of what was stored and what the mutator gives back, or else the copy that it edited |
| ReplayStore.StoreKeepsMostRecent | src/ficelle/reasoning_replay.py:188-219 | On a clock that does not go back, after any calls the entries that are not expired are exactly those among the most recently observed ids up to the capacity; they are in time order, distinct and never blank |
| ReplayEntries.UnexpiredNewest | src/ficelle/reasoning_replay.py:213-219 | In time order, dropping the expired entries and cutting to the capacity can be done in either order |
| ReplayStore.LookupIsUnbounded | src/ficelle/reasoning_replay.py:221-237 | A lookup answers as an unbounded store would that forgets all but the most recent ids |
| ReplayStore.LookupIsFirstAnswer | src/ficelle/reasoning_replay.py:221-237 | Dropping expired entries on the way does not change the answer, which is that of the first id with a live entry and fitting signatures |
| ReplayStore.ReplayOnlyFills | src/ficelle/reasoning_replay.py:243-283 | A replay keeps the messages and their order, and only sets the trace of assistant tool-call messages that lack one |
| ReplayStore.ReplayFillsExactly | src/ficelle/reasoning_replay.py:243-283 | After any calls each message of the replayed body that is an assistant's, has tool calls and no text under either reasoning key gets the trace of the first call with a live fitting entry, or without one the stand-in for a model that was observed thinking; every other message stays, all by the fields |
| ReplayStore.ObservedExactly | src/ficelle/reasoning_replay.py:188-211 | What is held for an id is what the last call that observed it with a trace said |
| ReplayStore.StandInExactly | src/ficelle/reasoning_replay.py:161-167 | The stand-in names the called tools, each once, in order |
| ReplayStore.ReplayIsIdempotent | src/ficelle/reasoning_replay.py:243-283 | Replaying again at the same time changes nothing |
| ReplayStore.MessagesOneByOne | src/ficelle/reasoning_replay.py:258-279 | Each message is rewritten as if it were the only one, though lookups change the store |
| ReplayStore.ReplayedBodyHasSources | src/ficelle/reasoning_replay.py:243-283 | Every inserted trace was observed for one of the message's call ids within the time to live with equal or one-side-empty signatures, or is the stand-in for a model observed thinking |
| ReplayStore.ThinkingWasObserved | src/ficelle/reasoning_replay.py:203-207 | The models that may get the stand-in are exactly those observed with a trace |
| ReplayStore.ReasoningReplayStore.Observe | src/ficelle/reasoning_replay.py:188-211 | The entries of the given ids move to the end, then expired and surplus ones go, as specified |
| ReplayStore.ReasoningReplayStore.Evict | src/ficelle/reasoning_replay.py:213-219 | Expired entries go first, then the oldest until the capacity holds |
| ReplayStore.ReasoningReplayStore.TraceFor | src/ficelle/reasoning_replay.py:221-237 | The loop over the ids gives the specified answer and leaves the specified entries |
| ReplayStore.ReasoningReplayStore.ReplayIntoBody | src/ficelle/reasoning_replay.py:243-283 | The copy made at the first filled message gives the specified body and store |
| ReasoningObserver.ObserverChunksExactly | src/ficelle/reasoning_replay.py:395-469 | What is recorded depends only on the bytes, not on how they are cut, exactly when every line fits the cap, or the unfinished last one does not, or a trace has reached the cap on a finished line, or the choices that all lines make up have nothing to record |
| ReasoningObserver.EventExactly | src/ficelle/reasoning_replay.py:412-435 | A line of `data:` and bytes, with white space before, between and after, says the choices of the parsed bytes, unless they are `[DONE]` |
| ReasoningObserver.NoEvent | src/ficelle/reasoning_replay.py:412-435 | A line that is not of this form says nothing |
| ReasoningObserver.PaddedEventShowsChunks | src/ficelle/reasoning_replay.py:395-469 | Any event that would be recorded, on a line padded over the cap, is recorded in one piece and not in every other |
| ReasoningObserver.OverTheCapRecordsNothing | src/ficelle/reasoning_replay.py:395-410 | Once a trace has reached the cap on a finished line nothing is recorded, however the stream is cut |
| ReasoningObserver.FeedsReadOrGiveUp | src/ficelle/reasoning_replay.py:395-410 | However the rest arrives, the observer gives up on the way or has read it all |
| ReasoningObserver.SplitAppend | src/ficelle/reasoning_replay.py:400-403 | Splitting what has arrived, then what arrives later, gives the lines of all of it |
| ReasoningObserver.AbsorbToolCalls | src/ficelle/reasoning_replay.py:332-352 | Tool-call fragments are stitched together by index as specified |
| ReasoningObserver.ReasoningStreamObserver.Feed | src/ficelle/reasoning_replay.py:395-410 | Buffer, choices and the give-up flag after a chunk are the specified ones |
| ReasoningObserver.ReasoningStreamObserver.Finish | src/ficelle/reasoning_replay.py:454-469 | The store receives exactly the specified records, in the order of the choices |
| ReasoningAgreement.ObserverAgrees | src/ficelle/reasoning_replay.py:286-313 | When every line fits, traces come under one key and stay below the cap, and every choice is ready, every way of cutting the stream records what the assembled completion would record |
| ReasoningAgreement.MessageRecordExactly | src/ficelle/reasoning_replay.py:286-313 | A message is recorded exactly when it has a call with an id and text under one of the two keys, with the ids in order, what the calls ask for and the text under the first key that has some |
| ReasoningAgreement.PartExactly | src/ficelle/reasoning_replay.py:437-452 | Of a delta with text under both keys the first is heard |
| ReasoningAgreement.RecordAgreesExactly | src/ficelle/reasoning_replay.py:286-364 | However a choice below the cap came in, its record is that of the assembled message exactly when the choice is ready: it has no trace, or no call id, or each call has both id and name with arguments that cut clean, or neither |
| ReasoningAgreement.FragmentsAgreeExactly | src/ficelle/reasoning_replay.py:348-363 | The signature does not depend on how the arguments are fragmented exactly when they cut clean: they are no longer than the cut, or only white space follows it, or neither their first character nor the last one before the cut is white space |
| ReasoningAgreement.CutsCleanExactly | src/ficelle/reasoning_replay.py:348-363 | The same condition, for keeping any part that reaches the cut |
| ReasoningAgreement.SpaceAtTheCutDiffers | src/ficelle/reasoning_replay.py:348-363 | For all arguments that do not cut clean, a stream of two lines with fragments that meet at the cut leaves another record than the assembled completion |
| ReasoningAgreement.SortedCallsAreSorted | src/ficelle/reasoning_replay.py:354-364 | The calls are taken in the order of their indices, and each as often as it was there |
| ReasoningAgreement.RecordCompletionPayload | src/ficelle/reasoning_replay.py:286-313 | The loop over the choices hands the store exactly the specified records |
| BenchmarkEvidence.AuditIsAccepted | src/ficelle/coding_benchmark_policy.py:211-247 | For every relay log read with a token budget, and every schema 2 log, the computed summary passes the validator |
| BenchmarkEvidence.AuditAcceptedExactly | src/ficelle/coding_benchmark_policy.py:211-247 | The validator accepts a summary exactly when unresolved counts are at most incidents, incidents at most completions, and tasks at most their declared number |
| BenchmarkPolicy.AuditPassesExactly | src/ficelle/coding_benchmark_policy.py:211-247 | The validator of the relay audit passes exactly what meets the conditions on its fields, all literal |
| BenchmarkPolicy.DiagnosticPassesExactly | src/ficelle/coding_benchmark_policy.py:250-347 | The same for the extended diagnostic |
| BenchmarkPolicy.EvidencePassesExactly | src/ficelle/coding_benchmark_policy.py:350-478 | The same for the whole evidence |
| BenchmarkEvidence.LogIsAcceptedExactly | scripts/coding-benchmark-adapter.py:280-376 | For every log that can be read, with or without a budget, the computed summary is accepted exactly when no more requests are left with a provider error than events have it for their outcome |
| BenchmarkEvidence.EndedAtMost | scripts/coding-benchmark-adapter.py:332-376 | No more requests end with an incident of some kind than events have it |
| BenchmarkEvidence.SchemaOneMayBeRefused | scripts/coding-benchmark-adapter.py:280-343 | A log of one schema 1 model failure that calls itself a provider error makes a summary that is refused |
| BenchmarkEvidence.RowsCoverTasks | scripts/coding-benchmark-adapter.py:380-472 | There is one row per task in order, the completed count is the number of passed or failed rows, and a row passed exactly when its status says so |
| BenchmarkEvidence.CountsCover | src/ficelle/coding_benchmark_policy.py:450-459 | The three outcome counts cover every task |
| BenchmarkEvidence.ExtendedTasksAreTheTriggers | scripts/coding-benchmark-adapter.py:509-518 | The extended diagnostic is asked for exactly when the validator allows it, and its tasks are exactly the validator's trigger set, each once |
| BenchmarkEvidence.ClassificationMatches | scripts/coding-benchmark-adapter.py:521-526 | On the rows of a diagnostic the classification is the one the validator computes |
| BenchmarkEvidence.EvidenceIsAccepted | src/ficelle/coding_benchmark_policy.py:350-478 | What is written passes the count checks with and without the extended diagnostic, and a certification passes exactly when every task has a verdict |
| BenchmarkEvidence.RunIsAccepted | scripts/coding-benchmark-adapter.py:810-990 | From the relay log and the result files to accepted evidence, for any content of either and for a second run that fails |
| BenchmarkAdapter.RelayAuditByTask | scripts/coding-benchmark-adapter.py:280-376 | Reading the log line by line gives the specified incidents and summary, or the error of the first bad line |
| BenchmarkAdapter.LineExactly | scripts/coding-benchmark-adapter.py:280-343 | A line of the relay log is readable, sound and kept exactly under the stated conditions on its fields, and then gives the event that they say |
| BenchmarkAdapter.FinalsExactly | scripts/coding-benchmark-adapter.py:332-343 | What a request ends with is the incident of its last event |
| BenchmarkAdapter.SummaryExactly | scripts/coding-benchmark-adapter.py:353-376 | The summary counts events by their outcome, requests by what their last event leaves them with, and the tasks seen, with the greatest schema |
| BenchmarkAdapter.IncidentsExactly | scripts/coding-benchmark-adapter.py:344-352 | A task is left with exactly what its requests are left with, unless that is success |
| BenchmarkAdapter.AiderResultRows | scripts/coding-benchmark-adapter.py:380-472 | The loop over the benchmark tasks, with its two pending hints, gives the specified rows and completed count |
| BenchmarkAdapter.RowExactly | scripts/coding-benchmark-adapter.py:380-472 | The row of a task, from its result file, the incidents of its relay events and the hints of the rows before |
| BenchmarkAdapter.WordsOfRow | scripts/coding-benchmark-adapter.py:392-449 | The words of a row: task, passed and status |
| BenchmarkAdapter.AttemptsOfRow | scripts/coding-benchmark-adapter.py:392-449 | And what is said of the attempts of a row |
| ExceptionChain.WalkExceptionChain | src/ficelle/failures.py:339-358 | On every finite graph, cyclic or not, the walk ends and yields each reachable exception exactly once, none before a nearer one |
| ExceptionChain.FirstExceptionErrno | src/ficelle/failures.py:361-374 | An errno is found exactly when a reachable exception has one, and it belongs to an exception at minimum distance |
| ExceptionChain.LinksExactly | src/ficelle/failures.py:356-358 | An exception leads exactly to its cause, its context and its arguments, in this order |
| ExceptionChain.TakenInOrder | src/ficelle/failures.py:349-358 | What is taken from the queue next is no nearer than anything taken before |
| MessageTranslation.ResultsFollowTheirCalls | src/ficelle/anthropic_messages.py:192-308 | When every turn answers exactly what the turn before it asked for, in the translated list each message with tool calls is followed at once by exactly its results |
| MessageTranslation.TextIsKept | src/ficelle/anthropic_messages.py:192-308 | What the turns say, all together and in order, is what the translated turns say; results take nothing from it |
| MessageTranslation.TurnShape | src/ficelle/anthropic_messages.py:285-308 | A translated turn is its results followed by at most one message with its calls |
| MessageTranslation.MessageExactly | src/ficelle/anthropic_messages.py:192-308 | A message is translated exactly when it is well-formed, by its fields, and then to its results in order, followed by one turn with its parts and calls when it has any |
| MessageTranslation.Message | src/ficelle/anthropic_messages.py:192-308 | The three lists filled block by block give the specified messages or the error of the first bad block |
| ProviderRegistry.CallsKeepTrust | src/ficelle/provider_intake.py:497-554 | Over any sequence of syncs no alias, URL, model id or piece of evidence is lost, no discovery status goes back, no terminal status changes, and every record that claims to be ready is qualified |
| ProviderRegistry.SyncExactly | src/ficelle/provider_intake.py:497-554 | A sync is accepted exactly when a record that claims to be ready is qualified, the pin is that of the file, and the record covers the stored one and advances its status; it reports new, changed or unchanged exactly, and stores the canonical form exactly when it is news and no dry run |
| ProviderRegistry.ResyncIsUnchanged | src/ficelle/provider_intake.py:497-554 | Sending what was accepted again with its lists in any order is reported as unchanged and not written, whether the first sync wrote or not, pinned or not |
| ProviderRegistry.CanonicalExactly | src/ficelle/provider_intake.py:374-391 | Two records have the same canonical form exactly when they differ in the order of their lists at most, and the form is its own |
| ProviderRegistry.CanonicalIsSorted | src/ficelle/provider_intake.py:374-391 | Its lists are in ascending order, evidence by day, class, address and claim |
| ProviderRegistry.SheetReadyExactly | src/ficelle/provider_intake.py:609-708 | A record is ready for a sheet exactly when every qualification holds |
| ProviderRegistry.ReadinessExactly | src/ficelle/provider_intake.py:609-708 | What is to be done with a candidate and what is named for it, in literal words, by blockers, paths and adapter |
| ProviderRegistry.RuntimeBlockersExactly | src/ficelle/provider_intake.py:665-669 | A nonstandard chat path and a nonstandard catalog path are named exactly when they are there, and nothing else is |
| ProviderRegistry.OtherStatusExactly | src/ficelle/provider_intake.py:609-626 | The same for every other status |
| ProviderRegistry.BlockersExactly | src/ficelle/provider_intake.py:628-663 | A candidate that is held back names each recorded blocker and each check that fails, once, and no other |
| ProviderRegistry.AcceptedGrows | src/ficelle/provider_intake.py:394-435 | A record that is accepted over another one covers it and advances its status |
| ProviderRegistry.QualifiedInAnyOrder | src/ficelle/provider_intake.py:609-708 | Qualification does not depend on the order of the lists |
| ProviderRegistry.EvaluateAutomationReadiness | src/ficelle/provider_intake.py:609-708 | The decision is the specified one, and a sheet is ready exactly for a qualified record |
| ProviderRegistry.RegistryDirectory.SyncIntakeRecord | src/ficelle/provider_intake.py:497-554 | A sync gives the specified result and directory, and a refused one changes nothing |
| Sorting.SortIgnoresOrder | src/ficelle/provider_intake.py:374-391 | Sorting by an order that separates the elements depends only on the elements |
| Sorting.AscendingIsUnique | src/ficelle/provider_intake.py:374-391 | Only one sequence of given elements is in order |
| Sorting.StringLeqExactly | src/ficelle/provider_intake.py:374-391 | Strings are ordered by their first different character, and the beginning of a string comes before it |
| Selection.SelectionPartitions | src/ficelle/selection.py:118-217 | Each row of a catalog with distinct ids is a candidate or has a reason, and not both; the rows that are neither are exactly those that a manual list without a tail leaves out |
| Selection.SelectionExactly | src/ficelle/selection.py:118-217 | For a profile, which rows are selected and the exact reason of every other row, in literal words and by the fields of the row |
| Selection.NoReasonWithoutId | src/ficelle/selection.py:126-158 | No reason is noted for a row without an id, whatever the catalog and the request |
| Selection.VirtualAsksNothing | src/ficelle/selection.py:118-217 | A virtual model without a profile selects as a ranked profile that every row matches |
| Selection.NamedIsFirst | src/ficelle/selection.py:182-185 | A model asked for by name is the first row that may answer with that id or upstream id, and there is none exactly when no row does |
| Selection.CandidatesQualify | src/ficelle/selection.py:118-217 | Candidates are distinct rows of the catalog that may answer now and match the profile |
| Selection.ListedComeFirst | src/ficelle/selection.py:74-95 | With a tail the listed rows come first and the others follow in rank order |
| Selection.PickedInListedOrder | src/ficelle/selection.py:83-90 | One listed row is picked before another when it is mentioned before it |
| Selection.PickedExactly | src/ficelle/selection.py:83-90 | The picked rows are exactly the eligible listed ones, each once |
| Selection.ManualOrderExactly | src/ficelle/selection.py:74-95 | Manual order holds exactly the eligible rows that are listed, and the others when there is a tail, each once |
| Selection.OrderIsIntrinsic | src/ficelle/selection.py:41-71 | Ranking distinct rows depends on the rows only, not on their order |
| Selection.SelectionIgnoresOrder | src/ficelle/selection.py:118-217 | With distinct ids, for a profile, ranked or manual, and for a virtual model the order of the catalog makes no difference to the selection: the same candidates in the same order, reasons and fallback |
| Selection.NamedModelExactly | src/ficelle/selection.py:118-217 | For a model asked for by name it makes none exactly when the name means at most one of the rows that may answer |
| Selection.FirstNamedIsTaken | src/ficelle/selection.py:118-217 | Of two rows of one upstream model the first of the catalog is taken, in either order |
| Selection.GateOnlyFilters | src/ficelle/routing_policy.py:202-220 | The competence gate only takes candidates away; when it is not one of the strict gates it never takes the last, and it reports its fallback exactly when it would have |
| Selection.SelectedInOrder | src/ficelle/selection.py:118-217 | The candidates that are returned, after the gate, are in rank order: greater score, smaller penalty, longer context, smaller burn, earlier id; or for a manual profile the listed ones by their first mention and then the others in rank order |
| Selection.ManualOrderCandidates | src/ficelle/selection.py:74-95 | The loop over the listed ids gives the specified order |
| Selection.SelectModels | src/ficelle/selection.py:118-217 | Sifting, profile, order and gate give the specified candidates and reasons |

## Left out

- Downloads, checksums, signatures, dependency installation, licence calls, service managers and status messages of the updater: each is a step that works or raises, and the status text is not part of any statement.
- Retention in `_trim`, row ids reused after it, and rebuilding the index after a schema change: row ids only grow in the model.
- The columns of a log row, the width of the slots for a window, grouped counts, token and price totals of the summary: sums without branches.
- Parsing of header values and of `rate_limit_rpm` strings in the admission ledger: headers arrive as numbers or not at all.
- Time as floating point: times and limits are real numbers.
- Usage values that `int()` rejects, and finish reasons that cannot be hashed, in the translator: both are errors outside of its own error path.
- The names of ignored request fields, the mapping of model names and the remaining request options of `translate_anthropic_request`: filters without state.
- Loading the state from a backup when the file is unreadable, the backups themselves, the file lock, and history keys other than the standard ones.
- StreamAgreement.StreamAgrees: streams with several choices or with refusal text are not covered; of several choices the stream joins all texts and the completion has the first, and the completion puts a refusal in the place of an empty text only.
- StateMerge.FeedbackKeepsNewest: the feedback merge is a function on values; the order in which the source visits the keys is not modelled.
- ReasoningObserver.AbsorbToolCalls: the accumulator of one choice is a value that the observer replaces, not an object of its own.
- ReasoningAgreement.ObserverAgrees: traces at or above the cap are not covered, because the source then gives up on the stream (OverTheCapRecordsNothing); nor is a trace that changes between the two keys, because a completion has it under one.
- BenchmarkEvidence.EvidenceIsAccepted: fingerprints, commits, exit codes, time-outs and settings are not part of the payload, because the producer copies them from the policy that the validator compares them with.
- BenchmarkAdapter.LineExactly: a failure reason that is neither text nor falsy is taken to print as something, as every such value does.
- Durations and token counts of result rows, and the efficiency figures made from them.
- Selection.CandidatesQualify: what makes a row match a profile is a parameter; `model_matches_profile_requirements` is a conjunction of lookups.
- The scores by which candidates are ranked, and the certification index behind the coding gate, are parameters.
- ProviderRegistry.CallsKeepTrust: one sync at a time; the hash check and the replacement of the file are separate steps, so two concurrent writers are not covered.
- The names of changed fields in a sync result, `build_registry_context`, sheets and scaffolds.
- The markers and tables of `classify_failure`, URL checks and redaction.
- Command line, installation, bootstrap, release and smoke scripts, dashboards and HTTP handling.
