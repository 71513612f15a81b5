# SupplySense: verified model of the orchestration core

This project models, in Dafny, the parts of SupplySense AI that decide, deduplicate, hand out and
replay things, and proves what they keep over every input and every run.

| File | Component |
|---|---|
| `RuleText`, `RuleAst`, `RuleEvaluator`, `RuleLaws` | text, values and trees of the rule language; the evaluator, its reason trace, and what comparisons mean |
| `RuleParser`, `RuleRoundTrip` | the rule-string parser, a printer, and when the two are inverse |
| `Readiness`, `ConditionLaws` | ALL, ANY and QUORUM, and the evaluation context; conditions given as rules |
| `DependencyEngine`, `Cooldown` | `process_event` as one transaction; how much fresh data executions use; the cooldown with its clock |
| `ExecutionRace`, `FreshnessRace` | overlapping calls: the decision and execution rows, and the dataset statuses they read and reset |
| `ClaimProtocol` | claiming, reclaiming and finishing events by many workers |
| `Cdc`, `CdcBatcher`, `CdcAdapter`, `CdcRows` | change events, the micro-batcher, `process_cdc_event` on its tables, and row counts against the source table |
| `CdcPipeline` | the batcher in front of the tables, and redelivery |
| `ChangeIdentity` | change ids, and when two changes share one |
| `ActionLog` | the action table and its idempotency keys |
| `InventoryLedger` | inventory deltas and versions |
| `Approvals`, `ApprovalRuns` | the approval transactions; their interleavings with crashes and retries |
| `SubmissionRace` | the same with the check and the insert of a submission apart |
| `EventHub`, `EventStream` | the hub's ring and queues; reconnecting streams and the journal poller |
| `Forecasting`, `ForecastLaws` | the two-step forecaster against the batch feature definition; what its numbers mean |

## How the model is built

* A table is a sequence or a map, and an auto-increment id is a position. A transaction is one step
  that reads what is committed when it opens its snapshot. Parts are separate steps where the source
  commits in the middle of a call (approve, then dispatch), where a check and an insert race, and
  where a transaction goes on with an old snapshot while others commit: `get_connection` keeps
  InnoDB's default REPEATABLE READ, and a dispatch that found its action re-fetches the order id
  from the snapshot of that look-up.
* Objects the source updates in place are classes (`CDCBatcher`, `EventHub`, `ClientQueue`,
  `ReasonList` and one class for each group of tables); their methods are proved against functions
  on values, and the properties of whole runs are proved about those functions. Ghost fields such
  as `accepted`, `flushed`, `log` and `taken` record history only.
* Clocks, random ids, the supplier's answer, the forecasting model, the routing query, the cooldown
  comparison (except in `Cooldown`) and database look-ups made by other components are parameters, without assumptions
  unless a lemma's `requires` states one.
* Dafny's automatic induction is turned off on every lemma, so each proof is the one in its body.
* The unique keys on (pipeline_name, triggering_event_id), (rule_id, idempotency_key), action_id and
  source_change_id are part of the insert steps (migrations 006, 010, 013 and 015).

## Where the code and its description differ

* Printing and parsing back. The splitter tracks parentheses and quotes but not brackets, so a list
  with two or more items below AND, OR or NOT is cut apart. `RuleRoundTrip.RoundTrip` proves that a
  printable rule comes back exactly when no such list occurs; `CutListExample` is the smallest failure.
* ALL, ANY and QUORUM agree with their rule forms unless a dataset is named like another dataset's
  version entry; `Readiness.AllAgreesIffNoClash`, `AnyAgreesIffNoClash` and `QuorumAgreesIffNoClash`
  are exact.
* Decisions and executions. An exception between the decision insert and the commit is followed by
  a commit on the same connection, which leaves a TRIGGER decision without an execution: that of
  `mark_event_failed`, or, as `run_kafka_consumer` goes on without a rollback, that of the next event.
  `ExecutionRace.BijectionIffNoRaise` says that this is the only way, and `RaiseLeavesAnOrphan` is
  the shortest run.
* Fresh data. A call decides on the statuses of its snapshot and resets them when it commits, with no
  lock in between. `DependencyEngine.FreshDataBound` holds for calls that do not overlap; in general
  `FreshnessRace.OverlapBound` has to add the uses of arrivals that were used before. `UsedOnceIff`:
  each arrival is used once exactly when no executing call was open while another one executed that
  counted the same arrival. `OverlapBreaksBound` is the run of two calls, for every pipeline.
* Processing once. An event is finished at most once exactly when no two claims of it are finished of
  which the later was made while the worker of the earlier one was still at it
  (`ClaimProtocol.FinishedOnceIff`); timely workers are such runs, and `LateWorkerFinishesTwice` is not.
* Cooldown. Only RUNNING and COMPLETED executions count, so one that FAILED holds no later call back
  (`Cooldown.FailedExecutionsDoNotCool`); for those that count `ExecutionsAreApart` is the spacing.
* Claim spacing. `processed_at` keeps whole seconds, so two claims of an event can be up to half a
  second closer than the stale timeout. `ClaimProtocol.SpacedIffNotRoundedDown`: all later claims are
  more than the timeout away exactly when the earlier claim time is not rounded down, that is, when
  its fraction of a second is zero or at least a half; `RoundingShortensTheTimeout` is the failing run.
* Batching. The row count is clamped at zero once per batch but once per event otherwise.
  `CdcAdapter.BatchingIsExactIff` says exactly when the two counts agree, and `ClampExample` is a
  delete and a create on an empty table, where they do not.
* Replay through the batcher. A batch of two or more carries no change id, so its events are unknown
  to the tables. `CdcPipeline.RedeliveryIff` and `RestartIff` say when redelivered events are counted again.
* Change ids are documented as unique. A fallback id (table, time, server) equals a binlog id (file,
  position, row) when table and file are named alike, and a GTID can read like a file called `gtid...`;
  `ChangeIdentity.SameIdIff` and `ReadsAlikeIff` are exact, and `CollisionExamples` has one of each.
* The batcher's seen-set forgets everything when it is full. Once one id too many has arrived, a
  repeat is accepted (`CdcBatcher.OneMoreIdIsForgotten`, for every size from 1 on).
* Approvals. The row lock of `approve_replenishment` ends with its first commit. One action and one
  order per approval survive any overlap, but REJECTED and DISPATCHED do not:
  `ApprovalRuns.FinalIffUnawaited` is exact and `OverlapUndoesRejection` shows the run.
* Submissions. The check for a conflicting request takes no lock either. `SubmissionRace.OneOpenIff`: a
  site never has two open requests exactly when no submission is inserted while another one of its
  site, inserted since its own check, is still open; `TwoSubmissionsOpen` is the run. `SitesApartIff` is
  exact for requests and orders in flight together, without overlapping approve calls.
* A DISPATCHED approval need not name its order. A call that finds the action of an overlapping call,
  and confirms after that call created the order, does not see the order in its own snapshot and
  writes an id of no row. `ApprovalRuns.NamedIffNeverStale` says that this is the only way, and
  `OverlapLosesTheName` is the run. Calls that do not overlap always name their order.
* A version override (`expected_inventory_version`) replaces the snapshot's version in the check, so
  `ReviewSeesSubmittedStock` is about reviews without one.
* The journal poller stops for good behind a row that `publish` refuses (`EventStream.PollAdvancesIff`).
  A row whose transaction commits after one with a greater id was forwarded is never forwarded:
  `EventStream.RowLostIff` is exact and `LateRowIsLost` is the run.
* Reconnection. When the ring no longer knows the client's last event, at most fifty journal rows are
  replayed and no gap is announced: a client more than fifty rows behind misses events even when
  nothing new arrives (`EventStream.JournalGapFreeIff`, `QuietGapFreeIff`, `FiftyOneBehindExample`).
  Events accepted between subscription and replay are sent twice (`SentOnceIff`).
* The forecaster carries the latest row's week count and status over to the next week. For a known
  category its first forecast is that of the batch row except with one or eight weeks of history, the
  second except with seven or eight. With one week it answers 0 for lack of history where the batch
  row gives the mean (`Forecasting.OneWeekExample`). Without a demand column its newest lag is one week old.
  A window with mean -1 divides by zero and raises (`RaisesIff`); demand that is never negative does not.

## Model

| member | source | states |
|---|---|---|
| RuleEvaluator.EvaluateNode | services/dependency-engine/rule_evaluator.py:154-201 | returns the verdict and appends exactly the reasons of the reference evaluation, with short-circuits and discarded OR reasons |
| RuleEvaluator.EvaluateAndNode | services/dependency-engine/rule_evaluator.py:160-172 | the AND loop stops at the first failing condition and leaves the reasons gathered so far |
| RuleEvaluator.EvaluateOrNode | services/dependency-engine/rule_evaluator.py:174-188 | the OR loop keeps failed branches' reasons aside and drops them on success |
| RuleEvaluator.EvaluationIsMeaning | services/dependency-engine/rule_evaluator.py:154-201 | the short-circuiting verdict is the order-free truth of the rule: AND all, OR some, NOT none |
| RuleEvaluator.TraceIsSound | services/dependency-engine/rule_evaluator.py:107-201 | every leaf verdict recorded in a trace is that leaf's verdict in the context |
| RuleEvaluator.TraceDeterminesDecision | services/dependency-engine/rule_evaluator.py:154-201 | any context that agrees on the recorded leaves gives the same decision |
| RuleEvaluator.SupplyingAFieldIsMonotone | services/dependency-engine/rule_evaluator.py:117-201 | adding a missing field below an even number of NOTs never unmakes a TRIGGER; below an odd number never makes one |
| RuleLaws.ComparisonsAreNumeric | services/dependency-engine/rule_evaluator.py:107-151 | on a numeric field the six comparisons with an int or float are those of the numbers, in every pairing of the two |
| RuleLaws.Trichotomy | services/dependency-engine/rule_evaluator.py:127-140 | exactly one of `<`, `==`, `>` holds; `>=` and `<=` are the two-way unions and `!=` the negation of `==` |
| RuleLaws.GreaterValueIsMonotone | services/dependency-engine/rule_evaluator.py:127-135 | a greater value never unmakes `>` or `>=` and never makes `<` or `<=` |
| RuleLaws.RangeTriggersIff | services/dependency-engine/rule_evaluator.py:127-172 | AND of `f >= lo` and `f <= hi` triggers if and only if the value lies between them |
| RuleLaws.OnlyNumbersCompare | services/dependency-engine/rule_evaluator.py:121-125 | bools, texts and lists satisfy no numeric comparison |
| RuleLaws.MissingNeverHolds | services/dependency-engine/rule_evaluator.py:115-117 | a missing or null field satisfies no comparison, `!=` and `not in` included, and NOT of one holds |
| RuleLaws.EqualByKind | services/dependency-engine/rule_evaluator.py:136-137 | equality of numbers and bools by value, of texts and lists as such, and never across these |
| RuleLaws.EqualTransitive | services/dependency-engine/rule_evaluator.py:136-137 | equality carries over (with `EqualReflexive` and `EqualSymmetric` an equivalence, lists included) |
| RuleLaws.InIsOr | services/dependency-engine/rule_evaluator.py:140-143 | `in` a list is the OR of `==` over its items; `not in` its negation where the field is present |
| RuleLaws.ConnectivesIgnoreCase | services/dependency-engine/rule_evaluator.py:154-190 | AND, OR and NOT mean the same in any mixture of cases |
| RuleLaws.TraceOfConnective | services/dependency-engine/rule_evaluator.py:160-188 | which conditions' traces an AND, OR or NOT shows, and which branch it names |
| RuleLaws.RuleResult | services/dependency-engine/rule_evaluator.py:204-228 | a rule gets a decision if and only if the validator accepts it; then by its truth, with its trace as reasons |
| RuleLaws.ValidRulesNeverErr | services/dependency-engine/rule_evaluator.py:56-145 | a validated rule never meets an unknown operator or a failing comparison, in any context |
| RuleLaws.MalformedRulesAreRefused | services/dependency-engine/rule_evaluator.py:56-106 | the malformed nodes and leaves that get no decision |
| RuleParser.SplitTopLevel | services/dependency-engine/rule_evaluator.py:294-331 | the character loop computes the reference split, errors included |
| RuleParser.ParseRule | services/dependency-engine/rule_evaluator.py:236-291 | whatever is parsed passes the validator |
| RuleRoundTrip.SplitOfJoin | services/dependency-engine/rule_evaluator.py:294-331 | splitting a comma-join of texts that scan whole returns those texts |
| RuleRoundTrip.ScalarReturns | services/dependency-engine/rule_evaluator.py:334-365 | every printed integer, boolean, null or quoted string is read back as itself |
| RuleRoundTrip.ListReturns | services/dependency-engine/rule_evaluator.py:334-365 | a printed list literal is read back as itself |
| RuleRoundTrip.ComparisonReturns | services/dependency-engine/rule_evaluator.py:264-291 | a printed comparison is read back with its field, operator and value |
| RuleRoundTrip.FittingRulesReturn | services/dependency-engine/rule_evaluator.py:236-291 | rules of any nesting without a cut list come back from their text |
| RuleRoundTrip.UnfitRulesFail | services/dependency-engine/rule_evaluator.py:236-331 | every rule with a list of two or more items below an operator is rejected by the parser |
| RuleRoundTrip.RoundTrip | services/dependency-engine/rule_evaluator.py:236-365 | parsing a printed rule returns it if and only if no list is cut |
| RuleRoundTrip.CutListExample | services/dependency-engine/rule_evaluator.py:294-331 | a concrete valid rule whose own text is rejected |
| RuleRoundTrip.DecimalReturns | services/dependency-engine/rule_evaluator.py:343-348 | a decimal is read back from its text in any number of places |
| RuleText.MovingThePoint | services/dependency-engine/rule_evaluator.py:343-348 | moving the point of a decimal one digit to the right multiplies its value by ten |
| RuleRoundTrip.BareWordReadsAsQuoted | services/dependency-engine/rule_evaluator.py:264-291 | an unquoted word is compared like the same word in quotes |
| RuleRoundTrip.ReservedWordsReturn | services/dependency-engine/rule_evaluator.py:334-348 | true, false, null and none in any case, and a plus sign |
| RuleRoundTrip.AnySpellingMatches | services/dependency-engine/rule_evaluator.py:251-253 | a connective in any case, with blanks before its parenthesis |
| RuleRoundTrip.PartsAreTight | services/dependency-engine/rule_evaluator.py:294-331 | no part of a split is blank or has blanks around it |
| ConditionLaws.ConditionTextDecides | services/dependency-engine/evaluator.py:83-97 | a rule's text as condition type decides as the truth of the rule, whatever else is given, or blocks when a list is cut |
| ConditionLaws.RuleStringDecides | services/dependency-engine/evaluator.py:98-99 | the same for a text given as expression, single comparisons included |
| ConditionLaws.RuleTreeDecides | services/dependency-engine/evaluator.py:100-115 | a tree decides as its truth and blocks when the validator refuses it |
| ConditionLaws.NoRuleBlocks | services/dependency-engine/evaluator.py:102-121 | no expression, and a text that is no rule, block |
| ConditionLaws.UnknownTypesBlock | services/dependency-engine/evaluator.py:49-123 | only the five condition types and texts that open like a rule ever trigger |
| Readiness.LeafVerdict | services/dependency-engine/main.py:363-372 | the verdict of `name == 'READY'` in the context built from the rows: the row's readiness unless a version entry overwrote it |
| Readiness.VersionLookup | services/dependency-engine/main.py:363-368 | the context holds every required dataset's version, whatever the event says |
| Readiness.EventFieldsFillIn | services/dependency-engine/main.py:369-372 | an event field shows as it is unless it is named like a status or version entry |
| Readiness.AllAgrees | services/dependency-engine/evaluator.py:49-58 | ALL decides as the AND of `d == 'READY'` |
| Readiness.ClashBreaksAll | services/dependency-engine/main.py:363-372 | with a name clash the AND rule blocks on ready datasets while ALL triggers |
| Readiness.AllAgreesIffNoClash | services/dependency-engine/main.py:354-382 | for given datasets ALL agrees with its rule at every readiness if and only if no name clashes |
| Readiness.AnyAgrees | services/dependency-engine/evaluator.py:60-67 | without a name clash ANY decides as the OR |
| Readiness.ClashBreaksAny | services/dependency-engine/main.py:363-372 | with only the clashing dataset READY, ANY triggers and the OR rule blocks |
| Readiness.AnyAgreesIffNoClash | services/dependency-engine/main.py:354-382 | for given datasets ANY agrees with its rule at every readiness if and only if no name clashes |
| Readiness.SomeChoiceWithin | services/dependency-engine/evaluator.py:69-81 | some k-element choice lies within a set if and only if it holds at least k of the names |
| Readiness.QuorumAgrees | services/dependency-engine/evaluator.py:69-81 | without a name clash QUORUM k decides as the OR over all k-element choices of ANDs |
| Readiness.ClashBreaksQuorum | services/dependency-engine/main.py:363-372 | with exactly k datasets READY, the clashing one among them, QUORUM k triggers and its rule blocks |
| Readiness.QuorumAgreesIffNoClash | services/dependency-engine/main.py:354-382 | for given datasets and 1 <= k <= n QUORUM k agrees with its rule at every readiness if and only if no name clashes |
| DependencyEngine.EngineDatabase.FetchRequired | services/dependency-engine/main.py:343-357 | the required dataset rows and how many are READY |
| DependencyEngine.EngineDatabase.InsertExecution | services/dependency-engine/main.py:453-472 | one new execution row, or none when the event id is null or its key is taken |
| DependencyEngine.EngineDatabase.ProcessEvent | services/dependency-engine/main.py:256-527 | the committed tables and the outcome of one call, on all branches, the rolled-back insert included |
| DependencyEngine.RefusedCallsChangeNothing | services/dependency-engine/main.py:258-289 | a call is refused exactly for an unconfigured pipeline or an executed event, and then changes nothing |
| DependencyEngine.CoolingCallBlocks | services/dependency-engine/main.py:290-341 | a cooling call adds one BLOCK decision and no execution, and changes statuses only as the simulator asks |
| DependencyEngine.BlockedCallIsRecorded | services/dependency-engine/main.py:400-415 | a BLOCK is recorded with the READY and required datasets counted, and nothing else changes |
| DependencyEngine.TriggerIsExecuted | services/dependency-engine/main.py:400-482 | a TRIGGER leaves one execution, which leads to its own TRIGGER decision and counts, and resets exactly the required datasets |
| DependencyEngine.ExecutionsAreDecidedOnce | services/dependency-engine/main.py:269-472 | over every run one execution for each pipeline and event, each behind its own TRIGGER decision |
| DependencyEngine.PublishMakesReady | services/cdc-adapter/adapter.py:305-314 | a publication makes its dataset READY in the next version and leaves the others alone |
| Cooldown.CoolsDownIff | services/dependency-engine/main.py:309-341 | a call that is not refused cools down if and only if the newest RUNNING or COMPLETED execution is younger than its cooldown |
| Cooldown.ExecutionsAreApart | services/dependency-engine/main.py:309-341 | over every run an execution comes at least its cooldown after each earlier one of its pipeline that always counted |
| Cooldown.FailedExecutionsDoNotCool | services/dependency-engine/main.py:317-323 | executions that are neither RUNNING nor COMPLETED hold no call back |
| DependencyEngine.ExecutionShape | services/dependency-engine/main.py:440-482 | a new execution follows a TRIGGER, is the only new one, and resets every dataset of its pipeline |
| DependencyEngine.FreshDataBound | services/dependency-engine/main.py:354-482 | over every run: ready now plus k per execution is at most initially ready plus arrivals, whatever other pipelines share |
| DependencyEngine.QuorumBound | services/dependency-engine/evaluator.py:60-81 | from any database, k times the new executions of QUORUM k (or ANY) plus what is ready is paid for by initial readiness and arrivals |
| DependencyEngine.AllBound | services/dependency-engine/evaluator.py:49-58 | for ALL, new executions never exceed any one dataset's arrivals plus its initial readiness |
| FreshnessRace.OverlapBound | services/dependency-engine/main.py:343-494 | in every interleaving, need times executions plus what is ready is at most initial readiness, arrivals and repeated uses |
| FreshnessRace.UsedOnceIff | services/dependency-engine/main.py:343-494 | each arrival is used by at most one execution if and only if no executing call was open while another one executed that counted the same arrival |
| FreshnessRace.BoundWithoutOverlap | services/dependency-engine/main.py:343-494 | without such an overlap nothing has to be added for repeated uses |
| FreshnessRace.OverlapBreaksBound | services/dependency-engine/main.py:343-494 | for every pipeline that needs a dataset, two overlapping calls use twice what was ever ready |
| ExecutionRace.AtMostOneExecution | services/dependency-engine/main.py:269-472 | in every interleaving of check, decision, insert and commit, at most one execution per pipeline and event |
| ExecutionRace.BijectionIffNoOrphans | services/dependency-engine/main.py:401-472 | the committed TRIGGER decisions are the executed ones and those committed alone, never both |
| ExecutionRace.OrphansFromRaises | services/dependency-engine/mysql_consumer.py:240-277 | a TRIGGER decision is committed alone if and only if some call raised between its two inserts and was committed |
| ExecutionRace.BijectionIffNoRaise | services/dependency-engine/main.py:401-472 | executions correspond one to one to committed TRIGGER decisions if and only if no such step has happened |
| ExecutionRace.RaiseLeavesAnOrphan | services/dependency-engine/mysql_consumer.py:240-277 | a three-step run that commits a TRIGGER decision without an execution |
| ClaimProtocol.PickTakesTheOldest | services/dependency-engine/mysql_consumer.py:56-85 | a claimable unlocked event is picked unless a full batch of older ones is |
| ClaimProtocol.EventTable.SelectClaimable | services/dependency-engine/mysql_consumer.py:56-85 | the oldest claimable events up to the limit, skipping locked ones |
| ClaimProtocol.EventTable.ClaimEvents | services/dependency-engine/mysql_consumer.py:31-130 | marks exactly the picked events PROCESSING with the stored time |
| ClaimProtocol.EventTable.ProcessClaimed | services/dependency-engine/mysql_consumer.py:240-277 | each claimed event ends COMPLETED or FAILED by its own outcome, counters and results in order |
| ClaimProtocol.OutcomesAreMarked | services/dependency-engine/mysql_consumer.py:240-277 | a claimed event ends and is reported COMPLETED when its processing returns and FAILED when it raises |
| ClaimProtocol.SuccessesAreCounted | services/dependency-engine/mysql_consumer.py:240-277 | the processed count is the number of events whose processing returned |
| ClaimProtocol.EventTable.PollAndProcessBatch | services/dependency-engine/mysql_consumer.py:202-281 | one polling pass: its summary and the table it leaves |
| ClaimProtocol.ClaimsAreSpaced | services/dependency-engine/mysql_consumer.py:56-106 | for any workers and clocks, two claims of one event are more than the timeout apart, measured from the stored time |
| ClaimProtocol.ClaimableAfterTimeoutIff | services/dependency-engine/mysql_consumer.py:56-106 | a row becomes claimable only after the timeout if and only if its claim time was not rounded down |
| ClaimProtocol.SpacedIffNotRoundedDown | services/dependency-engine/mysql_consumer.py:56-106 | over all runs, later claims are more than the timeout after a claim at a given time if and only if that time is not rounded down |
| ClaimProtocol.RoundingShortensTheTimeout | database/migrations/002_create_dataset_events.sql:1-16 | for every time that is rounded down, a run in which two claims are exactly the timeout apart |
| ClaimProtocol.FinishedIsNeverClaimed | services/dependency-engine/mysql_consumer.py:56-199 | COMPLETED and FAILED events are never claimed again |
| ClaimProtocol.TimelyWorkersProcessOnce | services/dependency-engine/mysql_consumer.py:202-281 | when workers finish or crash within the timeout no event is finished twice, and each COMPLETED or FAILED one was finished |
| ClaimProtocol.LateWorkerFinishesTwice | services/dependency-engine/mysql_consumer.py:56-160 | a worker that outlives the timeout: one event is finished by two |
| ClaimProtocol.FinishedOnceIff | services/dependency-engine/mysql_consumer.py:56-193 | over every run each event is finished at most once if and only if no two claims of it are finished of which the later was made under the earlier one's worker |
| CdcBatcher.CDCBatcher.constructor | services/cdc-adapter/batcher.py:26-46 | an empty batcher satisfies the invariant |
| CdcBatcher.CDCBatcher.IsDuplicate | services/cdc-adapter/batcher.py:48-75 | cached or recorded ids are duplicates; a recorded one is cached |
| CdcBatcher.CDCBatcher.AddToSeenCache | services/cdc-adapter/batcher.py:77-80 | a full cache is emptied before the id is added |
| CdcBatcher.CDCBatcher.AddEvent | services/cdc-adapter/batcher.py:82-125 | ignored, skipped, buffered or flushed, with the whole new state; keeps conservation and deduplication |
| CdcBatcher.CDCBatcher.FlushDataset | services/cdc-adapter/batcher.py:146-172 | removes one buffer and its arrival time and returns its batch |
| CdcBatcher.CDCBatcher.CheckTimeouts | services/cdc-adapter/batcher.py:127-144 | flushes exactly the datasets that waited long enough, in insertion order, and leaves the others |
| CdcBatcher.CDCBatcher.FlushAll | services/cdc-adapter/batcher.py:174-184 | afterwards the flushed batches are all accepted events, per dataset and in order |
| CdcBatcher.CDCBatcher.GetPendingCount | services/cdc-adapter/batcher.py:186-190 | accepted minus flushed rows, for one dataset and in total |
| CdcBatcher.CDCBatcher.BuildConsolidatedEvent | services/cdc-adapter/batcher.py:192-231 | the batch of a run of events, with its net delta and change ids |
| CdcBatcher.AddConserves | services/cdc-adapter/batcher.py:114-119 | accepting an event keeps per-dataset order and the total count |
| CdcBatcher.FlushConserves | services/cdc-adapter/batcher.py:154-161 | flushing a buffer loses, doubles and reorders nothing |
| CdcBatcher.ArrivalDeduplicates | services/cdc-adapter/batcher.py:64-112 | while the ids that arrived fit the cache it forgets none and no id is accepted twice |
| CdcBatcher.FirstOccurrencesAccepted | services/cdc-adapter/batcher.py:77-112 | ids that fit the cache are each accepted exactly once |
| CdcBatcher.OneMoreIdIsForgotten | services/cdc-adapter/batcher.py:77-80 | for every cache size, one more distinct id and then a repeat is accepted twice |
| CdcAdapter.CdcTables.ProcessCdcEvent | services/cdc-adapter/adapter.py:195-316 | the committed tables after one call, a raced duplicate insert included, and the event and version reported |
| CdcAdapter.ReplayInsensitive | services/cdc-adapter/adapter.py:197-316 | repeats and missed look-ups change nothing: the tables are those of the first occurrences alone |
| CdcAdapter.VersionsAreConsecutive | services/cdc-adapter/adapter.py:242-314 | from any tables each dataset's new events carry the versions after its current one without a hole, and its row shows the last |
| CdcAdapter.FreshChangesWalk | services/cdc-adapter/adapter.py:246-316 | row counts are the clamped walk of the deltas, and the reported rows add up |
| CdcAdapter.WalkClosedForm | services/cdc-adapter/adapter.py:258-259 | the clamped count is the larger of the plain sum and the best suffix sum |
| CdcAdapter.BatchesAreFresh | services/cdc-adapter/batcher.py:213-215 | batches of fresh events are fresh, since only a batch of one keeps its id |
| CdcAdapter.BatchingRefines | services/cdc-adapter/batcher.py:201-231 | batches report the same rows as their events and never count more rows; equally many when no prefix goes below zero |
| CdcAdapter.BatchingIsExactIff | services/cdc-adapter/adapter.py:246-259 | the counts are equal if and only if every low below zero is reached at some batch boundary |
| CdcAdapter.ClampExample | services/cdc-adapter/adapter.py:258-259 | a delete and a create on an empty table leave one row singly and none as a batch |
| CdcRows.LiveRowsAreCounted | services/cdc-adapter/adapter.py:246-259 | over creates and reads of absent keys, updates and deletes of live ones the row count stays the number of live keys, singly and in any batches |
| CdcRows.OneChangeCounts | services/cdc-adapter/adapter.py:249-259 | what each operation does to the count, and that each single change reports one row |
| CdcRows.UpdatesKeepTheCount | services/cdc-adapter/batcher.py:206-212 | a batch of updates has net delta 0, reports its size and moves the version |
| CdcRows.BatchDescribesNewest | services/cdc-adapter/batcher.py:201-231 | a batch tells its newest operation, table, file and position, its size, and each change id as often as it occurs |
| CdcPipeline.RedeliverAll | services/cdc-adapter/batcher.py:82-125 | which redelivered events the batcher accepts, and its cache afterwards |
| CdcPipeline.RecordedIffAlone | services/cdc-adapter/batcher.py:213-215 | after processing the batches the tables know exactly the change ids that came alone |
| CdcPipeline.RedeliveryIff | services/cdc-adapter/batcher.py:48-112 | with room in the cache, redelivery changes nothing if and only if each event is cached or was a batch of its own |
| CdcPipeline.RestartIff | services/cdc-adapter/batcher.py:44-75 | with an emptied cache of any size, if and only if every event was a batch of its own |
| CdcPipeline.ReplayedBatchCountsAgain | services/cdc-adapter/adapter.py:198-316 | a batch of two or more that is processed again reports its rows a second time |
| ChangeIdentity.SameIdIff | services/cdc-adapter/adapter.py:44-83 | two change ids are equal if and only if their coordinates read alike, across all three forms of an id |
| ChangeIdentity.SameKindSameId | services/cdc-adapter/adapter.py:66-81 | within one form, equal ids mean equal coordinates |
| ChangeIdentity.ReadsAlikeIff | services/cdc-adapter/adapter.py:66-80 | a GTID is mistaken for a binlog or table coordinate if and only if that name is `gtid`, or starts with `gtid:`, and the rest matches |
| ChangeIdentity.CollisionExamples | services/cdc-adapter/adapter.py:66-80 | two pairs of different changes with one id |
| ChangeIdentity.GenerateSourceChangeId | services/cdc-adapter/adapter.py:44-83 | there is no id exactly when there is no GTID, no complete binlog position and no time; else the text of the first of these that is there, never empty |
| ActionLog.ActionTable.RecordActionAttempt | services/dependency-engine/repository.py:27-60 | a new row and its id, or nothing when rule and key are taken |
| ActionLog.FirstAttemptWins | services/dependency-engine/repository.py:35-60 | over any attempts exactly the first of each rule and key gets an id, and the id leads to it |
| InventoryLedger.InventoryTable.ApplyInventoryDelta | services/dependency-engine/repository.py:348-437 | accepted exactly when the row exists and stays sound; otherwise nothing changes and the first violated rule is named |
| InventoryLedger.LedgerConserves | services/dependency-engine/repository.py:391-420 | quantities are initial plus accepted deltas, the version counts them, and 0 <= reserved <= on hand is kept |
| InventoryLedger.VersionIdentifiesRow | services/dependency-engine/repository.py:395-418 | equal versions at two moments mean equal rows |
| Approvals.ApprovalTables.SubmitForApproval | services/observability/approval_service.py:133-278 | creates a PENDING_REVIEW request with snapshot and audit row exactly when allowed; each refusal names its cause |
| Approvals.RequestCovers | services/observability/approval_service.py:189-262 | a request is for the least quantity that is neither below the asked one nor below the minimum, on the stock it was made on |
| Approvals.ApprovalTables.ApproveReplenishment | services/observability/approval_service.py:452-527 | approves exactly when status, version, supplier and orders allow; each refusal names its cause |
| Approvals.ApprovalTables.LookUpAction | services/observability/approval_service.py:636-644 | finds the approval's action if it has one |
| Approvals.ApprovalTables.InsertAction | services/observability/approval_service.py:661-673 | inserts the action unless the unique key is taken |
| Approvals.ApprovalTables.FetchOrder | services/observability/approval_service.py:716-720 | the re-fetch finds the action's order among what the transaction sees and its own insert |
| Approvals.ApprovalTables.FinishDispatch | services/observability/approval_service.py:699-770 | creates the order unless it exists, names it or, unseen, a generated id, and marks action, approval and audit by the supplier's answer |
| Approvals.AnswerEffects | services/observability/approval_service.py:699-770 | what either answer leaves of action, approval and orders, and that the rest is as before |
| Approvals.ApprovalTables.RejectReplenishment | services/observability/approval_service.py:572-609 | rejects exactly from PENDING_REVIEW or FAILED |
| ApprovalRuns.StepKeepsInv | services/observability/approval_service.py:452-770 | every step, crashes included, keeps one action and one order each, an order behind every dispatch, reviewed contents and audit |
| ApprovalRuns.DispatchIsIdempotent | services/observability/approval_service.py:635-745 | over every interleaving, crash and retry: one action, one order, a DISPATCHED approval has its order and its id leads there or to no row, and the last audit row is the status |
| ApprovalRuns.OrdersCoverSubmissions | services/observability/approval_service.py:211-259 | over every run an order is for at least what its own submission asked and the minimum, and for exactly what was asked when that reaches it |
| ApprovalRuns.AuditIsLegal | services/observability/approval_service.py:264-273 | over every run the audit only grows, by the six transitions the service makes |
| ApprovalRuns.NamedIffLastConfirmFresh | services/observability/approval_service.py:636-745 | at the end of any run an approval's order id leads to a row if and only if its last confirmation did not come from a look-up older than the order |
| ApprovalRuns.NamedIffNeverStale | services/observability/approval_service.py:636-745 | throughout a run every DISPATCHED approval names its order if and only if no such confirmation happens |
| ApprovalRuns.OverlapLosesTheName | services/observability/approval_service.py:636-745 | wherever a request without an order can be approved, two overlapping calls can leave it DISPATCHED with an id of no row |
| ApprovalRuns.ReviewSeesSubmittedStock | services/observability/approval_service.py:475-493 | a review that passes the version check sees the very inventory row of the submission |
| ApprovalRuns.AnswerArrives | services/observability/approval_service.py:635-770 | every call that can hear from the supplier has a continuation that ends DISPATCHED and one that ends FAILED |
| ApprovalRuns.FinalIffUnawaited | services/observability/approval_service.py:458-770 | REJECTED and DISPATCHED are final if and only if no open call on the approval can still hear from the supplier |
| ApprovalRuns.OverlapUndoesRejection | services/observability/approval_service.py:527-770 | wherever a request can be approved, two overlapping calls can end in a rejection that is not final |
| ApprovalRuns.SequentialRunsAreSafe | services/observability/approval_service.py:221-770 | without overlapping calls only DISPATCHED approvals have orders, they name them, and a site has at most one open request and one own order in flight |
| ApprovalRuns.FinalInSequentialRuns | services/observability/approval_service.py:458-603 | in such runs REJECTED and DISPATCHED never change |
| SubmissionRace.MovesKeepInv | services/observability/approval_service.py:130-278 | with check and insert of a submission apart, every run keeps the invariant of the dispatch |
| SubmissionRace.ReviewSeesCheckedStock | services/observability/approval_service.py:177-191 | a review that passes without an override finds the very inventory row the submission's check read |
| SubmissionRace.OrdersCoverChecks | services/observability/approval_service.py:211-259 | the same for orders when the checks and the insert of a submission are apart |
| SubmissionRace.OneOpenIff | services/observability/approval_service.py:221-262 | a site never has two open requests if and only if no submission is inserted while one of its site, inserted since its check, is open |
| SubmissionRace.TwoSubmissionsOpen | services/observability/approval_service.py:221-262 | wherever two submissions of a site pass their checks before either inserts, both end up open |
| SubmissionRace.SitesApartIff | services/observability/approval_service.py:221-770 | without overlapping approve calls, one open request or one own order in flight per site if and only if no insert is overtaken or lands on an order in flight |
| EventHub.EventHub.Subscribe | services/observability/event_hub.py:107-113 | a new empty queue that follows the log from here on |
| EventHub.EventHub.Publish | services/observability/event_hub.py:152-196 | refuses invalid events, ignores ids in the ring, else extends the log and every queue; keeps the log invariant |
| EventHub.EventHub.GetReplayEvents | services/observability/event_hub.py:130-150 | found exactly while the id is in the ring; returns exactly the events accepted after it |
| EventHub.EventHub.Distribute | services/observability/event_hub.py:170-181 | every queue gets the event, a full one giving up its oldest |
| EventHub.ClientQueue.Offer | services/observability/event_hub.py:172-179 | a queue stays a suffix of the log within its bound and misses something exactly when it dropped |
| EventHub.RingGrows | services/observability/event_hub.py:160-164 | any buffer_size + 1 consecutive accepted events keep distinct ids and the ring stays their tail |
| EventHub.BacklogGrows | services/observability/event_hub.py:172-179 | a queue nobody reads always holds the newest events since the subscription |
| EventStream.Replay | services/observability/main.py:557-572 | what a reconnecting client is sent first: ring replay, up to fifty journal rows, or the snapshot notice; an invalid row ends the stream |
| EventStream.SendableIsValidPrefix | services/observability/main.py:557-572 | what a replay sends is valid and goes up to the first invalid event |
| EventStream.StreamEvents | services/observability/main.py:541-592 | the frames of a connection: the replay, then the queue filled since the subscription |
| EventStream.GaplessSendsAll | services/observability/main.py:553-580 | frames without a hole contain every event after Last-Event-ID |
| EventStream.GapFreeIff | services/observability/main.py:553-580 | the frames after Last-Event-ID have no hole if and only if at most the queue's capacity arrives after the ring replay; then every event after it is in some frame |
| EventStream.HundredEventsWait | services/observability/main.py:553-580 | as deployed, no hole if and only if at most a hundred events arrive after the replay |
| EventStream.AllSentIff | services/observability/main.py:553-580 | among events published once, all after Last-Event-ID are in some frame if and only if at most the queue's capacity arrives after the replay |
| EventStream.LostEventIsNotSent | services/observability/event_hub.py:172-179 | otherwise the first event after the replay is in no frame |
| EventStream.SentOnceIff | services/observability/main.py:553-580 | every event is sent exactly once if and only if the queue starts where the replay ends |
| EventStream.JournalReplaysFifty | services/observability/event_journal.py:174-199 | the fallback replays the rows after the client's, up to fifty |
| EventStream.JournalGapFreeIff | services/observability/main.py:559-580 | through the journal there is no hole, and every row the hub has accepted after the client's is in some frame, if and only if the fifty rows reach the subscription and the start of the queue |
| EventStream.QuietGapFreeIff | services/observability/main.py:559-566 | when nothing more arrives, if and only if the client is at most fifty rows behind |
| EventStream.FiftyOneBehindExample | services/observability/event_journal.py:107-131 | fifty-two rows, a client at the first: the last is never sent |
| EventStream.PollOnce | services/observability/main.py:65-74 | forwards the next rows up to the first invalid one and moves the cursor behind them |
| EventStream.ForwardedOnceInOrder | services/observability/main.py:46-85 | when rows become visible in id order, every row up to the cursor is forwarded exactly once and in order |
| EventStream.ForwardedAscend | services/observability/main.py:46-85 | whatever the order in which rows become visible, forwarded ids ascend, so no row is forwarded twice |
| EventStream.RowLostIff | services/observability/main.py:46-85 | a row is forwarded when the cursor passes it, and lost for good if and only if it became visible behind the cursor |
| EventStream.LateRowIsLost | services/observability/event_journal.py:33-60 | two inserts that commit in the other order with a poll in between: the first is never forwarded |
| EventStream.PollAdvancesIff | services/observability/main.py:65-84 | a poll moves on if and only if the first unseen row is valid |
| Forecasting.WindowIsPast | ml/features/engineer_features.py:104-122 | a rolling window over the shifted column is the last weeks strictly before the row |
| Forecasting.BatchLooksBack | ml/features/engineer_features.py:96-127 | a row's features depend only on earlier weeks, and how |
| ForecastLaws.MeanBalances | services/forecasting/recursive_engine.py:123-125 | the mean of a window is the one centre from which its deviations cancel out |
| ForecastLaws.MeanBetween | services/forecasting/recursive_engine.py:123-125 | a mean lies between any bounds of its window |
| ForecastLaws.MeanPermutes | services/forecasting/recursive_engine.py:123-125 | the order of the weeks does not matter to their mean |
| ForecastLaws.VarianceZeroIff | ml/features/engineer_features.py:112-114 | a window's variance is zero if and only if it is constant |
| ForecastLaws.VarianceShifts | ml/features/engineer_features.py:112-114 | shifting every week shifts the mean and keeps the variance |
| ForecastLaws.VarianceOfTwo | ml/features/engineer_features.py:112-114 | the sample variance of two weeks is half their squared difference |
| ForecastLaws.TrendIff | ml/features/engineer_features.py:121-124 | the trend ratio is 1, or above 1, if and only if the newest week is the mean, or above it |
| Forecasting.StepOneIsBatch | services/forecasting/recursive_engine.py:99-135 | the first step's features are the batch features of the week after the history, short histories included |
| Forecasting.StepTwoIsBatch | services/forecasting/recursive_engine.py:165-189 | the second step's are those of the history extended by the first prediction |
| Forecasting.FirstStepEligibleIff | services/forecasting/recursive_engine.py:130-137 | engine and batch agree on using the model for the next week if and only if the history is not eight weeks |
| Forecasting.SecondStepEligibleIff | services/forecasting/recursive_engine.py:184-191 | and for the week after if and only if it is neither seven nor eight weeks |
| Forecasting.LagsAreStaleIff | services/forecasting/recursive_engine.py:99-108 | without a demand column the newest lag is right if and only if demand did not change |
| Forecasting.GenerateForwardForecasts | services/forecasting/recursive_engine.py:35-213 | the records of all categories in order, each second step fed by its first prediction; nothing when a category divides by zero |
| ForecastLaws.LongHistoryUsesModel | services/forecasting/recursive_engine.py:137-145 | with nine or more weeks of a known category the first prediction is the model's answer, or 0 where that is negative |
| ForecastLaws.ShortHistoryAverages | services/forecasting/eligibility.py:118-139 | with two to eight weeks it times the window length is the demand in the four-week window, or 0 where that is negative |
| ForecastLaws.UnseenIsZero | services/forecasting/eligibility.py:118-139 | a category the encoder does not know is forecast as 0 |
| ForecastLaws.LagsStandIn | services/forecasting/recursive_engine.py:99-128 | without a demand column the first features are the latest row's lags and the averages over them |
| ForecastLaws.ThreeWeeksExample | services/forecasting/eligibility.py:133-139 | weeks of 10, 20 and 60 are forecast as 30 |
| Forecasting.RaisesIff | services/forecasting/recursive_engine.py:133-189 | a category divides by zero if and only if one of its two four-week means is -1 |
| Forecasting.DemandNeverRaises | services/forecasting/recursive_engine.py:133-189 | with demand that is never negative it does not, whatever the model predicts |
| Forecasting.FirstForecastIff | services/forecasting/recursive_engine.py:99-145 | the first forecast is the batch row's if and only if the category is unseen, or the history is not one week and, for a model category, not eight |
| Forecasting.SecondForecastIff | services/forecasting/recursive_engine.py:165-199 | the second, for any first prediction, if and only if the history of a model category is neither seven nor eight weeks |
| Forecasting.ForecastsAreBatchForecasts | services/forecasting/recursive_engine.py:96-213 | both records are the batch's if and only if nothing raises and both steps agree: for a model category, not with one, seven or eight weeks |
| Forecasting.OneWeekExample | services/forecasting/eligibility.py:133-139 | one week of demand: the engine answers 0 for lack of history, the batch row the mean |

## Left out

- Kafka, HTTP endpoints, SSE text formatting, heartbeats, logging and database drivers: input and output only.
- `execute_pipeline`, retries, the reaper, the delivery service and the business rules A, B and C: orders and deltas they cause are arbitrary steps of the runs.
- Routing of an event to a pipeline and the hash of an event id that is not a number: parameters.
- Cooldown.ExecutionsAreApart: measures from `created_at`, which keeps whole seconds, and requires that it never goes back.
- Reason texts and error messages: the trace keeps structured reasons, and validation errors are one error value.
- Rule text beyond ASCII case mapping, float literals with exponents or underscores, and the limit on integer digits; a decimal is its exact value, not the nearest float.
- Rule values that are sets, tuples or nested lists: the parser cannot produce them.
- DependencyEngine.EngineDatabase.ProcessEvent: takes the call as one transaction; interleaved checks and inserts are in `ExecutionRace`, overlapping reads and resets in `FreshnessRace`.
- FreshnessRace.UsedOnceIff: leaves out the row locks, which delay resets and simulator updates but not the reads.
- Actor roles, recommendation eligibility and supplier look-ups of approvals: verdicts given as parameters.
- `pipeline_decisions` rows, payloads and error messages of a dispatch: they do not affect actions or orders.
- ApprovalRuns.SequentialRunsAreSafe: takes a submission as one step; check and insert are apart in `SubmissionRace.SitesApartIff`.
- EventStream.ForwardedOnceInOrder: takes rows as becoming visible in id order; `EventStream.RowLostIff` does not.
- Flush callbacks that raise, and the argument fallbacks when calling them: the batch they were given is lost.
- Pruning of the event journal and the order of `call_soon_threadsafe` callbacks: publishing is one step.
- EventStream.JournalGapFreeIff: takes the hub's events to be forwarded journal rows in order, as `EventStream.ForwardedOnceInOrder` gives them, and the journal as not pruned.
- RuleParser.ParseRule: its contract says that an accepted rule is valid, not which rule it is; for printed rules `RuleRoundTrip.RoundTrip` says which.
- CdcBatcher.CDCBatcher.FlushDataset: returns the batch, where a configured callback's own result would be returned.
- Approvals.ApprovalTables.SubmitForApproval: takes the verdicts of the recommendation and catalogue look-ups as given.
- ForecastLaws.ShortHistoryAverages: predictions are not rounded to four places.
- Forecasting.StepOneIsBatch: exact reals and the variance in place of float rounding and the standard deviation.
- Model training and inference, category encoding, calendar fields derived from the Monday, and forecast storage.
- Dashboards, recommendations, aggregation, grids, splits and scripts: they would add only easy members.
