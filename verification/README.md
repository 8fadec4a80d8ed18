# A verified model of the classification service and its batch runtime

The repository holds two programs. A Rust service classifies products with versioned rule packs: a request freezes a product
snapshot and a pack into a run and a job, workers lease jobs and decide runs. A TypeScript runtime works through a progress file
in batches with coding agents: it keeps canonical findings over agent results and gates, recovers failures within a budget,
schedules batches, and merges results and work trees. This project states in Dafny what both do and proves what they promise.
Check it with `dafny verify dfyconfig.toml`.

| Part | Files | Main results |
|---|---|---|
| Rules | `RuleEvaluation`, `RuleProperties` | which rules are selected, on positions of the text; order independence, the exact `classified` condition |
| Packs | `RulePacks`, `RulePackProperties`, `RulePackValidation` | golden-case guarantee, one active pack, what a report, an upload and an activation accept |
| Leased jobs | `ClassificationProtocol`, `ProtocolProperties`, `ProtocolProgress`, `ClassificationWorker` | confluence, at most one outcome write, what a finished run means, progress: free jobs are leased, undisturbed workers decide |
| Findings | `FlagClassification`, `FindingEvidence`, `FindingState`, `FindingProperties`, `GateProperties`, `FindingLoops` | one decision refines five passes, product-owned findings, exact traces over every sequence |
| Evidence | `OrdinaryFlags`, `FlagExamples`, `FixEvidence`, `PositiveEvidence`, `ImportClosure`, `GateClosure` | what fix evidence is, on characters; what else closes a finding, exactly |
| Recovery | `PathPolicy`, `RecoverySignatures`, `RecoveryLoops`, `RecoveryProperties`, `RecoveryTurns`, `RecoveryOwners`, `RecoveryPipes`, `RecoveryWitnesses` | budgets for arbitrary agents, what a recovered result proves, when a turn returns, which failures are the runtime's own, exact poisoned exits |
| Full mode | `ProgressFile`, `ProgressProperties`, `ProgressWrites`, `ProgressRoundTrip`, `SupportScheduler`, `SupportProperties`, `FullMode` | reading inverts writing, ticking, termination, support gates come first |
| Parallel runs | `ParallelPlan`, `ShardSync`, `PathClasses` | disjoint shards, exactly when all shards sync, order-independent syncing, what is never copied |
| Merging | `RecoveryMerge`, `MergeEvidence` | a fold of results keeps files and proof of work exactly |
| Small algorithms | `RegistrationLimiting`, `Pagination`, `AuditRendering`, `ShellWords` | sliding window, exact cursor walk, printers with inverses |

`Wrappers`, `Sequences`, `Text` and `RuntimeTypes` are shared. In the protocol each transaction, and each statement outside one, is
one atomic event; between two events anything else may happen. Code that updates state in loops is imperative here too, each
method proved against a specification function about which the lemmas are stated. Agents, gates, clocks and other processes are
arbitrary parameters or arbitrary streams of answers.

## Where the code does less than it says

Each has a lemma with the input, and the exact condition beside it.

- Closure traces: a step loses the trace of an open finding with a positive or recovered id exactly when only its last pass closes
  it (`StepTraces`, over runs `RunsTrace`); a first result with such a failure type does (`UnimportedStateLosesTrace`), and from the
  first import on nothing does (`CanonicalLosesNothing`).
- Recovery signatures: a failure is dispatched and then reported as a poisoned loop exactly when every blocking flag is owned by the
  runtime but not every part of them between pipe characters is (`DispatchedThenPoisoned`, `RepeatPoisonsExactly`). A failing test
  command with a pipe does that (`PipedReachesPoisoned`). An empty failure type shares the signature of an unknown failure
  (`EmptySharesUnknown`, exact in `SignatureIsFlagSet`).
- Ticking: an item on a line of its own is written as its checked line exactly when that line holds no replacement pattern
  (`TickWritesExactly`); `TickWritesPattern` says what the first one becomes, and `$'` copies the rest of the file
  (`DollarQuoteCopiesRest`). An item marked `[/]` is never ticked (`SlashIsNeverTicked`, with the exact condition for an unchanged
  file). On tidy files ticking checks exactly the batch (`TickPrefix`).
- Syncing shards: a path spelled with `./`, and `docs/progress.md`, escape conflict detection (`DotSlashEscapesDetection`,
  `ProgressFileClashes`); `SyncAllIffFits` says exactly when all shards sync, with or without detected conflicts.
- Merging: a verified path is lost exactly as `FoldLosesVerification` says, and merging from disk forgets exactly what was merged
  before the last valid rewrite of the source manifest (`FromDiskIsFold`, `FromDiskPasses`).
- Command splitting inverts quoting exactly for non-empty words without backslashes (`SplitInvertsQuote`); empty words and escaping
  backslashes disappear (`SplitResolves`, `EmptyWordIsLost`, `BackslashIsLost`).
- The registration limit holds for calls that take the lock in the order of their times (`InOrderKeepsLimit`). An order of times can
  exceed it exactly when three of them straddle a window (`SafeOrders`, `ThreeTimes`), as `LateCallIsSixth` does.

## Model

| member | source | states |
|---|---|---|
| `RuleEvaluation.RuleEvaluator.PushRule` | src/rules/wasm_runtime.rs:90-103 | A rule joins the matches or the rejected candidates by its `contains` text; a rule without one is an error that changes nothing |
| `RuleEvaluation.RuleEvaluator.FromRules` | src/rules/wasm_runtime.rs:78-88 | After the loop the matches are the stably sorted matching rules and the rejected ones are the rest, in order; it fails exactly when some rule has no `contains` |
| `RuleEvaluation.RuleEvaluator.FinishEvaluation` | src/rules/wasm_runtime.rs:105-124 | The first match is selected and every other one is rejected as a tie or as lower ranked; without a match there is no code and the risk is high |
| `RuleEvaluation.EvaluateJson` | src/rules/wasm_runtime.rs:41-70 | The runtime with its size and simulation limits computes the specification that all evaluation lemmas are about |
| `RuleEvaluation.SortByConfidence` | src/rules/wasm_runtime.rs:86-87 | Sorting loses and invents no rule |
| `RuleProperties.SortDescends` | src/rules/wasm_runtime.rs:126-134 | Sorted rules have falling confidence |
| `RuleProperties.SortIsStable` | src/rules/wasm_runtime.rs:86-87 | Rules of equal confidence keep their order |
| `RuleProperties.TieIsRunnerUp` | src/rules/wasm_runtime.rs:113-124 | There is a tie candidate exactly when the runner-up is within 0.05 of the selected rule |
| `RuleProperties.OrderIndependence` | src/rules/wasm_runtime.rs:77-134 | Permuting the rules of a typed pack never changes status, failure reason or confidence, and changes code or risk band only under `tie_candidate` |
| `RuleProperties.ClassifiedIffClearWinner` | src/classification/outcome.rs:38-79 | A run is classified exactly when the top match reaches 0.82 and every other match is more than 0.05 below it |
| `RuleProperties.WinnerLeads` | src/classification/outcome.rs:74-79 | A clear winner is what the evaluation selects |
| `RuleProperties.CandidateConservation` | src/classification/outcome.rs:26-36 | `candidate_codes` is a permutation of all rule codes, the selected one first, through partition, sort and rejection |
| `RuleProperties.HitsIsMatches` | src/rules/wasm_runtime.rs:91-97 | A rule matches exactly when its text stands at some position of the product text, letter by letter with case ignored |
| `RuleProperties.EvaluationMeans` | src/rules/wasm_runtime.rs:77-134 | Exactly the rules whose text stands in the product are ranked, by falling confidence; the first is selected, the others of them are rejected as tied or lower, and exactly the rules that do not stand there as not matched |
| `RuleProperties.OneRule` | src/rules/wasm_runtime.rs:77-134 | A pack of one rule selects it exactly when its text stands in the product, with its code, confidence and band, and otherwise rejects it as not matched |
| `RuleProperties.ShirtsAreClassified` | src/classification/outcome.rs:38-79 | A product with `Shirt` anywhere in its text is classified as 6205.20 by the rule for `shirt`; one without an S is blocked |
| `RulePacks.RuleErrors` | src/rules/validator.rs:70-94 | The pushed errors are those of every rule in order, and an empty rule list is one |
| `RulePacks.ValidateSource` | src/rules/validator.rs:30-49 | A source that parses gets its typed document and the report of rule, safety, golden-case and coverage checks on the raw document |
| `RulePacks.FetchActivePack` | src/app/classifications/queue.rs:71-82 | The lookup returns an active pack of the tenant and jurisdiction that comes first in its ORDER BY, and none exactly when there is none |
| `RulePackProperties.StoredPayloadAnswersAlike` | src/rules/validator.rs:51-68 | Evaluating the stored typed payload in production gives the answer that validation got from the raw document, up to JSON fields the runtime ignores |
| `RulePackProperties.UploadKeepsInv` | src/app/rule_packs.rs:75-110 | An upload adds one draft row, consistent with its source, and changes no other row |
| `RulePackProperties.RevalidationChangesNothing` | src/app/rule_packs.rs:48-65 | In every reachable state re-validating a stored pack succeeds and changes nothing |
| `RulePackProperties.ActivateKeepsInv` | src/app/rule_packs/activation.rs:11-27 | Activation keeps every row consistent and at most one active pack per tenant and jurisdiction |
| `RulePackProperties.CommittedActivationIsSerial` | migrations/20260524000801_rule_pack_activation_gates.sql:24-26 | Concurrent activations: whatever rows the retiring update reached, the unique index holds exactly when the activation wrote what it would have written alone |
| `RulePackProperties.RunKeepsInv` | src/app/rule_packs/activation.rs:43-70 | Single active pack and consistent rows hold in every state reachable by upload, re-validation, activation and time |
| `RulePackProperties.ActivatedPacksPassGoldenCases` | src/app/rule_packs/activation.rs:83-88 | Every pack ever activated has at least ten golden cases and production selects the expected code of each, in every reachable state |
| `RulePackProperties.ActivationReplacesActive` | src/app/rule_packs/activation.rs:43-70 | After an activation the active pack of its jurisdiction is exactly that pack, and other jurisdictions keep theirs |
| `RulePackProperties.ActiveIsLastActivated` | src/app/rule_packs/activation.rs:11-27 | Over every run the active packs of a jurisdiction are exactly the last one activated |
| `RulePackProperties.LookupFindsLastActivated` | src/app/classifications/queue.rs:71-82 | The lookup, which sorts by a date that re-activation does not renew, still finds the pack activated last |
| `RulePackProperties.PacksAreImmutable` | migrations/20260524000800_rule_pack_immutability.sql:1-20 | No upload, re-validation or activation changes what evaluation reads of a stored pack |
| `RulePackValidation.ErrorsOfRuleMean` | src/rules/validator.rs:70-94 | A rule has no error exactly when its id and code are not blank, its confidence lies in 0 to 1 and its band is one of three |
| `RulePackValidation.EachErrorMeans` | src/rules/validator.rs:81-87 | A missing id or code is reported exactly when it is blank |
| `RulePackValidation.RangeErrorsMean` | src/rules/validator.rs:88-93 | A confidence or band is reported exactly when it is out of range or not one of three |
| `RulePackValidation.ParsedMeans` | src/rules/compiler.rs:7-38 | A document parses exactly when every rule has its five fields of the right types, and then field by field |
| `RulePackValidation.ReportMeans` | src/rules/validator.rs:30-49 | A report is valid exactly when there is a rule, every rule is good, the runtime answers on the document, and every golden case selects its expected code |
| `RulePackValidation.CoverageMeans` | src/rules/validator.rs:96-118 | Coverage holds exactly when each of the five outputs is listed, in letters of either case |
| `RulePackValidation.UploadAccepts` | src/app/rule_packs.rs:32-110 | An upload is accepted exactly when its metadata are there, every rule is typed, the report is valid and its version is not taken; then exactly one draft row is added |
| `RulePackValidation.ActivationAccepts` | src/app/rule_packs/activation.rs:43-88 | A stored pack can be activated by its tenant exactly when its report is valid, it has ten golden cases or more by the stored count, and it lists all required outputs |
| `ProtocolProperties.EventKeepsInv` | src/classification/service.rs:69-85 | Every statement of every worker, request, lease, crash, edit and pack event keeps the protocol invariant and only grows rows |
| `ProtocolProperties.ReplayKeepsInv` | src/classification/service.rs:20-85 | The invariant holds after every sequence of events |
| `ProtocolProperties.QueueProductKeepsInv` | src/app/classifications/queue.rs:29-53 | Enqueueing one product freezes its inputs alike into run and job and makes no second run for the same pack |
| `ProtocolProperties.WriteDecidesRun` | src/classification/service.rs:199-228 | The guarded write leaves the run terminal, decided on the inputs frozen at enqueue time, and changes no other run and no terminal one |
| `ProtocolProperties.TerminalRunsNeverChange` | src/classification/service.rs:199-228 | A terminal run is the same in every later state of every run |
| `ProtocolProperties.OutcomeIsFrozenEvaluation` | src/classification/service.rs:69-85 | A terminal run made for a pack carries exactly the decision on evaluating the frozen pack payload on the frozen snapshot |
| `ProtocolProperties.FinishedRunsMeanTheirRules` | src/classification/outcome.rs:26-79 | In every reachable state a finished run is classified exactly when, among the rules frozen for it whose text stands in its frozen snapshot, one is a clear winner; it then carries that code and confidence, and its candidates are a permutation of all rule codes |
| `ProtocolProperties.FuturesAgree` | src/classification/service.rs:199-228 | Confluence: any two continuations that both end a queued run give it the same row, whatever the workers, crashes, edits and activations between |
| `ProtocolProperties.AtMostOneWrite` | src/classification/service.rs:210-210 | Over every run the outcome fields of a run change at most once |
| `ProtocolProperties.AttemptsCountLeases` | src/jobs/lease.rs:17-40 | `attempts` of a job is the number of leases granted on it |
| `ProtocolProperties.UnexpiredLeaseIsKept` | src/jobs/lease.rs:24-24 | No event gives a lease that has not expired to another owner |
| `ProtocolProperties.ClosedJobsStayClosed` | src/classification/jobs.rs:15-37 | A completed or failed job is never leased again, although marking a job does not look at its owner |
| `ProtocolProperties.JobsCarryFrozenInputs` | src/app/classifications/queue.rs:160-192 | Every job's payload is its run's pack and snapshot, before and after the outcome is written; a completed job's run is terminal; a run has one job |
| `ProtocolProperties.OneRunPerProductAndPack` | src/app/classifications/queue.rs:84-97 | Enqueueing the same product for the same pack again never makes a second run |
| `ProtocolProperties.RunsUseGoldenPacks` | src/app/rule_packs/activation.rs:83-88 | Every run's pack passes all its golden cases in production |
| `ProtocolProperties.RequestsUseLastActivatedPack` | src/app/classifications/queue.rs:29-53 | A request makes its runs for the pack activated last for the product's jurisdiction, or blocked ones when there is none, on the product as it then is |
| `ProtocolProgress.RequestIsAnswered` | src/app/classifications/queue.rs:12-53 | A request is accepted exactly for one to a hundred products that are there, not archived and ready; then every one of them has a run for the active pack of its jurisdiction, or a blocked run when there is none |
| `ProtocolProgress.EveryRunHasItsJob` | src/app/classifications/queue.rs:160-192 | In every reachable state every run made for a pack has a job that carries it |
| `ProtocolProgress.FreeJobIsLeased` | src/jobs/lease.rs:24-24 | A free, unlocked job is leased unless the limit is used up on jobs of higher priority, or of the same and no younger |
| `ProtocolProgress.LeasedWasFree` | src/jobs/lease.rs:24-24 | Only queued jobs and jobs whose lease has run out are leased, and no more than the limit |
| `ProtocolProgress.HeldJobIsSelected` | src/classification/jobs.rs:3-13 | A job the worker holds is selected unless the limit is used up on leases taken no later |
| `ProtocolProgress.SelectedAreHeld` | src/classification/jobs.rs:3-13 | Only jobs the worker holds by an unexpired lease are selected, each once, no more than the limit |
| `ProtocolProgress.FourStatementsDecide` | src/classification/service.rs:37-85 | From the start of a job, once four statements of its worker succeed its run is terminal, and one of them has marked the job completed, whatever other events come in between |
| `ProtocolProgress.UndisturbedWorkerDecides` | src/classification/service.rs:20-53 | A worker with four successful statements per selected job decides the runs of all of them |
| `ProtocolProgress.TickDecides` | src/jobs/workers.rs:50-73 | A tick with room for all jobs decides the run of every free job when its statements succeed |
| `ProtocolProgress.FailedStatementStops` | src/classification/service.rs:44-52 | A failing statement leaves the job to be marked failed, and writes an outcome only when it is the write and took effect |
| `ProtocolProgress.MarkingIsExact` | src/classification/jobs.rs:15-37 | Marking sets the status of exactly that job and goes on to the next; when it fails the call ends, and the status is set only when the statement took effect |
| `ClassificationWorker.PickJobs` | src/jobs/lease.rs:24-24 | Picking the best candidate repeatedly gives a set the leasing statement may pick |
| `ClassificationWorker.OldestLocks` | src/classification/jobs.rs:3-13 | Picking the oldest lock repeatedly gives a list the worker's selection may return |
| `ClassificationWorker.Database.RunClassifications` | src/app/classifications/queue.rs:12-27 | One transaction: all products are queued, or none and the first error is returned |
| `ClassificationWorker.Database.UploadRulePack` | src/app/rule_packs.rs:32-110 | Uploading is the state machine's upload step, with its errors in their order |
| `ClassificationWorker.Database.ValidateRulePack` | src/app/rule_packs.rs:48-65 | Re-validating is the state machine's step, with its errors in their order |
| `ClassificationWorker.Database.ActivateRulePack` | src/app/rule_packs/activation.rs:11-70 | Activation is the state machine's step; afterwards the pack is the only active one of its jurisdiction |
| `ClassificationWorker.Database.LeaseClassificationJobs` | src/jobs/lease.rs:17-40 | Leasing picks by priority and age among unlocked leasable rows and updates exactly those |
| `ClassificationWorker.Database.RunWorkerTick` | src/jobs/workers.rs:50-73 | A tick leases and then classifies exactly when something was leased, with anything else happening in between; without an error its report counts the jobs it closed |
| `ClassificationWorker.Database.ClassifyQueuedProducts` | src/classification/service.rs:20-35 | What the loop does to the tables is a run of the state machine; without an error the selected jobs are those it completed and those it failed, each counted once and closed, and every completed job has a terminal run; when no statement failed nothing does |
| `ClassificationWorker.Database.SelectLeased` | src/classification/jobs.rs:3-13 | The worker sees its own unexpired leases, oldest lock first |
| `ClassificationWorker.Database.ClassifyJob` | src/classification/service.rs:37-53 | The answer is the status the job row got; it is true exactly when no statement failed, and then its run is terminal; the worker goes on to its next job or its call ends |
| `ClassificationWorker.Database.Mark` | src/classification/jobs.rs:15-37 | Marking is by id, whoever holds the lease, and is one step of the state machine |
| `ClassificationWorker.Database.ClassifyExistingRun` | src/classification/service.rs:69-85 | Reading run and pack, evaluating and writing are statements that may fail; the call succeeds exactly when none failed, and then its run is terminal and the job is to be completed, otherwise to be failed |
| `ClassificationWorker.Database.PersistRunOutcome` | src/classification/service.rs:199-228 | The write happens exactly when the run is not terminal, also when its acknowledgement is lost |
| `FlagClassification.MarkedFlagKeepsMeaning` | tools/klevar-yolo-runtime/src/flag-classification.ts:8-10 | A flag marked as recovered keeps its code and its fix evidence, and does not block |
| `FindingEvidence.ProductFindingsAreNotRuntimeOwned` | tools/klevar-yolo-runtime/src/runtime-batch-state.ts:342-368 | No finding is owned by both product and runtime |
| `FindingEvidence.EvidenceNeedsFixFlags` | tools/klevar-yolo-runtime/src/runtime-batch-state.ts:131-144 | Without a fix flag there is no fix evidence, so the guard of the closing loop changes nothing |
| `FixEvidence.MatchMeans` | tools/klevar-yolo-runtime/src/runtime-batch-state.ts:409-414 | A reported fix matches a finding exactly when it has eight characters and is the finding, one is the other with a colon, or the finding is the fix with a gap word after an underscore |
| `FixEvidence.FixedPrefixMeans` | tools/klevar-yolo-runtime/src/flag-classification.ts:66-73 | What a flag reports as fixed is its code without the word for a fix at its end, or for `_VERIFIED` and `_WIRED` the gap they close |
| `FixEvidence.PositiveNeedsCode` | tools/klevar-yolo-runtime/src/runtime-batch-state.ts:416-447 | A positive flag closes a finding only with an entrypoint or business-logic code or one of four others |
| `FixEvidence.UnrelatedIsNoEvidence` | tools/klevar-yolo-runtime/src/runtime-batch-state.ts:404-407 | Flags that report no related fix and have none of those codes are no fix evidence |
| `FixEvidence.UnrelatedImportLeavesOpen` | tools/klevar-yolo-runtime/src/runtime-batch-state.ts:249-309 | No import with such flags closes an open product-owned finding, from any source and whatever else it reports |
| `FixEvidence.UnrelatedGatesLeaveOpen` | tools/klevar-yolo-runtime/src/runtime-batch-state.ts:125-154 | Nor do gates with such flags, unless one that passes listed the finding last or is its source |
| `FixEvidence.MissingCheckStaysOpen` | tools/klevar-yolo-runtime/src/runtime-batch-state.ts:409-414 | The open finding `AUTH_CHECK_MISSING` survives every import whose one flag is `UNIT_TESTS_FIXED` |
| `FixEvidence.FixedCheckIsClosed` | tools/klevar-yolo-runtime/src/runtime-batch-state.ts:262-278 | An import with the one flag `AUTH_CHECK_FIXED`, from any source but a bugfix, closes the open `AUTH_CHECK_MISSING` |
| `FixEvidence.MissingCheckIsListed` | tools/klevar-yolo-runtime/src/runtime-batch-state.ts:241-247 | A result that reports it for the first time opens it |
| `PositiveEvidence.WiredCloses` | tools/klevar-yolo-runtime/src/runtime-batch-state.ts:416-433 | Evidence that an entrypoint is wired closes the finding that one is not exactly when the subjects match: the same, the end of a longer one, or the same in the singular without the word for its kind |
| `PositiveEvidence.WiredNeedsEntrypoint` | tools/klevar-yolo-runtime/src/runtime-batch-state.ts:416-443 | Such evidence closes nothing but findings on entrypoints |
| `PositiveEvidence.DetailCloses` | tools/klevar-yolo-runtime/src/runtime-batch-state.ts:420-424 | The subject may stand after a colon on both sides |
| `PositiveEvidence.PassClosesGap` | tools/klevar-yolo-runtime/src/runtime-batch-state.ts:434-443 | Evidence that business logic passes closes a gap exactly when the subjects match: the same, the end of a longer one, the start of a more special one, or both of tenant fairness |
| `PositiveEvidence.OrdersWorkerCloses` | tools/klevar-yolo-runtime/src/runtime-batch-state.ts:452-461 | The wired orders worker closes the unwired order and not the unwired user |
| `PositiveEvidence.PhraseIsToken` | tools/klevar-yolo-runtime/src/runtime-batch-state.ts:463-465 | A phrase is read as its words in capitals without the article |
| `FlagExamples.NonBlockingIsWarning` | tools/klevar-yolo-runtime/src/flag-classification.ts:27-27 | A flag that says it does not block is a warning |
| `FlagExamples.SecurityIsGuarded` | tools/klevar-yolo-runtime/src/flag-classification.ts:6-6 | A security flag stays guarded whatever it says about itself |
| `FlagExamples.LongerWordIsNotGuarded` | tools/klevar-yolo-runtime/src/flag-classification.ts:6-6 | A word that only starts like `AUTH` is not guarded |
| `FlagExamples.RuleRejectionIsPositive` | tools/klevar-yolo-runtime/src/flag-classification.ts:41-41 | A case that a business rule rejects is positive |
| `FlagExamples.StockAloneIsNotPositive` | tools/klevar-yolo-runtime/src/flag-classification.ts:41-41 | A rejection outside the business rules is not |
| `FlagExamples.NoFindingsIsPositive` | tools/klevar-yolo-runtime/src/flag-classification.ts:34-34 | A report of no findings is positive and does not block, though it names findings |
| `FlagExamples.QualityIsWarning` | tools/klevar-yolo-runtime/src/flag-classification.ts:19-19 | A warning on quality is a warning at every gate and does not block |
| `FlagExamples.RecoveryNoteDoesNotBlock` | tools/klevar-yolo-runtime/src/flag-classification.ts:12-15 | A note on recovery does not block, though it names a rejection |
| `FlagExamples.NeutralDoesNotBlock` | tools/klevar-yolo-runtime/src/flag-classification.ts:46-51 | A flag that names nothing wrong does not block |
| `ImportClosure.RuntimePathMeans` | tools/klevar-yolo-runtime/src/runtime-batch-state.ts:352-355 | Exactly the paths inside five directories are files of the runtime, in letters of either case, with either slash and with or without `./` |
| `ImportClosure.PassingMeans` | tools/klevar-yolo-runtime/src/runtime-batch-state.ts:297-299 | A test has passed exactly when some phase ran a command that is not blank and exited with 0 |
| `ImportClosure.PlaceholderMeans` | tools/klevar-yolo-runtime/src/runtime-batch-state.ts:391-393 | Placeholders are exactly nine words, in letters of either case and between white space |
| `ImportClosure.CanonicalFiles` | tools/klevar-yolo-runtime/src/runtime-batch-state.ts:108-110 | A result is read with exactly the files that are no placeholders, and as one of the batch when it names none |
| `ImportClosure.CanonicalFlagsMean` | tools/klevar-yolo-runtime/src/runtime-batch-state.ts:99-114 | Exactly these flags are read: no placeholders, those of settled or fixed findings marked as recovered, and nothing that blocks although the same result reports a related fix |
| `ImportClosure.EvidenceMeans` | tools/klevar-yolo-runtime/src/runtime-batch-state.ts:380-382 | A finding read from a result keeps as evidence exactly what the failure type, the flags and the business logic test say that names it |
| `ImportClosure.UnflaggedImportDecides` | tools/klevar-yolo-runtime/src/runtime-batch-state.ts:262-334 | Without a related fix flag a runtime repair makes the runtime's own open findings stale, a passed validation fixes those it does not report that are not the product's, a trusted repair makes those on tooling stale, and nothing else closes one |
| `ImportClosure.ContractIsQuarantined` | tools/klevar-yolo-runtime/src/runtime-batch-state.ts:266-273 | A failed bugfix with a passing test makes the open `CONTRACT_FAILURE` stale when it changed one file of the runtime, and leaves it open when it changed one of the product |
| `ImportClosure.ValidationFixesTests` | tools/klevar-yolo-runtime/src/runtime-batch-state.ts:287-295 | A successful validation with a passing test fixes the open `UNIT_TESTS_FAILED`, an implementation with the same report does not |
| `ImportClosure.ToolingGoesStale` | tools/klevar-yolo-runtime/src/runtime-batch-state.ts:311-340 | A successful bugfix that changed the product makes the open `RUNTIME_GATES_FAILED` stale |
| `ImportClosure.IdleBugfixClosesNothing` | tools/klevar-yolo-runtime/src/runtime-batch-state.ts:280-285 | A bugfix that changed no file of the product, without a passing test and a positive flag, closes no finding of the product, whatever it reports as fixed |
| `ImportClosure.LastWiringClosesAggregate` | tools/klevar-yolo-runtime/src/runtime-batch-state.ts:302-310 | The aggregate of unwired workers is closed by an import after which no other wiring finding is open |
| `ImportClosure.OpenWiringKeepsAggregate` | tools/klevar-yolo-runtime/src/runtime-batch-state.ts:302-310 | It stays open through an unflagged implementation while another one is |
| `ImportClosure.TestsAreNoTooling` | tools/klevar-yolo-runtime/src/runtime-batch-state.ts:336-340 | A failed unit test of an implementation is no finding on tooling |
| `ImportClosure.MissingArtifactIsOwned` | tools/klevar-yolo-runtime/src/runtime-batch-state.ts:357-368 | A missing artifact is the runtime's own exactly when its path is |
| `ImportClosure.ProtectedPathIsOwned` | tools/klevar-yolo-runtime/src/runtime-batch-state.ts:357-368 | A finding on a protected path is the runtime's own |
| `ImportClosure.GateEvidenceMeans` | tools/klevar-yolo-runtime/src/runtime-batch-state.ts:152-152 | The evidence of gates is their flags, each after the name of its gate |
| `ImportClosure.ImportTracesSayWhy` | tools/klevar-yolo-runtime/src/runtime-batch-state.ts:173-194 | A trace of an import names its cause, or the aggregate, and holds every flag that was read |
| `GateClosure.GatesCloseExactly` | tools/klevar-yolo-runtime/src/runtime-batch-state.ts:125-154 | An open product-owned finding is fixed exactly by a gate that counts and reports a fix, by a clean gate that listed it last or is its source, or by a fix in the current result |
| `GateClosure.HardFlagOpens` | tools/klevar-yolo-runtime/src/runtime-batch-state.ts:137-141 | A gate that counts and lists a hard flag without a fix opens a finding with its name; one that is there keeps its status |
| `GateClosure.MissingCheckFollowsItsGate` | tools/klevar-yolo-runtime/src/runtime-batch-state.ts:133-141 | A failing gate opens the missing check; that gate passing fixes it, another passing does not |
| `FindingLoops.ReconcileFindings` | tools/klevar-yolo-runtime/src/runtime-batch-state.ts:262-278 | The three Map loops compute accumulated findings, quarantined and closed by fix evidence |
| `FindingLoops.ClosureTracesFromDiff` | tools/klevar-yolo-runtime/src/runtime-batch-state.ts:173-182 | The loop computes the traces of the specification |
| `FindingLoops.ClearedByGate` | tools/klevar-yolo-runtime/src/runtime-batch-state.ts:133-136 | A cleanly passing gate clears what its last record lists and the findings it raised |
| `FindingLoops.ApplyGate` | tools/klevar-yolo-runtime/src/runtime-batch-state.ts:137-144 | One gate adds its hard flags and fixes what its flags are evidence for, unless it failed on warnings alone |
| `FindingLoops.TransitionFindings` | tools/klevar-yolo-runtime/src/runtime-batch-state.ts:125-154 | The gate loop with its Map and Set computes the transition of the specification |
| `FindingProperties.Accumulated` | tools/klevar-yolo-runtime/src/runtime-batch-state.ts:263-264 | Merged findings have unique ids and the last status of each id |
| `FindingProperties.AccumulatedEvidence` | tools/klevar-yolo-runtime/src/runtime-batch-state.ts:263-264 | Merged findings keep the evidence of every finding of their id |
| `FindingProperties.PassesDecide` | tools/klevar-yolo-runtime/src/runtime-batch-state.ts:249-326 | The composition of quarantine, flag evidence, validation, aggregate, rebuild and normalisation gives the status of one first-match decision |
| `FindingProperties.ImportDecides` | tools/klevar-yolo-runtime/src/runtime-batch-state.ts:76-97 | After an import every finding has the status that decision gives its accumulated form |
| `FindingProperties.ImportMakesCanonical` | tools/klevar-yolo-runtime/src/runtime-batch-state.ts:76-97 | Whatever state was loaded, an import leaves unique ids, no open positive or recovered finding, every earlier finding with its evidence, and the earlier traces |
| `FindingProperties.ProductOwnedAfterImport` | tools/klevar-yolo-runtime/src/runtime-batch-state.ts:249-309 | After an import a product-owned finding is open exactly when it was open or the result lists it, and the canonical flags give no usable fix evidence |
| `FindingProperties.CanonicalFlagsSpareSettled` | tools/klevar-yolo-runtime/src/runtime-batch-state.ts:99-114 | A canonical blocking flag comes from the result and never names a fixed, stale or accepted finding |
| `FindingProperties.ReopenedOnlyByFailureType` | tools/klevar-yolo-runtime/src/runtime-batch-state.ts:76-114 | A fixed, stale or accepted finding is open after an import only when the result's `failureType` is exactly its id |
| `FindingProperties.ProductOwnedAfterGates` | tools/klevar-yolo-runtime/src/runtime-batch-state.ts:125-154 | In gate recording an open product-owned finding stays open exactly when no contributing gate and not the current result carries fix evidence and no cleanly passing gate owns or last listed it |
| `FindingProperties.TransitionedIsCanonical` | tools/klevar-yolo-runtime/src/runtime-batch-state.ts:116-123 | Recording gates keeps ids unique, findings and evidence, and leaves nothing for the closing normalisation |
| `GateProperties.GatesDecide` | tools/klevar-yolo-runtime/src/runtime-batch-state.ts:116-154 | Recording gates: a finding is there afterwards exactly when it was or a contributing gate lists it, and its status is one first-match decision |
| `FindingProperties.TracesAreExact` | tools/klevar-yolo-runtime/src/runtime-batch-state.ts:173-182 | The traces of an id are those of its last finding before and after, and no others |
| `FindingProperties.DiffIsTracedExactly` | tools/klevar-yolo-runtime/src/runtime-batch-state.ts:173-182 | Exactly one trace, with the right ends, for each finding that was closed, and none for the others |
| `FindingProperties.StepKeeps` | tools/klevar-yolo-runtime/src/runtime-batch-state.ts:70-154 | Import, gate recording and saving each keep the invariant, every finding and its evidence, and append exactly the traces of what they close |
| `FindingProperties.RunsKeepFindings` | tools/klevar-yolo-runtime/src/runtime-batch-state.ts:70-154 | Over every sequence of these steps ids stay unique and never vanish, evidence grows, traces are append-only, and a finding has one more trace for each closure |
| `FindingProperties.SettledUntilNamed` | tools/klevar-yolo-runtime/src/runtime-batch-state.ts:70-154 | Over every sequence a settled finding stays settled until an imported result names it as its `failureType` |
| `GateProperties.StepTraces` | tools/klevar-yolo-runtime/src/runtime-batch-state.ts:70-154 | From any state with unique ids, each step traces a finding exactly, except precisely when it closes an open finding with a positive or recovered id only in its last pass |
| `GateProperties.RunsTrace` | tools/klevar-yolo-runtime/src/runtime-batch-state.ts:70-182 | Over every run from such a state, a finding has one more trace for each closure, less those lost in that way |
| `GateProperties.CanonicalLosesNothing` | tools/klevar-yolo-runtime/src/runtime-batch-state.ts:76-97 | From the first import on no trace is lost |
| `GateProperties.UnimportedStateLosesTrace` | tools/klevar-yolo-runtime/src/runtime-batch-state.ts:116-123 | It happens: a state made from a first result with the failure type `RECOVERED_X` has the finding closed by recording any gates, without a trace exactly when no flag of theirs is evidence of its fix |
| `RecoverySignatures.SortSorts` | tools/klevar-yolo-runtime/src/runtime.ts:1000-1003 | Sorting distinct flags gives the same flags in strictly ascending order |
| `RecoverySignatures.SplitJoin` | tools/klevar-yolo-runtime/src/runtime.ts:1000-1009 | Splitting a signature gives back the joined flags when none holds a pipe character |
| `RecoveryProperties.OwnedSignature` | tools/klevar-yolo-runtime/src/runtime.ts:1005-1009 | A signature of flags without a pipe character is runtime-owned exactly when every blocking flag is |
| `RecoveryProperties.SignatureIsFlagSet` | tools/klevar-yolo-runtime/src/runtime.ts:1000-1018 | Signatures of flags without a pipe character are equal exactly when the sets of blocking flags are, or one set is empty and the other is the unknown failure alone |
| `RecoveryWitnesses.EmptySharesUnknown` | tools/klevar-yolo-runtime/src/runtime.ts:1000-1018 | That exception happens: an empty failure type and a missing one have one signature and different flag sets |
| `RecoveryWitnesses.GateSignatureIsFlagSet` | tools/klevar-yolo-runtime/src/runtime.ts:881-902 | In the gate loop the exception cannot happen, so signatures are flag sets |
| `RecoveryLoops.ClassifyGateFindings` | tools/klevar-yolo-runtime/src/gate-findings.ts:25-36 | The report lists every hard failure, ambiguity and warning of the gates, in order |
| `RecoveryLoops.RunLoop` | tools/klevar-yolo-runtime/src/runtime.ts:885-944 | The loop with its counters and its map computes the recursive specification, and its result is the recovered one or none |
| `RecoveryLoops.RecoverGateFailure` | tools/klevar-yolo-runtime/src/runtime.ts:881-945 | Gate recovery, with its two early stops, for arbitrary agent answers |
| `RecoveryLoops.ValidateAdversarial` | tools/klevar-yolo-runtime/src/runtime.ts:726-805 | Adversarial validation with its recovery loop, for arbitrary agent answers |
| `RecoveryProperties.RecoveryBudget` | tools/klevar-yolo-runtime/src/runtime.ts:735-767 | For arbitrary answers at most four times the attempts are dispatched, at most the attempts in a row for one signature, and never on a runtime-owned signature |
| `RecoveryProperties.BatchBudget` | tools/klevar-yolo-runtime/src/runtime.ts:104-170 | A batch dispatches at most twice that bound: gate recovery happens once at most, adversarial recovery once at most |
| `RecoveryProperties.RecoveredIsProven` | tools/klevar-yolo-runtime/src/runtime.ts:726-945 | A result of either loop is what the last dispatch recovered, with the last gates, validation or adjudication behind it |
| `RecoveryProperties.GateRecoveryIsProven` | tools/klevar-yolo-runtime/src/runtime.ts:923-944 | A result of gate recovery means that the last validation satisfied every gate and left every open finding a warning or positive, or that an adjudication was accepted on gates with ambiguities and no hard failure |
| `RecoveryProperties.TurnReturnsProven` | tools/klevar-yolo-runtime/src/runtime.ts:1069-1094 | A turn returns only on such proof; an accepted adjudication never overrides a hard failure |
| `RecoveryProperties.BlockingMeansOpen` | tools/klevar-yolo-runtime/src/runtime-batch-state.ts:156-158 | Nothing blocks exactly when every finding with status open has a warning or a positive id |
| `RecoveryProperties.OpenFindingIsNotReturned` | tools/klevar-yolo-runtime/src/runtime.ts:923-944 | An accepted bugfix on passing gates is never returned while a finding that is neither a warning nor positive is open |
| `RecoveryProperties.FailureIsDispatched` | tools/klevar-yolo-runtime/src/runtime.ts:885-930 | A failure that is not the runtime's own is dispatched with its signature and its blocking flags, and when the first bugfix settles it its result is returned after that one dispatch |
| `RecoveryWitnesses.MissingCheckIsNotReturned` | tools/klevar-yolo-runtime/src/runtime.ts:930-935 | A bugfix on passing gates with `AUTH_CHECK_MISSING` open goes on with that id as the failure |
| `RecoveryWitnesses.MissingCheckIsRecovered` | tools/klevar-yolo-runtime/src/runtime.ts:923-930 | When the first accepted bugfix leaves nothing blocking, gate recovery returns its result after one dispatch that carries the check |
| `RecoveryWitnesses.MissingCheckIsNotAdjudicated` | tools/klevar-yolo-runtime/src/adjudication.ts:22-25 | A gate that lists the missing check leaves nothing to adjudicate |
| `RecoveryWitnesses.SkippedIsAmbiguous` | tools/klevar-yolo-runtime/src/gate-findings.ts:44-53 | A command that failed because an end-to-end test was skipped is ambiguous, one that failed is a hard failure |
| `RecoveryWitnesses.SkippedWord` | tools/klevar-yolo-runtime/src/gate-findings.ts:44-53 | More may follow the note on the skipped test exactly when its word ends there |
| `RecoveryWitnesses.SkippedIsAdjudicated` | tools/klevar-yolo-runtime/src/runtime.ts:1069-1098 | A gate with the first alone is settled by an accepting adjudication, one with both is not |
| `RecoveryTurns.AdjudicationNeedsAmbiguity` | tools/klevar-yolo-runtime/src/adjudication.ts:22-25 | Gates are left to adjudication exactly when none lists a hard failure and some lists an ambiguity |
| `RecoveryTurns.VerdictMeans` | tools/klevar-yolo-runtime/src/runtime.ts:1069-1098 | The verdict is what the adjudication that is there says, and only without one what the agent writes: no success escalates, and a bugfix goes before a human |
| `RecoveryTurns.GateTurnMeans` | tools/klevar-yolo-runtime/src/runtime.ts:923-943 | After a bugfix that stands a turn returns exactly when the gates are satisfied and nothing blocks, or an adjudication accepts; else it ends as poisoned, asks a human or goes on, in that order |
| `RecoveryTurns.AdversarialTurnMeans` | tools/klevar-yolo-runtime/src/runtime.ts:780-809 | The same for the adversarial loop, where satisfied gates need a second validation that passes or is excused |
| `RecoveryTurns.FailedBugfixGoesOn` | tools/klevar-yolo-runtime/src/runtime.ts:772-777 | A bugfix that broke its contract or did not succeed is never validated; its flags are the next failure |
| `RecoveryTurns.UnsafeFlagStops` | tools/klevar-yolo-runtime/src/runtime.ts:881-897 | Gate recovery ends as non-recoverable exactly for an unsafe flag, without a dispatch; otherwise only a failure of the runtime's own gets none |
| `RecoveryTurns.PassedAtOnce` | tools/klevar-yolo-runtime/src/runtime.ts:726-731 | Adversarial validation returns without a dispatch exactly when the first validation passed, and then the implementation |
| `RecoveryTurns.AttemptsAreSpent` | tools/klevar-yolo-runtime/src/runtime.ts:885-944 | A failure that no bugfix changes gets exactly the configured attempts, at least one, and is given up |
| `RecoveryOwners.BeyondRecovery` | tools/klevar-yolo-runtime/src/gate-findings.ts:71-100 | With a path, exactly six codes are beyond recovery, and the four on missing files where the path may not be touched |
| `RecoveryOwners.UnsafeCodeStops` | tools/klevar-yolo-runtime/src/runtime.ts:881-897 | Gate recovery ends as non-recoverable without a dispatch when one flag has such a code |
| `RecoveryOwners.KeysAreUntouchable` | tools/klevar-yolo-runtime/src/gate-findings.ts:77-80 | Keys and certificates may not be touched, wherever they lie |
| `RecoveryOwners.RuntimeIsUntouchable` | tools/klevar-yolo-runtime/src/gate-findings.ts:77-80 | Nor may what the runtime writes for itself |
| `RecoveryOwners.SourceIsProduct` | tools/klevar-yolo-runtime/src/path-policy.ts:30-44 | A source file is part of the product |
| `RecoveryOwners.SourceIsTouchable` | tools/klevar-yolo-runtime/src/gate-findings.ts:71-81 | and may be touched: no class and no pattern forbids it |
| `RecoveryOwners.MissingFileIsOwned` | tools/klevar-yolo-runtime/src/runtime.ts:1029-1037 | A missing file is the failure of the runtime exactly when its path lies with the runtime or may not be touched |
| `RecoveryOwners.MissingSourceIsProduct` | tools/klevar-yolo-runtime/src/runtime.ts:1029-1037 | A missing source file is neither the failure of the runtime nor beyond recovery |
| `RecoveryOwners.MissingKeyEndsRecovery` | tools/klevar-yolo-runtime/src/gate-findings.ts:71-81 | A missing key is beyond recovery |
| `RecoveryOwners.MissingReportIsOwned` | tools/klevar-yolo-runtime/src/runtime.ts:1034-1037 | A missing gate report is the failure of the runtime |
| `RecoveryOwners.BadDocumentIsOwned` | tools/klevar-yolo-runtime/src/runtime.ts:1033-1033 | A code on something missing or invalid is the failure of the runtime exactly when it names one of seven documents |
| `RecoveryOwners.NoteIsOwned` | tools/klevar-yolo-runtime/src/runtime.ts:1038-1039 | Notes on a stale support loop and on rule files are |
| `RecoveryOwners.MissingSourceIsDispatched` | tools/klevar-yolo-runtime/src/runtime.ts:885-915 | A gate failure that is one missing source file goes to a bugfix that is told of it |
| `RecoveryProperties.NeverPoisoned` | tools/klevar-yolo-runtime/src/runtime.ts:979-986 | On a signature that a bugfix was dispatched for, flags without a pipe character never look poisoned |
| `RecoveryPipes.OwnedExactly` | tools/klevar-yolo-runtime/src/runtime.ts:1005-1018 | For any flags, a signature is runtime-owned exactly when its blocking flags have parts between pipe characters and every part is owned |
| `RecoveryPipes.PoisonedExactly` | tools/klevar-yolo-runtime/src/runtime.ts:979-986 | For any flags, after a dispatch they look poisoned exactly when they have its signature, every blocking flag is owned and not every part is |
| `RecoveryPipes.DispatchedThenPoisoned` | tools/klevar-yolo-runtime/src/runtime.ts:895-939 | A failure is dispatched, and looks poisoned when it comes back, exactly under that condition on its flags |
| `RecoveryPipes.RepeatPoisonsExactly` | tools/klevar-yolo-runtime/src/runtime.ts:894-941 | When a bugfix leaves the gates failing as before, gate recovery ends as poisoned after one dispatch exactly under that condition |
| `RecoveryPipes.PoisonedNeedsHidden` | tools/klevar-yolo-runtime/src/runtime.ts:741-945 | For all answers, either loop ends as poisoned only when the first failure or a round meets that condition |
| `RecoveryPipes.PoisonedIsUnreachable` | tools/klevar-yolo-runtime/src/runtime.ts:760-803 | When no flag holds a pipe character neither loop ends as poisoned, for all answers |
| `RecoveryWitnesses.PipedReachesPoisoned` | tools/klevar-yolo-runtime/src/validators/command-validator.ts:60-60 | Such flags occur: when a test command with a pipe keeps failing, gate recovery spends one bugfix and ends as poisoned |
| `ProgressFile.ParseProgress` | tools/klevar-yolo-runtime/src/progress-parser.ts:4-34 | The line loop with phase, fence and current item computes the scan of the specification, with details, affected files and claim |
| `ProgressFile.TickProgressItems` | tools/klevar-yolo-runtime/src/progress-updater.ts:4-12 | The replacement loop computes the ticked text of the specification |
| `ProgressRoundTrip.WrittenFileIsRead` | tools/klevar-yolo-runtime/src/progress-parser.ts:4-42 | Round trip: written entries of any number, with phase, box, tag, title, files and claim, are read back as exactly their items |
| `ProgressRoundTrip.FencedIsIgnored` | tools/klevar-yolo-runtime/src/progress-parser.ts:12-16 | What stands between code fences is not read |
| `ProgressProperties.LinesReplaced` | tools/klevar-yolo-runtime/src/progress-updater.ts:8-9 | Replacing the first occurrence of a line's text replaces exactly that line |
| `ProgressProperties.CheckedItem` | tools/klevar-yolo-runtime/src/progress-updater.ts:8-8 | The line ticking writes for an open item parses as the same item, checked; its title changes only where it holds a pattern or `- [/ ]` |
| `ProgressProperties.TickFirstOpen` | tools/klevar-yolo-runtime/src/progress-updater.ts:7-10 | Ticking the first open item and parsing again ticks exactly that item, and the file stays tidy |
| `ProgressProperties.TickPrefix` | tools/klevar-yolo-runtime/src/progress-updater.ts:4-12 | Ticking the first n open items leaves exactly the other open items, unchanged, and every other item |
| `ProgressProperties.PlainIsTidy` | tools/klevar-yolo-runtime/src/progress-updater.ts:8-9 | A file without replacement patterns in open items is tidy when no line but an open item's own holds its text |
| `ProgressWrites.TickWrites` | tools/klevar-yolo-runtime/src/progress-updater.ts:8-9 | An item whose new line holds no replacement pattern is replaced by exactly that line |
| `ProgressWrites.TickWritesPattern` | tools/klevar-yolo-runtime/src/progress-updater.ts:8-9 | Any other is replaced by its new line up to the first pattern, what that one stands for, and the rest expanded: a dollar sign, the unticked item, all before it or all after it |
| `ProgressWrites.TickWritesExactly` | tools/klevar-yolo-runtime/src/progress-updater.ts:8-9 | An item on a line of its own is written as its new line exactly when that holds no pattern, with `$$` as a dollar sign exactly when it holds no other, and independent of the rest of the file exactly when no side that holds anything is read |
| `ProgressWrites.SlashIsNeverTicked` | tools/klevar-yolo-runtime/src/progress-updater.ts:8-8 | An item marked `[/]` still is after ticking, whatever its title; the file is unchanged exactly when the title holds no pattern and no box |
| `ProgressWrites.DollarQuoteCopiesRest` | tools/klevar-yolo-runtime/src/progress-updater.ts:8-9 | An item with the pattern `$'` anywhere in its title is ticked into a copy of the rest of the file |
| `SupportScheduler.NextDue` | tools/klevar-yolo-runtime/src/support-scheduler.ts:56-63 | A due phase with a missing gate, or none exactly when all due gates exist |
| `SupportScheduler.NextDuePhaseSupport` | tools/klevar-yolo-runtime/src/support-scheduler.ts:56-63 | The two loops compute that answer |
| `SupportProperties.DueMeans` | tools/klevar-yolo-runtime/src/support-scheduler.ts:26-34 | After a batch exactly those phases are due that were, or that are named by its progress items and have all their items checked; a support batch adds none |
| `SupportProperties.NextSupportMeans` | tools/klevar-yolo-runtime/src/support-scheduler.ts:16-24 | A support workflow comes next exactly when a due phase lacks a gate, or everything is checked and the project lacks one; phases go first |
| `SupportProperties.StemMeans` | tools/klevar-yolo-runtime/src/support-scheduler.ts:52-54 | The stem of a scope is letters and digits with single dashes between them, and keeps those of the scope in order |
| `SupportProperties.CloseOutIsolates` | tools/klevar-yolo-runtime/src/progress-parser.ts:57-59 | The close-out of a phase is isolated like an audit |
| `SupportProperties.TagIsolates` | tools/klevar-yolo-runtime/src/progress-parser.ts:53-55 | An item tagged as an audit is alone in its batch whatever follows and whatever the limit |
| `SupportProperties.MatrixIsolates` | tools/klevar-yolo-runtime/src/progress-parser.ts:61-63 | So is an audit of matrix coverage |
| `SupportScheduler.GateNamesDiffer` | tools/klevar-yolo-runtime/src/support-scheduler.ts:44-54 | Two gate names are the same exactly for one kind and scopes of one stem |
| `SupportScheduler.AuditIsolated` | tools/klevar-yolo-runtime/src/progress-parser.ts:81-88 | The longest prefix of the items within the limit that holds no audit item, or one audit item alone |
| `FullMode.ContextFreeIsOrderly` | tools/klevar-yolo-runtime/src/progress-updater.ts:8-9 | A tidy file whose open items hold no pattern but `$$` is orderly as soon as no line of it holds the support marker |
| `FullMode.SupportComesFirst` | tools/klevar-yolo-runtime/src/support-scheduler.ts:16-24 | No progress batch starts while a due phase lacks any of its three support gates |
| `FullMode.SupportBatchProgresses` | tools/klevar-yolo-runtime/src/runtime.ts:177-187 | A completed support batch leaves file and due list alone, adds a missing gate and lowers the measure |
| `FullMode.ProgressBatchProgresses` | tools/klevar-yolo-runtime/src/runtime.ts:177-187 | A completed progress batch checks a non-empty prefix of the open items, brings no new scope and lowers the measure of open items plus missing gates |
| `FullMode.OwedAfterBatch` | tools/klevar-yolo-runtime/src/support-scheduler.ts:26-34 | The batch that checks the last open item of a phase makes the phase due |
| `FullMode.NothingLeft` | tools/klevar-yolo-runtime/src/runtime.ts:57-63 | An empty batch means that every item is checked and every due and final gate exists |
| `FullMode.Project.RunSingleBatch` | tools/klevar-yolo-runtime/src/runtime.ts:70-200 | A batch that completes ticks its items, marks phases due and writes its support gate; one that fails changes none of them |
| `FullMode.Project.RunFull` | tools/klevar-yolo-runtime/src/runtime.ts:57-63 | Full mode ends within as many batches as the measure counts; ended with nothing left, all items are checked and the support gates of all due phases, of the project and of every phase that had open items exist |
| `ParallelPlan.PlanParallelBatches` | tools/klevar-yolo-runtime/src/collaboration/scheduler.ts:33-77 | The greedy loop with its sets of used files and domains computes the shards and skips of the decisions |
| `ParallelPlan.EveryItemIsDecided` | tools/klevar-yolo-runtime/src/collaboration/scheduler.ts:41-73 | Every scanned item is planned or skipped exactly once, in order, and scanning stops only at the end or at the limit |
| `ParallelPlan.ShardsAreIndependent` | tools/klevar-yolo-runtime/src/collaboration/scheduler.ts:41-81 | Shards are pairwise disjoint in files, touch no shared and no externally claimed file, and none without files repeats a domain |
| `ParallelPlan.DecisionIsGreedy` | tools/klevar-yolo-runtime/src/collaboration/scheduler.ts:41-73 | Each decision is the one the shards planned before it call for |
| `ParallelPlan.PlannedExactly` | tools/klevar-yolo-runtime/src/collaboration/scheduler.ts:41-73 | An item is planned exactly when it is no audit, neither it nor its files are claimed, none of its files is shared or used by an item planned before, and it names files or is alone in its domain |
| `ParallelPlan.TwoItemsArePlanned` | tools/klevar-yolo-runtime/src/collaboration/scheduler.ts:41-73 | Two items on files of their own are planned, one on a shared file is skipped for it |
| `ParallelPlan.ForeignClaimBlocks` | tools/klevar-yolo-runtime/src/collaboration/claims.ts:46-88 | A claim of another operator that is active or blocked keeps an item with its title or one of its files from being planned |
| `ParallelPlan.OwnClaimsDoNotBlock` | tools/klevar-yolo-runtime/src/collaboration/claims.ts:46-88 | Claims of the runtime itself and closed ones change no choice |
| `ParallelPlan.OtherWorkIsPlanned` | tools/klevar-yolo-runtime/src/collaboration/claims.ts:80-82 | The task `login` is the same with a reference to the requirements, and not the same as `checkout` |
| `ParallelPlan.PartIsSameTask` | tools/klevar-yolo-runtime/src/collaboration/claims.ts:189-191 | A task whose words are part of another is the same, whichever of the two is claimed |
| `ParallelPlan.DomainsDiffer` | tools/klevar-yolo-runtime/src/collaboration/scheduler.ts:11-22 | Two tags are of one domain exactly when they are the same or both of the backend |
| `ParallelPlan.MaxShards` | tools/klevar-yolo-runtime/src/collaboration/scheduler.ts:34-34 | At least two shards, and more only as far as both the request and the configuration allow |
| `ShardSync.DetectResultFileConflicts` | tools/klevar-yolo-runtime/src/runtime.ts:658-667 | The conflicts are exactly the files listed more than once outside `docs/progress.md` and `.yolo/`, each once |
| `ShardSync.UndetectedMeansNone` | tools/klevar-yolo-runtime/src/runtime.ts:632-667 | Finding none means no two shards list one path outside the exempt ones |
| `ShardSync.SyncWorktreeChangesToRoot` | tools/klevar-yolo-runtime/src/worktree-sync.ts:24-45 | The copying loop, after its three checks, computes the synced tree and the list of synced paths, also when the result lists none and `git status` is asked |
| `ShardSync.SyncedAt` | tools/klevar-yolo-runtime/src/worktree-sync.ts:24-45 | A sync brings exactly the candidate files, or their absence, and leaves every other path, however the result writes its paths |
| `ShardSync.SyncedAllAt` | tools/klevar-yolo-runtime/src/runtime.ts:646-651 | After some syncs a path has the content of the last shard that brings it, or of the root |
| `PathClasses.ClimbingIsUnsafe` | tools/klevar-yolo-runtime/src/path-policy.ts:11-29 | A path that climbs is unsafe and never copied |
| `PathClasses.AbsoluteIsUnsafe` | tools/klevar-yolo-runtime/src/path-policy.ts:11-29 | Nor is an absolute one |
| `PathClasses.DriveIsUnsafe` | tools/klevar-yolo-runtime/src/path-policy.ts:11-16 | Nor is one on a drive, with either slash |
| `PathClasses.QuotesDoNotCount` | tools/klevar-yolo-runtime/src/path-policy.ts:3-5 | Quotes around a path do not count |
| `PathClasses.ReportIsArtifact` | tools/klevar-yolo-runtime/src/path-policy.ts:65-68 | A report in the directory of the gates is an artifact of the runtime |
| `PathClasses.NestedIsNoArtifact` | tools/klevar-yolo-runtime/src/path-policy.ts:65-68 | and nothing in a directory below it is |
| `PathClasses.GitStays` | tools/klevar-yolo-runtime/src/path-policy.ts:31-43 | Nothing in `.git` is copied |
| `PathClasses.EnvironmentStays` | tools/klevar-yolo-runtime/src/path-policy.ts:31-43 | Nor are `.env` and its variants |
| `PathClasses.RuntimeStays` | tools/klevar-yolo-runtime/src/path-policy.ts:45-51 | Nor is what the runtime writes for itself |
| `PathClasses.PackagesStay` | tools/klevar-yolo-runtime/src/path-policy.ts:83-87 | Nor are installed packages, wherever they are |
| `PathClasses.CoveredMeans` | tools/klevar-yolo-runtime/src/worktree-sync.ts:173-182 | A changed path is declared exactly when a listed path that is synced is the same, contains it or lies in it |
| `PathClasses.UnlistedProgressStops` | tools/klevar-yolo-runtime/src/worktree-sync.ts:80-90 | A changed progress file that the result does not list stops the sync |
| `PathClasses.ReportIsIgnored` | tools/klevar-yolo-runtime/src/worktree-sync.ts:132-149 | A changed report need not be listed |
| `PathClasses.ExemptMeans` | tools/klevar-yolo-runtime/src/runtime.ts:658-667 | Only the progress file and what lies in `.yolo/` may be listed by two results |
| `ShardSync.AnyOrder` | tools/klevar-yolo-runtime/src/runtime.ts:646-651 | Any two orders of the shards give the same content to a path that one shard at most brings |
| `ShardSync.AnyOrderSyncs` | tools/klevar-yolo-runtime/src/runtime.ts:646-651 | Of shards that bring no such path twice, one order syncs exactly when any other does |
| `ShardSync.SyncAllIffFits` | tools/klevar-yolo-runtime/src/worktree-sync.ts:24-130 | All shards sync exactly when each passes the two checks that no sync touches, and every path it brings that may be in the way was left by the last earlier shard, or else by the root, as committed or as the shard brings it |
| `ShardSync.SyncAllIffEach` | tools/klevar-yolo-runtime/src/worktree-sync.ts:24-130 | When no two shards bring a path that may be in the way, all shards sync exactly when each would alone |
| `ShardSync.UndetectedAreDisjoint` | tools/klevar-yolo-runtime/src/runtime.ts:632-667 | With normal paths and no detected conflict, that is so exactly when no two shards list an exempt path that may be in the way |
| `ShardSync.UndetectedIsBroughtOnce` | tools/klevar-yolo-runtime/src/runtime.ts:658-667 | With normal paths and no detected conflict, a path that is not exempt is brought once at most |
| `ShardSync.ClashFailsSync` | tools/klevar-yolo-runtime/src/worktree-sync.ts:92-107 | Anywhere in the order, a shard that leaves a path neither as committed nor as the next one that brings it does, makes the syncs fail |
| `ShardSync.DotSlashEscapesDetection` | tools/klevar-yolo-runtime/src/runtime.ts:658-667 | Writing a path once with and once without `./` escapes the detection |
| `ShardSync.ProgressFileClashes` | tools/klevar-yolo-runtime/src/runtime.ts:662-662 | `docs/progress.md` escapes it too: two shards that bring it with different content fail, whatever else they list |
| `RecoveryMerge.MergeRecoveredWiring` | tools/klevar-yolo-runtime/src/recovery-merge.ts:57-78 | The two Map loops over raw entries, malformed ones included, compute the merged wiring of the specification |
| `RecoveryMerge.MergePasses` | tools/klevar-yolo-runtime/src/recovery-merge.ts:97-147 | Merged green, regression or e2e evidence is a runnable pass exactly when one of the two results has it |
| `RecoveryMerge.FoldPasses` | tools/klevar-yolo-runtime/src/recovery-merge.ts:97-147 | Folding any bugfix results keeps every runnable pass and adds exactly those they bring |
| `RecoveryMerge.MergeWires` | tools/klevar-yolo-runtime/src/recovery-merge.ts:57-78 | For any two results: a merge wires exactly the paths of both when the bugfix contributes; it verifies those that the bugfix verifies and those whose last entry in the implementation is verified; a bugfix that does not contribute changes nothing |
| `RecoveryMerge.FoldWires` | tools/klevar-yolo-runtime/src/runtime.ts:484-492 | Over any fold no wired path is lost and exactly those of contributing bugfixes are added |
| `RecoveryMerge.FoldVerifies` | tools/klevar-yolo-runtime/src/runtime.ts:484-492 | Onto a result with entries, a path is verified in the end exactly when a contributing bugfix verifies it or the implementation does, by its last entry once any bugfix contributes |
| `RecoveryMerge.FoldLosesVerification` | tools/klevar-yolo-runtime/src/runtime.ts:484-492 | A verified path is lost exactly when some bugfix contributes, none that does verifies it, and the implementation lists it again after its last verified entry |
| `RecoveryMerge.FoldOntoNothing` | tools/klevar-yolo-runtime/src/recovery-merge.ts:57-78 | Onto a result without entries, the first contributing bugfix with entries takes its place |
| `RecoveryMerge.DuplicatePathLosesVerification` | tools/klevar-yolo-runtime/src/recovery-merge.ts:60-64 | It happens: a result that lists a path verified and then bare loses the verification |
| `RecoveryMerge.MergedFiles` | tools/klevar-yolo-runtime/src/recovery-merge.ts:44-50 | A file is listed once, exactly when it is not runtime-owned and the bugfix lists it, or the implementation does, no manifest is corrected and it is not stale |
| `RecoveryMerge.FoldedFiles` | tools/klevar-yolo-runtime/src/recovery-merge.ts:44-50 | A file is in a fold exactly when it is not runtime-owned and some result lists it that is followed only by merges it survives |
| `RecoveryMerge.FromDiskFiles` | tools/klevar-yolo-runtime/src/recovery-merge.ts:6-18 | The same for files merged from disk, from the last valid rewrite of the source manifest on |
| `RecoveryMerge.BothAreListed` | tools/klevar-yolo-runtime/src/recovery-merge.ts:44-50 | Without flags, `src/a.ts` of the implementation and `src/b.ts` of the bugfix are both listed |
| `RecoveryMerge.MissingFileIsDropped` | tools/klevar-yolo-runtime/src/recovery-merge.ts:44-50 | A plain path that a flag of the bugfix reports as missing is dropped, unless the bugfix lists it |
| `MergeEvidence.EvidenceIsKept` | tools/klevar-yolo-runtime/src/recovery-merge.ts:126-147 | Evidence is never lost; the bugfix's goes first unless it would lose a test that ran and passed, told on the characters of the command |
| `MergeEvidence.TestChangeReplacesRed` | tools/klevar-yolo-runtime/src/recovery-merge.ts:97-112 | Red evidence is replaced by a bugfix that changed a test file |
| `MergeEvidence.RedStays` | tools/klevar-yolo-runtime/src/recovery-merge.ts:97-112 | It stays when the bugfix changed nothing but reports of the runtime |
| `MergeEvidence.ChangeMeans` | tools/klevar-yolo-runtime/src/recovery-merge.ts:114-120 | Reports of the runtime are no change of the product, a plain path is one |
| `MergeEvidence.RuntimeFilesAreDropped` | tools/klevar-yolo-runtime/src/recovery-merge.ts:44-50 | A file of the runtime is never listed, in whatever directory its path says it is |
| `MergeEvidence.ManifestNames` | tools/klevar-yolo-runtime/src/recovery-merge.ts:227-232 | The manifest of a batch is named by its number, in at least three digits, and by the part of the result |
| `MergeEvidence.ManifestIsLeftOut` | tools/klevar-yolo-runtime/src/recovery-merge.ts:9-17 | A bugfix is merged without the manifest it rewrote, and with everything else it lists |
| `MergeEvidence.ReplacesMeans` | tools/klevar-yolo-runtime/src/recovery-merge.ts:6-18 | A rewritten manifest replaces the implementation exactly when the bugfix lists it and it can be read as a result |
| `MergeEvidence.UnbackedClaimIsDropped` | tools/klevar-yolo-runtime/src/recovery-merge.ts:198-202 | A bugfix that changed no product file and passed no test brings no claim of a fix; its failed status is kept as history |
| `MergeEvidence.RepairedCheckIsMarked` | tools/klevar-yolo-runtime/src/recovery-merge.ts:193-196 | The missing check of an implementation is marked as recovered |
| `MergeEvidence.SmallFlagStays` | tools/klevar-yolo-runtime/src/recovery-merge.ts:193-226 | A flag in small letters is left as it is, unless it is the failure type |
| `MergeEvidence.TestTextIsKept` | tools/klevar-yolo-runtime/src/recovery-merge.ts:158-173 | The text of the business-logic test is one of the two, never lost, and changes only with the product |
| `RecoveryMerge.MergeExistingBugfixResults` | tools/klevar-yolo-runtime/src/runtime.ts:484-492 | The loop over the bugfix files computes the fold of merges from disk |
| `RecoveryMerge.FromDiskIsFold` | tools/klevar-yolo-runtime/src/recovery-merge.ts:6-18 | That fold is the plain fold of the bugfixes since the last valid rewrite of the source manifest, onto what the rewrite left |
| `RecoveryMerge.FromDiskPasses` | tools/klevar-yolo-runtime/src/runtime.ts:484-492 | Its result has a runnable pass exactly when the last valid rewrite left it or a bugfix from then on brings it |
| `RecoveryMerge.FromDiskLosesPass` | tools/klevar-yolo-runtime/src/recovery-merge.ts:6-18 | Merging from disk loses a runnable pass exactly when the manifest is validly rewritten and neither it nor the bugfix has one |
| `RegistrationLimiting.RegistrationLimiter.Check` | src/app.rs:69-87 | Calls may come in any order of their times: it accepts whenever fewer than five accepted attempts of the full history are recent, and only then where no attempt that counts was pruned |
| `RegistrationLimiting.PruningIsHarmless` | src/app.rs:78-78 | Pruning changes nothing for a call to which none of the dropped attempts would be recent, so for any later one |
| `RegistrationLimiting.KeptIsRecent` | src/app.rs:78-78 | Where no call has pruned an attempt that still counts, what is recent in the kept list is what is recent in the full history |
| `RegistrationLimiting.InOrderIsExact` | src/app.rs:69-84 | A call no earlier than the calls of its key before it is granted exactly when fewer than five accepted attempts of the full history are recent |
| `RegistrationLimiting.AtMostFivePerWindow` | src/app.rs:51-88 | For calls in any order every window of an hour holds at most five acceptances of a key, unless three of its calls straddle the window: first an early one, then one an hour or more after it, then one within an hour of the early one |
| `RegistrationLimiting.InOrderKeepsLimit` | src/app.rs:69-87 | When the calls of a key come in the order of their times, every window of an hour holds at most five acceptances of it, whatever the order between keys |
| `RegistrationLimiting.SafeOrders` | src/app.rs:69-87 | An order of times, each called any number of times in a row, keeps the limit in every window exactly when no three of them straddle one |
| `RegistrationLimiting.RefusedOnlyWhenFull` | src/app.rs:79-84 | In any order a refusal means at least five recent acceptances in the full history, and exactly five where no attempt that counts was pruned |
| `RegistrationLimiting.ThreeTimes` | src/app.rs:70-78 | Five calls at one time, then one at a second and one at a third keep the limit exactly when the three do not straddle |
| `RegistrationLimiting.LateCallIsSixth` | src/app.rs:70-78 | It happens: five calls at 0, one an hour later and one just before that, let in in this order, are six and more acceptances within an hour |
| `Pagination.PageLimit` | src/app/classifications/listing.rs:18-18 | Every page has between 1 and 200 rows to fill |
| `Pagination.NextPageIsShorter` | src/app/classifications/listing.rs:19-28 | What the next cursor selects is exactly what the page left over |
| `Pagination.WalkIsExact` | src/app/classifications/listing.rs:11-77 | For any limit the cursor walk ends and returns the filtered rows in id order, each once |
| `Pagination.ChangingWalk` | src/app/classifications/listing.rs:11-77 | When rows come and go between pages no row is returned twice, and every row that matches in every table read is returned |
| `Pagination.WalkReturns` | src/app/classifications/listing.rs:11-77 | The walk returns exactly the rows of the tenant after the cursor, with the wanted status when one is given that is not blank |
| `AuditRendering.CsvIsRead` | src/outputs/render.rs:23-64 | A reader after section 2 of RFC 4180 that also takes LF recovers exactly the header and the four fields, whatever they hold |
| `AuditRendering.FieldIsRead` | src/outputs/render.rs:58-64 | An escaped field is read back before any field end: the end of the text, a comma or a line feed |
| `AuditRendering.EscapeIsPerCharacter` | src/outputs/render.rs:66-73 | The five chained replacements are one map over the characters |
| `AuditRendering.UnescapeInverts` | src/outputs/render.rs:66-73 | Unescaping inverts escaping |
| `AuditRendering.NoMarkupSurvives` | src/outputs/render.rs:66-73 | No angle bracket and no quote survives escaping |
| `ShellWords.SplitCommand` | tools/klevar-yolo-runtime/src/util/process.ts:98-134 | The character loop computes the words of the specification |
| `ShellWords.SplitInvertsQuote` | tools/klevar-yolo-runtime/src/worktree-sync.ts:165-167 | Splitting the space-joined quotations gives the words back exactly when no word is empty and none holds a backslash, for both ways of quoting |
| `ShellWords.SplitResolves` | tools/klevar-yolo-runtime/src/util/process.ts:98-134 | Splitting the quotations of words whose backslashes escape no single quote gives the words with each escape resolved, less the empty ones |
| `ShellWords.SplitDropsEmptyWords` | tools/klevar-yolo-runtime/src/util/process.ts:98-134 | Splitting the quotations of words without backslashes gives the words less the empty ones |
| `ShellWords.InnerQuoteAdds` | tools/klevar-yolo-runtime/src/validators/frontend-validator.ts:130-132 | Either way of writing a quote inside quotes adds exactly one quote to the word |
| `ShellWords.EmptyWordIsLost` | tools/klevar-yolo-runtime/src/util/process.ts:124-133 | An empty word anywhere among words whose backslashes escape no single quote disappears |
| `ShellWords.BackslashIsLost` | tools/klevar-yolo-runtime/src/util/process.ts:104-112 | Every backslash that escapes anything but a single quote disappears even inside single quotes, so that the word comes back shorter |

## Left out

Not modelled:

- The job path without a run id (src/classification/service.rs:87-101): the run id of a job is not null in the schema.
- The setup demo pack, which is inserted active without validation.
- HTTP handlers, authentication, hashing of keys, pages, search, telemetry, notifications, Docker and git processes.
- Parsing of JSON and YAML: documents arrive parsed, with raw and typed form related as the two parsers relate them.
- Rounding at the thresholds and in `numeric(5,4)` columns: confidence is a real.
- Races inside one transaction or one statement of the database.
- Texts of errors and recommendations, timestamps on runs, findings and traces, and the audit exports of a worker tick.
- White space and letter case outside ASCII.
- Poisoning of the limiter's lock, and the process lock of the runtime, whose acquisition is not atomic.
- Parts of batch results and batch states that no modelled decision reads (commands, risk, open explanations).
- Claim validation and loading of claims from disk; active claims are a parameter of the planner.
- Merging of project-local checks, inbox, local-only files and commit; tests enter normalised.
- Worktrees switched off, where a shard's worktree is the root and syncing does nothing.

Stated weaker than the source, or with a condition:

- RecoveryBudget: agents, gate reruns and the two excuses for a stale or contradicted validation are arbitrary answers, not modelled
  bodies, so the budget holds for more behaviours than the source has.
- RecoverGateFailure: returns the result and how the loop ended, not the flags that the source returns beside a null result.
- ValidateAdversarial: takes the two excuses for a stale or contradicted validation as one arbitrary answer.
- RunFull: asks for a positive batch size and an orderly file: open items marked `[ ]`, whose new lines do not read the file around
  them (no `` $` `` and no `$'`), and `$&` only without line ends among their spaces; no open item's text inside another line, also
  after another item is ticked; no quoted support marker, also after an item is ticked. The inbox stays empty and no agent edits the
  progress file. Phase and count scopes are not modelled.
- RunSingleBatch: gates, agents and claims of the batch are one arbitrary verdict.
- RunWorkerTick: does not model the audit exports at the end of a tick.
- SyncWorktreeChangesToRoot: works on files, not directories; changes that only `git status` lists and failures of git itself are
  not modelled, and neither is the separate syncing of local-only files.
- ActivateKeepsInv: takes activations one at a time; `CommittedActivationIsSerial` reduces concurrent ones to that.
- AtMostFivePerWindow: asks that no three calls of the key straddle a window. The source reads the clock before it takes the lock, so
  calls can be let in in such an order, and then the claim is false; `SafeOrders` shows that no other order of times is.
