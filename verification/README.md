# Windeep: verified models of its stateful protocols

Windeep drives security tools through an asyncio task scheduler, keeps what they produce in an encrypted evidence
store, and records findings, reports and progress in a handful of tables. This project models the protocols those
parts rely on and proves what they keep over whole executions. Everything is stated about the model; the Python code
itself is never executed.

`dafny verify dfyconfig.toml` checks the whole project.

## What is modelled

| files | the part of the system |
|---|---|
| `TaskGraph`, `Scheduler`, `SchedulerSafety`, `SchedulerTheorems`, `SchedulerOutcomes` | the task scheduler: graph checks, depth-first ordering, execution as a step machine over all asyncio interleavings, and how every task and `execute` itself end |
| `Pipeline`, `PipelineRuns` | the scan pipeline: compilation of a tool selection into a graph, and what every execution of it guarantees |
| `Merkle`, `EvidenceStore` | evidence sealing, and the artifact store with its keyring |
| `EvidenceLifecycle`, `EvidenceTraces`, `EvidenceSeals` | the store over any series of overlapping operations: what reads back, exactly when, and what a seal certifies |
| `AuditLog`, `ReportLifecycle` | the hash-chained log and the report lifecycle that records into it under concurrent callers |
| `ChainBuilder`, `Redaction` | path enumeration, span selection and text rebuild |
| `RateGovernor`, `RateGovernorRuns` | token buckets, and callers that share them while policies are set |
| `Migrations`, `EventLog`, `FindingWriter`, `Dedup` | persistence: migrations with rollback, replayable events, findings and their dedup stage |
| `Checkpoints`, `CheckpointRuns` | resumable stages: one driver with its crashes, and any interleaving of callers |
| `Budget`, `BudgetRuns` | the budgets of a scan: one caller, and overlapping charges |
| `EventBus`, `IncludeLoader`, `ToolRetry` | drop-oldest delivery, nested tool configuration, backend and retry loops |
| `SubmissionWorkflow`, `SubmissionRuns` | the bug-bounty workflow, and one submission under overlapping calls |
| `Wrappers`, `Sorting`, `Arithmetic`, `Text`, `Encoding` | results, stable sorting, exact rounding, `str.strip`; that the assumptions on hashes can be met |

Code that changes state step by step is a class or a method with a loop, specified by a function of its old state;
the properties are lemmas about those functions. Concurrent code is a step machine: one step is what one task, thread
or transaction does between two suspension points, and the lemmas hold for every order of steps.

Conventions and assumptions:

- A hash is any injective function into unbounded numbers (`Encoding.StoreIdealExists` and `Encoding.LogIdealExists`
  show that there are such functions); authenticated encryption is a tagged value that opens only under the same key and
  associated data; compression loses nothing. JSON encoding is injective.
- Semaphores are asyncio's: a counter and a first-in-first-out queue. Publishing an event from the scheduler is taken
  not to suspend, and `gather` may surface any finished failing task first.
- A transaction is one step, and so is a query outside one; a transaction begins with an explicit BEGIN or with the first
  statement that writes. The custody records that an operation appends belong to one of its steps. Times are parameters;
  rates and scores are exact reals, with Python's rounding written out in `Arithmetic.RoundTo`.
- A report call names a submission whose `create` has returned.

Where the code does not do what one would expect, the code is kept and the case is stated:

- `Merkle.RootAloneIsNotEnough`: the root does not fix the leaves without their number.
- `EvidenceLifecycle.PutOverlappingDelete`: a `put` that overlaps a deletion leaves a live row that no key can open;
  without overlap a row reads back exactly when it is live (`LiveMeansReadable`).
  Over all runs a row reads back exactly when no tombstoning came after its insert and no key destruction after its put
  had the key (`EvidenceTraces.ReadableExactly`).
- `EvidenceSeals.OverlappedSeal`: a seal covers the artifacts of one moment and the flows of a later one, not what the scan
  holds when its root is recorded; `MixedSeal` is a seal over what the evidence never was, `UndisturbedSeal` the case in
  which it is that of one moment.
- `RateGovernorRuns.OneBucketExactly`: after a policy is set, callers that sleep on the key's older bucket go on drawing
  from it. A key's traffic goes through one bucket exactly when no caller holds an older one. Then its burst and rate
  bound it (`KeyWindowBound`); otherwise, where the shared burst leaves room, they do not (`TwoBucketsExceed`).
- `RateGovernorRuns.ChargedThenRefused`: a cost between a key's burst and the shared burst, and only such a cost, is
  charged to the shared bucket and then refused. `RateGovernorRuns.SetPolicyRefills`: setting a policy hands out a full
  bucket.
- `Migrations.KeptTable`: the shipped rollback does not undo its migration, it keeps the table. So the database of a run is
  stated up to an equivalence that the scripts respect, and the ledger without any assumption on scripts.
- `Migrations.VersionZeroBlocks`: a file of version zero makes every plan fail, so consistency is stated for files
  numbered from one.
- `ReportLifecycle.RefusedButAudited`: a refused transition can have an audit record. An audited transition gets its
  event row exactly when no other commit of its submission took effect since it read (`CommitAddsRow`), so always when
  transitions of a submission do not overlap (`AloneAlwaysRecorded`).
- `CheckpointRuns.OverlapCallsAgain`: a stage's callback can be called after its checkpoint was written, exactly when its
  lookup came before that write (`LateExactlyWhenOverlapped`); never for a scan whose calls do not overlap
  (`StagesRunOnce`).
- `CheckpointRuns.OverlapBreaksOrder`: overlapping commits of one scan can write their stages out of order, exactly when
  one is overtaken by a later stage between its read and its insert (`CheckpointsIncrease`).
  `Checkpoints.ReplayReturnsPayload`: a replayed stage returns what its callback returned exactly when that was a mapping.
- `SubmissionRuns.OverlapMovesTimestamp` and `OverlapLeavesTerminal`: overlapping workflow transitions can overwrite a
  write-once timestamp and leave a terminal status; `TimestampSurvives` and `TerminalSurvives` say exactly when they do.
- `BudgetRuns.OverlapOverspends` and `OverlapHidesExcess`: overlapping charges of artifact bytes or tokens are lost, so a
  scan can spend more than its limit, and a scan whose budget is exceeded can still be marked complete; `UsageExact` and
  `IncompleteStays` say exactly when, `LimitHolds` and `ExceededNeverComplete` that it takes overlapping calls.
- `SubmissionWorkflow.BlankCurrencyStored`: the currency is checked before it is stripped, so a blank one is accepted
  with a bounty and stored as empty text.
- All records of one fingerprint carry one finding id, so every duplicate that the dedup stage reports names the same
  id as its primary (`Dedup.Dedup`).

## Model

| member | source | states |
|---|---|---|
| TaskGraph.Sorter.Visit | app/engine/scheduler.py:228-238 | the recursive visit terminates, keeps the emitted order dependency-first and free of repeats, and fails only on a cycle |
| TaskGraph.Order | app/engine/scheduler.py:223-242 | ordering fails exactly when some task depends on itself through others; otherwise every task appears once, after all its dependencies |
| TaskGraph.OrderedIsAcyclic | app/engine/scheduler.py:223-242 | a dependency-first listing of all tasks exists only for a graph without cycles |
| TaskGraph.Collect | app/engine/scheduler.py:201-215 | the per-task checks pass exactly on well-formed tasks of distinct names, and a refusal names a real defect |
| TaskGraph.CheckDependencies | app/engine/scheduler.py:216-219 | passes exactly when every dependency names a task, and a refusal names a missing one |
| TaskGraph.Validate | app/engine/scheduler.py:201-221 | a task list is accepted exactly when specs are well formed, names distinct, dependencies present and the graph acyclic; every refusal is justified by the list |
| SchedulerSafety.InitInv | app/engine/scheduler.py:106-112 | the initial state satisfies the invariant: slot counters, queues, settled dependencies, accounting |
| SchedulerSafety.DoneStays | app/engine/scheduler.py:114-164 | a finished task never changes again |
| SchedulerSafety.StepDependencies | app/engine/scheduler.py:117-127 | each step keeps: whoever has awaited a dependency was handed exactly how it ended, and it was allowed to go on |
| SchedulerSafety.StepOutcomes | app/engine/scheduler.py:144-158 | each step keeps: outcome, recorded status and stored result of a task fit its error policy |
| SchedulerSafety.StepSlots | app/engine/scheduler.py:136-143 | each step keeps: free slots plus holders equal each cap, and each queue holds exactly its waiters, once |
| SchedulerSafety.StepAccounting | app/engine/scheduler.py:159-166 | each step keeps: the completed weight is the sum over accounted tasks, and published progress never decreases |
| SchedulerSafety.StepInv | app/engine/scheduler.py:114-191 | every enabled step of every task or of `execute` itself keeps the whole invariant |
| SchedulerTheorems.ReachableInv | app/engine/scheduler.py:106-191 | the invariant holds in every state any interleaving can reach |
| SchedulerTheorems.DependenciesBeforeRunning | app/engine/scheduler.py:117-133 | a task past its dependency wait has every dependency finished, and received exactly their outcomes and nothing else |
| SchedulerTheorems.FailureStopsDependents | app/engine/scheduler.py:118-127 | a task whose dependency was cancelled, or raised without continue-on-error, never starts, holds no slot and never succeeds |
| SchedulerTheorems.CapsRespected | app/engine/scheduler.py:136-140 | holders never exceed the global or the per-tool cap, and a running task holds both slots |
| SchedulerTheorems.NoDeadlock | app/engine/scheduler.py:136-143 | until `execute` has ended some step other than an outside cancellation is enabled, whatever the nesting of slots and dependency waits |
| SchedulerTheorems.RunsAreBounded | app/engine/scheduler.py:168-191 | no execution is longer than two steps plus, per task, six and its number of dependencies |
| SchedulerTheorems.StuckMeansEnded | app/engine/scheduler.py:168-191 | an execution that cannot go on has ended, and then every task is finished and every slot and queue is as at the start |
| SchedulerTheorems.ProgressNeverGoesBack | app/engine/scheduler.py:159-166 | published progress stays within 0..100 and never decreases, in any interleaving |
| SchedulerTheorems.NormalReturn | app/engine/scheduler.py:168-191 | on normal return every task has a result, is completed or failed with continue-on-error, and the last progress is 100 |
| SchedulerOutcomes.OutcomeDecided | app/engine/scheduler.py:117-158 | in every interleaving a finished task ended as its runner did, its exception returned exactly under continue-on-error and raised otherwise, unless a cancellation was delivered to it; a task that never ran was cancelled, or ended as the first dependency that did not let it go on |
| SchedulerOutcomes.ResultsAndStatus | app/engine/scheduler.py:128-158 | in every interleaving a task has a stored result exactly when its runner returned a value or failed under continue-on-error, and then that value or exception; its status tells how far it came and how its runner ended |
| SchedulerOutcomes.EndsExactly | app/engine/scheduler.py:168-191 | an execution without cancellations that cannot go on has returned, or raised a failure, the latter exactly when some runner failed whose task does not continue on error |
| SchedulerOutcomes.NothingIsLost | app/engine/scheduler.py:144-191 | when every task continues on error, no task of an execution without cancellations is cancelled or raises, and `execute` gathers until it returns |
| SchedulerOutcomes.LimitsInPlainTerms | app/engine/scheduler.py:136-143 | any set of tasks running at once is no larger than the global limit, and those running under one tool key no more than its limit, else the limit for every tool, else one |
| SchedulerOutcomes.SlotsAreUsed | app/engine/scheduler.py:136-143 | no slot is left idle: while a task waits for the global or its tool's slot, some task can take one at once or exactly as many hold one as the limit allows |
| SchedulerOutcomes.FirstComeFirstServed | app/engine/scheduler.py:136-143 | in every interleaving slots are handed out in the order in which they were asked for: of two tasks that wait for a global slot, or for one of the same tool, the one that can take it asked first |
| SchedulerOutcomes.ProgressIsPercentage | app/engine/scheduler.py:159-166 | the newest published number is a multiple of a hundredth within half a hundredth of the accounted part of the total weight in percent |
| Pipeline.BuildToolNodes | app/v2_pipeline.py:144-176 | the two loops produce one node per selected tool in name order; each waits for exactly the selected passive tools if its category waits and for nothing otherwise, and its class fixes resource class, timeout and number of tries within their bounds |
| Pipeline.TasksTold | app/v2_pipeline.py:710-728 | the task list of a scan: a continuing task for each tool in name order, capped under the tool's name, then dedup behind all tools and chain, rank and hypothesis each behind the one before |
| Pipeline.CompiledAcyclic | app/v2_pipeline.py:710-728 | the compiled graph has no cycle, for any selection |
| Pipeline.CompiledGraphAccepted | app/v2_pipeline.py:144-176 | the scheduler accepts the compiled graph exactly when no tool was selected twice |
| PipelineRuns.WrapperWaitsForPassiveRecon | app/v2_pipeline.py:448-453 | a started waiting tool passes its dependency check, and so may invoke its wrapper, exactly when every selected passive tool succeeded |
| PipelineRuns.SuccessNeedsPassiveRecon | app/v2_pipeline.py:511-525 | a waiting tool succeeds only after every selected passive tool succeeded |
| PipelineRuns.DedupAfterAllTools | app/v2_pipeline.py:636-642 | dedup starts only when every selected tool is finished and none was cancelled |
| PipelineRuns.StagesInOrder | app/v2_pipeline.py:710-715 | a stage starts after the one before it is finished, and its value rests on a value of that one |
| PipelineRuns.HypothesisMeansWholeChain | app/v2_pipeline.py:699-736 | a hypothesis result means all four stages produced values and every tool had finished |
| PipelineRuns.FailuresNeverAbort | app/v2_pipeline.py:124-133 | failures of tools or stages never make `execute` raise: without a cancellation it gathers until it returns, and a scan that cannot go on has returned |
| PipelineRuns.EveryRunnerCounts | app/v2_pipeline.py:124-133 | in a scan without a cancellation every finished tool or stage was run, and its value or its exception is its stored result, whatever the others did |
| Merkle.NextLayer | app/evidence/raw_store.py:51-54 | one pass pads an odd layer with its last node and hashes neighbours |
| Merkle.MerkleRoot | app/evidence/raw_store.py:47-55 | the layer loop terminates and computes the top of the sorted leaves |
| Merkle.RootFixesLeaves | app/evidence/raw_store.py:47-55 | for lists of equal length the roots agree exactly when the leaves are the same multiset |
| Merkle.RootAloneIsNotEnough | app/evidence/raw_store.py:52-53 | repeating the greatest of three leaves leaves the root unchanged |
| EvidenceStore.RawArtifactStore.Rotate | app/evidence/raw_store.py:77-92 | retires the scan's active key and adds one, or refuses a repeated key id and changes nothing |
| EvidenceStore.RawArtifactStore.Ensure | app/evidence/raw_store.py:65-75 | returns the scan's active key, or rotates when there is none |
| EvidenceStore.RawArtifactStore.SealChunks | app/evidence/raw_store.py:193-201 | the slicing loop seals exactly the chunks the content splits into, in order |
| EvidenceStore.RawArtifactStore.Put | app/evidence/raw_store.py:167-239 | stores new content under the active key or returns the row already holding its hash, tombstoned or not |
| EvidenceStore.RawArtifactStore.ReadNoAudit | app/evidence/raw_store.py:271-303 | the chunk loop returns exactly what the specified decoding gives, with the source's error for each fault |
| EvidenceStore.RawArtifactStore.ReadFor | app/evidence/raw_store.py:305-327 | a successful read or export leaves one custody record, a failed one changes nothing |
| EvidenceStore.RawArtifactStore.DeleteScanEvidence | app/evidence/raw_store.py:549-583 | tombstones the scan's artifacts, records each, destroys its keys, and touches no other scan |
| EvidenceStore.RawArtifactStore.SealScan | app/evidence/raw_store.py:506-526 | records root and count of the live evidence |
| EvidenceStore.RawArtifactStore.VerifyScanRoot | app/evidence/raw_store.py:528-537 | compares count and root with the last seal |
| EvidenceStore.FlowCount | app/evidence/raw_store.py:500-504 | a digest is among a scan's flow leaves exactly as often as flow rows of that scan hold it |
| EvidenceStore.LiveCount | app/evidence/raw_store.py:494-499 | and among its artifact leaves exactly as often as rows of that scan that are not tombstoned hold it |
| EvidenceStore.DeletionsAreLive | app/evidence/raw_store.py:549-571 | the records of a deletion are one for each live row of the scan, in order |
| EvidenceStore.ConcatSplit | app/evidence/raw_store.py:193-193 | joining the chunks of any content gives the content back |
| EvidenceStore.DecodeEncode | app/evidence/raw_store.py:280-303 | decoding the encoded chunks under the same key, scan and hash gives them back |
| EvidenceLifecycle.ReadByScan | app/evidence/raw_store.py:271-303 | in a consistent store, reading a scan's content by hash gives it exactly when its row is live and its key exists, else the error that says why |
| EvidenceLifecycle.SuccessIsExact | app/evidence/raw_store.py:280-303 | from any tables, corrupted ones included, a successful read by a content's hash returns exactly that content |
| EvidenceLifecycle.EveryRunReadsExactly | app/evidence/raw_store.py:58-303 | after any series of operations, overlapping ones cut at their transactions included, a scan has at most one active key, no hash twice, and reads are exact |
| EvidenceLifecycle.PutIsItsParts | app/evidence/raw_store.py:182-240 | a put that nothing overlaps is its transactions one after another: look up the row, find or make the key, insert; afterwards nothing of it is under way |
| EvidenceLifecycle.SealIsItsParts | app/evidence/raw_store.py:494-526 | so is a seal: the artifacts' hashes, the flows' hashes, the root |
| EvidenceLifecycle.ContentSurvives | app/evidence/raw_store.py:167-303 | live content reads back exactly after any run, overlapping or not, that does not delete its own scan |
| EvidenceLifecycle.DeletedStaysDeleted | app/evidence/raw_store.py:182-190 | deleted content never reads again, re-putting the same bytes included |
| EvidenceLifecycle.LiveMeansReadable | app/evidence/raw_store.py:549-583 | without overlap a row reads back exactly when it is not tombstoned |
| EvidenceLifecycle.PutOverlappingDelete | app/evidence/raw_store.py:186-239 | a put cut by a deletion leaves a live row, counted by the next seal, that cannot be read |
| EvidenceLifecycle.OverlappedRead | app/evidence/raw_store.py:255-303 | a read cut at its three queries by any operations gives the exact content exactly when the row was live when found and its key there when looked up |
| EvidenceTraces.ReadableExactly | app/evidence/raw_store.py:167-303 | in every run, overlapping operations included, a stored content reads back exactly when its scan was not tombstoned after the row's insert and its keys not destroyed after the put had one |
| EvidenceLifecycle.EnsureNeverFindsDestroyed | app/evidence/raw_store.py:65-75 | an active key row always still has its key |
| EvidenceSeals.VerifyMeansUnchanged | app/evidence/raw_store.py:494-537 | after a seal and anything that does not seal the scan again, verification succeeds exactly when every digest is held by as many live artifact rows and flow rows of the scan together as at the seal |
| EvidenceSeals.NewFlowBreaksSeal | app/evidence/raw_store.py:500-537 | a flow captured after the seal makes verification fail, whatever else happens to other scans or other flows, as long as nothing of the scan is deleted or sealed again |
| EvidenceSeals.OverlappedSeal | app/evidence/raw_store.py:494-537 | a seal and a verification that other operations overlap at every query: it succeeds exactly when of every digest the artifact rows and flow rows that the two read, each at its own moment, are equally many together |
| EvidenceSeals.UndisturbedSeal | app/evidence/raw_store.py:494-537 | when no flow of the scan is captured between its two queries an overlapped seal certifies the evidence as it was when it began |
| EvidenceSeals.MixedSeal | app/evidence/raw_store.py:494-526 | a deletion and a captured flow between the two queries make a seal over what the evidence never was, which fails right after it is recorded |
| EvidenceSeals.SealVerifies | app/evidence/raw_store.py:506-537 | right after sealing, verification succeeds |
| EvidenceSeals.DeleteBreaksSeal | app/evidence/raw_store.py:528-583 | deleting a sealed scan leaves the seal verifying exactly when nothing live had been sealed |
| AuditLog.Log.LastHashUnlocked | app/security/audit.py:49-60 | the last record's hash, genesis for an empty log, or none for an unreadable one |
| AuditLog.Log.Append | app/security/audit.py:29-47 | adds one linked record, or refuses a blank event or an unreadable log and changes nothing |
| AuditLog.Log.VerifyChain | app/security/audit.py:62-83 | succeeds exactly on a chained log with its full record count, else counts the records before the first fault |
| AuditLog.VerifiesAppended | app/security/audit.py:62-83 | a log extended by a line verifies exactly when it did before and the line is empty or the next link |
| AuditLog.FaultStays | app/security/audit.py:62-83 | every prefix of a verifying log verifies |
| AuditLog.BuiltLogVerifies | app/security/audit.py:29-83 | every log built by any series of append calls verifies, and holds exactly the records of the calls that name an event, in order |
| AuditLog.LastHashFixesRecords | app/security/audit.py:29-83 | two verifying logs with the same last hash hold the same records |
| ReportLifecycle.StepKeeps | app/submissions.py:278-385 | every step of every interleaved call keeps the invariant tying rows, events, audit records and calls together |
| ReportLifecycle.HistorySpellsStatus | app/submissions.py:278-385 | a created submission's history spells draft, queued, ... up to its stored status, and each row's hash is that of an audit record of the same move |
| ReportLifecycle.NoStateTwice | app/submissions.py:331-385 | no state is entered twice |
| ReportLifecycle.StatusMovesForward | app/submissions.py:331-385 | one step moves a submission by at most one stage and never back |
| ReportLifecycle.CommitAddsRow | app/submissions.py:345-385 | in every interleaving an audited transition that commits adds its event row exactly when no other commit of its submission took effect since its read; otherwise it changes neither rows nor events |
| ReportLifecycle.CommitWritesRow | app/submissions.py:358-385 | a commit that takes effect writes the next status and the external id and URL it is given, keeps those it is not given, and touches no other row |
| ReportLifecycle.WholeCreate | app/submissions.py:278-323 | a whole create leaves a draft under a new id, one audit record and one event row naming it, and nothing else; when its audit raises only a used id is left |
| ReportLifecycle.WholeTransition | app/submissions.py:331-385 | a whole transition is refused without a trace exactly when the status asked for is not the next stage; otherwise it moves the row and leaves one audit record and one event row naming it |
| ReportLifecycle.WholeAbandoned | app/submissions.py:358-373 | a transition whose audit raises changes nothing |
| ReportLifecycle.StepSpares | app/submissions.py:278-385 | no step changes what a submission is for, or takes back an audit record or an event row; only a commit on it changes its row |
| ReportLifecycle.AloneAlwaysRecorded | app/submissions.py:345-385 | when transitions of a submission never overlap, every audited one that commits has its event row |
| ReportLifecycle.RefusedButAudited | app/submissions.py:358-373 | of two callers that read the same status both are audited and one is refused without an event row |
| ReportLifecycle.RefusedFromStart | app/submissions.py:278-385 | that happens in a run from the empty tables |
| ChainBuilder.AllChainsExact | app/brain/chain_builder.py:124-155 | the search lists, once each, exactly the chains of at least two kept edges that visit no finding twice and hold at most `max_depth` findings |
| ChainBuilder.ListedIsRendered | app/brain/chain_builder.py:140-151 | what the recursion appends is the rendering of exactly the chains below its arguments, in order |
| ChainBuilder.ScoresShrink | app/brain/chain_builder.py:140-151 | with weights in 0..1 the rounded score of a longer chain is in 0..1 and never above that of one it extends |
| ChainBuilder.ScoreIsProduct | app/brain/chain_builder.py:140-151 | the score of a chain is the product of the weights of its edges |
| ChainBuilder.JoinedScore | app/brain/chain_builder.py:140-151 | the score of a single edge is its weight, and that of two chains joined is the product of theirs |
| ChainBuilder.KeptExact | app/brain/chain_builder.py:134-137 | the kept edges are exactly those of at least the minimum weight, in order |
| ChainBuilder.PathSearch.Walk | app/brain/chain_builder.py:140-151 | terminates, and appends to the shared list exactly the chains that extend the current one |
| ChainBuilder.BuildGraph | app/brain/chain_builder.py:134-137 | keeps the edges of sufficient weight and groups them by source in order |
| ChainBuilder.FindPaths | app/brain/chain_builder.py:124-155 | refuses a depth below two, else returns one path for each chain, ranked by descending score, then ids: its ids and edge types spell the chain, and its score is a multiple of 1/10000 within 1/20000 of the product of the weights |
| ChainBuilder.Normalize | app/brain/chain_builder.py:157-188 | of the first twice `max_edges` items, keeps the first admissible one of each source, target and type, in order, until `max_edges` are kept; no kept edge leads to itself or to an unknown finding, and short of the limit every admissible one is kept or repeats a kept one |
| RateGovernor.TokenBucket.Refill | app/security/rate_governor.py:31-35 | tokens grow with elapsed time and stay within the burst |
| RateGovernor.TokenBucket.TryAcquire | app/security/rate_governor.py:37-53 | one turn of the loop: refuses an impossible cost, else charges or tells the delay |
| RateGovernor.TokensAccounted | app/security/rate_governor.py:24-53 | tokens left plus cost granted never exceed the start plus what time brought, and stay within 0..burst |
| RateGovernor.WindowBound | app/security/rate_governor.py:24-53 | in any window the cost granted is at most burst plus rate times the window's length |
| RateGovernor.LoneWaiterSucceeds | app/security/rate_governor.py:47-53 | a lone waiter that comes back finds enough tokens exactly when it has slept the delay it was told |
| RateGovernor.RateGovernor.SetPolicy | app/security/rate_governor.py:72-78 | stores the policy and drops the key's bucket, or refuses an empty key |
| RateGovernor.RateGovernor.TryGlobal | app/security/rate_governor.py:80-90 | one turn on the shared bucket leaves all key buckets alone |
| RateGovernor.RateGovernor.Bucket | app/security/rate_governor.py:92-101 | the key's bucket on the map, made full with the key's policy on first use |
| RateGovernorRuns.BucketsSeeTheirHolders | app/security/rate_governor.py:80-101 | in every run each bucket object has seen exactly the attempts of the callers that took turns on it: all callers on the shared one, only callers of its key on any other |
| RateGovernorRuns.CallerProtocol | app/security/rate_governor.py:80-90 | every caller in every interleaving: it waits on the shared bucket until that grants, then resolves the key's bucket, then waits on that one until it grants; it leaves only granted there, refused by that bucket's cost check, or cancelled |
| RateGovernorRuns.ObjectWindowBound | app/security/rate_governor.py:24-53 | in any window of any run one bucket object grants at most its burst plus its rate times the window's length; on the shared one that bounds all keys together |
| RateGovernorRuns.OneBucketExactly | app/security/rate_governor.py:72-101 | until its policy is set again all of a key's traffic goes through one bucket, in every continuation, exactly when no caller still holds an older one |
| RateGovernorRuns.KeyWindowBound | app/security/rate_governor.py:72-101 | then everything granted to the key in a window is at most its burst plus its rate times the window's length |
| RateGovernorRuns.TwoBuckets | app/security/rate_governor.py:80-90 | a caller on an older bucket and a new caller of the key are granted in the same instant by different buckets, with no policy being set |
| RateGovernorRuns.OlderHolderReached | app/security/rate_governor.py:72-90 | from the start a caller comes to hold an older bucket: it resolves the key's bucket and then the policy is set |
| RateGovernorRuns.TwoBucketsExceed | app/security/rate_governor.py:80-90 | with room on the shared bucket such callers are granted more than the key's burst in a window of no length |
| RateGovernorRuns.SetPolicyRefills | app/security/rate_governor.py:72-78 | setting a policy makes the next caller's bucket a new, full one, and splits the key's traffic exactly when some caller holds a bucket of the key |
| RateGovernorRuns.ChargedThenRefused | app/security/rate_governor.py:80-90 | of the callers charged on the shared bucket exactly those whose cost is above the key's burst are then refused |
| Redaction.Select | app/evidence/redaction.py:78-85 | the loop takes each sorted candidate that starts at or after the last end |
| Redaction.ChosenExact | app/evidence/redaction.py:78-85 | chosen spans are nonempty, ordered, disjoint, each the leftmost longest candidate still open, and at the end none is open |
| Redaction.ChosenMaximal | app/evidence/redaction.py:78-85 | every nonempty candidate overlaps a chosen span |
| Redaction.ChosenIgnoresOrder | app/evidence/redaction.py:78-85 | the choice does not depend on the order of the candidates |
| Redaction.Redact | app/evidence/redaction.py:87-108 | the rebuild loop keeps the text between spans and puts in place of each span a placeholder of its rule, numbered by the spans of that rule so far |
| Redaction.OccurrencesCount | app/evidence/redaction.py:87-108 | the number of a placeholder counts the earlier spans of its rule |
| Redaction.RedactionRestores | app/evidence/redaction.py:87-108 | the map entries and the removed pieces rebuild the original text, whatever the placeholders look like |
| Migrations.Discover | app/migrations.py:112-135 | succeeds exactly on well-named files of distinct versions, lists them in order, and a refusal names a real defect |
| Migrations.Plan | app/migrations.py:137-156 | refused exactly for a changed checksum or a file behind the current version, else the files ahead of it |
| Migrations.MigrationManager.Apply | app/migrations.py:162-176 | applies the plan file by file; a failing script keeps what came before it |
| Migrations.MigrationManager.RollbackTo | app/migrations.py:178-225 | reverts newest first in one transaction; succeeds only for a target between zero and the current version with every down script above it present and accepted; any missing, rejected or failing script changes nothing |
| Migrations.RollbackChecks | app/migrations.py:178-232 | a rollback that succeeds had a target between zero and the current version and every script of a row above it present and accepted; one refused for a script names such a row whose script is missing or rejected |
| Migrations.PlanAtVersion | app/migrations.py:137-156 | with the ledger of the first k files nothing refuses the plan and it is exactly the rest |
| Migrations.RollbackAtVersion | app/migrations.py:178-225 | with down scripts that return up to an equivalence, a rollback reaches the state of the files up to its target, or changes nothing; where they also run, only a missing or rejected one stops it |
| Migrations.EveryLedgerIsPrefix | app/migrations.py:162-225 | whatever scripts and application do to the database, after any applies, crashes between migrations, re-applies and rollbacks the ledger holds exactly the first so many files |
| Migrations.EveryRunConsistent | app/migrations.py:162-225 | and, up to an equivalence that scripts and application respect at the folded states, the database is the fold of exactly the ledger's files |
| Migrations.ExactCase | app/migrations.py:178-225 | for down scripts that undo their up scripts the equivalence can be equality, so the database is exactly the fold |
| Migrations.KeptTable | app/data/migrations_down/0008_p8_schema_compatibility.sql:1-3 | the shipped down script, which keeps its table, does not undo its up script but respects the equivalence that ignores an empty table |
| Migrations.LedgerIsPrefix | app/migrations.py:162-225 | in every run the ledger holds exactly the discovered versions up to the current one, with no assumption on scripts |
| Migrations.ApplyAfterRollbackRestores | app/migrations.py:162-225 | after a rollback, re-applying what it reverted restores ledger and database up to the equivalence, and applying everything ends as it would have without it |
| Migrations.VersionZeroBlocks | app/migrations.py:137-156 | a file of version zero makes every plan fail, so no migration is ever applied |
| EventLog.ScanEventLog.Append | app/v2_pipeline.py:203-217 | numbers the event one past its scan's last, or refuses an unknown type |
| EventLog.ScanEventLog.ListAfter | app/v2_pipeline.py:219-236 | returns the bodies exactly when numbers run on from the cursor and payloads open, each stored under its scan and number, else the first fault |
| EventLog.AppendKeepsNumbering | app/v2_pipeline.py:203-217 | appending for any scan keeps every scan numbered 1, 2, ... |
| EventLog.ReadsAreExact | app/v2_pipeline.py:219-236 | a read from any cursor reports no gap and returns exactly the next events, up to the limit |
| EventLog.LogHoldsAsked | app/v2_pipeline.py:203-217 | after any run the log holds for every scan exactly the events of supported type that calls asked for, in order and numbered from one |
| EventLog.ReaderReceivesInOrder | app/v2_pipeline.py:203-236 | across any appends and reads what a reader has received is a prefix of the events that calls of supported type asked to log for its scan, in order and each once |
| EventLog.ReadTakesLimit | app/v2_pipeline.py:219-236 | its next read takes as many events as the limit allows, and with a limit above the backlog all of them |
| FindingWriter.FindingBatchWriter.PersistBatch | app/v2_pipeline.py:263-380 | one transaction inserts unknown fingerprints, upserts the rows, and reports id and first-time mark of every item |
| FindingWriter.PersistGood | app/v2_pipeline.py:263-380 | persisting keeps one id per fingerprint and one row per scan, tool run and fingerprint, and changes no id |
| FindingWriter.PersistStores | app/v2_pipeline.py:302-380 | of every fingerprint of a batch the item with the greatest title, then endpoint, and the last of those, replaces what was stored for the scan and run; every other row stays and no other comes |
| FindingWriter.PersistInOrder | app/v2_pipeline.py:302-380 | fingerprints found first in one batch get their ids in the order of the fingerprints |
| FindingWriter.IdsForever | app/v2_pipeline.py:263-380 | across any batches every fingerprint persisted has an id, keeps it, and distinct ones stay distinct |
| FindingWriter.PersistAgain | app/v2_pipeline.py:263-380 | persisting a batch again, whatever came between, adds no finding and no row and marks nothing created |
| Dedup.Partition | app/v2_pipeline.py:643-658 | the loop computes the first record of each fingerprint, their order, and a duplicate for every other record |
| Dedup.ReadInOrder | app/v2_pipeline.py:382-392 | the stage's own sort finds the rows already in order, so the tool run decides within a fingerprint |
| Dedup.RowsOfExact | app/v2_pipeline.py:382-392 | the rows read are exactly those of the scan, each as often as it is stored |
| Dedup.Dedup | app/v2_pipeline.py:636-660 | over the stored rows of the scan: every primary is one of them, there is one per fingerprint in order, each from the lowest tool run; of each fingerprint there is one duplicate for every further row, carrying its one id twice |
| Checkpoints.ScanResumeCoordinator.Commit | app/ops/runtime.py:57-76 | inserts a later stage, ignores one already there, refuses an unknown or regressing one |
| Checkpoints.CommitDecides | app/ops/runtime.py:57-76 | a commit is refused exactly for a name outside the eight stages and for a stage that is missing and behind the scan's newest row; otherwise it adds the row exactly when the stage is missing |
| Checkpoints.ScanResumeCoordinator.RunStage | app/ops/runtime.py:78-88 | calls back exactly when the stage has no checkpoint, and otherwise returns the stored payload |
| Checkpoints.ScanResumeCoordinator.Attempt | app/ops/runtime.py:78-88 | one life of a driver completes the stages up to where it dies, calling back only for those not held |
| CheckpointRuns.StagesWrittenOnce | app/ops/runtime.py:57-88 | in every interleaving, restarts included, no stage of a scan is written twice |
| CheckpointRuns.WholeStage | app/ops/runtime.py:78-88 | a `run_stage` that nothing overlaps is its steps one after another |
| CheckpointRuns.WholeCommit | app/ops/runtime.py:57-76 | so is a commit |
| CheckpointRuns.LateExactlyWhenOverlapped | app/ops/runtime.py:78-88 | in every interleaving a callback is called after its checkpoint was written exactly when its lookup came before that write |
| CheckpointRuns.StagesRunOnce | app/ops/runtime.py:78-88 | when the calls on a scan do not overlap, restarts included, no callback is called after its stage's checkpoint is written |
| CheckpointRuns.OverlapCallsAgain | app/ops/runtime.py:78-88 | of two overlapping calls of one stage the second is called back after the first wrote the checkpoint |
| CheckpointRuns.ScanClimbs | app/ops/runtime.py:57-76 | in every interleaving a scan's checkpoints climb the stage order exactly when none of its commits was overtaken |
| CheckpointRuns.CheckpointsIncrease | app/ops/runtime.py:57-76 | the checkpoints of all scans climb strictly exactly when no commit had a later stage of its scan written between its read and its insert |
| CheckpointRuns.OneAtATimeClimbs | app/ops/runtime.py:57-76 | so when the calls on a scan do not overlap its checkpoints climb |
| CheckpointRuns.OverlapBreaksOrder | app/ops/runtime.py:57-76 | two overlapping commits can write stages out of order |
| Checkpoints.LivesKeepPrefix | app/ops/runtime.py:40-105 | however often the driver dies, its scan holds exactly the stages up to the furthest point, in order, and nothing written changes |
| Checkpoints.StagesReached | app/ops/runtime.py:40-105 | after any lives a stage is held exactly when it was at the start or some life died in a later one |
| Checkpoints.DriverCommitsAll | app/ops/runtime.py:40-105 | one life without a crash ends with all eight stages, in order |
| Checkpoints.ReplayReturnsPayload | app/ops/runtime.py:57-88 | from any rows, a stage whose callback was called is held exactly when it is ahead of the scan's newest, and its replay returns the callback's value exactly when that is a mapping |
| EventBus.EventBus.Publish | app/engine/event_bus.py:76-97 | every matching registered queue gets the event, dropping its oldest when full; no other changes; refusals change nothing |
| EventBus.EventBus.Subscribe | app/engine/event_bus.py:99-113 | registers an empty queue for a valid pattern on an open bus |
| EventBus.EventBus.Take | app/engine/event_bus.py:114-117 | takes the oldest queued event of one subscriber only |
| EventBus.PublishRefines | app/engine/event_bus.py:76-97 | without the histories kept for the proofs a publishing step is what the bus does |
| EventBus.StepTold | app/engine/event_bus.py:64-129 | every step is one call that succeeds: when it can happen, what it does to each subscriber, and what its history then says was offered and taken |
| EventBus.TopicRule | app/engine/event_bus.py:47-54 | a topic is valid exactly when it lies under one of the seven roots and, to be published, has no wildcard character |
| EventBus.LossTolerantDelivery | app/engine/event_bus.py:76-141 | after any interleaving each queue is the newest block of its matching events, what was taken is in publish order without repeats, and a lost event has a full queue of newer ones |
| EventBus.DropsOnlyWhenFull | app/engine/event_bus.py:131-141 | publishing drops an event exactly when the queue is full, and then only the oldest |
| EventBus.KeptUpMissesNothing | app/engine/event_bus.py:131-141 | without a drop, taken plus queued is everything offered; up to a queue's worth nothing is dropped |
| IncludeLoader.SoundStep | app/engine/tool_wrapper.py:588-616 | a file's include tree is sound exactly when the file is new and readable and each include is sound below it |
| IncludeLoader.ToolWrapperFactory.LoadDefinitions | app/engine/tool_wrapper.py:588-616 | terminates; succeeds exactly on a tree without cycle, unreadable file or repeated name, then returns exactly the union; every refusal names a real defect |
| IncludeLoader.LoadRegistry | app/engine/tool_wrapper.py:531-534 | the registry loads exactly when in addition some tool is defined |
| ToolRetry.TryBackend | app/engine/tool_wrapper.py:364-440 | the retry loop stops at the first attempt that does not fail retryably, or uses up its tries |
| ToolRetry.RunWithEvidence | app/engine/tool_wrapper.py:357-444 | the calls go through the backends in order, each as often as retries allow, up to the first decisive attempt, which gives the result; otherwise all were made, each backend is reported in order with its last failure, and the newest captured output is kept |
| ToolRetry.DecisiveIsUnique | app/engine/tool_wrapper.py:363-440 | at most one attempt can decide the outcome |
| SubmissionWorkflow.SubmissionTracker.Transition | app/submissions.py:155-206 | applies an allowed transition and its columns, one by one, or refuses with the first failing check and changes nothing |
| SubmissionRuns.WholeCall | app/submissions.py:155-206 | a call that nothing overlaps, read then written, is answered as the tracker answers it |
| SubmissionWorkflow.BountyCurrency | app/submissions.py:178-193 | a bounty is stored with its currency column set, and with a nonempty one exactly when the call names no currency or one that does not strip to nothing |
| SubmissionWorkflow.BlankCurrencyStored | app/submissions.py:180-193 | a blank currency passes the check and is stored as empty text |
| SubmissionRuns.BookkeepingHolds | app/submissions.py:155-206 | however calls overlap, past draft there is a submission time, resolved or paid has a resolution time, and a bounty is never negative and its currency column is set |
| SubmissionRuns.PaidWasAccepted | app/submissions.py:27-38 | however calls overlap, only a submission that was submitted, accepted and resolved is paid |
| SubmissionRuns.TimestampSurvives | app/submissions.py:155-206 | in every interleaving a submission or resolution time set at one moment stays to the end exactly when no later update was read before that moment's last write and carries another time |
| SubmissionRuns.TerminalSurvives | app/submissions.py:155-206 | in every interleaving a terminal status stays to the end exactly when no later update was read before that moment's last write and carries another status |
| SubmissionRuns.TimestampsWrittenOnce | app/submissions.py:155-206 | runs whose calls do not overlap write each timestamp once and never leave a terminal status |
| SubmissionRuns.OverlapMovesTimestamp | app/submissions.py:155-206 | overlapping calls can overwrite a submission time |
| SubmissionRuns.OverlapLeavesTerminal | app/submissions.py:155-206 | overlapping calls can take a submission out of a terminal status |
| SubmissionRuns.TerminalLeft | app/submissions.py:155-206 | that happens in a run from a new submission |
| Budget.BudgetLedger.ConsumeArtifact | app/ops/runtime.py:155-167 | charges a fitting size; one that does not fit leaves the meter, marks the scan incomplete and is audited |
| Budget.BudgetLedger.ConsumeTokens | app/ops/runtime.py:169-181 | the same for language-model tokens |
| Budget.BudgetLedger.ConsumeToolTime | app/ops/runtime.py:183-203 | the same per tool run, whose row is made on its first charge and marked with the scan |
| Budget.BudgetLedger.CheckWallClock | app/ops/runtime.py:205-213 | a scan over its time is marked incomplete and audited |
| Budget.BudgetLedger.MarkComplete | app/ops/runtime.py:215-221 | only an active budget is marked complete, with its active tool rows |
| BudgetRuns.UsageExact | app/ops/runtime.py:155-181 | in every interleaving the recorded usage stays within the limit and never exceeds what was charged; it is what was charged after every charge exactly when none was written between another's read and write |
| BudgetRuns.LimitHolds | app/ops/runtime.py:155-181 | when calls do not overlap what was charged stays within the limit |
| BudgetRuns.WholeCharge | app/ops/runtime.py:155-181 | a charge that nothing overlaps adds its size when it fits, and otherwise leaves the usage and marks the scan |
| BudgetRuns.NoMarkWithoutExcess | app/ops/runtime.py:155-181 | however calls overlap, when all charges together stay within the limit and no other budget is exceeded, each of them fits and the scan is never marked incomplete |
| BudgetRuns.OverlapOverspends | app/ops/runtime.py:155-181 | two overlapping charges of the whole limit are both accepted |
| BudgetRuns.IncompleteStays | app/ops/runtime.py:141-221 | in every interleaving an exceeded scan stays incomplete exactly when no `mark_complete` finishes later, and one that does had looked before anything was exceeded |
| BudgetRuns.ExceededNeverComplete | app/ops/runtime.py:141-221 | when calls do not overlap an exceeded scan is never marked complete |
| BudgetRuns.OverlapHidesExcess | app/ops/runtime.py:215-221 | a budget exceeded between the two halves of `mark_complete` ends as complete |

## Left out

- Migrations.EveryRunConsistent: scripts and application are assumed to respect the equivalence at the states a run can be in, and files are numbered from one; the ledger theorems need only the numbering.
- Budget.BudgetLedger.ConsumeArtifact: one ledger object per scan, whose row is never missing.
- Dedup.Dedup: without the similarity score of a duplicate, which is a heuristic.
- PipelineRuns.WrapperWaitsForPassiveRecon: the wrapper call itself and its cancellation checks are not modelled, only the dependency check before it.
- EventBus.EventBus.Publish: pattern matching is a parameter, and heartbeats are ordinary publishes.
- RateGovernor.RateGovernor.SetPolicy: trimming and case folding of keys are one abstract function.
- The authorization and rate checks that `execute` makes before and inside a node, and Python's recursion limit.
- Artifact metadata, kinds, media types and retention policies; tool-run rows built on the store.
- Migration backups, ledger timestamps, scripts that end their own transaction, and two managers at work on one database at once.
- The regular expressions that find redaction candidates; the candidate spans are given.
- Floating-point error in scores, rates and percentages.
- Tool-run status bookkeeping, rate limits and cancellation polling inside a tool's execution; the attempts' outcomes are given.
- `BackpressureChannel`, `DurableFanout`, `SchedulerRuntimeRegistry`, `sanitize_export` and `RetryPolicy.delay`: single-step members with nothing hard to state.
- Submission listings, earnings and the board view; report payload encoding.
- HTTP routes, network and process code, browser automation, language-model calls, scoring of severity, report rendering.
