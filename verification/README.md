# Verified models of the platform's state-keeping protocols

Dafny models of the parts of the backend that keep state for others: the pipeline simulator, the CI lab with its
quality gate and webhook outbox, the automation queue, cron and scheduler, device leases, artifact storage and webhook
signatures. Each model follows its source branch by branch; the theorems are about every input, every interleaving of
atomic steps, or every history of calls.

`dafny verify dfyconfig.toml` verifies the project.

## What is modelled

**Pipeline simulator** (`PipelineTree`, `PipelineOutcomes`, `PipelineCallbacks`, `PipelineCallbackOutcome`,
`PipelineExecutor`, `PipelineExecution`, `PipelineRuns`, `PipelineStore`, `PipelineSystem`, `PipelineServiceOutcome`,
`PipelineService`). A run is a tree of stages and jobs. Mutations that can raise half way keep what they wrote, and
the proofs show that from a state satisfying the invariant they never do. The executor coroutine is a program counter
over its lock sections, so callbacks, cancellation, shutdown and failed saves may come between any two of them. The
store is three tables written row by row; a save that raises has no effect. `PipelineSystem` is the whole service as a
value; its theorems are about any history of operations, failed saves, crashes and restarts, and every public
operation of the class `PipelineService` is one step of such a history.

**CI lab** (`CiTimeline`, `CiRun`, `CiStages`, `CiOutbox`, `CiSystem`, `CiClaims`, `CiService`, `CiWorker`). A
definition fixes a timeline. A run is refreshed lazily from a wall clock that may jump backwards. A gated run waits
for one human decision. Each change of the public state appends one snapshot to an outbox that workers deliver in
order, under leases fenced by a version number. Every public method is one atomic step on the shared tables; processes
with different registries may share them, because a definition revision never changes.

**Automation** (`TaskQueue`, `InMemoryTaskQueue`, `Calendar`, `Cron`, `CronText`, `CronSearch`, `Scheduler`,
`SchedulerState`, `InMemoryScheduler`, `Devices`, `InMemoryDeviceManager`). The queue leases work at least once and
bounds attempts. Cron text is parsed character by character and matched against the Gregorian calendar; a time zone is
any map from UTC minutes to wall clocks. The scheduler shares the queue with producers and workers, who may do
anything between two of its awaits.

**Artifacts** (`Artifacts`, `ArtifactSystem`, `ArtifactService`). A row and an object that cannot commit together,
under failures at any awaited step, with steps of operations on other artifacts between any two.

**Webhook signatures** (`WebhookSecurity`, `DecimalText`). The worker's signer and headers, the header parser and the
verifier.

## Shared assumptions

- A lock section or a database transaction is one atomic step; a transaction that raises has no effect.
- Identifiers and lease tokens that the source draws at random are arguments, required to be new where the source
  relies on it. SHA-256 and HMAC are injective free constructors or uninterpreted functions; canonical JSON is a free
  constructor of its fields.
- The clock is an argument of every call. Times are integers, in microseconds unless a module says otherwise.

## Where the code falls short of what it promises

Each of these is kept as the code has it and delimited exactly, most of them also shown on a concrete input.

- A failing job of zero duration reads CANCELLED, so a failed run may show no failed job
  (`CiTimeline.ZeroDurationFailureIsHidden`, `CiTimeline.FailedVisibleExactlyWhen`).
- A waiting run shows unfinished jobs while its clock is set back (`CiRun.WaitingViewsUnderASetBackClock`,
  `CiRun.WaitingViewsExactlyWhen`).
- A run can be left unfinished without an executor in three ways: a provider starts it before the executor does,
  callbacks finish a stage while the executor is inside it, or the save fails with which the executor would have
  recorded an earlier error (`PipelineExecutor.AbandonsExactlyWhen`, `PipelineExecutor.ProvidersCanStrandTheRun`,
  `PipelineExecutor.CallbacksCanStrandTheRun`, `PipelineExecutor.FailedSavesCanStrandTheRun`).
- Leaving maintenance on a leased device that is heard of lets it be leased twice
  (`Devices.LeavingMaintenanceOnALeasedDevice`, `Devices.LeavingMaintenanceKeepsExactlyWhen`,
  `Devices.LeavingMaintenanceOffersExactlyWhen`), and on a device in maintenance it has no effect
  (`Devices.MaintenanceIsForever`).
- An expression that only 29 February can match is accepted, but the bounded search for it fails, for instance, from 1
  March 2096 (`CronSearch.WindowSufficesExactlyWhen`, `CronSearch.LeapDaysAreLost`).
- A schedule whose next run cannot be found on enabling is enabled although the call raises
  (`InMemoryScheduler.InMemoryScheduler.SetEnabled`, `InMemoryScheduler.EnablingCanFailHalfWay`).
- A ready artifact can lose its object when moving it aside raises after the move, or when neither the row can be
  written nor the object put back (`ArtifactService.ArtifactService.Delete`,
  `ArtifactService.DeletionCanLoseTheObject`).
- A storage that reports the key of another artifact makes the clean-up of the upload discard that artifact's object
  (`ArtifactService.ArtifactService.Create`, `ArtifactService.MisreportedKeyCanLoseTheObject`).

## Model

| member | source | states |
|---|---|---|
| `PipelineTree.InvImpliesAssertions` | backend/app/pipeline/service.py:830-854 | the internal assertions on a run tree hold in every state that satisfies the inductive invariant, so they never fire |
| `PipelineTree.StartRunCommits` | backend/app/pipeline/service.py:108-141 | starting an unfinished run succeeds, keeps the invariant, and moves every node only forward |
| `PipelineTree.StartJobCommits` | backend/app/pipeline/service.py:481-497 | starting an unfinished job of a running stage keeps the invariant and moves every node only forward |
| `PipelineTree.SucceedJobCommits` | backend/app/pipeline/service.py:724-739 | finishing a job as succeeded and aggregating upwards keeps the invariant and moves every node only forward |
| `PipelineOutcomes.SucceedJobOutcome` | backend/app/pipeline/service.py:724-739 | the job ends as succeeded with the message; its stage ends exactly if all its jobs have succeeded, the run exactly if all stages have; no other node changes |
| `PipelineTree.FailJobCommits` | backend/app/pipeline/service.py:741-772 | failing a job of an active run never raises half way, keeps the invariant, and moves every node only forward |
| `PipelineOutcomes.FailJobOutcome` | backend/app/pipeline/service.py:741-772 | job, stage and run end as failed now, each with its message; every other unfinished node ends as cancelled with the message of its sweep; finished ones are untouched |
| `PipelineTree.FailRunCommits` | backend/app/pipeline/service.py:765-772 | failing an active run never raises, keeps the invariant, and moves every node only forward |
| `PipelineOutcomes.FailRunOutcome` | backend/app/pipeline/service.py:765-772 | the run ends as failed with the message, every unfinished node below as cancelled with its own, finished ones are untouched |
| `PipelineTree.CancelRunCommits` | backend/app/pipeline/service.py:309-328 | cancelling an active run never raises, keeps the invariant, and moves every node only forward |
| `PipelineOutcomes.CancelRunOutcome` | backend/app/pipeline/service.py:309-328 | the run and every unfinished node below end as cancelled now, each with its message, finished ones are untouched |
| `PipelineTree.SweepRestores` | backend/app/pipeline/service.py:815-829 | sweeping the children of an ended run restores the invariant that ending it had broken |
| `PipelineTree.TreeForwardTransitive` | backend/app/pipeline/service.py:108-131 | moving forward composes: ranks never fall and terminal nodes keep status, message and times over any number of steps |
| `PipelineCallbacks.FindStage` | backend/app/pipeline/service.py:804-813 | the found stage is the first with the name; none is found exactly if no stage has it |
| `PipelineCallbacks.FindJob` | backend/app/pipeline/service.py:780-802 | the found job is the first with the name; none is found exactly if no job has it |
| `PipelineCallbacks.AcceptedCallbackCommits` | backend/app/pipeline/service.py:547-722 | applying a validated callback to any target never raises and keeps the invariant |
| `PipelineCallbacks.CallbackAllOrNothing` | backend/app/pipeline/service.py:330-359 | a callback is all or nothing: a rejected one leaves the tree as it was, an accepted one commits in full without raising |
| `PipelineCallbackOutcome.CallbackOutcome` | backend/app/pipeline/service.py:330-359 | a callback is answered with "not found" exactly if no stage or job has its names; otherwise it is about the first stage and job that have. It is refused exactly if the run or stage above has ended, the node would move back, or it reports a success with a job below unfinished; one that reports the known status changes nothing; any other gives that node the reported status and says what becomes of every other node |
| `PipelineCallbackOutcome.TargetIsLocated` | backend/app/pipeline/service.py:780-813 | the located node is the first stage, and in it the first job, with the names of the callback, and none is located exactly if there is none |
| `PipelineCallbackOutcome.NothingNew` | backend/app/pipeline/service.py:118-121 | an event that reports the status a node already has changes nothing, not even a message |
| `PipelineExecutor.SectionCommits` | backend/app/pipeline/service.py:437-534 | every lock section of the executor, resumed wherever it is, keeps the invariant and never raises |
| `PipelineExecutor.ForwardKeepsPc` | backend/app/pipeline/service.py:437-522 | whatever forward change happens while the executor is suspended, it can resume where it stopped |
| `PipelineExecutor.EveryInterleavingIsSafe` | backend/app/pipeline/service.py:437-722 | over every interleaving of executor sections, callbacks, cancellation, recovery and failed saves the tree keeps its invariant and only moves forward |
| `PipelineExecutor.AbandonsExactlyWhen` | backend/app/pipeline/service.py:437-534 | whatever happens next, the executor stops and leaves an unfinished run behind in exactly three cases: it wakes up for the first time on a run a provider started, callbacks finished its current stage before its next job, or the save fails with which its error handler would have ended the run |
| `PipelineExecutor.ProvidersCanStrandTheRun` | backend/app/pipeline/service.py:441-443 | the first case on a concrete run: a provider reports it running before the first section |
| `PipelineExecutor.CallbacksCanStrandTheRun` | backend/app/pipeline/service.py:466-467 | the second case on a concrete run: a callback makes the executor stop while the run stays running |
| `PipelineExecutor.FailedSavesCanStrandTheRun` | backend/app/pipeline/service.py:522-534 | the third case on a concrete run: after two failed saves it stays queued without an executor |
| `PipelineExecution.ExecutionOutcome` | backend/app/pipeline/service.py:437-520 | with sections and cancellations in any order and at any times, an executor that stops leaves an ended run: succeeded throughout if no job fails; or failed at the first failing job, with everything before it succeeded and everything after it cancelled; or cut off by a cancellation, with a succeeded part without failing jobs and a cancelled rest |
| `PipelineExecution.ExecutorStops` | backend/app/pipeline/service.py:437-534 | whatever callbacks, cancellations and failed saves come in between, the executor stops after at most a number of sections that depends on the numbers of stages and jobs only |
| `PipelineRuns.PipelineRun.FailAt` | backend/app/pipeline/service.py:741-763 | the in-place failure of a job equals its specification on the tree |
| `PipelineRuns.PipelineRun.CancelAll` | backend/app/pipeline/service.py:309-328 | the in-place cancellation of a run equals its specification on the tree |
| `PipelineRuns.PipelineRun.HandleCallback` | backend/app/pipeline/service.py:330-359 | validation and in-place application of a callback: refused without a trace, or in full effect on the node its names mean and on the rest of the tree |
| `PipelineRuns.PipelineRun.RunSection` | backend/app/pipeline/service.py:437-534 | one executor section in place equals its specification |
| `PipelineRuns.PipelineRun.Execute` | backend/app/pipeline/service.py:437-520 | driving the in-place sections and cancellations in the given order reaches exactly the process that the moves describe, and its outcome |
| `PipelineStore.LoadAfterSave` | backend/app/pipeline/persistence.py:248-358 | loading what was saved gives the state back, nested event logs included, exactly if runs sit under their own ids and exactly the runs have logs |
| `PipelineStore.EventsRoundTrip` | backend/app/pipeline/persistence.py:282-297 | flattening the event logs to rows and regrouping them per run is the identity |
| `PipelineStore.Store.Save` | backend/app/pipeline/persistence.py:299-358 | a save replaces all three tables by the rows of the state, or leaves them alone |
| `PipelineStore.Store.Load` | backend/app/pipeline/persistence.py:248-297 | a load returns the last committed state |
| `PipelineSystem.StepKeeps` | backend/app/pipeline/service.py:229-405 | every operation, whether its save works or not, a crash and a restart keep the invariant; every run moves forward and no trigger key or event is forgotten |
| `PipelineSystem.HistoryGrows` | backend/app/pipeline/service.py:229-405 | so does every history of them |
| `PipelineSystem.RedeliveryIsDuplicate` | backend/app/pipeline/service.py:330-352 | once accepted, an event is answered as a duplicate after any history of operations, failed saves, crashes and restarts, and other content under its identifier as a conflict; neither changes anything |
| `PipelineSystem.RetriggerIsReplay` | backend/app/pipeline/service.py:236-255 | likewise a trigger with a key is answered with the run it created, and another request under the key as a conflict |
| `PipelineSystem.EndedRunsAreFrozen` | backend/app/pipeline/service.py:108-131 | once a run has ended, no history of operations, crashes and restarts changes anything about it |
| `PipelineSystem.ResumedIsNext` | backend/app/pipeline/service.py:437-534 | a section inside the service, saved or not, is one move of the run and its coroutine |
| `PipelineServiceOutcome.ServiceOutcome` | backend/app/pipeline/service.py:229-534 | a triggered run among any other runs, over every history that brings no callback, crash or shutdown upon it and saves its sections: it is the requested one; an executor that stopped left it ended; it succeeded only if no requested job should fail, failed only at the first that should, with everything before it succeeded and everything after it cancelled, and was cancelled only by a cancellation |
| `PipelineSystem.NewRunIsFresh` | backend/app/pipeline/service.py:256-292 | a triggered run starts in the invariant, with the executor at its first section |
| `PipelineSystem.NewRunIsAsRequested` | backend/app/pipeline/service.py:256-275 | a new run has the stages and jobs of the request in its order, with their names, durations and failure flags, and nothing in it has started |
| `PipelineSystem.SettleRunsKeeps` | backend/app/pipeline/service.py:866-893 | recovery after a restart ends every unfinished run, keeps every invariant and only moves runs forward |
| `PipelineService.PipelineService.Initialize` | backend/app/pipeline/service.py:856-894 | fails exactly if the load fails or a needed save does; afterwards every loaded run is terminal and memory equals the store; it is one step of a history |
| `PipelineService.PipelineService.Checkpoint` | backend/app/pipeline/service.py:896-925 | a checkpoint either saves memory and publishes events or rolls memory back to the store |
| `PipelineService.PipelineService.Trigger` | backend/app/pipeline/service.py:229-294 | a trigger with a known key answers with the same run or a conflict; otherwise it stores a new run with exactly the requested stages and jobs and starts its executor; afterwards memory equals the store whether or not the save worked; it is one step of a history |
| `PipelineService.PipelineService.Cancel` | backend/app/pipeline/service.py:309-328 | a cancellation ends an active run, replays on a cancelled one, is refused on other ended ones, and leaves memory equal to the store; it is one step of a history |
| `PipelineService.PipelineService.ApplyCallback` | backend/app/pipeline/service.py:330-359 | a delivered callback is recorded together with its effect or not at all; the effect is that on the first node with its names; duplicates change nothing; it is one step of a history |
| `PipelineService.PipelineService.Resume` | backend/app/pipeline/service.py:437-534 | one executor section of one run keeps memory and store equal and events published exactly for terminal runs; it is one step of a history |
| `PipelineService.PipelineService.Shutdown` | backend/app/pipeline/service.py:375-405 | shutdown ends every active run, refuses later calls, and leaves memory equal to the store; it is one step of a history |
| `CiTimeline.JobsOfStage` | backend/app/ci_lab/registry.py:55-73 | the jobs of each stage are a consecutive slice of all jobs, in order |
| `CiTimeline.SlotsOrdered` | backend/app/ci_lab/service.py:1421-1434 | slots of the timeline come in order and do not overlap |
| `CiTimeline.ComputeTimeline` | backend/app/ci_lab/service.py:1421-1434 | the nested loops compute the slot of each job: queue delay plus the durations of all jobs before it |
| `CiTimeline.FirstFailure` | backend/app/ci_lab/service.py:1440-1446 | the found slot is failing and none before it is; none is found exactly if no slot fails |
| `CiTimeline.ComputeStageViews` | backend/app/ci_lab/service.py:1315-1419 | filling a dictionary by job key and reading it back stage by stage gives exactly the views of the jobs, because keys are unique |
| `CiTimeline.ComputeStageView` | backend/app/ci_lab/service.py:1371-1418 | the loops over the jobs of a stage give its status, first start, last end and message |
| `CiStages.StagesFollowJobs` | backend/app/ci_lab/service.py:1371-1383 | if the jobs read SUCCEEDED, then at most one other status, then only QUEUED or CANCELLED, so do the stages: the one in which the jobs break off is running or failed with its job, or running between two jobs |
| `CiStages.StagesAgreeWithRun` | backend/app/ci_lab/service.py:1192-1419 | after a refresh the stages of a read agree with the run row in every state but waiting |
| `CiStages.EarliestIsLeast` | backend/app/ci_lab/service.py:1385-1400 | the start of a stage is the least start of its jobs, and missing exactly if no job has started |
| `CiStages.LatestIsGreatest` | backend/app/ci_lab/service.py:1386-1404 | its end is the greatest end of its jobs |
| `CiTimeline.RunningShape` | backend/app/ci_lab/service.py:1333-1369 | before the terminal point the job views read SUCCEEDED*, at most one RUNNING, QUEUED* |
| `CiTimeline.CancelledShape` | backend/app/ci_lab/service.py:1333-1369 | cancelled before the terminal point they read SUCCEEDED* CANCELLED* |
| `CiTimeline.FailedShape` | backend/app/ci_lab/service.py:1333-1369 | from the terminal point on, with a failing job of positive duration, they read SUCCEEDED* FAILED CANCELLED* |
| `CiTimeline.FailedVisibleExactlyWhen` | backend/app/ci_lab/service.py:1339-1361 | some job reads FAILED exactly from the terminal point of a failing definition on, and only if the first failing job takes time |
| `CiTimeline.SucceededVisibleExactlyWhen` | backend/app/ci_lab/service.py:1356-1364 | every job reads SUCCEEDED exactly from the terminal point of a failure-free definition on |
| `CiTimeline.ZeroDurationFailureIsHidden` | backend/app/ci_lab/service.py:1339-1345 | a concrete failed run none of whose jobs reads FAILED |
| `CiRun.RefreshConsistent` | backend/app/ci_lab/service.py:876-1004 | a refresh at any clock reading keeps the invariant of run and gate and never moves the public state back |
| `CiRun.RefreshIsOrderIndependent` | backend/app/ci_lab/service.py:876-1004 | any list of refreshes at any clock readings, even falling ones, leaves the same visible fields as one refresh at the largest reading |
| `CiRun.OnlyPeopleEndTheWait` | backend/app/ci_lab/service.py:891-914 | no list of refreshes changes a waiting run at all |
| `CiRun.CancelConsistent` | backend/app/ci_lab/service.py:651-735 | a cancellation is accepted exactly on a run that neither succeeded nor failed, and leaves a cancelled run with matching gate; the run ends now, but a waiting one not before its checks had passed |
| `CiRun.DecideConsistent` | backend/app/ci_lab/service.py:737-874 | a decision is accepted exactly on a waiting gate or as the repetition of the recorded one; there is then exactly one approval, equal to the request; the run ends as decided, now, but not before its checks had passed |
| `CiRun.GateDecidesOutcome` | backend/app/ci_lab/service.py:789-874 | for a gated run: succeeded iff gate approved iff one approving decision; failed iff rejected or checks failed; cancelled iff gate cancelled |
| `CiRun.ViewsAgreeWithRun` | backend/app/ci_lab/service.py:1192-1230 | after a refresh the job views agree with the run row in every state but waiting |
| `CiRun.WaitingViewsExactlyWhen` | backend/app/ci_lab/service.py:1218-1222 | a waiting run shows all jobs succeeded exactly while the clock is not set back before the end of the checks |
| `CiRun.WaitingViewsUnderASetBackClock` | backend/app/ci_lab/service.py:1218-1222 | a concrete waiting run whose only job reads RUNNING once the clock is set back |
| `CiOutbox.EnqueueFirst` | backend/app/ci_lab/service.py:1006-1094 | the first snapshot of a subscribed run has number 1 and carries its public state |
| `CiOutbox.EnqueueAfterChange` | backend/app/ci_lab/service.py:1006-1094 | a snapshot is appended exactly if the public state changed; numbers stay gapless, times never fall, ranks strictly rise, the last one is current |
| `CiOutbox.AtMostFour` | backend/app/ci_lab/service.py:1006-1094 | an outbox has at most four snapshots and nothing follows a terminal one |
| `CiOutbox.BackoffBounded` | backend/app/ci_lab/service.py:420-428 | retries wait one second after the first attempt, then twice as long each time, up to 300 seconds |
| `CiOutbox.DeliveryIsInOrder` | backend/app/ci_lab/service.py:282-289 | a delivered, claimed or attempted snapshot has only delivered ones before it |
| `CiOutbox.ClaimChange` | backend/app/ci_lab/service.py:253-330 | a claim touches only the first undelivered snapshot, and no other one is claimed then |
| `CiClaims.ClaimableExactlyWhen` | backend/app/ci_lab/service.py:253-297 | a row is found by the claim query exactly if it has attempts left, only delivered rows before it, and either waits with its time come or is claimed under a lease that has run out |
| `CiClaims.FirstDueExactlyWhen` | backend/app/ci_lab/service.py:290-295 | the query finds the row that is due first, then oldest, then of least identifier, among those |
| `CiClaims.AbandonedIsClaimable` | backend/app/ci_lab/service.py:275-281 | a claimed row with attempts left can be claimed by any worker once its lease has run out |
| `CiSystem.NextKeeps` | backend/app/ci_lab/service.py:176-874 | every call of every process keeps the invariant of all runs and moves each run and delivery only forward |
| `CiSystem.EveryHistoryIsSafe` | backend/app/ci_lab/service.py:176-874 | over every history of calls, in any order, at any clock readings, by any processes, all runs keep their invariant and each run and delivery only moves forward |
| `CiSystem.ClaimStandsExactlyWhen` | backend/app/ci_lab/service.py:361-443 | whatever happened since, a claim still holds exactly if its row has kept its version and its lease runs, and a row that has kept its version is unchanged |
| `CiSystem.SupersededClaimIsRefused` | backend/app/ci_lab/service.py:1107-1135 | once a delivery has moved past the claimed version, that claim can never complete or fail it, at any later time |
| `CiSystem.OutboxTellsTheStory` | backend/app/ci_lab/service.py:1006-1094 | at any point of any history a subscribed run's outbox is numbered 1..n with n at most 4, in time and life-cycle order, its last entry current |
| `CiSystem.NobodyBypassesTheGate` | backend/app/ci_lab/service.py:737-874 | at any point of any history a gated run succeeded exactly if it has exactly one approving decision |
| `CiSystem.DeliveriesStayInOrder` | backend/app/ci_lab/service.py:220-512 | at any point of any history delivered snapshots form a prefix, only the next one is attempted, attempts stay bounded |
| `CiSystem.OnlyADecisionEndsTheWait` | backend/app/ci_lab/service.py:891-914 | through any history without a cancellation or decision for it, a waiting run does not change |
| `CiService.Refresh` | backend/app/ci_lab/service.py:876-1004 | the step-by-step refresh equals its specification by cases |
| `CiService.CiLabService.Trigger` | backend/app/ci_lab/service.py:514-623 | a known key answers with its run, refreshed, or conflicts on other input; otherwise exactly one new run is filed; a call that raises changes nothing |
| `CiService.File` | backend/app/ci_lab/service.py:1006-1094 | the step-by-step filing appends exactly the specified snapshot |
| `CiService.CiLabService.RunCallOn` | backend/app/ci_lab/service.py:625-874 | get, cancel and decide refresh, act, file one snapshot if needed and show the result, or raise without effect |
| `CiService.CiLabService.AdvanceOnce` | backend/app/ci_lab/service.py:176-218 | exactly the oldest runs that can advance, up to the limit, are refreshed and filed in one step; the count is of runs with a new snapshot |
| `CiService.CiLabService.ClaimDelivery` | backend/app/ci_lab/service.py:220-359 | exactly if some row is claimable, the first one is leased to the worker for another attempt; final attempts whose lease has run out become dead letters; nothing else changes |
| `CiService.CiLabService.FirstDueRow` | backend/app/ci_lab/service.py:260-297 | the selected row is eligible and least in due time, creation time and identifier; none is selected exactly if none is eligible |
| `CiService.CiLabService.Settle` | backend/app/ci_lab/service.py:361-512 | complete, fail and retry take effect exactly on the row they may change, and raise without effect otherwise |
| `CiService.DueRowIsIntact` | backend/app/ci_lab/service.py:302-327 | the payload check of a claim never fires on rows the service wrote |
| `CiService.ViewIsCoherent` | backend/app/ci_lab/service.py:1192-1313 | what a read shows agrees with itself: jobs, stages, run status, sequence number and last snapshot |
| `CiWorker.OutcomeExactlyWhen` | backend/app/ci_lab/webhook_worker.py:239-292 | an answer counts as delivered exactly for a success result of this event; exactly network failures, 408, 425, 429 and 5xx are retried; error codes are always acceptable |
| `CiWorker.CiLabWebhookWorker.Report` | backend/app/ci_lab/webhook_worker.py:208-237 | in whatever state other processes have left the tables since the claim, the answer settles the claimed row exactly if the claim still holds, with a retry due after one to three hundred seconds; otherwise nothing changes |
| `CiWorker.CiLabWebhookWorker.RunOnce` | backend/app/ci_lab/webhook_worker.py:200-237 | whatever other processes do after the refresh and after the claim, the answer settles the claimed row exactly if its version is unchanged and the lease still runs; otherwise this worker changes nothing more |
| `TaskQueue.DelayBounds` | backend/app/automation/tasks.py:54-66 | the delay stays within the jitter share of a nominal delay that never shrinks with attempts and never passes the maximum |
| `TaskQueue.NominalDoubles` | backend/app/automation/tasks.py:60-66 | the nominal delay starts with the base, doubles with every attempt and stops at the maximum |
| `TaskQueue.DelaySpread` | backend/app/automation/tasks.py:60-66 | no entropy takes off the full jitter share, full entropy adds it, and half of it changes nothing |
| `TaskQueue.DefaultDelays` | backend/app/automation/tasks.py:54-66 | by default the first retry waits one second, the tenth and later ones five minutes, give or take a fifth |
| `TaskQueue.MicrosIsNearest` | backend/app/automation/tasks.py:273 | a delay is rounded to the nearest microsecond |
| `TaskQueue.RetryIsLater` | backend/app/automation/tasks.py:60-66 | under any policy a retry never becomes due before the failure it follows |
| `TaskQueue.SoonerExactlyWhen` | backend/app/automation/tasks.py:191-199 | a task comes first exactly if no lower priority, no later due time, no younger age and no greater identifier speaks against it, in this order |
| `TaskQueue.RecoveredKeeps` | backend/app/automation/tasks.py:328-349 | recovery keeps the shape of a task and leaves no expired lease |
| `TaskQueue.SettleKeeps` | backend/app/automation/tasks.py:210-312 | what a lease holder does keeps the shape of the task; it retries exactly if retryable, not cancelled and attempts remain; a requested cancellation decides the outcome |
| `TaskQueue.NextKeeps` | backend/app/automation/tasks.py:88-349 | every call keeps shapes, keys and claim records, freezes ended tasks and never takes back a cancellation |
| `TaskQueue.EveryHistoryIsSafe` | backend/app/automation/tasks.py:88-349 | over every history of calls, at any clock readings, the queue keeps its invariant, ended tasks stay as they are and cancellation requests stand |
| `TaskQueue.TasksStayInShape` | backend/app/automation/tasks.py:165-349 | at any point of any history: running iff leased, retrying tasks have attempts left, dead letters have none, cancelled iff ended with a request; claims equal attempts and never exceed the maximum; ended tasks are frozen |
| `TaskQueue.OnlyTheLatestClaimSettles` | backend/app/automation/tasks.py:351-369 | the token of any earlier claim of a task, or of a claim of another task, is refused from then on |
| `TaskQueue.CancellationDominates` | backend/app/automation/tasks.py:283-312 | once cancellation is requested a task is running or cancelled, whatever happens |
| `TaskQueue.ForeignNeverActivates` | backend/app/automation/tasks.py:320-326 | producers and workers never add an active task to a schedule nor withdraw a cancellation |
| `InMemoryTaskQueue.InMemoryTaskQueue.Enqueue` | backend/app/automation/tasks.py:88-149 | a known key returns its task or conflicts on other input; otherwise one queued task is added, due when asked for or at once |
| `InMemoryTaskQueue.InMemoryTaskQueue.RecoverExpired` | backend/app/automation/tasks.py:328-349 | one pass recovers exactly the expired tasks |
| `InMemoryTaskQueue.InMemoryTaskQueue.SelectNext` | backend/app/automation/tasks.py:181-199 | the selected task is eligible and first by priority, due time, age and identifier; none is selected exactly if none is eligible |
| `InMemoryTaskQueue.InMemoryTaskQueue.Claim` | backend/app/automation/tasks.py:165-208 | recovers expired leases, then leases a task exactly if one waits in a subscribed queue, is due and was not asked to stop; no other such task has a higher priority, nor among equals an earlier due time, greater age or smaller identifier |
| `InMemoryTaskQueue.InMemoryTaskQueue.Heartbeat` | backend/app/automation/tasks.py:210-226 | renews exactly a valid lease, which then holds until the new expiry |
| `InMemoryTaskQueue.InMemoryTaskQueue.Complete` | backend/app/automation/tasks.py:228-249 | settles exactly a valid lease: cancelled if cancellation was requested, else succeeded |
| `InMemoryTaskQueue.InMemoryTaskQueue.Fail` | backend/app/automation/tasks.py:251-281 | settles exactly a valid lease: cancelled, retried, failed or dead, as flags and attempts say |
| `InMemoryTaskQueue.InMemoryTaskQueue.RequestCancel` | backend/app/automation/tasks.py:283-294 | a waiting task ends at once, a running one is flagged, an ended one stays |
| `InMemoryTaskQueue.InMemoryTaskQueue.AcknowledgeCancel` | backend/app/automation/tasks.py:296-312 | ends exactly a validly leased task whose cancellation was requested |
| `Calendar.DayNumberOfDate` | backend/app/automation/cron.py:139-155 | counting days from 1 January of year 1 and numbering Gregorian dates agree |
| `Calendar.DateOfDayNumber` | backend/app/automation/cron.py:139-155 | every valid date is the date of its day number |
| `Calendar.DaysBeforeYearClosed` | backend/app/automation/cron.py:139-155 | years have 365 days, and a leap day every fourth year except in three of four century years |
| `Calendar.WeekdaysAreRight` | backend/app/automation/cron.py:139-149 | weekdays follow each other in a circle of seven, and 1 January 1970 was a Thursday |
| `Cron.AddItem` | backend/app/automation/cron.py:73-74 | the loop adds exactly the numbers of the item's progression, 7 folded to 0 in the weekday field |
| `Cron.ParseField` | backend/app/automation/cron.py:32-76 | parsing fails exactly if some item is malformed; otherwise the field holds exactly the listed values, is not empty, and is a wildcard iff complete |
| `CronText.NumberItems` | backend/app/automation/cron.py:32-76 | a star reads as the whole field and a number as itself; a number outside the field is refused |
| `CronText.RangeItems` | backend/app/automation/cron.py:32-76 | a range reads as its bounds; one that leaves the field or runs backwards is refused |
| `CronText.SteppedItems` | backend/app/automation/cron.py:32-76 | a step applies to the star, the range, or from a single number to the end of the field; a step of zero is refused |
| `CronText.IntegerTexts` | backend/app/automation/cron.py:40-64 | the decimal text of a number, with or without a sign, reads as that number |
| `CronText.UnderscoreIsSkipped` | backend/app/automation/cron.py:40-64 | a single underscore between digits does not count |
| `CronText.OnlyDigitsCount` | backend/app/automation/cron.py:40-64 | nothing but digits and underscores is read as a number without a sign |
| `CronText.SpaceExactlyWhen` | backend/app/automation/cron.py:100 | within ASCII, exactly nine control characters and the space separate fields |
| `CronText.SplitOfListing` | backend/app/automation/cron.py:36 | splitting the parts joined by commas gives the parts |
| `CronText.ListingOfSplit` | backend/app/automation/cron.py:36 | and joining the parts a text splits into gives the text |
| `CronText.WordsOfListing` | backend/app/automation/cron.py:99-102 | words with whitespace between them are read as those words |
| `CronSearch.FeasibleExactlyWhen` | backend/app/automation/cron.py:113-131 | the feasibility check accepts an expression exactly if some Gregorian date satisfies its day and month fields |
| `CronSearch.Parse` | backend/app/automation/cron.py:99-111 | accepts exactly five well-formed fields that some date can match, and then returns the one expression that holds exactly what the text lists |
| `CronSearch.NextAfter` | backend/app/automation/cron.py:157-175 | returns the least matching minute after the instant, or raises exactly if the search window has none; no minute is skipped whose local minute, hour and month are listed and whose day or weekday a restricted day field lists |
| `CronSearch.PreviousAtOrBefore` | backend/app/automation/cron.py:177-194 | returns the greatest matching minute not after the instant, or raises exactly if the search window has none; no such minute is skipped |
| `CronSearch.MatchesExactlyWhen` | backend/app/automation/cron.py:139-155 | a minute matches exactly if minute, hour and month are listed and a restricted day field lists its day or its weekday, or neither day field is restricted |
| `CronSearch.EitherDayField` | backend/app/automation/cron.py:146-149 | with both day fields restricted an expression matches exactly if it would with a wildcard for either of them |
| `CronSearch.TuesdayThe13th` | backend/app/automation/cron.py:148-149 | from noon on Monday, 12 February 2024, `0 0 13 * 5` next matches on Tuesday the 13th |
| `CronSearch.WindowSufficesExactlyWhen` | backend/app/automation/cron.py:157-175 | in UTC the search succeeds from every instant exactly for expressions that can match a date other than 29 February |
| `CronSearch.LongGap` | backend/app/automation/cron.py:157-175 | after 1 March of a year like 2096, four years before a century year without leap day, no 29 February lies within the search window |
| `CronSearch.LeapDaysAreLost` | backend/app/automation/cron.py:113-175 | the parser accepts `0 0 29 2 *`, and the search for its next match fails from 1 March 2096 |
| `Scheduler.SplitIsCut` | backend/app/automation/scheduler.py:252-267 | skipped and selected instants cut the due list in two; one, the last few, or those within the grace period are selected |
| `Scheduler.NextIsLeast` | backend/app/automation/cron.py:157-175 | the found minute is the first matching instant after the given one |
| `Scheduler.TimelyFired` | backend/app/automation/scheduler.py:176-250 | recording everything due makes the record of a schedule exact up to the present |
| `InMemoryScheduler.InMemoryScheduler.DueUpTo` | backend/app/automation/scheduler.py:181-193 | the loop lists the first run and all matches after it up to now, and the first match after now; it raises exactly if there are more than the limit or the search window after one of them is empty |
| `InMemoryScheduler.InMemoryScheduler.FireOne` | backend/app/automation/scheduler.py:206-246 | one selected instant is recorded once: skipped exactly if the policy is FORBID and the check found an active task of the schedule, else enqueued; under REPLACE its task is then the only active one nobody asked to cancel |
| `InMemoryScheduler.InMemoryScheduler.CancelActive` | backend/app/automation/scheduler.py:220-222 | after REPLACE has asked every active task to stop, none is active without such a request, whatever others do meanwhile |
| `InMemoryScheduler.InMemoryScheduler.FireDue` | backend/app/automation/scheduler.py:176-250 | a due schedule records every due instant once, missed or selected as the misfire policy says, each selected one skipped exactly if its own overlap check found an active task, and moves to the next match; it raises exactly if it cannot collect the due instants, and then changes nothing |
| `InMemoryScheduler.InMemoryScheduler.Tick` | backend/app/automation/scheduler.py:126-142 | raises exactly if some due schedule cannot catch up; after a normal return the cron fires of every enabled schedule with a record are exactly the matching minutes from the start of its record (its addition, its first catch-up if its first run was given, or its last overdue enabling) up to now at least, and every schedule that was due has a record |
| `InMemoryScheduler.InMemoryScheduler.EveryFireHasItsTask` | backend/app/automation/scheduler.py:224-243 | between any two calls, whatever others do, every enqueued fire has its own task in the queue, with type, payload, queue, priority and attempts of its schedule, due at the instant of the fire |
| `InMemoryScheduler.InMemoryScheduler.Add` | backend/app/automation/scheduler.py:53-76 | raises exactly for a known id, a text the parser rejects, an unknown zone or an empty search window; otherwise the schedule is stored with the given first run or the first match after now |
| `InMemoryScheduler.InMemoryScheduler.SetEnabled` | backend/app/automation/scheduler.py:104-124 | enabling moves an overdue run to the first match after now, where its record starts anew; the call raises exactly for an unknown id or if that match is not found, and then it has nevertheless changed the schedule exactly if the schedule was disabled |
| `InMemoryScheduler.EnablingCanFailHalfWay` | backend/app/automation/scheduler.py:104-124 | a concrete schedule that is enabled after the call that enables it raised |
| `InMemoryScheduler.InMemoryScheduler.RunNow` | backend/app/automation/scheduler.py:144-174 | a manual run always enqueues, under a key no cron fire uses |
| `InMemoryScheduler.InMemoryScheduler.NeverOverlaps` | backend/app/automation/scheduler.py:206-243 | whatever others do, a FORBID schedule without manual runs has at most one active task, a REPLACE schedule at most one without a cancel request |
| `InMemoryScheduler.InMemoryScheduler.LetOthersRun` | backend/app/automation/tasks.py:165-349 | any calls of producers and workers leave the scheduler's invariant standing |
| `Devices.LinkedIsExclusive` | backend/app/automation/devices.py:107-208 | if leases are active exactly when their devices name them, no device has two and none in maintenance has one |
| `Devices.EligibleExactlyWhen` | backend/app/automation/devices.py:121-128 | a device is offered exactly if it is enabled, heard of recently, not in maintenance, not leased and has the capabilities |
| `Devices.StrLessExactlyWhen` | backend/app/automation/devices.py:130 | names are compared at the first place where they differ, and a name comes before its continuations |
| `Devices.NextKeeps` | backend/app/automation/devices.py:47-250 | every call other than leaving maintenance on a leased device that is heard of keeps leases and devices linked |
| `Devices.LeasesStayExclusive` | backend/app/automation/devices.py:47-250 | over every history without leaving maintenance on a leased device that is heard of, no device is leased twice and none in maintenance is leased |
| `Devices.LeavingMaintenanceKeepsExactlyWhen` | backend/app/automation/devices.py:210-229 | leaving maintenance keeps leases and devices linked exactly unless it marks a leased device idle, that is, unless the device is leased, enabled and heard of recently |
| `Devices.LeavingMaintenanceOffersExactlyWhen` | backend/app/automation/devices.py:107-150 | on a leased device, exactly in that case the device is on offer again at once, and the acquisition for which it comes first leases it a second time if its lease still runs |
| `Devices.LeavingMaintenanceOnALeasedDevice` | backend/app/automation/devices.py:220-226 | a concrete run that ends with two active leases of one device |
| `Devices.MaintenanceIsForever` | backend/app/automation/devices.py:286-295 | no call, not even leaving maintenance, takes a device out of maintenance |
| `InMemoryDeviceManager.InMemoryDeviceManager.Register` | backend/app/automation/devices.py:47-70 | rejects exactly known names and agents, else adds one offline device |
| `InMemoryDeviceManager.InMemoryDeviceManager.ExpireLeases` | backend/app/automation/devices.py:236-250 | one pass ends exactly the lapsed leases and frees exactly their devices |
| `InMemoryDeviceManager.InMemoryDeviceManager.SelectDevice` | backend/app/automation/devices.py:121-130 | the selected device is eligible and first by folded name and identifier |
| `InMemoryDeviceManager.InMemoryDeviceManager.Acquire` | backend/app/automation/devices.py:107-150 | expiry first; then exactly if a device is enabled, heard of recently, not in maintenance, not leased and capable, one is reserved under a lease its owner holds, the first of those by folded name and identifier |
| `InMemoryDeviceManager.InMemoryDeviceManager.StartWork` | backend/app/automation/devices.py:152-170 | exactly a lease holder makes its device busy |
| `InMemoryDeviceManager.InMemoryDeviceManager.Renew` | backend/app/automation/devices.py:172-188 | exactly a lease holder extends its lease, which then holds until the new expiry |
| `InMemoryDeviceManager.InMemoryDeviceManager.Release` | backend/app/automation/devices.py:190-208 | exactly a lease holder ends its lease and frees the device |
| `InMemoryDeviceManager.InMemoryDeviceManager.SetMaintenance` | backend/app/automation/devices.py:210-229 | enters maintenance only on a free device; keeps the invariant exactly unless it leaves maintenance on a leased device that is heard of |
| `ArtifactSystem.EveryInterleavingSettles` | backend/app/runtime/artifacts.py:128-374 | over every interleaving of the awaited steps of creations and deletions, one operation in flight per artifact, under any failures: an artifact is settled whenever it is idle, unless the storage reported its key for another upload, its quarantine raised after moving the object, or its restore failed |
| `ArtifactSystem.LosingStepsLose` | backend/app/runtime/artifacts.py:349-374 | the last two do lose the object of a ready artifact |
| `ArtifactService.ArtifactService.Create` | backend/app/runtime/artifacts.py:128-261 | under any failures the final status and the error code are functions of the failures; the stores stay settled exactly unless the storage reported the key of a ready artifact, whose object was then discarded or replaced, or of a deleted one that keeps the new object; an object outlives a failed upload under its own key only if discarding it raised without effect; the call is a sequence of such steps |
| `ArtifactService.MisreportedKeyCanLoseTheObject` | backend/app/runtime/artifacts.py:211-216 | a concrete creation that discards the object of another, ready artifact |
| `ArtifactService.ArtifactService.Delete` | backend/app/runtime/artifacts.py:320-374 | under any failures the stores stay settled exactly unless the quarantine raised after moving the object, or neither the row could be written nor the object restored; the row then stays ready without its object; the call is a sequence of such steps |
| `ArtifactService.DeletionCanLoseTheObject` | backend/app/runtime/artifacts.py:349-374 | a concrete deletion after which the row is ready and its object gone |
| `ArtifactService.ArtifactService.FinalizeReady` | backend/app/runtime/artifacts.py:383-413 | only a pending row becomes ready, with the size and normalised hash of its object |
| `ArtifactService.ArtifactService.MarkFailed` | backend/app/runtime/artifacts.py:415-435 | exactly a pending row becomes failed, with the code; nothing else of it changes, and no other row |
| `ArtifactService.ArtifactService.MarkDeleted` | backend/app/runtime/artifacts.py:437-459 | a row of the expected status becomes deleted, a deleted one stays, any other raises |
| `Artifacts.SettleOne` | backend/app/runtime/artifacts.py:128-374 | work on one artifact leaves the promise about all others standing |
| `Artifacts.Sha256ExactlyWhen` | backend/app/services/attachment_storage.py:214-218 | exactly 64 hexadecimal digits are a hash; it is kept in lower case |
| `WebhookSecurity.FromHexOfHex` | backend/app/runtime/webhook_security.py:125-130 | decoding the hexadecimal text of a digest gives the digest back |
| `WebhookSecurity.HexOfFromHex` | backend/app/runtime/webhook_security.py:125-130 | encoding decoded lower-case hexadecimal text gives the text back |
| `DecimalText.NumberOfDecimal` | backend/app/runtime/webhook_security.py:119-122 | reading the decimal text of a number gives the number back |
| `DecimalText.DecimalOfNumber` | backend/app/runtime/webhook_security.py:119-122 | writing the number of a decimal text without leading zero gives the text back |
| `WebhookSecurity.TimestampChecksAgree` | backend/app/ci_lab/webhook_worker.py:154-155 | the signer's numeric check and the verifier's textual check accept the same timestamps |
| `WebhookSecurity.RawBodyBuffer.Append` | backend/app/runtime/webhook_security.py:65-73 | a chunk is appended unless the limit would be passed, in which case nothing changes |
| `WebhookSecurity.RawBodyBuffer.Finish` | backend/app/runtime/webhook_security.py:75-76 | the result is all appended chunks in order, within the limit |
| `WebhookSecurity.CollectBody` | backend/app/runtime/webhook_security.py:79-90 | joins the chunks, or raises exactly if they are too long together |
| `WebhookSecurity.SignersAgree` | backend/app/ci_lab/webhook_worker.py:143-158 | the worker's signer and the verifier's signer accept the same inputs up to the body limit and then sign alike |
| `WebhookSecurity.MessageIsInjective` | backend/app/runtime/webhook_security.py:168-182 | no two combinations of timestamp, identifier and body share a canonical message |
| `WebhookSecurity.ParseHeaders` | backend/app/runtime/webhook_security.py:133-165 | succeeds exactly if each security header occurs once, in any letter case, and is well formed, and returns their values |
| `WebhookSecurity.WebhookVerifier.Verify` | backend/app/runtime/webhook_security.py:230-263 | accepts exactly requests within the body limit, with well-formed headers, inside the time window, and with the right signature |
| `WebhookSecurity.WorkerHeadersCarry` | backend/app/ci_lab/webhook_worker.py:250-255 | the worker's mixed-case headers carry each security header exactly once |
| `WebhookSecurity.WorkerHeadersParse` | backend/app/ci_lab/webhook_worker.py:244-255 | what the worker signs parses back to the same identifier, timestamp and digest |
| `WebhookSecurity.SignedRequestsAreAccepted` | backend/app/runtime/webhook_security.py:230-263 | a signed request is accepted exactly while the clocks differ by at most 300 seconds |
| `WebhookSecurity.SignaturesAreNotTransferable` | backend/app/runtime/webhook_security.py:246-257 | with injective hashes, a signature is accepted for no other timestamp, identifier or body |

## Left out

- Pipeline simulator: `reset`, `list_runs`, `get`, `wait_for_terminal` and running without persistence; they read, wait or clear. A lock section reads the clock once. The service keeps runs as values and copies one into an object for each operation, so aliasing between the two is not captured. The message of a run that ended by an unexpected error leaves out the text of that error.
- CI lab: SQL text, migrations and sessions. The rows of one run are grouped into one record, and a delivery row is addressed by run and sequence number instead of its random identifier, which is kept only to break ties.
- CI lab: float rounding when elapsed seconds become milliseconds, clocks without a time zone, the 16 KiB bound on payloads the service builds itself, list endpoints, and the validators of request texts other than keys, worker names and error codes. Whitespace around a worker name is not stripped.
- CiRun.ViewsAgreeWithRun: says nothing about the job views of a waiting run, because they are wrong under a clock set back; `CiRun.WaitingViewsExactlyWhen` gives the exact condition.
- CI lab worker: configuration, the polling loop and HTTP itself.
- Automation queue: payload serialisation and its 256 KiB bound, deep copies, and list calls. Delays are exact reals rounded to microseconds.
- Cron: whitespace and digits outside ASCII, unknown zone names beyond a lookup, and the year 9999 limit of the calendar type.
- InMemoryScheduler.InMemoryScheduler.Tick: nothing is claimed about matching minutes before the record of a schedule starts: those it missed while disabled and overdue, and those before an explicitly given first run was caught up with.
- Scheduler: producers are taken not to set a schedule on their tasks nor to use keys of the scheduler's own form; the queue reads the tick's clock instead of its own when a fire is enqueued.
- Devices: the read calls, which expire leases and show effective statuses, and the validators of names and capabilities.
- Artifacts: hash texts outside ASCII, reading content, the run and connection lookup (a failed lookup counts as a failed transaction), audit contents, several storage backends, and a commit that raises after becoming durable. One artifact has one operation in flight at a time.
- Webhook signatures: the HTTP routers, replay bookkeeping, and clocks without a time zone. Bytes are characters below 256.
- The attempt, claim and lease columns of the runtime repository, whose protocols are not decided by the code at hand; identity, settings, spreadsheets and caching.
