# Scribe: models and proofs

Scribe keeps project documentation under the control of agents that crash, race and retry.
This project models the parts of it whose correctness rests on more than one function, and
proves what they promise for every input, every run and every interleaving. `dafny verify
dfyconfig.toml` checks all of it.

- **Apply-preview receipts** (`ApplyPreview*`). A preview is retained under a receipt and later
  applied by any number of workers against one receipt row and one document. `ApplyPreviewStore`
  is the row with its validator and its SQL statements, `ApplyPreviewProtocol` the method as a
  state machine with one action per statement or await, `ApplyPreviewSafety` what every
  interleaving keeps, `ApplyPreviewAnswers` which record and answer each stage leads to,
  `ApplyPreviewRecovery` what crash recovery reaches, `ApplyPreviewSurprises` where the protocol
  stops short, and `ApplyPreviewService` the method as code, each of whose calls
  is shown to be a run of the machine.
- **Durable background receipts** (`Background*`). Validators, the legal-transition table, the
  store contract, fencing over whole runs, and the capacity totals against the recovery snapshot.
- **Undo** (`ChangeRollback`, `Rollback*`). The three statements a rollback issues with their
  errors, the plan query, what replaying a faithfully logged history restores, histories that
  contain rollbacks, and how many steps fail.
- **The global changelog** (`PythonText`, `Changelog*`). The regular expressions read character by
  character, the printer, reconciling and previewing.
- **Downstream assets** (`DownstreamAssets`). Seeding, adopting and refreshing over many runs.
- **Progress logs** (`SmartSplit`, `SplitGrammar`, `ProgressLog`, `ProgressEntries`). The quote-,
  escape- and bracket-aware splitter with the grammar it respects, the assembly of multi-line
  entries, what an entry holds, and search.
- **Small machines**: bridge registry and health monitor (`Bridges`, `BridgeRuns`), draining at
  shutdown (`TransportShutdown`), the bounded report cache (`QualityCache`).

## What the proofs found

Mostly where the code does less than it says, each with the exact condition or a run that shows it.

- A refusal by the executor is recorded under the code it carries. If, and only if, that is a
  success code, a `failed_terminal` receipt is answered with `ok: true`, then or when a
  later call replays it (`FailedReceiptAnswersOkIff`, with a run in `RefusalAnswersOk`);
  `OkMeansApplied` therefore assumes no executor does that.
- A `failed_terminal` receipt may still be applied: the lock is taken after the claim and the
  executor does not look at the fence, so a worker that stalled past its lease executes after its
  successor was denied (`FailedReceiptMayStillBeApplied`). `EndedReceiptIsAppliedIff` says exactly
  when. It remains at most one application.
- `AtMostOnce` assumes that the predicted state is not one an execution may start from, and
  counts outside edits that put such a state back.
- A background token fences only leases, as `background/store.py:90` says: between two leases a
  cancellation that knows the version passes with any token (`AnyTokenCancelsBetweenLeases`).
- The receipt validator is inductive as it stands; the exact version of a receipt is bounded
  further by its state and attempts, and those bounds are attained (`RunKeepsSound`,
  `TrackedIsReached`).
- A second run of a rollback plan changes no table, but counts an error for every covered record that
  was there at the target time and was gone at the newest state, if nothing was rolled back since
  (`SecondRunFailuresAre`); `RollbackFailuresAreRefused` gives the number for any log.
- The entry a rollback logs says nothing about what it did. A later rollback to a time `t` restores
  if every rollback logged since went back no further than `t` (`RestoresDespiteRollbacks`); across
  one that did, exactly the records that one left on course (`AcrossRollbackRestoresIff`). Otherwise
  it may give values of another time, and report success (`LaterRollbackMisses`). The backup point
  taken before a rollback brings nothing back (`PreRollbackBackupRestoresNothing`).
- A changelog entry whose project or id is blank swallows the line after the field when read back;
  a blank summary is harmless (`RoundTripIff`, `RenderParse`). So reconciling keeps the entries of
  other projects exactly if every entry of the new text names its project and id, and changes
  nothing the second time exactly if those of other projects do (`ReconcileKeepsIff`,
  `ReconcileIsIdempotentIff`); the entries replaced do not matter. A section without its project
  line comes back under a project of its own (`UnnamedTextIsMangled`). A text
  with a heading that has nothing after it raises an IndexError (`ReconcileFailsIff`).
- `config/downstream_assets.py:222-223` promises that customized files are not overwritten without
  `force`. A file that differed before it was first recorded is: its bytes become the baseline, and
  the first refresh replaces it (`EarlyEditIsOverwritten`). A record with a blank baseline digest is
  treated likewise at the second refresh (`TwoRefreshesReplaceIff`). Conversely `force` does not
  replace a file that is not recorded yet (`ForceReplacesIffRecorded`). Files settle after the
  second run if no packaged config lacks the log defaults, and otherwise after the third
  (`VisitSettlesIff`, `RunsSettle`).
- Health counters are keyed by id and survive unregistration (`CountersOutliveBridges`).
- A second shutdown caller can move the phase back (`PhaseGoesBackIff`), but draining is safe for
  any number of callers (`DrainIsSafe`).

## Model

| member | source | states |
|---|---|---|
| `ApplyPreviewSafety.AtMostOnce` | src/scribe_mcp/doc_management/apply_preview.py:315-404 | In every run of any number of workers, with crashes, lease expiry, lost storage replies and outside edits anywhere, the executor moves the document into the predicted state at most once, plus once per outside edit that put it back into a state execution may start from |
| `ApplyPreviewSafety.OkMeansApplied` | src/scribe_mcp/doc_management/apply_preview.py:163-174 | A worker answers `ok: true` only if the record written is `applied`, by a fence that was current when its holder saw the predicted state under the lock; the stored row shows that record or has been swept; no executor refused with a success code |
| `ApplyPreviewSafety.RefusalAnswersOkIff` | src/scribe_mcp/doc_management/apply_preview.py:383-390 | Recording a refusal under the current fence answers `ok: true` on a receipt that becomes `failed_terminal` if and only if the code the executor refused with is a success code |
| `ApplyPreviewSafety.SealedForever` | src/scribe_mcp/storage/sqlite/apply_preview_receipts.py:196-246 | Along every run the first terminal record is the last, the row shows it until it is swept, fences never go back, and a swept receipt never returns |
| `ApplyPreviewSafety.StaleFinalizeFails` | src/scribe_mcp/doc_management/apply_preview.py:510-513 | A finalize without the current fence, or on a row no longer applying, changes nothing and never answers success |
| `ApplyPreviewSafety.ExecutionStarts` | src/scribe_mcp/doc_management/apply_preview.py:361-374 | An execution starts only inside the exclusive lock, from the precondition, or from a half-done rehome under a fence of at least 2; if its fence is current the row is still applying |
| `ApplyPreviewSafety.StepKeepsLock` | src/scribe_mcp/doc_management/manager.py:261-283 | Every step keeps the lock held by exactly the worker whose program point is inside it |
| `ApplyPreviewSafety.StepKeepsRow` | src/scribe_mcp/storage/models.py:115-174 | Every step of every worker leaves the row passing the record validator |
| `ApplyPreviewSafety.StepKeepsFence` | src/scribe_mcp/storage/sqlite/apply_preview_receipts.py:137-193 | Fences handed out are positive, pairwise different and never ahead of the row |
| `ApplyPreviewSafety.StepKeepsHolder` | src/scribe_mcp/doc_management/apply_preview.py:391-404 | Until its holder finalizes, the row under the current fence is still applying |
| `ApplyPreviewSafety.StepKeepsAnswers` | src/scribe_mcp/doc_management/apply_preview.py:479-535 | Every step keeps every success answer, replayed or fresh, justified by the terminal record |
| `ApplyPreviewSafety.RowOnlyAdvances` | src/scribe_mcp/storage/sqlite/apply_preview_receipts.py:137-193 | No step re-issues a receipt or lowers its fence |
| `ApplyPreviewRecovery.EveryFaultFreeClaimSucceeds` | src/scribe_mcp/doc_management/apply_preview.py:315-404 | In every run touched only by the executor, in any interleaving: a worker granted a claim, none of whose later steps is denied, refused, raised, lost or broken off and whose fence no later claim takes, answers `ok: true` once it answers, with the receipt `applied` and the document as predicted |
| `ApplyPreviewRecovery.RecoveryIsComplete` | src/scribe_mcp/doc_management/apply_preview.py:350-404 | And there always is such a way on: from any moment of any run touched only by the executor, with the receipt not terminal and unexpired when its lease ends, stopping whoever is in the lock, waiting and calling once more has a run that answers `ok: true`, with the receipt `applied` and the document as predicted |
| `ApplyPreviewRecovery.CallSucceeds` | src/scribe_mcp/doc_management/apply_preview.py:315-404 | From such a state with the receipt claimable one call alone has a run that finishes it, answering a replay exactly if the document already was as predicted |
| `ApplyPreviewRecovery.UndisturbedNeverFails` | src/scribe_mcp/doc_management/apply_preview.py:350-404 | In such a run no receipt ends as `failed_terminal`, and a terminal record means the document is as predicted |
| `ApplyPreviewRecovery.RecoveryRequiredKeepsClaimable` | src/scribe_mcp/doc_management/apply_preview.py:515-521 | Finalizing with RECOVERY_REQUIRED leaves row and record untouched, so the receipt stays as claimable as it was |
| `ApplyPreviewSurprises.EndedReceiptIsAppliedIff` | src/scribe_mcp/doc_management/apply_preview.py:330-390 | Once the receipt is terminal or swept, a run without outside edits still moves the document into the predicted state if and only if some worker is executing, or holds a fence and waits for or stands in the lock over a document its fence lets it execute on; otherwise no such run moves the document at all |
| `ApplyPreviewSurprises.FailedReceiptMayStillBeApplied` | src/scribe_mcp/doc_management/apply_preview.py:315-390 | Such a run from a fresh receipt: it ends `failed_terminal` with the document moved, by a stalled worker that executes after its successor was denied |
| `ApplyPreviewSurprises.StallAndDeny` | src/scribe_mcp/doc_management/apply_preview.py:330-344 | The first half of that run: an expired holder still waits for the lock while its successor fails the receipt |
| `ApplyPreviewSurprises.FailedReceiptAnswersOkIff` | src/scribe_mcp/doc_management/apply_preview.py:383-390 | Over whole runs: once a receipt is `failed_terminal`, some call has answered or can still be answered `ok: true`, replays included, if and only if the recorded code is a success code, and then some executor refused with it |
| `ApplyPreviewSurprises.RefusalAnswersOk` | src/scribe_mcp/doc_management/apply_preview.py:383-390 | A run from a fresh receipt in which that happens: the call answers `ok: true`, the receipt is `failed_terminal`, the document untouched |
| `ApplyPreviewSurprises.ReplayRun` | src/scribe_mcp/doc_management/apply_preview.py:488-493 | A new call on a terminal receipt has a run that answers what was recorded and changes nothing |
| `ApplyPreviewAnswers.InspectionGives` | src/scribe_mcp/doc_management/apply_preview.py:350-373 | The inspection under the lock, through the finalize and whatever others do between: a worker holding the current fence f records success and answers a replay exactly if it finds the predicted state with f >= 2; executes exactly from the precondition, or from a half-done rehome with f >= 2; and on any other state answers RECOVERY_REQUIRED with the row unchanged if and only if f >= 2, while f = 1 ends the receipt with TARGET_DRIFT |
| `ApplyPreviewAnswers.StageGives` | src/scribe_mcp/doc_management/apply_preview.py:333-410 | Likewise which record and which answer follow the second preflight, each reply of the executor, the observation after it, and an exception |
| `ApplyPreviewAnswers.EntryGives` | src/scribe_mcp/doc_management/apply_preview.py:279-313 | Which objection is answered first when several apply, with the row untouched |
| `ApplyPreviewAnswers.MissGives` | src/scribe_mcp/doc_management/apply_preview.py:479-493 | What a claim that was not granted answers, on every row that passes its validator: the recorded end, else expired or busy |
| `ApplyPreviewService.Service.Apply` | src/scribe_mcp/doc_management/apply_preview.py:272-414 | The method itself, over the row and the document: one call is a run of the protocol ending in the answer it returns |
| `ApplyPreviewService.Service.ApplyAdmitted` | src/scribe_mcp/doc_management/apply_preview.py:315-410 | After the preflight the call takes protocol steps of this worker only (claim, replay, lock, recheck, execution, finalize) and ends in the answer returned |
| `ApplyPreviewService.Service.ClaimReceipt` | src/scribe_mcp/doc_management/apply_preview.py:315-328 | Either the worker holds the fence the claim handed out, or the answer is the terminal replay, busy, expired or invalid the protocol gives for a miss |
| `ApplyPreviewService.Service.AfterPreflight` | src/scribe_mcp/doc_management/apply_preview.py:345-373 | Under the lock, state by state of document and fence: a replay recorded as success, an execution, RECOVERY_REQUIRED with the row unchanged, or TARGET_DRIFT recorded; each a run of the protocol |
| `ApplyPreviewService.Service.AfterReply` | src/scribe_mcp/doc_management/apply_preview.py:383-404 | A refusal, an unexpected state or success is recorded as the protocol prescribes, and the lock is about to be left with that answer |
| `ApplyPreviewService.Service.ObserveAfter` | src/scribe_mcp/doc_management/apply_preview.py:391-404 | The state observed after execution decides: as predicted, success is recorded; otherwise the receipt ends with TARGET_DRIFT |
| `ApplyPreviewService.Service.FinalizeSuccess` | src/scribe_mcp/doc_management/apply_preview.py:495-513 | Recording success, or RECOVERY_REQUIRED if the fence is stale |
| `ApplyPreviewService.Service.FinalizeFailure` | src/scribe_mcp/doc_management/apply_preview.py:515-535 | Recording a failure, except RECOVERY_REQUIRED, which is only answered; an unrecognised code is a storage error |
| `ApplyPreviewStore.ReceiptStore.Issue` | src/scribe_mcp/storage/sqlite/apply_preview_receipts.py:75-119 | A new valid row with fence 0 |
| `ApplyPreviewStore.ReceiptStore.Claim` | src/scribe_mcp/storage/sqlite/apply_preview_receipts.py:137-193 | Claims exactly an issued or lease-expired unexpired row, bumping the fence; otherwise changes nothing and reports terminal, expired, busy or not_found; `claimed` exactly for an issued row |
| `ApplyPreviewStore.ReceiptStore.Finalize` | src/scribe_mcp/storage/sqlite/apply_preview_receipts.py:196-246 | Stores the terminal record if and only if the row is applying under this fence |
| `ApplyPreviewStore.ReceiptStore.Cleanup` | src/scribe_mcp/storage/sqlite/apply_preview_receipts.py:249-272 | Deletes exactly an expired row of the batch that is not being applied |
| `ApplyPreviewStore.CheckRecord` | src/scribe_mcp/storage/models.py:146-174 | The validator, branch by branch, accepts exactly the records of the declarative predicate |
| `BackgroundRuns.RunKeepsSound` | src/scribe_mcp/background/models.py:169-246 | Every receipt of every run of admissions, claims, reclaims and transitions passes the whole validator, lies within the version bounds for its state and attempts, and ids and idempotency keys stay unique |
| `BackgroundRuns.MoveIsValid` | src/scribe_mcp/background/models.py:300-328 | A validated outcome the transition table allows turns a valid receipt into a valid one |
| `BackgroundRuns.LeaseIsValid` | src/scribe_mcp/storage/base.py:93-102 | Claiming, from ready, a due retry or an expired lease, gives a valid receipt |
| `BackgroundCapacity.TrackedIsReached` | src/scribe_mcp/background/models.py:45-53 | The version bounds are exact: each state, attempt count and version they allow is reached from a fresh receipt by claims and legal transitions |
| `BackgroundCapacity.LeasedIsReached` | src/scribe_mcp/background/models.py:45-53 | The same for leased receipts, whose versions run from attempts + 2 to 2 * attempts + 1 |
| `BackgroundRuns.RunIsLater` | src/scribe_mcp/storage/base.py:104-122 | Along any run a row keeps its place and intent, version and fence only grow, each fence step takes a version step, an unchanged version means an unchanged row, and terminal rows never change |
| `BackgroundRuns.OldHolderIsFencedOff` | src/scribe_mcp/background/models.py:380-385 | Once a held receipt has been leased again, no transition with a version up to the one its old holder saw, under any token, changes anything in any later state |
| `BackgroundRuns.OldTokenFailsWhileLeased` | src/scribe_mcp/background/store.py:83-100 | While another holds the lease, the old token fails whatever version comes with it |
| `BackgroundRuns.AnyTokenCancelsBetweenLeases` | src/scribe_mcp/background/store.py:90 | The limit of token fencing: between leases a cancellation at the current version goes through with any token |
| `BackgroundRuns.MovedIff` | src/scribe_mcp/background/store.py:83-100 | A transition succeeds if and only if the row exists at the expected version, its fence matches if it is leased, and the table allows the step |
| `BackgroundRuns.AtMostOneTerminalMove` | src/scribe_mcp/background/models.py:45-53 | In any run an operation becomes terminal at most once, and never after it has been terminal |
| `BackgroundRuns.ClaimAdvancesFence` | src/scribe_mcp/storage/base.py:93-102 | A claim hands out the next token, equal to the attempt count, with a live lease, and leaves other rows alone |
| `BackgroundRuns.AdmitKeepsSound` | src/scribe_mcp/background/models.py:249-274 | Admission keeps the table sound and its result passes its validator |
| `BackgroundCapacity.RunKeepsCapacity` | src/scribe_mcp/background/models.py:121-142 | In every run the incremental item and byte totals are exact, and neither queue nor any project exceeds limits no admission widened |
| `BackgroundCapacity.QueueNeverOverflows` | src/scribe_mcp/background/models.py:121-142 | The same from the empty store |
| `BackgroundCapacity.SnapshotIsValid` | src/scribe_mcp/background/models.py:331-373 | The recovery snapshot of any reachable store passes its validator, repeats the incremental totals, and names exactly the expired leases |
| `BackgroundCapacity.PendingOfIsExact` | src/scribe_mcp/storage/base.py:124-129 | Recovery reads exactly the nonterminal rows, each once |
| `BackgroundCapacity.ReclaimableIsExact` | src/scribe_mcp/storage/base.py:124-129 | The reclaimable ids are those of exactly the expired leases, each once |
| `BackgroundModels.CheckSnapshot` | src/scribe_mcp/background/models.py:340-373 | The two validator passes with growing sets accept exactly the snapshots the declarative predicate describes |
| `BackgroundStore.AdmissionAnswers` | src/scribe_mcp/background/models.py:249-274 | What each admission answer means: duplicate or digest conflict if and only if the idempotency key or the id is taken, the digests telling them apart; shutting down, then busy if and only if one of the four limits would be exceeded; else a fresh accepted receipt appended and the totals raised |
| `BackgroundStore.ReceiptStore.AdmitIntent` | src/scribe_mcp/background/store.py:54-60 | The operation itself gives an answer with that meaning, and changes nothing unless it admits |
| `BackgroundStore.ReceiptStore.Get` | src/scribe_mcp/background/store.py:62-65 | The row with this id, or none if and only if there is none |
| `BackgroundStore.ReceiptStore.Claim` | src/scribe_mcp/background/store.py:67-81 | Leases an eligible row of the partition, the earliest created, and none if and only if none is eligible |
| `BackgroundStore.ReceiptStore.ApplyTransition` | src/scribe_mcp/background/store.py:83-100 | Argument checks, then version, fence and table; a refusal changes nothing; a success leaves in the row the state, next attempt, result and error asked for, one version on, without a lease, the rest as it was |
| `BackgroundStore.ApplyMeans` | src/scribe_mcp/background/store.py:83-100 | What each of the six results of a transition means for the row and for the totals, field by field |
| `BackgroundStore.LeaseMeans` | src/scribe_mcp/storage/base.py:93-102 | What a claim leaves: this worker, an expiry at exactly now plus the lease, the next fence and version, the rest as it was |
| `BackgroundRuns.RetryIsNotEarly` | src/scribe_mcp/storage/base.py:93-122 | Once a transition has put a row off until x, no run whose claims come before x leases it, and from x on it may be claimed |
| `BackgroundModels.CheckReceipt` | src/scribe_mcp/background/models.py:169-246 | The receipt validator, branch by branch, accepts exactly the receipts of the declarative predicate |
| `BackgroundModels.CheckOutcome` | src/scribe_mcp/background/models.py:300-328 | And so does the outcome validator |
| `BackgroundStore.ReceiptStore.Recover` | src/scribe_mcp/background/store.py:102-105 | The recovery loop computes the snapshot and changes nothing |
| `RollbackTheory.RollbackRestoresIff` | src/scribe_mcp/doc_management/change_rollback.py:342-447 | For any faithfully logged history with increasing timestamps in which earlier rollbacks left the records on course: executing any answer to the plan query on any database makes a record of a covered table what it was at the target time if and only if the record is on course (an insertion to be undone removes it, or its other columns already agree, or a deletion to be undone brings it back), and changes no other table |
| `RollbackTheory.RollbackRestores` | src/scribe_mcp/doc_management/change_rollback.py:342-447 | Hence it restores exactly the covered tables from any database whose records are as they were at some moment since the target time, each at its own |
| `RollbackTheory.FullRollbackRestores` | src/scribe_mcp/doc_management/change_rollback.py:342-447 | Without a filter, from the newest state, the whole database is as it was |
| `RollbackTheory.UnwindRestoresIff` | src/scribe_mcp/doc_management/change_rollback.py:359-374 | The same for playing a whole history backwards |
| `RollbackTheory.UndoKeepsCourse` | src/scribe_mcp/doc_management/change_rollback.py:409-447 | One undo step, succeeding or failing, leaves its record on course exactly if it was before |
| `RollbackTheory.PlanIsUnwind` | src/scribe_mcp/doc_management/change_rollback.py:228-277 | Whatever order the database returns equal rows in, executing the plan is unwinding the log, failures included |
| `RollbackTheory.RollbackIsIdempotent` | src/scribe_mcp/doc_management/change_rollback.py:359-374 | Running the same plan a second time, filtered or not, leaves every table unchanged |
| `RollbackTheory.UndoNewestSucceeds` | src/scribe_mcp/doc_management/change_rollback.py:409-447 | Undoing the newest change gives exactly the tables before it and succeeds |
| `RollbackTheory.ReinsertFails` | src/scribe_mcp/doc_management/change_rollback.py:431-447 | Undoing a delete right where its row is back counts an error and changes nothing |
| `RollbackTheory.PlanHolds` | src/scribe_mcp/doc_management/change_rollback.py:228-277 | A plan holds exactly the logged entries after the target time, of the tables and the author asked for |
| `RollbackTheory.UpdateMeans` | src/scribe_mcp/doc_management/change_rollback.py:421-429 | Undoing an update gives back exactly the old columns of the row with the id, if it is there, and touches nothing else |
| `RollbackTheory.InsertMeans` | src/scribe_mcp/doc_management/change_rollback.py:431-440 | Undoing a delete fails without an id or over a present row; otherwise the row is there, columns without old data empty, and nothing else is touched |
| `RollbackTheory.DeleteMeans` | src/scribe_mcp/doc_management/change_rollback.py:412-419 | Undoing an insert takes the row with the id, if it is there, and touches nothing else |
| `RollbackTheory.UnknownNamesFail` | src/scribe_mcp/doc_management/change_rollback.py:409-447 | A statement that names an unknown table or column fails and changes nothing |
| `RollbackTheory.PassedOver` | src/scribe_mcp/doc_management/change_rollback.py:409-442 | An entry that lacks the id or the old data its undoing needs is passed over and counted as a success |
| `RollbackRuns.RestoresDespiteRollbacks` | src/scribe_mcp/doc_management/change_rollback.py:342-407 | A log that holds entries of earlier rollbacks still restores, as long as none of those since the target time went further back than it |
| `RollbackRuns.AcrossRollbackRestoresIff` | src/scribe_mcp/doc_management/change_rollback.py:342-407 | Rolling back across one that did go further back: a covered record is restored if and only if that rollback had left it on course |
| `RollbackRuns.LaterRollbackMisses` | src/scribe_mcp/doc_management/change_rollback.py:376-393 | A run where it does not: after a rollback and new work, rolling back to a time between gives the wrong value and counts no failure |
| `RollbackRuns.PreRollbackBackupRestoresNothing` | src/scribe_mcp/doc_management/change_rollback.py:354-393 | The backup point a rollback takes first brings nothing back: its plan is the entry of the rollback alone, changes nothing and counts no failure |
| `RollbackRuns.RollbackIsLogged` | src/scribe_mcp/doc_management/change_rollback.py:381-395 | Executing a plan and logging it extends the history: the entry is the newest, undoes nothing itself and stands for a rollback to the time of the plan, whoever its author |
| `RollbackRuns.RollbackAfterRollback` | src/scribe_mcp/doc_management/change_rollback.py:342-407 | A logged rollback or restore does not stand in the way of a later one: going further back restores the covered tables as they were at that time |
| `RollbackCounts.RollbackFailuresAreRefused` | src/scribe_mcp/doc_management/change_rollback.py:359-374 | The exact number of failing steps, from any database and whatever the log holds: the deletions whose record is there again when their turn comes |
| `RollbackCounts.RollbackFailuresAre` | src/scribe_mcp/doc_management/change_rollback.py:359-374 | With nothing rolled back since the target time: one failure for each covered record the database has and the newest state lacks |
| `RollbackCounts.FirstRunCountsNoFailure` | src/scribe_mcp/doc_management/change_rollback.py:359-374 | Hence none from the newest state, filtered or not |
| `RollbackCounts.SecondRunFailuresAre` | src/scribe_mcp/doc_management/change_rollback.py:359-374 | And for a second run one for each covered record that was there at the target time and is not in the newest state |
| `ChangeRollback.QueryIsPlan` | src/scribe_mcp/doc_management/change_rollback.py:228-277 | The query answer holds exactly the wanted entries, newest first |
| `ChangeRollback.RollbackManager.LogChange` | src/scribe_mcp/doc_management/change_rollback.py:64-108 | Appends to log and cache; a cache over 1000 entries keeps its newest 500 |
| `ChangeRollback.RollbackManager.ExecuteRollback` | src/scribe_mcp/doc_management/change_rollback.py:342-407 | Without confirmation nothing changes; with it every step is played, failures are counted and not stopped at, success means no failure, the backup point carries the clock before and the one log entry the clock after |
| `ChangeRollback.RollbackManager.RestoreFromBackup` | src/scribe_mcp/doc_management/change_rollback.py:478-510 | Plays the plan since the backup point, adds the point taken before, and logs one entry by `backup_restore` if storing works; without confirmation, backup or plan, database, log, backups and cache all stay as they are |
| `ChangelogRoundTrip.RoundTripIff` | src/scribe_mcp/doc_management/changelog.py:284-300 | A printed global changelog parses back to the same entries in order if and only if every entry has a visible one-line trimmed title, project and id and a one-line trimmed summary |
| `ChangelogRoundTrip.RenderParse` | src/scribe_mcp/doc_management/changelog.py:102-122 | What comes back for entries of parsed shape: blank project or id takes the line after it |
| `ChangelogRoundTrip.EveryParsedEntryFits` | src/scribe_mcp/doc_management/changelog.py:102-122 | Every entry any text parses to has that shape |
| `ChangelogRoundTrip.BlankValueRunsOn` | src/scribe_mcp/doc_management/changelog.py:319-323 | The field pattern of a blank value matches the next line |
| `ChangelogText.ParseGlobalChangelog` | src/scribe_mcp/doc_management/changelog.py:102-122 | The loop finds exactly the entries of the declarative parse, and fails exactly where an empty section raises an IndexError |
| `ChangelogText.RenderGlobalEntries` | src/scribe_mcp/doc_management/changelog.py:284-300 | The loop prints exactly the text of the declarative rendering |
| `ChangelogLaws.ReconcileParsesIff` | src/scribe_mcp/doc_management/changelog.py:260-281 | For every existing text that parses: the new text parses to the merged entries if and only if every merged entry is good, that is, has a visible trimmed one-line title, project and id and a trimmed one-line summary |
| `ChangelogLaws.ReconcileKeepsIff` | src/scribe_mcp/doc_management/changelog.py:260-281 | Every other project keeps its entries in order and this one has exactly its safe accepted ones, if and only if every merged entry is good; the entries replaced may be as they like |
| `ChangelogLaws.ReconcileIsIdempotentIff` | src/scribe_mcp/doc_management/changelog.py:260-281 | Reconciling twice gives the same text as once if and only if every entry of another project is good |
| `ChangelogLaws.ReconcileCommutesIff` | src/scribe_mcp/doc_management/changelog.py:260-281 | Two projects may reconcile in either order, with the same entries for every project, if and only if no existing entry without a project is read back as one of theirs |
| `ChangelogLaws.PreviewAfterReconcileIff` | src/scribe_mcp/doc_management/changelog.py:125-173 | Previewing right after reconciling reports nothing missing, changed or orphaned and all accepted ids as up to date, even when ids repeat, if and only if every accepted entry has an id and no entry without a project is read back as one of this project under another id |
| `ChangelogLaws.PreviewPartitions` | src/scribe_mcp/doc_management/changelog.py:143-171 | Adds, updates and skips partition the safe accepted ids, and orphans are none of them |
| `ChangelogLaws.PreviewMeans` | src/scribe_mcp/doc_management/changelog.py:143-171 | Which is which, over entries: missing if and only if accepted and no global entry of the project has the id; changed if and only if the last global and the last accepted entry with it differ in summary; orphaned if and only if only the global changelog has it |
| `ChangelogReconcile.SplitAccepted` | src/scribe_mcp/doc_management/changelog.py:59-82 | Accepted entries split into the safe ones in order and the blocked ones sorted by id, none lost |
| `ChangelogReconcile.ObjectionMeans` | src/scribe_mcp/doc_management/changelog.py:66-81 | An entry is safe if and only if its source is one of the three trusted ones in any case and its value is known; otherwise the reason says what is wrong first |
| `ChangelogReconcile.SafeEntriesAre` | src/scribe_mcp/doc_management/changelog.py:55-82 | The safe entries are exactly those with status accepted and nothing against them |
| `ChangelogReconcile.SortIsSorted` | src/scribe_mcp/doc_management/changelog.py:59-82 | Sorting blocked entries orders them by id and loses none |
| `ChangelogFailures.UnnamedTextIsMangled` | src/scribe_mcp/doc_management/changelog.py:260-281 | A text whose section lacks its project line: after reconciling, the entry belongs to a project made of the line after |
| `ChangelogFailures.UnnamedParses` | src/scribe_mcp/doc_management/changelog.py:102-122 | Such a text parses to an entry of the default project, which is none when reconciling |
| `ChangelogFailures.PatternAccepts` | src/scribe_mcp/doc_management/changelog.py:319-323 | The field pattern matches a dash, any whitespace, the name with or without either tick, a colon and any whitespace, and its value is the rest of that line |
| `ChangelogFailures.HeadingAccepts` | src/scribe_mcp/doc_management/changelog.py:102-122 | Two marks and any whitespace at the start of a line open a section behind the whitespace |
| `ChangelogFailures.ReconcileFailsIff` | src/scribe_mcp/doc_management/changelog.py:102-122 | A text cannot be parsed or reconciled if and only if some heading at the start of a line has only whitespace up to the end of the text or to the next such heading |
| `ChangelogFailures.EmptySectionIff` | src/scribe_mcp/doc_management/changelog.py:102-122 | Splitting at headings leaves an empty section exactly there |
| `DownstreamAssets.EditsSurvive` | src/scribe_mcp/config/downstream_assets.py:236-338 | Over any interleaving of edits elsewhere, source changes and runs without force, an edit of a recorded file survives and its recorded baseline stays |
| `DownstreamAssets.ReplacedIff` | src/scribe_mcp/config/downstream_assets.py:294-311 | Without force a recorded file is replaced if and only if the run refreshes, the bytes equal the recorded baseline and the source differs |
| `DownstreamAssets.ForceReplacesIffRecorded` | src/scribe_mcp/config/downstream_assets.py:277-309 | Force replaces a differing file if and only if it is recorded |
| `DownstreamAssets.EarlyEditIsOverwritten` | src/scribe_mcp/config/downstream_assets.py:222-223 | The documented promise fails for a file customized before it was first recorded: the first refresh replaces it without force |
| `DownstreamAssets.TwoRefreshesReplaceIff` | src/scribe_mcp/config/downstream_assets.py:294-325 | A differing recorded file is replaced within two refreshes if and only if its recorded digest matches its bytes or is blank |
| `DownstreamAssets.VisitSettlesIff` | src/scribe_mcp/config/downstream_assets.py:236-338 | A third run changes a file if and only if the second left it equal to a packaged config that lacks the log defaults; a fourth never does |
| `DownstreamAssets.RunsSettle` | src/scribe_mcp/config/downstream_assets.py:236-338 | With fixed sources and no edits no file changes after the third run, nor after the second if no packaged config lacks the log defaults |
| `DownstreamAssets.RunVisitsEachTargetOnce` | src/scribe_mcp/config/downstream_assets.py:236-338 | With distinct targets a run treats each target as if it were alone |
| `DownstreamAssets.CountersAddUp` | src/scribe_mcp/config/downstream_assets.py:236-338 | Every asset falls into exactly one of the six counters |
| `DownstreamAssets.BucketMeans` | src/scribe_mcp/config/downstream_assets.py:236-333 | Which of the six counters an asset falls under, by what was on disk, recorded, asked for and packaged |
| `DownstreamAssets.RecordMeans` | src/scribe_mcp/config/downstream_assets.py:254-325 | What each of these leaves on disk and in the registry: the new baseline is the file as left, but a customized file keeps its old baseline |
| `DownstreamAssets.CountersAre` | src/scribe_mcp/config/downstream_assets.py:236-338 | Each counter of a run is the number of its assets that fall under it |
| `DownstreamAssets.SelectedAre` | src/scribe_mcp/config/downstream_assets.py:226-227 | A run takes exactly the manifest assets with the ids asked for, or all if none are named |
| `DownstreamAssets.SeedRegistry.EnsureAssets` | src/scribe_mcp/config/downstream_assets.py:213-338 | The whole call: files, registry and the six counters, which sum to the number of selected assets |
| `DownstreamAssets.SeedRegistry.VisitAssets` | src/scribe_mcp/config/downstream_assets.py:236-338 | The loop leaves files and registry as visiting the assets one by one does, and its six counters sum to their number |
| `DownstreamAssets.SeedRegistry.VisitTarget` | src/scribe_mcp/config/downstream_assets.py:236-333 | One round of the loop: seed, adopt, refresh, mark customized or skip |
| `SmartSplit.SplitText` | src/scribe_mcp/progress_log_parser.py:72-121 | The character loop with its quote, escape and depth variables returns exactly the stripped pieces of the declarative split |
| `SmartSplit.JoinRebuilds` | src/scribe_mcp/progress_log_parser.py:72-121 | No character is lost: the separator between the unstripped pieces rebuilds the text, under every limit |
| `SmartSplit.SplitComposes` | src/scribe_mcp/progress_log_parser.py:72-121 | If scanning `a` ends outside quotes, escapes and brackets, `a;b` splits into the pieces of `a` and then of `b`; otherwise one piece spans the separator |
| `SmartSplit.PiecesAreIndivisible` | src/scribe_mcp/progress_log_parser.py:72-121 | No piece can be split further |
| `SmartSplit.LimitKeepsRest` | src/scribe_mcp/progress_log_parser.py:72-121 | A limit of m keeps the first m pieces and the rest of the text in one, hence at most m + 1 pieces |
| `SplitGrammar.QuotesProtect` | src/scribe_mcp/progress_log_parser.py:81-101 | Quoted text, in either quote, goes whole into the first piece, whatever separators and brackets it holds |
| `SplitGrammar.EscapedQuote` | src/scribe_mcp/progress_log_parser.py:82-91 | A backslash inside quotes keeps the next character from closing them |
| `SplitGrammar.BackslashOutside` | src/scribe_mcp/progress_log_parser.py:87-91 | Outside quotes it protects nothing |
| `SplitGrammar.BracketsProtect` | src/scribe_mcp/progress_log_parser.py:103-111 | Text in brackets of any of the three kinds that is balanced inside is never cut |
| `SplitGrammar.BalancedEndsAtTop` | src/scribe_mcp/progress_log_parser.py:80-118 | Balanced text leaves the scan at the top |
| `SplitGrammar.SeparatorSplits` | src/scribe_mcp/progress_log_parser.py:113-117 | Behind balanced text that holds no separator outside quotes and brackets, a separator splits, while the limit allows |
| `SplitGrammar.SplitsAsWritten` | src/scribe_mcp/progress_log_parser.py:72-121 | Hence the pieces of a balanced text are exactly the stretches between the separators outside all quotes and brackets |
| `ProgressLog.ParseMeta` | src/scribe_mcp/progress_log_parser.py:171-193 | The loop returns exactly the dictionary of the declarative reading, stray parts filed under their own key, and its early exit for blank text agrees with it |
| `ProgressLog.MetaComposes` | src/scribe_mcp/progress_log_parser.py:171-193 | Metadata in two stretches reads as the first overridden by the second |
| `ProgressLog.DictionaryComposes` | src/scribe_mcp/progress_log_parser.py:171-193 | So does the dictionary, key by key, with the stray parts of both kept in order |
| `ProgressLog.BodyRoundTrip` | src/scribe_mcp/progress_log_parser.py:129-135 | A message and metadata joined by the bar are split apart again, at the last bar |
| `ProgressEntries.BodyIsMessage` | src/scribe_mcp/progress_log_parser.py:129-135 | A body without a bar, or with something else behind its last bar, is all message |
| `ProgressEntries.KeyOpens` | src/scribe_mcp/progress_log_parser.py:20 | A key, any spaces and an equals sign open metadata |
| `ProgressEntries.PartMeans` | src/scribe_mcp/progress_log_parser.py:178-188 | A part is cut at its first equals sign and its key stripped; without a sign or a key it is an extra |
| `ProgressEntries.DictionaryHolds` | src/scribe_mcp/progress_log_parser.py:171-193 | The dictionary holds the fields, and the extras under their own key exactly if there are any |
| `ProgressLog.ParseLines` | src/scribe_mcp/progress_log_parser.py:203-246 | The loop that keeps the last entry open returns exactly the entries of the declarative assembly |
| `ProgressLog.FindLogStart` | src/scribe_mcp/progress_log_parser.py:196-200 | The first header line, if there is one |
| `ProgressLog.FileLine` | src/scribe_mcp/progress_log_parser.py:222-243 | With the last entry held open, a line does to filed and open entries what it does to the whole list |
| `ProgressLog.OneEntryPerHead` | src/scribe_mcp/progress_log_parser.py:203-246 | One entry per header line, numbered consecutively, pointing in strictly increasing order at the header it came from |
| `ProgressEntries.EntryHolds` | src/scribe_mcp/progress_log_parser.py:224-240 | Each entry holds the groups of the header line it points at, each in its place, and the two halves of its body |
| `ProgressEntries.EntryGoesOn` | src/scribe_mcp/progress_log_parser.py:242-244 | Lines behind a header extend its raw text as they are and its message stripped; blank ones are dropped |
| `ProgressLog.RawsAreKeptLines` | src/scribe_mcp/progress_log_parser.py:203-246 | The raw texts joined are exactly the headers and the visible lines from the first header on |
| `ProgressLog.KeptLinesParseTheSame` | src/scribe_mcp/progress_log_parser.py:203-246 | Dropping the preamble and blank lines changes nothing but line numbers |
| `ProgressLog.LogComposes` | src/scribe_mcp/progress_log_parser.py:203-246 | A log cut at a header parses to the entries of the parts, renumbered |
| `ProgressLog.LogNormalises` | src/scribe_mcp/progress_log_parser.py:203-246 | Writing out the kept lines and parsing again gives the same entries |
| `ProgressLog.SearchEntries` | src/scribe_mcp/progress_log_parser.py:337-353 | Stopping early misses nothing: the result is the first `limit` matches of the window |
| `ProgressEntries.WindowIs` | src/scribe_mcp/progress_log_parser.py:345-346 | The window is the newest end of the log, as many as the tail says, in the order asked for |
| `ProgressLog.SearchReturnsNewest` | src/scribe_mcp/progress_log_parser.py:337-353 | A newest-first search of a parsed log returns matches in descending order, and everything left out is older |
| `BridgeRuns.RunsStayInSync` | src/scribe_mcp/bridges/registry.py:81-247 | Over all runs of registry and monitor operations stored states equal live states, and rows of bridges no longer live read unregistered |
| `BridgeRuns.RunsShowStreaks` | src/scribe_mcp/bridges/health.py:108-166 | Over all runs, with registrations, removals and resets anywhere, each counter of each id is the length of its current streak among the checks made of it while live since the last reset |
| `BridgeRuns.CountersAreStreaks` | src/scribe_mcp/bridges/health.py:108-166 | The same for one bridge and its outcomes |
| `BridgeRuns.BridgesAreIndependent` | src/scribe_mcp/bridges/health.py:108-166 | Whatever is done to other bridges, a bridge that is only checked goes through the states its own outcomes prescribe |
| `BridgeRuns.TransitionsTakeChecks` | src/scribe_mcp/bridges/health.py:122-158 | From active with zero counters k transitions take at least ceil(k/2) unhealthy and floor(k/2) recovery thresholds of checks, thresholds below one acting as one |
| `BridgeRuns.ChecksCoverTransitions` | src/scribe_mcp/bridges/health.py:122-158 | The checks so far cover the transitions so far and the streak towards the next |
| `BridgeRuns.BoundIsTight` | src/scribe_mcp/bridges/health.py:122-158 | Some run of exactly that many checks changes state k times |
| `BridgeRuns.CountersOutliveBridges` | src/scribe_mcp/bridges/health.py:280-292 | Counters survive unregistration: a bridge registered anew fails its first check exactly if the old streak brings it there |
| `BridgeRuns.LifecycleMeans` | src/scribe_mcp/bridges/registry.py:81-247 | What registering, activating, deactivating and unregistering report and leave of the bridge in memory and storage; everything else stays |
| `Bridges.Registry.RegisterBridge` | src/scribe_mcp/bridges/registry.py:81-136 | Adds bridge, manifest, hook registration and row, or refuses and changes nothing; the three key sets stay equal |
| `Bridges.Registry.ActivateBridge` | src/scribe_mcp/bridges/registry.py:138-182 | To active, or to error if the activation hook fails, in memory and storage |
| `Bridges.Registry.DeactivateBridge` | src/scribe_mcp/bridges/registry.py:184-216 | To inactive in memory and storage |
| `Bridges.Registry.UnregisterBridge` | src/scribe_mcp/bridges/registry.py:218-247 | Out of bridges, manifests and hooks, with the row marked |
| `Bridges.HealthMonitor.CheckBridgeHealth` | src/scribe_mcp/bridges/health.py:108-166 | Updates both counters and moves the bridge when a threshold is met; an unknown bridge changes nothing |
| `Bridges.HealthMonitor.Transition` | src/scribe_mcp/bridges/health.py:204-248 | Moves a bridge in memory and storage; the counters stay |
| `Bridges.HealthMonitor.ResetCounts` | src/scribe_mcp/bridges/health.py:280-292 | Clears the counters of one bridge or of all |
| `TransportShutdown.DrainIsSafe` | src/scribe_mcp/server.py:1238-1288 | For any number of shutdown callers, in every interleaving, the counter equals the operations begun and not ended, and nothing is in flight for a caller that saw the drain complete |
| `TransportShutdown.BackendClosesDrained` | src/scribe_mcp/server.py:1260-1288 | While or after a caller closes the backend nothing is in flight unless its own drain deadline fired |
| `TransportShutdown.NothingStartsAfterShutdown` | src/scribe_mcp/server.py:113-120 | Once the phase has left running no operation is ever admitted again |
| `TransportShutdown.PhaseGoesBackIff` | src/scribe_mcp/server.py:1242-1260 | The phase goes back exactly when a shutdown starts while another closes the backend, or reaches it after another has closed it |
| `TransportShutdown.OneCallerGoesForward` | src/scribe_mcp/server.py:1238-1288 | With one caller the phases only go forward, in step with it |
| `TransportShutdown.SecondCallerSendsPhaseBack` | src/scribe_mcp/server.py:1242-1245 | A run in which a second caller moves the phase from backend_close back to draining |
| `TransportShutdown.TransportGate.BeginOperation` | src/scribe_mcp/server.py:113-120 | One step of the machine: counts an operation exactly while running, and says so |
| `TransportShutdown.TransportGate.EndOperation` | src/scribe_mcp/server.py:123-128 | One step of the machine: the counter does not go below zero |
| `TransportShutdown.TransportGate.StartShutdown` | src/scribe_mcp/server.py:1242-1245 | Draining, unless already closed |
| `TransportShutdown.TransportGate.PollDrain` | src/scribe_mcp/server.py:1248-1258 | The drain loop is left when nothing is in flight or the deadline has passed |
| `TransportShutdown.TransportGate.CloseBackend` | src/scribe_mcp/server.py:1261-1262 | One step of the machine: to closing the backend, whatever the phase was |
| `TransportShutdown.TransportGate.FinishShutdown` | src/scribe_mcp/server.py:1287-1288 | One step of the machine: to closed |
| `QualityCache.CacheIsTransparent` | src/scribe_mcp/readiness.py:496-506 | If equal keys mean equal results, every answer of any sequence of calls is the uncached one; the cache holds the newest 32 insertions in order under distinct keys |
| `QualityCache.Cache.Collect` | src/scribe_mcp/readiness.py:496-506 | Answers from the cache or computes and inserts, evicting the oldest; the answer is a new object no cache entry shares |
| `QualityCache.SessionIsTransparent` | src/scribe_mcp/readiness.py:496-506 | Whatever callers overwrite in the reports returned to them, in any sequence of calls and overwrites every answer is the uncached one |
| `QualityCache.Cache.Session` | src/scribe_mcp/readiness.py:496-506 | Any sequence of calls and overwrites of returned reports leaves the cache and gives the answers of the calls alone |
| `QualityCache.Cache.Find` | src/scribe_mcp/readiness.py:496-506 | The cached report of a key, if there is one |
| `QualityCache.CountWarnings` | src/scribe_mcp/readiness.py:396-493 | The counting loops compute the totals, and per code exactly the non-blank codes that occur with how often they occur |

## Left out

Assumptions and parameters:

- Time is an integer; clocks, leases and deadlines are compared, never read, and the deadline exit of the drain loop is a step of its own.
- Hashes are injective: a digest is the bytes or text it was taken of. Token secrecy and JSON encoding are not modelled; document states are canonical texts.
- The scope check, the preflight and its target identities are parameters of a call: which objection they raise, if any.
- The executor is assumed to store document states only between being called and returning, and to be done once it has stored the predicted one; how it writes files is not modelled.
- The background backend is not part of this model. The store contract is that of `storage/base.py:75-130`, with these choices where it is silent: idempotency key, then operation id, then shutting down, then capacity are checked in that order; a taken operation id is a digest conflict; the eligible receipt created first is claimed; `updated_at` never goes back; a cancel request sticks; an illegal transition is a result of its own.
- Faithful logging of changes is an assumption of the rollback theorems: non-empty ids, old data that covers the changed columns, and whole rows for deletes; timestamps increase strictly. A row is a map over all columns of its table, and inserting without an id fails.
- The function `append` stands for the YAML check that may append log defaults; it is assumed to change nothing the second time.
- Values in the metadata, the header expression and the filters of a search are parameters of the progress-log model.
- The cached quality computation and its key are uninterpreted functions, and the content of a report is one value.

- The safe accepted entries of a project are assumed to have visible one-line titles without other line separators, and a project a visible one-line name, where a theorem says `AllFit(Derived(..))`.

Not modelled:

- ApplyPreviewService.Service.Apply: one call at a time, while nobody else is in the lock, at one clock reading and with every storage reply arriving; interleaving, waiting, lost replies and storage faults are those of the machine the call is shown to be a run of.
- ApplyPreviewService.Service.ApplyAdmitted: likewise.
- QualityCache.CountWarnings: the counts, not the lists of warnings and documents of the report.
- DownstreamAssets.SeedRegistry.EnsureAssets: without unreadable or unwritable files, timestamps and the registry file itself.
- RollbackRuns.AcrossRollbackRestoresIff: for one rollback that went too far; across several, what is left depends on each in turn.
- ApplyPreviewRecovery.RecoveryIsComplete: the receipt must not expire before the current lease does, because an expired receipt cannot be claimed.
- RollbackTheory.RollbackRestores: covers table filters, but no author filter; an author filter undoes some changes of a record and not others, which restores no earlier state.
- ChangelogReconcile.SplitAccepted: lower-casing is that of the letters A to Z, so that a few non-ASCII spellings of the provenance words count as unsafe here.
- ChangelogReconcile.PreviewPartitions: the id lists are sets; their sorting and the duplicate and unversioned lists are left out.
- ProgressLog.ParseLines: an entry carries its time and metadata as texts; the parsed time is left out, and the dictionary is what `ParseMeta` makes of the text.
- The parser of a project changelog and of its observed release context: entries are taken as parsed.
- Risk, warnings and durations of a rollback plan, a failing backup point, and the retention of old changes.
- Failing bridge storage, the bodies of plugin hooks, checking all bridges, periodic checks and state-change callbacks.
- Closing the backend, cancelling background tasks, and server startup, which sets the phase to running again.
- Ingress, authentication, tool registration, the command line, installation, settings and release scripts: no behaviour across operations.
- Conflict resolution and diffs rest on similarity ratios; case lifecycles, file watching and plugin synchronisation would only add easier members.
