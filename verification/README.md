# Verification of the service platform

A model in Dafny 4.11 of the transactional core of the platform: attachment uploads and malware scanning, accounts and
password resets, dues and their ledgers, the request workflow with its quotes, and two pure functions whose meaning is
exact. `dafny verify dfyconfig.toml` checks the project. Nothing here runs the platform.

## How it is modelled

A database transaction is one atomic step, with its rollback. Whatever happens between transactions (object-store calls,
password verification, lost acknowledgements) is a step of its own. Each protocol is a function on values, `Next`, run
over arbitrary sequences of steps, so a theorem about every run covers every interleaving; a crash is an actor that takes
no further step. The classes in the `...Records` files are the services in their own form, methods that update fields
and loop over rows, each proved to do what the function of the same name says; their `Perform` methods, and each method
of a `DealRecord`, carry the invariants of the state machines over to them. The `...Outcomes` files, with `ScanLeases`,
`RequestMatrix`, `AmountTexts` and `JsonReading`, say in the caller's terms what each operation answers, exactly when, and
what it leaves behind.

| files | what they cover |
|---|---|
| `RequestStates`, `RequestMatrix`, `Workflow`, `Quotes`, `QuoteSafety`, `QuoteOutcomes`, `RequestRecords` | the transition matrix, the versioned request and its event log, priced quotes and the dues they open |
| `AttachmentModel`, `ScanFencing`, `ScanLeases`, `ScanVerdicts`, `ObjectLifecycle`, `UploadQuota`, `UploadOutcomes`, `ReconcilerFairness`, `ReconcilerOrder`, `AttachmentRecords` | uploads, leased scanning, removal and reconciliation |
| `AccountModel`, `AccountSecurity`, `AccountOutcomes`, `AdminRole`, `AccountRecords` | credentials, sessions, reset links, roles |
| `Ledger`, `Bookkeeping`, `Settlement`, `BookOutcomes`, `Amounts`, `AmountTexts`, `Grouping`, `FinanceRecords` | dues, ledgers, split payments, money as text, reports |
| `JsonText`, `Utf8`, `CanonicalJson`, `JsonReading`, `ChatReplay`, `LikePattern` | message fingerprints and escaped search |

Assumptions: a new scan job is PENDING with attempt 0, a new due UNPAID at version 1, a new request at version 1; each
attachment has its own object key; a password hash is fresh each time; `FOR UPDATE` serializes writers of a row; the
digest of a fingerprint is injective; a double is a real number within relative error 2^-53 of the exact quotient; a
currency determines its minor unit; time only moves forward.

## What was found

- An operator's re-queue of a scan job resets its attempt count. Tokens stay distinct exactly when no worker is live on
  the job at that moment (`ScanFencing.TokensAreReusedIff`, `ScanFencing.ResetKeepsFenceIff`); otherwise a stale worker
  can hold the token of the latest claimant and bury its job (`ScanFencing.ResetLetsStaleWorkerWrite`). With no worker
  live the re-queue still costs attempts: claimants up to the attempt already seen are turned away
  (`ScanFencing.RequeueTurnsAwayExactly`). Verdicts stay unique and final even so.
- The comment on the split payment says that a failure midway never corrupts the ledger. Every due does stay the fold of
  its ledger, but between its transactions the live total is T + R and then R instead of T (`Settlement.SplitOffsets`). A
  crash leaves it there (`Settlement.UndisturbedTotals`). A change of the original due by somebody else before it is voided
  ends the operation with at most its first opening committed, which stays (`Settlement.InterferenceStopsIt`,
  `Settlement.DoomedPlanOpensAtMostOnce`); a change of the portion before it is paid ends it without the payment
  (`Settlement.PaymentInterferenceStopsIt`).
- The check that keeps at least one administrator makes the ADMIN role irrevocable, because another rule allows only one
  administrator (`AdminRole.TheAdministratorIsForever`).
- The canonical serialization is exact on JSON values. The metadata of a message is typed as JSON but not checked as such
  before it is fingerprinted (chat-validation.ts:81-97 only measures its text; the check at chat-service.ts:299 is for rows
  read back), so values outside JSON collide: NaN and the infinities read as null (`ChatReplay.NonFiniteReadsAsNull`).
- A request version does not always exclude a second writer. It does exactly when the first commit is not the reservation
  of an upload, a quote on a request that is QUOTED already, or the withdrawal of an expired quote
  (`QuoteSafety.FirstWriterIsTheOnlyOneIff`); `QuoteSafety.TwoWritersOneVersion` is a run with two.
- By the time a row of the reconciler's queue is claimed a second time, not every row that was eligible at its first claim
  has been claimed: a row that somebody else writes goes to the back (`ReconcilerFairness.DeletionSendsARowBack`). The order
  is safe exactly for the rows that at the first claim are DELETE_PENDING with their deletion time set, or are past
  PENDING_UPLOAD on a request that is COMPLETED, CANCELLED or REJECTED (`ReconcilerOrder.WaitingOrderHoldsIff`, and
  `ReconcilerOrder.OrderHoldsIff` for ties). Such writes are at most two, so
  no row starves (`ReconcilerFairness.WaitIsBoundedAnyway`).
- A DELETED row's object can come back only through a PUT that lands later than the age fences allow
  (`ObjectLifecycle.LatePutResurrects`); once it is absent with no PUT in flight it never can
  (`ObjectLifecycle.AbsentForeverIff`).

## Model

| member | source | states |
|---|---|---|
| `RequestStates.TerminalMeansNoExit` | packages/core/src/request-state.ts:52-123 | COMPLETED, CANCELLED and REJECTED are exactly the statuses with no way out, for any actor |
| `RequestMatrix.TheMatrix` | packages/core/src/request-state.ts:52-82 | the matrix read off status by status: from each status which statuses are next, which of these moves are left to staff, none for a visitor |
| `ScanFencing.LiveTokensAreDistinct` | packages/requests/src/scan-processor.ts:149-186 | in every run whose operator resets find no live worker, the live workers on a job hold pairwise distinct tokens, all at most the attempt count, only the latest claimant can pass the fence, and past the attempts seen before the last reset the row's scan attempt never passes the job's, in spite of deferrals, expired leases and crashes |
| `ScanFencing.NoResetIsQuiet` | packages/requests/src/scan-processor.ts:149-186 | runs without an operator reset are such runs, with nothing seen before them |
| `ScanFencing.InitiallyFenced` | packages/requests/src/scan-processor.ts:149-186 | the invariant holds before the first upload |
| `ScanFencing.StaleWorkersWriteNothing` | packages/requests/src/scan-processor.ts:268-485 | whatever a worker that is no longer the latest claimant does next, request, row, job, events and pending removals stay as they are |
| `ScanFencing.LatestClaimantStarts` | packages/requests/src/scan-processor.ts:268-320 | on a job that was never reset, the latest claimant of a scannable attachment is never turned away by the attempt guard |
| `ScanFencing.ClaimantsPastTheFloorStart` | packages/requests/src/scan-processor.ts:268-320 | the attempt guard lets the latest claimant of a scannable attachment through exactly when its token is past the attempts seen before the last reset |
| `ScanFencing.DeferKeepsFence` | packages/requests/src/scan-processor.ts:402-458 | a deferral keeps the fence: no two live workers come to share a token by it |
| `ScanFencing.ResetKeepsFenceIff` | packages/operations/src/outbox-monitor-service.ts:191-211 | a reset starts the fence afresh, from the attempt the attachment has seen and from no other, exactly when no worker is live |
| `ScanFencing.TokensAreReusedIff` | packages/operations/src/outbox-monitor-service.ts:191-211 | some continuation of a reset, without another one, has two live workers on one token if and only if a worker is live at the reset |
| `ScanFencing.RequeueTurnsAwayExactly` | packages/operations/src/outbox-monitor-service.ts:191-211 | after a reset with no worker live, in every continuation without another one, of the claimants that find the attachment scannable exactly those whose token is at most the attempt already seen are turned away |
| `ScanFencing.ResetLetsStaleWorkerWrite` | packages/operations/src/outbox-monitor-service.ts:200-211 | a concrete run in which, after a reset, a stale worker shares the latest claimant's token and dead-letters its job |
| `ScanLeases.ClaimAnswers` | packages/requests/src/scan-processor.ts:149-186 | a job is claimed exactly when it is PENDING or RETRY, or PROCESSING under a lease that is over, and its time has come; the claim is one more attempt, with a lease from now on and a worker holding its number |
| `ScanLeases.StartAnswers` | packages/requests/src/scan-processor.ts:268-320 | a start gets through exactly with the lease, a scannable file and an attempt the file has not seen, which it then has; without the lease or with a stale attempt the worker goes, with a file that is not scannable it stays to bury the job |
| `ScanLeases.DeferralHandsBack` | packages/requests/src/scan-processor.ts:402-458 | an applied deferral leaves the job RETRY with one attempt less than its token, the file waiting with the same, available after the delay; any other leaves row and job alone |
| `ScanLeases.DeferralsAreFree` | packages/requests/src/scan-processor.ts:149-186 | after any number of rounds of claim, start and deferral the job and the file stand at the attempt they stood at, so no outage brings a file nearer to its last attempt |
| `ScanLeases.RetryAnswers` | packages/requests/src/scan-processor.ts:322-400 | a failed scan below the last attempt leaves job and file at its token, waiting for the delay; on a file that has changed it buries the job |
| `ScanLeases.FailuresAreCounted` | packages/requests/src/scan-processor.ts:322-400 | rounds of claim, start and failure below the last attempt cost one attempt each and tell the request nothing |
| `ScanLeases.LastRetryAnswers` | packages/requests/src/scan-processor.ts:322-400 | at the last attempt the file ends in SCAN_ERROR with its event and version, kept in the store, and the job is buried |
| `ScanLeases.TheLastFailureIsFinal` | packages/requests/src/scan-processor.ts:322-400 | a file fails for good at its maxAttempts-th failure and not before |
| `ScanLeases.CompletionAnswers` | packages/requests/src/scan-processor.ts:460-576 | a verdict under the fence is recorded with its event and the next version and the job delivered; a clean file stays STORED, an infected one is condemned without a deletion time and its removal begun; every other case is told apart |
| `ScanLeases.BurialAnswers` | packages/requests/src/scan-processor.ts:578-586 | a worker whose file was not scannable dead-letters the job if it still has the lease, and touches nothing else |
| `ScanLeases.ResetAnswers` | packages/operations/src/outbox-monitor-service.ts:191-211 | a reset needs a dead-lettered or retrying job in the status it was seen in, and puts it at attempt zero, PENDING and available at once |
| `ScanLeases.NobodyClaimsEarly` | packages/requests/src/scan-processor.ts:149-166 | until its lease or delay is over nobody gets a job: in every run that ends before, without a reset and with the latest claimant idle, the job stays with that claim and no worker is added, whatever everybody else does |
| `ScanVerdicts.DeliveredIffVerdict` | packages/requests/src/scan-processor.ts:487-576 | in every run, resets and stale workers included: a job is DELIVERED exactly when its attachment carries a verdict, and then exactly one completion event names it |
| `ScanVerdicts.VerdictsNeverChange` | packages/requests/src/scan-processor.ts:487-576 | a delivered verdict, its job and its completion event are the same in every continuation |
| `ScanVerdicts.TerminalCommit` | packages/requests/src/scan-processor.ts:487-576 | a terminal commit passes the fence, bumps the request version by exactly one and records that version; one that does not apply leaves request, row and log alone |
| `ScanVerdicts.DeliveredIsFinal` | packages/requests/src/scan-processor.ts:322-400 | no single step of any actor changes a delivered job, its verdict or its completion event |
| `ScanVerdicts.InitiallySettled` | packages/requests/src/scan-processor.ts:487-576 | the verdict invariant holds before the first upload |
| `ObjectLifecycle.StoredRowsHaveTheirObject` | packages/requests/src/attachments.ts:213-360 | a STORED row has its object in every interleaving of uploader, deleter, scanner and reconciler, with crashes and lost acknowledgements anywhere |
| `ObjectLifecycle.StoredIsNeverReentered` | packages/requests/src/attachments.ts:261-360 | no run moves a row back to an earlier storage stage; once a row has failed or left STORED, no run makes it STORED again |
| `ObjectLifecycle.RowNext` | packages/requests/src/attachments.ts:261-360 | one step of the whole system never moves a row back, and only a finalization makes a row STORED |
| `ObjectLifecycle.DeletedObjectsStayGone` | packages/requests/src/reconciliation.ts:166-250 | if an attachment's own PUT lands within the age fences up to the moment its row is DELETED, its object is absent then and in every continuation, whatever happens to other attachments |
| `ObjectLifecycle.GoneForever` | packages/requests/src/reconciliation.ts:166-250 | an absent object with no PUT in flight stays absent in every continuation |
| `ObjectLifecycle.AbsentForeverIff` | packages/requests/src/reconciliation.ts:166-250 | the object is absent in every continuation if and only if it is absent now and no PUT is in flight |
| `ObjectLifecycle.LatePutResurrects` | packages/requests/src/reconciliation.ts:48-49 | the fences are needed: a PUT that lands after its abandoned upload was reconciled leaves an object behind a DELETED row |
| `ObjectLifecycle.InitiallyClean` | packages/requests/src/attachments.ts:210-237 | both storage invariants hold before the first upload |
| `UploadQuota.LimitsHold` | packages/requests/src/attachments.ts:593-635 | what admission counts never exceeds the request's limits, whatever uploads, deletions, failures and reconciliations interleave |
| `UploadQuota.NeverRecounted` | packages/requests/src/attachments.ts:637-643 | no step moves an uncounted row back into the counted set |
| `UploadQuota.ReservationStaysWithin` | packages/requests/src/attachments.ts:210-237 | an admitted reservation, counted from the moment it commits, leaves every request within its limits |
| `UploadQuota.InitiallyWithinLimits` | packages/requests/src/attachments.ts:593-635 | the limits hold before the first upload |
| `UploadQuota.FilesStayWithinLimits` | packages/requests/src/attachments.ts:593-635 | in every run, the set of a request's attachments that are not deleted and are PENDING_UPLOAD, STORED or DELETE_PENDING has at most as many members as its service and the platform allow, and their sizes sum to at most the platform's total |
| `UploadQuota.AggregatesAreFiles` | packages/requests/src/attachments.ts:616-629 | the two aggregates of the query are the size of that set and the sum of its sizes |
| `UploadQuota.ReservationAnswers` | packages/requests/src/attachments.ts:213-237 | each of the six refusals and the admission by its exact condition on version, status, service, size, that set and its bytes: MAX_FILES_EXCEEDED exactly when everything before it fits and the set is full |
| `UploadQuota.ReservationTakesRoom` | packages/requests/src/attachments.ts:213-237 | an admitted reservation adds one pending row under the next identifier, without job, event or object, which is in that set at once |
| `UploadOutcomes.FinalizationAnswers` | packages/requests/src/attachments.ts:261-300 | finalization succeeds exactly on a request that has not ended and a pending row; the two refusals come in this order |
| `UploadOutcomes.FinalizationLeaves` | packages/requests/src/attachments.ts:300-360 | it stores the file under the policy's scan status with an event at the next version, and queues a job at attempt zero exactly when a scan is asked for |
| `UploadOutcomes.FailureAnswers` | packages/requests/src/attachments.ts:637-643 | only a pending row whose uploader has given up becomes UPLOAD_FAILED, and nothing else of it changes |
| `UploadOutcomes.UploadsComeToRest` | packages/requests/src/attachments.ts:213-360 | reserved, landed and finalized, an upload ends STORED with its object there and one event, and marking it failed after a lost acknowledgement changes none of that |
| `UploadOutcomes.DeletionAnswers` | packages/requests/src/attachments.ts:372-424 | the refusals of a deletion by their exact conditions, in order, and its success by theirs |
| `UploadOutcomes.DeletionLeaves` | packages/requests/src/attachments.ts:378-424 | a deletion condemns the row at its time, tells the request at the next version, and begins the removal except after a failed upload |
| `UploadOutcomes.RemovalAnswers` | packages/requests/src/attachments.ts:444-456 | a removal takes the object away; the mark needs a condemned row, and for the scanner the infected verdict of its own attempt |
| `UploadOutcomes.DeletedFilesComeToRest` | packages/requests/src/attachments.ts:372-456 | a stored file that its student deletes comes to rest DELETED with its object gone |
| `UploadOutcomes.InfectedFilesComeToRest` | packages/requests/src/scan-processor.ts:460-485 | so does an infected one, still without a deletion time |
| `UploadOutcomes.OldRowsAreReconcilable` | packages/requests/src/reconciliation.ts:198-216 | the reconciler may take a pending upload from its own age on, a failed or condemned row from the other age on, and nothing else |
| `UploadOutcomes.AbandonedFilesComeToRest` | packages/requests/src/reconciliation.ts:166-250 | an abandoned upload comes to rest DELETED with no object |
| `UploadOutcomes.BatchIsTaken` | packages/requests/src/reconciliation.ts:198-250 | of all attachments exactly those the batch names are taken, each condemned, stamped and with one removal begun |
| `UploadOutcomes.BatchesAreTheOldest` | packages/requests/src/reconciliation.ts:198-216 | of the rows that are old enough and not locked a batch names those last written first, the smaller identifier among equals, and leaves one out only when it is full |
| `UploadOutcomes.BatchesAreBounded` | packages/requests/src/reconciliation.ts:60-65 | a batch holds between one and twenty rows, as many as it is asked for in between |
| `ReconcilerFairness.WaitIsBounded` | packages/requests/src/reconciliation.ts:166-250 | while a waiting row is neither claimed nor written, the batch slots offered since never exceed the rows that were ahead of it, however often other rows fail and come back and whichever are locked |
| `ReconcilerFairness.WaitIsBoundedAnyway` | packages/requests/src/reconciliation.ts:166-250 | with any interleaving of writes by others: as long as a row stays in the queue and is not claimed, the slots offered while it waits unlocked never exceed the rows ahead of it at the start plus all rows once for each write to it, three times the number of rows altogether |
| `ReconcilerFairness.WritesAreFew` | packages/requests/src/attachments.ts:372-443 | along any run, others write a row that stays in the queue at most twice |
| `ReconcilerFairness.NoSecondClaimBeforeTheFirst` | packages/requests/src/reconciliation.ts:60-65 | after a batch that took one row and passed over a waiting one, and before the other is claimed or leaves the queue, the first is claimed again at most twice for each write to the other, never without one and at most four times in any run; claims that skip the other for its lock do not count, nor, where the minimum age is zero, repetitions at one and the same time |
| `ReconcilerFairness.ClaimsPassingOverAreFew` | packages/requests/src/reconciliation.ts:198-250 | the same from any point at which the one row was claimed before: its lead over the other, at most two claims, plus two for each write to the other, for every minimum age |
| `ReconcilerFairness.DeletionSendsARowBack` | packages/requests/src/attachments.ts:372-443 | such a write does change the order, in a state reached from an empty system: after a student's deletion a row is claimed twice before one that waited since its first claim |
| `ReconcilerOrder.OrderHoldsIff` | packages/requests/src/reconciliation.ts:198-250 | when a batch takes one reconcilable row and passes over another, the other is claimed, or leaves the queue, before the first is claimed again, in every continuation, if and only if the other is frozen (DELETE_PENDING with its deletion time set, or past PENDING_UPLOAD on a request that has ended) and was not last written at that very time with the greater identifier |
| `ReconcilerOrder.WaitingOrderHoldsIff` | packages/requests/src/reconciliation.ts:198-250 | for a row last written before the claim, the order is safe exactly when it is frozen, whatever the minimum age |
| `ReconcilerOrder.FrozenIsNeverWritten` | packages/requests/src/attachments.ts:378-410 | along any run in which a frozen row stays in the queue unclaimed nobody writes it, since a request that has ended stays so and refuses the student's deletion |
| `ReconcilerOrder.DueIsClaimed` | packages/requests/src/reconciliation.ts:198-250 | batches of one, with no locks held, take the rows ahead of a due row one by one and then the row itself, before any row behind it |
| `ReconcilerOrder.EveryRequestCanEnd` | packages/core/src/request-state.ts:52-82 | from every status that has not ended an allowed edge leads nearer to an end, COMPLETED or CANCELLED |
| `ReconcilerOrder.UploadsRun` | packages/requests/src/attachments.ts:213-360 | every run keeps, as an empty table has it, that a pending or failed row has no deletion time, and a pending one an uploader that has not finished |
| `ReconcilerOrder.DeletionLetsPass` | packages/requests/src/attachments.ts:372-443 | for a failed or infected row without a deletion time, on a request that has not ended, a run in which the student's deletion lets the other row be claimed first |
| `ReconcilerOrder.LateFinalizationLetsPass` | packages/requests/src/attachments.ts:261-360 | the same of a pending row whose upload was acknowledged: the request takes allowed edges to its end, so the upload can no longer be finalized and is marked failed |
| `ReconcilerFairness.QueueShrinks` | packages/requests/src/reconciliation.ts:198-250 | nobody overtakes a waiting row, and each claim takes a full batch from ahead of it |
| `AttachmentRecords.RequestRecord.ReserveUpload` | packages/requests/src/attachments.ts:210-237 | the reservation in place: the six refusals in their order, or a PENDING_UPLOAD row |
| `AttachmentRecords.AttachmentRecord.PutLands` | packages/requests/src/attachments.ts:239-259 | the PUT outside any transaction: the object appears, acknowledged or not |
| `AttachmentRecords.AttachmentRecord.PutFails` | packages/requests/src/attachments.ts:239-259 | the uploader sees its PUT fail while the bytes may still be on their way |
| `AttachmentRecords.AttachmentRecord.FinalizeUpload` | packages/requests/src/attachments.ts:261-360 | the finalization in place, its version bump rolled back when the row is no longer pending |
| `AttachmentRecords.AttachmentRecord.MarkUploadFailed` | packages/requests/src/attachments.ts:637-643 | only a row that is still pending becomes UPLOAD_FAILED |
| `AttachmentRecords.AttachmentRecord.DeleteAttachment` | packages/requests/src/attachments.ts:372-443 | the deletion transaction with its refusals, version bump and removal ticket |
| `AttachmentRecords.AttachmentRecord.FinishRemoval` | packages/requests/src/attachments.ts:444-456 | a removed object's row becomes DELETED under the guard of whoever removed it |
| `AttachmentRecords.AttachmentRecord.ClaimJob` | packages/requests/src/scan-processor.ts:149-186 | the claim: attempt count up, lease set, a new worker holding the new count |
| `AttachmentRecords.AttachmentRecord.StartScan` | packages/requests/src/scan-processor.ts:268-320 | the start of a scan under the fence and the attempt guard |
| `AttachmentRecords.AttachmentRecord.RetryOrFail` | packages/requests/src/scan-processor.ts:322-400 | a failed scan: retry with a delay, or the terminal error once attempts run out |
| `AttachmentRecords.AttachmentRecord.DeferDependency` | packages/requests/src/scan-processor.ts:402-458 | an unavailable scanner gives the attempt back on row and job |
| `AttachmentRecords.AttachmentRecord.Complete` | packages/requests/src/scan-processor.ts:460-485 | a finished scan, with the object removal an infected verdict starts |
| `AttachmentRecords.AttachmentRecord.FinishTerminal` | packages/requests/src/scan-processor.ts:487-576 | the terminal transaction in place: verdict, event, version bump, job status |
| `AttachmentRecords.AttachmentRecord.DeadLetterJob` | packages/requests/src/scan-processor.ts:578-586 | a job that cannot be scanned is buried under the fence |
| `AttachmentRecords.AttachmentRecord.ResetJob` | packages/operations/src/outbox-monitor-service.ts:191-211 | the operator's re-queue of a dead-lettered or retrying job |
| `AttachmentRecords.AttachmentRecord.ReconcilerTakes` | packages/requests/src/reconciliation.ts:217-250 | a reconcilable row becomes DELETE_PENDING at the time of the claim |
| `AttachmentRecords.AttachmentRecord.Perform` | packages/requests/src/attachments.ts:213-360 | any call on one attachment is its local step, keeps the row and its object in step, never takes the row back, and keeps the fence unless it re-queues the job under a live worker |
| `AttachmentRecords.ClaimBatch` | packages/requests/src/reconciliation.ts:198-250 | the claim loop takes every selected row and hands out one removal each |
| `AttachmentRecords.ProcessBatch` | packages/requests/src/reconciliation.ts:161-196 | the batch's two loops: what each attachment becomes, and counters that account for every claimed row |
| `AccountSecurity.SessionsAreCurrent` | packages/auth/src/service.ts:599-807 | in every interleaving of two-phase logins and password changes with resets, suspensions, role edits and cleanup, an unrevoked session was created under the current hash and role set of an ACTIVE, non-SYSTEM user, and idles out no later than it expires |
| `AccountSecurity.NewAccountsAreSecure` | packages/auth/src/service.ts:1141-1287 | new accounts, registered or made by an administrator, satisfy the session invariant |
| `AccountSecurity.LoginKeepsSessions` | packages/auth/src/service.ts:656-745 | the locked half of a login makes a session only when the verified hash is still the stored one |
| `AccountSecurity.TouchKeepsSessions` | packages/auth/src/service.ts:752-807 | session use never extends the idle deadline past the absolute one |
| `AccountSecurity.ResetDefeatsPendingAttempts` | packages/auth/src/service.ts:1866-1988 | after a reset every session is revoked, its token is used, and a login or password change that had verified the old password never succeeds |
| `AccountSecurity.CleanupSparesUsableSessions` | packages/auth/src/service.ts:2244-2248 | cleanup leaves an unrevoked, unexpired session as it was |
| `AccountOutcomes.LoginAnswers` | packages/auth/src/service.ts:656-712 | the locked half of a login succeeds exactly on the hash it verified, for a verified ACTIVE account without the SYSTEM role; the three refusals by their exact conditions |
| `AccountOutcomes.LoginLeaves` | packages/auth/src/service.ts:712-745 | a success adds one session, under the current hash and roles with the lifetimes of the role, revokes the session it replaces and touches no other |
| `AccountOutcomes.LoginsSucceed` | packages/auth/src/service.ts:599-745 | begun and committed undisturbed, the login of such an account leaves a session that is usable through both lifetimes |
| `AccountOutcomes.TouchLeaves` | packages/auth/src/service.ts:752-807 | the use of a usable session extends its idle deadline exactly when the touch interval has passed, to the earlier of the idle lifetime from now and the absolute deadline |
| `AccountOutcomes.SuspensionAnswers` | packages/auth/src/service.ts:1385-1425 | a suspension succeeds exactly for an ACTIVE student, a reactivation exactly for a SUSPENDED one; every other call is refused |
| `AccountOutcomes.SuspensionLeaves` | packages/auth/src/service.ts:1385-1425 | a suspension leaves the account SUSPENDED with every session revoked, a reactivation makes it ACTIVE and revives no session, a refusal changes nothing |
| `AccountOutcomes.SuspensionKeepsOut` | packages/auth/src/service.ts:1385-1425 | in every continuation of a suspension without a reactivation the account stays SUSPENDED, no session is usable, no login or password change commits, begun before or after, and no reset link works or is sent |
| `AccountOutcomes.GrantAnswers` | packages/auth/src/service.ts:2126-2177 | SYSTEM is never granted, ADMIN only while nobody else has it, any other role always; a granted role revokes every session |
| `AccountOutcomes.RevocationAnswers` | packages/auth/src/service.ts:2179-2234 | ADMIN is taken only while another account stands in; an absent role changes nothing, a taken one revokes every session |
| `AccountOutcomes.ChangeAnswers` | packages/auth/src/service.ts:1990-2074 | a password change succeeds exactly on the hash it verified, for a verified ACTIVE account without the SYSTEM role; the refusals by their exact conditions |
| `AccountOutcomes.ChangeLeaves` | packages/auth/src/service.ts:2020-2074 | it leaves a fresh hash, every earlier session and token revoked, and exactly one session, made now under it |
| `AccountOutcomes.TokenAnswers` | packages/auth/src/service.ts:1866-1910 | a reset token works exactly while it is there, unused, unrevoked and in time; its four failures by their exact conditions |
| `AccountOutcomes.ResetAnswers` | packages/auth/src/service.ts:1866-1940 | a reset succeeds exactly with a working token on an ACTIVE account; the token comes first |
| `AccountOutcomes.ResetLeaves` | packages/auth/src/service.ts:1940-1988 | it uses its token, completes the request linked to it and no other, and revokes every session |
| `AccountOutcomes.EmailResetLeaves` | packages/auth/src/service.ts:1804-1864 | a link is sent exactly to an ACTIVE account with a verified address; it becomes the only live token and no phone request keeps a link |
| `AccountOutcomes.IssueAnswers` | packages/auth/src/service.ts:1581-1660 | a link is issued exactly for a waiting request in time, of an ACTIVE account with a verified phone, with the reference that was told |
| `AccountOutcomes.IssueLeaves` | packages/auth/src/service.ts:1660-1730 | issuing approves the request with the new token as its link, expires every other waiting request, unlinks every approved one and revokes every other live token; late, it only lets the request expire |
| `AccountOutcomes.CleanupRemoves` | packages/auth/src/service.ts:2236-2253 | sessions go exactly when they have expired or were revoked longer ago than they are kept, tokens exactly when either is longer ago than they are kept; the others stay as they are |
| `AccountOutcomes.CleanupSettlesRequests` | packages/auth/src/service.ts:2254-2271 | a waiting request expires when its time is over, an approved one loses its link when the linked token is dead; the others stay as they are |
| `AccountOutcomes.NewAccountsStart` | packages/auth/src/service.ts:1141-1287 | what a registration and an administrator's creation begin with, the setup link and the request that outlives it by a minute included |
| `AccountSecurity.LinksStayCoherent` | packages/auth/src/service.ts:1581-1864 | in every run at most one token is live and at most one request APPROVED, an APPROVED request links exactly that token, any other links none, and nothing dangles |
| `AccountSecurity.NewAccountsAreLinked` | packages/auth/src/service.ts:1208-1228 | new accounts, including the setup link an administrator's creation issues, satisfy the link invariant |
| `AccountSecurity.IssueKeepsLinks` | packages/auth/src/service.ts:1581-1730 | issuing a link expires, revokes and clears before it links |
| `AccountSecurity.CleanupKeepsLinks` | packages/auth/src/service.ts:2254-2271 | cleanup unlinks a request before its token goes |
| `AccountSecurity.IssuedLinkCompletes` | packages/auth/src/service.ts:1670-1700 | the issued link is the only one that works, and using it in time changes the password and completes exactly its request |
| `AdminRole.TheAdministratorIsForever` | packages/auth/src/service.ts:2076-2234 | over all accounts and every run there is never a second administrator, and an administrator never stops being one: the stand-in that a revocation of ADMIN demands cannot exist |
| `AdminRole.AdminStep` | packages/auth/src/service.ts:2126-2177 | no single creation, grant, revocation or other step makes a second administrator or removes the first |
| `AdminRole.FirstAdministrator` | packages/auth/src/service.ts:2126-2177 | while there is none, a new account or an existing one becomes the administrator |
| `AdminRole.SecondAdministrator` | packages/auth/src/service.ts:2126-2234 | once there is one, no creation or grant makes another and no revocation relieves the one |
| `AccountRecords.AccountRecord.BeginLogin` | packages/auth/src/service.ts:599-654 | the unlocked half of a login, remembering the hash it verified |
| `AccountRecords.AccountRecord.CommitLogin` | packages/auth/src/service.ts:656-745 | the locked half, with the prior session rotated and the refusals in their order |
| `AccountRecords.AccountRecord.TouchSession` | packages/auth/src/service.ts:752-807 | the checks of session use and the bounded idle extension |
| `AccountRecords.AccountRecord.SetSuspended` | packages/auth/src/service.ts:1369-1440 | suspension revokes every session, reactivation only changes the status |
| `AccountRecords.AccountRecord.GrantRole` | packages/auth/src/service.ts:2126-2177 | the grant with its refusals, SYSTEM and a second administrator; a granted role revokes every session |
| `AccountRecords.AccountRecord.RevokeRole` | packages/auth/src/service.ts:2179-2234 | the revocation, refused for ADMIN without a stand-in; a revoked role revokes every session, an absent one changes nothing |
| `AccountRecords.AccountRecord.CommitChange` | packages/auth/src/service.ts:1990-2074 | a password change in place: new hash, links and tokens and sessions revoked, one new session |
| `AccountRecords.AccountRecord.ResetPassword` | packages/auth/src/service.ts:1866-1988 | a password reset in place, token failures in their order |
| `AccountRecords.AccountRecord.RequestEmailReset` | packages/auth/src/service.ts:1804-1864 | an e-mail reset clears every link before it issues its own |
| `AccountRecords.AccountRecord.IssuePhoneReset` | packages/auth/src/service.ts:1581-1730 | an administrator's link, with the expiry that commits while it refuses |
| `AccountRecords.AccountRecord.RejectPhoneReset` | packages/auth/src/service.ts:1732-1802 | a rejection, with the same committing expiry |
| `AccountRecords.AccountRecord.Cleanup` | packages/auth/src/service.ts:2236-2271 | the cleanup's deletions and updates in their order |
| `AccountRecords.AccountRecord.Perform` | packages/auth/src/service.ts:599-807 | any call on one account is the step of the state machine it is modelled by, and leaves current sessions current and links coherent |
| `Ledger.DueIsTheFoldOfItsLedger` | packages/finance/src/service.ts:662-779 | in every run a due is the fold of its ledger: versions 1, 2, ..., status after the last entry, one open payment exactly when PAID; the ledger only grows and a VOIDED due never changes |
| `Ledger.OpenPaymentIsUnique` | packages/finance/src/service.ts:691-709 | a ledger that replays has one unreversed payment when it is paid and none otherwise, and each reversal names an earlier payment |
| `Ledger.EachPaymentIsReversedOnce` | packages/finance/src/service.ts:691-709 | no two reversals take back the same payment |
| `Ledger.PaymentsSumToTheBalance` | packages/finance/src/service.ts:710-731 | recorded plus reversed payments sum to the amount when PAID and to 0 otherwise |
| `Ledger.PaidDueHasItsPayment` | packages/finance/src/service.ts:691-708 | the missing-payment failure is unreachable: a PAID due's last entry is the payment to reverse |
| `Ledger.OneChangePerVersion` | packages/finance/src/service.ts:686-742 | of two changes holding the same expected version at most one commits, whatever happens in between |
| `Ledger.ChangeKeepsLedger` | packages/finance/src/service.ts:710-742 | recording, reversing and voiding keep the due the fold of its ledger |
| `BookOutcomes.ChangeAnswers` | packages/finance/src/service.ts:686-709 | a payment and a voiding succeed exactly on an UNPAID due, a reversal exactly on a PAID one, each at the version it was offered for; the refusals by their exact conditions |
| `BookOutcomes.ChangeLeaves` | packages/finance/src/service.ts:710-742 | amount, currency and unit stay; the status moves, and the new entry says by how much: the amount, the amount taken back from the payment entered just before, or nothing |
| `BookOutcomes.ReversalUndoesPayment` | packages/finance/src/service.ts:662-779 | a payment and its reversal leave an UNPAID due over the same amount that can be paid again |
| `Ledger.OpenedIsConsistent` | packages/finance/src/service.ts:523-548 | a new due is the fold of its one-entry ledger |
| `Ledger.LatestUnreversed` | packages/finance/src/service.ts:691-707 | the query for the payment to reverse finds the newest unreversed one, or there is none |
| `Bookkeeping.ReportAgreesWithLedgers` | packages/finance/src/service.ts:327-342 | per currency, over any set of dues, the paid total equals the ledgers' net payments, and unpaid plus paid plus voided equal everything ever opened |
| `Bookkeeping.BooksStep` | packages/finance/src/service.ts:503-548 | every transaction keeps all dues consistent, within the amount range and on their currency's minor unit |
| `Bookkeeping.CreateTotal` | packages/finance/src/service.ts:503-548 | a created due adds its amount to the unpaid total and touches no other due |
| `BookOutcomes.CreationAnswers` | packages/finance/src/service.ts:503-522 | a creation reads its amount first and needs a request that has left DRAFT; each refusal and the success by its exact condition |
| `BookOutcomes.OpeningTakesTheNextIdentifier` | packages/finance/src/service.ts:523-548 | the new due is UNPAID at version 1 over the amount read, with the one entry that says so, under the next identifier; no other due is touched |
| `Bookkeeping.ChangeTotal` | packages/finance/src/service.ts:662-779 | a change moves one due's amount from its old status to its new one |
| `Bookkeeping.StepTotal` | packages/finance/src/service.ts:503-548 | what any transaction adds to a total, in any currency and over any statuses, is read off its arguments and the due it names |
| `Settlement.MoneyIsAccountedFor` | packages/finance/src/service.ts:1487-1572 | through a split or a replacement, at every crash point and in every interleaving, each total is what it was, plus what the others did, plus exactly the effect of the committed transactions; every due stays the fold of its ledger |
| `Settlement.UndisturbedTotals` | packages/finance/src/service.ts:1487-1572 | with nobody else at work, wherever the operation crashes each total is what it was plus the effect of the committed transactions |
| `Settlement.InterferenceStopsIt` | packages/finance/src/service.ts:1534-1553 | once somebody else has changed the original before it is voided, or the operation has failed, at most the openings planned before the voiding commit in any continuation, and the effect of what committed stays in the totals |
| `Settlement.DoomedPlanOpensAtMostOnce` | packages/finance/src/service.ts:1487-1572 | a split or replacement whose original was changed since it was read commits its first opening at most, from its very start: the live total moves by the others' shares and by the reissued amount, or by the others' shares alone |
| `BookOutcomes.TransactionAnswers` | packages/finance/src/service.ts:1518-1572 | an operation's next transaction commits exactly when nothing stands in its way (the request for an opening, version and then status of the due for a change) and leaves what is said there; otherwise it changes no due and the operation is over with that error |
| `Settlement.PaymentInterferenceStopsIt` | packages/finance/src/service.ts:1554-1572 | once somebody else has paid or voided the due opened for the paid part, no continuation commits another transaction of the operation, and each total moves by the others' shares alone |
| `Settlement.SplitStoppedBeforeItsPayment` | packages/finance/src/service.ts:1487-1572 | a split stopped there, however its run was interleaved, has had exactly the effect of its first three transactions |
| `Settlement.SplitOffsets` | packages/finance/src/service.ts:1487-1572 | the live total stands at T, T + R, R, T, T after 0 to 4 transactions of a split T = P + R; at the end P is newly paid and the outstanding total has dropped by exactly P |
| `Settlement.SplitBegins` | packages/finance/src/service.ts:1507-1517 | a split that passes its checks starts from a consistent plan of four transactions |
| `BookOutcomes.SplitAnswers` | packages/finance/src/service.ts:1500-1517 | a split starts exactly for an UNPAID due and a text that is a smaller amount P < T, whatever its share of T; a missing due, another status and any other text are refused in this order |
| `BookOutcomes.SplitPlans` | packages/finance/src/service.ts:1518-1572 | what it starts is fresh, with the plan to open T - P, void the original, open P and pay it, in this order: MoneyIsAccountedFor and SplitOffsets begin here |
| `BookOutcomes.SplitMovesThePart` | packages/finance/src/service.ts:1500-1572 | a completed split moved exactly P from outstanding to paid, for every P < T: the live total is what it was, the paid total grew and the outstanding one shrank by P |
| `BookOutcomes.SplitLeaves` | packages/finance/src/service.ts:1500-1572 | the original is voided, T - P outstanding under the next identifier, P paid under the one after, in the same currency, and no other due is touched |
| `Settlement.ReplaceOffsets` | packages/finance/src/service.ts:1609-1668 | the live total stands at T, T + N, N through a replacement of T by N |
| `Settlement.ReplaceBegins` | packages/finance/src/service.ts:1629-1643 | a replacement that passes its checks starts from a consistent plan of two transactions |
| `BookOutcomes.ReplacementAnswers` | packages/finance/src/service.ts:1609-1628 | a replacement starts exactly for an UNPAID due and a text that is an amount; the refusals in their order by their exact conditions |
| `BookOutcomes.ReplacementPlans` | packages/finance/src/service.ts:1629-1668 | what it starts is fresh: it plans to open N and void the original, and nothing for the amount the due has |
| `BookOutcomes.ReplacementMovesTheAmount` | packages/finance/src/service.ts:1609-1685 | a completed replacement moved the outstanding total from T to N |
| `BookOutcomes.ReplacementLeaves` | packages/finance/src/service.ts:1609-1685 | the original is voided and N outstanding under the next identifier; no other due is touched |
| `FinanceRecords.FinanceDesk.CreateDue` | packages/finance/src/service.ts:503-548 | the creation in place, with its refusals in their order |
| `FinanceRecords.FinanceDesk.ChangeDue` | packages/finance/src/service.ts:662-779 | payment, reversal and voiding in place, with their refusals in their order |
| `FinanceRecords.FinanceDesk.RecordSplitPayment` | packages/finance/src/service.ts:1466-1591 | undisturbed, a split succeeds exactly for an UNPAID due, a text that is a smaller amount, and a request that has left DRAFT, each error by its own condition; then the remainder is unpaid, the original voided and the paid part paid, through amounts that are printed and parsed again; otherwise nothing changes |
| `FinanceRecords.FinanceDesk.ReplaceDueAmount` | packages/finance/src/service.ts:1599-1685 | undisturbed, a replacement succeeds exactly for an UNPAID due, a text that is an amount, and, when that differs, a request that has left DRAFT, each error by its own condition; it does nothing for the same amount and else reissues at the new one and voids the original |
| `FinanceRecords.FinanceDesk.SettleInvoice` | packages/finance/src/service.ts:1385-1404 | the settlement loop: one payment per due in order, stopping at the first failure and keeping what is committed |
| `FinanceRecords.FinanceDesk.Perform` | packages/finance/src/service.ts:503-548 | any single call is a step of the books and keeps every due well-formed and the fold of its ledger |
| `FinanceRecords.UndisturbedSettlementPaysAll` | packages/finance/src/service.ts:1385-1404 | when nothing changed since the dues were read, the loop pays every one of them and touches nothing else |
| `BookOutcomes.SettlementStopsAtTheFirstChange` | packages/finance/src/service.ts:1385-1404 | when the first k dues are as they were read and the next one is not, exactly those k are paid |
| `Amounts.PrintedAmountParsesBack` | packages/finance/src/validation.ts:69-84 | for every amount from 1 to a million whole units, dividing by 10^k in double precision, printing with toFixed and parsing gives the amount back |
| `Amounts.ParsedAmountIsExact` | packages/finance/src/validation.ts:69-84 | a text becomes m minor units exactly when it has the pattern's form, no more fraction digits than the currency, denotes m minor units, and m is in range |
| `AmountTexts.AmountIsSpelledIff` | packages/finance/src/validation.ts:69-84 | a text parses to m exactly when it is space, one to ten digits without a leading zero unless single, optionally a point and at least one digit and at most the currency's k, and space, with the value m counted from the point, in range: each text by its parts, not by the parser's splitting |
| `AmountTexts.OtherTextsAreInvalid` | packages/finance/src/validation.ts:69-84 | every text that no such parts spell is INVALID_AMOUNT |
| `AmountTexts.SpelledOut` | packages/finance/src/validation.ts:69-84 | with the parts and space written out: w1 + a + w2 is a * 10^k minor units, w1 + a + "." + b + w2 is (a * 10^|b| + b) * 10^(k - |b|) |
| `AmountTexts.WholeUnits` | packages/finance/src/validation.ts:69-84 | "12" SAR is 1200 |
| `Amounts.RoundedIsNearest` | packages/finance/src/service.ts:1518-1519 | the integer that is printed is the nearest one, the larger on a tie (section 21.1.3.3 of ECMA-262) |
| `Grouping.GroupBalances` | packages/finance/src/service.ts:463-493 | the balance loop gives each student of the rows, and nobody else, all their rows in order, the sum of their unpaid counts and the newest activity |
| `Grouping.BalancesAreDirectSums` | packages/finance/src/service.ts:431-493 | from the dues through the query to the loop: a student's unpaid count is the number of their unpaid dues and their last activity the newest change of a live due |
| `Grouping.CountIsOfFacts` | packages/finance/src/service.ts:431-462 | the query's counts are the sizes of the sets of dues they are about |
| `Grouping.AmountsAddUp` | packages/finance/src/service.ts:431-462 | the query's amounts add up over any division of the dues, one due counting with its amount exactly when student, currency and status are meant |
| `Grouping.GroupInvoice` | packages/finance/src/service.ts:1287-1301 | the invoice loop makes one line per currency that occurs, holding that currency's total and the minor unit of its first item |
| `Grouping.FirstUnitIsTheCurrencys` | packages/finance/src/service.ts:1280-1286 | when every due has its currency's minor unit, so has every line |
| `Grouping.InvoiceCountsEveryDue` | packages/finance/src/service.ts:1302-1306 | the counts of the lines add up to the number of dues |
| `Workflow.CreationIsCoherent` | packages/requests/src/service.ts:335-442 | a draft, and a request submitted by an administrator at version 2, start with a log that replays to the row |
| `Workflow.MovedIsCoherent` | packages/requests/src/service.ts:511-672 | a status write along an allowed edge keeps the log replaying to the row |
| `Workflow.EdgesAreAllowed` | packages/requests/src/service.ts:674-771 | every status-bearing event leaves the status reached before it, along an edge allowed for its recorded actor, with a version above every earlier one |
| `Workflow.StatusVersionsIncrease` | packages/requests/src/service.ts:965-994 | the versions of status-bearing events strictly increase |
| `RequestRecords.RequestRow.ForStudent` | packages/requests/src/admin-service.ts:398-552 | an administrator's creation, at version 1 or, submitted at once, at version 2 with both events |
| `RequestRecords.RequestRow.UpdateDraft` | packages/requests/src/service.ts:444-509 | a draft edit bumps the version with an event that carries no status |
| `RequestRecords.RequestRow.Submit` | packages/requests/src/service.ts:511-611 | the submission with its refusals in their order |
| `RequestRecords.RequestRow.Cancel` | packages/requests/src/service.ts:613-672 | a cancellation, where the matrix allows the student one |
| `RequestRecords.RequestRow.StudentTransition` | packages/requests/src/service.ts:674-771 | the student's four targets, where the matrix allows them |
| `RequestRecords.RequestRow.AdminTransition` | packages/requests/src/admin-service.ts:1068-1155 | an administrator's transition, never out of DRAFT |
| `QuoteOutcomes.RequestsBegin` | packages/requests/src/admin-service.ts:398-552 | a request begins as a DRAFT at version 1, or, submitted at once by an administrator, SUBMITTED at version 2 |
| `QuoteOutcomes.DraftEditAnswers` | packages/requests/src/service.ts:444-509 | a draft edit needs its version and a DRAFT, and adds one event without a status |
| `QuoteOutcomes.SubmissionAnswers` | packages/requests/src/service.ts:511-611 | a submission by the exact conditions of its refusals and of its success, which moves the request to SUBMITTED as the student |
| `QuoteOutcomes.StudentAnswers` | packages/requests/src/service.ts:613-771 | cancellations and the student's four targets: at its version the matrix decides, any other target is refused |
| `QuoteOutcomes.AdministrationAnswers` | packages/requests/src/admin-service.ts:1068-1155 | an administrator's move: at its version the matrix decides, but never out of DRAFT |
| `QuoteOutcomes.AssignmentAnswers` | packages/requests/src/admin-service.ts:1157-1240 | an assignment by its exact refusals; a repeated one succeeds and writes nothing |
| `QuoteSafety.DealsStaySound` | packages/requests/src/quote-service.ts:158-732 | in every run over the student, administration, quote, attachment and finance services: the log replays to the row, at most one quote is pending, ACCEPTED quotes have their one due, settled quotes never change, terminal requests stay terminal |
| `QuoteSafety.NewRequestsAreSound` | packages/requests/src/service.ts:335-442 | a new request satisfies that invariant |
| `QuoteSafety.AcceptedMeansOneDue` | packages/requests/src/quote-service.ts:759-810 | a quote is ACCEPTED exactly when one linked due exists, a well-kept one over the quote's amount, currency and minor unit |
| `QuoteSafety.OneWriterPerVersion` | packages/requests/src/quote-service.ts:701-732 | once a step has moved the row past a version, no step of any service that expects that version, upload reservations and attachment deletions included, ever writes anything again |
| `QuoteSafety.StaleWritersWriteNothing` | packages/requests/src/admin-service.ts:1077-1105 | a write that expects another version changes neither request nor quotes nor dues |
| `QuoteSafety.CommitsKeepTheVersionIff` | packages/requests/src/attachments.ts:213-237 | a commit of a versioned writer leaves the version exactly when it reserves an upload, stores a quote on a request that is QUOTED already, or withdraws a quote whose time is over |
| `QuoteSafety.FirstWriterIsTheOnlyOneIff` | packages/requests/src/attachments.ts:213-237 | of all writers holding one version, the first to commit is the only one that ever commits, in every continuation, if and only if its commit is none of those three |
| `QuoteSafety.TwoWritersOneVersion` | packages/requests/src/quote-service.ts:213-245 | a run from a creation to a state in which a quote and a transition, both expecting version 4, both commit |
| `QuoteSafety.ReservationsShareAVersion` | packages/requests/src/attachments.ts:213-237 | any number of admitted reservations commits at one version, each adding its row |
| `QuoteSafety.CreationStoresTheOffer` | packages/requests/src/quote-service.ts:197-268 | a committed creation stores exactly the offer as the only pending quote, lets lapsed ones expire, and leaves the request QUOTED |
| `QuoteOutcomes.CreationAnswers` | packages/requests/src/quote-service.ts:158-268 | a new key makes an offer exactly on a request that is found, at its version, without an offer that still waits, on the way to an offer; each refusal by its exact condition |
| `QuoteOutcomes.UsedKeyAnswers` | packages/requests/src/quote-service.ts:165-195 | a used key answers with its quote for the same payload and is refused with another; it writes nothing |
| `QuoteSafety.ResponseMovesTheRequest` | packages/requests/src/quote-service.ts:404-432 | a committed answer settles its quote and moves the QUOTED request to ACCEPTED, or back under review |
| `QuoteOutcomes.ResponseAnswers` | packages/requests/src/quote-service.ts:374-432 | an answer needs the quote's version, a pending quote, its time and a QUOTED request, each refusal by its exact condition; late, the quote expires and the caller is told |
| `QuoteOutcomes.ResponseLeaves` | packages/requests/src/quote-service.ts:404-432 | a committed answer settles the quote as the student said and moves the request with two events at the next version |
| `QuoteOutcomes.AcceptanceOpensItsDue` | packages/requests/src/quote-service.ts:759-793 | an acceptance opens one UNPAID due over the quote's amount, a refusal none |
| `QuoteSafety.CommittedWithdrawalMoves` | packages/requests/src/quote-service.ts:597-641 | a committed withdrawal marks the quote, records the action and moves the QUOTED request back under review |
| `QuoteOutcomes.WithdrawalAnswers` | packages/requests/src/quote-service.ts:508-641 | a withdrawal needs the administrator's own quote, both versions, a pending quote, its time and a QUOTED request, each refusal by its exact condition |
| `QuoteOutcomes.WithdrawalLeaves` | packages/requests/src/quote-service.ts:597-641 | it marks the quote, records the action, and moves the request back under review with two events at the next version |
| `QuoteSafety.ExpiredAnswerTouchesOnlyTheQuote` | packages/requests/src/quote-service.ts:394-402 | the expiry branch of a response commits EXPIRED, on a pending quote whose time is over, and leaves request, dues, withdrawals, attachments and other quotes untouched |
| `QuoteSafety.ExpiredWithdrawalTouchesOnlyTheQuote` | packages/requests/src/quote-service.ts:597-600 | the same of a withdrawal |
| `QuoteSafety.CreationReplays` | packages/requests/src/quote-service.ts:165-195 | repeating a committed creation's key, at any later point of any run, answers with the same quote or refuses another payload, and changes nothing |
| `QuoteSafety.ResponseReplays` | packages/requests/src/quote-service.ts:374-389 | the same for a committed response |
| `QuoteSafety.WithdrawalReplays` | packages/requests/src/quote-service.ts:561-589 | the same for a committed withdrawal |
| `QuoteSafety.AcceptingIsSound` | packages/requests/src/quote-service.ts:759-793 | accepting a pending quote opens exactly one due, over its own amount |
| `RequestRecords.DealRecord.CreateQuote` | packages/requests/src/quote-service.ts:158-330 | the creation in place, rolling quotes and request back on its late refusals; a sound deal stays sound |
| `RequestRecords.DealRecord.Respond` | packages/requests/src/quote-service.ts:332-506 | the response in place, with its replay, refusals and committing expiry; a sound deal stays sound |
| `RequestRecords.DealRecord.Withdraw` | packages/requests/src/quote-service.ts:508-699 | the withdrawal in place, with its replay, refusals and committing expiry; a sound deal stays sound |
| `RequestRecords.DealRecord.ReserveFile` | packages/requests/src/attachments.ts:213-237 | the reservation as the request row sees it: it checks version and status, adds a row and leaves the version |
| `RequestRecords.DealRecord.DeleteFile` | packages/requests/src/attachments.ts:372-424 | the deletion as the request row sees it: it checks version, status and the attachment, which the student or the reconciler may have taken already, and bumps the version with its event |
| `QuoteOutcomes.FilesAnswer` | packages/requests/src/attachments.ts:213-443 | reservations and deletions as the request sees them, by exact condition; only finalizing and deleting tell the request |
| `CanonicalJson.CanonicalIdentifies` | packages/requests/src/chat-service.ts:243-255 | two values serialize alike exactly when they are the same up to object key order, non-finite numbers counting as null |
| `CanonicalJson.SameTextGivesSame` | packages/requests/src/chat-service.ts:243-255 | in front of any delimiter a canonical text ends where it ends and stands for one value only |
| `CanonicalJson.SameGivesSameText` | packages/requests/src/chat-service.ts:243-255 | the order of keys never shows in the text |
| `CanonicalJson.AscendingIsUnique` | packages/requests/src/chat-service.ts:251-253 | the members of an object have one order by key |
| `CanonicalJson.CanonicalIsWellFormed` | packages/requests/src/chat-service.ts:243-255 | no canonical text holds a lone surrogate, so none is lost in its UTF-8 encoding |
| `JsonReading.CanonicalWrites` | packages/requests/src/chat-service.ts:243-255 | every canonical text is its value in JSON (RFC 8259) without white space, every object with its keys in ascending order, by a grammar and a reading of literals that are independent of the serializer |
| `JsonReading.LessIsBefore` | packages/requests/src/chat-service.ts:251-253 | keys are compared by code units, the first difference deciding, a key before its extensions |
| `JsonReading.LiteralReadsBack` | packages/requests/src/chat-service.ts:244-246 | a literal reads back (section 7 of RFC 8259) as its string, whatever units it holds |
| `JsonReading.EscapesAreShortest` | packages/requests/src/chat-service.ts:244-246 | each code point takes its shortest form, numbered escapes in lower case, as section 25.5.2.3 of ECMA-262 has it |
| `JsonReading.BytesDecode` | packages/requests/src/chat-service.ts:263-273 | a text without lone surrogates is read back from its bytes by a decoder written from section 3 of RFC 3629 |
| `JsonReading.FingerprintedBytesWrite` | packages/requests/src/chat-service.ts:257-274 | the digested bytes are the JSON text of the value |
| `Utf8.EncodeIsInjective` | packages/requests/src/chat-service.ts:263-273 | texts without lone surrogates are told apart by their UTF-8 bytes (section 3 of RFC 3629) |
| `Utf8.LoneSurrogatesCollide` | packages/requests/src/chat-service.ts:263-273 | other texts are not: a lone surrogate is encoded like U+FFFD |
| `JsonText.QuoteIsPrefixFree` | packages/requests/src/chat-service.ts:244-246 | a string literal, with every escape and lone surrogate, ends where it ends and stands for one string only |
| `JsonText.QuoteIsWellFormed` | packages/requests/src/chat-service.ts:244-246 | a string literal holds no lone surrogate, whatever the string holds |
| `ChatReplay.FingerprintIdentifies` | packages/requests/src/chat-service.ts:257-274 | two messages have the same encoded canonical payload, which is what is digested, exactly when type, body, attachment and metadata are the same, up to metadata key order, non-finite numbers counting as null |
| `ChatReplay.FingerprintedText` | packages/requests/src/chat-service.ts:263-271 | what is digested holds the attachment, body, content type and metadata under their names, in the order of the names, an absent one as null |
| `ChatReplay.SentMessages.Send` | packages/requests/src/chat-service.ts:505-575 | a used client identifier stores nothing, and is a replay exactly when the message is the one stored under it |
| `ChatReplay.NonFiniteReadsAsNull` | packages/requests/src/chat-service.ts:243-255 | two metadata values that differ and serialize alike: a non-finite number and null |
| `LikePattern.SearchFindsSubstrings` | packages/requests/src/admin-service.ts:382-384 | LIKE with the escaped search text between two % finds exactly the texts that contain it, for any case folding |
| `LikePattern.EscapedMatchesItself` | packages/requests/src/admin-service.ts:382-384 | an escaped text consumes exactly its own characters |
| `LikePattern.OnesMatchTheLength` | packages/requests/src/admin-service.ts:382-384 | unescaped, an underscore would match any one character |

## Left out

- ReconcilerFairness.WaitIsBoundedAnyway: a claim skips rows that other transactions hold locked; slots offered while the row itself is locked are not counted, and how long a lock is held is not modelled.
- ObjectLifecycle.DeletedObjectsStayGone: holds when the attachment's own PUT lands within the age fences; `LatePutResurrects` shows that the fences are needed, and `AbsentForeverIff` is the exact form without them.
- ScanFencing.LiveTokensAreDistinct: holds for runs whose operator resets find no live worker; `TokensAreReusedIff` says that this is exact.
- FinanceRecords.FinanceDesk.RecordSplitPayment: the method runs undisturbed; interference and crashes between its transactions are the subject of the Settlement module.
- FinanceRecords.FinanceDesk.ReplaceDueAmount: likewise undisturbed.
- FinanceRecords.FinanceDesk.SettleInvoice: the acceptance of pending receipts after the loop is not modelled; receipts are left out.
- AttachmentRecords.ClaimBatch: the branch for rows without a storage key is not modelled, since every reservation stores one.
- AttachmentRecords.ProcessBatch: the batch runs undisturbed, so its final update always finds its row; interleaved with others the same steps are those of the state machine, where `AttachmentRecord.FinishRemoval` says when a row is not found.
- RequestRecords.RequestRow.ForStudent: the lookups of student and service and the submission key are not modelled.
- RequestRecords.DealRecord.Withdraw: one request; a key used for another quote's request is a flag, as for `CreateQuote`.
- QuoteSafety.ReservationsShareAVersion: the capacity checks after version and status are one flag, as for `DealRecord.ReserveFile`; `UploadQuota` has them.
- RequestRecords.DealRecord.ReserveFile: the capacity checks after version and status are one flag here; `AttachmentRecords.RequestRecord.ReserveUpload` has them.
- Grouping.GroupBalances: the final sort of the balances, by outstanding amount and then by activity, is not modelled.
- LikePattern.SearchFindsSubstrings: case folding works character by character; foldings that change the number of characters are not modelled.
- CanonicalJson.CanonicalIdentifies: how a finite number prints is taken as given: different numbers print differently, and 0 and -0 count as one.
- ChatReplay.SentMessages.Send: one sender in one conversation; attachment checks, receipts and the other tables a message touches are not modelled.
- ChatReplay.FingerprintIdentifies: metadata is a JSON value, possibly with non-finite numbers. Other values a caller could pass against its type also collide and are not modelled: an undefined member reads as null, an undefined element or a hole of an array as nothing, a Date as an empty object.
- RequestRecords.DealRecord.CreateQuote: one request; a key used for another request is a flag, since its payload names that request and so differs.
- Database schema, migrations, triggers and the SQL driver; each statement is modelled as what it does to the rows.
- Object storage beyond a set of keys with put and remove, the malware scanner beyond a nondeterministic verdict, mail, messaging, push, rate limits and the web interface.
- Password hashing, token generation and comparison, and encryption, beyond freshness and equality.
- Audit rows, notifications, chat cards, localized texts, paging, permission checks and row converters: they would only add easy members.
- Draft creation's own idempotency key, e-mail verification tokens, payment receipts and their review, archiving of requests.
- The unified attachment reconciler, which repeats the one modelled here, and storage administration, which has other rules.
- Pruning of old outbox rows, the reconciler's branch for rows without a storage key, and scan jobs without an attachment, none of which the modelled code produces.
- The service that marks other outbox messages sent or failed: its writes are guarded by status only, so the fencing argument does not transfer.
- Fields that only stamp who and when (paid at, voided at, reviewed by).
