# Verification model of the home-services booking platform

A Dafny model of the parts of the platform whose correctness is a matter of interleaving, of unbounded data or of
calendar arithmetic, with proofs of what they promise. Run `dafny verify dfyconfig.toml` from this directory.

| files | what they model |
|---|---|
| `BookingTables`, `BookingRuns`, `BookingBalance`, `BookingOutcomes`, `BookingBills`, `BookingDatabase` | Admins resolve disputes, cancel and archive bookings: each reads, deliberates, and later commits one transaction guarded by a conditional status update and a claim on the dispute, while workers, clients and payments write the same rows. |
| `TokenTabs`, `ApiClient`, `MobileAuth` | Session refresh: browser tabs sharing one localStorage against a rotating server, the single refresh in flight of one client, and the mobile 401 interceptor. |
| `KeyRotation` | The key-rotation script (plan, abort on anything unreadable, compare-and-set each row) while the application edits the rows. |
| `DraftStore`, `Paging` | The booking draft with its invalidation branches and idempotency key, and paged loading of a list that grows at its head. |
| `Calendar`, `Decimals`, `IsoDates`, `Months`, `MonthHistogram`, `StartTimes` | Dates by the abstract operations of section 21.4.1 of ECMA-262, day arithmetic on date strings, Manila months and their histogram, and start times. |
| `Catalog`, `JobMatrix` | The service-catalog writer with the single-job endpoints, and the script that backs up, applies and restores a category's job matrix. |

Code that only computes is modelled as functions. Code that changes things step by step is modelled as classes and
loops whose contracts tie the new state to a function of the old one; the properties are proved about those functions
and about runs of them. Every assumption about code that is not modelled is a parameter or is named under Left out.

Where the code falls short of what it is for, the model keeps the code, gives a concrete run, and proves exactly when
the promise holds:

- A cancelling resolution whose dispute had no invoice when it was read, committed after the worker sent one and it was
  reported, gives the worker's job slot back twice. That is the only thing that can keep a run from being the sequence
  of its committed requests. No code path writes a disputed booking without an invoice, so it takes rows from elsewhere
  (`StaleCancelReleasesTwice`, `StaleCancelIsFusedIff`, `RunIsSequentialIff`, `InvoicedRunIsSequential`).
- An admin cancel of a disputed, already invoiced booking gives the slot back a second time
  (`AdminCancelReleasesTwice`, `AdminCancelKeepsBalanceIff`).
- So does a second invoice for a disputed job, which the state machine allows (`SecondInvoiceReleasesTwice`,
  `OtherKeepsBalanceIff`). Settling a disputed job never invoiced would keep the slot, but no code path makes one.
- Opening a dispute's page writes UNDER_REVIEW from a stale read, which can reopen a resolved dispute and let a
  completed booking be resolved twice (`StaleReviewAllowsSecondClaim`, `ClaimsAccount`).
- Of two admin cancels of one booking the later fails on the unique cancellation record, not on the status check, and
  so as an internal error (`SecondAdminCancelHitsTheRecord`).
- A pair that other tabs store inside a `clearSession` loses its refresh token to the clear, and a tab that lost the
  race returns the access token it was replacing (`DisturbedClearReturnsStale`, `ClearOrphansIff`,
  `RacedTabMayReturnStaleIff`).
- A tab that goes away after the server rotated and before it stores the pair leaves a refresh token that is one behind
  for good: no tab is granted a pair again (`LostGrantStrands`).
- `encryptField` passes text that already looks encrypted. A payout account number typed with the field prefix is
  stored unreadable, and from then on a rotation aborts with nothing written (`EncryptedReadsBackIff`,
  `UnreadableEditBlocksRotation`, `QuietIff`). Re-encrypting a doubly encrypted field would lose a layer; no code path
  makes such a field (`DoubleLayerLosesMeaning`, `ReencryptionKeepsMeaningIff`).
- The idempotency key does not notice coordinates, the service name, the parent booking or an emptied city, nor any
  change in a patch that carries the key itself (`UnguardedFieldKeepsKey`, `KeySurvivesIff`, `CarriedKeyHidesChange`).
- A page 2 that lands after a refresh but was served before it, from a list without the newest rows, leaves a gap; that
  is the only thing that does (`RefreshedPagingLosesNothingIff`, `StalePageLeavesGapIff`, `StalePageLeavesGap`).
- `Date.UTC` reads the years 0 to 99 as 1900 to 1999 (`YearFiftyReadsAs1950`, `YearFiftyIsMonthOf1950`,
  `AddZeroIsIdentityIff`, `AddDaysComposesIff`, `MonthsTileTime`, `MonthsMeetIff`).
- With a negative lead, which no caller passes, `earliestStartTime` gives null though every tick of the day is legal
  (`NegativeLeadGivesNull`, `EarliestIsLeastIff`).
- `createTask` ignores `isActive`, so a job switched off and free in the request is created active and free
  (`CreatedWellFormedIff`, `FreeJobIsAccepted`).
- `restoreCategory` does not write `allowsFollowUp` and `backgroundImageUrl`, so it undoes a matrix payload, which sets
  neither, but not every body (`RestoreUndoesMatrix`, `RestoreUndoesApplyIff`).

## Model

| member | source | states |
|---|---|---|
| BookingRuns.CommitIsFusedIff | backend/src/controllers/adminDisputeController.ts:404-475 | A commit that passes its status check and claim does what reading and writing in one indivisible step would do now, although it uses the row read earlier, exactly when it is not a release of a slot that an invoice released since. |
| BookingRuns.CommitBelow | backend/src/controllers/adminBookingController.ts:281-310 | The same on tables that differ in counters only: the whole request goes through too, and ends the same but for counters, which in the optimistic run are never higher. |
| BookingRuns.RunIsSequentialIff | backend/src/controllers/adminDisputeController.ts:412-475 | Every interleaving of reads, commits and outside writes, from any tables, is the sequence of its committed requests, each whole and in commit order, exactly when no commit in it is such a stale release. |
| BookingRuns.RunBelow | backend/src/controllers/adminDisputeController.ts:404-475 | In every interleaving that sequence goes through whole and ends as the run does but for counters. |
| BookingRuns.RunIsSequential | backend/src/controllers/adminDisputeController.ts:433-439 | In particular where no invoice is sent for an uninvoiced disputed job. |
| BookingRuns.RunIsSequentialFromIff | backend/src/controllers/adminDisputeController.ts:332-475 | The exact condition from any moment of a run, with requests already waiting. |
| BookingRuns.AdminRunIsSequential | backend/src/controllers/adminBookingController.ts:266-310 | Admins racing only each other are always sequential, whatever the data. |
| BookingRuns.InvoicedRunIsSequential | backend/src/controllers/bookingController.ts:2424-2429 | Where every booking awaiting or disputing payment carries its invoice, every interleaving whatsoever is sequential. |
| BookingRuns.StaleCancelIsFusedIff | backend/src/controllers/adminDisputeController.ts:433-451 | A stale cancelling resolution equals a fused one exactly when the booking is completed, has no worker, or was not invoiced since it was read. |
| BookingRuns.StaleCancelReleasesTwice | backend/src/controllers/adminDisputeController.ts:433-451 | A run of four events that ends with the worker's counter at -1, which no sequence of whole requests gives. |
| BookingRuns.StepKeepsFresh | backend/src/services/bookingStatusWrite.ts:25-35 | Under every step, statuses only move to later ranks, and within a rank everything a commit takes from the row it read is fixed, but that a disputed or billed row may gain its invoice. |
| BookingRuns.WritesEndOneRequest | backend/src/controllers/adminDisputeController.ts:414-475 | A transaction ends its own request and no other, whether it goes through or not. |
| BookingRuns.OtherWritesOneRow | backend/src/controllers/bookingController.ts:2258-2279 | Each outside step moves at most its own booking, along the allowed transitions, and keeps cancellation records. |
| BookingRuns.DisputeStepsKeepRows | backend/src/workers/bookingWorker.ts:96-109 | Opening a dispute, whatever the booking's status and however stale the look for an open one, or overwriting one's status, touches no other table. |
| BookingRuns.ClaimsAccount | backend/src/controllers/adminDisputeController.ts:464-474 | The exact account over any run: the times a dispute is resolved, the times another write closed it and the once it can still be resolved at the end add up to the once it could be at the start and the times the review write reopened it. |
| BookingRuns.ClaimsNeedReopenings | backend/src/controllers/adminDisputeController.ts:464-474 | Over any run a dispute is resolved at most once more often than the review write reopened it. |
| BookingRuns.ClaimAloneGuardsCompleted | backend/src/controllers/adminDisputeController.ts:412-474 | On a completed booking the status check never stops a second cancelling resolution: it goes through exactly when its own, different dispute is still open, and otherwise ends as a conflict; visits, counters and cancellations stay. |
| BookingRuns.StaleReviewAllowsSecondClaim | backend/src/controllers/adminDisputeController.ts:213-218 | A run in which the stale review write lets one dispute be resolved twice. |
| BookingRuns.ArchivedStayFinished | backend/src/controllers/adminBookingController.ts:230-248 | Archiving writes without a status check, yet throughout a run every archived booking is completed, cancelled or rejected. |
| BookingBalance.BalanceAfter | backend/src/controllers/adminDisputeController.ts:433-439 | Rewriting one booking keeps every counter equal to its worker's active jobs exactly when each counter moves by the change in that worker's jobs. |
| BookingBalance.ResolutionKeepsBalanceIff | backend/src/controllers/adminDisputeController.ts:414-462 | An outcome of resolveDispute keeps activeJobCount equal to the worker's uninvoiced active bookings exactly when it is no stale release. |
| BookingBalance.AdminCancelKeepsBalanceIff | backend/src/controllers/adminBookingController.ts:281-287 | cancelBookingAdmin keeps it exactly when the booking is not a disputed one that has its invoice when the cancel commits. |
| BookingBalance.AdminCancelReleasesTwice | backend/src/controllers/adminBookingController.ts:282-287 | Balanced tables on which the admin cancel of a disputed, invoiced booking leaves its worker's counter at -1. |
| BookingBalance.SecondInvoiceReleasesTwice | backend/src/services/bookingStateMachine.ts:9 | Balanced tables on which a second invoice, for a disputed job that has one, leaves its worker's counter at -1. |
| BookingBalance.OtherKeepsBalanceIff | backend/src/controllers/bookingController.ts:1110-1123 | The outside steps keep it except for a second invoice of a disputed job and the settlement of a disputed job never invoiced. |
| BookingBalance.RunIsBalancedIff | backend/src/controllers/adminBookingController.ts:281-310 | Counters are right at every moment of any run exactly when none of the four miscounting writes happens in it. |
| BookingBalance.RunKeepsCancellations | backend/src/controllers/adminDisputeController.ts:440-461 | At every moment of any run a booking has its cancellation record exactly when it is cancelled, a cancelled booking has no scheduled visit, and it stays cancelled. |
| BookingBalance.CancelClosesDisputes | backend/src/controllers/adminBookingController.ts:290-298 | An admin cancel leaves no dispute of its booking open; a cancelling resolution closes its own and no other. |
| BookingBalance.SecondAdminCancelHitsTheRecord | backend/src/controllers/adminBookingController.ts:281-309 | After an admin cancel any other fails on the unique cancellation record, or on a missing worker profile, before its status check, whatever it read. |
| BookingDatabase.Database.UpdateBookingIfStatus | backend/src/services/bookingStatusWrite.ts:25-35 | The row is written exactly when it still has the expected status. |
| BookingDatabase.Database.ClaimDispute | backend/src/controllers/adminDisputeController.ts:464-474 | The dispute is closed exactly when it is still open, and no other dispute changes. |
| BookingDatabase.Database.InvoiceTransaction | backend/src/controllers/adminDisputeController.ts:415-432 | The writes of keeping or adjusting an invoice, in their order, commit as one specified change of all six tables or leave every table untouched. |
| BookingDatabase.Database.CancelByResolution | backend/src/controllers/adminDisputeController.ts:433-474 | The same for a cancelling resolution, with the error each failure gives. |
| BookingDatabase.Database.ResolveTransaction | backend/src/controllers/adminDisputeController.ts:414-475 | A resolution commits as specified or changes nothing: add-ons, visits, counters and cancellations of a loser are untouched. |
| BookingDatabase.Database.CancelTransaction | backend/src/controllers/adminBookingController.ts:281-310 | The same for the admin cancel. |
| BookingDatabase.Database.ReviewDispute | backend/src/controllers/adminDisputeController.ts:208-219 | The review page writes UNDER_REVIEW from what it read, without looking again. |
| BookingOutcomes.StepsFollowTheTable | backend/src/services/bookingStateMachine.ts:1-13 | No step of a run, whoever takes it and however stale its read, moves a booking past the table of transitions. |
| BookingOutcomes.DecidesIff | backend/src/controllers/adminDisputeController.ts:346-409 | Which requests get past the checks of their read: an admin may cancel what the table lets be cancelled; a resolution may also act on a completed job, but not on one pending or quoted; keeping or adjusting takes a disputed job with its invoice. |
| BookingOutcomes.RefusalsAreTold | backend/src/controllers/adminDisputeController.ts:346-409 | The error that each refused request gets. |
| BookingOutcomes.CommitsIff | backend/src/controllers/adminDisputeController.ts:414-475 | A transaction goes through exactly when the status is as read, the dispute open, the worker's profile there if its slot is given back, and no cancellation recorded before. |
| BookingOutcomes.CommitTouchesOneRow | backend/src/controllers/adminBookingController.ts:281-310 | A transaction touches no other booking, no dispute or cancellation of another, and no counter but its worker's. |
| BookingOutcomes.ResolutionOutcome | backend/src/controllers/adminDisputeController.ts:414-475 | How a dispute, its booking and the cancellation record end together under each action. |
| BookingOutcomes.ResolutionReleasesIff | backend/src/controllers/adminDisputeController.ts:434-439 | A resolution gives the slot back exactly when it cancels a job that was neither completed nor billed when read. |
| BookingOutcomes.AdminCancelOutcome | backend/src/controllers/adminBookingController.ts:281-310 | An admin cancel dismisses the booking's open disputes alone, records the reason, and gives the slot back exactly for the five statuses that hold one. |
| BookingOutcomes.MovesIff | backend/src/services/bookingStateMachine.ts:1-17 | A status step of a worker, client or payment goes through exactly when the table allows it, but for two further conditions, and else changes nothing. |
| BookingOutcomes.ReportsJoin | backend/src/services/bookingProblemService.ts:14-43 | A report or a problem leaves the booking with an open dispute, and opens one only where there was none. |
| BookingBills.ExtrasAreNotBilled | backend/src/controllers/adminDisputeController.ts:416-426 | After removing invoice extras what is billed is what was approved apart from parts and extra work. |
| BookingBills.KeptInvoice | backend/src/controllers/adminDisputeController.ts:422-429 | A kept invoice comes to the base price plus every approved add-on of whatever kind. |
| BookingBills.AdjustedInvoice | backend/src/controllers/adminDisputeController.ts:415-432 | An adjusted invoice comes to the base price plus the approved service add-ons; exactly this booking's approved parts and extra work are rejected. |
| BookingBills.SentInvoice | backend/src/controllers/bookingController.ts:2220-2270 | A sent invoice comes to what was owed plus its items, leaves no add-on of the booking undecided, and touches no other booking's. |
| BookingBills.RunKeepsBills | backend/src/controllers/adminDisputeController.ts:415-432 | Over any run an invoiced booking costs its base price plus what is approved for it. |
| BookingBills.VisitsFollowBookings | backend/src/controllers/adminDisputeController.ts:440-445 | In every step of a run a scheduled visit is cancelled exactly when its own booking becomes cancelled, and done exactly when it is billed; every other visit stays. |
| TokenTabs.TokensStayOrdered | shared/api-client/storage-browser.js:11-14 | With each localStorage write a step of its own, in every interleaving of tabs the stored access token is at least as new as the stored refresh token or removed, one tab at most holds an unstored pair, and a tab that lost the race and saw another refresh token returns a newer access token. |
| TokenTabs.RunKeepsInvariant | shared/api-client/createApiClient.js:11-38 | The inductive invariant behind it, over all steps of all tabs. |
| TokenTabs.RacedTabNeverReturnsStale | shared/api-client/createApiClient.js:21-32 | Also a tab that saw the refresh token removed returns no stale access token, in every interleaving in which no tab stores an access token inside a clearSession. |
| TokenTabs.RacedTabMayReturnStaleIff | shared/api-client/createApiClient.js:24-26 | From any reachable state a racing tab can still return a stale access token exactly when one no newer than its race is stored and the refresh token is gone or a clearSession is under way. |
| TokenTabs.ClearOrphansIff | shared/api-client/storage-browser.js:29-33 | A clearSession leaves an access token behind without a refresh token, stored or about to be, exactly when a tab stored a whole pair since an access token was last removed. |
| TokenTabs.WipeRemovesNothingNewer | shared/api-client/createApiClient.js:60-61 | If no tab stores between the look at the refused token and the removals, the wipe removes that pair or an older one. |
| TokenTabs.DisturbedClearReturnsStale | shared/api-client/storage-browser.js:29-33 | A run with a refresh inside a clearSession after which the racing tab returns the access token it was replacing. |
| TokenTabs.PollingEnds | shared/api-client/createApiClient.js:24-28 | A tab that polls while nothing changes does so fifty times and then returns nothing. |
| TokenTabs.LostGrantStrands | shared/api-client/createApiClient.js:16-32 | When a tab is gone after the server rotated and before it stores, no continuation of the run has a tab granted a pair again. |
| ApiClient.Session.RefreshSession | shared/api-client/createApiClient.js:11-38 | A call joins the refresh in flight or starts one, settled at once when no refresh token is stored. |
| ApiClient.Session.OnResponse | shared/api-client/createApiClient.js:47-57 | Only a first try's 401 that was sent with a token waits for a refresh. |
| ApiClient.Session.OnReply | shared/api-client/createApiClient.js:16-32 | The four outcomes of the refresh request; tokens are stored only when they were granted. |
| ApiClient.Session.OnResume | shared/api-client/createApiClient.js:53-64 | After the refresh: retry, give the 401 back, or wipe the session if the stored token is still the one refused. |
| ApiClient.RaceWait | shared/api-client/createApiClient.js:24-28 | Polling returns at the first look that shows another refresh token and gives up after RACE_WAIT_MS/100 looks. |
| ApiClient.SingleFlight | shared/api-client/createApiClient.js:8-72 | Over any run: never two refreshes outstanding, each request issued at most twice, every waiter's refresh is the one in flight or settled, polling within its time. |
| ApiClient.ResultsAreFinal | shared/api-client/createApiClient.js:33-37 | A settled refresh keeps its result, so all its waiters get the same. |
| ApiClient.WipesAreGuarded | shared/api-client/createApiClient.js:59-63 | Short of a logout the client drops its tokens, both at once, exactly after an empty refresh for a request whose own token is still stored. |
| ApiClient.WaitsIff | shared/api-client/createApiClient.js:47-57 | A response waits for a refresh exactly when it is the 401 of a first try that carried a token, and is final otherwise. |
| ApiClient.GoesOnIff | shared/api-client/createApiClient.js:33-64 | Whoever waits goes on exactly once its refresh has settled and left the slot: with the token then stored, or with the 401. |
| ApiClient.TokensAreGranted | shared/api-client/createApiClient.js:16-32 | Over any run with no other tab: the stored tokens are the two halves of the pair granted last, or gone; the refresh under way sent that pair's refresh half; a refresh yields the access half of the pair it was granted; every request carries an access half. |
| ApiClient.SecondIssueNeedsToken | shared/api-client/createApiClient.js:53-59 | A request goes out a second time only when the refresh it waited for returned a token. |
| ApiClient.RetriesAreFinal | shared/api-client/createApiClient.js:52-59 | Over any run, a request that was retried or is finished is never issued again and never waits for a refresh again, so it wipes nothing; a finished one keeps its status. |
| ApiClient.TicksPoll | shared/api-client/createApiClient.js:24-28 | A racing refresh, ticked while storage shows one look after another, settles with what the polling loop returns. |
| MobileAuth.Request.OnError | mobile/services/api.ts:116-158 | What the interceptor does with the flags a request carries, branch by branch. |
| MobileAuth.WipesIff | mobile/services/api.ts:116-158 | A failure wipes the session exactly when it is a 401 of a request that was not refreshed and had no token, had been retried, or whose refresh gave null. |
| MobileAuth.ReplaysIff | mobile/services/api.ts:116-137 | A failure is replayed exactly when it is the 401 of a first try with a token whose refresh gave a new one; which flags the request then carries. |
| MobileAuth.SendsAreCounted | mobile/services/api.ts:116-137 | Over any run a request goes out once when it starts and once more for each such failure. |
| MobileAuth.InFlightIff | mobile/services/api.ts:116-158 | A request is in flight from its start until it succeeds or fails without a replay. |
| MobileAuth.RunsAreJustified | mobile/services/api.ts:116-158 | Over any run each request goes out at most twice, and wipes are counted exactly by 401s whose refresh gave null or that carried no token: never a thrown refresh, never a failing replay. |
| KeyRotation.EncryptedReadsBackIff | backend/src/utils/fieldEncryption.ts:15-31 | A stored field reads back as what was given exactly when that did not look encrypted already, and storing adds no second layer. |
| KeyRotation.ReencryptionKeepsMeaningIff | backend/scripts/rotate-encryption-keys.ts:61-69 | A re-encrypted value reads as before exactly when its plaintext is not itself an encrypted field, and is then off the old key. |
| KeyRotation.DoubleLayerLosesMeaning | backend/scripts/rotate-encryption-keys.ts:64 | A doubly encrypted account number that reads differently once re-encrypted. |
| KeyRotation.ApplyingCountsDown | backend/scripts/rotate-encryption-keys.ts:123-128 | A successful update takes exactly one row in scope off the old key; a failed one changes nothing. |
| KeyRotation.EditsNeverAddOldRows | backend/scripts/rotate-encryption-keys.ts:154-157 | Edits of an application that writes only under the new key never add rows under the old one. |
| KeyRotation.UnreadableEditBlocksRotation | backend/src/controllers/workerController.ts:1919-1925 | An account number that is the field prefix and no payload is stored as it is, not under the old key, and leaves an unreadable row in scope. |
| KeyRotation.UnreadableIff | backend/src/utils/fieldEncryption.ts:24-31 | What counts as unreadable is what reading throws at: a malformed payload, one sealed under neither key, or no payload in an MFA column. |
| KeyRotation.QuietIff | backend/scripts/rotate-encryption-keys.ts:142-148 | With no row left under the old key, the next run neither aborts nor plans anything exactly when everything in scope reads in the rotation-free copy. |
| KeyRotation.TrackingReadsAlike | backend/scripts/rotate-encryption-keys.ts:123-128 | Rows that track a rotation-free copy read as that copy reads. |
| KeyRotation.ApplyingKeepsTracking | backend/scripts/rotate-encryption-keys.ts:123-128 | A compare-and-set update, whenever it lands, keeps every row tracking what the last edit or the original held. |
| KeyRotation.EditsKeepTracking | backend/scripts/rotate-encryption-keys.ts:154-157 | So do edits made to both. |
| KeyRotation.EditsKeepOnTrack | backend/scripts/rotate-encryption-keys.ts:154-157 | Edits leave every row under the old key awaiting an update planned from its present value. |
| KeyRotation.ApplyingKeepsOnTrack | backend/scripts/rotate-encryption-keys.ts:154-157 | So does each turn of the apply loop for the updates still to come. |
| KeyRotation.Rotation.PlanTable | backend/scripts/rotate-encryption-keys.ts:71-121 | Planning a table plans exactly the rows in scope under the old key, and lists exactly the unreadable ones. |
| KeyRotation.Rotation.Apply | backend/scripts/rotate-encryption-keys.ts:123-128 | The row changes exactly when it still holds what was planned from. |
| KeyRotation.Rotation.PlanAfterEdits | backend/scripts/rotate-encryption-keys.ts:71-121 | With edits before it, planning a table writes nothing, and the list of unreadable rows stays empty exactly when every row in scope is readable then. |
| KeyRotation.Rotation.ApplyAfterEdits | backend/scripts/rotate-encryption-keys.ts:154-157 | One turn of the loop with edits before it keeps the tracking, and reports exactly the rows that changed meanwhile. |
| KeyRotation.Rotation.RunRotation | backend/scripts/rotate-encryption-keys.ts:130-166 | The whole script under any schedule of edits: a value in scope that is unreadable as its table is planned, and nothing else, aborts it before any write; every row ends tracking the last edit; rows of users outside those named when their table was read, and of kinds not rotated, are never touched; the exit code tells of unreadable and changed rows; and if no edit writes under the old key, a full run leaves no row of a named user, or of any when none is named, and of a rotated kind under it, and the next run nothing at all to do exactly when everything in scope reads. |
| DraftStore.BookingStore.SetDraft | mobile/store/bookingStore.ts:346-413 | The reducer, branch by branch, sets every field to its specified value, derived clearings included. |
| DraftStore.BookingStore.InvalidateSchedule | mobile/store/bookingStore.ts:415-423 | The date goes, and the worker unless locked. |
| DraftStore.BookingStore.InvalidateWorker | mobile/store/bookingStore.ts:425-433 | The worker goes unless locked. |
| DraftStore.BookingStore.ValidateDraftForSubmit | mobile/utils/bookingValidation.ts:3-15 | No message exactly when the draft has all that a submission needs, and each message exactly when its part is missing. |
| DraftStore.WorkerOutlivesIff | mobile/store/bookingStore.ts:351-397 | A selected worker outlives a patch that names none exactly when it is locked, or date, task and quantity get no other value and no new place comes without a date or time. |
| DraftStore.LostWorkerIsCleared | mobile/store/bookingStore.ts:364-371 | A worker that goes takes its prices, its hold and the matching along. |
| DraftStore.LostWorkerIsTold | mobile/store/bookingStore.ts:373-397 | The reason told is the date, the job or the place, in that order; the name goes only with the first two. |
| DraftStore.ScheduleOutlivesIff | mobile/store/bookingStore.ts:351-374 | A date or time outlives a patch exactly when the place stays or the patch gives a date, time or worker; otherwise both go, with a reason. |
| DraftStore.OtherFieldsMerge | mobile/store/bookingStore.ts:346-349 | Every field that is not derived is as patched. |
| DraftStore.NothingToClear | mobile/store/bookingStore.ts:355-382 | A draft without date, time and worker takes any patch as it is, but for the key. |
| DraftStore.NamedWorkerStays | mobile/store/bookingStore.ts:355-384 | A patch that names a worker is taken as it is, but for the key. |
| DraftStore.FalsyIff | mobile/store/bookingStore.ts:351-365 | What counts as absent is what ECMA-262 section 7.1.2 converts to false. |
| DraftStore.WorkerFitsDraft | mobile/store/bookingStore.ts:346-433 | Over any run of the store's actions a selected worker was named, or locked, in a draft with the date, task and quantity the draft now holds, but for those a patch has unset. |
| DraftStore.RunHolds | mobile/store/bookingStore.ts:346-423 | While a key survives a run, each guarded field is as it was or empty, and each submitted one but the worker's prints the same; a patch may carry that key only where the draft holds it and the patch changes nothing, and carry any other key freely. |
| DraftStore.OneKeyOnePayload | mobile/store/bookingStore.ts:282-295 | Two submittable drafts of such a run with the same key agree on all submitted fields, date, time, category and address, and so every such field of the request's body, and the city is the same or gone; with invalidateWorker in the run, still on what is posted. |
| DraftStore.ResentSubmitIsHonest | mobile/app/(client)/booking/new/step-4.tsx:176-185 | A submission's own patch, which carries the key, may be made again: it then changes nothing. |
| DraftStore.CarriedKeyHidesChange | mobile/store/bookingStore.ts:402-408 | A patch that carries the key and changes another submitted field keeps key and submittability, and the payload is the same exactly when that field prints the same. |
| DraftStore.KeyNoticesIff | mobile/store/bookingStore.ts:282-295 | Exactly when a key outlives a patch of one other field, with the fields it notices listed by name. |
| DraftStore.KeySurvivesIff | mobile/store/bookingStore.ts:399-408 | Between submittable drafts a patch without a key leaves the key exactly when no guarded field gets another value, short of none, and every submitted field prints as before. |
| DraftStore.InvalidateWorkerKeepsKey | mobile/store/bookingStore.ts:425-433 | invalidateWorker on an auto-matched draft keeps it submittable under the same key with another worker field. |
| DraftStore.UnguardedFieldKeepsKey | mobile/store/bookingStore.ts:399-408 | Changing coordinates, other posted fields or emptying the city leaves key and submittability as they were. |
| Paging.Filter | mobile/utils/pagination.ts:5-8 | Exactly the rows not shown yet, in their order. |
| Paging.UnseenMembers | mobile/utils/pagination.ts:5-8 | A row is kept exactly when it came and was not shown. |
| Paging.Store.LoadMoreBookings | mobile/store/bookingStore.ts:324-329 | A call goes out exactly when there is more and none is loading, for the next page. |
| Paging.Store.MoreLoaded | mobile/store/bookingStore.ts:329-342 | A further page is appended unless the page number moved meanwhile or the fetch failed. |
| Paging.Store.BookingsLoaded | mobile/store/bookingStore.ts:307-314 | A first page replaces the list. |
| Paging.RunsStayDistinct | mobile/store/bookingStore.ts:307-342 | Under every interleaving of loads no id is listed twice and at most one further page is being fetched. |
| Paging.PagingLosesNothing | mobile/store/bookingStore.ts:307-342 | After one load and any further loads, failed ones included, over a list that grows at its head, the rows of the first snapshot shown are a prefix of it in order, and all of it once there is no more. |
| Paging.PagingEnds | mobile/store/bookingStore.ts:307-342 | With nothing created and no fetch failing, one load and enough further loads show the whole list and leave no more to ask for. |
| Paging.RoundIsTurn | mobile/store/bookingStore.ts:324-342 | Asked, served and landed or failed with nothing in between, a further page is one such turn. |
| Paging.RefreshedPagingLosesNothingIff | mobile/store/bookingStore.ts:307-342 | Under every interleaving of overlapping refreshes and further pages, each served at one time and arriving at another, the rows of the snapshot last loaded are shown in order without a gap at every moment, and all of them while there is no more, exactly when no further page lands, its page number still matching, that was served before that snapshot from a list without its newest rows. |
| Paging.StalePageLeavesGapIff | mobile/store/bookingStore.ts:328-336 | When a whole load overtakes a served page 2, what is shown is a stretch of the server's list exactly when nothing was created in between. |
| Paging.StalePageLeavesGap | mobile/store/bookingStore.ts:328-336 | One row created in between already leaves out the last row of the first page, while a later one is shown. |
| Calendar.YearLength | mobile/utils/calendarLoad.ts:13-17 | The closed formula for the first day of a year rises by 365, or 366 in leap years. |
| Calendar.DayOfCivil | mobile/utils/calendarLoad.ts:15-16 | Every day number has a valid date that counts back to it. |
| Calendar.CivilOfDay | mobile/utils/calendarLoad.ts:15-16 | Every valid date is the date of its own day number. |
| Calendar.FirstDays | backend/src/controllers/adminAnalyticsController.ts:44-45 | Counting one month on, past December too, gives the first day after the month's last. |
| Calendar.InMonthIff | backend/src/controllers/adminAnalyticsController.ts:39-47 | A day lies between the starts of a month and the next exactly when that is the month of its date. |
| Calendar.MonthLengths | backend/src/controllers/adminAnalyticsController.ts:44-46 | Months have 31, 30, 28 or 29 days by the written-out rule. |
| Calendar.CountStarts | mobile/utils/calendarLoad.ts:15-16 | Day 0 is 1 January 1970. |
| Calendar.DatesFollow | mobile/utils/calendarLoad.ts:15-16 | The date of the next day is the next date by that rule. |
| IsoDates.FormatSpells | mobile/utils/calendarLoad.ts:16 | The one date string that reads back as given fields is the padded year, month and day. |
| IsoDates.AddZeroIsIdentityIff | mobile/utils/calendarLoad.ts:13-17 | Adding no days gives a date string back exactly when it is a valid date of the year 100 or later. |
| IsoDates.AddDaysMovesTheDate | mobile/utils/calendarLoad.ts:12-17 | The result is a valid date that many days away on the calendar. |
| IsoDates.AddOneDay | mobile/utils/calendarLoad.ts:12-17 | For every date string of the years 100 to 9999 adding one day gives the next date by the rule of month lengths, also past a month's and a year's end. |
| IsoDates.AddDaysComposesIff | mobile/utils/calendarLoad.ts:13-17 | Adding a and then b is adding a + b exactly when the date between is of the year 100 or later, or the end lies past the last date counted from the first string or before the first date counted from the one between. |
| IsoDates.YearFiftyReadsAs1950 | mobile/utils/calendarLoad.ts:15 | Adding no days to a date of the year 50 gives one of 1950. |
| Months.MonthStringIff | backend/src/controllers/adminAnalyticsController.ts:37-41 | The pattern accepts exactly the years 0000 to 9999 with the months 01 to 12. |
| Months.RangeIsTheMonth | backend/src/controllers/adminAnalyticsController.ts:44-46 | A range runs between Manila midnights from the first of a month to the first of the next, and days is the month's true length. |
| Months.RangeDays | backend/src/controllers/adminAnalyticsController.ts:44-46 | A range has 31, 30, 28 or 29 days by the written-out rule, and spans that many times 24 hours. |
| Months.WithinIff | backend/src/controllers/adminAnalyticsController.ts:39-47 | An instant is in a string's range exactly when Manila's calendar shows that year and month then. |
| Months.MonthsTileTime | backend/src/controllers/adminAnalyticsController.ts:39-47 | For every string and instant: the string's range covers it exactly when the string spells the instant's own month of the years 100 to 9999, or for the 1900s the same month of 0000 to 0099. |
| Months.MonthsMeetIff | backend/src/controllers/adminAnalyticsController.ts:44-45 | The end of each month is the start of the next, except for 0099-12. |
| Months.YearFiftyIsMonthOf1950 | backend/src/controllers/adminAnalyticsController.ts:42-45 | The strings 0050-01 and 1950-01 give the same range. |
| MonthHistogram.FillDays | backend/src/controllers/adminAnalyticsController.ts:56-59 | The first loop sets one zero bucket for each day, in order. |
| MonthHistogram.CountBookings | backend/src/controllers/adminAnalyticsController.ts:60-63 | The second loop adds each booking to its day's bucket and never makes a new key. |
| MonthHistogram.RangeKeys | backend/src/controllers/adminAnalyticsController.ts:49-59 | Every instant of a month's range has the key of its Manila day, and different days have different keys. |
| MonthHistogram.DaysConserve | backend/src/controllers/adminAnalyticsController.ts:60-64 | Times that fall on the days of a stretch are counted there, each once. |
| MonthHistogram.GetBookingsForMonth | backend/src/controllers/adminAnalyticsController.ts:51-65 | The buckets are exactly the days of the month in order, each counts the bookings of that day in Manila, and together they count the bookings the query selected. |
| StartTimes.MinutesRoundTrip | mobile/utils/bookingTime.ts:13-21 | Writing minutes as a clock string and reading it gives the same minutes, for all naturals. |
| StartTimes.TimeRoundTripIff | mobile/utils/bookingTime.ts:13-21 | Reading a clock string and writing it gives it back exactly when it is canonical: padded hours, two digits of minutes below 60. |
| StartTimes.RoundedUpIs | mobile/utils/bookingTime.ts:53 | The rounded value is the least multiple of five minutes not before the second of the day. |
| StartTimes.PhNowIs | mobile/utils/bookingTime.ts:51 | The clock that decides is Manila's, the lead ahead, to the millisecond. |
| StartTimes.HhmmIff | mobile/utils/bookingTime.ts:64 | The pattern takes exactly two digits of hours and two of minutes below 60. |
| StartTimes.EarliestIsLeastIff | mobile/utils/bookingTime.ts:45-56 | For today the earliest start is the least legal tick of 07:00 to 18:00, and null when there is none, exactly when the lead does not end before today. |
| StartTimes.LeadEndsNoEarlier | mobile/utils/bookingTime.ts:51-52 | A lead that is not negative meets that condition. |
| StartTimes.NegativeLeadGivesNull | mobile/utils/bookingTime.ts:51-52 | At eight in the morning of 1 January 1970 a lead of minus nine hours gives null while every tick is legal. |
| StartTimes.SelectableTodayIff | mobile/utils/bookingTime.ts:58-69 | Today a time is selectable exactly when it is a clock time up to 18:00 with a legal tick at or before it. |
| StartTimes.SelectableStartsAfterLead | mobile/utils/bookingTime.ts:41-69 | The instant a selectable time of today starts is later than now plus the lead, less one second. |
| StartTimes.SelectableOtherDayIff | mobile/utils/bookingTime.ts:50-69 | On any other day exactly the clock times from 07:00 to 18:00 are selectable. |
| Catalog.ValidateCatalog | backend/src/controllers/adminCatalogController.ts:34-67 | The loop over the jobs, with its set of references, finds the first fault there is. |
| Catalog.AcceptedIff | backend/src/controllers/adminCatalogController.ts:52-67 | A list is accepted exactly when every job is right by itself and no two share a reference. |
| Catalog.FilledIsWellFormed | backend/src/controllers/adminServiceTaskController.ts:30-69 | A checked body makes a well-formed row: active implies a price above 0, PER_UNIT has a unit and ordered bounds, FIXED has no bounds. |
| Catalog.AcceptedIsChecked | backend/src/controllers/adminCatalogController.ts:54-56 | The jobs of an accepted list are written under distinct ids, all of the category or new. |
| Catalog.HeadAcceptedIff | backend/src/controllers/adminCatalogController.ts:35-50 | Exactly which category heads are accepted. |
| Catalog.ListAcceptedIff | backend/src/controllers/adminCatalogController.ts:52-67 | Exactly which lists are accepted for a category: jobs with an id are its own, the others have a key, and no two share a reference. |
| Catalog.JobAcceptedIff | backend/src/controllers/adminCatalogController.ts:54-63 | Exactly which single jobs of a list are accepted. |
| Catalog.TaskAcceptedIff | backend/src/controllers/adminServiceTaskController.ts:30-69 | Exactly which job forms are accepted, whatever the order of the checks. |
| Catalog.TrimIs | backend/src/controllers/adminCatalogController.ts:69-84 | Trimming takes white space off both ends and nothing else. |
| Catalog.SpacesAre | backend/src/controllers/adminCatalogController.ts:69-84 | White space is that of ECMA-262 sections 12.2 and 12.3. |
| Catalog.FormGivesTheJob | backend/src/controllers/adminCatalogController.ts:69-84 | The form of any canonical job is accepted and, written over any row, makes that row the job. |
| Catalog.FilledIsCanonical | backend/src/controllers/adminCatalogController.ts:69-84 | Every accepted form makes a canonical job whose form is that form, trimmed. |
| Catalog.SavingAsIsKeepsJobs | backend/src/controllers/adminCatalogController.ts:106-113 | Saving jobs as they are, in their order, changes none of them, with flags given or left out. |
| Catalog.NewJobStarts | backend/src/controllers/adminCatalogController.ts:114-119 | A new job starts in its category and place, switched on unless the form says no. |
| Catalog.HeadGivesTheCategory | backend/src/controllers/adminCatalogController.ts:87-104 | The head of a category written over any row makes that row the category, but for a background image not mentioned. |
| Catalog.Tables.WriteJob | backend/src/controllers/adminCatalogController.ts:108-119 | One turn of the loop updates the job's own row, or creates one, and touches no other. |
| Catalog.Tables.WriteJobs | backend/src/controllers/adminCatalogController.ts:106-122 | The loop writes each job once under its own id, and gives a total injective map from references to ids. |
| Catalog.Tables.WriteCatalog | backend/src/controllers/adminCatalogController.ts:87-123 | A whole write: category row, every job with sortOrder its position, unmentioned jobs and other categories untouched, well-formedness kept; a taken name changes nothing. |
| Catalog.Tables.SaveCatalog | backend/src/controllers/adminCatalogController.ts:125-161 | A save goes through exactly when the category exists, the body is accepted, no active job is blocked and the name is free; otherwise nothing changes. |
| Catalog.Tables.UpdateTask | backend/src/controllers/adminServiceTaskController.ts:144-190 | Exactly the accepted edits are written, to that row alone, and well-formedness is kept. |
| Catalog.Tables.ToggleTaskActive | backend/src/controllers/adminServiceTaskController.ts:213-233 | A job is switched on only with a price, and well-formedness is kept. |
| Catalog.Tables.CreateTask | backend/src/controllers/adminServiceTaskController.ts:85-121 | The new job is active whatever the body says; well-formedness is kept exactly when it has a price. |
| Catalog.CreatedWellFormedIff | backend/src/controllers/adminServiceTaskController.ts:94-121 | Of the accepted bodies exactly those with a price make a well-formed new job. |
| Catalog.FreeJobIsAccepted | backend/src/controllers/adminServiceTaskController.ts:43-45 | An accepted body that makes an active job at price 0. |
| JobMatrix.Script.LoadCategory | backend/scripts/applyJobMatrix.ts:44-57 | The backup holds the category's row, exactly its jobs and exactly their selections. |
| JobMatrix.Script.ApplyCategory | backend/scripts/applyJobMatrix.ts:59-119 | Applying writes the payload over the category and signs up exactly the workers due, or changes nothing. |
| JobMatrix.Script.Refusal | backend/scripts/applyJobMatrix.ts:65-81 | Nothing is refused exactly when every live counted job has a matrix row, the body is accepted and no active job is blocked. |
| JobMatrix.Script.WritePayload | backend/scripts/applyJobMatrix.ts:83-113 | The writes of an accepted payload, all of them or none. |
| JobMatrix.Script.SignUp | backend/scripts/applyJobMatrix.ts:97-113 | New selections are exactly those of the workers of each matrix row, all active. |
| JobMatrix.SignedUpIff | backend/scripts/applyJobMatrix.ts:97-113 | After the sign-ups a selection is on exactly when it was, or when its row replaces a job the worker had switched on, or replaces none and the worker is verified in the category. |
| JobMatrix.Script.RestoreJobs | backend/scripts/applyJobMatrix.ts:141-160 | The loop gives every listed job its backed-up fields, or finds one missing. |
| JobMatrix.Script.RestoreCategory | backend/scripts/applyJobMatrix.ts:121-163 | A restore goes through exactly when the category and its old jobs exist and its name is not another's, and then does all its writes; otherwise nothing changes. |
| JobMatrix.RestoreBringsBack | backend/scripts/applyJobMatrix.ts:121-163 | From any such state every listed field and exactly the backed-up selections of workers still there are back, added jobs and their selections are off, and no other category is touched. |
| JobMatrix.RestoreIsIdempotent | backend/scripts/applyJobMatrix.ts:121-163 | The restored rows fit the database's keys, and restoring again changes nothing. |
| JobMatrix.RestoreUndoesMatrix | backend/prisma/seeds/lib/jobMatrix.ts:36-83 | Restoring undoes every applied payload that leaves both columns unset, as the matrix payload does. |
| JobMatrix.RestoreUndoesApplyIff | backend/scripts/applyJobMatrix.ts:59-163 | Restoring after applying gives back every row there was and leaves what was added switched off, exactly when the applied body left allowsFollowUp and backgroundImageUrl alone. |

## Left out

- BookingBalance.RunKeepsCancellations: covers the two admin cancel paths; cancellation by client, no-show or expiry is not modelled.
- TokenTabs.RacedTabNeverReturnsStale: excludes access tokens stored inside a clearSession, after which it can fail (`DisturbedClearReturnsStale`); the exact condition is `RacedTabMayReturnStaleIff`.
- KeyRotation.Rotation.RunRotation: completion is promised only if the application never writes under the old key; rows hold at most one layer of field encryption, which is all that encryptField makes; ciphers are taken as given, a payload opening under its own key and no other.
- DraftStore.OneKeyOnePayload: a patch that carries the key is covered where the draft holds that key and the patch changes nothing, as when a submission is sent again; otherwise it can fail (`CarriedKeyHidesChange`).
- The two queries from which the server takes a page's rows and the number of pages: both come from one list here.
- Interleaving inside one database transaction: a transaction commits or rolls back as a whole.
- A login or setSession while a refresh of the earlier session is in flight; the stored user record.
- A settlement closes the booking's open disputes over an overdue payment in its own transaction (backend/src/services/paymentLifecycleService.ts:502-509); here SettlePayment leaves them open, and each is closed by an OverwriteDispute step after it.
- The refund, penalty, compensation and payment services, the final-total formula beyond base price plus approved add-ons, and fractions of a centavo.
- The notes, times and actors of a dispute's resolution, audit logs, notifications and messages.
- The race in scheduling a follow-up visit, and the checks of resolveDispute's action names and of the dismissal note.
- Reading one catalog row and writing it are one step; the body of a save is read once. The wage-floor check is a parameter, and so are the ids the database makes.
- A job's id in a catalog body that is null or not text, which is refused as not of the category (backend/src/controllers/adminCatalogController.ts:55): it has no value of its own and stands as a text that is no job's id; a missing one makes a new job.
- Prices and quantities that are infinite, and names, descriptions and unit labels that are not text.
- Price-list edits, which round after checking, and jobs of the retired pricing models beyond the rule that an active job has a price.
- The matrix payload's own construction: its body, replaced jobs and unmatched jobs are parameters. Backups that lack quantity bounds.
- Date strings that are not four, two and two digits, clock strings that are not digits around one colon, and floating-point rounding of the lead; a lead is a real number of hours.
- The text of a date key outside the years 0 to 9999 beyond the year and month it spells.
- getBookingsOverTime, which counts days in the server's own time zone.
- JSON's negative zero, and object-valued draft fields beyond their text; the wording of the submission messages.
- Screens, hooks, seeds, deployment, formatting and the remaining endpoints.
