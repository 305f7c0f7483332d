# CreditOps: verified models

Dafny models of the parts of CreditOps in which several things happen at once, or in which money is
counted: the upload protocol and the polling protocol of the web application, the repayment ledger of the
API, the line wrapper of the deck's visual check, and the list-building code of the review screens.

## How the project is built

**Uploads.** `UploadModel` holds the state of the upload zone (item list, controllers, sessions) and the
effect of every stretch of code between two awaits. `UploadRuns` adds what is pending: runs suspended at
an await, a log of the calls made, and a server that registers a document once per intent and key. Any
enabled event may come next, so runs of one item overlap freely; an event that is not possible changes
nothing. `UploadSafety` proves an invariant of every step and from it the theorems about all event
sequences. `UploadItems` is about what an item shows, and about files that failed validation;
`UploadRetry` is about cancelled runs, and about which transfers can never start again.
`UploadSerial` shows that a file is completed under one intent when a retry waits for the earlier run;
`UploadOverlap` shows that exactly the retries that wait keep that, and keep a settled item settled;
`UploadPlans` is about what a retry does after each kind of failure. `UploadReports` says what an item tells
after the event that closed it, in that event's own words, and `UploadResume` what every retry, intent and
finished transfer starts, in terms of the session, the log and the runs. `UploadComponent` is the component
itself, a class with heap objects for controllers and sessions; each of its methods is proved to change the
abstract zone as the model says.

**Polling.** `PollingModel`, `PollingRuns` and `OrchestrationComponent` do the same for the orchestration
console: timer slot, generation token, requests in flight, and unmounting. `PollingChains` is about when
polling goes on and when it ends, told by the answers that it got. `TaskPolling` is the smaller poll of one
uploaded document.

**Repayments.** `Money` is rounding to cents, half up. `DebtSchedule` is the schedule loop and its closed
form. `EventHistory` is the validation of payments and reversals. `Waterfall` is the allocation rule and
its closed form for every net amount. `RepaymentLedger` is the fold and what its snapshot guarantees,
`LedgerExceptions` what its exceptions say, `LedgerLoans` goes from a loan to its ledger, and `LedgerPeriods`
says of every period and sum what it is, from the schedule, the net cash and the date alone.

**Line wrapping and lists.** `LineWrap` proves the greedy wrapper optimal. `RankSort`, `Grouping`,
`FigureTable` and `AuditTimeline` prove list-building code equal to what the screens are meant to show.
`ConditionLifecycle` and `AlertLifecycle` are about runs of the two transition tables.

## What does not hold, and when it does

- *No run is started for a file that failed validation.* One is, once its item is retried: `retry` does not
  validate again. `UnsupportedStartsIffRetried`: the item has no run exactly as long as no retry of it
  happens. The server validates type and extension once more
  (services/api/src/creditops/application/use_cases/create_upload_intent.py:92-97), so that most such runs end
  without an intent.
- *A file is sent and completed under one intent, and a settled item stays settled.* However the stage of an
  aborted run ends, it shows its item as CANCELLED (`AbortedRunCancels`), and the item can be REGISTERED by
  then (`RegisteredBesideOlderRun`). That offers a retry which sends and completes the file again under a
  second intent, so that it can end as a duplicate of its own document (`OverlapUnsettles`). `RetryGuard`:
  among the retries that are offered, exactly those of an item without a pending run exclude either,
  whatever follows; one that does not wait is offered once a file was selected and cancelled
  (`OverlapIsOffered`). The repository's server does not register the same content twice
  (services/api/src/creditops/application/use_cases/complete_upload_intent.py:251-296, and the unique index
  in supabase/migrations/202607170010_upload_intents_completion.sql:151-153); it answers that second
  completion as a duplicate (upload-zone.tsx:167-172).
- *Overpayment is the cash that exceeds every obligation* (repayments.py:106-107). Less than half a cent
  left over from a partial payment is reported as well; `UnmatchedIff` says when, and `SmallRestIsUnmatched`
  is a payment that is.
- *Settled if and only if every scheduled obligation is fully covered with no excess*
  (repayments.py:275-276). A schedule may hold a negative amount, which lowers the total without lowering
  what is asked for. `SettledIff` says when a facility is settled; `SettledMeansCoveredIff`: that has the
  documented meaning exactly of the schedules without negative amounts. `SettledWithUnpaidInstallment` is a
  loan of three cents over five months that is settled with an unpaid, overdue installment.
- *No scheduled amount is negative.* The last row does absorb the rounding residual (`PrincipalIsRepaid`), but
  can become negative by that: `RoundingCanOvershoot`. `NonNegativeIff` says when no row is.

The ledger's documented reconciliation, net paid == allocated + overpayment (repayments.py:229-233), holds at
the money quantum that it names: `ReconcilesAtQuantum`. Amounts are free decimal text
(services/api/src/creditops/api/repayments.py:295-304), and `ReconcilesIff` says for which of them it also holds
without rounding; half a cent is one for which it does not (`HalfCentDoesNotReconcile`).

## Model

| member | source | states |
|---|---|---|
| UploadSafety.NoItemStuck | apps/web/components/uploads/upload-zone.tsx:57-204 | in every reachable world, an item shown as requesting, uploading or verifying has a pending run, and that run is at the very stage shown |
| UploadSafety.ControllersTrackNewestRun | apps/web/components/uploads/upload-zone.tsx:206-234 | controllers[id] is the controller that the item was given last exactly while that run's transfer has not ended, and absent otherwise |
| UploadSafety.OneKeyPerIntent | apps/web/components/uploads/upload-zone.tsx:103-108 | under every interleaving, two completion calls for one intent carry the same idempotency key |
| UploadSafety.ResumeUrlsBelong | apps/web/components/uploads/upload-zone.tsx:132-141 | a resume URL given to the transport was issued before, for that same intent |
| UploadSafety.CompletionsJustified | apps/web/components/uploads/upload-zone.tsx:131-166 | a completion call follows a finished transfer of its intent; one made by a retry follows one made by an upload run; the controller of a calling upload run is not aborted then or ever after |
| UploadSafety.CancelStopsNewestRun | apps/web/components/uploads/upload-zone.tsx:212-215 | cancelling while the newest run's transfer has not ended keeps that run from ever calling for completion, whatever happens later |
| UploadSafety.UnwindChangesNothing | apps/web/components/uploads/upload-zone.tsx:112-114 | the outer finally block never removes anything: the inner one did, or a newer run owns the entry |
| UploadSafety.BatchIsOneByOne | apps/web/components/uploads/upload-zone.tsx:57-78 | listing all selected files before starting any upload gives the same world as listing and starting them one by one |
| UploadSafety.StepKeepsInv | apps/web/components/uploads/upload-zone.tsx:57-238 | every event keeps the whole invariant: ownership of controllers and sessions, backing of busy items, agreement of sessions with the log, order of the log |
| UploadRetry.CancelledBeforeIntent | apps/web/components/uploads/upload-zone.tsx:102 | a newest run that waits for its intent when its item is cancelled never transfers, whenever the intent arrives and whatever else happens |
| UploadRetry.DeadSessionIsNeverResumed | apps/web/components/uploads/upload-zone.tsx:143-149 | under every interleaving, once an error has killed a resumable session no transfer of its intent is ever started again |
| UploadRetry.CompletionIsNeverRestarted | apps/web/components/uploads/upload-zone.tsx:160-225 | in every run in which retries wait, once completion was called for an item no transfer of it starts again, and every later retry completes again with the same intent and key |
| UploadPlans.PlanAfterFailure | apps/web/components/uploads/upload-zone.tsx:143-237 | in every run in which retries wait, the retry after a failed transfer starts over if the error killed the session, and else does what it would have done at the failure, whatever happens in between |
| UploadPlans.LostAnswerCompletesAgain | apps/web/components/uploads/upload-zone.tsx:184-225 | in every run in which retries wait, a retry is offered right after a lost or unusable answer, need not wait, and completes again |
| UploadResume.RetryDoes | apps/web/components/uploads/upload-zone.tsx:217-237 | in every reachable world, an offered retry calls for completion again with the session's intent and key if the session is in its completion phase; starts one transfer from the kept URL if it is in its upload phase, resumable, with a URL that is not empty and an intent that is valid; and else calls for nothing, drops the session and waits for a new intent |
| UploadResume.RetryGoesOnFromLastUrl | apps/web/components/uploads/upload-zone.tsx:131-237 | in every run in which retries wait, after the last URL reported for a transfer and its failure, whatever happens in between, the next retry transfers from that URL if and only if the mode is resumable, the URL is not empty, the intent is valid and the failure is none of the four statuses and two codes that kill the session; else it starts over |
| UploadResume.IntentStartsIffValid | apps/web/components/uploads/upload-zone.tsx:99-129 | in every reachable world, an intent that arrives starts a transfer from the beginning, under a session with that intent and key, if and only if it is valid and the run was not aborted |
| UploadResume.CompletionFollowsIffNotAborted | apps/web/components/uploads/upload-zone.tsx:142-166 | in every reachable world, a finished transfer is completed with its session's intent and key if and only if its run was not aborted |
| UploadResume.UrlKeptIffCurrent | apps/web/components/uploads/upload-zone.tsx:136-140 | a reported URL is kept in its session if and only if that session is still the item's, and nothing else changes |
| UploadResume.ProgressIsShown | apps/web/components/uploads/upload-zone.tsx:134 | reported progress is shown by its item, and nothing else changes |
| UploadResume.CompletionUsesItsKey | apps/web/components/uploads/upload-zone.tsx:103-166 | over every run, a completion is called for with the key that was made for its intent when that arrived, in time |
| UploadReports.ItemTellsItsEnd | apps/web/components/uploads/upload-zone.tsx:142-215 | in every reachable world, after an event that ends what is done for an item (any failure, an outdated or aborted intent, a late success, any reply, a cancel) the item shows what that event says: the reply's own task id and status or document id, the failure's own text, or that it was cancelled; and no other item changes |
| UploadReports.ClosedItemsTellTheirEnd | apps/web/components/uploads/upload-zone.tsx:57-215 | over every run, an item that is registered, a duplicate, failed or cancelled shows what the last such event said, unless its file was listed as failed |
| UploadReports.SelectedFilesStart | apps/web/components/uploads/upload-zone.tsx:57-76 | a valid file is listed as requesting its intent and a run of its own waits for it; an invalid one is listed as failed without a run |
| UploadReports.NoDeadEnd | apps/web/components/uploads/upload-progress.tsx:62-170 | in every reachable world, an item is settled, or can be retried, or has a run pending at the stage shown; and it can be cancelled if and only if that run asks for its intent or transfers |
| UploadItems.ItemsShowTheirStatus | apps/web/components/uploads/upload-zone.tsx:51-55 | over every run, a listed item stays listed with its file, and its error, duplicate and task fields agree with its status |
| UploadItems.UnsupportedIsRefused | apps/web/components/uploads/upload-zone.tsx:59-76 | a selected file that fails validation is listed as failed and no run is started for it |
| UploadItems.UnsupportedStartsIffRetried | apps/web/components/uploads/upload-zone.tsx:217-237 | such a file stays without a run through any later events if and only if none of them retries its item |
| UploadSerial.OneIntentPerFile | apps/web/components/uploads/upload-zone.tsx:80-238 | for every sequence of failures, lost answers, cancels and retries in which each retry waits for the item's earlier run, all completion calls for one file name one intent |
| UploadSerial.OneDocumentPerFile | apps/web/components/uploads/upload-zone.tsx:80-238 | so with a server that registers once per intent and key, two documents of one file are the same document |
| UploadOverlap.AbortedRunCancels | apps/web/components/uploads/upload-zone.tsx:99-154 | in every reachable world, every event that ends the intent or transfer stage of a run whose controller is aborted (a failure of any kind, a late success, a late intent) shows the item as cancelled, whatever it showed before, changes no other item and starts no call |
| UploadOverlap.OverlapUnsettles | apps/web/components/uploads/upload-zone.tsx:142-237 | after any retry made while a run of the item is pending, there is a continuation in which all retries wait and the item is registered, then cancelled by the end of the older run, then completed under a second intent and shown as a duplicate |
| UploadOverlap.SettledStays | apps/web/components/uploads/upload-zone.tsx:162-238 | in every run in which retries wait, an item shown as registered or duplicate stays so |
| UploadOverlap.RetryGuard | apps/web/components/uploads/upload-zone.tsx:217-237 | after any events in which retries waited, a retry that is offered keeps the file under one intent, whatever follows in which retries wait, if and only if no run of the item is pending when it is made; and the same condition is exact for the item staying settled once it is |
| UploadOverlap.OverlapIsOffered | apps/web/components/uploads/upload-progress.tsx:62 | selecting a file and cancelling it offers a retry that does not wait |
| UploadOverlap.RegisteredBesideOlderRun | apps/web/components/uploads/upload-zone.tsx:212-237 | a world is reached in which the item is registered and an older run of it is pending with its controller aborted |
| UploadComponent.UploadZone.SelectFiles | apps/web/components/uploads/upload-zone.tsx:57-78 | the component's zone afterwards is that of the model's batch selection, and every started run has its own new controller |
| UploadComponent.UploadZone.CreateIntentAndUpload | apps/web/components/uploads/upload-zone.tsx:80-98 | drops the session, stores a new controller under the item and shows it as requesting |
| UploadComponent.UploadZone.IntentArrived | apps/web/components/uploads/upload-zone.tsx:99-129 | opens a session and starts its transfer unless the intent expired or the run was aborted, in which cases it fails as the model says |
| UploadComponent.UploadZone.OnResumeUrl | apps/web/components/uploads/upload-zone.tsx:136-140 | the URL is kept only if the session is still the item's, by identity |
| UploadComponent.UploadZone.TransferRejected | apps/web/components/uploads/upload-zone.tsx:143-154 | the failure is shown, a dead resumable session is dropped, and only this run's own controller is removed |
| UploadComponent.UploadZone.TransferResolved | apps/web/components/uploads/upload-zone.tsx:142-161 | goes on to completion exactly if the controller is not aborted, and otherwise ends as a failed transfer |
| UploadComponent.UploadZone.CompletionReplied | apps/web/components/uploads/upload-zone.tsx:162-187 | the reply's outcome is shown; the session is dropped after an answer and kept after an error |
| UploadComponent.UploadZone.HandleFailure | apps/web/components/uploads/upload-zone.tsx:189-204 | aborted runs show as cancelled whatever the error, expired ones with their own text, the rest with the error's text |
| UploadComponent.UploadZone.DeleteController | apps/web/components/uploads/upload-zone.tsx:206-210 | removes the item's controller exactly if it is this object |
| UploadComponent.UploadZone.Cancel | apps/web/components/uploads/upload-zone.tsx:212-215 | aborts the item's current controller, if any, and shows the item as cancelled |
| UploadComponent.UploadZone.Retry | apps/web/components/uploads/upload-zone.tsx:217-238 | nothing for an item that is not listed; else completes again, resumes or starts over, as the session's phase, mode, URL and expiry decide |
| PollingRuns.OneLiveChain | apps/web/components/orchestration/orchestration-console.tsx:47-126 | after any events, timers that are set plus cycles in flight with the current token are at most one, and a timer that is set is the one the next stop clears |
| PollingRuns.CallsBounded | apps/web/components/orchestration/orchestration-console.tsx:98-166 | every chain refreshes at most 20 times, and all getOrchestration calls are at most 21 times the loads plus advances |
| PollingRuns.AdvancingIsBacked | apps/web/components/orchestration/orchestration-console.tsx:110-174 | while mounted and advancing, an advance is in flight or a live chain exists |
| PollingRuns.SilentAfterUnmount | apps/web/components/orchestration/orchestration-console.tsx:144-151 | after unmounting, whatever arrives late, no timer is set, no call is made and nothing shown changes |
| PollingRuns.StepKeepsInv | apps/web/components/orchestration/orchestration-console.tsx:84-174 | every event keeps the invariant about chains, tokens, caps, the call budget and the advancing flag |
| PollingChains.NoRefreshAfterTheLast | apps/web/components/orchestration/orchestration-console.tsx:98-118 | over any events and for the chain of any token: at most 20 refreshes, and none after an answer that failed or in which no task is pending, running or waiting to be retried and no stage is in progress |
| PollingChains.ChainEndsOnlyIfDone | apps/web/components/orchestration/orchestration-console.tsx:98-126 | while mounted, a chain that was begun and not replaced is live, or ended after such an answer or after its 20th refresh |
| PollingChains.AnswerDecides | apps/web/components/orchestration/orchestration-console.tsx:103-116 | after an answer to the current chain: one more timer and an unchanged screen if work is going on and fewer than 20 refreshes were made; else no timer, the advance button free, and the message that sums up the settled work, says that it still goes on, or is left alone after a failure |
| PollingChains.OutdatedCycleIsSilent | apps/web/components/orchestration/orchestration-console.tsx:102 | an outdated cycle changes nothing and calls for nothing |
| PollingChains.LastAnswerIsShown | apps/web/components/orchestration/orchestration-console.tsx:84-96 | over any events, the status shown is the last one answered while mounted, and a refresh error is shown if and only if the last refresh failed |
| PollingChains.CallsBegin | apps/web/components/orchestration/orchestration-console.tsx:128-158 | a load shows that it waits and asks once; an advance shows that it is under way; neither touches the chains |
| PollingChains.LoadBeginsIffWorking | apps/web/components/orchestration/orchestration-console.tsx:128-142 | an answered load begins a chain if and only if work is going on, and shows its error if it failed |
| PollingChains.AdvanceAnswered | apps/web/components/orchestration/orchestration-console.tsx:158-173 | an accepted advance refreshes; a refused one shows its error and frees the button |
| PollingChains.AdvanceBeginsChain | apps/web/components/orchestration/orchestration-console.tsx:165-167 | over any events, after that refresh it begins a chain of its own, with a new token |
| PollingChains.InFlightIff | apps/web/components/orchestration/labels.ts:63-97 | work is going on if and only if some task is PENDING, RUNNING or RETRY_WAIT or some stage is IN_PROGRESS |
| OrchestrationComponent.OrchestrationConsole.StopPolling | apps/web/components/orchestration/orchestration-console.tsx:47-53 | clears the timer in the slot and outdates every earlier token |
| OrchestrationComponent.OrchestrationConsole.BeginPolling | apps/web/components/orchestration/orchestration-console.tsx:120-126 | stops the earlier chain and sets one timer with the new token and 19 cycles left |
| OrchestrationComponent.OrchestrationConsole.RefreshSilently | apps/web/components/orchestration/orchestration-console.tsx:84-96 | writes and returns the answer only while mounted |
| OrchestrationComponent.OrchestrationConsole.CycleResumes | apps/web/components/orchestration/orchestration-console.tsx:102-116 | an outdated cycle does nothing; a current one sets the next timer or ends the chain and reports |
| OrchestrationComponent.OrchestrationConsole.InitialLoadAnswered | apps/web/components/orchestration/orchestration-console.tsx:132-141 | writes only while mounted and starts a chain exactly if something is in flight |
| OrchestrationComponent.OrchestrationConsole.InFlight | apps/web/components/orchestration/orchestration-console.tsx:333-339 | the loops find work exactly if some task is at work or some stage is in progress |
| OrchestrationComponent.OrchestrationConsole.AdvanceRefused | apps/web/components/orchestration/orchestration-console.tsx:168-173 | a refused advance ends the waiting state and shows its error, unless unmounted |
| OrchestrationComponent.OrchestrationConsole.Unmount | apps/web/components/orchestration/orchestration-console.tsx:147-150 | clears the timer and outdates the token |
| TaskPolling.PollingIsFaithfulAndBounded | apps/web/components/uploads/upload-progress.tsx:72-118 | over any answers and failures the status shown is the last recognised answer or the initial one; at most 20 reads, none after a recognised terminal status; polling stops only for those two reasons |
| TaskPolling.ReadsUntilFinished | apps/web/components/uploads/upload-progress.tsx:21-92 | over any answers and failures, no read follows SUCCEEDED, FAILED_MANUAL_REVIEW or SUPERSEDED, and while mounted polling has stopped only after one of these or the 20th read |
| TaskPolling.NamesRecognised | apps/web/components/uploads/upload-progress.tsx:26-37 | exactly the six names are recognised, each as its own status |
| TaskPolling.UploadProgress.OnAnswer | apps/web/components/uploads/upload-progress.tsx:84-91 | the answer is shown if recognised, and the next timer is set unless it is terminal or no cycle is left |
| DebtSchedule.DebtServiceSchedule | services/api/src/creditops/application/underwriting/calculators.py:946-1008 | negative amounts and terms that are not whole and positive are rejected, missing inputs are not computable, and else the loop over the rounded running balance yields the closed-form rows and their total |
| DebtSchedule.PlanIsInCents | services/api/src/creditops/application/underwriting/calculators.py:978-981 | the loan and its instalment are whole cents for every accepted principal, rate and term |
| DebtSchedule.PrincipalIsRepaid | services/api/src/creditops/application/underwriting/calculators.py:983-999 | the principal parts add up to the loan exactly, the final balance is zero, and every amount is whole cents |
| DebtSchedule.ScheduleFollows | services/api/src/creditops/application/underwriting/calculators.py:978-998 | every accepted loan, row by row: the interest is the rounded twelfth of the annual percentage of what is unpaid; an instalment before the last is the rounded equal share of the loan, or zero of a balloon loan; the last is what is unpaid; the balance is what is left |
| Money.QuantizedIsRounded | services/api/src/creditops/application/underwriting/calculators.py:646-648 | rounding gives whole cents, at most half a cent away, a half away from zero |
| Money.RoundedIsUnique | services/api/src/creditops/application/underwriting/calculators.py:646-648 | only one amount is so |
| DebtSchedule.NonNegativeIff | services/api/src/creditops/application/underwriting/calculators.py:989-990 | no row is negative if and only if the rounded instalments before the last do not exceed the loan |
| DebtSchedule.RoundingCanOvershoot | services/api/src/creditops/application/underwriting/calculators.py:981-991 | a loan whose last row is negative |
| EventHistory.CheckEvents | services/api/src/creditops/domain/repayments.py:338-371 | the error is foreign event, unknown payment or reversed too much, in that priority, exactly if the history has that defect |
| EventHistory.ValidHistoryIsNotNegative | services/api/src/creditops/domain/repayments.py:348-370 | a history that passes the checks has a net cash that is not negative |
| EventHistory.NetIsPaidLessReversed | services/api/src/creditops/domain/repayments.py:397 | the net cash is the sum of the payments less the sum of the reversals |
| EventHistory.FullReversalUndoes | services/api/src/creditops/domain/repayments.py:350-370 | after any valid history, a new payment and its full reversal are accepted and leave the net cash as it was, and nothing more can be reversed of it |
| EventHistory.ForeignOrUnknown | services/api/src/creditops/domain/repayments.py:349-364 | an event of another facility makes any history invalid, and every reversal of a valid one names a payment in it |
| EventHistory.HistoryIgnoresOrder | services/api/src/creditops/domain/repayments.py:334-371 | the verdict and the net cash do not depend on the order in which the events were delivered |
| Waterfall.LeftIs | services/api/src/creditops/domain/repayments.py:374-407 | what remains after any number of demands has a closed form, for every net amount |
| Waterfall.AbsorbedWithin | services/api/src/creditops/domain/repayments.py:374-378 | a demand absorbs between nothing and all of it |
| Waterfall.OldestFirst | services/api/src/creditops/domain/repayments.py:401-407 | no demand absorbs anything before all earlier ones are met in full |
| RepaymentLedger.Allocate | services/api/src/creditops/domain/repayments.py:399-432 | the loop gives every installment what its three demands absorb in turn, and ends with what remains |
| RepaymentLedger.DeriveExceptions | services/api/src/creditops/domain/repayments.py:470-519 | one exception for each overdue installment, in order, and one for unmatched cash |
| LedgerExceptions.OneExceptionPerOverduePeriod | services/api/src/creditops/domain/repayments.py:480-506 | each overdue period has exactly one exception and any other none; it gives the outstanding amount, as overdue if and only if nothing was allocated and else as underpaid |
| LedgerExceptions.OneExceptionPerOverdueMonth | services/api/src/creditops/domain/repayments.py:296-506 | for every loan, net cash and date: each overdue month has exactly one exception, which says what is outstanding, and any other month has none |
| LedgerExceptions.LoanPeriodsNumbered | services/api/src/creditops/domain/repayments.py:315-328 | the periods of a loan's ledger have distinct numbers |
| LedgerExceptions.AmountsAddUp | services/api/src/creditops/domain/repayments.py:480-506 | the amounts reported about periods add up to what is outstanding of the overdue ones |
| LedgerExceptions.AtMostOneUnderpaid | services/api/src/creditops/domain/repayments.py:470-506 | of any ledger at most one period is reported as underpaid |
| RepaymentLedger.ApplyEvents | services/api/src/creditops/domain/repayments.py:381-467 | the verdict of the checks, or the snapshot recomputed from the schedule and the net cash |
| RepaymentLedger.AllocatedIsCovered | services/api/src/creditops/domain/repayments.py:225-234 | the snapshot's allocated total and overpayment in closed form, for every net amount |
| LedgerPeriods.Allocation | services/api/src/creditops/domain/repayments.py:401-410 | an installment is allocated its fee, then its interest, then its principal, each as far as the cash covers it after all earlier demands |
| LedgerPeriods.PeriodIs | services/api/src/creditops/domain/repayments.py:411-417 | for every schedule in whole cents, net cash and date: overdue if and only if it is due and what is covered is less than its total; and when it is paid, partially paid or unpaid |
| LedgerPeriods.BucketsAre | services/api/src/creditops/domain/repayments.py:437-450 | what is expected and outstanding of fees, of interest and of principal, as sums over the schedule |
| LedgerPeriods.ReportedIffLate | services/api/src/creditops/domain/repayments.py:480-506 | an installment has one exception if and only if it is due and not covered, over what is not covered, as overdue if nothing is and else as underpaid |
| LedgerPeriods.NothingBeforeItIsDue | services/api/src/creditops/domain/repayments.py:417-506 | no exception is about an installment that is due after the date |
| RepaymentLedger.ReconcilesAtQuantum | services/api/src/creditops/domain/repayments.py:229-233 | for every schedule in whole cents and every net cash that is not negative: rounded to the money quantum, net paid equals allocated plus overpayment, and without rounding if the cash is in whole cents |
| RepaymentLedger.ReconcilesIff | services/api/src/creditops/domain/repayments.py:374-378 | without rounding, net paid equals allocated plus overpayment if and only if the cash pays for everything or is not rounded up |
| LedgerLoans.HalfCentDoesNotReconcile | services/api/src/creditops/domain/repayments.py:374-378 | a valid history of one payment of half a cent, on a loan of one unit, does not reconcile without rounding |
| RepaymentLedger.UnmatchedIff | services/api/src/creditops/domain/repayments.py:434-435 | when an overpayment exists and is reported, exactly; for whole cents it is the cash beyond everything owed |
| LedgerLoans.SmallRestIsUnmatched | services/api/src/creditops/domain/repayments.py:434-435 | a valid history of one payment of less than half a cent is reported as unmatched cash although more is owed |
| RepaymentLedger.SettledIff | services/api/src/creditops/domain/repayments.py:274-277 | for every schedule in whole cents: settled if and only if the net cash, to the cent, is the schedule's total and not more |
| RepaymentLedger.SettledMeansCoveredIff | services/api/src/creditops/domain/repayments.py:274-277 | a settled facility has every obligation covered if and only if no scheduled amount is negative, and one with every obligation covered and no excess is settled if and only if none is |
| LedgerLoans.SettledWithUnpaidInstallment | services/api/src/creditops/domain/repayments.py:274-277 | a loan that is settled by a valid history while its fourth installment is unpaid and overdue |
| RepaymentLedger.OldestInstallmentFirst | services/api/src/creditops/domain/repayments.py:401-417 | for every schedule in whole cents: an installment gets nothing unless all earlier ones are paid, and at most one is partially paid |
| LedgerLoans.UnitLoan | services/api/src/creditops/application/underwriting/calculators.py:973-1000 | a loan of one unit over one month without interest is accepted and scheduled as one installment of one unit |
| LedgerLoans.InstallmentsFollowTerms | services/api/src/creditops/domain/repayments.py:315-328 | for every accepted loan: its installments are the rows that its terms ask for, with the rounded fee and their own due dates |
| LedgerLoans.LoanIsExpected | services/api/src/creditops/domain/repayments.py:315-328 | the principal that the ledger expects is the loan |
| LedgerLoans.LoanSettledIff | services/api/src/creditops/domain/repayments.py:296-467 | for every loan and every history that passes the checks: settled if and only if the total was paid, to the cent; and that covers every obligation if and only if the rounded instalments do not overshoot the loan |
| LedgerLoans.LoanNotNegativeIff | services/api/src/creditops/domain/repayments.py:315-328 | no installment of a loan is negative if and only if the rounded instalments before the last do not exceed it |
| RepaymentLedger.LedgerIgnoresOrder | services/api/src/creditops/domain/repayments.py:338-397 | every order of delivery is accepted alike and recomputes the same snapshot |
| LineWrap.WrapHeightPt | deck/qa_visual.py:37-54 | the nested loops compute the stacked height of the wrapped paragraphs |
| LineWrap.SplitIsInverseOfJoin | deck/qa_visual.py:40-41 | the parts hold no separator, joined they give the text back, and there is one more than separators |
| LineWrap.WrapIsGreedy | deck/qa_visual.py:42-50 | the loop's line and counter are the last line and the number of lines of the greedy layout |
| LineWrap.GreedyStaysAhead | deck/qa_visual.py:44-50 | after every word the greedy layout has fewer lines than any other, or as many and no more words on the last |
| LineWrap.WrapIsOptimal | deck/qa_visual.py:41-51 | no split of the words into acceptable lines has fewer lines than the loop counts, and one has exactly as many |
| LineWrap.TotalIsLeast | deck/qa_visual.py:39-51 | over all paragraphs the loops count, for each, the least number of lines of any acceptable layout |
| LineWrap.HeightByParts | deck/qa_visual.py:51-54 | the needed height stacks all these lines, and a space for each paragraph |
| LineWrap.LineHeightIs | deck/qa_visual.py:53-54 | a line is 1.3 times the font size and the spacing high; a spacing that is missing or zero counts as single |
| LineWrap.StackedByOne | deck/qa_visual.py:54 | each line adds one line height, and each paragraph one space |
| LineWrap.OneLineIff | deck/qa_visual.py:46 | a paragraph takes one line if and only if it is no wider than the box, or has no second word to move |
| LineWrap.SubstringMonotoneSuffices | deck/qa_visual.py:46 | a width that never shrinks when text is added around is monotone on runs of words |
| LineWrap.WiderIsNoTaller | deck/qa_visual.py:37-54 | the needed height never rises when the box gets wider |
| LineWrap.HeightOfJoined | deck/qa_visual.py:40-54 | the height of texts joined by a newline is the sum of their heights |
| RankSort.ComparatorIsStrictTotalOrder | apps/web/components/legal/legal-narrative.tsx:242-246 | comparing by rank and original index is antisymmetric, transitive and total on the entries of one list |
| RankSort.SortedDisplay | apps/web/components/legal/legal-narrative.tsx:240-247 | every correct sort displays the one list that goes rank by rank, each rank in input order |
| RankSort.GapsDisplayed | apps/web/components/legal/legal-narrative.tsx:227-247 | blocking, conditional, clarification gaps, then those without a level |
| RankSort.ChecksDisplayed | apps/web/components/legal/controlled-checks.tsx:43-78 | hits, inconclusive, cleared checks, then the rest |
| RankSort.CollateralDisplayed | apps/web/components/legal/collateral-review.tsx:25-55 | missing, expired, present documents, then the rest |
| Grouping.GroupForDisplay | apps/web/lib/api/monitoring.ts:393-408 | map, filter and push build the specified groups |
| Grouping.GroupingIsPermutation | apps/web/lib/api/monitoring.ts:393-408 | the groups put together list the items kind by kind, unknown ones last, losing and duplicating nothing |
| Grouping.AlertsGrouped | apps/web/lib/api/monitoring.ts:53-58 | alerts: a permutation, in display order, stable within a group, no group empty, unknown ones in one trailing group |
| Grouping.AlertsDisplayed | apps/web/lib/api/monitoring.ts:53-58 | open, acknowledged, escalated, dismissed alerts, then the rest |
| Grouping.ExceptionsGrouped | apps/web/components/repayments/repayment-workspace.tsx:342-363 | the same for collections exceptions |
| Grouping.ExceptionsDisplayed | apps/web/components/repayments/repayment-workspace.tsx:342-363 | overdue installments, underpaid periods, unmatched payments, then the rest |
| ConditionLifecycle.RequestsAndRulingsAlternate | apps/web/lib/api/conditions.ts:52-61 | on every run the requests exceed the rulings by one exactly while a request is open or if it was open when the condition was superseded, and else by none |
| ConditionLifecycle.OneCheckerStep | apps/web/lib/api/conditions.ts:66-70 | on every run at most one step needs the checker's authority |
| ConditionLifecycle.ConfirmableLasts | apps/web/lib/api/conditions.ts:81-85 | a confirmable status lasts until SUPERSEDED, which is absorbing |
| ConditionLifecycle.ConfirmableMeansOnlySuperseded | apps/web/lib/api/conditions.ts:57-85 | the confirmable statuses are exactly those whose only successor is SUPERSEDED, and exactly the checker's targets |
| ConditionLifecycle.EveryStatusReachable | apps/web/lib/api/conditions.ts:38-61 | every status is reached by some run, and from each but SUPERSEDED that run can be superseded |
| ConditionLifecycle.AllowedIff | apps/web/lib/api/conditions.ts:52-61 | the transition table by rules: superseding, asking for evidence or a waiver, failing or granting what was asked for, finding not applicable |
| AlertLifecycle.AllowedMeansClimbing | apps/web/lib/api/monitoring.ts:63-68 | a disposition is allowed if and only if it climbs the rank |
| AlertLifecycle.AtMostThreeDispositions | apps/web/lib/api/monitoring.ts:63-68 | every alert run has at most three dispositions and never returns to a status |
| AlertLifecycle.ThreeDispositions | apps/web/lib/api/monitoring.ts:63-68 | three are possible: acknowledged, escalated, dismissed |
| AuditTimeline.AuditWorkspace.LoadedMore | apps/web/components/audit/audit-timeline.tsx:199-204 | the seen-set filter appends the page's events that were not shown |
| AuditTimeline.MergeIds | apps/web/components/audit/audit-timeline.tsx:199-203 | the merged ids are those shown and those of the page, and when none repeats |
| AuditTimeline.TimelineShowsWhatLanded | apps/web/components/audit/audit-timeline.tsx:170-212 | in any order of landings, exactly the ids landed since the last first page are shown, none twice if no page repeats one |
| AuditTimeline.TimelineOnlyGrows | apps/web/components/audit/audit-timeline.tsx:193-212 | between first pages the list only grows at its end |
| AuditTimeline.TimelineIsDelivered | apps/web/components/audit/audit-timeline.tsx:193-212 | what is shown was delivered like that, and the cursor is that of the page that landed last |
| AuditTimeline.RecordedOnce | apps/web/components/repayments/repayment-workspace.tsx:91-101 | over any deliveries every event is listed once, in order of first delivery |
| FigureTable.KeyIsInjective | apps/web/components/underwriting/format.ts:147-152 | two references have the same chip key if and only if they are equal |
| FigureTable.DedupeFactRefs | apps/web/components/underwriting/format.ts:159-165 | the map-filling loop yields the first occurrence of each reference, in order |
| FigureTable.FigureRows | apps/web/components/underwriting/underwriting-worksheet.tsx:286-320 | the nested mutating loops yield the specified table |
| FigureTable.RowNames | apps/web/components/underwriting/underwriting-worksheet.tsx:310-311 | the rows are those of the labels that occur as inputs, in label order |
| FigureTable.RowsGuarantee | apps/web/components/underwriting/underwriting-worksheet.tsx:291-318 | a row's value is the first that is not null, its chips have distinct keys and are those of exactly the references of its inputs |
| FigureTable.ChipsShowReferences | apps/web/components/underwriting/format.ts:147-157 | the chips of a row show the kinds and ids of exactly the references of its inputs |
| FigureTable.FirstValueIsFirst | apps/web/components/underwriting/underwriting-worksheet.tsx:297-299 | the value taken is the first one that is not null, and null only if all are |
| FigureTable.MitigantsByRisk | apps/web/components/underwriting/underwriting-worksheet.tsx:765-773 | looking a risk up gives its mitigants in input order, and no group is empty |

## Left out

- LineWrap.WiderIsNoTaller: assumes a line height that is not negative and a width that is monotone on runs of words; both are properties of the font, not of this code.
- EventHistory.HistoryIgnoresOrder: assumes that events with the same id are the same event, which the table's primary key guarantees. The sort itself is left out, since the snapshot only uses the sum and the count.
- DebtSchedule.DebtServiceSchedule: does not model the 28-digit precision of Decimal arithmetic; amounts are exact reals.
- The server is taken to issue each intent once and to register a document once per intent and key; the content check with which the repository's server refuses a second document of the same bytes is not part of this model.
- Upload items are identified by their sequence number; the time prefix of the id is dropped. The clock is a parameter that says whether an intent has expired.
- Validation of a file is a flag; content types, file sizes and error texts are abstract.
- The transport ends in success, error or abort, and reports progress and resume URLs only while it is pending.
- Console: task details, the wording of the settled summary, remounting and changes of props. Loads and advances are allowed whenever mounted, which includes everything the buttons allow.
- Task polling: remounting and changes of the item.
- Visual check: font loading, shape extraction and overlaps; widths and heights are exact reals.
- Any sort that returns a sorted permutation is accepted for the language's sort. Evidence-gap levels outside the three typed ones are not modelled.
- Figure table: labels, result labels and citation chips; names inherited by every JavaScript object are the parameter `listed`.
- Condition statuses outside the closed set, for which no transition is offered.
- Installment due dates are given by a function of the period; the calendar arithmetic behind them is not part of this model.
- The rest of the API: gates, disbursement, decisions, task engine, HTTP routes and storage.
- Rendering, focus handling, labels and formatting.
