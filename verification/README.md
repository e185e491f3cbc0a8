# Verified model of the shop's delivery and order protocols

A Dafny model of the parts of the repository in which several actors change shared state, with proofs about
all their interleavings: the notification outbox (task workers, two reapers, the Telegram feedback consumer,
cleanup and recovery from the email log), download counters, the GA4 purchase lock, checkout idempotency, the
rate limiter, threshold incidents, the money of an order, and the monthly payments report.

Check everything with `dafny verify dfyconfig.toml`.

## How it is built

The code that changes rows step by step is written as classes and methods with the same branches and order of
writes (`NotificationStore`, `DownloadGrant`, `PurchaseEvents`, `CheckoutStore`, `RateLimitCache`,
`IncidentAlerts`, `OrderRecord`). Every outbox method is proved to perform one *transaction function*
(`OutboxTables`), the protocol's steps are built from the same functions, and a task, a reaper loop or a
feedback batch that nobody disturbs is proved to be a run of the protocol (`OutboxRefinement`), so what is
proved about all runs is about the methods. The reaper methods take the tables that each iteration finds under
its lock as a parameter, so that other sessions may do anything in between. A transition system has one step per
database transaction, cache call or outside effect; a step that is not enabled changes nothing, so every sequence
of steps is a run and "for every run" quantifies over all interleavings of any number of workers, crashes and
reaper passes.

| file | models |
|---|---|
| `OutboxTables.dfy` | outbox rows, email logs, the partial unique constraint, each transaction as a function |
| `OutboxStore.dfy` | the outbox services and the email sender as written, proved to be those transactions |
| `OutboxProtocol.dfy` | the transition system: workers with a phase and a start, clock, tables |
| `OutboxRefinement.dfy` | the sequential code as runs of the protocol |
| `OutboxShape.dfy` | what holds of rows, tasks and logs in every run of every configuration |
| `OutboxLease.dfy` | mutual exclusion, fencing, status diagram, finality of SENT, the constraint |
| `OutboxSingleSend.dfy` | no second send after a recorded one, and its recovery |
| `OutboxRetry.dfy` | attempts, handler calls, and the end of retries |
| `OutboxWatchdog.dfy` | the watchdog against the reapers |
| `TelegramFeedback.dfy` | acks, failures and the delivery timeout |
| `DownloadSlots.dfy` | guest access and custom game download counters |
| `Ga4Lease.dfy` | the purchase event lock |
| `Checkout.dfy` | submissions racing on one idempotency key |
| `Counters.dfy`, `RateLimit.dfy`, `Incidents.dfy` | counters with a time to live |
| `ManualOrder.dfy` | order lines, recalculation, rounding |
| `MonthlyReport.dfy` | pages and totals |

## What the proofs found

- The single-send guarantee needs more than the lease. An exception that reaches the failure handler after
  the email log already says SENT (a handler's own update after sending, apps/notifications/handlers.py:87-90
  and apps/payments/emails.py:121-123, or the soft time limit of the task) marks the row FAILED; FAILED rows
  are begun again without looking at the log, and the email goes out a second time. `SingleSendIff` states the
  exact condition and `LateRaiseSendsTwice` the run. docs/runbooks.md:214 calls resending idempotent after
  reconciliation; a row that the failure handler has marked FAILED is never reconciled.
- With the hard limit of two minutes of the notification task, a processing timeout of two minutes or more is
  exactly what keeps two attempts apart; the setting is read from the environment without a lower bound. A second
  task that processes rows (apps/access/tasks.py:13-28) names no limit and so gets the default of five minutes
  (config/settings.py:210); nothing enqueues it, and where it is used the timeout has to be five minutes.
- In the rows below *the lease* is the condition that the task limit is at most the processing timeout. Without it
  each of these guarantees is lost in some run: mutual exclusion, fencing, the status diagram, finality of SENT,
  single and recovered sends, rows given up for good, the account of Telegram dispatches, and who can hit the
  unique constraint. The constraint itself, the attempts column and the ack behind a sent Telegram row need no lease.
- Cleanup reads its rows before it deletes them by id, because email logs refer to them. A FAILED row that is
  retried in between (apps/notifications/admin.py:116) is deleted under its live task. Mutual exclusion and
  "only SENT and FAILED rows are deleted" hold exactly when that cannot happen and the timeout is long enough;
  with a long enough timeout SENT stays final and sends stay single even where it can happen.
- Redirects after a renewed grant can exceed its limit, by exactly the requests in flight at the renewal; the
  counter itself never does.
- The comment at apps/core/analytics.py:251 names one way to send a purchase event twice. There are exactly
  two more: a section longer than the lock's 30 seconds, and a raised request that was accepted.
- A sliding interval as long as the window can contain twice the limit of the rate limiter.
- At checkout the header rounds the discount once and the lines round one by one: the sums differ unless the
  residues of the lines cancel out, which `RoundingGap` states exactly. After a recalculation header and lines
  agree, but the redemption still records the discount rounded once (`RedemptionGap`).

## Model

| member | source | states |
|---|---|---|
| `OutboxTables.LatestSentLog` | apps/notifications/services.py:182-191 | there is a log to reconcile with if and only if the row has a sent log, and it is one of the row's sent logs |
| `OutboxTables.LatestSentLogIsFirst` | apps/notifications/services.py:187-188 | it is the first in the order of the query: latest sending time, then greatest id |
| `OutboxTables.ReconciledFromLatest` | apps/notifications/services.py:181-196 | a reconciliation sets SENT with the latest sending time among the row's sent logs, its own time only if one of them has none, and changes nothing else but the error text and updated_at |
| `OutboxTables.WriteKeepsOneInFlight` | apps/notifications/models.py:56-65 | a write that the partial unique constraint accepts leaves at most one in-flight row per type, target and channel |
| `OutboxTables.RefusedIff` | apps/notifications/models.py:56-65 | the constraint refuses exactly the writes after which two rows of one type, target and channel would be PENDING, PROCESSING or DELIVERING |
| `OutboxTables.InFlightRowNeverRejected` | apps/notifications/models.py:56-65 | a row already in flight can be written in any status without hitting the constraint |
| `OutboxStore.DeletedOneByOne` | apps/notifications/services.py:525-526 | the bulk deletion is the deletion of the rows one after the other, as the protocol's cleanup steps do it |
| `OutboxStore.NotificationStore.Save` | apps/notifications/models.py:56-65 | a write succeeds exactly when the constraint allows it and changes that row only |
| `OutboxStore.NotificationStore.CreateNotificationOutbox` | apps/notifications/services.py:63-99 | a PENDING row with a fresh id, no attempts and the creation time appears, or the constraint refuses it and nothing changes |
| `OutboxStore.NotificationStore.ReconcileFromSentLog` | apps/notifications/services.py:181-214 | the row becomes SENT with the time of its latest sent log exactly when it has one; the time of the reconciliation stands in only for a log without one |
| `OutboxStore.NotificationStore.HandleStaleProcessing` | apps/notifications/services.py:217-244 | a fresh attempt stops the task, a recorded send is reconciled, anything else goes back to pending |
| `OutboxStore.NotificationStore.LockAndBegin` | apps/notifications/services.py:247-282 | the code is the begin transaction of the protocol: same outcome and same tables in every case, the rolled back one included |
| `OutboxStore.NotificationStore.MarkFailed` | apps/notifications/services.py:304-309 | the failure write is the protocol's, whatever status the row has by then |
| `OutboxStore.NotificationStore.MarkDelivering` | apps/notifications/services.py:330-335 | the same for the DELIVERING write |
| `OutboxStore.NotificationStore.MarkSent` | apps/notifications/services.py:348-353 | the same for the SENT write |
| `OutboxStore.NotificationStore.ProcessNotificationOutbox` | apps/notifications/services.py:285-370 | without interference a task is begin, handler and one final write that depends on the handler's outcome and the channel; an exception is raised again |
| `OutboxStore.TaskStops` | apps/notifications/services.py:247-275 | a task on a SENT, DELIVERING or freshly begun row returns false and changes nothing |
| `OutboxStore.TaskReconciles` | apps/notifications/services.py:230-231 | a task on a stale row with a recorded send returns true and only reconciles it |
| `OutboxStore.TaskRuns` | apps/notifications/services.py:285-370 | any other task that the constraint lets in counts one attempt and leaves the row FAILED with the handler's error, or else DELIVERING for Telegram and SENT at the end for email; it returns true exactly when the handler returned |
| `OutboxStore.NotificationStore.SendOutboundEmail` | apps/emails/senders.py:34-118 | exactly one log is added, with the status that suppression and SMTP decide, sent_at only if sent; none without a recipient or when the outbox row has been deleted |
| `OutboxStore.NotificationStore.SelectOldSent` | apps/notifications/services.py:513-516 | the first statement reads the SENT rows whose sending is older than the retention |
| `OutboxStore.NotificationStore.SelectOldFailed` | apps/notifications/services.py:517-520 | the same for FAILED rows and their last update |
| `OutboxStore.NotificationStore.DeleteSelected` | apps/notifications/services.py:525-526 | the second statement deletes by id, whatever the rows have become, and detaches their logs |
| `OutboxStore.NotificationStore.CleanupOldOutboxes` | apps/notifications/services.py:495-540 | undisturbed, exactly the old sent and old failed rows (of one type, if given) disappear, their logs stay without reference, the counts are theirs |
| `OutboxStore.NotificationStore.MarkFailedMaxAttempts` | apps/notifications/services.py:383-387 | the row fails with the exhaustion message, and the constraint cannot refuse that |
| `OutboxStore.NotificationStore.ReapRow` | apps/notifications/services.py:422-431 | one iteration is the reaper transaction of the protocol on the tables found under the lock; a row still PROCESSING and older than the cutoff is reconciled with the time of its send, failed as exhausted at max_attempts, or asked for again |
| `OutboxStore.NotificationStore.ReapStuckProcessing` | apps/notifications/services.py:407-443 | the loop over the rows its query selects, in id order, performs one reaper transaction per row on what it finds under that lock, queues and counts as they say, and aborts at a row deleted meanwhile |
| `OutboxStore.NotificationStore.ReapStalePending` | apps/notifications/services.py:446-468 | the loop over the rows its query selects queues and counts exactly those still pending and old under their locks |
| `OutboxStore.NotificationStore.ReapStuckNotificationOutboxes` | apps/notifications/services.py:471-492 | a pass is both loops, with other sessions active before every query and lock; the count is the sum |
| `OutboxStore.UndisturbedPass` | apps/notifications/services.py:471-492 | when nobody interferes the pass of the code is the pass that the watchdog results are about |
| `OutboxRefinement.UndisturbedTaskIsRun` | apps/notifications/services.py:285-370 | from any state, for every behaviour of the handler and any time it takes within the task limit, begin and the worker's own steps lead exactly to the tables that the task's code leaves, and change nothing else but the clock |
| `OutboxRefinement.ReaperLoopIsRun` | apps/notifications/services.py:407-443 | the reaper's loop leads to the tables that one reaper step per selected row leads to |
| `OutboxRefinement.FeedbackBatchIsRun` | apps/notifications/telegram_delivery.py:180-242 | a feedback batch or delivery reaper pass leads to the tables that its entries' steps lead to, and touches no task |
| `OutboxRefinement.CleanupIsRun` | apps/notifications/services.py:525-526 | an undisturbed deletion leads to the tables that the selections and deletions of its rows lead to |
| `OutboxRefinement.CreationIsStep` | apps/notifications/services.py:63-99 | the protocol's creation step adds the PENDING row of the creating method, stamped with the clock, unless the constraint refuses it |
| `OutboxRefinement.RunIsReachable` | apps/notifications/services.py:285-370 | so everything proved of reachable states holds after such code as well |
| `OutboxShape.ReachableShape` | apps/notifications/services.py:247-370 | in every run of every configuration a row is PENDING exactly when it was never begun and has no attempt time, only Telegram rows are DELIVERING, tasks work on the channel of their row, and logs refer to existing email rows |
| `OutboxLease.StepKeepsLease` | apps/notifications/services.py:217-282 | under the lease every step of every actor keeps the lease invariant |
| `OutboxLease.MutualExclusionIff` | apps/notifications/services.py:217-282 | over all runs every live attempt owns its PROCESSING row with last_attempt_at equal to its start and no row has two live attempts, if and only if the task limit is at most the processing timeout and no row is begun between its selection and its deletion by cleanup |
| `OutboxLease.TimeoutMinutesIff` | apps/notifications/tasks.py:23-24 | for a hard limit of so many seconds, and no begin between selection and deletion, that means a timeout of at least the limit: two minutes for this task's 120 seconds, five for a task with the default of 300 |
| `OutboxLease.SentIsFinalIff` | apps/notifications/services.py:304-353 | no step from any reachable state changes a SENT row other than by deleting it, if and only if the task limit is at most the timeout |
| `OutboxLease.FencedIff` | apps/notifications/services.py:304-353 | in every run each unconditional FAILED, DELIVERING and SENT write of each live task finds its own attempt, is never refused and changes that row only (or finds no row, where rows can be begun after cleanup has selected them), if and only if the lease holds |
| `OutboxLease.FinalWritesAreFenced` | apps/notifications/services.py:304-353 | the half of it under the lease, for one task |
| `OutboxLease.RowDeletedUnderTask` | apps/notifications/services.py:525-526 | where they can, a run deletes a row under its live task, whose final write then finds nothing |
| `OutboxLease.LegalEdgesIff` | apps/notifications/services.py:233-353 | in every run each step moves each row along the status diagram or leaves it alone (DELIVERING for Telegram only; rows appear PENDING; only SENT and FAILED rows are deleted, or rows begun after their selection where that can happen), if and only if the lease holds |
| `OutboxLease.OnlyLegalEdges` | apps/notifications/services.py:233-353 | the half of it under the lease, for one step and row; under the lease sent_at is set exactly on SENT rows |
| `OutboxLease.DeletesOnlySettledIff` | apps/notifications/services.py:513-526 | over all runs cleanup deletes only SENT and FAILED rows, if and only if the task limit is at most the timeout and no row is begun between its selection and its deletion |
| `OutboxLease.AlwaysOneInFlight` | apps/notifications/models.py:56-65 | at most one in-flight row per type, target and channel in every run of every configuration |
| `OutboxLease.ConstraintIff` | apps/notifications/services.py:77-85 | in every run the constraint refuses a step exactly when it creates a row, or begins a FAILED row again, while another in-flight row has the key, if and only if the lease holds |
| `OutboxLease.ConstraintRejectsOnly` | apps/notifications/services.py:77-85 | the half of it under the lease, for one step |
| `OutboxLease.DispatchIsRejected` | apps/notifications/services.py:330-335 | without the lease a run leads to a DELIVERING write that the constraint refuses |
| `OutboxLease.OverlapIsReachable` | apps/notifications/services.py:219-228 | without the lease a run leads to two live attempts on one row |
| `OutboxLease.SentIsUndone` | apps/notifications/services.py:304-309 | without the lease a run leads from there to FAILED written over SENT |
| `OutboxSingleSend.ReachableRecording` | apps/notifications/services.py:181-244 | under the lease, and if no exception reaches the failure handler after a recorded send: in every reachable state a recorded send is the only one of its row, and the row is SENT or PROCESSING with no attempt but the one that recorded it |
| `OutboxSingleSend.SingleSendIff` | apps/emails/senders.py:63-107 | no run gives a row two SENT logs, if and only if the task limit is at most the timeout and no exception reaches the failure handler after a recorded send |
| `OutboxSingleSend.SendIsFinalIff` | apps/notifications/services.py:217-244 | in every run, once a send is recorded no step begins the row again or fails it, and it stays as it is, becomes SENT or is deleted, if and only if the lease holds and no exception reaches the failure handler after a recorded send |
| `OutboxSingleSend.RecordedSendIsFinal` | apps/notifications/services.py:217-244 | the half of it under these two conditions, for one step |
| `OutboxSingleSend.RecoveryIff` | apps/notifications/services.py:428 | in every run, once a PROCESSING row with a recorded send is stale no task is left on it and both the reaper and a redelivered task set SENT with the latest sending time in the row's sent logs, if and only if the lease holds |
| `OutboxSingleSend.RecordedSendIsRecovered` | apps/notifications/services.py:428 | the half of it under the lease, for one row |
| `OutboxSingleSend.LateRaiseSendsTwice` | apps/notifications/services.py:301-309 | a run with an exception after the recorded send that sends twice |
| `OutboxSingleSend.OverlapSendsTwice` | apps/notifications/services.py:219-228 | a run with overlapping attempts that sends twice |
| `OutboxRetry.AttemptsAreBegins` | apps/notifications/services.py:277-281 | in every run of every configuration the attempts column is the number of attempts begun on the row |
| `OutboxRetry.HandlerCallsBounded` | apps/notifications/services.py:301-303 | handler calls for a row, also those that raise at once or return without sending, never exceed the attempts begun, and so not its attempts |
| `OutboxRetry.BeginsBounded` | apps/notifications/services.py:407-443 | in every run of the protocol in which each further begin of the row follows its own requeue by a reaper, the row is begun at most max(1, max_attempts) times |
| `OutboxRetry.GivenUpIff` | apps/notifications/services.py:407-468 | in every run in which each further begin of a row follows its own requeue, a FAILED row for which no task was asked stays as it is until deleted, is not begun again and is selected by no reaper, if and only if the lease holds |
| `OutboxRetry.GivenUpForever` | apps/notifications/services.py:407-468 | the half of it under the lease, for one row and any further steps |
| `OutboxRetry.ExhaustedIsGivenUp` | apps/notifications/services.py:428-431 | under the lease, in such runs, an exhausted row that turns stale without a recorded send is FAILED by the next pass, and that is final |
| `OutboxRetry.RoundOutcome` | apps/notifications/services.py:407-443 | one begin, death and reaper pass, other sessions active in between: the row is reconciled, given up or queued again exactly by the recorded send and the attempts left |
| `OutboxRetry.RetriesEnd` | apps/notifications/services.py:383-443 | if workers always die, whatever other sessions do to other rows, the row is begun exactly until its first recorded send or as often as it has attempts left, ends SENT or FAILED accordingly, and no reaper selects it again |
| `OutboxWatchdog.StuckIsSelected` | apps/orders/watchdog.py:181-188 | at one cutoff every row the watchdog calls stuck is selected by a reaper query; the only others are young processing rows without an attempt time |
| `OutboxWatchdog.WatchdogAgreesWithReaper` | apps/orders/watchdog.py:177-188 | in every reachable state of every configuration there are no such others: the two agree exactly |
| `OutboxWatchdog.ReapAllActs` | apps/notifications/services.py:417-443 | in an undisturbed loop every stale row ends SENT, FAILED or queued, and the count is the number of such rows |
| `OutboxWatchdog.ReapAllPendingActs` | apps/notifications/services.py:456-468 | the same for the pending loop: exactly those rows are queued and counted, and no row changes |
| `OutboxWatchdog.ReapEachActs` | apps/notifications/services.py:417-443 | whatever other sessions do before each lock, every row still stale under its own lock is settled or queued by its iteration, the count is the number of those iterations, and the loop aborts exactly at a deleted row |
| `OutboxWatchdog.ReapEachPendingActs` | apps/notifications/services.py:456-468 | the same for the pending loop: exactly the rows still pending and old under their locks are queued and counted, and none changes |
| `OutboxWatchdog.PassClearsStuckRows` | apps/notifications/services.py:471-492 | after an uninterrupted pass every row that the watchdog called stuck is SENT, FAILED or queued, and the count is the number of selected rows |
| `TelegramFeedback.ConfirmTelegramDelivery` | apps/notifications/telegram_delivery.py:58-85 | only a delivering row becomes SENT, everything else is left alone; a missing row is an error |
| `TelegramFeedback.FailTelegramDelivery` | apps/notifications/telegram_delivery.py:88-118 | only a delivering row becomes FAILED |
| `TelegramFeedback.ProcessEntry` | apps/notifications/telegram_delivery.py:121-177 | an entry whose source is not `outbox`, without id or with a malformed id does nothing; an own ack makes a DELIVERING row SENT now, an own failure makes it FAILED with the entry's error or the default text; other rows stay, a missing row is an error |
| `TelegramFeedback.AddresseeIsOwn` | apps/notifications/telegram_delivery.py:121-177 | exactly the entries of the outbox itself with the row's id, and the row's timeout, are about a row |
| `TelegramFeedback.ProcessEntries` | apps/notifications/telegram_delivery.py:186-200 | a batch has the effects of its entries in order up to the first that names a missing row |
| `TelegramFeedback.ProcessOutboundFeedback` | apps/notifications/telegram_delivery.py:180-214 | acks are consumed before failures; the counts are the lengths of the batches |
| `TelegramFeedback.ReapStuckDeliveries` | apps/notifications/telegram_delivery.py:217-242 | the loop over the Telegram rows its query selects, in id order, performs one timeout transaction per row on what it finds under that lock, counts those that took effect, and aborts at a row deleted meanwhile |
| `TelegramFeedback.FailEachActs` | apps/notifications/telegram_delivery.py:225-231 | whatever other sessions do before each lock, the count is the number of iterations that find their row still DELIVERING, and the loop aborts exactly at a deleted row |
| `TelegramFeedback.IterationLeavesFailed` | apps/notifications/telegram_delivery.py:88-102 | each iteration fails its row with the timeout message if it still finds it DELIVERING, and changes nothing else |
| `TelegramFeedback.UndisturbedReaping` | apps/notifications/telegram_delivery.py:217-231 | when nobody interferes the loop consumes one timeout per selected row |
| `TelegramFeedback.TimedOutRowsFail` | apps/notifications/telegram_delivery.py:217-242 | such a pass is never cut short, fails and counts exactly the Telegram rows that have been DELIVERING since before the cutoff, and changes no other row |
| `TelegramFeedback.FirstVerdictDecides` | apps/notifications/telegram_delivery.py:58-118 | with entries duplicated, reordered, foreign or malformed, a DELIVERING row ends as the first entry with source `outbox` and its id says (SENT now; FAILED with the error, the default text or the timeout message) and is settled once; any other row is unchanged |
| `TelegramFeedback.SettledIff` | apps/notifications/telegram_delivery.py:58-242 | in every run the dispatches of a row equal its effective verdicts, plus one while it awaits its verdict, if and only if the lease holds and no row is begun between its selection and its deletion by cleanup |
| `TelegramFeedback.SettledOrLostIff` | apps/notifications/telegram_delivery.py:58-242 | the same account with one more for each deletion of an awaited row, if and only if the lease holds |
| `TelegramFeedback.EveryDispatchSettledOnce` | apps/notifications/telegram_delivery.py:58-242 | the half of it under the lease, for one row; such a deletion needs a begin after the selection by cleanup |
| `TelegramFeedback.TelegramSentNeedsAck` | apps/notifications/telegram_delivery.py:58-69 | in every run of every configuration a Telegram row is SENT only if the run consumed an ack for its id while it was delivering |
| `DownloadSlots.DownloadGrant.Regrant` | apps/access/services.py:110-132 | renewing a grant replaces the token and puts the counter back to zero |
| `DownloadSlots.DownloadGrant.Resolve` | apps/access/services.py:135-144 | a token is found exactly when it is the current one and the grant has not expired, is not used up and not revoked |
| `DownloadSlots.DownloadGrant.MarkUsed` | apps/access/services.py:147-161 | the update takes a slot exactly when at that moment the grant has not expired, is not used up and not revoked |
| `DownloadSlots.DownloadGrant.ReleaseUse` | apps/custom_games/services.py:287-296 | a slot is given back unless the counter is zero |
| `DownloadSlots.DownloadGrant.Get` | apps/access/views.py:29-129 | undisturbed, a redirect takes one slot within the limit and every other answer takes none; the statuses are those of the view |
| `DownloadSlots.SlotsConserved` | apps/custom_games/views.py:80-158 | without renewal the counter is exactly redirects plus requests in flight plus crashed ones and at most the limit, and a release always finds it positive |
| `DownloadSlots.RegrantBound` | apps/access/services.py:110-173 | over any run with any number of renewals, redirects since the last one exceed the limit by at most the requests then in flight |
| `DownloadSlots.RegrantBoundIsReached` | apps/access/services.py:119-131 | for every limit and every number of requests in flight a run reaches that bound |
| `DownloadSlots.MarksActiveOnly` | apps/access/services.py:147-161 | a slot is taken exactly while the grant is not revoked, has not expired and has slots left |
| `Ga4Lease.PurchaseEvents.SendPurchaseEvent` | apps/core/analytics.py:180-257 | undisturbed, each outcome with its exact condition: sent exactly when enabled, paid, not yet marked, with consent, unlocked and accepted; only then the order is marked; the lock is released on both ways out |
| `Ga4Lease.ReachableLease` | apps/core/analytics.py:212-257 | with short sections every task in the section holds the lock alone, and the accepted requests and marks agree |
| `Ga4Lease.AtMostOnceIff` | apps/core/analytics.py:226-257 | over all runs at most one request is accepted and the mark is written at most once, if and only if sections end before the lock expires, a raised request was not accepted and no task is lost between acceptance and mark |
| `Ga4Lease.OwnLockIff` | apps/core/analytics.py:20-37 | over all runs the delete without owner check removes no lock but the deleter's own, if and only if sections end before the lock expires |
| `Ga4Lease.ForeignLockDeleted` | apps/core/analytics.py:36-37 | otherwise a run deletes the live lock of another task in its section |
| `Ga4Lease.LoneTaskSends` | apps/core/analytics.py:180-257 | from any reachable state in which an order is due and unlocked, a task that nobody disturbs sends the event once, marks the order and leaves no lock |
| `Checkout.CheckoutStore.FindByKey` | apps/orders/services.py:135-138 | an order is found exactly when a committed one has the key; an empty key finds none |
| `Checkout.CheckoutStore.CreateNewOrder` | apps/orders/services.py:412-501 | the order appears with all its rows, or an error or conflict leaves the tables as they were |
| `Checkout.CheckoutStore.CreateOrderFromCart` | apps/orders/services.py:504-604 | an order with the key is returned as not created, also when any number of other submissions commit between the read and the transaction; with a new key the order is created exactly when the cart is available and not empty, the gates pass and there is no conflict; Blocked and Raised have their exact conditions; a created order is the only one with its key |
| `Checkout.CheckoutStore.Post` | apps/orders/views.py:227-317 | a known key changes nothing; a new one is redirected exactly when the request may create an order and creates or finds one; an invoice is enqueued exactly when it created it |
| `Checkout.ReachableInv` | apps/orders/services.py:412-501 | in every interleaving each order has the rows of the request that inserted it, one order per key, and each invoice is enqueued once |
| `Checkout.SubmissionsAgree` | apps/orders/services.py:504-604 | all submissions that return for one key return one order, and at most one created it |
| `Checkout.OneInvoicePerKey` | apps/orders/views.py:300-302 | invoices are enqueued for committed orders only, and at most once per order and per key |
| `Checkout.RollbackLeavesNothing` | apps/orders/services.py:412-501 | a finished request that created nothing has left no order, and no item or redemption is without an order; one that created has all its rows |
| `Checkout.LoserFindsWinner` | apps/orders/services.py:549-553 | a request that lost on the key always finds the winner's committed order when it reads again |
| `Checkout.NewKeyCreates` | apps/orders/services.py:412-501 | from any state a submission with a new key that nobody disturbs leaves its order with all its rows and one invoice |
| `Checkout.KnownKeyReturns` | apps/orders/services.py:515-517 | a submission with a known key returns a committed order with it and changes no table |
| `RateLimit.RateLimitCache.Check` | apps/core/rate_limits.py:93-130 | one check counts once on its own key, also when the key expires between the two cache calls; allowed means within the limit; bad parameters change nothing |
| `RateLimit.LifetimeAllowsExactly` | apps/core/rate_limits.py:108-127 | each counter lifetime allows exactly min(n, limit) of its n checks |
| `RateLimit.WindowBound` | apps/core/rate_limits.py:93-130 | any interval of the window's length contains at most 2 * limit allowed checks, any shorter one at most 2 * limit - 1 |
| `RateLimit.WindowBoundIsReached` | apps/core/rate_limits.py:93-130 | for every limit and window some run reaches it |
| `RateLimit.RetryAfterIsEnough` | apps/core/rate_limits.py:118-130 | whoever waits as long as a check has told, with or without a readable remaining time, is allowed at the next check, whatever was checked while the counter lived |
| `RateLimit.RetryAfterIsNeeded` | apps/core/rate_limits.py:118-130 | with a readable remaining time and the limit used up, whoever comes back earlier than told is refused |
| `Incidents.IncidentAlerts.SendIncidentAlert` | apps/core/alerts.py:154-211 | the dedupe key is taken before the send and stays when the send raises |
| `Incidents.IncidentAlerts.RecordThresholdIncident` | apps/core/alerts.py:85-125 | only the failure that brings the live count to the threshold tries to alert, with the exact condition of every outcome and the new value of every key; only a sent alert sets the flag; a counter that expires between its two cache calls raises and changes nothing |
| `Incidents.IncidentAlerts.ResolveThresholdIncident` | apps/core/alerts.py:128-151 | only a set flag and a sent recovery clear the flag |
| `Incidents.TriesAtThreshold` | apps/core/alerts.py:97-103 | a call would send an alert, given a delivering route and a free deduplication key, exactly when its failure brings the count of the counter's lifetime to the threshold |
| `Incidents.IncidentsAlternate` | apps/core/alerts.py:85-151 | after any sequence of calls the flag is set exactly when the last message sent was an alert, every recovery directly follows an alert, alerts keep the dedupe time |
| `Incidents.RecoveriesNeverExceedAlerts` | apps/core/alerts.py:128-151 | in no prefix of such messages do recoveries outnumber alerts |
| `Incidents.OneAttemptPerLifetime` | apps/core/alerts.py:97-110 | a counter lifetime contains exactly one such call once it has reached the threshold, and none before |
| `Incidents.OneAlertPerLifetime` | apps/core/alerts.py:85-125 | a counter lifetime sends at most one alert, none below the threshold, and exactly one from there on if that call found the route delivering and the deduplication key free |
| `ManualOrder.PrepareOrderItems` | apps/orders/services.py:148-181 | one line of quantity one per product, in order, with the discount rounded on its price |
| `ManualOrder.ExpandedProducts` | apps/orders/services.py:643-647 | every product as often as its line says, in line order |
| `ManualOrder.OrderRecord.SaveLineItem` | apps/orders/services.py:671-712 | one line is rewritten from its product and quantity, the sums returned are the line's |
| `ManualOrder.OrderRecord.ClearTotals` | apps/orders/services.py:607-629 | amounts, promo code and redemption are gone, the currency stays |
| `ManualOrder.OrderRecord.ApplyPromoToHeader` | apps/orders/services.py:715-725 | the promo fields of the header are those of the discount, or empty |
| `ManualOrder.OrderRecord.SaveLineItems` | apps/orders/services.py:752-759 | the loop saves every line, and its accumulators are the sums over the saved lines |
| `ManualOrder.OrderRecord.SaveTotals` | apps/orders/services.py:761-784 | the header is that of the saved lines and the discount, with one redemption exactly if there is one |
| `ManualOrder.OrderRecord.Recalculate` | apps/orders/services.py:728-784 | the whole new order and the outcome, with nothing changed on a validation error |
| `ManualOrder.LineEqualsUnits` | apps/orders/services.py:679-687 | a line of n units amounts to n checkout lines of one unit |
| `ManualOrder.ExpansionEquivalence` | apps/orders/services.py:748-764 | subtotal, discount, total and count after recalculation equal the sums of the lines that checkout prepares for the expanded product list |
| `ManualOrder.PercentDiscountBounds` | apps/promocodes/services.py:69-70 | a percentage of a non-negative price is between zero and the price and at most half a hundredth from the exact value |
| `ManualOrder.EligibleIff` | apps/promocodes/services.py:173-186 | a promo code without restrictions is for every product, one with restrictions for its own products and those of its categories only |
| `ManualOrder.HeaderMatchesLines` | apps/orders/services.py:761-784 | after a recalculation the header is the sum of the lines with their currency and the promo data of the evaluation, the total is what the lines cost and lies between zero and the subtotal for prices from zero and percentages up to 100; one redemption exactly with a promo code, with the evaluated amounts |
| `ManualOrder.OutcomeIff` | apps/orders/services.py:632-750 | an order is recalculated, cleared or refused under exactly these conditions: CREATED, lines, products on all of them, one currency, a promo code that evaluates |
| `ManualOrder.RecalculationIsIdempotent` | apps/orders/services.py:728-784 | a second recalculation changes nothing and has the same outcome; orders that are not CREATED or fail validation are not touched |
| `ManualOrder.RoundingGap` | apps/promocodes/services.py:226-235 | the checkout header's discount, rounded once, equals the sum of the line discounts, for prices from zero and percentages up to 100, if and only if the rounding residues of the lines lie together in (-50, 50] ten-thousandths; they differ by at most half a hundredth per eligible product |
| `ManualOrder.RoundingGapExample` | apps/promocodes/services.py:234 | an order where they do differ |
| `ManualOrder.RedemptionGap` | apps/orders/services.py:750-784 | after a recalculation with a promo code the discount of the redemption, rounded once over the expanded list, equals the header's, for prices from zero and percentages up to 100, if and only if the residues lie together in (-50, 50]; they differ by at most half a hundredth per eligible unit |
| `MonthlyReport.BuildReport` | apps/payments/reports.py:49-100 | without payments one message says so; otherwise each page of payment lines has one message with its header and number, a page is closed by the line that reaches 4000 characters, and the last message ends with the number of payments, of cancelled ones, and each currency with a positive sum of kept amounts, once, with that sum |
| `MonthlyReport.EveryPaymentIsReported` | apps/payments/reports.py:70-98 | the line of every payment stands in some message |
| `MonthlyReport.MoneyReadsBack` | apps/payments/reports.py:73-98 | an amount as written reads back from its two parts around the point |
| `MonthlyReport.CurrencyNames` | apps/payments/reports.py:12-26 | the four known codes have their names, other numbers are unknown, other texts stand for themselves |
| `MonthlyReport.FillPages` | apps/payments/reports.py:60-84 | the loop leaves the pagination, the totals per currency and the number of cancelled payments of all payments |
| `MonthlyReport.PagesHoldEveryLine` | apps/payments/reports.py:64-84 | the lines of the pages in order are the payment lines, each once |
| `MonthlyReport.PagesAreFullIff` | apps/payments/reports.py:79-84 | every closed page has at least 4000 characters before its footer and fewer than 4001 plus its last line, and the open page fewer than 4000, if and only if every page's header (never empty) is shorter than 4000 |
| `MonthlyReport.ReportPagesAreFullIff` | apps/payments/reports.py:36-46 | with the header of the report, for any two dates, that is so if and only if there is one page or the number of the last one, its period and 58 characters are together shorter than 4000 |
| `MonthlyReport.ReportPagesAreFull` | apps/payments/reports.py:36-84 | so the pages are full for any number of payments below the 3918th power of ten |
| `MonthlyReport.TotalsConserved` | apps/payments/reports.py:62-71 | no currency is listed twice, the totals of all currencies add up to the amounts of the payments that were not cancelled, and those and the cancelled ones are all the payments |

## Left out

- SMTP, Redis, S3, HTTP and Celery: an outside call is a step that succeeds, fails or crashes; the task queue is a sequence of ids, and any task may begin at any time.
- Payload encryption, token generation and hashing: opaque values; a token is compared as text.
- Rows with several recipients: admin notifications write several logs for one row, so the single-send results are about handlers with one recipient.
- Outbox rows whose content type was deleted while the object id stays: the target is present as a whole or absent.
- The attempts column is unbounded here and 16 bits wide in the database.
- Edits of status fields in the admin: they bypass the protocol.
- A Telegram ack that arrives before the DELIVERING write is consumed without effect, as in the code; nothing is claimed about such messages becoming SENT.
- OutboxStore.NotificationStore.SendOutboundEmail: message id, error text, subject, template and metadata of the log are not modelled.
- Checkout.CheckoutStore.CreateOrderFromCart: cart contents, availability, purchase gates and promo evaluation are parameters; promo errors count as a refusing gate, and the items and redemptions of other submissions' orders are only in the transition system.
- Checkout.CheckoutStore.Post: form validation, session keys and page rendering; the rate limit is a parameter.
- ManualOrder.OrderRecord.Recalculate: promo evaluation is a function of the promo code and the products, as the order's own redemption is excluded from it; row ids and timestamps are not modelled.
- ManualOrder.RecalculationIsIdempotent: assumes that evaluating a code returns that code.
- RateLimit.RateLimitCache.Check: the two cache calls of different requests do not interleave on one key, times are whole seconds, and hashing of keys is injective.
- Incidents.IncidentAlerts.RecordThresholdIncident: calls for one fingerprint are sequential.
- MonthlyReport.BuildReport: the local times of a payment and of its cancellation are texts already formatted.
- ManualOrder.RedemptionGap: the limits and dates of a promo code are not evaluated; what is assumed is that a discount, where one is given, has the amounts of apps/promocodes/services.py:221-245.
- Yandex purchase events: they have no lock, so there is no at-most-once claim.
- Invoice and payment status synchronisation: not part of this model.
- Cart and favourites normalisation, reminders, templates, metrics, logging and search pages.
