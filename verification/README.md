# The money path of a Mongolian invoicing service

The service issues invoices, sends pay links by SMS, takes payments through providers, cuts tax receipts and
bills its own tenants by the month. Its money path is a set of small protocols over database rows: a guard in
an update, a unique key or a time-limited lock decides who wins, and requests, webhooks, sweeps and operators
interleave between those writes. This project models those protocols as state machines over rows and proves
what holds in every run; beside them stand the billing calendar and the text formats at the edges.

How the state machines are read: every `Action` is one atomic database step, that is one `$transaction` or one
single write; transactions are taken to be atomic and isolated. What a request has read and not yet used is
part of the state, so a run is a full interleaving of requests. Answers of payment providers, the tax service
and the SMS gateway, clock readings and random tokens are parameters of the actions. Rows are identified by
their position in the table, which stands for the id and for the creation order. The classes model the
service's own methods and loops statement by statement; each is proved against the step or the function that
the theorems are about.

| file | what it holds |
|---|---|
| `ledger.dfy` | rows and steps of invoices, links, intents, transactions, refunds, cancels and reminders |
| `ledger_invariant.dfy` | the ledger invariant over all runs |
| `ledger_effects.dfy` | what confirming, refunding and reminding do to the rows |
| `example_rows.dfy` | the rows the witness runs start from |
| `confirmation.dfy` | order and repetition of payment reports, refund undoes confirm |
| `lifecycle.dfy` | the invoice state machine, its exact guards, and runs that leave it |
| `collection.dfy` | when an invoice cannot be over-collected |
| `payment_tables.dfy` | the payment, refund, invoice and reminder services as a class |
| `receipts.dfy` | the tax-receipt lease |
| `idempotency.dfy` | the Idempotency-Key protocol of the partner API |
| `sms_queue.dfy` | queueing, dispatching, polling and requeueing of messages |
| `calendar.dfy`, `decimal.dfy` | cycle keys and windows at UTC+8, decimal printing |
| `billing_lines.dfy` | the lines of a bill |
| `month_close.dfy`, `one_time_charges.dfy`, `month_closer.dfy` | the month close as a protocol and as a loop |
| `bill_contents.dfy`, `close_effects.dfy` | what is on a bill, and what a whole close leaves behind |
| `csv.dfy` | the export writer and the import reader |
| `options.dfy`, `services.dfy`, `sums.dfy` | shared small definitions |
| `sms_text.dfy` | segment counting and transliteration |
| `imports.dfy`, `batch_approval.dfy` | validation, duplicates, approval, customers, invoice numbers |
| `approval_effects.dfy` | which customer, number and message each approved row gets |

Where the code does not do what its documentation says, the code is modelled; all of these points but the one
on the answer SUCCEEDED are theorems:

- The retry of a receipt clears its lock even while a worker holds it, so the lock alone does not exclude a
  second call to the tax service; the commit's guard and the unique usage event still keep it to one commit.
- An operator's retry writes back a state it read earlier; meeting a pending cancellation it makes an issued
  receipt lockable again.
- A refund checks the row before the provider call only; a second refund revives an invoice cancelled meanwhile.
- The reminder's claim compares only its counter, so an invoice paid after the sweep listed it becomes OVERDUE.
- The last write of a pay request is unconditional, so it reopens an intent that a cancel had closed.
- Two overlapping pay requests can each cut an intent for the full balance, and both payments are credited.
- A confirmation that loses its guard still answers SUCCEEDED; the ledger facts are therefore about rows.
- The month close accepts any two digits as a month; 2026-13 and 2027-01 are billed separately for one window.
- One-time charges are marked after the bill is stored; a crash in between bills them again.
- A close without a biller bills the later biller too, so closing again with it leaves one bill more than closing
  with it at once.
- The dashboard's estimate and the closed bill use one calculation but different windows (UTC and UTC+8).
- The CSV reader splits lines before it looks at quotes, so a quoted line feed does not survive.
- A due date that does not exist is rolled over; the error meant for it is never raised.
- Transliteration can make a text dearer when a character outside GSM-7 remains.
- A requeued message keeps its old provider reference, so a delivered one can later be overwritten as failed.

`dafny verify dfyconfig.toml` checks the whole project.

## Model

| member | source | states |
|---|---|---|
| LedgerInvariant.LedgerOverRuns | apps/api/src/modules/payments/payments.service.ts:305-372 | over every interleaving from empty tables: balance is max(0, amount less credited gross); an intent is SUCCEEDED iff it has a transaction, never two; no payment key is credited twice; every transaction has exactly one receipt row and one PAYMENT_SUCCEEDED event |
| LedgerInvariant.StepKeeps | apps/api/src/modules/payments/payments.service.ts:110-393 | each atomic step of the payment, refund, invoice and reminder code keeps that invariant, from any tables that satisfy it |
| LedgerInvariant.PaidTotalRefund | apps/api/src/modules/admin/admin.service.ts:227-239 | marking a row REFUNDED takes its gross out of its own invoice's sum and leaves every other invoice's sum alone |
| LedgerInvariant.RefundTables | apps/api/src/modules/admin/admin.service.ts:227-247 | a refund writes its row's status, and besides that only the invoice's balance and state |
| LedgerInvariant.RefundFires | apps/api/src/modules/admin/admin.service.ts:211-231 | the refund finds a row and its invoice exactly when the payment key was credited before |
| LedgerEffects.ConfirmCredits | apps/api/src/modules/payments/payments.service.ts:314-343 | a payable intent's report credits the reported gross, or the intent's amount when none is reported: the invoice's total grows by it, the balance is max(0, what is left), and the invoice is PAID iff nothing is left, else PARTIALLY_PAID |
| LedgerEffects.ConfirmWrites | apps/api/src/modules/payments/payments.service.ts:305-364 | the other rows of a credit: one transaction with that gross, the reported fee and net = gross - fee, the intent SUCCEEDED, one usage event, one receipt wanted iff module and invoice opted in; every other row as before |
| LedgerEffects.ConfirmRefused | apps/api/src/modules/payments/payments.service.ts:307-312 | a report on an intent that is neither PENDING nor PROCESSING, or with a known payment id, changes nothing |
| LedgerEffects.RefundMarks | apps/api/src/modules/admin/admin.service.ts:227-247 | a refund marks the row of its key REFUNDED and no other, and touches no other invoice |
| LedgerEffects.RefundBalance | apps/api/src/modules/admin/admin.service.ts:233-239 | the balance after a refund is max(0, amount less what is still credited): the sum falls by the row's gross if it was SUCCEEDED, else not at all |
| LedgerEffects.RefundStates | apps/api/src/modules/admin/admin.service.ts:240-247 | with positive payments the state after a refund is read off the rows: PAID iff the balance is 0, else PARTIALLY_PAID iff some transaction of the invoice is still SUCCEEDED, SENT iff none is |
| LedgerEffects.RemindersAtMost | apps/api/src/modules/messaging/reminder.service.ts:55-75 | over every run an invoice gets at most three reminders |
| Confirmation.OrderIndependence | apps/api/src/modules/payments/payments.service.ts:259-393 | two sequences made of the same agreeing reports, in any order and with any duplicates, leave the same transactions, receipts, usage, intents, balances and invoice states |
| Confirmation.CreditedRun | apps/api/src/modules/payments/payments.service.ts:305-364 | a run of reports credits exactly the effective ones and sets exactly the invoices they touch |
| Confirmation.ReplayAbsorbed | apps/api/src/modules/payments/payments.service.ts:307-312 | confirming the same report twice leaves the tables of confirming it once |
| Confirmation.PaidTotalPermutation | apps/api/src/modules/payments/payments.service.ts:330-334 | the aggregated sum does not depend on the order of the transaction rows |
| Confirmation.RefundUndoesConfirm | apps/api/src/modules/admin/admin.service.ts:227-251 | confirm, then any other confirms and refunds, then refund: every balance is that of the run without the payment, also through overpayment |
| Confirmation.BalancesNeverRise | apps/api/src/modules/payments/payments.service.ts:328-343 | no step but a refund raises a balance, for non-negative gross |
| Confirmation.BalancesFallOverRuns | apps/api/src/modules/payments/payments.service.ts:328-343 | over every run without refunds each balance only falls |
| Lifecycle.LifecycleOverRuns | apps/api/src/modules/invoices/invoices.service.ts:13-26 | on every state a careful run reaches: a short link implies not DRAFT, PAID iff the balance is 0, and CANCELLED has no SUCCEEDED transaction |
| Lifecycle.EdgesOverRuns | apps/api/src/modules/invoices/invoices.service.ts:13-26 | from every such state a careful step leaves CANCELLED alone and, unless it is a refund, moves every invoice along an edge of the transition table or not at all |
| Lifecycle.CarefulStep | apps/api/src/modules/invoices/invoices.service.ts:242-399 | one careful step keeps those facts and moves every invoice along an edge or a self-loop |
| Lifecycle.EdgesExactly | apps/api/src/modules/invoices/invoices.service.ts:13-26 | without those hypotheses a step other than a refund follows the table if and only if its guard on the invoice's current state holds |
| Lifecycle.CancelledExactly | apps/api/src/modules/invoices/invoices.service.ts:13-26 | from any tables and for every kind of step, refunds included: cancelled invoices stay cancelled if and only if a credit, a refund of a known payment or a reminder's claim does not meet one |
| Lifecycle.PaidExactly | apps/api/src/modules/payments/payments.service.ts:328-343 | a step keeps PAID equivalent to a zero balance if and only if it is no reminder that claims a PAID invoice |
| Lifecycle.CancelledUnpaidOverRuns | apps/api/src/modules/invoices/invoices.service.ts:345-373 | with positive payments alone, in every interleaving, a CANCELLED invoice has no SUCCEEDED transaction |
| Lifecycle.ConfirmEdge | apps/api/src/modules/payments/payments.service.ts:328-343 | a credited payment follows the table exactly when the invoice is SENT, VIEWED, PARTIALLY_PAID or OVERDUE, or PAID with the amount still covered |
| Lifecycle.RemindEdge | apps/api/src/modules/messaging/reminder.service.ts:67-76 | the reminder's claim follows the table exactly when the invoice is still SENT, VIEWED, PARTIALLY_PAID or OVERDUE |
| Lifecycle.ReminderOverridesPaid | apps/api/src/modules/messaging/reminder.service.ts:69-75 | a reachable run where the reminder turns a PAID invoice into OVERDUE: its claim compares only the counter |
| Lifecycle.CancelDuringRequest | apps/api/src/modules/payments/payments.service.ts:203-213 | a reachable run where a cancel inside a payer's request is undone: the final intent write is unconditional |
| Lifecycle.WithdrawnExactly | apps/api/src/modules/payments/payments.service.ts:189-213 | an intent closed by a cancel stays closed in a step if and only if the step is not the provider answer its request was waiting for |
| Lifecycle.StaleRefundRevives | apps/api/src/modules/admin/admin.service.ts:216-247 | a reachable run where a second refund, checked before the first one committed, revives a cancelled invoice |
| Collection.NoOverCollection | apps/api/src/modules/payments/payments.service.ts:125-174 | with one provider, whole requests and own amounts: at most one open intent per invoice, within the balance, and credited gross never above the amount, with expiry, regeneration and refunds mixed in |
| Collection.OverCollectsExactly | apps/api/src/modules/payments/payments.service.ts:328-343 | a credited payment keeps the sum within the amount exactly when its gross fits the balance |
| Collection.OneOpenExactly | apps/api/src/modules/payments/payments.service.ts:125-213 | of whatever schedule, a step keeps one open intent per invoice if and only if it is no provider answer that opens an intent whose invoice has another open one |
| Collection.WithinBalanceExactly | apps/api/src/modules/payments/payments.service.ts:203-213 | open intents stay within the balance in a step if and only if an opened intent fits it and a credit leaves room for the invoice's other open intents, for non-negative payments |
| Collection.CutTables | apps/api/src/modules/payments/payments.service.ts:149-213 | cutting an intent retires the stale one, adds one row for the invoice's balance and touches nothing else |
| Collection.OverlapOverCollects | apps/api/src/modules/payments/payments.service.ts:125-213 | a reachable run of two overlapping requests in which both payments are credited and twice the amount is collected |
| PaymentTables.Store.CreateInvoice | apps/api/src/modules/invoices/invoices.service.ts:211-226 | the new DRAFT row carries its amount as balance; equals the ledger step |
| PaymentTables.Store.SendInvoice | apps/api/src/modules/invoices/invoices.service.ts:242-336 | succeeds exactly in the five sendable states; DRAFT becomes SENT with a link valid 60 days or until 30 days past the due date, whichever is later, the other states get a 60-day link and stay; equals the ledger step |
| PaymentTables.Store.CancelInvoice | apps/api/src/modules/invoices/invoices.service.ts:345-387 | succeeds exactly when nothing is paid and the invoice is DRAFT, SENT, VIEWED or OVERDUE; then revokes exactly its links and withdraws exactly its open intents; equals the ledger step |
| PaymentTables.Store.ResolveToken | apps/api/src/modules/payments/payments.service.ts:42-74 | opening a valid link flips SENT to VIEWED and nothing else |
| PaymentTables.Store.ConfirmIntent | apps/api/src/modules/payments/payments.service.ts:269-393 | equals the ledger step whose credited gross, balance and state the effect theorems pin; each outcome is characterised, and only one of the two that report SUCCEEDED means a credit |
| PaymentTables.Store.CommitPayment | apps/api/src/modules/payments/payments.service.ts:305-372 | the transaction's writes, with the reported gross and fee, equal the ledger step; a used payment key rolls all of them back |
| PaymentTables.Store.HandleBonumCallback | apps/api/src/modules/payments/payments.service.ts:418-474 | the branches over verdict and webhook leave the tables the three callback theorems are about, also for an unknown intent |
| PaymentTables.BonumCreditsExactly | apps/api/src/modules/payments/payments.service.ts:441-465 | a callback adds a transaction exactly when the payment to believe is effective, and then that one: a verified webhook's own payment, nothing for a verified expiry, otherwise the provider's answer |
| PaymentTables.UnverifiedIsATrigger | apps/api/src/modules/payments/payments.service.ts:430-439 | what a webhook without a valid checksum says never matters, and without a payment reported by the provider it changes nothing |
| PaymentTables.BonumKeeps | apps/api/src/modules/payments/payments.service.ts:418-474 | a callback is one ledger step or none, so the ledger invariant is kept |
| PaymentTables.Store.RefundPayment | apps/api/src/modules/admin/admin.service.ts:207-251 | refunds exactly SUCCEEDED rows the provider refunds, and then equals the ledger step whose rows, balance and state the effect theorems pin; each refusal is characterised and without effect |
| PaymentTables.RequestEffects | apps/api/src/modules/payments/payments.service.ts:125-174 | a payer's request on an open invoice reuses a live newest intent, confirms a stale one the provider says is paid, or expires it and adds one row for the balance; on a closed invoice it changes nothing |
| PaymentTables.Store.CreateIntentForToken | apps/api/src/modules/payments/payments.service.ts:110-215 | which of those happens, told from the rows, with the result for each: the reused intent, a refusal after a late confirmation, or a new PENDING intent for the balance with the provider's invoice |
| PaymentTables.Store.CutIntent | apps/api/src/modules/payments/payments.service.ts:163-213 | insert, provider answer and final write equal the ledger steps and leave exactly one new row, PENDING with the provider's invoice or FAILED |
| PaymentTables.Store.FlagOverdue | apps/api/src/modules/invoices/invoices.service.ts:389-399 | turns exactly the SENT and VIEWED invoices whose due date has passed OVERDUE; equals the ledger step |
| PaymentTables.Store.RemindOne | apps/api/src/modules/messaging/reminder.service.ts:67-81 | claims exactly when the counter is the one read, then counts, sets OVERDUE and mints a 60-day link; equals the ledger step |
| Receipts.CommittedAtMostOnce | apps/api/src/modules/receipts/receipts.service.ts:182-216 | over any run of workers, failures, sweeps, cancels and retries the receipt is committed at most once, with exactly one RECEIPT_CREATED event carrying its source's service; no lease hypothesis needed |
| Receipts.LeaseOverRuns | apps/api/src/modules/receipts/receipts.service.ts:135-146 | when live workers finish within the lock's time and retry spares held rows, in every interleaving with crashes, cancels and operators' retries: at most one worker between lock and commit or failure |
| Receipts.LeaseStep | apps/api/src/modules/receipts/receipts.service.ts:183-243 | each step under those two hypotheses keeps that exclusion |
| Receipts.ExclusionExactly | apps/api/src/modules/receipts/receipts.service.ts:135-146 | without them a step keeps exclusion if and only if it is no retry of a held FAILED row and no lock taken beside a live worker |
| Receipts.ExclusionOverRunsExactly | apps/api/src/modules/receipts/receipts.service.ts:135-146 | a run is exclusive all the way if and only if each of its steps passes that guard |
| Receipts.SecondLockExactly | apps/api/src/modules/receipts/receipts.service.ts:135-142 | while the lock is the holder's own, another worker gets it exactly when the row is unissued and the holder's time has run out |
| Receipts.RetryBreaksExclusion | apps/api/src/modules/receipts/receipts.service.ts:392-398 | from a reachable state, retrying a held FAILED row lets a second worker in |
| Receipts.SlowWorkerBreaksExclusion | apps/api/src/modules/receipts/receipts.service.ts:135-142 | from a reachable state, a live worker that overruns the lock's time loses it |
| Receipts.IssuedNeverRelocked | apps/api/src/modules/receipts/receipts.service.ts:182-216 | under the two lease hypotheses and if no operator's retry that read another state meets a pending cancellation: an issued receipt can never be locked again, so it is sent to the tax service once |
| Receipts.ReopensExactly | apps/api/src/modules/admin/admin.service.ts:291-298 | while exclusion holds, a step leaves an issued receipt at rest if and only if it is not that retry |
| Receipts.StaleRetryReopens | apps/api/src/modules/admin/admin.service.ts:291-298 | a reachable issued receipt that such a retry makes lockable again |
| Receipts.CancelledExactly | apps/api/src/modules/receipts/receipts.service.ts:236-313 | a cancelled receipt stays cancelled in a step if and only if the step is neither a failure write nor a failed provider cancel |
| Receipts.FailureRevivesCancelled | apps/api/src/modules/receipts/receipts.service.ts:236-243 | from a reachable state, the unconditional failure write turns a locally cancelled receipt back to FAILED |
| Receipts.ProcessedIsRun | apps/api/src/modules/receipts/receipts.service.ts:102-244 | one undisturbed processOne is a run of the protocol |
| Receipts.SweptAt | apps/api/src/modules/receipts/receipts.service.ts:346-357 | a sweep processes every listed row exactly once and leaves the others alone |
| Receipts.ReceiptTable.ProcessOne | apps/api/src/modules/receipts/receipts.service.ts:102-244 | issues exactly an unissued row with fewer than 5 failures whose lock is free or older than three minutes and which the tax service answered; a failed attempt is counted and unlocked; leaves exactly the row the protocol leaves |
| Receipts.ReceiptTable.ProcessPending | apps/api/src/modules/receipts/receipts.service.ts:346-357 | for whichever twenty processable rows the unordered query returns, the loop, each row by the clock when its turn comes, equals the sweep; the counter is the number issued |
| Receipts.ReceiptTable.RetryOne | apps/api/src/modules/receipts/receipts.service.ts:392-396 | only a FAILED row goes back to PENDING, with its lock cleared |
| Receipts.ReceiptTable.Cancel | apps/api/src/modules/receipts/receipts.service.ts:253-313 | each refusal is characterised; an unissued receipt is cancelled at once, an issued one through the provider, staying CANCEL_PENDING when that fails; equals the protocol's steps |
| Receipts.ReceiptTable.AdminRetryOne | apps/api/src/modules/admin/admin.service.ts:291-298 | FAILED goes back to PENDING and a pending cancellation stays one, both with all attempts back; equals the protocol's step |
| Idempotency.AtMostOneRun | apps/api/src/modules/developers/partner-api.controller.ts:141-185 | over every interleaving with crashes and failed releases or stores: at most one run succeeds, every answered caller got its result and had the same body hash, and until then the key is free or reserved without a response |
| Idempotency.SuccessIsFinal | apps/api/src/modules/developers/partner-api.controller.ts:152-174 | after a successful run no later caller runs again |
| Idempotency.SameRowExactly | apps/api/src/modules/developers/partner-api.controller.ts:148-150 | two callers share a row exactly when their API keys are equal and so are their headers, compared in full up to 100 characters and by the first 100 beyond |
| Idempotency.CallRunExactly | apps/api/src/modules/developers/partner-api.controller.ts:152-185 | an undisturbed caller of the protocol runs exactly if the key is free, then stores its result or releases the key; otherwise it changes nothing and gets the stored response iff there is one and its body is the same |
| Idempotency.KeyTable.WithIdempotency | apps/api/src/modules/developers/partner-api.controller.ts:141-185 | one undisturbed call, also without or with an empty header: which outcome, whether run was started, and the exact rows left, in every case |
| Idempotency.Replay | apps/api/src/modules/developers/partner-api.controller.ts:131-140 | repeating a request: after a success it never runs again, whether or not the response was stored and whichever body it has; after a failure it runs again exactly if the key was released |
| Idempotency.DifferentKeys | apps/api/src/modules/developers/partner-api.controller.ts:131-150 | two requests with different keys of at most 100 characters, or different API keys, both run, and the second leaves the first one's row as it was |
| SmsQueue.SendsBounded | apps/api/src/modules/messaging/messaging.service.ts:111-151 | over any interleaving of dispatchers, pollers, operators and crashes a job is sent at most once plus once per successful requeue |
| SmsQueue.MeteredOnce | apps/api/src/modules/messaging/messaging.service.ts:72-103 | a job is metered once, when queued: its segments, and one INVOICE_MSG_SENT exactly for a paid service, however often it is sent; every usage row names its job's service |
| SmsQueue.DeliveredIsFinal | apps/api/src/modules/messaging/messaging.service.ts:159-195 | a job that was never requeued stays DELIVERED in every continuation and is not sent again |
| SmsQueue.DeliveryFinalExactly | apps/api/src/modules/messaging/messaging.service.ts:120-146 | a delivery is final over every continuation if and only if no dispatcher is between its claim of the job and its write |
| SmsQueue.DeliveredExactly | apps/api/src/modules/messaging/messaging.service.ts:127-146 | a step takes a job out of DELIVERED if and only if it is a dispatcher's write of anything but a delivery of that job |
| SmsQueue.QuietIsFinal | apps/api/src/modules/messaging/messaging.service.ts:111-151 | a delivered job without a dispatcher in flight is not sent again either |
| SmsQueue.StaleReferenceRevivesDelivered | apps/api/src/modules/messaging/messaging.service.ts:127-146 | a reachable run after a requeue where a poll on the stale reference marks DELIVERED and the second send's failure overwrites it |
| SmsQueue.DispatchIsRun | apps/api/src/modules/messaging/messaging.service.ts:120-146 | an undisturbed dispatch of a queued job is a run of the protocol |
| SmsQueue.JobTable.Queue | apps/api/src/modules/messaging/messaging.service.ts:61-105 | queues the job and meters it in one transaction, as the protocol does |
| SmsQueue.JobTable.DispatchOne | apps/api/src/modules/messaging/messaging.service.ts:121-146 | claims and sends exactly a QUEUED job once and records DELIVERED, SUBMITTED or FAILED with the reference as the provider answered |
| SmsQueue.Listed | apps/api/src/modules/messaging/messaging.service.ts:113-117 | the listed jobs are queued, in order, at most 500, and a queued job is left out only behind 500 older ones |
| SmsQueue.JobTable.DispatchQueued | apps/api/src/modules/messaging/messaging.service.ts:111-151 | each listed job is sent exactly once, the rest is untouched, and submitted and failed count them |
| SmsQueue.JobTable.RetryMessage | apps/api/src/modules/admin/admin.service.ts:313-319 | only a FAILED job is requeued |
| SmsQueue.JobTable.PollOne | apps/api/src/modules/messaging/messaging.service.ts:159-195 | a delivery answer changes only a job that is still SUBMITTED, as the protocol's poll does |
| Calendar.CycleWindow | apps/api/src/modules/billing/month-close.service.ts:42-47 | a time has a month's key if and only if it lies in that month's half-open window |
| Calendar.CycleWindowExactly | apps/api/src/modules/billing/month-close.service.ts:42-47 | key and window agree at all times exactly for months 1 to 12 outside the years 0 to 99, which Date.UTC moves |
| Calendar.CyclesAbut | apps/api/src/modules/billing/month-close.service.ts:42-47 | a cycle ends where the next one starts, across every month and year end |
| Calendar.PreviousIsPredecessor | apps/api/src/modules/billing/month-close.service.ts:50-54 | previousCycle is the immediate predecessor of the current key, and it ended where the current cycle began |
| Calendar.SweepNeverRefused | apps/api/src/modules/billing/month-close.service.ts:56-72 | the sweep's key passes the pattern exactly for the years 1000 to 9999, is read back unchanged, and its window has then always ended |
| Calendar.KeyAccepted | apps/api/src/modules/billing/billing.service.ts:48-51 | a printed key matches the close pattern exactly for four-digit years and parses to the same month |
| Calendar.WindowsExactly | apps/api/src/modules/billing/month-close.service.ts:42-47 | for any two keys the windows overlap exactly when they mean the same month, as 2026-13 and 2027-01 do, and then they are equal |
| Calendar.MonthStartInside | apps/api/src/common/utils.ts:126-128 | the estimate's UTC month start lies strictly inside a cycle and is never any cycle's start |
| Calendar.KnownWindows | apps/api/src/modules/billing/month-close.service.ts:41-47 | the windows of January 1970, August 2026 and February 2028 in milliseconds |
| Calendar.YearLength | apps/api/src/modules/billing/month-close.service.ts:42-54 | the day arithmetic gives leap years 366 days and others 365 (section 21.4.1 of ECMA-262) |
| Calendar.YearFromDay | apps/api/src/modules/billing/billing.service.ts:48-51 | the year found contains the day |
| Calendar.MonthFromDay | apps/api/src/modules/billing/billing.service.ts:48-51 | the month found contains the day |
| BillingLines.VatOf | apps/api/src/modules/billing/billing.service.ts:43-45 | the tax is within half a unit of the exact percentage, halves rounded up |
| BillingLines.BillAmounts | apps/api/src/modules/billing/billing.service.ts:105-170 | the subtotal is every message at its price plus the tier's fee (the first tier's outside the table), terminals and charges; the tax is the nearest whole unit, the total both |
| BillingLines.BillQuantities | apps/api/src/modules/billing/billing.service.ts:105-158 | the lines carry exactly the counted messages of each service, the terminals, one tier if the module is on, and one unit per charge |
| BillingLines.LinesExactly | apps/api/src/modules/billing/billing.service.ts:119-158 | every line is for a positive quantity at its code's price, and the charges come last, one line each with its own amount |
| BillingLines.PushUsage | apps/api/src/modules/billing/billing.service.ts:120-153 | the conditional pushes give the usage lines |
| BillingLines.ComputeLines | apps/api/src/modules/billing/billing.service.ts:90-172 | the loops give the specified lines, subtotal, tax and total, with or without the one-time charges |
| MonthClose.BillsStayExact | apps/api/src/modules/billing/month-close.service.ts:67-106 | over any run of usage, charges, closes and crashes every bill says exactly what its tenant used in its cycle |
| MonthClose.ExactStep | apps/api/src/modules/billing/month-close.service.ts:84-106 | each step keeps that; usage stamped at insertion never lands in an ended window |
| MonthClose.BilledOnce | apps/api/src/modules/billing/month-close.service.ts:84-106 | over any set of billed months the billed units are the units of the events in those months: each unit on one bill only |
| MonthClose.AllUnitsBilled | apps/api/src/modules/billing/month-close.service.ts:84-106 | when all of a tenant's events lie in billed months, the bills add up to everything it sent |
| MonthClose.SameMonthBilledTwice | apps/api/src/modules/billing/month-close.service.ts:67-72 | two bills of a tenant count a common time exactly when their keys mean one month, and then both bill the same units |
| BillContents.NewBillExactly | apps/api/src/modules/billing/billing.service.ts:90-170 | on a new bill the one-time lines are, in number and in money, the tenant's unmarked charges, counted over the charge table itself; the rest of the subtotal is the usage of the window at the tariff |
| BillContents.OpenIncreasing | apps/api/src/modules/billing/billing.service.ts:103 | the charges put on a bill are listed without repeating one |
| BillContents.ListedOnce | apps/api/src/modules/billing/month-close.service.ts:84-105 | over any run of any schedule no stored bill lists a charge twice, and its one-time money is that of its charges |
| BillContents.ChargesConserved | apps/api/src/modules/billing/month-close.service.ts:84-105 | after an orderly run with no close under way, the one-time money on a tenant's bills is the money of its charges marked with those cycles |
| OneTimeCharges.ChargedAtMostOnce | apps/api/src/modules/billing/month-close.service.ts:88-105 | over orderly runs a one-time charge is on at most one bill, and a marked charge is on the bill it names |
| OneTimeCharges.SettledExactly | apps/api/src/modules/billing/month-close.service.ts:100-105 | once no close is under way a charge is on a cycle's bill if and only if it is marked with that cycle |
| OneTimeCharges.ChargeInvStep | apps/api/src/modules/billing/month-close.service.ts:88-105 | each orderly step keeps the charge invariant |
| OneTimeCharges.BilledAgainExactly | apps/api/src/modules/billing/month-close.service.ts:88-105 | a step of any schedule puts a charge on a second bill if and only if it inserts a new bill that claims the charge while a bill already holds it |
| OneTimeCharges.ChargedOnceExactly | apps/api/src/modules/billing/month-close.service.ts:88-105 | in every run a charge is on at most one bill if and only if no step is such an insert |
| OneTimeCharges.NextCloseExactly | apps/api/src/modules/billing/month-close.service.ts:88-105 | between closes, the next close of the tenant bills a charge again if and only if the charge is on a bill and yet unmarked |
| OneTimeCharges.CrashBillsTwice | apps/api/src/modules/billing/month-close.service.ts:89-105 | a run from empty tables: a crash between bill and marking puts a charge on two bills |
| OneTimeCharges.OverlapBillsTwice | apps/api/src/modules/billing/month-close.service.ts:88-105 | a run from empty tables: two overlapping closes of different cycles put a charge on both bills, without a crash |
| MonthCloser.CloseOneIsRun | apps/api/src/modules/billing/month-close.service.ts:84-106 | one tenant's turn is an undisturbed run of the protocol |
| MonthCloser.ClosingTwice | apps/api/src/modules/billing/month-close.service.ts:12-18 | closing the same cycle again, in whatever order the tenants are listed, changes nothing: no bill, mark or invoice |
| MonthCloser.LateBillerAddsItsOwnBill | apps/api/src/modules/billing/month-close.service.ts:73-78 | closing without a biller and later with one leaves what closing with it at once leaves, and besides that only the active biller's own bill and marks, because the first close does not yet leave it out |
| MonthCloser.LateBillerExactly | apps/api/src/modules/billing/month-close.service.ts:73-78 | so the late close equals the close at once if and only if the biller is not active or already had a bill for the cycle |
| MonthCloser.BillsInAnyOrder | apps/api/src/modules/billing/month-close.service.ts:75-106 | bills and marks do not depend on the order in which a close lists the tenants |
| MonthCloser.AllDone | apps/api/src/modules/billing/month-close.service.ts:82-119 | after a close every tenant it goes through has its bill and every bill that can be invoiced is |
| CloseEffects.CloseBills | apps/api/src/modules/billing/month-close.service.ts:82-106 | after a close every listed tenant has the bill it had, or the one its usage and unmarked charges made at the start of the close, whoever was billed before it; no other bill is written |
| CloseEffects.CloseMarks | apps/api/src/modules/billing/month-close.service.ts:100-105 | a close marks exactly the unmarked charges of the tenants it bills, and with its own cycle |
| CloseEffects.MonthInvoices | apps/api/src/modules/billing/month-close.service.ts:107-115 | the invoices a close adds are one each for exactly the bills above zero that had none, of listed tenants with a phone, if a biller is configured; each says its bill's total |
| MonthCloser.Closer.CloseTenant | apps/api/src/modules/billing/month-close.service.ts:84-115 | bill, mark and invoice one tenant as specified; the two flags say what was added |
| MonthCloser.Closer.CloseMonth | apps/api/src/modules/billing/month-close.service.ts:67-126 | malformed and unfinished cycles are refused without effect; otherwise the loop over the active tenants without the biller equals the specification and its counters the rows added |
| MonthCloser.Closer.Sweep | apps/api/src/modules/billing/month-close.service.ts:56-64 | skipped while running; otherwise closes the previous cycle and releases the flag |
| Csv.RowRead | apps/api/src/modules/reports/reports.controller.ts:8-15 | reading a written non-empty row gives exactly the texts its cells show, with commas, quotes and line feeds inside |
| Csv.CellRead | apps/api/src/modules/reports/reports.controller.ts:8-15 | the same for one cell before a comma or the end |
| Csv.ShownExactly | apps/api/src/modules/reports/reports.controller.ts:8-15 | no shown text starts like a formula: a text that starts with =, +, -, @, a tab or a carriage return gets an apostrophe, every other one and every number is shown as it is |
| Csv.QuotedExactly | apps/api/src/modules/reports/reports.controller.ts:8-15 | a cell is quoted exactly when it holds a quote, a comma or a line feed |
| Csv.ExportNext | apps/api/src/modules/reports/reports.controller.ts:124 | an export is a byte order mark and its rows, joined by carriage return and line feed |
| Csv.ExportRead | apps/api/src/modules/reports/reports.controller.ts:124 | reading a whole export without line feeds gives every cell trimmed, without the rows that show nothing, numbered by non-blank line |
| Csv.LineFeedsAreLost | apps/api/src/modules/imports/imports.service.ts:360-371 | no cell read from any file contains a line feed, so such a cell never survives |
| Csv.LineFeedBreaksExport | apps/api/src/modules/imports/imports.service.ts:360-371 | an export with a kept row that shows a line feed inside a cell is never read back as expected |
| Csv.ExportLinesExactly | apps/api/src/modules/imports/imports.service.ts:360-361 | an export's lines are read back as its rows' lines if and only if no cell shows a line feed |
| Csv.LinesRead | apps/api/src/modules/imports/imports.service.ts:361 | lines without line feeds are recovered exactly, also when they end in a carriage return |
| Csv.BlankExactly | apps/api/src/modules/imports/imports.service.ts:361 | the line of a row is dropped as blank exactly when its only cell shows white space |
| Csv.DataRowsExactly | apps/api/src/modules/imports/imports.service.ts:364-369 | the data rows are those of the lines after the first that have a non-empty cell, with their cells, numbered by line from two |
| Csv.TrimExactly | apps/api/src/modules/imports/imports.service.ts:363-367 | trimming takes all white space off both ends and nothing else |
| Csv.StrayQuote | apps/api/src/modules/imports/imports.service.ts:373-389 | a quote opens quotes wherever it stands, and unclosed ones run to the end of the line |
| Csv.SplitCsvLine | apps/api/src/modules/imports/imports.service.ts:373-389 | the character loop equals the recursive reader |
| Csv.CollectRows | apps/api/src/modules/imports/imports.service.ts:364-369 | the row loop equals the specified data rows |
| Csv.ParseCsv | apps/api/src/modules/imports/imports.service.ts:360-371 | the whole reader equals its specification |
| SmsText.NeverCostsMore | apps/api/src/common/utils.ts:63-89 | a transliteration that is all GSM-7 never costs more segments than the original |
| SmsText.GsmExactly | apps/api/src/common/utils.ts:72-89 | the result is all GSM-7 exactly when each character was or has a replacement |
| SmsText.GsmUnchanged | apps/api/src/common/utils.ts:72-89 | GSM-7 texts are left alone |
| SmsText.Idempotent | apps/api/src/common/utils.ts:72-89 | transliterating twice is transliterating once |
| SmsText.AtMostDoubles | apps/api/src/common/utils.ts:63-89 | the length at most doubles |
| SmsText.AtMostTriples | apps/api/src/common/utils.ts:21-28 | for every text the cost at most triples |
| SmsText.DearerExactly | apps/api/src/common/utils.ts:21-89 | a text becomes dearer if and only if some character is neither GSM-7 nor replaced and its letters grow beyond what the original's segments carry |
| SmsText.BracketTriples | apps/api/src/common/utils.ts:14-28 | a text of 69 letters and a bracket goes from one segment to three |
| SmsText.SegmentsExactly | apps/api/src/common/utils.ts:21-28 | the count is the least number of segments that can carry the text (section 6.2.1 of 3GPP TS 23.038) |
| SmsText.TransliterateMn | apps/api/src/common/utils.ts:72-89 | the loop equals the specified transliteration |
| SmsText.LettersExactly | apps/api/src/common/utils.ts:63-89 | each of the 32 letters becomes its replacement, and its capital the same with the first letter, and only that, in upper case |
| Imports.NormalizeExactly | apps/api/src/common/utils.ts:4-12 | a number is accepted exactly if it is, apart from separators, eight mobile digits, alone or after 976 or +976, and becomes +976 and those digits |
| Imports.StripAppend | apps/api/src/common/utils.ts:4-12 | separators are dropped one by one and everything else kept in order |
| Imports.NormalExactly | apps/api/src/common/utils.ts:4-12 | normalisation leaves exactly the numbers of the form +976 and eight mobile digits unchanged |
| Imports.NormalizedForm | apps/api/src/common/utils.ts:4-12 | whatever is accepted is normalised to that form |
| Imports.NormalizeIdempotent | apps/api/src/common/utils.ts:4-12 | normalising twice is normalising once |
| Imports.ValidExactly | apps/api/src/modules/imports/imports.service.ts:476-530 | a row is valid exactly when phone, amount cell, description and date cell are acceptable, and only then has normalised values |
| Imports.ErrorsExactly | apps/api/src/modules/imports/imports.service.ts:476-515 | each of the six errors is reported exactly if its own check fails, whatever the others say |
| Imports.StoredValues | apps/api/src/modules/imports/imports.service.ts:476-530 | the values a valid row is stored with and the two warnings, each from its own cell |
| Imports.AmountRead | apps/api/src/modules/imports/imports.service.ts:484-490 | every amount up to the limit written in digits is read back, with separators and currency signs anywhere between them |
| Imports.AmountSeparated | apps/api/src/modules/imports/imports.service.ts:484-490 | so a comma at any place and a currency sign at the end do not change an amount |
| Imports.LargeAmountRead | apps/api/src/modules/imports/imports.service.ts:484-490 | amounts beyond the limit are read as well and refused as too large |
| Imports.EmailExactly | apps/api/src/modules/imports/imports.service.ts:496-499 | an address with one dot after its at sign looks right exactly if something stands on both sides and two units after the dot |
| Imports.DatePartsExactly | apps/api/src/modules/imports/imports.service.ts:501-515 | a date is read exactly from texts that begin with four digits, a separator, one or two digits, a separator and one or two digits |
| Imports.DatesExactly | apps/api/src/modules/imports/imports.service.ts:501-515 | the stored due date is the written one if and only if that day exists and its year is not one of 0 to 99 |
| Imports.DatesRollOver | apps/api/src/modules/imports/imports.service.ts:501-515 | the other dates are rolled over instead of refused: 31 February reads as 3 March |
| Imports.KeyInjective | apps/api/src/modules/imports/imports.service.ts:138 | the bar-joined key is injective on normalised rows, also for descriptions with bars |
| Imports.MarkDuplicates | apps/api/src/modules/imports/imports.service.ts:134-145 | the loop with its map marks each row as specified |
| Imports.DuplicatesExactly | apps/api/src/modules/imports/imports.service.ts:134-145 | a valid row is warned about if and only if an earlier valid row has the same phone, amount and description, and the warning names the first one |
| Imports.Totalize | apps/api/src/modules/imports/imports.service.ts:147-161 | valid count, error count and total amount are those of the valid rows |
| BatchApproval.ApprovedOnce | apps/api/src/modules/imports/imports.service.ts:280-320 | over any interleaving one caller claims a batch; its invoices are those of whole chunks of its rows, and once dispatched of all of them, adding up to the previewed total with at most one metered message each |
| BatchApproval.ClaimedStep | apps/api/src/modules/imports/imports.service.ts:280-287 | each step keeps the claim unique and the worker in step with its batch |
| BatchApproval.ConservedStep | apps/api/src/modules/imports/imports.service.ts:294-320 | each step keeps the batch's invoices equal to the rows done |
| BatchApproval.NumbersDistinct | apps/api/src/modules/invoices/invoices.service.ts:201-209 | in every run no two invoices of a tenant have the same number, with single and batch creation, prefix changes and more than five digits |
| BatchApproval.NumbersDiffer | apps/api/src/modules/invoices/invoices.service.ts:201-209 | a printed number determines both its prefix and its sequence value |
| Decimal.PadInjective | apps/api/src/modules/invoices/invoices.service.ts:209 | zero-padded printing is injective also beyond the width |
| Decimal.FiveDigits | apps/api/src/modules/invoices/invoices.service.ts:209 | numbers have five digits exactly up to 99999 and are printed in full beyond |
| BatchApproval.UpsertExactly | apps/api/src/modules/customers/customers.service.ts:91-107 | whichever match the unordered look-up by phone returns: the reference wins over the phone, references stay unique, and a customer with the row's values is added exactly when neither is known |
| BatchApproval.ApproveAmounts | apps/api/src/modules/imports/imports.service.ts:299-320 | approving rows appends exactly their amounts to their batch and none to any other |
| BatchApproval.ApproveAppend | apps/api/src/modules/imports/imports.service.ts:294-320 | whole chunks one after the other amount to approving all of their rows in order |
| ApprovalEffects.RowInvoiced | apps/api/src/modules/imports/imports.service.ts:299-318 | approving rows appends one invoice each, in order: the next number, the row's amount, and a customer that has the row's reference, or else its phone; a reference on file wins, and the invoice is messaged exactly if that customer has a phone |
| ApprovalEffects.RowsBilled | apps/api/src/modules/imports/imports.service.ts:280-320 | over every run in which nobody else changes the customers, the k-th invoice of a batch is for its k-th row's amount and customer, and messaged exactly if that customer has a phone |
| ApprovalEffects.NumberShape | apps/api/src/modules/invoices/invoices.service.ts:201-209 | a number is the prefix, a hyphen and digits denoting the sequence value, five of them exactly up to 99999 |
| BatchApproval.TenantRows.ApproveOne | apps/api/src/modules/imports/imports.service.ts:300-318 | customer, number, invoice and message of one row, as the row theorem says |
| BatchApproval.TenantRows.Approve | apps/api/src/modules/imports/imports.service.ts:251-341 | each refusal is characterised and without effect; the chunk loop equals approving all valid rows in order and ends DISPATCHED |

## Left out

- Reconciliation runs, audit rows, the payment-event timeline, click counters, paid-at and similar timestamps: no guard depends on them.
- Provider adapters, their payloads and errors: a call is an answer or a failure, chosen by the environment.
- Tokens, hashes, signatures and webhook checksums: tokens are distinct link rows, a checksum is a verdict.
- Tenant scoping of the payment tables: the rows of one tenant; the unique keys are global as in the database.
- Isolation anomalies of the database: each transaction is atomic and sees the current rows.
- The states REFUND_PENDING and PROCESSING of intents: the code never writes them; PROCESSING is still read where the code reads it.
- The sandbox simulation, the pay page's polling limits and the outbound webhooks: they only trigger the modelled confirm.
- Receipts.IssuedNeverRelocked: does not cover a commit whose acknowledgement is lost, after which the worker would record a failure on an issued row; the unique usage event would still stop a second commit.
- The receipt half of an admin refund: it is the `FinishCancel` write of the receipt protocol, without the QPay call.
- POS terminal counts and monthly fees by tier are parameters of a bill; terminals are counted by when they were last seen and are not conserved.
- Tariff storage, module switches and the one-time onboarding charge's check before insert: single-row rules.
- The order of the charges on a bill: theirs in the table; the query names none.
- A close's four reads are one step: usage in an ended window no longer changes, and a charge added between them goes to the next bill.
- A failed tenant inside a close: the loop goes on with the next one, which the protocol covers as a crash of that turn.
- A crash between the invoice for a bill and the bill's link to it: the next close invoices that bill again; the loop is proved undisturbed only.
- Imports.ValidExactly: takes the value of an amount cell that is not plain digits (an exponent, a fraction, a hexadecimal number) from the number parser, and the e-mail address already in lower case.
- Spreadsheet parsing, column mapping, upload size limits and the preview's segment estimate.
- Message templates and localised texts; reminders' text limit of 480 characters.
- Lone surrogates in texts: a text is a sequence of code points, its length counts UTF-16 units.
- Times beyond the range of JavaScript dates, and fractional tax percentages.
- Login, roles, analytics, incidents, support search, settings and the web client: outside the money path.
