# AR core: ledger, delivery outbox, FX import

A Dafny model of the accounts-receivable service, and proofs about it. Three machines are modelled.

* **The AR ledger.** A table of invoices and an append-only journal, changed by create, patch, approve,
  reject, payment, credit memo, write-off, void and the invoice half of delivery. Amounts are whole numbers of
  1e-4 units and rates whole numbers of 1e-8 units; payments and invoices convert half-up, credit memos half-even.
  `Commands` specifies every handler as one step on the books, with its checks, its errors and the database
  constraints that roll it back. `Ledgers` runs the same handlers statement by statement on tables held in a class.
* **The delivery outbox protocol.** One outbox row with any number of publishers and consumers, an at-least-once
  queue with a dead-letter queue, a deduplicating adapter, a clock, a crash at every await and the CFO's retry.
  `SharedRow` runs it together with the ledger on the same invoice row.
* **FX import.** Parsing one ECB batch, deriving INR rates, and the jobs that store them.

The files, in reading order:

| file | what is in it |
|---|---|
| `Money`, `Sums`, `Fifo`, `TaxSplit` | rounding, sums, FIFO allocation, the tax split of repeated credits |
| `Books`, `Commands`, `Ledger` | the data model, every handler as a function, every handler as a method |
| `Postings`, `Rows`, `Steps` | what each entry posts; the invariant of each invoice row, kept by every handler |
| `Reconciliation`, `Balancing`, `Lifecycle` | subledger against GL 1200, double entry, status moves, over whole runs |
| `CreditRuns` | the tax split of `TaxSplit`, for the memos of a run |
| `Effects` | what each successful request writes, told from the books before and after it |
| `Reporting`, `Findings` | `/health`, aging, the journal summary; what each command needs; concrete runs |
| `Interleaving`, `CreditLimit`, `Idempotency` | handlers that read before they write, the credit limit among them, and retried requests |
| `Outbox`, `Adapter`, `Protocol`, `Timing`, `Bounds`, `Leases`, `Incidents` | delivery |
| `SharedRow`, `VoidedEvents` | ledger and delivery together; what a void leaves behind |
| `EcbFeed`, `RateStore` | FX import |

`dafny verify dfyconfig.toml` checks everything.

## What does not hold, and exactly when it does

* **AR and GL 1200 can drift apart.** A credited invoice that stays APPROVED or SENT may be voided, and the void
  reverses its full total. The ledgers are equal in a reachable state if and only if no voided invoice had been
  credited (`Reporting.HealthIsExact`); a void keeps them equal if and only if the invoice still carries its whole
  base total (`Reporting.VoidKeepsEqualityIff`); `Findings.VoidAfterCreditMismatches` is a run that raises the
  alarm. The documentation expects the mismatch count always to be zero (`docs/NFRs.md:341`).
* **The credit limit can be overrun.** Create and patch sum the customer's exposure first and write later, without a
  lock. A commit leaves the customer within the limit if and only if the exposure at that moment plus the new total fits
  (`CreditLimit.DraftKeepsLimitIff`), and a run never exceeds a limit if and only if every commit of a draft fits
  (`CreditLimit.RunsStayWithinIff`); two creates of 60 summed together against a limit of 100 end at 120
  (`CreditLimit.TwoDraftsOverrunTheLimit`). Nothing else depends on that sum: the command carries what the query
  returned, and every other theorem about runs and interleavings holds for any value of it.
* **A credit memo's entry may not balance in base currency.** Every other entry balances exactly. A memo's balances if
  and only if it exceeds the open balance, or equals it and converts to exactly its carrying value, or falls short of it
  and converts to no more than that (`Balancing.MemoBalancesIff`, which also gives the miss). `Findings.UnbalancedMemo`
  is a run that misses by one quantum. `docs/NFRs.md:347` says this must never happen.
* **Rounding can strand an invoice.** A partial payment or credit strands an open invoice if and only if its converted
  amount reaches the carrying value (`Findings.BecomesStrandedIff`); from then on the invoice can be neither paid,
  credited nor written off (`Findings.StrandedInvoice`, `Findings.WriteOffPossibleIff`). `Findings.StrandingHappens` is
  such a run.
* **A write-off neither locks nor checks a version.** Everything about interleavings assumes that it finds the row it
  read. Without that it commits whenever the row it read could be written off, whatever has become of it - also a PAID or
  VOID one - and moves the ledgers apart by what was read less what is open (`Interleaving.StaleWriteOffIgnoresTheRow`,
  `Interleaving.StaleWriteOff`); two concurrent write-offs, or a void and a write-off, credit GL 1200 twice
  (`Interleaving.DoubleWriteOff`, `Interleaving.VoidThenWriteOff`).
* **A replay may answer another request.** The hash of PATCH leaves out the version; those of write-off and void the
  descriptions, notes and reference; that of approve the version, the action, the rejection reason and the notes. A
  replay answers what was asked if and only if those agree (`Idempotency.ReplayMatchesRequest`). A rejection answers a
  later approval (`Idempotency.ApprovalAfterRejection`), and a second write-off is answered with the description of the
  first (`Idempotency.WriteOffWithOtherRemarks`).
* **A voided invoice can still be delivered.** A void leaves the outbox event as it is (`VoidedEvents.LedgerLeavesEvents`)
  and delivery never asks for the invoice's status: the VOID invoice is posted and gets its sent_at if and only if a
  mark_delivered finds the event DELIVERING (`VoidedEvents.VoidIsDeliveredIff`); `VoidedEvents.VoidThenDelivered` is such
  a run.
* **The oldest aging bucket starts at 61 days** (`Reporting.BucketsByDays`), as `docs/FRs.md:449` has it; `README.md:71`
  promises buckets 61-90 and 90+.
* **The receive-limit branch of the consumer cannot commit**: the count it stores is one the table refuses
  (`Outbox.ReceiveLimitAborts`).
* **Marks carry no owner.** Exactly-once effect needs no timing assumption (`Protocol.ExactlyOnceEffect`). The others do:
  * An event can be lost. No message goes before its event is DELIVERED if and only if no mark_delivered returns having
    found the event neither DELIVERING nor DELIVERED (`Leases.NoLostEventIff`). Marking within the lease is enough for
    that (`Leases.NoLostEvent`) and for at most one live consumer (`Leases.OneConsumer`);
    `Incidents.LateConsumerLosesTheEvent` is a run without it.
  * A publisher can mark another's claim. Timely marks exclude it if a CFO retry also waits for live publishers
    (`Leases.OnePublisher`); `Incidents.RetryInsideALease` is a run of timely marks where it does not.
  * An event can be left PENDING at its publish limit, a further stuck state. That happens if and only if a failure mark
    finds it PROCESSING at the limit with an older attempt in hand (`Bounds.AtLimitIff`, `Bounds.NeverAtLimitIff`): by a
    late publisher (`Incidents.LatePublisherStrandsTheEvent`), or by a timely one whose claim dates from before a CFO
    retry (`Incidents.TimelyPublishersStrandTheEvent`).

## Model

| member | source | states |
|---|---|---|
| Money.HalfUpIsNearest | src/routers/invoices.py:167-172 | half-up conversion is the one integer whose half-open unit interval holds the product |
| Money.NearestEvenIsUnique | src/routers/credit_memos.py:249-252 | the default quantize of credit memos is exactly the nearest integer, even on ties |
| Money.UnitRate | src/routers/payments.py:411-417 | at rate one both roundings return the amount itself |
| Fifo.PourIsTheOnlyOne | src/routers/payments.py:164-180 | positive amounts on a prefix, all but the last paid in full, total the smaller of payment and balances: this describes the FIFO allocation and no other |
| Fifo.PourShape | src/routers/payments.py:164-180 | the allocation meets that description, and money is left only if every balance is paid |
| Fifo.AutoAllocate | src/routers/payments.py:164-180 | the loop computes that allocation and leaves payment less balances, never negative |
| Fifo.PourStops | src/routers/payments.py:167-169 | leaving the loop when the payment is exhausted loses nothing |
| TaxSplit.InclusiveCreditFits | src/routers/credit_memos.py:228-247 | a tax-inclusive credit within the creditable amount splits into two non-negative parts and never trips the component guard |
| CreditRuns.RunTracks | src/routers/credit_memos.py:180-247 | whatever else a run does, what it leaves creditable on a posted invoice is what the series of its tax-inclusive credits leaves |
| CreditRuns.RunsKeepTaxShare | src/routers/credit_memos.py:228-241 | after n tax-inclusive credits in a run the tax not yet reversed is within n/2 quanta of the original tax share of what is not yet credited |
| CreditRuns.RunsReverseExactly | src/routers/credit_memos.py:209-241 | a run whose credits add up to all that was creditable has reversed exactly the subtotal and exactly the tax |
| Commands.ItemsFit | src/routers/payments.py:196-239 | whatever either allocation mode hands over fits the balances, sums to at most the payment and names payable invoices only; AUTO names none twice |
| Postings.ApprovalPosting | src/routers/invoices.py:1148-1183 | an approval debits AR by the total, credits revenue by the subtotal and tax payable by the tax, touches no other account, and balances in both currencies |
| Postings.VoidPosting | src/routers/credit_memos.py:773-809 | a void debits revenue and tax payable by subtotal and tax and credits AR by the full total, whatever the balance; nothing else; it balances |
| Postings.WriteOffPosting | src/routers/credit_memos.py:584-608 | a write-off debits bad debt and credits AR by the balance, and nothing else |
| Postings.PaymentPosting | src/routers/payments.py:525-579 | a payment credits AR by what its allocations cleared; its imbalance is cash less AR, customer credit and FX |
| Postings.PaymentAccounts | src/routers/payments.py:525-579 | account by account: cash received, AR cleared, the rest owed to the customer, FX in base currency alone |
| Postings.MemoPosting | src/routers/credit_memos.py:361-412 | a memo credits AR and reverses revenue and tax by its figures; in base it misses by the customer part it did not post |
| Postings.MemoAccounts | src/routers/credit_memos.py:361-412 | account by account, in both currencies: revenue and tax reversed apart, AR and customer account credited apart |
| Effects.CreateWrites | src/routers/invoices.py:303-381 | create adds one draft whose subtotal and tax are the sums over all its lines, converted half-up apart at the locked rate, and nothing else |
| Effects.PatchWrites | src/routers/invoices.py:560-664 | patch rewrites one draft from the sums over its new lines, or from the amounts it had, and keeps creator and customer |
| Effects.ApproveWrites | src/routers/invoices.py:1101-1212 | approve changes one row's status and version and posts its total to AR, its subtotal to revenue and its tax to tax payable |
| Effects.RejectWrites | src/routers/invoices.py:992-1024 | reject bumps one version and nothing else |
| Effects.VoidWrites | src/routers/credit_memos.py:711-816 | void closes one row and posts the reverse of its approval, or nothing for a draft |
| Effects.WriteOffWrites | src/routers/credit_memos.py:516-615 | write-off closes one row and posts its balance as bad debt |
| Effects.CreditWrites | src/routers/credit_memos.py:209-430 | a memo takes its share of tax to the nearest even quantum, converts the whole amount and the tax in base currency and takes revenue as the difference, then AR first and the customer's account second |
| Effects.PayWrites | src/routers/payments.py:357-600 | a payment's entry is cash and customer credit at its own rate, AR by exactly what the balances of the table fell by, and the difference in base as FX |
| Effects.PayCuts | src/routers/payments.py:401-450 | every invoice touched is the payer's, open, in the currency, and cut once at its own rate; MANUAL cuts exactly what it names |
| Effects.AutoPaysOldestFirst | src/routers/payments.py:136-180 | an AUTO payment touches an invoice only once every eligible one due earlier is paid off, leaves at most one partly paid, and leaves money only if every eligible one is paid off |
| Effects.AutoFindsItsOrder | src/routers/payments.py:136-158 | whatever the table holds, the query has an answer |
| Effects.DeliverWrites | src/delivery_worker.py:146-166 | a delivery stamps the invoice once, and turns SENT what was APPROVED only |
| Steps.PartialReduction | src/routers/payments.py:411-421 | one partial reduction, half-up or half-even, clamped or not, moves the base balance at most half a quantum further from the balance at the locked rate |
| Steps.ApproveKeeps | src/routers/invoices.py:1101-1212 | approval keeps every invoice explained by the journal and one outbox event per posted invoice |
| Steps.PayKeeps | src/routers/payments.py:401-450 | so does a payment over any list of invoices |
| Steps.CreditKeeps | src/routers/credit_memos.py:209-267 | so does a credit memo |
| Steps.VoidKeeps | src/routers/credit_memos.py:711-816 | so does a void |
| Steps.WriteOffKeeps | src/routers/credit_memos.py:516-615 | so does a write-off |
| Steps.SettledAt | src/routers/payments.py:401-450 | each invoice of a payment is settled once, from its state before the payment, whatever the order |
| Steps.NeverBinds | src/routers/credit_memos.py:209-217 | the max(..., 0) guards never change what remains creditable |
| Steps.RunKeeps | src/routers/payments.py:401-450 | in every reachable state of every run each row is accounted for |
| Lifecycle.StepMoves | src/routers/invoices.py:630-668 | a step never reopens a closed invoice, never edits the terms of a posted one, never raises its balances, and bumps the version of a row it changes |
| Lifecycle.RunMoves | src/routers/credit_memos.py:32-39 | over whole runs PAID, VOID and WRITTEN_OFF stay final |
| Lifecycle.OnlyDeliveryMarksSent | src/delivery_worker.py:146-166 | no other command writes sent_at or makes an invoice SENT |
| Lifecycle.DeliveryMovesNoMoney | src/delivery_worker.py:146-166 | delivery changes no balance, no journal and no other row |
| Reconciliation.VoidStep | src/routers/credit_memos.py:773-816 | a void of a posted invoice moves the ledgers apart by exactly what had been taken off its base balance |
| Reconciliation.ClearedIsCarryingTotal | src/routers/payments.py:454-457 | the one AR credit of a payment is the sum of what its allocations cleared, in both currencies |
| Reconciliation.StepsInStep | src/routers/health.py:72-115 | every command changes GL 1200 and the subledger alike, up to voided credits |
| Reconciliation.RunsReconcile | src/routers/health.py:72-115 | in every reachable state GL 1200 is the open subledger less exactly what credit memos had removed from invoices voided later |
| Balancing.ResidualBound | src/routers/payments.py:365-375 | the residual pushed onto the last of n allocations leaves it within (n+1)/2 quanta of its own conversion |
| Balancing.PaymentConserves | src/routers/payments.py:357-375 | cash is AR cleared plus customer credit, and in base currency plus the FX result; the entry balances |
| Balancing.MemoEntryMiss | src/routers/credit_memos.py:249-265 | a memo entry misses by at most (k+3)/2 quanta after k reductions |
| Balancing.MemoBalancesIff | src/routers/credit_memos.py:249-267 | exactly what a memo entry misses by in base currency, and so exactly when it balances |
| Balancing.RunsBalance | src/routers/journal_entries.py:216-222 | every entry of every run balances in transaction currency, and in base but for memos, which miss by at most (k+3)/2 quanta after k reductions made before them |
| CreditLimit.DraftKeepsLimitIff | src/routers/invoices.py:331-381 | the commit of a create or patch leaves its customer within the limit if and only if the exposure at that moment plus the new total fits; other customers do not change |
| CreditLimit.ExposureIsOwed | src/routers/invoices.py:334-346 | in every reachable state the exposure is all that the customer's invoices carry: the statuses left out carry nothing |
| CreditLimit.RunsStayWithinIff | src/routers/invoices.py:596-664 | a run never takes a customer beyond a limit if and only if every commit of a draft fits when it is made |
| CreditLimit.RunsStayWithin | src/routers/invoices.py:331-350 | so none does if no sum was too low by the time its draft was written |
| CreditLimit.TwoDraftsOverrunTheLimit | src/routers/invoices.py:331-381 | two interleaved creates, each within the limit it saw, overrun it |
| Reporting.HealthIsExact | src/routers/health.py:72-132 | the ledgers agree if and only if no voided invoice had been credited, and the alarm is silent if and only if such credits stay below a cent |
| Reporting.VoidKeepsEqualityIff | src/routers/credit_memos.py:711-816 | the guard that would keep equal ledgers equal |
| Reporting.SubledgerIsCarried | src/routers/health.py:72-115 | in every reachable state the subledger counted is all that posted invoices carry |
| Reporting.BucketsByDays | src/routers/aging.py:184-193 | an invoice is in the bucket of its days overdue: none, 1 to 30, 31 to 60, 61 and more |
| Reporting.BucketsPartition | src/routers/aging.py:184-207 | the four buckets add up to the customer's open balances |
| Reporting.ComputeAging | src/routers/aging.py:208-222 | the loop fills each bucket with exactly its invoices and their sum, and the total is the sum of the buckets |
| Reporting.CustomersAddUp | src/routers/aging.py:184-222 | summing distinct customers is summing their open invoices |
| Reporting.AgingIsTheSubledger | src/routers/aging.py:184-222 | all customers together are the subledger, hence GL 1200 plus the voided credits |
| Reporting.SummaryParts | src/routers/journal_entries.py:141-192 | the summary of an invoice is its own movements less what its payments cleared elsewhere |
| Reporting.SummaryNetIsBalance | src/routers/journal_entries.py:192-196 | the net AR of a posted, non-void invoice equals its balance if and only if no payment of it touched another invoice; otherwise it falls short by exactly those shares |
| Findings.EveryInvoiceAccounted | src/routers/payments.py:403-450 | total = balance + paid + credited + written off in both currencies; the base balance stays within (k+2)/2 quanta of the balance at the locked rate; both reach zero together |
| Findings.CreditableIsExact | src/routers/credit_memos.py:180-221 | in every reachable state the reversals read back from the journal are exactly the memo amounts |
| Findings.EntriesFlaggedBalanced | src/routers/journal_entries.py:220-222 | no entry of any run is reported unbalanced if its invoice had been reduced fewer than 197 times before it |
| Findings.CreatePossibleIff | src/routers/invoices.py:289-350 | exactly when a create is accepted |
| Findings.PatchPossibleIff | src/routers/invoices.py:533-664 | exactly when a patch is accepted |
| Findings.ApprovePossibleIff | src/routers/invoices.py:972-990 | exactly when an approval succeeds |
| Findings.RejectPossibleIff | src/routers/invoices.py:971-1024 | exactly when a rejection succeeds |
| Findings.VoidPossibleIff | src/routers/credit_memos.py:711-716 | in every reachable state a void succeeds exactly on drafts, approved and sent invoices: what was posted can be reversed |
| Findings.CreditPossibleIff | src/routers/credit_memos.py:99-412 | exactly when a credit memo is accepted, the CHECKs on its own rows included |
| Findings.PayPossibleIff | src/routers/payments.py:285-450 | exactly when a payment is accepted: customer, rate and items, and the CHECKs and unique index its own rows meet |
| Findings.RepeatedItemsAreRefused | src/models/models.py:422 | a payment naming an invoice twice is refused as a whole |
| Findings.WriteOffPossibleIff | src/routers/credit_memos.py:516-526 | a write-off succeeds exactly on an open invoice that still carries base value |
| Findings.BecomesStrandedIff | src/routers/payments.py:411-421 | exactly which commands strand an invoice: a partial payment or credit whose converted amount reaches the carrying value |
| Findings.SettlingStrandsIff | src/routers/payments.py:403-421 | the same for one allocation of a payment, from the row and the amount alone |
| Findings.CreditingStrandsIff | src/routers/credit_memos.py:254-267 | and for the figures of one credit memo |
| Findings.StrandedInvoice | src/routers/payments.py:411-421 | once stranded, only a void changes the balance |
| Findings.StrandingHappens | src/routers/payments.py:411-421 | a run of four commands that strands an invoice |
| Findings.UnbalancedMemo | src/routers/credit_memos.py:249-265 | a run in which that condition fails and the memo entry misses by one quantum |
| Findings.VoidAfterCreditMismatches | src/routers/credit_memos.py:415-420 | a run after which /health reports a mismatch |
| Interleaving.CommitIsAtomic | src/routers/invoices.py:1101-1127 | a claim that succeeds found the very row that was read, so the commit is the whole handler in one piece, had its look-ups returned the same |
| Interleaving.InterleavingsAreSerial | src/routers/invoices.py:289-381 | any interleaving of reads, exposure sums and claims leaves the books of a serial run of what committed, each command with the exposure it had summed |
| Interleaving.DraftsWereSummed | src/routers/invoices.py:331-350 | every create or patch an interleaving commits carries the exposure its customer really had at some moment before the commit |
| Interleaving.InterleavingsKeepTheBooks | src/routers/invoices.py:958-983 | so rows, reconciliation and double entry hold after every interleaving |
| Interleaving.PostedAtMostOnce | src/routers/invoices.py:1129-1212 | however approvals, patches, rejections and voids race, one INVOICE entry and one outbox event at most, exactly together, and that entry posts to AR the total, to revenue the subtotal and to tax payable the tax the row holds |
| Interleaving.StaleWriteOffIgnoresTheRow | src/routers/credit_memos.py:508-615 | a write-off commits exactly when the row it read could be written off; it makes PAID and VOID invoices WRITTEN_OFF and sets the version from the read |
| Interleaving.StaleWriteOff | src/routers/credit_memos.py:508-513 | a write-off from any old read moves the ledgers apart by exactly the difference between what was read and what is open |
| Interleaving.VoidThenWriteOff | src/routers/credit_memos.py:508-615 | a write-off that read before a void credits AR a second time |
| Interleaving.DoubleWriteOff | src/routers/credit_memos.py:508-513 | two write-offs of one read both succeed and credit AR twice |
| Idempotency.KeysAreWriteOnce | src/routers/invoices.py:99-146 | over any trace no committed key is PROCESSING and none ever changes |
| Idempotency.ReplayIsSafe | src/routers/invoices.py:74-96 | later, the same request gets the stored response, a changed one is refused, and neither touches books or keys; even if its check had passed before, it is refused, or a credit memo answered as stored |
| Idempotency.AnswersAgree | src/routers/invoices.py:86-90 | any two answers to one key in any trace are the same |
| Idempotency.AtMostOnce | src/routers/invoices.py:99-118 | over any trace of retries, stale reads, crashes and failures each key commits at most once, and the keys stored are exactly those committed |
| Idempotency.BooksHoldTheCommitted | src/routers/invoices.py:289-467 | and the books are a serial run whose writes are exactly the committed requests, each once, in commit order |
| Idempotency.ServedIsUndisturbed | src/routers/credit_memos.py:111-164 | a request that meets no other one is served as if its handler ran in one piece |
| Idempotency.ReplayMatchesRequest | src/routers/credit_memos.py:494-505 | exactly when a replay answers the request that was made: always for create, payment and credit memo; for PATCH if the version agrees; for write-off and void if the unhashed remarks do; for approve if version, action and remarks do |
| Idempotency.RetryIsRecognized | src/routers/invoices.py:943-956 | whoever asks for the same thing again has the same hash; approvals, rejections, write-offs and voids also take the caller into it |
| Idempotency.SecondGetsTheFirst | src/routers/invoices.py:74-90 | whatever its unhashed parts, a second request with the hash of one that went through is answered with that one's response, however much later |
| Idempotency.WriteOffWithOtherRemarks | src/routers/credit_memos.py:481-505 | a second write-off with other remarks asks for something else and is answered with the remarks of the first |
| Idempotency.ApprovalAfterRejection | src/routers/invoices.py:992-1046 | an approval replaying a rejection is answered with it and approves nothing |
| Idempotency.Api.Handle | src/routers/credit_memos.py:111-164 | check, insert, work, complete or roll back: the tables and the answer are those specified, and every invariant survives |
| Ledgers.Ledger.constructor | src/routers/health.py:72-115 | empty tables satisfy every invariant |
| Ledgers.Ledger.CreateInvoice | src/routers/invoices.py:289-381 | the line loop and the row it inserts do the specified step |
| Ledgers.Ledger.UpdateInvoice | src/routers/invoices.py:533-668 | patch from a given read does the specified step, or changes nothing |
| Ledgers.Ledger.ApproveInvoice | src/routers/invoices.py:972-1212 | approve from a given read likewise, with entry and outbox row |
| Ledgers.Ledger.RejectInvoice | src/routers/invoices.py:992-1024 | reject from a given read likewise |
| Ledgers.Ledger.AutoAllocate | src/routers/payments.py:130-180 | the items and the remainder of an AUTO payment |
| Ledgers.Ledger.ManualAllocate | src/routers/payments.py:186-239 | a MANUAL request is refused for its first bad item, or leaves the amount less its items |
| Ledgers.Ledger.ConvertParts | src/routers/payments.py:363-374 | converting apart and patching the last part in place gives the specified parts |
| Ledgers.Ledger.Settle | src/routers/payments.py:401-450 | the settling loop leaves the specified table and allocation rows, or hits the unique index |
| Ledgers.Ledger.CreatePayment | src/routers/payments.py:247-620 | the whole handler does the specified step, or rolls back |
| Ledgers.Ledger.CreateCreditMemo | src/routers/credit_memos.py:73-430 | likewise |
| Ledgers.Ledger.WriteOffInvoice | src/routers/credit_memos.py:516-615 | write-off from a given read likewise |
| Ledgers.Ledger.VoidInvoice | src/routers/credit_memos.py:709-816 | void from a given read likewise, failing if the row has moved on |
| Ledgers.Ledger.MarkDelivered | src/delivery_worker.py:146-166 | the invoice update of mark_delivered |
| Ledgers.Ledger.Handle | src/routers/health.py:72-115 | any request: the specified step or nothing, and rows, reconciliation and double entry are kept |
| Outbox.EveryUpdateIsGuarded | src/delivery_worker.py:123-188 | any statement by any worker, however stale: DELIVERED is final, failure marks leave later states alone, counters stay within their CHECKs |
| Outbox.ReceiveLimitAborts | src/delivery_worker.py:100-106 | the receive-limit branch never commits, and exactly when a claim aborts |
| Outbox.Table.ClaimEvent | src/delivery_publisher.py:53-101 | claims the oldest row not held elsewhere that is PENDING with its time come, or PROCESSING for more than 30 seconds, with an attempt left; or there is none |
| Outbox.Table.MarkPublished | src/delivery_publisher.py:104-124 | the guarded update |
| Outbox.Table.MarkPublishFailed | src/delivery_publisher.py:127-150 | the guarded update, terminal by the attempt the publisher saw |
| Outbox.Table.ClaimDelivery | src/delivery_worker.py:72-120 | the row and the verdict of a claim |
| Outbox.Table.MarkDelivered | src/delivery_worker.py:123-145 | the guarded update and its row count |
| Outbox.Table.MarkFailed | src/delivery_worker.py:169-188 | the guarded update, terminal by the attempts the consumer saw |
| Outbox.Table.RetryDeliveryEvent | src/routers/delivery.py:83-121 | only a DEAD event is reset, a DELIVERED one is refused |
| Adapter.FirstCallDecides | delivery_stub/stub.py:62-90 | what is recorded under an id is the first call with it, accepted once, and accepted plus duplicates counts the calls that carried it |
| Adapter.RepliesFollowTheFirst | delivery_stub/stub.py:64-76 | every call repeats the first answer with its id, or is refused because it carries something else |
| Adapter.Stub.ReceiveInvoice | delivery_stub/stub.py:49-105 | the dictionary and the answer are those of the calls so far |
| Protocol.EveryStepIsAStatement | src/delivery_publisher.py:53-150 | a protocol step changes the row by one of the table's statements or not at all |
| Protocol.ExactlyOnceEffect | src/delivery_worker.py:215-260 | for any duplicates, expired leases, stale workers, crashes and retries: accepted at most once, never refused, DELIVERED implies accepted and is final |
| Timing.BackoffHolds | src/delivery_publisher.py:127-150 | over runs: after a failed publish attempt nobody claims the event before the attempt's backoff of 1, 2, 4, 8, 16, 32 or 60 seconds is over, unless something else changed the row; left alone it can be claimed from then on |
| Timing.ClaimTakesIff | src/delivery_publisher.py:62-78 | exactly when a poll claims the event |
| Timing.PublishLeaseHolds | src/delivery_publisher.py:53-101 | a publisher's claim holds for 30 seconds against other publishers over any run, and no longer |
| Timing.DeliveryLeaseHolds | src/delivery_worker.py:92-120 | so does a consumer's against other messages, and it counts the larger of the attempts so far and the receive count |
| Timing.DiesIff | src/delivery_worker.py:169-188 | exactly the failures that make an event DEAD, and where the others put it back |
| Timing.RetryIsImmediate | src/routers/delivery.py:109-121 | a retried event can be claimed at once and has its whole budget again |
| Bounds.BoundedWork | src/delivery_publisher.py:31-88 | at most max_publish_attempts sends per round, a round more per CFO retry; at most six copies per send, one per attempt of the client, and three posts per copy |
| Bounds.StuckIff | src/delivery_publisher.py:62-78 | an open event can make no progress however long one waits if and only if it is stuck: no process at work, no receivable message, and published, delivering or at its publish limit |
| Bounds.StuckForever | src/routers/delivery.py:109-121 | a stuck event stays stuck whatever is done, the CFO's retry included |
| Bounds.AtLimitIff | src/delivery_publisher.py:127-150 | exactly the step that leaves an event PENDING at its publish limit: a failure mark that finds it PROCESSING at the limit with an older attempt in hand |
| Bounds.NeverAtLimitIff | src/delivery_publisher.py:127-150 | over runs: it is never found there if and only if no such mark is made |
| Leases.UnlostStepIff | src/delivery_worker.py:143-246 | exactly the step that loses an event: a mark_delivered that returns having found it neither DELIVERING nor DELIVERED |
| Leases.NoLostEventIff | src/delivery_worker.py:215-246 | over runs: no message goes before its event is DELIVERED if and only if no such mark returns |
| Leases.NoLostEvent | src/delivery_worker.py:215-246 | timely consumers make none, so an event that is not DELIVERED is PENDING, PROCESSING, DEAD or still has a message |
| Leases.OneConsumer | src/delivery_worker.py:92-98 | with timely consumers at most one is live, and it owns the claim |
| Leases.MarksAreOwn | src/delivery_worker.py:123-188 | and whatever it marks is its own claim; its mark_delivered always takes |
| Leases.OnePublisher | src/delivery_publisher.py:104-150 | with timely publishers and patient retries at most one is live while PROCESSING, it owns the claim, and no PENDING event is at its limit |
| Incidents.Delivers | src/delivery_worker.py:238-246 | eight undisturbed steps take any new event to DELIVERED with its message deleted |
| Incidents.LateConsumerLosesTheEvent | src/delivery_worker.py:143-144 | a run with a late consumer: accepted, message deleted, PUBLISHED for ever |
| Incidents.RetryInsideALease | src/routers/delivery.py:109-121 | a run of timely marks in which a publisher marks another's claim |
| Incidents.LatePublisherStrandsTheEvent | src/delivery_publisher.py:129-150 | a run in which a late publisher leaves an event PENDING at its publish limit, stuck |
| Incidents.TimelyPublishersStrandTheEvent | src/delivery_publisher.py:129-150 | a run of timely marks that does, through a CFO retry |
| SharedRow.MachinesAgree | src/delivery_worker.py:146-166 | over joint runs: DELIVERED exactly when sent_at is set; then neither DRAFT nor APPROVED; SENT implies DELIVERED; one event per posted invoice |
| SharedRow.DeliveryIsFree | src/delivery_worker.py:146-166 | no delivery step changes a balance, the journal or another row, or reopens an invoice |
| VoidedEvents.LedgerLeavesEvents | src/routers/credit_memos.py:811-816 | no ledger command, a void included, changes an event there is |
| VoidedEvents.DeliveredIff | src/delivery_worker.py:123-145 | over joint runs an event becomes DELIVERED exactly when a mark_delivered finds it DELIVERING, whatever its invoice's status |
| VoidedEvents.VoidIsDeliveredIff | src/delivery_worker.py:72-166 | over any joint run after a void the invoice stays VOID, and is accepted by the adapter and stamped with sent_at exactly when such a mark is made |
| VoidedEvents.VoidThenDelivered | src/delivery_worker.py:146-166 | a run in which an invoice voided before anything was sent is posted and stamped all the same |
| EcbFeed.ParseEcb | src/fx_rate_worker.py:55-94 | accepts exactly the batches with one good row per expected currency and one date, and returns what they hold |
| EcbFeed.ReadsIff | src/fx_rate_worker.py:65-94 | what such a batch is, spelled out: seven currencies, each with one row, per euro, of the one date, positive, and with status A or none |
| EcbFeed.OrderDoesNotMatter | src/fx_rate_worker.py:67-87 | what is read does not depend on the order of the rows |
| EcbFeed.ReadsOneBatch | src/fx_rate_worker.py:89-94 | rows read as one batch at most |
| EcbFeed.RoundIsNearest | src/fx_rate_worker.py:118-119 | half-even rounding of an exact quotient is the nearest unit, even on ties, and nothing else |
| EcbFeed.RatesInvertQuotes | src/fx_rate_worker.py:113-119 | a derived rate times its quote is INR per EUR within half a quantum times the quote |
| EcbFeed.ZeroRateIff | src/fx_rate_worker.py:113-119 | exactly when a derived rate rounds to zero, which the table refuses |
| EcbFeed.DeriveBaseRates | src/fx_rate_worker.py:97-122 | one rate per supported currency but the base, or none if a quote is missing |
| RateStore.RatesAreWriteOnce | src/fx_rate_worker.py:239-242 | under any interleaving of imports, stale workers and failures an approved rate never changes or disappears |
| RateStore.RatesAreSourced | src/fx_rate_worker.py:198-204 | every approved rate is positive, at most three days older than its job's day, and the only one its job gave that tenant and currency |
| RateStore.OneJobPerDate | src/fx_rate_worker.py:125-135 | however often a date is asked for it gets one job, claimable at once with all its attempts |
| RateStore.StoresIff | src/fx_rate_worker.py:191-242 | exactly when a store commits: age within three days, every expected quote there, and no rate or raw quote rounding to zero |
| RateStore.StoreWrites | src/fx_rate_worker.py:206-242 | a committing store approves, for each tenant and derived currency, the nearest rate of its batch under the batch's date, unless that key or the job's pair was taken, and nothing else |
| RateStore.InsertsCover | src/fx_rate_worker.py:217-242 | after a store every requested row is approved under its key or its job's pair was taken, and every new rate is one of those rows |
| RateStore.ClaimTakesIff | src/fx_rate_worker.py:138-177 | exactly when a poll claims a job |
| RateStore.BackoffHolds | src/fx_rate_worker.py:264-280 | over runs: after a failure nobody claims the job before the attempt's backoff is over, doubling from a second up to an hour, unless something else changed it; left alone it can be claimed from then on |
| RateStore.LeaseHolds | src/fx_rate_worker.py:138-177 | a worker's claim holds for two minutes against other workers over any run, and no longer |
| RateStore.CompletesIff | src/fx_rate_worker.py:243-261 | exactly what completes a job: a committing store that finds it PROCESSING; any other state is left alone |
| RateStore.RegressHappens | src/fx_rate_worker.py:264-280 | a run in which a stale failure takes a COMPLETED job back to RETRY |
| RateStore.ReimportIsHarmless | src/fx_rate_worker.py:239-260 | importing that provider date again for the job, even with other quotes, changes no rate |
| RateStore.Worker.EnqueueImport | src/fx_rate_worker.py:125-135 | one job per requested date |
| RateStore.Worker.ClaimJob | src/fx_rate_worker.py:138-177 | claims the due job with the earliest date not held elsewhere, or there is none |
| RateStore.Worker.BuildRows | src/fx_rate_worker.py:217-238 | the two loops build one row per tenant and currency |
| RateStore.Worker.StoreRates | src/fx_rate_worker.py:191-261 | stores everything and completes a PROCESSING job, or changes nothing, and exactly when |
| RateStore.Worker.MarkFailed | src/fx_rate_worker.py:264-280 | the unguarded update |

## Left out

* One tenant and one entity: authentication, roles, row-level security and tenant scoping are not modelled.
* Accounting periods, reason codes, payment terms, `payment_reference_unique` and the CHECKs on free text: single guards
  in front of the modelled handlers.
* A complete chart of accounts is assumed; void and write-off silently skip lines for missing accounts.
* Line amounts are taken on the 1e-4 grid with header total = subtotal + tax, and a patch without new lines keeps the
  stored header amounts; quantities, unit prices and sub-grid tax arithmetic are not modelled.
* Decimal's 28-digit context: products and the quotients in the tax split and the rate derivation are exact before their
  one rounding.
* `resolve_invoice_exchange_rate` and `get_exchange_rate`: the approved rate a handler finds is an input of the command,
  refused when absent. Their queries over dates are not modelled.
* The order in which several failing checks report, where the handler mixes them with look-ups that are not modelled.
* SHA-256 is taken as injective on the fields hashed; the response body is represented by the rows and entries written
  and the remarks repeated.
* When a duplicate whose check had passed fails for two reasons, its key and its command, the model reports the second;
  a handler that inserts its key before it claims the version reports the first. Both are refusals without effect.
* Serialization failures and deadlocks that PostgreSQL reports as retryable, and lock waiting: a handler that locks its
  rows, or runs serializable, is one step.
* Key expiry: `expires_at` is written but nothing reads it.
* SQS message retention and visibility timeouts: a message may be received again at any time, which covers every timeout.
* A restart of the adapter, which would empty its dictionary.
* One clock per process: every step reads the clock of its event, events' clocks advance independently, and backoff
  after a crash is just waiting.
* Invalid envelopes, which the consumer leaves for redrive without touching any event.
* CSV and decimal text: a row's date and value are what the libraries make of them, and codes are already trimmed and
  upper-cased.
* Manual rate overrides and supersession: no code in the worker writes them.
* The materialized aging view, pagination, JSON building, logging, audit triggers, seed data, tenant and entity CRUD.
* The snapshot of a SERIALIZABLE payment: an AUTO payment lists every payable row at its commit, while the code does not
  see an invoice approved after its snapshot was taken.
- Interleaving.InterleavingsAreSerial: takes the atomicity of `write_off_invoice` as an explicit assumption, because the code neither locks nor checks a version there; `Interleaving.StaleWriteOff` says what happens without it.
- RateStore.ReimportIsHarmless: covers the same provider date and tenants; another provider date of the same job may add new rates, which `RateStore.RatesAreWriteOnce` covers.
