# Verification of the POS system's money rules

This project models the parts of the point-of-sale backend, print agent and cart whose correctness is about money,
time or concurrency, and proves what they promise.

- **Customer ledger** (`CustomerLedger`, `CustomerService`, `LedgerProtocol`, `Statement`). Every balance change
  appends an immutable row with the balance before and after, and moves a stored balance. `CustomerService` has the
  methods as they change their rows, `CustomerLedger` what serial runs keep, and `LedgerProtocol` the same requests
  as transactions whose steps (lock and read, insert, write back, commit or roll back) interleave in every way.
- **Debt settlement** (`Settlement`, `OnlySettlement`, `TiedOrders`, `RefundCredit`, `Reconciliation`). Two loops split
  a customer's payments into checkout money and a pool, and pour the pool over the orders, oldest first. The loops are
  proved against a closed form, which is shown to be the only fair one and then related to the order of the rows, to
  refunds and to the stored balance.
- **Customer codes** (`CustomerCodes`, `Decimal`): the per-tenant counter row under interleaved creations.
- **Limiters** (`RateLimit`, `FailedLogins`): expiring Redis keys against the full history they stand for.
- **Reports** (`GroupBy`, `ProfitReports`, `FlatReports`, `DayBuckets`, `RefundExport`): joins, groupings, day ranges
  and totals, and the profit reports against the flat tables.
- **Idempotency** (`Idempotency`): the guard of one key as a timed state machine.
- **Byte streams and the cart** (`Reassembly`, `Cart`).

`Common` holds sums over sequences. Amounts are integers in 1/10000 of the currency unit, as in the database, except
in the cart, which computes over the reals. `dfyconfig.toml` lists the files for `dafny verify`.

## What turned out not to hold

The code was followed where a promise fails, with an input that shows it and the exact condition.

- A deletion reads the balance without a lock. A sale committed between that read and the deletion leaves a deleted
  customer in debt (`DeletionCanBeOvertaken`). A run is equivalent to serving the requests one at a time exactly when
  what was committed in between nets to zero (`SerializableIff`).
- An adjustment by hand is not checked against the credit limit (`AdjustmentBypassesLimit`). The balance was never over
  the limit exactly when every adjustment found room for its amount (`NeverOverLimitIff`, and `LimitUnderLocksIff` for
  every interleaving).
- Rows are dated with the start of their transaction (`created_at` defaults to `now()`, `backend/app/db/base.py`). A
  sale paid in part writes two ledger rows with one date, and a statement may open between them
  (`PartPaidSaleMayNotReconcile`); a transaction that waited for the lock is dated before the rows already there
  (`LateCommitDoesNotReconcile`). A statement reconciles whichever row the database picks exactly when, for each row it
  may pick, the rows up to it dated in the period or later add up to the rows after it dated before the period
  (`ReconcilesIffMisdatedNet`).
- For the same reason an order may be placed before ones that are already there. The pool is then poured anew, and an
  order already paid is pending again (`OlderOrderUnsettles`). An event lowers a settled amount exactly when it places
  an older order, both orders owe something, and the pool ends among what they owe (`SettledFallsIff`); over a whole
  run the amount falls at no step exactly when no such order is placed (`NeverFallsIff`).
- A refund then credits again what had been paid (`OlderOrderRaisesCredit`). An event raises the credit of a refund
  exactly when it places such an order and the refund is one that the settled amount had kept down (`CreditRisesIff`).
  Whatever refunds are made in the course of a run, they credit no more than was unpaid at the start exactly when the
  order is never settled to less than it was then, or than its total if that is less (`NeverOvercompensatesIff`).
- Orders of one transaction share a date, and the query sorts by date only, so two runs of it can settle an order
  differently (`TiesCompete`). They never do exactly when every order owes nothing, or no other order of its date does,
  or the pool ends before that date or covers it (`TiesAreHarmlessIff`). Statuses derived from one answer fit every
  other exactly when each order has one status first of its date and last (`AnswersAgreeIff`).
- A sale on account is stored as pending without settling it, though the pool may cover it
  (`SaleOnAccountStaysPending`). All statuses still fit exactly when its total is zero or the pool ends before it
  (`UnsettledSaleFitsIff`).
- The limiter truncates the clock to seconds, so it bounds windows of whole seconds but not of real time: the bound
  holds for stretches of up to a second less than the window plus one tick, and for no longer ones (`RealTimeLimitIff`).
- The idempotency guard lets a key succeed twice in a day if a second request looks the key up before the first has
  marked it, if a handler outlives its mark, or if a 2xx body is not JSON, each of them alone (`GapLetsTwoIn`,
  `SlowFailureForgetsSuccess`, `UnstorableSuccessIsRepeated`). Runs with handlers of less than d seconds and at most k
  requests between lookup and mark have one success a day exactly when d is at most 60, k at most 1 and only JSON is
  sent (`OneSuccessPerDayIff`). The client of a 2xx response that is not JSON gets no body: the guard has read it by
  the time parsing fails.
- The print agent's answer depends on how the stream is cut exactly when the header ends within the last buffer below
  the cap and the stream goes past the cap (`CuttingMattersIff`, with the stream of `LongHeaderIsUndecided`).
- A branch none of whose orders has an item hides its refunds from the branch report (`EmptyOrderHidesRefund`), and
  nothing else does (`BranchReportHides`). Each report adds up to revenue less refunds less cost exactly when the
  refunds whose key has no item sum to zero (`ReportLosesNothingIff`).

## Model

| member | source | states |
|---|---|---|
| `CustomerService.CustomerAccount.CreateLedgerEntry` | backend/app/customers/services.py:259-307 | a posting appends one row that starts at the stored balance and moves it by the signed amount, and is refused, changing nothing, exactly when it is a sale that takes the balance over a positive limit |
| `CustomerService.CustomerAccount.RecordPayment` | backend/app/customers/services.py:309-346 | a payment is posted and every order's status is then the one its settled amount calls for, by the answer of the order query; on a deleted customer nothing changes |
| `CustomerService.CustomerAccount.RecordOther` | backend/app/customers/services.py:450-485 | a debt, credit or adjustment is posted, and the statuses of the orders there are, untouched, fit their settled amounts as before |
| `CustomerService.CustomerAccount.PlaceOrder` | backend/app/sales/services/checkout_service.py:296-385 | checkout stores the order with the status of the money taken, and posts its total and the money, tagged with the order, so that the balance rises by what is left to pay and the pool stays as it is; it is refused, changing nothing, exactly to a deleted customer or beyond a positive limit; with money taken all statuses are derived anew, and without they all fit if and only if the total is zero or the pool ends before the order |
| `Settlement.UnsettledSaleFitsIff` | backend/app/sales/services/checkout_service.py:361-385 | the same equivalence on the ledger's rows and the orders |
| `Settlement.SaleOnAccountStaysPending` | backend/app/sales/services/checkout_service.py:361-385 | with money left in the pool a first sale on account is stored as pending though the pool covers it |
| `CustomerService.CustomerAccount.SoftDelete` | backend/app/customers/services.py:173-188 | deletes exactly an active customer with a zero balance, and otherwise changes nothing |
| `CustomerService.CustomerAccount.ReconcileOrderPayments` | backend/app/customers/services.py:416-434 | every order gets the status of its settled amount in closed form, for any order of equal dates the query may return |
| `CustomerService.CustomerAccount.GetOrderSettledAmount` | backend/app/customers/services.py:436-448 | returns the settled amount in closed form for any answer of the order query, and zero for an order that is not the customer's |
| `CustomerService.AnswersAgreeIff` | backend/app/customers/services.py:386-393 | statuses derived from one answer of the order query fit the amounts computed from every other if and only if each order has the same status first of its date as last |
| `CustomerLedger.BalanceIsSum` | backend/app/customers/services.py:275-306 | on a chained ledger the stored balance is the sum of the signed amounts of all rows |
| `CustomerLedger.InstalledIsSafe` | backend/app/customers/services.py:270-307 | whatever commits in whatever order, rows are only appended, form a chain ending in the stored balance, and stop at deletion |
| `CustomerLedger.CreditLimitHolds` | backend/app/customers/services.py:277-284 | with a positive limit and no debt raised by hand the balance never exceeds the limit, whatever commits |
| `CustomerLedger.AdjustmentBypassesLimit` | backend/app/customers/services.py:287-289 | one positive adjustment takes the balance over any limit |
| `CustomerLedger.NeverOverLimitIff` | backend/app/customers/services.py:277-289 | whatever commits, the balance was never over a positive limit if and only if every adjustment found room for its amount |
| `CustomerLedger.RefusedIff` | backend/app/customers/services.py:277-284 | an active customer is refused a posting exactly for a sale that takes the balance over a positive limit; one that just reaches it is posted |
| `CustomerLedger.SalesFitIff` | backend/app/customers/services.py:277-284 | a series of sales goes through if and only if the balance and all of them together are within the limit |
| `CustomerLedger.SerialIsSafe` | backend/app/customers/services.py:173-188 | requests served one at a time keep the chain and the limit, and delete only customers with a zero balance |
| `CustomerLedger.DeletedIsFrozen` | backend/app/customers/repositories.py:47-70 | no later request changes a deleted customer or its ledger |
| `CustomerLedger.PostAllAdds` | backend/app/customers/services.py:291-306 | a transaction that succeeds records exactly its postings in order and moves the balance by their sum |
| `LedgerProtocol.LedgerUnderLocks` | backend/app/customers/repositories.py:58-70 | under every interleaving the committed rows form a chain, the stored balance is their sum, and the credit limit holds |
| `LedgerProtocol.LimitUnderLocksIff` | backend/app/customers/services.py:277-289 | the same equivalence under every interleaving |
| `LedgerProtocol.OnlyCommittedLeaveATrace` | backend/app/db/session.py:37-46 | the ledger is, posting by posting, what the committed transactions asked for, each once, in commit order; aborted ones leave nothing |
| `LedgerProtocol.TransactionIsServed` | backend/app/customers/services.py:309-330 | from any world with the lock free, a posting request that runs undisturbed commits what the posting rule gives, or, where that is an error, changes nothing |
| `LedgerProtocol.DeletionIsServed` | backend/app/customers/services.py:173-188 | and a deletion deletes an active customer with a zero balance, and otherwise changes nothing |
| `LedgerProtocol.NothingElseIsRefused` | backend/app/customers/repositories.py:58-70 | under every interleaving, a request that fails without a rollback of its own fails by the posting or deletion rule on the row committed at that moment |
| `LedgerProtocol.RollbackReleases` | backend/app/db/session.py:37-46 | a request rolled back leaves no trace and releases the lock |
| `LedgerProtocol.DeletedStaysFrozen` | backend/app/customers/repositories.py:61-70 | under every interleaving nothing changes a deleted customer's row or ledger |
| `LedgerProtocol.DeletedBalance` | backend/app/customers/services.py:180-188 | a deleted customer's balance is exactly what was committed between the deletion's unlocked read and its commit |
| `LedgerProtocol.SerializableWithoutDeletion` | backend/app/customers/repositories.py:58-70 | without deletions every interleaving ends as serving the committed requests one at a time, in commit order, would |
| `LedgerProtocol.SerializableIff` | backend/app/customers/services.py:180-188 | with deletions it does if and only if what was committed between the first deletion's unlocked read and its commit nets to zero |
| `LedgerProtocol.DeletionCanBeOvertaken` | backend/app/customers/services.py:180-188 | a schedule that leaves a deleted customer owing a sale |
| `Settlement.SplitPayments` | backend/app/customers/services.py:372-384 | the first loop computes each order's checkout money and the standalone pool |
| `Settlement.ComputeOrderSettlement` | backend/app/customers/services.py:395-414 | the second loop gives each order its checkout money plus max(0, min(its debt, the pool less all older debts)), and covers exactly the customer's orders |
| `Settlement.RowPays` | backend/app/customers/services.py:377-384 | a payment tagged ORDER with an order's id raises that order's checkout money and nothing else, any other payment only the pool, and no other row anything |
| `OnlySettlement.SettlementIsTheOnlyFairOne` | backend/app/customers/services.py:386-412 | any way of pouring the pool that gives no order more than its debt, none anything before all older ones are covered, and in all the pool or all debts, is the settlement |
| `OnlySettlement.SettlementIsFair` | backend/app/customers/services.py:386-412 | and the settlement is such a way |
| `Settlement.StatusMeans` | backend/app/customers/services.py:424-432 | an order is paid when its checkout money and what the pool has left for it cover it, pending when neither gives it anything, and partial in between |
| `Settlement.PoolIsConserved` | backend/app/customers/services.py:395-412 | the n oldest orders get from the pool exactly the smaller of the pool and their debts |
| `Settlement.OldestFirst` | backend/app/customers/services.py:397-412 | if the pool gives an order anything, every older order is settled in full, its whole debt covered |
| `Settlement.AtMostOnePartFilled` | backend/app/customers/services.py:403-412 | the pool leaves at most one order part-filled |
| `Settlement.SettledBounds` | backend/app/customers/services.py:398-412 | every order is settled at least to its checkout money and at most to the larger of that and its total |
| `Settlement.MorePaymentsNeverHurt` | backend/app/customers/services.py:370-412 | paying at least as much into the pool and for each order settles no order less |
| `Settlement.SettlementOnlyProgresses` | backend/app/customers/services.py:424-432 | over whole runs of ledger rows and new orders, placed anywhere, in which no placing competes with an order when it is made, its settled amount does not fall and its derived status only moves from pending to partial to paid |
| `Settlement.NewerOrderChangesNothing` | backend/app/customers/services.py:386-412 | a new order, wherever its date puts it, changes no older order's settled amount |
| `Settlement.OlderOrderTakes` | backend/app/customers/services.py:386-412 | it settles no newer order more, and lowers one if and only if both owe something and the pool ends among what they owe |
| `Settlement.SettledFallsIff` | backend/app/customers/services.py:370-412 | of all events only the placing of such an order lowers a settled amount |
| `Settlement.NeverFallsIff` | backend/app/customers/services.py:370-412 | over a whole run a settled amount falls at no step if and only if no placing competed with the order when it was made |
| `Settlement.OlderOrderUnsettles` | backend/app/db/base.py:32-36 | an order paid in full is pending again when one dated earlier is committed |
| `Settlement.OnlyTheBagOfPaymentsMatters` | backend/app/customers/services.py:370-384 | ledgers with the same bag of payments settle every order alike, whatever their order and other rows |
| `Settlement.SplittingAPaymentChangesNothing` | backend/app/customers/services.py:383-384 | a standalone payment may be split into several without changing any settled amount |
| `TiedOrders.TiesAreHarmlessIff` | backend/app/customers/services.py:386-393 | every answer of the query, which sorts by date only, settles every order alike if and only if each order owes nothing, no other order of its date does, or the pool ends before that date or covers it |
| `TiedOrders.TiesKeepStatusesIff` | backend/app/customers/services.py:386-434 | every answer gives every order the same status if and only if each order has the same status first of its date as last |
| `TiedOrders.TiesCompete` | backend/app/customers/services.py:386-412 | two orders of one date that could each take the pool: whichever the query returns first is settled with it, the other with nothing |
| `Reconciliation.BalanceIsWhatOrdersLack` | backend/app/customers/services.py:348-414 | if the sale rows are the orders', the stored balance is the orders' totals less their settled amounts, less what the pool holds beyond all debts and what was paid for foreign orders, less refund credits, plus adjustments |
| `RefundCredit.CreditsTelescope` | backend/app/sales/services/refund_service.py:305-313 | successive refunds of an order credit exactly the debt left unpaid, up to what they refund |
| `RefundCredit.NoDoubleCompensation` | backend/app/sales/services/refund_service.py:305-313 | for any paid and settled amounts at the refunds, they never credit more than what the least of those leaves unpaid |
| `RefundCredit.CreditRisesIff` | backend/app/sales/services/refund_service.py:305-313 | an event raises the credit of a refund to come if and only if it places an older order that competes, more was settled than taken, the refund asks for more than was unpaid, and something is unpaid behind the new order |
| `RefundCredit.NeverOvercompensatesIff` | backend/app/sales/services/refund_service.py:293-313 | no refunds in the course of a run credit more than was unpaid at the start if and only if at no point the order is settled to less than it was then, or than its total if that is less |
| `RefundCredit.RefundsNeverCompensateTwice` | backend/app/sales/services/refund_service.py:293-313 | over whole runs of payments, new orders and refunds in which no placing competes with the order, with the settled amount that settlement computes at each refund, its refunds never credit more than what was unpaid at the start |
| `RefundCredit.OlderOrderRaisesCredit` | backend/app/sales/services/refund_service.py:305-313 | a refund of an order that was paid in full is credited in full once an older order has taken the pool |
| `Statement.SumLedgerEntries` | backend/app/customers/services.py:35-49 | the loop computes total debits and credits, whose difference is the sum of the signed amounts |
| `Statement.TotalsAreMoves` | backend/app/customers/services.py:35-49 | row by row the totals are what moved the balance up and what moved it down |
| `Statement.ReconcilesIffOpening` | backend/app/customers/services.py:518-524 | for any ledger and period, opening plus debits less credits is the closing sum exactly when the opening is the sum of the rows before the period |
| `Statement.ReconcilesIffMisdatedNet` | backend/app/customers/repositories.py:199-215 | for every chained ledger, whatever its dates, a statement reconciles whichever row the query picks if and only if for each such row the rows on its wrong side of the start date net to zero |
| `Statement.ReconcilesIffUnambiguous` | backend/app/customers/repositories.py:199-215 | with dates in order that means that no two rows tied for the last date before the period carry different balances |
| `Statement.StrictTimesReconcile` | backend/app/customers/repositories.py:199-215 | so with strictly increasing dates every statement reconciles |
| `Statement.ClosesWithIff` | backend/app/customers/services.py:523-530 | for every chained ledger the closing sum is the balance after n rows if and only if the rows up to n dated after the end add up to those after n dated up to it, and the current balance if there is no end |
| `Statement.ClosesWithBalance` | backend/app/customers/services.py:523-530 | with dates in order the closing sum is the balance after the last row up to the end date |
| `Statement.PartPaidSaleMayNotReconcile` | backend/app/customers/repositories.py:204-212 | a sale paid in part in one transaction admits an opening balance that does not reconcile |
| `Statement.LateCommitDoesNotReconcile` | backend/app/customers/repositories.py:204-212 | a row dated before its predecessor makes every possible opening balance fail, without ties |
| `CustomerCodes.CodeRoundTrip` | backend/app/customers/services.py:31-32 | a code is "CUS-" and a number that reads back, zero-padded to six digits below a million and unpadded from there on |
| `CustomerCodes.CodesAreInjective` | backend/app/customers/services.py:31-32 | no two numbers share a code |
| `CustomerCodes.CodesAreExact` | backend/app/customers/repositories.py:18-40 | over every interleaving, races to create the counter row and rollbacks included, committed customers hold exactly the codes for 1 to last_seq, once each, and no creation meets the unique constraint on the code |
| `CustomerCodes.CreationIsServed` | backend/app/customers/repositories.py:18-40 | from any reachable state with nobody holding the counter, a creation that runs undisturbed commits a customer with the next code |
| `CustomerCodes.OnlyRacesAreLost` | backend/app/customers/repositories.py:18-40 | under every interleaving, a creation that fails without a rollback of its own lost the race to insert the counter row |
| `CustomerCodes.DeletionKeepsCode` | backend/app/customers/services.py:173-188 | a deleted customer keeps its row and code |
| `RateLimit.NextIsRepresented` | backend/app/core/rate_limit.py:63-74 | after pruning, adding and expiry the stored set is exactly the attempts of the last window of the full history, and its size counts them |
| `RateLimit.PrunedIsLive` | backend/app/core/rate_limit.py:67-71 | neither pruning nor an expiry of window+1 seconds loses an attempt that still counts |
| `RateLimit.CheckRateLimit` | backend/app/core/rate_limit.py:59-76 | refuses exactly when the full history has more attempts in the window than the limit, and never without Redis |
| `RateLimit.LimiterKey.SlidingWindow` | backend/app/middleware/rate_limit.py:147-158 | the middleware's own copy makes the same decision by the full history |
| `RateLimit.AtMostLimitPerWindow` | backend/app/core/rate_limit.py:50-76 | no half-open window of whole seconds holds more admitted attempts than the limit |
| `RateLimit.RealTimeLimitIff` | backend/app/core/rate_limit.py:63-75 | in real time the limit holds for a stretch of a given length in every history if and only if it is at most a second less than the window plus one tick |
| `FailedLogins.StreakIsLinked` | backend/app/core/rate_limit.py:24-30 | the expiring count reaches m exactly when the m latest failures exist and each came in time after the one before |
| `FailedLogins.FailureCounter.IsAccountLocked` | backend/app/core/rate_limit.py:15-21 | reports locked exactly when, since the last clear, the five latest failures are each less than 900 s apart and the latest less than 900 s old |
| `FailedLogins.FailureCounter.RecordFailedLogin` | backend/app/core/rate_limit.py:24-30 | the counter keeps standing for the history with the new failure |
| `FailedLogins.FailureCounter.ClearFailedLogins` | backend/app/core/rate_limit.py:35-38 | the history starts afresh |
| `GroupBy.JoinKeepsLines` | backend/app/analytics/repositories.py:811-821 | joining the per-key refund subquery yields every item row exactly once, NULL keys included where the join is null-safe |
| `GroupBy.MaxIsTheTotal` | backend/app/analytics/repositories.py:839-842 | max over a group's joined rows is the key's refund total, once |
| `GroupBy.MaxIsGreatest` | backend/app/analytics/repositories.py:839-842 | max is the greatest refund total in the group's rows, and NULL if there is none |
| `GroupBy.NullMatchesNothing` | backend/app/analytics/repositories.py:811-821 | without the null-safe comparison a NULL key joins nothing |
| `GroupBy.RowIsNet` | backend/app/analytics/repositories.py:880-885 | each report row is its group's revenue, cost and refunds, and their net |
| `GroupBy.ReportAddsUpIff` | backend/app/analytics/repositories.py:777-885 | the groups' profits add up to all revenue less all refunds less all cost if and only if the refunds whose key has no item row sum to zero |
| `GroupBy.ReportAddsUp` | backend/app/analytics/repositories.py:777-885 | in particular they do if every refund's key has an item row |
| `ProfitReports.ReportIsTotal` | backend/app/analytics/repositories.py:777-885 | over the tables, each of the three reports adds up to all items sold, less all refunds but those whose key has no item, less all cost |
| `ProfitReports.ReportLosesNothingIff` | backend/app/analytics/repositories.py:777-885 | it loses nothing if and only if those refunds sum to zero |
| `ProfitReports.WellLinkedHidesNothing` | backend/app/analytics/repositories.py:811-821 | there are none in the branch report if every order has an item, nor in the others if refund items carry their order item's product |
| `ProfitReports.ReportMeetsSummaryIff` | backend/app/analytics/financial_reports.py:50-54 | each report differs from the summary's gross profit by exactly the hidden refunds and what item totals and refund items differ from the orders' own figures, and equals it if and only if these cancel |
| `ProfitReports.ReportsMeetSummary` | backend/app/analytics/financial_reports.py:50-54 | if the orders' figures are the sums of their items', a report adds up to the summary's gross profit if and only if its hidden refunds sum to zero |
| `ProfitReports.BranchReportHides` | backend/app/analytics/repositories.py:858-878 | the branch report hides exactly the refunds of the branches none of whose orders has an item |
| `ProfitReports.EmptyOrderHidesRefund` | backend/app/analytics/repositories.py:858-878 | the smallest case: the refund of a branch's only order, which has no items, is missing from the branch report |
| `ProfitReports.CategorySalesAgree` | backend/app/analytics/repositories.py:305-358 | the category sales report shows each category the same profit as the profit report |
| `FlatReports.RowIsFlat` | backend/app/analytics/repositories.py:777-885 | each row of a report carries exactly the sums over the item and refund item tables, each row once, of the reported orders' rows of its product, category or branch, and their net |
| `FlatReports.GroupsWithItems` | backend/app/analytics/repositories.py:777-885 | a report has one row for each group with an item of a reported order, and no other |
| `FlatReports.TotalsAreFlat` | backend/app/analytics/repositories.py:777-885 | the totals sold, refunded and paid for are those of all items and refund items of reported orders, each once |
| `FlatReports.GrossProfitIsFlat` | backend/app/analytics/financial_reports.py:50-54 | the summary's gross profit is the orders' totals less refunds less quantity times unit cost over their items |
| `DayBuckets.DaysTile` | backend/app/core/timezone.py:19-33 | an instant is in the range from day a up to day b exactly when it is in one of its days, and in one only |
| `DayBuckets.LocalDayOfInstant` | backend/app/core/timezone.py:19-33 | with a constant offset an instant is in the day that its local time counts |
| `DayBuckets.DayStartsAtMidnight` | backend/app/core/timezone.py:19-33 | a day starts at local midnight by its own offset |
| `DayBuckets.StatsAreSums` | backend/app/analytics/repositories.py:42-101 | the figures count and add up exactly the orders of the period that are not draft, pending, cancelled or voided, and net is gross less refunded |
| `DayBuckets.DaysAddUpToRange` | backend/app/analytics/repositories.py:76-101 | daily counts, gross, refunded and net figures add up to the range's |
| `DayBuckets.DaysAddUpIff` | backend/app/core/timezone.py:25-33 | for offsets within a day of UTC they always do if and only if the offset never grows by more than 24 hours overnight |
| `RefundExport.RoundsToNearest` | backend/app/analytics/export_service.py:47-50 | an amount is printed as the nearest two-place amount, of two equally near the even one |
| `RefundExport.TextRoundTrip` | backend/app/analytics/export_service.py:94-99 | reading a printed cell back gives its value, and only blank cells are skipped |
| `RefundExport.PrintsSign` | backend/app/analytics/export_service.py:47-50 | a negative amount keeps its sign even where it rounds to zero |
| `RefundExport.ColumnTotal` | backend/app/analytics/export_service.py:90-100 | the TOTAL cell prints the rounded sum of the column's fields: amounts and unrounded numbers count, blanks and text that is no number do not |
| `RefundExport.FieldsAddUp` | backend/app/analytics/export_service.py:90-100 | that sum is the sum of the column's amounts and of its other numbers, and of nothing else |
| `RefundExport.AmountsTotal` | backend/app/analytics/export_service.py:90-100 | for a column of two-place amounts it prints their sum exactly |
| `RefundExport.TotalIsClose` | backend/app/analytics/export_service.py:86-101 | a column of n printed amounts totals to within half a cent per row of the exact sum |
| `RefundExport.FetchRefunds` | backend/app/analytics/export_service.py:400-423 | the loop prints each line's amount and stamps a refund's total on its first row only |
| `RefundExport.EachRefundCountsOnce` | backend/app/analytics/export_service.py:395-423 | however the lines of refunds interleave, the total column adds up each refund's rounded amount exactly once |
| `RefundExport.EachLineCountsOnce` | backend/app/analytics/export_service.py:400-423 | the line column adds up every line's rounded amount once |
| `Idempotency.IdempotencyKey.Lookup` | backend/app/middleware/idempotency.py:90-119 | is the run model's lookup step, and answers a conflict, a replay or nothing by what the run has left in the key |
| `Idempotency.IdempotencyKey.Mark` | backend/app/middleware/idempotency.py:121-126 | is the run model's mark step |
| `Idempotency.IdempotencyKey.Finish` | backend/app/middleware/idempotency.py:133-171 | is the run model's step of a handler that answers, and returns its response, without the body if that is a success that is not JSON |
| `Idempotency.IdempotencyKey.Raise` | backend/app/middleware/idempotency.py:133-134 | is the run model's step of a handler that raises, which leaves the key as it is |
| `Idempotency.ClientGetsResponse` | backend/app/middleware/idempotency.py:133-171 | in every run the client gets its handler's response, and only of a 2xx that is not JSON no body |
| `Idempotency.ReplayIsTheResponse` | backend/app/middleware/idempotency.py:109-119 | in every run a replay is the response that the client of a 2xx got, less than 24 hours after it ended |
| `Idempotency.OneSuccessPerDay` | backend/app/middleware/idempotency.py:82-171 | in every run with handlers of less than 60 s, at most one request between lookup and mark, and JSON bodies, no execution starts within 24 h of the end of a successful one |
| `Idempotency.OneSuccessPerDayIff` | backend/app/middleware/idempotency.py:82-171 | for handlers of less than d seconds, at most k requests between lookup and mark, and JSON or any bodies: every such run has one success a day if and only if d is at most 60, k at most 1 and only JSON is sent, or nothing can execute at all |
| `Idempotency.LookupOutcome` | backend/app/middleware/idempotency.py:90-126 | in such a run a new request gets the stored response within 24 h of a success, a conflict while a handler runs or for 60 s after the mark of one that raised, and its own execution in all other cases |
| `Idempotency.KeyAfterHandler` | backend/app/middleware/idempotency.py:133-171 | what the next request meets: in every run its own execution after a failure and a replay for 24 h after a success that is JSON, and in a sound one a conflict until 60 s after the mark if the handler raised or the success could not be stored |
| `Idempotency.GapLetsTwoIn` | backend/app/middleware/idempotency.py:90-126 | a run with two requests between lookup and mark, and everything else in order, executes both with success at once |
| `Idempotency.SlowFailureForgetsSuccess` | backend/app/middleware/idempotency.py:133-169 | a run whose only fault is a handler that outlives its mark: it fails, deletes a success stored meanwhile, and a third request succeeds again |
| `Idempotency.UnstorableSuccessIsRepeated` | backend/app/middleware/idempotency.py:138-163 | a run whose only fault is a body that is not JSON: the success is executed again once its mark expires, and no client gets the body |
| `Reassembly.Handle` | print-agent/src/main.rs:17 | the two read loops, with the early ends between them, compute what scanning the reads for the header's end and slicing the body out of the stream gives |
| `Reassembly.RequestIsPartOfStream` | print-agent/src/main.rs:17 | a request is the start of the stream up to the first header end, and exactly the bytes that follow, as many as the header states, or none if there are fewer |
| `Reassembly.OtherAnswers` | print-agent/src/main.rs:17 | a header that is not UTF-8 ends it, a foreign origin is refused, and OPTIONS is answered at once |
| `Reassembly.CuttingDoesNotMatter` | print-agent/src/main.rs:17 | for a stream whose header does not end within the last buffer below the cap, or that stays below it, the answer is a function of the stream: the first header end, and exactly Content-Length bytes or none |
| `Reassembly.CuttingMattersIff` | print-agent/src/main.rs:17 | the answer is the same for every cut of a stream into reads if and only if the stream is such |
| `Reassembly.LongHeaderIsUndecided` | print-agent/src/main.rs:17 | a stream that is not such: its header ends at the cap and one byte follows |
| `Reassembly.ReadLimited` | backend/app/core/upload.py:47-62 | returns the whole upload exactly when it is within the limit; the buffer and the chunk just added to it never hold more than the limit and two chunks |
| `Reassembly.DeliveredIsStream` | backend/app/core/upload.py:55-59 | without empty reads, what is delivered is the concatenation of the reads |
| `Cart.ReduceRefines` | frontend/design/pos-state.jsx:83-140 | each action does to the cart what it does to a list of ids and a map of quantities |
| `Cart.ReduceActsOnItems` | frontend/design/pos-state.jsx:75-140 | each action changes the item and the figure it is about, quantity, line discount or cart discount, and no other |
| `Cart.CartIsSimpleMap` | frontend/design/pos-state.jsx:46-193 | after any actions the cart is the ordered image of that map, with unique ids and quantities of at least one |
| `Cart.AddRaisesSubtotal` | frontend/design/pos-state.jsx:83-103 | adding a product raises the subtotal by one unit at the price and line discount already in the cart, or by its own price if it is new |
| `Cart.SubtotalIsSum` | frontend/design/pos-state.jsx:315-320 | every item adds its price times its quantity less its discount to the subtotal |
| `Cart.DiscountIsPerCent` | frontend/design/pos-state.jsx:321 | the cart's discount is its per cent of the subtotal |
| `Cart.FiguresMean` | frontend/design/pos-state.jsx:322-333 | the displayed figures are, to the cent, the subtotal, the discount, and ten per cent of the rest as tax |
| `Cart.DisplayedTotalIsClose` | frontend/design/pos-state.jsx:315-333 | for every cart the displayed total is within 0.02, plus what a discount of more than the whole takes below zero, of displayed subtotal less discount plus tax |
| `Cart.DisplayedTotalWithinTwoCents` | frontend/design/pos-state.jsx:315-333 | with prices not negative and discounts of 0 to 100 per cent, within 0.02 |

## Left out

- Database, Redis and HTTP: tables are sequences or maps, a row lock is an owner, a Redis key is a value with an expiry
  time and is absent from that time on. A locking read is taken to return the latest committed row.
- Redis failures: the fail-open branches of the limiters and the idempotency guard; the model assumes Redis answers.
- The counter row of customer codes and the locked customer row are values of a state machine, not objects: the
  interleaving of steps is what is modelled there.
- Several customers, tenants, limiter keys or idempotency keys at once: they share no state, so one of each is modelled.
- Statement.ReconcilesIffMisdatedNet: a period that ends before it starts is not modelled.
- Statement.ReconcilesIffUnambiguous: assumes dates in order; ReconcilesIffMisdatedNet is the result for every ledger.
- Statement.StrictTimesReconcile: assumes strictly increasing dates, as a special case of the same.
- Statement.ClosesWithBalance: assumes dates in order; ClosesWithIff is the result for every ledger.
- Settlement.SettlementOnlyProgresses: excludes runs in which an order competes, because with them it fails;
  NeverFallsIff is the equivalence.
- Idempotency.OneSuccessPerDay: is stated for runs that meet conditions the code does not enforce; OneSuccessPerDayIff
  says which bounds are needed.
- ProfitReports.ReportIsTotal: in the category report every item's product is in the products table, as its foreign key
  and the inner join require.
- RateLimit.CheckRateLimit: attempts are taken in clock order with distinct members, and windows to be at least one
  second, as all callers' are.
- Reassembly.Handle: what the header says (whether it is UTF-8, its origin allowed, its method OPTIONS, its
  Content-Length) is a function of its bytes, and the length does not overflow when added to the header's; parsing
  headers and what is done with the body are not modelled.
- Cart.CartIsSimpleMap: quantities are integers, and the cart's note and the rest of the screen state are not modelled.
- Cart.DisplayedTotalIsClose: is over the reals; floating-point effects in the browser are not modelled.
- Orders that were voided take part in settlement, as in the code; statuses that voiding and refunds write to orders
  between payments are not modelled.
- CustomerService.CustomerAccount.PlaceOrder: takes the order's total and the money taken as given; items, stock,
  receipts and the order's own retry key are not modelled.
- Rounding of amounts with more than four decimals when they are stored.
- Time-zone lookup: a zone is its offset at each local midnight.
- Report columns other than revenue, refunds, cost and profit; margins in per cent; sorting, limits and names.
- Checkout, refund and void beyond their calls into the ledger; inventory, procurement, subscriptions, sessions,
  permissions, audit logging, event publishing and schemas.
