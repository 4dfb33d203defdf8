# Verified model of the store-credit ledger

Shops let neighbours buy on credit; this system keeps the books. The project models its ledger
engine (`TransactionsService`, customer merging and limits, the cash register), the locking
protocol under it, the subscription webhook, the debtors CSV and the statement page's two
columns, and proves what they promise. `dafny verify dfyconfig.toml` checks everything.

## How it is organised

| file | content |
|---|---|
| `Domain.dfy` | rows of the tables, requests with their DTO, replies |
| `Rounding.dfy` | the two rounding kernels: proration and surcharge |
| `Ledger.dfy`, `Till.dfy` | lookups, unique indexes, UPDATE statements and sums over rows |
| `Engine.dfy` | each service call as one atomic step on the tables; runs of such steps |
| `Invariants.dfy` | what every step keeps about the tables |
| `Outcomes.dfy` | what each operation means to its caller, and what a reversal undoes |
| `Effects.dfy` | what every request leaves and answers, column by column, stated without the engine's rules and with every constant written out; what payments do to the drawer |
| `Books.dfy` | balances against signed sums; two views of the books |
| `Cash.dfy`, `Clock.dfy` | the cash register: semaphore, summary, closed shifts, hours |
| `Retry.dfy`, `Tenancy.dfy` | repeated requests; tenant isolation |
| `Statement.dfy`, `Inflation.dfy` | the customer's statement page; the batch as its users see it |
| `Services.dfy` | the services as imperative methods on a database with a working copy, commit, rollback and an injected failure at any write, each proved to be the engine's step or nothing |
| `Sessions.dfy` | sessions interleaving statement by statement over row locks, unique keys and uncommitted writes at READ COMMITTED; at most once |
| `Serial.dfy`, `Progress.dfy` | serializability; deadlock freedom and termination |
| `Schedules.dfy` | refusals and retries in traffic; every serial service is an interleaving |
| `Reversals.dfy`, `ReversedOnce.dfy`, `Disturbances.dfy` | when an interleaving is serial, and which requests keep every interleaving serial, or every row reversed at most once |
| `Anomalies.dfy` | schedules that deadlock, reverse a row twice, or spoil a reversal |
| `Billing.dfy` | the subscription webhook, atomic and interleaved |
| `CsvExport.dfy` | the debtors stream and a reader for it |

The engine's step functions are total: a missing customer, a duplicate key or a value that does
not fit its 32-bit column is a reply, not a precondition. Random UUIDs, the clock and the
floating-point errors of the proration and of the batch are parameters carried by the request. Preconditions are
the DTO bounds, a random payment group that is not in the ledger yet, and, for the batch, that
its SELECT returns each customer of the tenant once.

A session of `Sessions.dfy` runs its request in the source's statements: validation and key
check, a reversal's unlocked read of its row, one row lock at a time (re-reading the row after the
wait), decision, one insert at a time (waiting on another session's uncommitted key, failing on a
committed one), commit, or a rollback at any moment. Opening and closing a shift are single steps
there. A reversal reads and tests its row before it takes its lock, so an interleaving is serial
exactly when each reversal that commits finds its row as it read it (`SerializableExactly`). Which
requests guarantee that under every schedule can be told beforehand, exactly: no session reverses the
row of another's reversal under a second key, merges away the row's customer, or closes the shift that
has yet to account for the row (`AlwaysSerialExactly`). A row is reversed at most once under every
schedule exactly when no two sessions reverse it under different keys (`ReversedAtMostOnceExactly`).
`Anomalies.dfy` shows what a merge, a shift closing or a second reversal in between does.

## Where the code and its documentation disagree

The model follows the code.

- Amounts are documented as always positive; a prorated row can be zero. Whether the
  cash row is depends on the error of the float product only at a tie (`CashRowIsPositiveExactly`).
  The transfer row takes what the rounding leaves and bears the error of the cash product, which
  beyond 2^50 square cents can cost the row some way above the tie too (`TransferRowIsPositiveExactly`,
  `TransferRowCanVanishOffTheTie`). Above the tie by the error, which a caller can check, both rows
  are positive (`ProratedRowsAreSurelyPositiveExactly`).
- REVERSAL is documented as decreasing the balance; reversing a payment increases it.
- `registerDebt` documents lock, then idempotency check; the code checks the key first.
- `payment_count` of the summary is documented as all payments; it counts the cash ones.
- `affected_customers` of the batch counts also the debtors whose surcharge rounds to zero.
- `getTxDirection` assumes the full history; the history endpoint pages by 20
  (`PageMisplacesExactly` says which rows then change side).
- The service does not refuse to reverse a REVERSAL row, although the page does not offer it. Such a
  row is always added to the balance, so reversing the reversal of a payment adds its amount to the
  debt a second time (`ReReversalRestoresExactly`).

## Model

| member | source | states |
|---|---|---|
| `Rounding.ProrateSplitsExactly` | backend/src/modules/transactions/transactions.service.ts:348-395 | Both rows of a prorated mixed payment are non-negative, at most what was offered, and add up to min(total, debt), whatever error below half a cent the float product carries; so the clamp at line 394 never fires |
| `Rounding.ProrateIsNearest` | backend/src/modules/transactions/transactions.service.ts:356-360 | With an exact product the cash row is within half a cent of its exact share |
| `Rounding.ProratedRowsArePositiveExactly` | backend/src/modules/transactions/entities/transaction.entity.ts:100-107 | The entity says amounts are always positive. While the error of the float product is too small to carry it across a tie, a prorated row is positive if and only if twice its part times the debt exceeds the total, or equals it and the error falls on its side |
| `Rounding.ProratedRowsAreSurelyPositiveExactly` | backend/src/modules/transactions/entities/transaction.entity.ts:100-107 | What a caller can check beforehand: both rows are positive for every error up to a bound if and only if both parts clear the tie by that bound |
| `Rounding.CashRowIsPositiveExactly` | backend/src/modules/transactions/transactions.service.ts:356-359 | For the relative error of two double operations and all amounts the DTO admits the cash row is positive if and only if it lies above the tie, or on it with the error not negative |
| `Rounding.TransferRowIsPositiveExactly` | backend/src/modules/transactions/transactions.service.ts:356-360 | For any relative error of the product the transfer row is positive if and only if it lies above the tie by more than that error makes of the cash product; so here the tie is not the only case in doubt |
| `Rounding.TransferRowCanVanishOffTheTie` | backend/src/modules/transactions/transactions.service.ts:356-360 | Two above the tie, 1999999999 + 1 over a debt of 1000000001: a product half a billionth too large, as the double one is, gives rows 1000000001 and 0 |
| `Rounding.SmallProductsKeepTheTie` | backend/src/modules/transactions/transactions.service.ts:356-359 | Below 2^50 square cents that error is too small to carry either row across a tie |
| `Rounding.TieGoesEitherWay` | backend/src/modules/transactions/transactions.service.ts:356-359 | On the tie 49 + 147 over a debt of 2 the exact product gives rows 1 and 1, any product that falls short, as the double one does, 0 and 2 |
| `Rounding.ProratedRowCanBeZero` | backend/src/modules/transactions/entities/transaction.entity.ts:100-107 | A concrete prorated payment whose cash row is zero |
| `Rounding.SurchargeIsNearest` | backend/src/modules/transactions/transactions.service.ts:714-718 | A surcharge is the rounded float product, within half a cent plus its error of the percentage |
| `Rounding.SurchargeIsPercentage` | backend/src/modules/transactions/transactions.service.ts:714-718 | A hundred times the surcharge is the balance times the percentage, within fifty and a hundred times the error of the product; it is that product rounded with halves up |
| `Rounding.SurchargePreservesOrder` | backend/src/modules/transactions/transactions.service.ts:714-737 | A larger debt is still the larger one after the surcharge |
| `Invariants.DecideIsSound` | backend/src/modules/transactions/transactions.service.ts:69-642 | A debt, payment, mixed payment or forgiveness writes one or two rows of its own tenant and customer, the first under the client key, whose signed amounts take the balance from old to new exactly and never below zero |
| `Invariants.ReverseShape` | backend/src/modules/transactions/transactions.service.ts:463-525 | A successful reversal marks one unreversed row of the tenant, appends one REVERSAL row pointing at it and moves that customer's balance by its amount, clamped at zero; nothing else changes |
| `Invariants.CloseShape` | backend/src/modules/cash-register/cash-register.service.ts:300-385 | A successful close is of the open shift the semaphore names, clears the semaphore, freezes the pending payments and changes nothing else |
| `Invariants.PostingKeepsInv` | backend/src/modules/transactions/transactions.service.ts:69-642 | The four postings keep all table invariants |
| `Invariants.ReverseKeepsInv` | backend/src/modules/transactions/transactions.service.ts:436-546 | Reversals keep them, the one-to-one link of reversed rows and REVERSAL rows included |
| `Invariants.InflateKeepsInv` | backend/src/modules/transactions/transactions.service.ts:656-779 | The batch keeps them |
| `Invariants.CreateKeepsInv` | backend/src/modules/customers/customers.service.ts:54-109 | Customer creation keeps them, client keys unique per tenant included |
| `Invariants.MergeKeepsInv` | backend/src/modules/customers/customers.service.ts:373-467 | A merge keeps them: reversal links still join rows of one customer, frozen rows stay frozen |
| `Invariants.OpenKeepsInv` | backend/src/modules/cash-register/cash-register.service.ts:78-145 | Opening a shift keeps the semaphore faithful |
| `Invariants.CloseKeepsInv` | backend/src/modules/cash-register/cash-register.service.ts:287-401 | Closing a shift keeps the semaphore faithful and every closed shift accounted for |
| `Invariants.RunKeepsInv` | backend/src/modules/transactions/transactions.service.ts:464-525 | In every reachable serial state: unique ids and keys, reversed rows and REVERSAL rows in one-to-one correspondence with equal amount and customer, payment groups within one tenant, rows owned by a customer of their tenant, balances in 0..2^31-1, one open shift named by the semaphore, closed shifts summing up |
| `Outcomes.PostsExactly` | backend/src/modules/transactions/transactions.service.ts:69-642 | A posting that reaches its decision is accepted if and only if, for a debt, the customer is active and stays within the limit, and otherwise there is debt; it leaves balance + amount, max(0, balance - offered), or 0, changes nothing else of the customers, and books exactly that difference in its rows; refused, it changes nothing |
| `Outcomes.MergeOutcome` | backend/src/modules/customers/customers.service.ts:433-462 | The primary keeps every column but owes what both owed under the higher limit, owns the rows of both and is returned as stored; the secondary keeps every column but is blocked and owes nothing; nobody else is touched |
| `Outcomes.ReversalUndoesPosting` | backend/src/modules/transactions/transactions.service.ts:507-521 | Reversing a debt, payment or forgiveness right after it restores the customers exactly |
| `Outcomes.ReReversalRestoresExactly` | backend/src/modules/transactions/transactions.service.ts:507-519 | Reversing a reversal restores the customers if and only if the amount is zero, or the original increased the debt and its reversal was not clamped |
| `Effects.AdmittedExactly` | backend/src/modules/transactions/dto/create-payment.dto.ts:28-110 | The amounts the DTO admit, exactly, with the bounds written out |
| `Effects.EarlyAnswers` | backend/src/modules/transactions/transactions.service.ts:284-339 | A mixed payment that does not add up, a key in the ledger, an unknown customer: what is answered before the decision, in this order, without a change |
| `Effects.MixedReplay` | backend/src/modules/transactions/transactions.service.ts:308-331 | A repeated mixed payment is answered with the cash row and the transfer row of its group, or the keyed row where one is missing |
| `Effects.DebtEffect` | backend/src/modules/transactions/transactions.service.ts:96-145 | Blocked, then over the limit; otherwise one DEBT row as asked and the balance raised by it, every other column given; only a used row id can stop it |
| `Effects.PaymentEffect` | backend/src/modules/transactions/transactions.service.ts:203-248 | Refused without a debt; otherwise one PAYMENT row of the smaller of amount and debt, in cash unless said otherwise, taken off the balance |
| `Effects.MixedEffect` | backend/src/modules/transactions/transactions.service.ts:336-400 | Refused without a debt; otherwise a cash and a transfer row of one group: as offered up to the debt, beyond it cash times debt over total rounded with halves up and the rest of the debt |
| `Effects.ForgivenessEffect` | backend/src/modules/transactions/transactions.service.ts:587-625 | Refused without a debt; otherwise one FORGIVENESS row of the whole debt, which becomes zero |
| `Effects.ReversalEffect` | backend/src/modules/transactions/transactions.service.ts:464-529 | The row is marked, a REVERSAL row of its amount is added, and the amount comes off the balance, not below zero, for a debt or a surcharge and is put on for anything else; a reversed row is refused |
| `Effects.ReversalEarlyAnswers` | backend/src/modules/transactions/transactions.service.ts:449-470 | A key in the ledger is answered with its row, a row of no or another tenant is refused |
| `Effects.LimitEffect` | backend/src/modules/customers/customers.service.ts:291-306 | The limit becomes the one asked for, also below the debt, and nothing else changes |
| `Effects.ToggleEffect` | backend/src/modules/customers/customers.service.ts:333-337 | The active flag flips and nothing else changes |
| `Effects.CreateEffect` | backend/src/modules/customers/customers.service.ts:54-109 | A known key returns its customer; then phone and DNI in use, if not empty, are refused; otherwise the customer is stored active, without debt, with the limit asked for or zero |
| `Effects.MergeEffect` | backend/src/modules/customers/customers.service.ts:373-467 | Every answer of a merge in the order of its checks, and every column of both customers and all rows after it |
| `Effects.OpenEffect` | backend/src/modules/cash-register/cash-register.service.ts:78-145 | One open shift at a time, with the cash declared or zero |
| `Effects.CloseEffect` | backend/src/modules/cash-register/cash-register.service.ts:315-385 | Expected is the opening cash plus the unsettled payments whose method is CASH or null; a difference needs a note; the shift keeps expected, actual, difference, note and status, and takes all unsettled payments, transfers too |
| `Effects.CloseRefused` | backend/src/modules/cash-register/cash-register.service.ts:300-313 | Without an open shift there is nothing to close |
| `Effects.SummaryEffect` | backend/src/modules/cash-register/cash-register.service.ts:160-219 | Every figure of the summary of an open shift, methods written out |
| `Effects.PaymentRaisesSummary` | backend/src/modules/cash-register/cash-register.service.ts:180-219 | While a shift is open a payment in cash or of no stated method raises expected by what it takes off the debt and the count by one; a transfer raises the transfers alone |
| `Effects.PaymentRaisesClose` | backend/src/modules/cash-register/cash-register.service.ts:330-357 | The expected cash of the next close rises by the same, by nothing for a transfer |
| `Effects.MixedRaisesSummary` | backend/src/modules/cash-register/cash-register.service.ts:180-219 | A mixed payment raises expected by its cash row, the count by one and the transfers by its transfer row |
| `Effects.ReversalLowersSummary` | backend/src/modules/cash-register/cash-register.service.ts:180-219 | Reversing a payment no shift has counted takes it out of the summary again |
| `Books.NewInstallationIsSound` | backend/src/database/migrations/1777000000000-InitialSchema.ts:13 | Tenants without customers, rows or shifts satisfy every table invariant, with balanced books: the reachable states start here |
| `Books.RunGrowsLedger` | backend/src/modules/transactions/transactions.service.ts:424-433 | The ledger is append-only: over any run each row only changes owner by a merge, becomes reversed for ever, or is frozen for ever into one shift |
| `Books.PostingBooks` | backend/src/modules/transactions/transactions.service.ts:129-143 | A posting moves every customer's balance and signed sum by the same amount |
| `Books.ReverseBooks` | backend/src/modules/transactions/transactions.service.ts:507-521 | A reversal moves them alike except for the cents the clamp swallows |
| `Books.InflateBooks` | backend/src/modules/transactions/transactions.service.ts:708-741 | The batch moves them alike for every customer |
| `Books.MergeBooks` | backend/src/modules/customers/customers.service.ts:433-457 | A merge adds up both sides, absorbed cents included, and leaves the secondary with none |
| `Books.StepBooks` | backend/src/modules/transactions/transactions.service.ts:507-521 | The exact effect of any request on balance minus signed sum, for every customer |
| `Books.Conservation` | backend/src/modules/transactions/transactions.service.ts:507-521 | After any run from balanced books each balance is the signed sum of the customer's rows (a REVERSAL signed by its original) plus the non-negative amount that clamped reversals swallowed, merges carrying both sides over |
| `Books.TwoViews` | backend/src/modules/transactions/transactions.service.ts:464-525 | After any run the full history of a customer sums to the live non-REVERSAL rows plus the amounts of reversed reversals |
| `Books.ViewsAgreeExactly` | backend/src/modules/transactions/transactions.service.ts:464-525 | History and live rows agree for a customer if and only if no reversal of a non-zero amount was itself reversed |
| `Cash.OpenShiftIsUnique` | backend/src/modules/cash-register/cash-register.service.ts:90-130 | Two open shifts of one tenant are the same shift |
| `Cash.SemaphoreAndStatusAgree` | backend/src/modules/cash-register/cash-register.service.ts:160-166 | The shift found by status is the one the semaphore names; there is one exactly when the semaphore is set |
| `Cash.SummaryForetellsClose` | backend/src/modules/cash-register/cash-register.service.ts:160-219 | The expected cash of the summary is what a close then records; expected minus opening plus transfers is the sum of all payments the close freezes; the count is the number of cash payments among them |
| `Cash.CloseCollects` | backend/src/modules/cash-register/cash-register.service.ts:330-381 | A close freezes exactly the due cash and the due transfers into the shift |
| `Cash.NoSummaryNoClose` | backend/src/modules/cash-register/cash-register.service.ts:168-177 | The summary shows no shift exactly when a close is refused for having none |
| `Cash.StepIsQuiet` | backend/src/modules/cash-register/cash-register.service.ts:370-381 | Only a close freezes rows: payments, reversals, merges, batches and openings touch no shift column |
| `Cash.ClosedForever` | backend/src/modules/cash-register/cash-register.service.ts:361-381 | Whatever is served later a closed shift keeps its record and exactly its rows, with their amounts, and expected = opening + its payments made in cash or in no stated way |
| `Cash.CountedOnce` | backend/src/modules/cash-register/cash-register.service.ts:331-347 | Summing frozen cash shift by shift or row by row gives the same: no payment is counted in two shifts |
| `Cash.DrawerReconciles` | backend/src/modules/cash-register/cash-register.service.ts:345-366 | Over any run, total actual = total opening + counted cash, each payment once, + total discrepancy |
| `Clock.RunKeepsTimely` | backend/src/modules/cash-register/cash-register.service.ts:328-381 | Under a clock that never runs backwards shifts of a tenant do not overlap and rows and shifts are never in the future |
| `Clock.ShiftCountsItsHours` | backend/src/modules/cash-register/cash-register.service.ts:331-343 | A closed shift holds only payments created after its opening, up to its close and not reversed before it, and all of those strictly inside |
| `Clock.ShiftCountsExactly` | backend/src/modules/cash-register/cash-register.service.ts:331-343 | Without a row at the very instant of the close, a shift holds a payment if and only if it was created in its hours and not reversed by its close |
| `Retry.RetryIsNoOp` | backend/src/modules/transactions/transactions.service.ts:83-94 | Repeating a successful keyed request after any traffic changes nothing and returns the original rows, both of a mixed payment, as they stand |
| `Retry.RetryOfBatch` | backend/src/modules/transactions/transactions.service.ts:677-693 | A repeated batch returns the stored count and total |
| `Retry.RetryOfCreate` | backend/src/modules/customers/customers.service.ts:64-71 | A repeated creation returns the same customer |
| `Retry.AnswerStable` | backend/src/modules/transactions/transactions.service.ts:308-331 | The rows a key and its payment group name stay the same rows as the ledger grows |
| `Retry.RetryInsertion` | backend/src/modules/transactions/transactions.service.ts:308-331 | Inserting a repeat anywhere later in the traffic leaves the final state unchanged |
| `Tenancy.GroupLookupCommutes` | backend/src/modules/transactions/transactions.service.ts:319-323 | The lookup by group, which has no tenant filter, finds the tenant's own rows, since groups stay within a tenant |
| `Tenancy.StepCommutes` | backend/src/modules/transactions/transactions.service.ts:836-851 | Serving a request and then looking at its tenant's rows equals looking first and serving then, for every request, reply included |
| `Tenancy.NonInterference` | backend/src/modules/transactions/transactions.service.ts:319-323 | Where two databases agree on a tenant's rows its requests get the same replies and leave the same rows |
| `Tenancy.StepLeavesOthers` | backend/src/modules/customers/customers.service.ts:434-441 | A request leaves every other tenant's rows as they were |
| `Tenancy.RunIsolation` | backend/src/modules/transactions/transactions.service.ts:817-825 | After any run a tenant sees what it would see had only its own requests been served on its own rows |
| `Statement.OriginalIsListed` | frontend/src/app/(app)/clientes/[id]/page.tsx:43-53 | The original of every REVERSAL of a customer is in that customer's full history, merges included |
| `Statement.StatementAgrees` | frontend/src/app/(app)/clientes/[id]/page.tsx:43-56 | On the full history Debe minus Haber is the signed sum the engine applied, reversals of reversals included |
| `Statement.StatementShowsBalance` | frontend/src/app/(app)/clientes/[id]/page.tsx:43-56 | From balanced books that difference is the cached balance less what clamps swallowed |
| `Statement.PageMisplacesExactly` | frontend/src/app/(app)/clientes/[id]/page.tsx:38-53 | On a part of the history a row changes side if and only if it is a reversal of a debt-increasing row that the part omits |
| `Inflation.BatchCharges` | backend/src/modules/transactions/transactions.service.ts:700-768 | With the float product the source computes, each debtor of the tenant owes the rounded product more, nobody else changes, and the returned total is the growth of all balances, the sum of the inserted rows, and within half a cent plus the product error per debtor of the exact percentage |
| `Inflation.BatchCountsDebtors` | backend/src/modules/transactions/transactions.service.ts:705-768 | The reported count is the number of the tenant's debtors, those whose surcharge rounds to zero included |
| `Inflation.BatchKeepsRanking` | backend/src/modules/transactions/transactions.service.ts:714-737 | No debtor overtakes another |
| `Inflation.BatchOrderIrrelevant` | backend/src/modules/transactions/transactions.service.ts:700-708 | The order in which the unordered SELECT returns the customers changes neither balances nor reply nor any customer's signed sum |
| `Inflation.BatchEffect` | backend/src/modules/transactions/transactions.service.ts:705-768 | In terms of the tables alone: each debtor owes the percentage more, to half a cent and the product error, no other column or customer changes, the returned total is the percentage of all debts together, to as much per debtor, and the figures are stored under the key |
| `Inflation.BatchRowsEffect` | backend/src/modules/transactions/transactions.service.ts:720-735 | One INFLATION_ADJUSTMENT row for each balance raised, of exactly the raise, under the id and key drawn for it, and no other row |
| `Inflation.BatchGoesThrough` | backend/src/modules/transactions/transactions.service.ts:656-768 | A batch under a new key is applied whenever what is drawn for its rows is new and every balance has room for the percentage |
| `Services.Database.StartTransaction` | backend/src/modules/transactions/transactions.service.ts:74-76 | A transaction starts from the committed tables |
| `Services.Database.Commit` | backend/src/modules/transactions/transactions.service.ts:145 | A commit publishes exactly what the transaction sees |
| `Services.Database.Rollback` | backend/src/modules/transactions/transactions.service.ts:153-154 | A rollback leaves the committed tables as they were |
| `Services.Database.SaveCustomer` | backend/src/modules/transactions/transactions.service.ts:141-143 | A save of a customer row succeeds exactly when its amounts fit their columns, unless a failure is injected |
| `Services.Database.SaveRow` | backend/src/modules/transactions/entities/transaction.entity.ts:41-42 | An insert succeeds exactly when the primary key, UNIQUE(tenant, key) and the column width allow it, unless a failure is injected |
| `Services.Database.RegisterDebt` | backend/src/modules/transactions/transactions.service.ts:69-163 | Serves a debt completely as the engine's atomic step, or, with an injected failure at any write, not at all |
| `Services.Database.RegisterPayment` | backend/src/modules/transactions/transactions.service.ts:180-266 | The same for a payment |
| `Services.Database.RegisterMixedPayment` | backend/src/modules/transactions/transactions.service.ts:284-417 | The same for a mixed payment and its three writes |
| `Services.Database.ReverseTransaction` | backend/src/modules/transactions/transactions.service.ts:436-546 | The same for a reversal and its three writes |
| `Services.Database.ForgiveDebt` | backend/src/modules/transactions/transactions.service.ts:564-642 | The same for a forgiveness |
| `Services.Database.SurchargeDebtors` | backend/src/modules/transactions/transactions.service.ts:705-741 | The loop leaves exactly the specified rows, balances and total, or fails exactly when the specification does |
| `Services.Database.ApplyInflationAdjustment` | backend/src/modules/transactions/transactions.service.ts:656-779 | The whole batch commits, or none of it |
| `Services.Database.CreateCustomer` | backend/src/modules/customers/customers.service.ts:54-109 | Creation with its idempotency and duplicate checks in the source's order |
| `Services.Database.UpdateCreditLimit` | backend/src/modules/customers/customers.service.ts:273-323 | The limit change, also below the current debt |
| `Services.Database.ToggleBlock` | backend/src/modules/customers/customers.service.ts:333-337 | Flips the active flag and nothing else |
| `Services.Database.MergeCustomers` | backend/src/modules/customers/customers.service.ts:373-467 | The merge and its three writes, all or nothing |
| `Services.Database.OpenTurn` | backend/src/modules/cash-register/cash-register.service.ts:78-145 | Opening a shift, all or nothing |
| `Services.Database.CloseTurn` | backend/src/modules/cash-register/cash-register.service.ts:287-401 | Closing a shift and its three writes, all or nothing |
| `Services.Database.GetActiveSummary` | backend/src/modules/cash-register/cash-register.service.ts:160-219 | The figures of the open shift found by status; the expected cash is what any close that succeeds now would record, and cash and transfers are what it would freeze |
| `Services.Database.Serve` | backend/src/modules/transactions/transactions.service.ts:153-162 | Any request is served completely or not at all, and every table invariant holds afterwards either way |
| `Sessions.StepKeepsCore` | backend/src/modules/transactions/transactions.service.ts:836-851 | Every statement of every session, in any interleaving, keeps row locks exclusive, rows read under a lock equal to the committed ones, and uncommitted keys unique |
| `Sessions.CommitClaimsKey` | backend/src/modules/transactions/entities/transaction.entity.ts:42 | A session that can commit under a key finds it free and puts it on file |
| `Sessions.AtMostOnce` | backend/src/modules/transactions/entities/idempotent-batch-operation.entity.ts:32 | In every interleaving at most one of all sessions under the same tenant and key commits its effect: debts, payments, mixed payments, forgivenesses and reversals against each other, and batches against batches |
| `Serial.PostingCommits` | backend/src/modules/transactions/transactions.service.ts:96-145 | What a posting publishes at commit is the engine's step on the tables of that moment |
| `Serial.MergeCommits` | backend/src/modules/customers/customers.service.ts:398-459 | The same for a merge: the rows its UPDATE found earlier are still all the rows of the secondary |
| `Serial.InflateCommits` | backend/src/modules/transactions/transactions.service.ts:700-758 | The same for a batch, computed from the rows it locked |
| `Serial.ReverseCommits` | backend/src/modules/transactions/transactions.service.ts:480-525 | The same for a reversal whose row is still as it read it |
| `Serial.StepIsApplyOrNothing` | backend/src/modules/transactions/transactions.service.ts:153-162 | A statement either completes its session, and then the whole session is one step of the engine, or leaves the committed tables alone; a committing reversal must find its row as it read it |
| `Serial.Serializable` | backend/src/modules/transactions/transactions.service.ts:836-851 | For any number of sessions and any interleaving in which every reversal that commits finds its row as it read it, aborts included, the committed tables and every reply are those of the committed requests served one by one in commit order |
| `Serial.InterleavingKeepsBooks` | backend/src/modules/customers/customers.service.ts:278-306 | Hence in the middle of any such interleaving all table invariants hold and no balance update is lost |
| `Serial.DebtWithinLimit` | backend/src/modules/transactions/transactions.service.ts:105-127 | A debt commits only for a customer active at that moment, on top of the balance of that moment, within the limit of that moment |
| `Schedules.RefusalIsTheEngines` | backend/src/modules/transactions/transactions.service.ts:96-127 | In any interleaving a session refused by a check, a lookup, its decision, a unique index or a column, while its key is not on file and what it read is current, is refused as the engine refuses the request at that moment, with the same error |
| `Schedules.SerialIsInterleaving` | backend/src/modules/transactions/transactions.service.ts:836-851 | The converse of serializability: any serial service is one of the interleavings, with every request ended, the same tables and the same replies, refusals included |
| `Schedules.RetryIsAnsweredAtOnce` | backend/src/modules/transactions/transactions.service.ts:83-94 | Whatever else is going on, a retry whose original has committed succeeds in its first statements with the row or figures on file, and changes nothing |
| `Reversals.ReversalIsSerialExactly` | backend/src/modules/transactions/transactions.service.ts:464-484 | In any interleaving a reversal commits as one atomic step if and only if the row it read before locking is still, at commit, the row it read |
| `Reversals.SerializableExactly` | backend/src/modules/transactions/transactions.service.ts:464-484 | Any interleaving of any requests is at every moment the serial service of the requests committed so far if and only if each reversal that commits in it finds its row as it read it |
| `ReversedOnce.ReversedAtMostOnce` | backend/src/modules/transactions/transactions.service.ts:472-477 | Where no two sessions reverse the same row under different keys, every interleaving, merges and closings included, keeps at most one REVERSAL row per row |
| `ReversedOnce.InvariantsSuffice` | backend/src/modules/transactions/transactions.service.ts:464-525 | Every state that satisfies the table invariants, hence every reachable serial one, is a starting point for these two |
| `ReversedOnce.ReversedAtMostOnceExactly` | backend/src/modules/transactions/transactions.service.ts:464-484 | Exactly then: if such a pair is there and due, some interleaving reverses the row twice |
| `Progress.WaitsAscend` | backend/src/modules/customers/customers.service.ts:390-419 | A session waits only for one that stands higher in the ranking: customer ids ascending, then keys |
| `Progress.NoWaitCycle` | backend/src/modules/customers/customers.service.ts:390-419 | No reachable wait-for graph has a cycle, crossed merges included |
| `Progress.SomeoneCanStep` | backend/src/modules/transactions/transactions.service.ts:836-851 | While a session is unfinished some unfinished session can take a step other than giving up |
| `Progress.StepsAreBounded` | backend/src/modules/transactions/transactions.service.ts:836-851 | Every interleaving takes at most a number of steps computed from the requests |
| `Disturbances.UndisturbedIsSerial` | backend/src/modules/transactions/transactions.service.ts:464-484 | Every interleaving is serial, whatever the schedule, where no other session reverses the row of a reversal under another key, merges away the customer that row belongs to, or closes the open shift that has yet to account for it |
| `Disturbances.AlwaysSerialExactly` | backend/src/modules/transactions/transactions.service.ts:464-525 | Exactly then: if such a session is there, and it and the reversal would each be served alone, some interleaving is not serial |
| `Anomalies.UnorderedBatchDeadlocks` | backend/src/modules/transactions/transactions.service.ts:699-703 | The condition on the batch is exact: if its SELECT returns two customers in descending order, a merge of the two can deadlock with it |
| `Anomalies.AnyRowCanBeReversedTwice` | backend/src/modules/transactions/transactions.service.ts:464-525 | "Reversed at most once" fails under interleaving for every row and beside any other sessions: two reversals with different keys can both commit |
| `Anomalies.ClosingSpoilsReversal` | backend/src/modules/transactions/transactions.service.ts:523-525 | Beside any other sessions, a shift closing between the read and the commit of a reversal: the payment the closed shift counted is taken out of it again |
| `Anomalies.MergeSpoilsReversal` | backend/src/modules/transactions/transactions.service.ts:479-525 | Beside any other sessions, a merge in between: the row goes back to the customer merged away, whose balance takes the reversal, while the absorbing customer keeps the debt |
| `Billing.BillingService.ProcessPayment` | backend/src/modules/billing/billing.service.ts:93-197 | A delivery is processed completely or, with a failed write, not at all. Processed, a new payment is recorded under the tenant that has its subscription, who becomes ACTIVE until thirty days after the stored expiry, or after today; no other account changes; recorded and unmapped payments change nothing |
| `Billing.SerialExtension` | backend/src/modules/billing/billing.service.ts:165-179 | The expiry is the stored one, or the day of the first payment of the tenant's subscription if null, plus 30 days per distinct credited payment; the status is then ACTIVE |
| `Billing.SerialRecords` | backend/src/modules/billing/billing.service.ts:137-188 | Every new payment is recorded under the tenant that one of its deliveries names by its subscription, and every delivery that names an existing tenant has its payment recorded |
| `Billing.CommitIsProcess` | backend/src/modules/billing/billing.service.ts:124-179 | Under the tenant lock a commit is the atomic step, whatever happened since the first check |
| `Billing.ExtensionPerPayment` | backend/src/modules/billing/billing.service.ts:101-188 | The same for any interleaving and duplication of deliveries; each payment is credited by one delivery only, to the tenant its subscription maps to, and a successful answer means it is recorded or its subscription unmapped |
| `Billing.SerialIsExecution` | backend/src/modules/billing/billing.service.ts:93-197 | Any deliveries can be processed one after the other, all answered with success, leaving the tables of the serial run |
| `Billing.OrderIrrelevant` | backend/src/modules/billing/billing.service.ts:165-179 | With a stored expiry the order of the payments does not matter |
| `CsvExport.CreateDebtorsStream` | backend/src/modules/dashboard/export.service.ts:30-94 | The chunks emitted are the BOM with the header and one row per customer with a positive balance, in query order; a reader recovers the seven headings and from each row name, phone, DNI, debt, limit, Activo or Bloqueado, and the promised date |
| `CsvExport.ReadEscaped` | backend/src/modules/dashboard/export.service.ts:101-106 | A reader recovers any text from its escaped form |
| `CsvExport.CsvRoundTrip` | backend/src/modules/dashboard/export.service.ts:44-84 | From the whole text emitted for any customers, byte order mark included, a reader after section 2 of RFC 4180 (LF ends a record) recovers the header and every rendered field of every debtor |
| `CsvExport.CentsInverted` | backend/src/modules/dashboard/export.service.ts:115-119 | The rendered amount is inverted exactly for all non-negative cents |
| `CsvExport.RecordsTellDebts` | backend/src/modules/dashboard/export.service.ts:67-84 | One record per debtor, in query order, with every column given: absent values empty, amounts reading back as the cents, Activo exactly if active |
| `CsvExport.QuotedExactly` | backend/src/modules/dashboard/export.service.ts:101-106 | Text is quoted exactly where it holds a comma, a quote or a line break |

## Left out

- `updateCustomer`, `updatePromise`, `findAllByTenant`, `exportCsv`: they touch no column that a modelled rule reads, or only print.
- Descriptions, names, acting users, `user_id`, audit logs: no modelled rule depends on them.
- `is_overdue`, the overdue and subscription crons, guards, settings, users, authentication, signature verification: single-branch rules or library calls.
- `lock_timeout`: a nondeterministic abort of a waiting or writing session.
- `createCustomer` and `toggleBlock` in interleavings: they take no lock; they are in the serial model only.
- Opening and closing a shift are atomic in interleavings; the tenant lock inside them is not modelled.
- Row locks on ledger rows taken by a merge's or a reversal's UPDATE are not modelled: with closing as one step, more interleavings are considered for safety than the database allows. The ORM reloads a reversal's row when it saves it and writes only the columns that then differ; the model writes the columns as read. The two agree on whatever is committed by then. A closing whose UPDATE of that row is still uncommitted at the reload would leave the row in its shift, reversed, an outcome of the serial service that the model does not contain.
- Progress.NoWaitCycle: customer rows and keys are the only resources. Locks on ledger rows (a merge's UPDATE against a closing's UPDATE of the same payments, a reversal's UPDATE of its row) and the foreign-key locks that inserts take on the tenant row are not in the graph, so deadlocks through them are not excluded. Batches are covered when their SELECT returns ascending ids; it has no ORDER BY, and `UnorderedBatchDeadlocks` shows the condition is needed. Random draws are taken to be distinct.
- Disturbances.AlwaysSerialExactly: that a disturbing session does break the order is shown where it and the reversal would each be served alone and, for two reversals, where the balance has room for the amount twice. For a reversal of a row that is not in the tables at the start every merge or closing of the tenant counts as disturbing. Shifts opened meanwhile are stamped no earlier than the rows of the start.
- ReversedOnce.ReversedAtMostOnceExactly: that the pair does double the row is shown where both reversals are due: the row is there and not reversed, the keys are new, and the balance has room for the amount twice.
- Inflation.BatchCharges: the float product is a parameter of the batch: off by less than half a cent and monotone in the balance, as double multiplication and division are for the balances a column holds.
- Clock.ShiftCountsItsHours: rows stamped at the very instant of a close may fall on either side.
- Billing.ExtensionPerPayment: days are calendar days; a daylight-saving change inside a period does not move them. A subscription id resolves to one tenant.
- CsvExport.CsvRoundTrip: the ISO rendering of the promise date is a library call; its text is taken to be digits and dashes. Back-pressure and a failing query are not modelled.
- Connection pooling, HTTP, and the React page around `getTxDirection` are not modelled.
