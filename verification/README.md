# Nexus EFOS money engine: a Dafny verification project

This project models the money engine of the Nexus EFOS API (a microfinance back office written in TypeScript over
Prisma) and proves properties of the model. It covers the arithmetic and the protocols that decide what money the
system believes exists:

- **Loans**: annuity and flat schedules, the in-place oldest-first repayment allocator, loan closure, migration of
  repayment histories, arrears.
- **The double-entry ledger**: journals from every posting path, stored balances updated line by line, and the reports
  that recompute everything from posted lines (trial balance, balance sheet, dashboard, changes in equity, account
  activity, cash flow).
- **The institution as a state machine**: approval requests read outside a transaction and claimed inside it, journal
  posting, cash transfers, vault entries, disbursements, customer, recurring, depreciation and payroll postings, in every
  order and interleaving.
- **Claim protocols**: idempotency keys, the scheduler's per-day claim, refresh-token rotation with reuse detection.
- **Calendar ranges, depreciation runs, concentration metrics, the trend forecast, customer merge and rollback.**

`dafny verify dfyconfig.toml` checks the whole project.

## Conventions

- **Money** is a whole number of cents, the scale of the database's `DECIMAL(14,2)` columns; an amount that has not been
  rounded is a `real` number of cents. `round2` is therefore rounding to a whole cent, halves upwards, as `Math.round`
  does, and is the identity on sums of stored amounts. The tolerance 0.005 is "less than one cent", 0.01 is one cent.
- **Time values** are milliseconds as in section 21.4.1 of ECMA-262, local time taken as UTC. `setDate`, `setMonth` and
  `setFullYear` roll over as the standard says, and the `Date` constructor reads years 0 to 99 as 1900 to 1999.
- **Identifiers** (accounts, journals, users, tokens, customers, keys) are row numbers. Tokens, hashes and replies are
  opaque distinct values.
- **Form.** What the source does by updating objects step by step is a class or a method with a loop
  (`Installment`, `Loan`, `Store`, `Middleware`, `Scheduler`, `RecurringJournal`, `TokenTable`, `AssetRecord`,
  `CustomerStore`), proved equal to a specification function; the theorems are lemmas about that function. What the source writes as expressions stays
  a function.
- **Atomicity.** A committed transaction is one step; `Store.CommitResolution` shows the claim, the effect, the audit
  evidence and the rollback inside it. What a handler checks before its transaction (the period, a vault's status, the
  overlap of periods, a request's or a draft's status, the balance of a transfer's source) is a step of its own, ADMIT or
  READ, and what it writes another, so any number of other steps may come between; so it is for jobs that execute
  recurring journals, for refreshes of tokens and for depreciation calls. Guards inside the write, such as the covered
  decrement of a vault or a unique label, are part of the write. Methods that run a whole handler say that nobody comes
  between.

## Map

| file | source |
|---|---|
| Money, Calendar, Wrappers | rounding, ECMA-262 dates, option and result |
| LoanSchedule, RepaymentAllocation, LoanRepayment, ScheduleClosure, Arrears | lib/loanSchedule.ts, lib/loanRepayment.ts, lib/arrears.ts |
| GeneralLedger, LedgerReports, CashFlowStatement, TrendForecast | lib/generalLedger.ts, routes/generalLedger.routes.ts, lib/cashFlowStatement.ts |
| AccountingEntries, LedgerBooks | lib/payrollAccounting.ts, lib/assetAccounting.ts, posting in all routes |
| CashDesk, Handlers, Approvals, Effects, Institution, Postings, StalePosting, Races, InstitutionStore | routes/cashVault.routes.ts, routes/approvals.routes.ts, routes/generalLedger.routes.ts, routes/loan.routes.ts, lib/scheduler.ts |
| Idempotency, JobClaims, RecurringJournals, RefreshTokens | middleware/idempotency.ts, lib/scheduler.ts, routes/auth.routes.ts |
| ReportRanges, StandingInstructions | lib/reportRanges.ts, lib/standingInstructions.ts |
| AssetDepreciation, Concentration, Exposures, CustomerMerge | lib/assetDepreciation.ts, routes/asset.routes.ts, routes/capitalAdequacy.routes.ts, lib/customerMerge.ts |

## What turned out false, and exactly when it is true

- **Stored balances equal replayed history** fails when request-posting's write no longer fits what it read:
  `StalePosting.ARunThatDrifts` is a run from an empty institution that ends with the two apart, and
  `StalePostingBreaksReplay` gives one for every postable draft in every state. `Institution.StoredBalancesAreReplayed`
  proves the equality for all runs whose posting writes find the journal not posted and nothing waiting for it. That guard
  is exact, for one write (`Approvals.SubmitPostingIsCleanWhen`) and over any run (`Institution.CleanThroughoutWhen`), and
  `Institution.StoredBalancesInAnyRun` gives the exact difference in every run.
- **Financial periods never overlap** fails when two periods are checked before either is written
  (`Races.PeriodsCanOverlap`). Over any run they stay apart if and only if every period is written while its check still
  holds (`Institution.PeriodsStayApartWhen`).
- **A recurring journal posts each due date once** fails when two jobs, such as the daily one and the manual trigger, read
  it before either moves it on (`RecurringJournals.OverlappingJobsPostTwice`). The guard that the update of the record does
  not make is that a posting finds the date it read still the next one. With it no date is posted twice as long as every
  reactivation comes after everything posted (`FittingRunsPostOnce`); a reactivation at a date already posted repeats it
  (`EarlyReactivationPostsTwice`). The guard is exact, if and only if, over all runs without a reactivation
  (`WithoutReactivation`), and over all runs whose reactivations come so late and find no job still running on a date it
  has not posted (`DueDatesPostedOnceWhen`); `HeldOverReactivation` shows why such jobs matter.
- **An active recurring journal is below its failure limit** in every state if and only if every approval of its
  activation finds the count below it (`RecurringJournals.ActiveBelowLimitWhen`): the approval writes the status alone.
  `LateApprovalIsAtLimit` is a run in which it is not.
- **A refresh token family has one live token** fails when two refreshes read a token before either writes
  (`RefreshTokens.OverlappingRefreshesFork`). Over any run every family is a single chain if and only if every rotation
  finds its token not yet replaced (`FamiliesAreChainsWhen`).
- **A detected reuse ends the family** fails for a refresh that had read its token before (`RefreshSurvivesReuse`). The
  family stays dead for the rest of a run if and only if no such refresh is written after (`ReuseKillsFamilyWhen`).
- **Depreciation calls post the iteration month by month** fails when two of them overlap
  (`AssetDepreciation.OverlappingCallsLoseAMonth`). The register is the iteration if and only if every entry is written
  while there are as many as its call counted (`RegisterFollowsWhen`), and the ledger agrees with the register if and only
  if every write is, the refused ones included (`LedgerAgreesWhen`).
- **The loan closes exactly from the total due less one cent on** holds for all totals if and only if the schedule is
  exact (`RepaymentAllocation.ClosureCondition`, for amounts of any sign). `ClosesTwoCentsEarly` is a schedule that is not,
  and a row that asks for nothing never lets the loan close (`NeverCloses`). Loans whose smallest principal part is at
  least a cent and a half are exact (`ScheduleClosure.GeneratedLoanClosesOnTime`).
- **The month-based ranges tile time** if and only if today lies neither in the years 0 to 99, which the `Date`
  constructor misreads, nor in the unit next to them (`ReportRanges.UnitsTile`; `YearFiftyIsMisread` is an input).
- **The balance sheet balances** if and only if total expenses are zero (`LedgerReports.BalanceSheetGap`;
  `OneExpenseUnbalances` is an input): it adds expenses to income, although its comment says net income is folded in. The
  dashboard subtracts them and balances. The statement of changes in equity does the same: its net income is income less
  expenses if and only if the period's expenses are zero (`LedgerReports.ChangesInEquityMeans`).
- **The even split of a migrated balance ends in a non-negative installment** exactly as `LoanSchedule.LastRemaining`
  says.
- **A depreciation run reaches the residual value** unless a month rounds to nothing while value remains; the route then
  refuses that month for ever. Straight line: `AssetDepreciation.StraightLineStuckWhen`. Reducing balance, over every
  useful life: exactly when a month of the residual value and one cent is worth half a cent
  (`ReducingBalanceReachesResidualWhen`), so never without a residual value, as rates are at most 100. For a given life:
  `StuckWhenLastOrdinaryMonthIsZero`. `FiveCentsOverAYear` and `TwentyPerCentGetsStuck` are inputs.
- **Merge then rollback restores both customers** if and only if the merged customer was not already merged
  (`CustomerMerge.RollbackUndoesMerge`); references are restored always. `Races.BothMergesApproved` is a run in which one
  customer is merged twice, and `SecondMergeCannotBeUndone` shows what is lost.
- **HHI ranges from 0**, says the comment in the concentration handler; it ranges from 1/n (`Concentration.HhiBounds`).

## Model

| member | source | states |
|---|---|---|
| Calendar.MonthLength | api/src/lib/reportRanges.ts:38-48 | Every calendar month has 28 to 31 days, across year ends too. |
| Calendar.MonthOfDayUnique | api/src/lib/reportRanges.ts:38-48 | A day lies in exactly one month. |
| Calendar.AddMonthsIncreasing | api/src/lib/reportRanges.ts:47 | Moving a date by more months gives a strictly later date, day overflow included. |
| Calendar.AddMonthsToFirst | api/src/lib/reportRanges.ts:47 | From the first of a month nothing rolls over. |
| Calendar.AddMonthsLands | api/src/lib/reportRanges.ts:47 | Moving by months lands on the same day of the target month when it has one, otherwise on the excess day of the month after, at the same time of day. |
| Calendar.MonthLengths | api/src/lib/reportRanges.ts:38-45 | The civil calendar: 31, 30 and 28 or 29 days, with the leap-year rule written out. |
| Calendar.EpochIsThursday | api/src/lib/reportRanges.ts:36 | Its anchor: time value 0 is Thursday, 1 January 1970. |
| StandingInstructions.NextExecutionDate | api/src/lib/standingInstructions.ts:21-34 | The switch on the local copy returns a later day at the same time of day, for every frequency. |
| StandingInstructions.NextDateAdvances | api/src/lib/standingInstructions.ts:21-34 | The next date is at least one whole day later, at the same time of day. |
| StandingInstructions.MonthRollover | api/src/lib/standingInstructions.ts:5-12 | The same day in the target month when it exists, otherwise as many days into the next month as the day overshoots. |
| StandingInstructions.DayPeriods | api/src/lib/standingInstructions.ts:24-31 | The other frequencies move by exactly their number of days; a missing or non-positive custom interval counts as one. |
| ReportRanges.UnitsTile | api/src/lib/reportRanges.ts:57-77 | For months, quarters, half-years and years: LAST, THIS and NEXT tile time with THIS containing now, if and only if now lies neither in the years 0 to 99 nor in a unit next to them. |
| ReportRanges.YearFiftyIsMisread | api/src/lib/reportRanges.ts:44 | The failing input: in the year 50, THIS_YEAR is 1950. |
| ReportRanges.WeeksTile | api/src/lib/reportRanges.ts:36-37 | Last, this and next week tile time with this week containing now, for every date. |
| ReportRanges.UnitsNest | api/src/lib/reportRanges.ts:38-45 | A month lies within its quarter, a quarter within its half-year, a half-year within its year. |
| ReportRanges.RangesAreOrdered | api/src/lib/reportRanges.ts:52-95 | Every range but CUSTOM has from at most to; CUSTOM has exactly when its days are in order. |
| ReportRanges.RollingWindowsContainNow | api/src/lib/reportRanges.ts:78-90 | A rolling window contains now, has today as one whole end, and reaches another day on the other side. |
| ReportRanges.WindowsAhead | api/src/lib/reportRanges.ts:81-85 | The windows ahead end one week, 1, 3, 6 and 12 months from today, to the day. |
| ReportRanges.WindowsBack | api/src/lib/reportRanges.ts:86-90 | The windows back start as far before today. |
| ReportRanges.DaysTile | api/src/lib/reportRanges.ts:55-72 | Yesterday, today and tomorrow are three whole days in a row with now in the middle one. |
| ReportRanges.ToEndMeans | api/src/lib/reportRanges.ts:62-66 | A range to the end starts today and ends where the week, month, quarter, half-year or year does. |
| ReportRanges.UnitsStartWith | api/src/lib/reportRanges.ts:38-45 | Quarters start with January, April, July or October, half-years with January or July, years with January, all on the first at midnight. |
| LoanSchedule.AnnuityClearsLoan | api/src/lib/loanSchedule.ts:22-39 | The annuity drives the balance to exactly zero, so the last-row override changes nothing. |
| LoanSchedule.AnnuityRows | api/src/lib/loanSchedule.ts:30-38 | Every row totals the same payment, interest never rises, principal never falls and is never negative. |
| LoanSchedule.GenerateSchedule | api/src/lib/loanSchedule.ts:13-58 | Both methods produce the specified row for every month of the term. |
| LoanSchedule.ReducingBalanceRows | api/src/lib/loanSchedule.ts:22-39 | The loop with its running balance and override yields the uncorrected annuity rows, rounded. |
| LoanSchedule.FlatRows | api/src/lib/loanSchedule.ts:40-55 | The flat loop yields equal rounded parts. |
| LoanSchedule.PrincipalWithinHalfCentPerRow | api/src/lib/loanSchedule.ts:22-58 | Under either method the rounded principal parts are within n/2 cents of the loan. |
| LoanSchedule.FlatInterestMeans | api/src/lib/loanSchedule.ts:40-55 | Flat interest totals simple interest on the whole principal over the term, within n/2 cents; over twelve months the annual rate on it, within six cents. |
| LoanSchedule.ReducingInterestMeans | api/src/lib/loanSchedule.ts:22-39 | Each reducing-balance row asks for one month of simple interest on what the earlier rows have left of the principal. |
| LoanSchedule.RowNumberAndDate | api/src/lib/loanSchedule.ts:36-37 | Row i is numbered i and falls due i months after the start, rolling over short months. |
| LoanSchedule.DueDatesIncrease | api/src/lib/loanSchedule.ts:36-37 | Due dates strictly increase and follow the start date. |
| LoanSchedule.GenerateRemainingSchedule | api/src/lib/loanSchedule.ts:69-91 | Principal and interest total exactly what is outstanding; all rows but the last are even, the last is within n/2 cents of even. |
| LoanSchedule.LastRemaining | api/src/lib/loanSchedule.ts:85-88 | Exactly when the last row is not negative, and an input for which it is. |
| RepaymentAllocation.AllocateRepayment | api/src/lib/loanSchedule.ts:114-148 | The loop over mutable installments leaves exactly the specified states and lists exactly the installments that changed. |
| RepaymentAllocation.PayInstallment | api/src/lib/loanSchedule.ts:120-144 | One turn of the loop: what one installment takes, how it is marked, what remains. |
| RepaymentAllocation.PayMeans | api/src/lib/loanSchedule.ts:124-133 | Interest is served first, principal only beyond it, and what is paid is no longer outstanding. |
| RepaymentAllocation.AllocateTwice | api/src/lib/loanSchedule.ts:109-148 | Allocating a and then b leaves the same amounts and statuses as allocating a + b. |
| RepaymentAllocation.ReplayIsOneAllocation | api/src/lib/loanSchedule.ts:109-148 | Replaying any history of repayments is one allocation of their sum. |
| RepaymentAllocation.PaidTotalRises | api/src/lib/loanSchedule.ts:114-148 | The paid total rises by the smaller of the amount and what can still be absorbed; nothing paid is ever taken back. |
| RepaymentAllocation.AllocateIsWaterfall | api/src/lib/loanSchedule.ts:109-148 | On a fresh schedule each installment depends only on the total paid and on what falls due before it. |
| RepaymentAllocation.RepaidShape | api/src/lib/loanSchedule.ts:109-148 | A settled prefix, at most one partial installment, an untouched suffix; principal paid only where interest is full. |
| RepaymentAllocation.ClosureCondition | api/src/lib/loanSchedule.ts:137-138 | Closing exactly from total due less one cent on holds for all totals if and only if the schedule is exact, for amounts of any sign. |
| RepaymentAllocation.ClosesFrom | api/src/lib/loanRepayment.ts:43-44 | Any new schedule closes from one computable total on if every row asks for something, and otherwise never. |
| RepaymentAllocation.NeverCloses | api/src/lib/loanSchedule.ts:85-88 | A row that asks for nothing, such as a negative last row, is never PAID, so the loan never closes. |
| RepaymentAllocation.TwoCentsOfPrincipalSuffice | api/src/lib/loanSchedule.ts:137-138 | With two cents of principal in every installment the loan closes on time. |
| RepaymentAllocation.ClosesTwoCentsEarly | api/src/lib/loanSchedule.ts:137-138 | A schedule that closes with two of six cents unpaid. |
| LoanRepayment.Loan.ApplyLoanRepayment | api/src/lib/loanRepayment.ts:17-53 | The rows become the allocation of the amount, the repayment is recorded, and the status follows whether all rows are PAID. |
| LoanRepayment.UpdatesPersistAllocation | api/src/lib/loanRepayment.ts:36-41 | Writing the reported changes by id stores exactly what the allocation left in memory. |
| LoanRepayment.MigrateHistory | api/src/routes/migration.routes.ts:1134-1150 | The import loop ends in the state a live run of the same repayments ends in. |
| LoanRepayment.MigrationAgreesWithLive | api/src/routes/migration.routes.ts:1134-1150 | Live repayments one by one and one final settlement give the same rows and status, those of one allocation of the sum. |
| LoanRepayment.LoanClosesOnTime | api/src/lib/loanRepayment.ts:43-50 | On an exact schedule a run of repayments leaves the loan CLOSED if and only if they total at least the total due less one cent. |
| ScheduleClosure.GeneratedLoanClosesOnTime | api/src/lib/loanSchedule.ts:13-58 | A generated schedule whose smallest principal part is at least a cent and a half is exact, and any run of repayments closes the loan exactly from total due less one cent on. |
| LoanRepayment.ClosedStaysClosed | api/src/lib/loanRepayment.ts:43-50 | Once every installment is PAID, further repayments keep it so. |
| Arrears.ArrearsReading | api/src/lib/arrears.ts:29-48 | Days come from the oldest overdue installment, the amount is the sum of shortfalls, the class follows the days. |
| Arrears.LoanArrears | api/src/lib/arrears.ts:29-48 | The amount in arrears of a loan is what its rows past due are short, interest and principal together. |
| Arrears.RepaymentNeverWorsensArrears | api/src/lib/arrears.ts:29-48 | A repayment never increases days or amount in arrears nor worsens the class. |
| Arrears.ArrearsNeverFall | api/src/lib/arrears.ts:29-48 | Without repayments arrears never fall as the date advances. |
| GeneralLedger.AggregateBalancesAsOf | api/src/lib/generalLedger.ts:65-72 | The Map loop holds for each account the sum of its lines' effects, each account once. |
| GeneralLedger.AggregateIsAccountSum | api/src/lib/generalLedger.ts:65-72 | The entry of an account is the sum of the effects of its lines. |
| GeneralLedger.CategoryTotalIsSum | api/src/lib/generalLedger.ts:65-72 | Adding balances by category is adding lines by category. |
| GeneralLedger.CategoriesPartition | api/src/lib/generalLedger.ts:24-32 | Assets plus expenses less liabilities, equity and income is debits less credits, for any lines. |
| GeneralLedger.PostedUpToBalanced | api/src/routes/generalLedger.routes.ts:290-295 | On any date the debits and credits posted so far are equal. |
| GeneralLedger.PostedLinesMean | api/src/routes/generalLedger.routes.ts:290-302 | History is read journal by journal: a posted one counts from its own date on, any other never. |
| GeneralLedger.PeriodTelescopes | api/src/routes/generalLedger.routes.ts:290-302 | History up to a date is history before a period plus the period, for every quantity over lines. |
| LedgerReports.TrialBalanceBalances | api/src/routes/generalLedger.routes.ts:315-344 | The two columns are equal for every posted history and date. |
| LedgerReports.TrialBalanceColumns | api/src/routes/generalLedger.routes.ts:328-341 | The columns differ by exactly what the lines' debits and credits differ, flipped negative balances included. |
| LedgerReports.TrialBalanceRows | api/src/routes/generalLedger.routes.ts:321-338 | No negative number, one side per row, one row per account, and debit less credit is the account's net. |
| LedgerReports.UnlistedAccountsAreZero | api/src/routes/generalLedger.routes.ts:315-345 | An account without a row has equal debits and credits. |
| LedgerReports.BuildDashboard | api/src/routes/generalLedger.routes.ts:545-565 | The loop over balances computes the totals by category. |
| LedgerReports.AccountingEquation | api/src/routes/generalLedger.routes.ts:545-565 | For any lines, assets less liabilities and equity (net income folded in) is debits less credits. |
| LedgerReports.DashboardBalances | api/src/routes/generalLedger.routes.ts:545-565 | On every date the dashboard's assets equal liabilities plus equity. |
| LedgerReports.BalanceSheetGap | api/src/routes/generalLedger.routes.ts:365-378 | Liabilities plus equity exceed assets by exactly twice total expenses; balanced if and only if those are zero. |
| LedgerReports.BalanceSheetMeans | api/src/routes/generalLedger.routes.ts:349-379 | Every amount of the balance sheet from debits and credits by category alone; its net income adds expenses. |
| LedgerReports.OneExpenseUnbalances | api/src/routes/generalLedger.routes.ts:369-378 | One balanced journal with an expense makes the balance sheet report itself unbalanced. |
| LedgerReports.ChangesInEquityReconcile | api/src/routes/generalLedger.routes.ts:409-442 | Opening equity plus movement plus period income equals the independently computed closing equity. |
| LedgerReports.ChangesInEquityMeans | api/src/routes/generalLedger.routes.ts:431-438 | Every amount of the statement from debits and credits by category alone; its closing equity is the balance sheet's, and its net income is income less expenses if and only if the period has no net expenses. |
| LedgerReports.AccountActivity | api/src/routes/generalLedger.routes.ts:464-491 | In the order of posting dates each running balance is the opening one plus the lines so far, and the last one is the account's as-of aggregate. |
| LedgerReports.ByDateTotal | api/src/routes/generalLedger.routes.ts:475-479 | Ordering the journals by date changes nothing about what a period adds up to. |
| CashFlowStatement.BuildCashFlowStatement | api/src/lib/cashFlowStatement.ts:26-48 | The three activities are the sums of their accounts' cash effects, and reconciles means a gap under two cents. |
| CashFlowStatement.CashFlowReconciles | api/src/routes/generalLedger.routes.ts:607-626 | For balanced history, any tagging and liquid accounts that are assets, net change plus the effects of omitted accounts is closing less opening cash. |
| CashFlowStatement.CashFlowGap | api/src/lib/cashFlowStatement.ts:21-48 | Without the assumption on liquid accounts, each credit-normal one is off by twice its change. |
| TrendForecast.DenominatorPositive | api/src/lib/generalLedger.ts:96-97 | With two points or more the denominator is n²(n²-1)/12, so its zero guard never fires. |
| TrendForecast.NormalEquations | api/src/lib/generalLedger.ts:88-98 | The residuals of the fitted line cancel, plain and weighted by position. |
| TrendForecast.FitIsLeastSquares | api/src/lib/generalLedger.ts:81-101 | No other line has a squared error as small. |
| TrendForecast.ForecastContinuesLine | api/src/lib/generalLedger.ts:88-101 | Amounts that lie on a line are continued exactly: its step, its start, its next amount. |
| TrendForecast.ForecastIsOnTheFit | api/src/lib/generalLedger.ts:98-100 | The forecast is within half a cent of the fitted line. |
| AccountingEntries.PayrollAccrualBalances | api/src/lib/payrollAccounting.ts:44-57 | The accrual balances if and only if net is gross less the three deductions and something is paid. |
| AccountingEntries.DisposalBalances | api/src/lib/assetAccounting.ts:38-60 | A disposal balances whichever side gain or loss falls on. |
| Postings.PayrollAccrualMeans | api/src/lib/payrollAccounting.ts:44-57 | On eight different accounts, each receives exactly its own part of the accrual, on its own side. |
| Postings.DisposalMeans | api/src/lib/assetAccounting.ts:38-60 | Cost and accumulated depreciation are removed, proceeds taken in, and exactly one of gain and loss booked. |
| Postings.InterBranchMeans | api/src/routes/approvals.routes.ts:222-242 | The source's account pays, the destination's receives, the settlement accounts owe each other; balanced exactly for a positive amount. |
| Postings.TwoLinesMean | api/src/lib/assetAccounting.ts:21-26 | One account is debited and the other credited with the amount. |
| Postings.PostingMoves | api/src/lib/generalLedger.ts:24-32 | A posting changes each stored balance by what lands on the account, seen from its normal side. |
| LedgerBooks.ApplyLinesAdds | api/src/routes/approvals.routes.ts:202-205 | Line-by-line increments change only balances, each by the sum of its account's effects. |
| LedgerBooks.StoredIsReplayedPlusDrift | api/src/routes/approvals.routes.ts:182-210 | A stored balance is the replayed one plus the effects of journals applied more or less often than their status says. |
| LedgerBooks.PostedOnceMeansReplayed | api/src/routes/approvals.routes.ts:182-210 | When each journal was applied exactly as its status says, stored balances equal replayed history. |
| LedgerBooks.PostExistingKeeps | api/src/routes/approvals.routes.ts:182-210 | Posting a waiting journal keeps every balance explained. |
| LedgerBooks.PostIfPresentKeeps | api/src/lib/scheduler.ts:214-225 | An automatic posting of equal sides keeps every balance explained, whatever has changed since it was decided. |
| Handlers.AdmittedIsSound | api/src/routes/cashVault.routes.ts:109-156 | What a handler's checks admit stays balanced and positive however long its write waits. |
| Handlers.PerformKeeps | api/src/routes/cashVault.routes.ts:168-200 | Every write of such a handler keeps books and cash in order, on checks however stale. |
| Effects.AdmitsMeans | api/src/routes/generalLedger.routes.ts:150-205 | Each handler goes on to write exactly when it finds what is written out here: an open period that is the first to cover the date, existing and active accounts, equal positive sides, an open vault, no period in the way, the right status. |
| Effects.PerformMeans | api/src/routes/loan.routes.ts:355-505 | What each write does, in balances, dates and statuses alone: which account is debited and which credited, which vault pays, which status is set, and that nothing else changes. |
| CashDesk.MoveKeeps | api/src/routes/cashVault.routes.ts:168-186 | A movement that is covered keeps balances, running balances and non-negativity. |
| CashDesk.TransferKeeps | api/src/routes/approvals.routes.ts:138-169 | An approved transfer keeps them for both holders. |
| CashDesk.TransferConserves | api/src/routes/approvals.routes.ts:138-169 | An approved transfer leaves total cash unchanged. |
| Postings.TransferMeans | api/src/routes/approvals.routes.ts:152-164 | A covered transfer moves the amount between its two holders, touches no other, and records both sides; an uncovered one does nothing. |
| Postings.VaultAndLedgerMoveTogether | api/src/routes/cashVault.routes.ts:140-200 | A bank entry that is written moves the vault, its cash account and, oppositely, the bank account by one amount, on checks however stale. |
| Postings.DisbursementMovesBoth | api/src/routes/loan.routes.ts:341-385 | A disbursement takes the principal out of vault and cash account and puts it into the receivable. |
| Postings.RejectionMovesNothing | api/src/routes/approvals.routes.ts:511-627 | A rejection changes no balance, cash or customer; at most it sends its own journal back to DRAFT. |
| Approvals.CommitKeepsApprovals | api/src/routes/approvals.routes.ts:459-509 | Each request is pending without evidence, or resolved by someone else with exactly one piece of evidence. |
| Effects.ApplyMeans | api/src/routes/approvals.routes.ts:40-457 | What each approval does, in balances, dates and statuses alone: the transfer's source pays its destination, the four inter-branch accounts move, payroll and disposal are booked on their date to their accounts, a journal is posted or rejected, a period reopened, customers merged. |
| Effects.ApplyFailsWhen | api/src/routes/approvals.routes.ts:40-457 | An approval fails if and only if a holder, account, journal, period or customer that it needs is missing. |
| Effects.CommitMeans | api/src/routes/approvals.routes.ts:481-625 | A resolution goes through if and only if its request is PENDING and nothing it needs is missing; then the request names decision and resolver, one piece of evidence is added and the effect happens, the rejection of a journal returning it to DRAFT; otherwise nothing changes. |
| Effects.AdmitMeans | api/src/routes/cashVault.routes.ts:289-310 | Requests and changes are held for writing exactly when they pass their routes' checks. |
| Effects.WriteMeans | api/src/routes/cashVault.routes.ts:289-310 | What is held is written as it was asked: a change has its effect, a request is filed PENDING with its own content and requester. |
| Approvals.ApplyToBooksKeeps | api/src/routes/approvals.routes.ts:182-422 | Every ledger effect of an approval keeps balances explained, and posts no journal twice that was not posted before. |
| Approvals.SubmitPostingIsCleanWhen | api/src/routes/generalLedger.routes.ts:113-124 | The unchecked write is harmless if and only if the journal is not posted and nothing waits for it. |
| Institution.RunKeeps | api/src/routes/approvals.routes.ts:459-627 | In every state of every interleaving: balances explained, posted journals balanced, cash explained and never negative, requests resolved once and not by their requester. |
| Institution.StoredBalancesAreReplayed | api/src/lib/generalLedger.ts:50-72 | In every run whose posting writes find the journal unposted and nothing waiting, each journal is applied once if posted and never otherwise, and stored balances equal the aggregate of all posted lines. |
| Institution.CleanThroughoutWhen | api/src/routes/generalLedger.routes.ts:113-124 | Over any run: every journal is applied as its status says and the posting queue is in order in every state, if and only if every write of request-posting finds its journal not posted and nothing waiting for it. |
| Institution.StoredBalancesInAnyRun | api/src/routes/generalLedger.routes.ts:113-124 | In any run at all, the exact difference between stored and replayed balances. |
| Institution.TrialBalanceInAnyRun | api/src/routes/generalLedger.routes.ts:315-344 | In any run and on any date the trial balance's columns are equal. |
| Institution.AppliedAtMostOnce | api/src/routes/approvals.routes.ts:481-509 | Over any run a request's effect is applied once if the run approves it, and never otherwise. |
| Institution.NextAndRequest | api/src/routes/approvals.routes.ts:484-490 | A step changes a request only out of PENDING, and never its content or requester. |
| Institution.ResolvedForever | api/src/routes/approvals.routes.ts:459-627 | A resolved request never changes again. |
| Institution.LosersCommitNothing | api/src/routes/approvals.routes.ts:484-490 | Whoever read a request in time but claims it late commits nothing, however much later. |
| Institution.CashIsConserved | api/src/routes/cashVault.routes.ts:167-200 | Over any run only bank entries and disbursements change total cash. |
| Institution.PeriodsStayApartWhen | api/src/routes/generalLedger.routes.ts:150-162 | Over any run periods stay apart if and only if each was written while its overlap check still held. |
| Institution.AddPeriodNoOverlap | api/src/routes/generalLedger.routes.ts:156-161 | A written period leaves the others apart exactly when the check passes at the write. |
| Institution.OnePeriodPerDate | api/src/lib/generalLedger.ts:43-48 | In such a run the period found for a date is the only one covering it. |
| Races.PeriodsCanOverlap | api/src/routes/generalLedger.routes.ts:156-161 | A run from nothing in which two overlapping periods are both admitted and both written. |
| StalePosting.StalePostingAppliesTwice | api/src/routes/generalLedger.routes.ts:113-124 | For every postable draft a run that posts it once in history and twice in the balances. |
| StalePosting.StalePostingBreaksReplay | api/src/routes/generalLedger.routes.ts:113-124 | Whenever that journal moves an account, stored balances no longer equal replayed history afterwards. |
| StalePosting.ARunThatDrifts | api/src/routes/generalLedger.routes.ts:113-124 | A run from an empty institution that ends so. |
| StalePosting.PostExistingPosts | api/src/routes/approvals.routes.ts:202-208 | A posting that passes its re-checks marks the journal POSTED and adds its effects once, whatever its status was. |
| InstitutionStore.Store.IncrementBalances | api/src/routes/approvals.routes.ts:202-205 | The loop of increments is the specified posting of the lines. |
| InstitutionStore.Store.CreateJournalDraft | api/src/routes/generalLedger.routes.ts:82-108 | A draft is stored exactly when its lines are valid and balanced, its period is open and its accounts exist; the institution's invariant is kept. |
| InstitutionStore.Store.ReadJournalDraft | api/src/routes/generalLedger.routes.ts:113-116 | Admits exactly a journal that is in DRAFT; the invariant is kept. |
| InstitutionStore.Store.RequestPosting | api/src/routes/generalLedger.routes.ts:113-124 | When nobody comes between, exactly a DRAFT journal is sent for approval, a queue in order stays in order, and the invariant is kept. |
| InstitutionStore.Store.ExecuteRecurringJournal | api/src/lib/scheduler.ts:193-225 | Posts the template at its due date exactly when all accounts are active, it balances and the period is open; the invariant is kept. |
| RecurringJournals.RecurringJournal.ExecuteReading | api/src/lib/scheduler.ts:204-233 | A failure counts and suspends exactly at the limit; a success posts the due date read and moves on to a later one. |
| RecurringJournals.FittingRunsPostOnce | api/src/lib/scheduler.ts:186-233 | A run in which every posting finds the date it read still the next one, and every reactivation comes after everything posted, posts no due date twice, and in order. |
| RecurringJournals.DueDatesPostedOnceWhen | api/src/lib/scheduler.ts:186-233 | Over any run, activations and suspensions included, in which moreover no job still running at a reactivation holds an unposted date: no due date is posted twice if and only if every posting finds the date it read still the next one. |
| RecurringJournals.WithoutReactivation | api/src/lib/scheduler.ts:186-233 | Over any run without a reactivation that condition is exact as it stands. |
| RecurringJournals.NothingIsSkipped | api/src/lib/scheduler.ts:229-232 | Without a reactivation, fitting postings take the start and every next date after it in turn. |
| RecurringJournals.ReadWhenDue | api/src/lib/scheduler.ts:188 | A job takes up a template exactly when it is ACTIVE and its date has come. |
| RecurringJournals.CountStaysRightWhen | api/src/lib/scheduler.ts:204-210 | One step keeps the counter equal to the failures in a row if and only if a failing job read the counter as it still is. |
| RecurringJournals.ActiveBelowLimitWhen | api/src/routes/approvals.routes.ts:217-220 | Over any run, however jobs overlap: in every state an ACTIVE template has counted no failure or fewer than its limit, if and only if every approval of its activation finds the count there. |
| RecurringJournals.LateApprovalIsAtLimit | api/src/routes/generalLedger.routes.ts:241-268 | For every limit a run that ends ACTIVE at the limit: activation requested, suspended, reactivated, failed up to the limit, and then approved. |
| RecurringJournals.FailedThenReactivated | api/src/lib/scheduler.ts:204-210 | A template suspended by its failures and reactivated at any moment is in service again, in a run that `DueDatesPostedOnceWhen` covers. |
| RecurringJournals.HeldOverReactivation | api/src/routes/generalLedger.routes.ts:262-268 | Why running jobs matter: one that holds an unposted date over a reactivation posts it without fitting, and no date is posted twice. |
| RecurringJournals.EarlyReactivationPostsTwice | api/src/routes/generalLedger.routes.ts:262-268 | A template reactivated at a date it has posted posts it again, with one job after the other. |
| RecurringJournals.OverlappingJobsPostTwice | api/src/routes/generalLedger.routes.ts:270-275 | Two jobs that both read a due template post its due date twice. |
| InstitutionStore.Store.GuardedDecrement | api/src/routes/cashVault.routes.ts:172-178 | Decrements exactly when covered, and says so by the row count. |
| InstitutionStore.Store.PostVaultEntry | api/src/routes/cashVault.routes.ts:109-200 | Vault, cash ledger and journal move together or nothing does; the invariant is kept. |
| InstitutionStore.Store.MoveCash | api/src/routes/cashVault.routes.ts:168-200 | The transaction goes through exactly when a withdrawal is covered, and otherwise changes nothing. |
| InstitutionStore.Store.DisburseLoan | api/src/routes/loan.routes.ts:330-386 | Vault, cash ledger and journal of a disbursement move together or nothing does; the invariant is kept. |
| InstitutionStore.Store.ApplyCashTransfer | api/src/routes/approvals.routes.ts:138-169 | Takes the amount from the source, gives it to the destination, records both sides and ends COMPLETED exactly when the source still covers it, otherwise does nothing and ends REJECTED; fails when a side is missing. |
| InstitutionStore.Store.ApplyJournalPosting | api/src/routes/approvals.routes.ts:182-210 | Posts or rejects by the re-checks, without looking at the status. |
| InstitutionStore.Store.ApplyInterBranch | api/src/routes/approvals.routes.ts:229-265 | Posts the four lines if they balance, without asking for a period. |
| InstitutionStore.Store.ApplyAccrual | api/src/routes/approvals.routes.ts:289-417 | Posts an accrual only with an open period and balance, and fails on a missing account. |
| InstitutionStore.Store.ApplyApproval | api/src/routes/approvals.routes.ts:40-457 | The switch fails exactly when something it needs is missing, and otherwise has the effect its request asked for, balances, dates and statuses written out. |
| InstitutionStore.Store.ReadRequest | api/src/routes/approvals.routes.ts:459-466 | Admits exactly a PENDING request of another user; the invariant is kept. |
| InstitutionStore.Store.CommitResolution | api/src/routes/approvals.routes.ts:481-509 | Claim, effect and evidence commit together exactly when they can, on failure everything is as it was, total cash never changes, and the invariant is kept. |
| Idempotency.Middleware.Idempotent | api/src/middleware/idempotency.ts:21-58 | Lets a request through exactly when it inserted the key; otherwise refuses or replays. |
| Idempotency.Middleware.Json | api/src/middleware/idempotency.ts:63-69 | The reply goes out, and the stored response, if written, is that reply. |
| Idempotency.HandlerRunsAtMostOnce | api/src/middleware/idempotency.ts:21-71 | Over all interleavings the handler runs at most once for a key. |
| Idempotency.OneEntitledPerKey | api/src/middleware/idempotency.ts:22-31 | Of two requests with one key at most one is ever entitled to the handler. |
| Idempotency.DifferentBodyNeverRuns | api/src/middleware/idempotency.ts:40-42 | A request whose body differs from the claimant's never runs and is never answered from the store. |
| Idempotency.ReplayIsTheAnswer | api/src/middleware/idempotency.ts:52-57 | A replayed reply is the reply the one run gave to a request with the same key and body. |
| Idempotency.RefusalsAreJustified | api/src/middleware/idempotency.ts:40-51 | A refusal names the truth: another request holds the key, with a different body or with the same one. |
| JobClaims.Scheduler.Claim | api/src/lib/scheduler.ts:18-34 | A process wins exactly when no row for the job and day exists, and then inserts it. |
| JobClaims.Scheduler.Finish | api/src/lib/scheduler.ts:36-40 | A job that ends, well or badly, does not free its claim for the day. |
| JobClaims.OneRunPerJobAndDay | api/src/lib/scheduler.ts:18-49 | A day on which any process attempts a job runs it exactly once, any other day never. |
| JobClaims.ClaimsAreUnique | api/src/lib/scheduler.ts:22-28 | No two rows share job type and day. |
| RefreshTokens.TokenTable.CompleteLogin | api/src/routes/auth.routes.ts:146-156 | A login issues a live token that is alone in its family; families stay chains. |
| RefreshTokens.TokenTable.ReadToken | api/src/routes/auth.routes.ts:677-713 | The reads of a refresh end in a rotation if and only if the token is known, not replaced, not revoked and not past its expiry, and the user is active, not locked out and not due to change the password; in the revocation of the family if and only if it was replaced. |
| RefreshTokens.TokenTable.Answer | api/src/routes/auth.routes.ts:686-727 | Its writes carry that decision out: a live token in the same family, or every token of the family revoked. |
| RefreshTokens.TokenTable.RefreshToken | api/src/routes/auth.routes.ts:672-736 | A refresh that nobody comes between issues a token under exactly these conditions, with owner, family and expiry of the presented one, which is revoked and points at it; a replaced one leaves its family dead; families stay chains. |
| RefreshTokens.TokenTable.RevokeWholeFamily | api/src/routes/auth.routes.ts:686-688 | Revokes every token of the family and no other. |
| RefreshTokens.TokenTable.LogoutToken | api/src/routes/auth.routes.ts:1024-1033 | The presented token is revoked, no other one is touched, families stay chains. |
| RefreshTokens.FamiliesAreChainsWhen | api/src/routes/auth.routes.ts:677-727 | Over any run, reads and writes of refreshes interleaved, every family is a single chain in order of creation, each token but the last revoked and replaced by the next, if and only if every rotation finds its token not yet replaced when it writes. |
| RefreshTokens.OnlyTheTipIsLive | api/src/routes/auth.routes.ts:715-727 | Of two tokens of a family: in every run they share owner and expiry, and in a run that meets that condition the older one is revoked and replaced. |
| RefreshTokens.ExpiredNeverRenews | api/src/routes/auth.routes.ts:694-696 | Over any run, a refresh that reads its token after its expiry never leads to a new token, whatever comes in between. |
| RefreshTokens.SuspensionRevokesAll | api/src/routes/institution.routes.ts:112 | Suspending a user revokes all of that user's tokens and nothing else. |
| RefreshTokens.ReuseKillsFamilyWhen | api/src/routes/auth.routes.ts:681-692 | The detection of a reuse leaves its family dead, and the family is dead in every later state of any run if and only if no refresh of it that had read its token before is written after. |
| RefreshTokens.OverlappingRefreshesFork | api/src/routes/auth.routes.ts:677-727 | Two refreshes that both read a live token leave two live tokens in its family. |
| RefreshTokens.RefreshSurvivesReuse | api/src/routes/auth.routes.ts:686-727 | A refresh that read its token before a reuse was detected issues a live token after the family was revoked. |
| AssetDepreciation.MonthBounds | api/src/lib/assetDepreciation.ts:24-44 | A month takes nothing back and never more than is left above the residual value; the last takes all of it. |
| AssetDepreciation.NetBookValueFalls | api/src/lib/assetDepreciation.ts:24-44 | Net book value never rises and never falls below the residual value. |
| AssetDepreciation.LifeEndsAtResidual | api/src/lib/assetDepreciation.ts:14-23 | Under both methods the useful life ends exactly at the residual value. |
| AssetDepreciation.StraightLineIsEven | api/src/lib/assetDepreciation.ts:35-44 | Straight line accumulates the same rounded amount a month, capped at the base. |
| AssetDepreciation.ReducingMonthMeans | api/src/lib/assetDepreciation.ts:35-44 | An ordinary month of reducing balance is a twelfth of the annual rate on the net book value, rounded, as far as there is that much left. |
| AssetDepreciation.AssetRecord.ProcessDepreciation | api/src/routes/asset.routes.ts:255-310 | When nobody comes between: refuses a disposed asset, a posted label and a month worth nothing; otherwise appends the month and adds its amount, and what is booked to the ledger is what the register gains. |
| AssetDepreciation.RouteFollowsIteration | api/src/routes/asset.routes.ts:255-310 | Calls one after the other: whatever labels arrive, the register is the iteration after as many months as it has entries, and it falls behind the labels only once a month is worth nothing. |
| AssetDepreciation.RegisterFollowsWhen | api/src/routes/asset.routes.ts:259-310 | However calls overlap, the register is the iteration, entry by entry, if and only if every entry is written while there are as many entries as its call counted. |
| AssetDepreciation.LedgerAgreesWhen | api/src/routes/asset.routes.ts:266-310 | When every month is booked, ledger and register show the same for the asset if and only if every write, refused entries included, finds as many entries as its call counted; otherwise the ledger shows more. |
| AssetDepreciation.OverlappingCallsLoseAMonth | api/src/routes/asset.routes.ts:266-310 | Two overlapping calls for two months: two entries and two bookings, but one month in the register. |
| AssetDepreciation.StuckWhenLastOrdinaryMonthIsZero | api/src/routes/asset.routes.ts:263-277 | The route never reaches the residual value if and only if the month before the last is worth nothing while value remains. |
| AssetDepreciation.StraightLineStuckWhen | api/src/routes/asset.routes.ts:263-277 | For straight line: if and only if the base is positive and under half a cent a month, over more than one month. |
| AssetDepreciation.ReducingBalanceReachesResidualWhen | api/src/routes/asset.routes.ts:263-277 | Reducing balance reaches the residual value whatever the useful life if and only if nothing is to depreciate or a month of the residual value and one cent is worth half a cent. |
| AssetDepreciation.ReducingBalanceStuck | api/src/routes/asset.routes.ts:263-277 | Otherwise it gets stuck for every useful life of at least two months more than there are cents to depreciate. |
| AssetDepreciation.FiveCentsOverAYear | api/src/routes/asset.routes.ts:263-277 | An asset of five cents over twelve months: the route never posts a month, whatever labels it is given. |
| AssetDepreciation.TwentyPerCentGetsStuck | api/src/routes/asset.routes.ts:263-277 | At twenty per cent without residual value every asset gets stuck over a long enough life. |
| Concentration.HhiBounds | api/src/routes/capitalAdequacy.routes.ts:178-181 | HHI lies in [1/n, 1]; 1/n exactly for equal exposures, 1 exactly for a single one. |
| Concentration.GiniBounds | api/src/routes/capitalAdequacy.routes.ts:183-191 | Gini lies in [0, 1 - 1/n] and is 0 exactly for equal exposures. |
| Concentration.MetricsOfTwo | api/src/routes/capitalAdequacy.routes.ts:178-191 | Both indices of two exposures, written out. |
| Concentration.SumAbsoluteDifferences | api/src/routes/capitalAdequacy.routes.ts:186-190 | The double loop is the sum over all ordered pairs. |
| Concentration.PairSumPermutes | api/src/routes/capitalAdequacy.routes.ts:186-190 | That sum does not depend on the order of the exposures. |
| Concentration.RatioIsLargestShare | api/src/routes/capitalAdequacy.routes.ts:193-199 | The top-N ratio is the largest share any N exposures have, and some N have it. |
| Concentration.RatioRises | api/src/routes/capitalAdequacy.routes.ts:193-203 | It rises strictly until every exposure is in, and is 100 exactly from then on. |
| Concentration.ComputeConcentration | api/src/routes/capitalAdequacy.routes.ts:171-205 | The handler computes these metrics, rounded as reported, and zeros when nothing is outstanding. |
| Concentration.ReportedMetrics | api/src/routes/capitalAdequacy.routes.ts:181-198 | Rounded, the metrics stay in range and in order: HHI at most 1, Gini between 0 and 1 and 0 for equal exposures, ratios that never fall with N and are 100 once every exposure is in. |
| Exposures.ConcentrationOf | api/src/routes/capitalAdequacy.routes.ts:164-205 | Grouping loans by customer yields positive exposures that add up to everything outstanding, and the reported indices and top-N ratios are theirs. |
| Exposures.ByCustomerMeans | api/src/routes/capitalAdequacy.routes.ts:164-169 | Each customer appears once, with what that customer owes over all loans. |
| Exposures.OutstandingIsUnpaid | api/src/routes/capitalAdequacy.routes.ts:166-167 | When nobody has overpaid, what is outstanding is what was lent less what was paid back, and an overpaid loan owes nothing. |
| CustomerMerge.CustomerStore.ExecuteCustomerMerge | api/src/lib/customerMerge.ts:22-41 | Every record of the merged customer belongs to the primary one, every other record is as it was, none is left to the merged customer, who is marked as merged into the primary; exactly the moved records are listed. |
| CustomerMerge.MergeMeans | api/src/lib/customerMerge.ts:29-31 | The same of the merge as an approval applies it. |
| CustomerMerge.CustomerStore.RollbackCustomerMerge | api/src/lib/customerMerge.ts:43-48 | The listed records go back one by one and the merge fields are reset. |
| CustomerMerge.WriteBackTouches | api/src/lib/customerMerge.ts:39-46 | A rollback hands over exactly the listed records and leaves every other one alone. |
| CustomerMerge.RollbackRestoresReferences | api/src/lib/customerMerge.ts:39-48 | After a merge, any new records and the rollback, every reference is back and the new records are untouched. |
| CustomerMerge.RollbackUndoesMerge | api/src/lib/customerMerge.ts:34-47 | Customers are restored too if and only if the merged one was not already merged. |
| CustomerMerge.NestedMergesUndone | api/src/lib/customerMerge.ts:23-48 | Any last-in-first-out history of merges and rollbacks, with records created anywhere in it, ends where it began plus those records. |
| Races.BothMergesApproved | api/src/routes/approvals.routes.ts:427-438 | A run in which two approved requests merge one customer into two others. |
| Races.SecondMergeCannotBeUndone | api/src/lib/customerMerge.ts:43-48 | Rolling the second merge back leaves the customer active although it had been merged before. |

## Left out

- Amounts finer than a cent, and floating-point error: request amounts are taken to be whole cents, as the columns store
  them.
- Dates outside the range of time values, invalid dates and daylight saving.
- SQL isolation: a committed transaction is one step. Recurring journals, depreciation postings, payroll settlement and
  refresh are not transactions in the source; the reads of each are taken as one step and its writes as another, and so are
  the two writes of request-posting. What could come between two reads or two writes of one call is not modelled.
- Where periods overlap, the database may return either; the model takes the one created first.
- Approvals.ApplyToCrm: does not model the merge record and its rollback route; merge and rollback themselves are in
  CustomerMerge, where they are proved to undo each other.
- InstitutionStore.Store.ApplyCashTransfer: returns how the transfer record ends, but no table keeps the records.
- Effects.ApplyMeans, Effects.ApplyFailsWhen and Effects.CommitMeans: speak of payroll totals and disposal amounts that are
  not negative and of assets that have cost something, as the tables keep them.
- InstitutionStore.Store.ApplyApproval: treats the request types that only flip a status outside ledger, cash and merges
  as one type, OTHER, and keeps no status of payroll, disposal and inter-branch records.
- AssetDepreciation.AssetRecord.ProcessDepreciation: keeps the amount booked for the asset; the journal itself is
  Handlers.POST_DEPRECIATION.
- A LOCKED period is reopened by an approved request made while it was CLOSED, as in the source; no claim is made that
  locked periods stay locked.
- Handlers.MoveAndPost: does not model the loan's own status and its installments, because no other part of the
  institution reads them; schedules and closure are in the loan modules.
- Savings accounts and collection records: their postings are POST_CUSTOMER_ENTRY, their own balances and statuses are
  left out, and so are the money movements of standing instructions, which do not touch the ledger.
- Sorting of report rows by account code, generated identifiers and journal numbers, messages, notes, user agents and the
  texts of audit entries.
- Cryptography of tokens and hashes, permission checks, input parsing, PDF, notification and HTTP layers.
- Threshold scorers, CRM, HR and cheque status flips: one reading of the branches settles them.
