# loan_analytics calculation engine in Dafny

This project models the calculation engine of `loan_analytics`. The engine has three parts:

- **`Loan`** (`loans.dfy`) checks the four loan parameters in a fixed order. It then amortizes the loan month by month until the balance is paid off. Each month is one row, stored under its period number 1..n. Afterwards it records the time to termination and the interest and principal totals.
- **`LoanPortfolio`** (`portfolio.dfy`) keeps a list of loans. It folds every member's schedule into one table keyed by period, and it compares the first two members.
- **`LoanImpacts`** (`impacts.dfy`) runs the loan under three kinds of extra payment: everybody contributing ("all"), nobody contributing ("none"), and each contributor quitting in turn. Each run is compared with "all".

`schedules.dfy` holds the row type shared by `Loan` and `LoanPortfolio`. Both keep their schedule in a Python dictionary whose key is the row's own first field. In the model, that dictionary is the sequence of its rows in insertion order, which is the order Python iterates in. `Find`, `At` and `Put` are the dictionary's lookup and store. `wrappers.dfy` holds `Option`, `Outcome` and `Result`, which stand for Python's `None` and its exceptions.

Money is an exact `real`. A pure function is the specification of each loop:

- `Loans.Rows` is the whole amortization schedule. `Loan.ComputeSchedule` is proved to write exactly that schedule. The properties of a schedule are lemmas about `Rows`.
- `Portfolio.AddAll` is the fold performed by `aggregate`. `LoanPortfolio.Aggregate` is proved to perform it. The lemmas state what the fold means key by key.
- `Impacts.Scenarios`, `AllRow`, `NoneRow` and `QuitRow` describe the impact table. `LoanImpacts.ComputeImpacts` is proved to return that table, or the error Python raises first.

`compute_schedule` checks nothing itself. Every caller in the repository runs `check_loan_parameters` first (`loan_analytics/LoanImpacts.py:28-29`, `loan_analytics/main.py:17-18`, `app.py:197-208`), and `Loan.ComputeSchedule` requires that the parameters pass it. Termination of the amortization loop then follows from the guard. After `check_loan_parameters` passes, the scheduled payment exceeds the first month's interest by at least 0.015. Interest never grows as the balance falls, so each month that does not close the loan repays at least 0.015. `Loans.Measure` counts how many such steps still fit into the balance.

Four behaviours of the code are easy to misread, and the model keeps each of them:

- The capped final period computes its applied principal with an extra payment of 0, but the row still records `self.extra_payment` (`loan_analytics/Loan.py:51-55`). `Loans.Period` stores the loan's extra payment.
- `aggregate` adds onto whatever table is already there and does not clear it first (`loan_analytics/LoanPortfolio.py:35-50`). `Portfolio.AggregateTwice` proves that a second call doubles every column.
- `compute_impacts` stops at the first scenario whose parameters fail, because the `ValueError` of `check_loan_parameters` escapes the whole call. On success its table has 2 + |contributions| rows.
- `compute_impact` divides both differences by the second loan's values (`loan_analytics/LoanPortfolio.py:84-85`).

One consequence for the impact page: when the input is invalid, `app.py:757-765` substitutes principal 1 at rate 0, paying 1 with no extra. `Impacts.FallbackImpactsDivideByZero` proves that every scenario of that loan passes the guard while "all" pays no interest. By the second postcondition of `LoanImpacts.ComputeImpacts`, the page then always ends in the `ZeroDivisionError` at `loan_analytics/LoanImpacts.py:38-39`, for every invalid input and non-negative contributions. The same error is raised for every valid input at rate 0.

## Model

| member | source | states |
|---|---|---|
| `Loans.CheckParameters` | loan_analytics/Loan.py:23-35 | The five checks run in order and the first one that fails decides the error. Each error is characterised in both directions by its own condition together with the negation of all earlier conditions. `PaymentTooSmall` carries `round(principal·rate/12/100, 2) + 0.01`. Passing implies that the payment exceeds the first month's interest by at least 0.015. |
| `Loans.Round2` | loan_analytics/Loan.py:33 | Rounding to cents moves a value by at most 0.005. |
| `Loans.MonthlyInterest` | loan_analytics/Loan.py:47 | Defined as balance·rate/12/100, the interest of one month; the guard at line 33 rounds the same expression. `Loans.InterestMonotone` proves that a larger balance never accrues less interest at a non-negative rate. |
| `Loans.Period` | loan_analytics/Loan.py:46-56 | A row's interest is begin·rate/12/100, and end = begin − applied principal. Without overshoot, the row records the scheduled payment and repays payment − interest + extra. With overshoot, the payment becomes begin + interest, the applied principal becomes begin and the end becomes 0. The extra-payment column always holds the loan's own extra payment. |
| `Loans.StepShrinks` | loan_analytics/Loan.py:33-35 | Once the guard passes, each month starting within the principal either closes the loan at exactly 0 or repays at least 0.015. So the termination measure strictly falls. |
| `Loans.RowsFrom` | loan_analytics/Loan.py:45-57 | Defined as the rows the loop writes from period k and a balance: none once the balance is ≤ 0, otherwise the row of `Period` followed by the rows from the next period and that row's end balance. It terminates because `StepShrinks` makes `Measure` fall; `RowsFromShape` proves its shape. |
| `Loans.Rows` | loan_analytics/Loan.py:41-57 | Defined as `RowsFrom` from period 1 and the principal: the whole schedule `compute_schedule` writes. `ScheduleShape` proves its shape. |
| `Loans.RowsFromShape` | loan_analytics/Loan.py:41-57 | The rows from period k on have these properties. They are numbered k, k+1, …. The first begins at the given balance, and each begins where the previous one ended. Each follows the period rule. Each starts positive and at most the principal. Every row but the last keeps a positive balance and pays the scheduled payment. Every end is ≥ 0 and the last end is exactly 0. |
| `Loans.ScheduleShape` | loan_analytics/Loan.py:41-57 | A validated loan's schedule is non-empty, starts at the principal, is numbered 1..n, chains its balances and closes at exactly 0. |
| `Loans.BalanceDecreasing` | loan_analytics/Loan.py:45-57 | The begin balance strictly falls from one period to the next. |
| `Loans.PrincipalRepaidFrom` | loan_analytics/Loan.py:45-57 | The applied-principal column repays exactly the balance it starts from. |
| `Loans.PrincipalRepaid` | loan_analytics/Test_Loans.py:58 | Total principal paid equals the principal exactly. |
| `Loans.DurationBoundFrom` | loan_analytics/Loan.py:45-57 | The number of periods from a balance is at most its termination measure. |
| `Loans.DurationBound` | loan_analytics/Loan.py:59 | A validated loan lasts at least 1 period and at most principal/0.015 + 1 periods. |
| `Loans.TotalInterest` | loan_analytics/Loan.py:60-63 | The sum of the schedule's interest column, which is never negative. |
| `Loans.Duration` | loan_analytics/Loan.py:59 | The number of periods of the schedule, which is at least 1. |
| `Loans.InterestNonnegativeFrom` | loan_analytics/Loan.py:47 | At a non-negative rate, the interest column sums to a non-negative value. |
| `Loans.ZeroRateNoInterestFrom` | loan_analytics/Loan.py:47 | At rate 0, the interest column summed over the schedule from any balance is 0. |
| `Loans.ZeroRateNoInterest` | loan_analytics/Loan.py:60-64 | At rate 0, the total interest is 0. |
| `Loans.InterestZeroIffRateZero` | loan_analytics/Loan.py:47 | For a validated loan, the total interest is ≥ 0, and it is 0 exactly when the rate is 0. |
| `Loans.MoreExtraNoWorseFrom` | loan_analytics/Loan.py:45-57 | With equal principal, rate and payment, a larger extra payment from a balance no larger never takes more periods and never pays more interest. |
| `Loans.MoreExtraNoWorse` | loan_analytics/Loan.py:45-64 | A whole loan with more extra payment has a duration no longer and a total interest no larger. |
| `Loans.FixturesPass` | loan_analytics/Test_Loans.py:11-16 | (5000, 6, 96.66, 0), (10000, 8, 121.33, 0) and (7000, 7, 167.62, 0) pass the guard. |
| `Loans.FallbackSinglePeriod` | app.py:199-208 | The fallback (1, 0, 1, 0) passes the guard and its schedule is the single row (1, 1, 1, 0, 1, 0, 0). |
| `Loans.StepAdvance` | loan_analytics/Loan.py:45-57 | One turn of the loop produces the next row of `Rows` and leaves the rest of the schedule to come. |
| `Loans.PutNext` | loan_analytics/Loan.py:54-56 | Storing row n either extends the prefix written so far or overwrites an identical row of a schedule already computed. |
| `Loans.Loan.constructor` | loan_analytics/Loan.py:6-21 | Stores the four parameters. The schedule is empty, the time to termination is `None` and both totals are 0. |
| `Loans.Loan.ComputeSchedule` | loan_analytics/Loan.py:37-64 | Afterwards the schedule is `Rows` of the parameters, the time to termination is `Some(n)`, and the totals are the sums of the principal and interest columns. |
| `Loans.Loan.WriteRows` | loan_analytics/Loan.py:41-57 | The `while` loop stores exactly the rows of `Rows`, each under its period number. A schedule computed before is overwritten with the same rows. It is the first half of `ComputeSchedule` and leaves the totals alone. |
| `Loans.Loan.RecordTotals` | loan_analytics/Loan.py:59-64 | The time to termination is the largest key, or `None` for no rows; it is n for rows numbered 1..n. The interest and principal totals are the column sums. It is the second half of `ComputeSchedule`: on the schedule `Rows` of validated parameters it leaves the loan computed. |
| `Loans.Loan.ReturnLoanSchedule` | loan_analytics/Loan.py:66-82 | Line i holds row i, numbered i + 1, and the interest accumulated over rows 1..i+1. The accumulated column never decreases and ends at the total interest paid. |
| `Loans.LoanScheduleNumbered` | loan_analytics/Loan.py:54 | A loan before or after computing holds its periods as keys 1..n in order, with none repeated. |
| `Schedules.Find` | loan_analytics/Loan.py:54 | Gives the position of a key, or -1 exactly when the key is absent. |
| `Schedules.At` | loan_analytics/LoanPortfolio.py:41-43 | Gives the row stored under a key, or the zero row for that key when the key is absent. |
| `Schedules.Put` | loan_analytics/LoanPortfolio.py:49-50 | Overwrites in place when the key exists and appends otherwise. The keys grow by exactly the stored key, and no key is ever repeated. |
| `Schedules.AtPut` | loan_analytics/LoanPortfolio.py:49-50 | Storing a key changes the lookup of that key and of no other. |
| `Schedules.SumCons` | loan_analytics/Loan.py:62-64 | A column sum is the first row's value plus the sum of the rest. |
| `Schedules.SumPrefixMonotone` | loan_analytics/Loan.py:75-80 | With no negative entries, a longer prefix has a column sum at least as large. |
| `Schedules.AccumulateInterest` | loan_analytics/Loan.py:75-80 | Line i holds row i and the interest summed over rows 0..i. |
| `Schedules.AccumulatedNondecreasing` | loan_analytics/Loan.py:75-80 | With non-negative interest, the running total never decreases. |
| `Schedules.MaxMonth` | loan_analytics/Loan.py:59 | Returns a key of a non-empty table that no other key exceeds. |
| `Portfolio.AddRow` | loan_analytics/LoanPortfolio.py:41-50 | One step of the inner loop. The keys grow by exactly the row's key, a table without repeated keys stays so, and the table grows by one row exactly when the key is new. |
| `Portfolio.AddSchedule` | loan_analytics/LoanPortfolio.py:40-50 | The inner loop over one member's rows. The keys become the union of the table's and the member's keys, and the table never shrinks. |
| `Portfolio.AddAll` | loan_analytics/LoanPortfolio.py:39-50 | The outer loop over the members, the fold `aggregate` performs. The table never shrinks; `AtAddAll` states what it holds at each key. |
| `Portfolio.Members` | loan_analytics/LoanPortfolio.py:39-40 | The members' schedules, one per loan in list order. |
| `Portfolio.AtAddRow` | loan_analytics/LoanPortfolio.py:41-50 | One inner step adds the row's six amounts at its own key and leaves every other key unchanged. The keys grow by that key. |
| `Portfolio.AtAddSchedule` | loan_analytics/LoanPortfolio.py:40-50 | Adding one member raises each column at each key by that member's amount there, or by 0 where it has no row, and keeps the keys distinct. |
| `Portfolio.AtAddAll` | loan_analytics/LoanPortfolio.py:39-50 | After the whole fold, column f at key k is its old value plus the sum over the members. The keys are the old keys plus all members' keys. |
| `Portfolio.AggregateFromEmpty` | loan_analytics/LoanPortfolio.py:35-50 | From an empty table, the keys are the union of the members' keys and each row sits under its own period. Each of the six columns at k is the sum over the members that have k. |
| `Portfolio.AggregateTwice` | loan_analytics/LoanPortfolio.py:35-50 | Aggregating twice without `reset` keeps the same keys and doubles every summed column. |
| `Portfolio.AddRowNumbered` | loan_analytics/LoanPortfolio.py:41-50 | On a table numbered 1..n, a row for period at most n + 1 keeps the table numbered 1..max(n, period). |
| `Portfolio.AddScheduleNumbered` | loan_analytics/LoanPortfolio.py:40-50 | Adding a schedule numbered 1..m onto a table numbered 1..n gives a table numbered 1..max(n, m). |
| `Portfolio.AggregateNumbered` | loan_analytics/LoanPortfolio.py:39-50 | If every member is numbered 1..n_i, aggregating into an empty table gives the keys 1..max n_i in ascending order. |
| `Portfolio.LoanPortfolio.constructor` | loan_analytics/LoanPortfolio.py:5-9 | Both the loan list and the table start empty. |
| `Portfolio.LoanPortfolio.AddLoan` | loan_analytics/LoanPortfolio.py:11-15 | The loan is appended last and earlier loans are unchanged. The same loan may be added twice. |
| `Portfolio.LoanPortfolio.RemoveLastLoan` | loan_analytics/LoanPortfolio.py:17-20 | On a non-empty list, drops only the last loan. |
| `Portfolio.LoanPortfolio.GetLoanCount` | loan_analytics/LoanPortfolio.py:22-26 | Returns the number of loans. |
| `Portfolio.LoanPortfolio.Reset` | loan_analytics/LoanPortfolio.py:28-33 | Both the loan list and the table become empty. |
| `Portfolio.LoanPortfolio.Aggregate` | loan_analytics/LoanPortfolio.py:35-50 | The new table is the fold of all members onto the old table. Each column at each key is the old value plus the members' sum there, and the keys are the old keys plus the members' keys. |
| `Portfolio.LoanPortfolio.AddRows` | loan_analytics/LoanPortfolio.py:40-50 | The inner loop of `Aggregate` adds one member's rows in that member's order and keeps the keys distinct. |
| `Portfolio.LoanPortfolio.AddEntry` | loan_analytics/LoanPortfolio.py:41-50 | The body of the inner loop of `Aggregate`: a new key first gets a zero row, then the six amounts are added to the row under that key. The keys stay distinct. |
| `Portfolio.LoanPortfolio.ReturnPortfolioSchedule` | loan_analytics/LoanPortfolio.py:52-68 | Line i holds table row i and the aggregated interest summed over rows 0..i. The last line holds the table's whole interest. |
| `Portfolio.LoanPortfolio.ComputeImpact` | loan_analytics/LoanPortfolio.py:71-87 | Fails, in this order: `IndexError` when there are fewer than two loans, `TypeError` when either time is `None`, and a division error when the second loan's time or interest is 0. Otherwise the differences are second − first, and each impact is its difference as a percentage of the second loan's value. For two computed loans differing only in a smaller extra payment for the second, both differences are ≥ 0 and both impacts lie in [0, 100]. |
| `Portfolio.ImpactBounds` | loan_analytics/LoanPortfolio.py:75-87 | For such a pair of loans, the duration and interest differences are ≥ 0. The time impact lies in [0, 100) and the interest impact lies in [0, 100]. |
| `Impacts.Scenarios` | loan_analytics/LoanImpacts.py:26-34 | There are 2 + |contributions| loans, in the order all, none, then one per contributor. Principal, rate and payment are the same in all of them. The extra payments are extra + sum, extra, and extra + sum − c_k. |
| `Impacts.FirstFailure` | loan_analytics/LoanImpacts.py:28 | Is `None` exactly when every scenario passes the guard. |
| `Impacts.FirstFailureAt` | loan_analytics/LoanImpacts.py:70 | The reported error is that of the first scenario, in order, that fails. |
| `Impacts.FirstFailureSkip` | loan_analytics/LoanImpacts.py:67-70 | Once the first scenarios pass, the first failure is the first failure among the rest. |
| `Impacts.Total` | loan_analytics/LoanImpacts.py:27 | Python's `sum` of the contributions, never negative when no contribution is. |
| `Impacts.TotalWithout` | loan_analytics/LoanImpacts.py:69 | With no negative contribution, 0 ≤ sum − c_k ≤ sum. |
| `Impacts.RelativeChange` | loan_analytics/LoanImpacts.py:38-41 | The change from a base value to x as a fraction r of the base: r·base = x − base. With a positive base, r ≥ 0 exactly when x ≥ base. |
| `Impacts.AllRow` | loan_analytics/LoanImpacts.py:53-54 | The "all" row holds its own interest (≥ 0) and duration (≥ 1), and both of its ratios are 0. |
| `Impacts.NoneRow` | loan_analytics/LoanImpacts.py:38-41 | The "none" row holds its own interest (≥ 0) and duration (≥ 1). Its interest ratio r satisfies r·all = none − all, and its duration ratio d satisfies d·all = all − none, the negated change. |
| `Impacts.QuitRow` | loan_analytics/LoanImpacts.py:73-76 | A "k quits" row holds its own interest (≥ 0) and duration (≥ 1). Both ratios r satisfy r·all = quit − all, with no negation. |
| `Impacts.NoneRowValues` | loan_analytics/LoanImpacts.py:38-41 | The "none" row as written, with Python's `-(none − all)/all`, equals `NoneRow`: its interest ratio is (none − all)/all and its duration ratio is negated. |
| `Impacts.QuitRowValues` | loan_analytics/LoanImpacts.py:73-76 | A "k quits" row as written equals `QuitRow`: both ratios are (k − all)/all, with no negation. |
| `Impacts.ScenariosValidTogether` | loan_analytics/LoanImpacts.py:28-70 | With no negative contribution, every scenario passes the guard exactly when the base parameters do. |
| `Impacts.ImpactSigns` | loan_analytics/LoanImpacts.py:38-41 | Assume no negative contribution, a base loan that passes the guard and a positive rate. Then all scenarios pass and "all" pays positive interest. Both interest ratios and the "k quits" duration ratio are ≥ 0, but the negated "none" duration ratio is ≤ 0. A single quit never costs more than losing all help. |
| `Impacts.ContributionFixtureRuns` | loan_analytics/Test_Loans.py:67-74 | For (68000, 4, 899, 0) with contributions 10, 100 and 1000, all five scenarios pass and "all" pays interest, so the table has five rows. |
| `Impacts.FallbackImpactsDivideByZero` | app.py:757-765 | For the fallback loan (1, 0, 1, 0) and non-negative contributions, every scenario passes the guard and "all" pays no interest, so `compute_impacts` divides by zero. |
| `Impacts.RunScenario` | loan_analytics/LoanImpacts.py:26-29 | Builds, checks and amortizes one loan. It returns the check's verdict and, on success, the total interest and a duration of at least 1. |
| `Impacts.LoanImpacts.constructor` | loan_analytics/LoanImpacts.py:9-14 | Stores the base parameters and the contributions. |
| `Impacts.LoanImpacts.ComputeImpacts` | loan_analytics/LoanImpacts.py:16-95 | Succeeds exactly when every scenario passes and "all" pays interest. The division error happens exactly when "all" and "none" pass and the rate is 0. Any other error is that of the first failing scenario. On success the table has one row per scenario, in order. The "all" row has both ratios 0, the "none" row has a negated duration ratio, and each "k quits" row has unnegated ratios. |
| `Impacts.LoanImpacts.QuitImpacts` | loan_analytics/LoanImpacts.py:67-90 | The loop stops with the first failing quit scenario's error. Otherwise it gives one `QuitRow` per contributor, in contributor order. |

## Left out

- Floating point: money and ratios are exact reals. IEEE rounding and the float tolerances of the tests are not modelled.
- Display rounding is not modelled: pandas `.round(2)` on the returned tables, `round(…, 2)` of each accumulated-interest entry (`loan_analytics/Loan.py:73,80`) and `round(…, 2)` / `round(…, 4)` in the impact rows (`loan_analytics/LoanImpacts.py:53-63,85-88`). The accumulated column is the exact running sum.
- `Loans.Round2`: rounds ties up on exact reals, not Python's round-half-even on binary floats. Only the 0.005 bound is relied on.
- The numeric regression values (27000 at 4% giving about 14303 interest over about 275 months, and with extra 25 about 10975 over about 218 months): checking them would mean unrolling hundreds of periods.
- `Loans.Loan.ComputeSchedule`: requires parameters that pass `check_loan_parameters`, which `compute_schedule` does not check itself. Two behaviours on unchecked parameters are therefore not modelled. With (100, 12, 1, 0) the interest of 1 equals the payment, no principal is repaid and the loop never ends. With a principal ≤ 0 the loop writes no row and the time to termination stays `None`. Every caller in the repository validates first.
- `Loans.MonthlyInterest`, `Loans.RowsFrom` and `Loans.Rows` carry no postcondition of their own; their properties are the lemmas named in their rows.
- `Portfolio.LoanPortfolio.RemoveLastLoan`: requires a non-empty list instead of modelling the `IndexError` of `pop(-1)`.
- The pandas `DataFrame` objects and the `print` calls of `compute_impacts` are not modelled. Tables are sequences of rows.
- `return_schedule` is a field that the loan sets to 0 and never reads again. It is kept, but nothing is proved about it.
- `app.py`, `loan_analytics/Helper.py` and `loan_analytics/main.py` (user interface, plotting, printing, a process-global portfolio) are not part of this model.
