# Personal-finance calculators in Dafny

This project models the calculation routes of a small personal-finance web
service, plus the list logic of its scenario store, and proves properties of
them.

The calculation routes are `src/routes/calculations.js`:

- **`calculateCompoundInterest`** steps a balance month by month. Each month
  it adds the contribution, then credits `annualRate / 100 / 12` interest on
  the new balance. It records a sparse series of sample points and reports the
  final balance and the total interest.
- **`/investment-growth`** type-checks four numbers and calls the helper.
- **`/retirement-projection`** chains two runs of the helper:
  - an accumulation run;
  - a drawdown run. It starts from the accumulation run's reported (rounded)
    final balance, uses a negative contribution and the real rate
    `annualReturnRate - inflationRate`.
- **`/debt-payoff`** works as follows:
  - a minimum-payment guard runs first;
  - the debt is amortised month by month: interest first, then a payment
    capped at what is owing;
  - the loop stops at month 1200;
  - a "+10%" payment is re-simulated, and reported only when it finishes
    sooner.
- **`/budget-analysis`** sums the expenses and compares the savings with a
  goal. It then groups the expenses by category and gives each group's share
  of income.

The scenario routes are `src/routes/scenarios.js`: find by id, create with
defaults, update by merge, delete by filter. The file read and write are
taken out. Each operation receives the current array of records and returns
the array to be written, with the reply.

Modules:

| file | module | what it holds |
|---|---|---|
| `common.dfy` | `Common` | `Option`, `Result`, request fields that must be numbers, `Math.min`/`Math.max` |
| `rounding.dfy` | `Rounding` | `parseFloat(x.toFixed(d))` over the reals |
| `compound.dfy` | `Compound` | the helper, as a reference function and as the loop, and `/investment-growth` |
| `retirement.dfy` | `Retirement` | `/retirement-projection` |
| `debt.dfy` | `DebtPayoff` | `/debt-payoff` |
| `budget.dfy` | `Budget` | `/budget-analysis` |
| `scenarios.dfy` | `Scenarios` | the four list operations |

Modelling choices:

- **Numbers** are Dafny `real`s, so the arithmetic is exact. See "Left out".
- **Rounding.** `toFixed(d)` picks the closest multiple of `10^-d` and takes
  the larger one on a tie, with the sign written separately. Over the reals
  this is rounding half away from zero. It is modelled exactly, not left
  abstract, for two reasons:
  - the retirement drawdown starts from the *rounded* accumulation balance;
  - `sustainable` tests the *rounded* drawdown balance.
- **Loop length.** `years` is any real. The helper's loop runs `floor(years * 12)`
  times (none when `years * 12 < 1`). The last month is sampled only when
  `years * 12` is whole.
- **Reference definitions and loops.** Every loop in the source is a method
  whose loop invariants tie it to a recursive reference definition:
  - `Compound.Projection` and `Compound.BalanceAfter` for the helper;
  - `DebtPayoff.DebtAfter`, `DebtPayoff.PayoffMonth` and `DebtPayoff.PayoffSeries`
    for the payoff loop;
  - `Budget.Total` and `Budget.GroupByCategory` for the two `reduce` calls.

  The lemmas state the properties of the reference definitions.

## Model

| member | source | states |
|---|---|---|
| Common.Max | src/routes/calculations.js:170 | `Math.max` is an upper bound of both arguments and equals one of them |
| Common.Min | src/routes/calculations.js:160 | `Math.min` is a lower bound of both arguments and equals one of them |
| Rounding.Round2 | src/routes/calculations.js:34 | `parseFloat(x.toFixed(2))` is within half a cent of `x` |
| Rounding.Round1 | src/routes/calculations.js:169 | `parseFloat(x.toFixed(1))` is within 0.05 of `x` |
| Rounding.Round2Monotone | src/routes/calculations.js:27 | rounding to cents never reverses the order of two amounts |
| Rounding.Round2Idempotent | src/routes/calculations.js:34 | a rounded amount rounds to itself |
| Rounding.Round2PositiveIff | src/routes/calculations.js:113 | a rounded amount is positive exactly when the exact amount is at least half a cent |
| Compound.Credit | src/routes/calculations.js:14-17 | definition; no contract: the month's interest, on the balance after the contribution is added |
| Compound.GrowthStep | src/routes/calculations.js:14-20 | definition; no contract: the balance after one month, contribution then interest |
| Compound.BalanceAfter | src/routes/calculations.js:12-20 | definition; no contract: the reference balance after `m` months of the loop |
| Compound.MonthInterest | src/routes/calculations.js:17 | definition; no contract: the interest credited in month `m` |
| Compound.InterestEarned | src/routes/calculations.js:17 | definition; no contract: the independent reference sum of every month's interest, which `Compound.ReportedIsEarned` compares with line 35 |
| Compound.InterestReported | src/routes/calculations.js:35 | definition; no contract: balance less principal less `monthlyContribution * totalMonths`, before rounding |
| Compound.PointsAt | src/routes/calculations.js:22-30 | one sample point per recorded month, and the i-th point is the month-`i` point with that month's year, rounded balance and rounded interest |
| Compound.Projection | src/routes/calculations.js:5-38 | definition; no contract: the helper as a function, the reference `Compound.CompoundInterest` is proved equal to |
| Compound.MonthlyRate | src/routes/calculations.js:6 | the monthly rate is the annual percentage divided by 1200 |
| Compound.MonthCount | src/routes/calculations.js:7-12 | the loop runs no months when `years * 12 < 1`, otherwise the whole part of `years * 12` |
| Compound.YearOf | src/routes/calculations.js:26 | `Math.ceil(month / 12)` is the least year whose twelve months reach `month` |
| Compound.SampleMonths | src/routes/calculations.js:23 | every recorded month lies between 1 and the months run, and meets the sampling condition |
| Compound.IsSampled | src/routes/calculations.js:23 | definition; no contract: a month is recorded when it is a multiple of 12, the first, or equal to `years * 12` |
| Compound.PointAt | src/routes/calculations.js:24-29 | definition; no contract: the point for month `m`, with its year, rounded balance and rounded interest |
| Compound.AccrueMonth | src/routes/calculations.js:14-20 | one month multiplies balance plus contribution by one plus the rate, and the balance grows by exactly the contribution plus the interest |
| Compound.GrowthMonth | src/routes/calculations.js:12-31 | one loop pass advances the balance by one month and appends a point exactly when the month is sampled |
| Compound.CompoundInterest | src/routes/calculations.js:5-38 | the loop returns the reference projection: the rounded balance after the months run, the rounded interest figure, and the sampled points |
| Compound.InvestmentGrowth | src/routes/calculations.js:41-68 | the route answers 400 exactly when a field is not a number, and otherwise the helper's result |
| Compound.MonthStepFactored | src/routes/calculations.js:12-20 | each month the balance becomes (balance + contribution) × (1 + annualRate/100/12) |
| Compound.NoMonthsNoChange | src/routes/calculations.js:7-36 | with fewer than one month to run, the final balance is the rounded principal and there are no samples |
| Compound.ZeroYearRoundTrip | src/routes/calculations.js:33-35 | a reported final balance fed back as the principal of a zero-year run comes back unchanged |
| Compound.BalanceDecomposes | src/routes/calculations.js:12-20 | the balance after `n` months is the principal plus `n` contributions plus every month's interest |
| Compound.TotalInterestIsInterestEarned | src/routes/calculations.js:35 | when `years * 12` is whole, the reported interest is the rounded sum of the monthly interest amounts |
| Compound.ReportedIsEarned | src/routes/calculations.js:35 | balance − principal − contribution × months is exactly the interest earned over those months |
| Compound.GrowthMonotone | src/routes/calculations.js:12-20 | with no negative principal, contribution or rate, the balance never falls below the principal and never decreases |
| Compound.SampleMonthsIncreasing | src/routes/calculations.js:23-30 | the recorded months are strictly increasing |
| Compound.SampleMonthsComplete | src/routes/calculations.js:23 | every month that meets the sampling condition is recorded |
| Compound.SamplesValid | src/routes/calculations.js:23-29 | each sample is a sampled month the loop ran, with that month's rounded balance and interest |
| Compound.SamplesIncreasing | src/routes/calculations.js:23-30 | samples are in strictly increasing month order |
| Compound.SamplesComplete | src/routes/calculations.js:23 | every sampled month the loop ran has a sample |
| Compound.ProjectionSamples | src/routes/calculations.js:23-30 | the samples are exactly the sampled months among those run, in increasing order, each with that month's rounded balance and interest |
| Compound.LastMonthSampled | src/routes/calculations.js:23 | when `years * 12` is a whole positive number, the last sample is the last month |
| Compound.SampledBalancesMonotone | src/routes/calculations.js:14-29 | in a growth scenario the sampled balances never decrease |
| Retirement.DrawdownBalance | src/routes/calculations.js:100-105 | definition; no contract: the exact drawdown balance at the end of retirement |
| Retirement.RetirementProjection | src/routes/calculations.js:71-116 | the drawdown starts from the accumulation's rounded final balance, withdraws the expenses at the real rate for the remaining years, and is sustainable exactly when its exact final balance is at least half a cent |
| Retirement.DepletionPersists | src/routes/calculations.js:100-105 | with withdrawals and a rate no worse than −100% a month, a balance at or below zero stays there |
| Retirement.SustainableNeverDepleted | src/routes/calculations.js:100-113 | a sustainable plan's balance is positive at every month of retirement |
| Retirement.ZeroRealReturnIsLinear | src/routes/calculations.js:97-105 | with returns equal to inflation, the balance falls by the expenses each month and goes negative rather than stopping at zero |
| Retirement.ReportedPositiveIff | src/routes/calculations.js:113 | the reported drawdown balance is positive exactly when the exact drawdown balance is at least half a cent |
| Retirement.ZeroRealReturnSustainable | src/routes/calculations.js:97-113 | with returns equal to inflation, the plan is sustainable exactly when the savings exceed all withdrawals by at least half a cent |
| DebtPayoff.PaymentDue | src/routes/calculations.js:160 | definition; no contract: `Math.min(monthlyPayment, balance + interest)` |
| DebtPayoff.DebtAfter | src/routes/calculations.js:152-163 | definition; no contract: the reference balance after `k` months |
| DebtPayoff.InterestAccrued | src/routes/calculations.js:157 | definition; no contract: the interest summed over the first `k` months |
| DebtPayoff.PaidAfter | src/routes/calculations.js:160 | definition; no contract: the independent sum of the payments made over the first `k` months, which `DebtPayoff.PaidPlusOwed` relates to line 217 |
| DebtPayoff.PayoffMonth | src/routes/calculations.js:152 | definition; no contract (see `DebtPayoff.PayoffMonthIsFirst`): the month the loop stops at |
| DebtPayoff.TotalInterest | src/routes/calculations.js:157 | definition; no contract: the interest accrued until the loop stops |
| DebtPayoff.PayoffSeries | src/routes/calculations.js:165-175 | definition; no contract: the points written during the first `k` months |
| DebtPayoff.StrategyMonth | src/routes/calculations.js:196-202 | definition; no contract: the month the +10% re-run stops at |
| DebtPayoff.PayStep | src/routes/calculations.js:156-163 | one month of amortisation never leaves a negative balance |
| DebtPayoff.ExitMonthFrom | src/routes/calculations.js:152 | the loop's stopping month is never beyond month 1200 |
| DebtPayoff.ExitMonthFromIsFirst | src/routes/calculations.js:152-176 | the loop stops at the first month whose balance is paid off, or at 1200 when there is none before |
| DebtPayoff.PayoffMonthIsFirst | src/routes/calculations.js:152-176 | from the start, the loop stops at the first paid-off month, or at 1200 |
| DebtPayoff.IsRecorded | src/routes/calculations.js:166 | definition; no contract: a month is recorded when it is the first, a multiple of 3 or 12, or the balance is paid off |
| DebtPayoff.PayoffPointAt | src/routes/calculations.js:167-174 | definition; no contract: the point for month `m`, with the balance clamped at zero for display and every amount rounded |
| DebtPayoff.AmortiseMonth | src/routes/calculations.js:156-163 | the interest is balance × rate; payment plus balance left equals balance plus interest; nothing is overpaid (balance left never negative, payment never above the fixed one), and a smaller payment clears the debt |
| DebtPayoff.PayoffMonthStep | src/routes/calculations.js:153-175 | one loop pass advances balance, interest and series by one month, recording the month exactly when it is a first, third, twelfth or paid-off month |
| DebtPayoff.SimulatePayoff | src/routes/calculations.js:146-176 | the loop ends at the stopping month with the interest accrued until then and the series of recorded months |
| DebtPayoff.RunPayoff | src/routes/calculations.js:192-202 | the strategy re-run ends at the stopping month for the larger payment, with its interest |
| DebtPayoff.StrategyGuard | src/routes/calculations.js:189 | `payment * 1.1 < payment + 1000` holds exactly for payments below 10000 |
| DebtPayoff.ExtraPayment | src/routes/calculations.js:190 | the rounded extra payment is never negative for a non-negative payment |
| DebtPayoff.StrategyPayment | src/routes/calculations.js:191 | the strategy's payment is never smaller than the original for a non-negative payment |
| DebtPayoff.PlanStrategies | src/routes/calculations.js:186-211 | the strategy list is the +10% strategy when the guard holds and it finishes sooner, with the months and rounded interest saved, and empty otherwise |
| DebtPayoff.ReportPayoff | src/routes/calculations.js:146-220 | the report is an error exactly when the loop reaches month 1200; otherwise it holds the stopping month, rounded years, interest and total paid, the series and the strategies |
| DebtPayoff.PlanPayoff | src/routes/calculations.js:136-220 | the payment is rejected with the rounded minimum exactly when it does not exceed the first month's interest at a positive rate; "too long" exactly when it passes and the loop reaches 1200 |
| DebtPayoff.MinimumPayment | src/routes/calculations.js:137-138 | definition; no contract: the first month's interest on the debt |
| DebtPayoff.BelowMinimum | src/routes/calculations.js:140 | definition; no contract: the payment does not exceed the minimum and the rate is positive |
| DebtPayoff.StrategiesFor | src/routes/calculations.js:186-211 | definition; no contract (its shape is `DebtPayoff.StrategiesShape`): the +10% strategy with months and rounded interest saved, when the guard holds and it finishes sooner |
| DebtPayoff.DebtPayoffHandler | src/routes/calculations.js:119-221 | 400 "invalid input" exactly when a field is not a number; for numbers, the minimum-payment error carrying the rounded minimum and the "too long" error as in `PlanPayoff`, and on success every reported field: months, rounded years, interest and total paid, the series and the strategies |
| DebtPayoff.PayoffSettles | src/routes/calculations.js:152-217 | when the loop stops before 1200, it ran at least once exactly when there was a debt; the balance is then exactly zero and the payments add up to debt plus interest |
| DebtPayoff.PaidPlusOwed | src/routes/calculations.js:156-163 | after any month, payments made plus balance owing equal debt plus interest accrued |
| DebtPayoff.LargerPaymentOwesLess | src/routes/calculations.js:156-163 | a larger payment never leaves more owing after any number of months |
| DebtPayoff.PayStepMonotone | src/routes/calculations.js:156-163 | one month leaves less owing from a smaller balance with a larger payment |
| DebtPayoff.ExitNoLaterThan | src/routes/calculations.js:152 | the loop stops no later than any month whose balance is paid off |
| DebtPayoff.LargerPaymentNeverSlower | src/routes/calculations.js:152-176 | a larger payment never takes more months |
| DebtPayoff.StrategyNeverSlower | src/routes/calculations.js:189-204 | the +10% payment never finishes later than the original |
| DebtPayoff.StrategiesShape | src/routes/calculations.js:189-210 | at most one strategy is listed, it saves at least one month, and none is listed exactly when the payment is 10000 or more or no month is saved |
| DebtPayoff.ZeroRateLinear | src/routes/calculations.js:156-163 | at a zero rate each month removes exactly one payment while a payment is owing |
| DebtPayoff.Converges | src/routes/calculations.js:152-163 | with a payment above the first month's interest at a non-negative rate, the balance stays between zero and the debt and, until cleared, falls by at least `payment - debt * rate` every month |
| DebtPayoff.PassingGuardFinishes | src/routes/calculations.js:137-183 | a payment that strictly clears the minimum-payment guard pays the debt off within any `k <= 1200` months whose margins cover the debt |
| DebtPayoff.ThousandAtTwelvePercent | src/routes/calculations.js:137-183 | a debt of 1000 at 12% a year paid at 100 a month passes the guard and is paid off within 12 months |
| DebtPayoff.ExactCapPayoffIsTooLong | src/routes/calculations.js:179-183 | a debt paid off in exactly month 1200 still stops the loop at 1200 and passes the minimum-payment guard, so it is reported as taking too long |
| Budget.Total | src/routes/calculations.js:242 | definition; no contract: the left-fold sum of the amounts |
| Budget.CategoryTotal | src/routes/calculations.js:253-259 | definition; no contract: the independent reference sum of one category's amounts, which `Budget.GroupAmountIsCategoryTotal` compares with the grouping |
| Budget.GroupByCategory | src/routes/calculations.js:253-259 | definition; no contract: the grouping `reduce`, one `Budget.AddExpense` per expense |
| Budget.SavingsGoal | src/routes/calculations.js:249 | definition; no contract: `monthlyIncome * (savingsGoalPercent / 100)` |
| Budget.AddExpense | src/routes/calculations.js:253-259 | grouping one more expense keeps every existing category in place and appends its category at the end exactly when it is new, with the expense's amount; the change to the totals is stated by `Budget.AddExpenseAmount` |
| Budget.SumAndGroup | src/routes/calculations.js:242-259 | the two `reduce` loops compute the left-fold sum and the grouping |
| Budget.Percentage | src/routes/calculations.js:265 | a share of income is absent (`null`) exactly for a zero income, and otherwise within 0.005 of the exact percentage |
| Budget.Shares | src/routes/calculations.js:262-266 | the breakdown keeps the grouping's order, categories and amounts, each with its share of income |
| Budget.BudgetAnalysis | src/routes/calculations.js:224-278 | 400 exactly when a field has the wrong type; otherwise the total, the savings as income less total, the goal, the rounded gap, and "meeting the goal" exactly when savings reach the goal |
| Budget.AddExpenseAmount | src/routes/calculations.js:253-259 | grouping an expense raises its own category's total by its amount and leaves every other total alone |
| Budget.AddExpenseSum | src/routes/calculations.js:253-259 | grouping an expense raises the sum of the totals by its amount |
| Budget.GroupsDistinct | src/routes/calculations.js:253-259 | the grouping lists each category once |
| Budget.GroupsCoverCategories | src/routes/calculations.js:253-259 | a category is grouped exactly when some expense carries it |
| Budget.GroupAmountIsCategoryTotal | src/routes/calculations.js:253-259 | each grouped amount is the sum of that category's expenses |
| Budget.GroupsSumIsTotal | src/routes/calculations.js:242-259 | the grouped amounts add up to the total expenses |
| Budget.Breakdown | src/routes/calculations.js:242-266 | the breakdown has one entry per category that occurs, each with that category's sum and share, and the amounts add up to the total |
| Scenarios.HasId | src/routes/scenarios.js:43 | definition; no contract: the `s.id === id` test of the find, find-index and filter callbacks (lines 43, 86, 111) |
| Scenarios.Truthy | src/routes/scenarios.js:65-71 | definition; no contract: JavaScript truthiness of a JSON value |
| Scenarios.OrDefault | src/routes/scenarios.js:65-71 | definition; no contract: the body's value when it is truthy, otherwise the default |
| Scenarios.CopyIfPresent | src/routes/scenarios.js:61-62 | definition; no contract: a property copied from the body, absent when the body's is `undefined` |
| Scenarios.NewScenario | src/routes/scenarios.js:59-72 | definition; no contract (its properties are the `Create...` lemmas below): the record the POST route builds |
| Scenarios.Merged | src/routes/scenarios.js:92-97 | definition; no contract (its properties are `Scenarios.MergedFields`): the spread of the old record, then the body, then the new timestamp and the path id |
| Scenarios.FindIndex | src/routes/scenarios.js:86 | the index found holds the id and no earlier record does; none is found exactly when no record holds the id |
| Scenarios.Get | src/routes/scenarios.js:41-50 | a record is found exactly when some record holds the id, and it is the first such record |
| Scenarios.GetIgnoresTail | src/routes/scenarios.js:43 | the lookup never looks past the first record with the id |
| Scenarios.GetSkipsFront | src/routes/scenarios.js:43 | records without the id in front of the list do not change the lookup |
| Scenarios.Create | src/routes/scenarios.js:53-81 | a successful create appends exactly the record the route builds (`NewScenario`, so the defaults, copies and stamps of its lemmas hold of the output) and replies with it; a failed write changes nothing |
| Scenarios.CreateStamps | src/routes/scenarios.js:57-64 | the new record has the generated id and the two timestamps |
| Scenarios.CreateDefaults | src/routes/scenarios.js:65-71 | each defaulted field takes a truthy body value, and otherwise 0, `[]`, 2 or 10 |
| Scenarios.ExplicitZeroInflationBecomesTwo | src/routes/scenarios.js:70 | an explicit zero inflation rate is stored as 2 |
| Scenarios.CreateCopiesText | src/routes/scenarios.js:61-62 | `name` and `description` are stored exactly when the body has them, with the body's values |
| Scenarios.CreateKeys | src/routes/scenarios.js:59-72 | the new record has no properties beyond the named ones, so it spells no property twice |
| Scenarios.CreateThenGet | src/routes/scenarios.js:53-81 | after creating under a fresh id, a lookup of it finds the new record, and every other id finds what it did before |
| Scenarios.Update | src/routes/scenarios.js:84-106 | an unknown id gives 404 and no change; otherwise only the first matching record is replaced by the merge, and a failed write changes nothing |
| Scenarios.MergedFields | src/routes/scenarios.js:92-97 | the merged record has the path id and the new timestamp, every other body field, and every old field the body does not name |
| Scenarios.MergedWellKeyed | src/routes/scenarios.js:92-97 | merging two records that spell no property twice gives such a record |
| Scenarios.UpdateThenGet | src/routes/scenarios.js:84-106 | after an update, a lookup of the id finds the merged record, even when the body carried another id |
| Scenarios.UnknownIdChangesNothing | src/routes/scenarios.js:84-115 | an unknown id leaves the store unchanged and answers 404, for update and delete alike |
| Scenarios.RemoveId | src/routes/scenarios.js:111 | the filter keeps exactly the records without the id, and keeps the length exactly when no record holds the id |
| Scenarios.Delete | src/routes/scenarios.js:109-122 | 404 exactly when no record holds the id; when some record holds it and the write succeeds, the route writes the filtered array and answers success; a failed write changes nothing |
| Scenarios.RemoveIdAppend | src/routes/scenarios.js:111 | filtering a concatenation filters each part, so survivors keep their order |
| Scenarios.RemoveIdIdempotent | src/routes/scenarios.js:111 | filtering twice removes nothing more |
| Scenarios.DeleteThenGet | src/routes/scenarios.js:109-122 | after a delete, the id is no longer found |
| Scenarios.DeleteKeepsOthers | src/routes/scenarios.js:109-122 | a delete leaves every other id's lookup unchanged |

## Behaviour worth knowing

The code does several things a reader might not expect. The model keeps
each one:

- **Order within a month.** `/debt-payoff` charges the interest first, then
  pays `min(payment, balance + interest)`. The growth helper does the
  reverse: it adds the contribution first, then credits interest on the sum.
- **Month 1200.** The handler tests `month >= 1200` and not the balance. A
  debt paid off in exactly month 1200 is therefore rejected as taking too
  long (`DebtPayoff.ExactCapPayoffIsTooLong`).
- **Strategy guard.** `monthlyPayment * 1.1 < monthlyPayment + 1000` holds
  exactly for payments below 10000 (`DebtPayoff.StrategyGuard`). From 10000
  upwards no strategy is offered. The extra payment is rounded to cents
  before use.
- **Retirement.** The route validates nothing: the ages may be in any order.
  The drawdown balance is not clamped at zero and goes negative
  (`Retirement.ZeroRealReturnIsLinear`). `sustainable` tests the rounded
  final balance.
- **Total interest.** The helper subtracts `monthlyContribution * years * 12`
  from the *unrounded* final balance. That product counts a fractional month
  when `years * 12` is not whole, even though the loop did not run it.
- **Sampling.** Both series are sparse:
  - growth records month 1, every 12th month, and the last month when
    `years * 12` is whole;
  - debt records month 1, every 3rd month and the payoff month.

## Left out

- **Floating point.** IEEE-754 rounding, overflow, `NaN` and `Infinity` are
  not modelled. Arithmetic is exact over the reals. The one non-finite case
  kept is division by a zero income in the budget route. It yields
  `Infinity` or `NaN`, which JSON writes as `null`; the model has `None`.
- **`toFixed` formats.** `toFixed` switches to exponent notation at `1e21`
  and above. That, and the digit string itself, are not modelled. The model
  keeps only the numeric value `parseFloat` reads back.
- **HTTP wiring.** Express routing, status codes and message texts become
  error variants. This includes the strategy's description string, which
  the model keeps only as the amount it names.
- **Requests.** A request body is a set of fields. Each field is a number
  or not (`Common.Field`). The retirement route checks nothing, and its
  inputs are taken as numbers. What JavaScript does with other values there
  is not modelled:
  - it coerces them (`null` becomes 0);
  - it concatenates them (a string `monthlySavings` turns `balance += ...`
    into string concatenation);
  - or the handler throws at `toFixed` and Express answers 500.
- **Budget expenses.** Each expense is taken as `{category: string, amount: number}`.
  Not modelled:
  - amounts that are not numbers (JavaScript would concatenate strings or
    produce `NaN`);
  - categories that are not strings, which JavaScript coerces to strings;
  - categories that name an `Object.prototype` member (`constructor`,
    `__proto__`), which the plain-object accumulator mishandles;
  - `Object.entries` ordering integer-like keys first. The model keeps
    insertion order for all categories.
- **Scenario file.** File reading is out of the model, and so is a failed
  read turning into an empty array: the store is an argument. Contents that
  are not an array of objects are not modelled.
- **Failed writes.** After a failed write the model keeps the store
  unchanged. A partial write is not modelled.
- **Ids and timestamps.** `Date.now()` ids and ISO timestamps are arguments.
  Nothing guarantees that ids are unique, so `Scenarios.CreateThenGet`
  assumes a fresh id.
- **GET `/` (list all)** returns the stored array unchanged and has no
  logic to model.
- **JSON property order** in responses and in the stored file is not
  modelled; records are maps.
- **Property names.** A `Scenario` map could in principle hold both `Id`
  and `Other("id")`, which no JSON object can. The type does not rule this
  out. `Scenarios.WellKeyed` states the restriction. `Scenarios.CreateKeys`
  and `Scenarios.MergedWellKeyed` show that create and update never break
  it. The other lemmas do not assume it.
- **Request bodies** that are not objects are not modelled. Neither is a
  body with a `__proto__` key spread into a record.
- **Other files.** The client (`public/js/app.js`), the server set-up and the
  serverless entry point are not part of this model.
