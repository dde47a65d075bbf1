/** The `/retirement-projection` handler: two runs of the compound-interest
    helper chained together.

    The accumulation phase grows `currentSavings` with `monthlySavings` at the
    nominal rate for `retirementAge - currentAge` years. The drawdown phase
    starts from the accumulation phase's reported (rounded) final balance and
    withdraws `monthlyExpensesInRetirement` each month at the real rate
    `annualReturnRate - inflationRate` for `lifeExpectancy - retirementAge`
    years. The plan is sustainable when the reported drawdown balance is
    positive. The handler validates nothing, and the drawdown balance is not
    clamped at zero. */
module Retirement {
  import opened Common
  import opened Rounding
  import opened Compound

  datatype Summary = Summary(retirementSavings: real, finalBalance: real, sustainable: bool)

  datatype RetirementPlan = RetirementPlan(preRetirement: Growth, postRetirement: Growth, summary: Summary)

  /** The exact (unrounded) drawdown balance at the end of retirement. */
  function DrawdownBalance(retirementBalance: real, monthlyExpensesInRetirement: real,
                           realReturnRate: real, yearsInRetirement: real): real
  {
    BalanceAfter(retirementBalance, -monthlyExpensesInRetirement, MonthlyRate(realReturnRate),
                 MonthCount(yearsInRetirement * 12.0))
  }

  /** The handler body: the accumulation run, then the drawdown run from its
      rounded final balance, then the summary. `sustainable` tests the rounded
      drawdown balance, so it holds exactly when the exact balance is at least
      half a cent. */
  method RetirementProjection(currentAge: real, retirementAge: real, lifeExpectancy: real,
                              currentSavings: real, monthlySavings: real, annualReturnRate: real,
                              inflationRate: real, monthlyExpensesInRetirement: real)
    returns (r: RetirementPlan)
    ensures r.preRetirement == Projection(currentSavings, monthlySavings, annualReturnRate, retirementAge - currentAge)
    ensures r.postRetirement == Projection(r.preRetirement.finalBalance, -monthlyExpensesInRetirement,
                                           annualReturnRate - inflationRate, lifeExpectancy - retirementAge)
    ensures r.summary.retirementSavings == r.preRetirement.finalBalance
    ensures r.summary.finalBalance == r.postRetirement.finalBalance
    ensures r.summary.sustainable <==>
              DrawdownBalance(r.summary.retirementSavings, monthlyExpensesInRetirement,
                              annualReturnRate - inflationRate, lifeExpectancy - retirementAge) >= 0.005
  {
    var yearsToRetirement := retirementAge - currentAge;
    var preRetirementGrowth := CompoundInterest(currentSavings, monthlySavings, annualReturnRate, yearsToRetirement);
    var yearsInRetirement := lifeExpectancy - retirementAge;
    var retirementBalance := preRetirementGrowth.finalBalance;
    var realReturnRate := annualReturnRate - inflationRate;
    var postRetirementProjection := CompoundInterest(retirementBalance, -monthlyExpensesInRetirement,
                                                     realReturnRate, yearsInRetirement);
    Round2PositiveIff(DrawdownBalance(retirementBalance, monthlyExpensesInRetirement, realReturnRate, yearsInRetirement));
    r := RetirementPlan(preRetirementGrowth, postRetirementProjection,
                        Summary(retirementBalance, postRetirementProjection.finalBalance,
                                postRetirementProjection.finalBalance > 0.0));
  }

  /** With withdrawals and a monthly rate no worse than -100%, a balance that
      has reached zero or below stays there: the drawdown never recovers. */
  lemma {:induction false} DepletionPersists(start: real, withdrawal: real, rate: real, m: nat, m': nat)
    requires withdrawal >= 0.0 && rate >= -1.0
    requires m <= m'
    requires BalanceAfter(start, -withdrawal, rate, m) <= 0.0
    ensures BalanceAfter(start, -withdrawal, rate, m') <= 0.0
    decreases m' - m
  {
    if m < m' {
      var b := BalanceAfter(start, -withdrawal, rate, m);
      MonthStep(start, -withdrawal, rate, m + 1);
      assert b - withdrawal <= 0.0;
      assert (b - withdrawal) * (1.0 + rate) <= 0.0;
      DepletionPersists(start, withdrawal, rate, m + 1, m');
    }
  }

  /** A sustainable plan (non-negative withdrawals, a real rate above -1200%
      a year) never ran dry at any month of retirement. */
  lemma SustainableNeverDepleted(retirementBalance: real, monthlyExpensesInRetirement: real,
                                 realReturnRate: real, yearsInRetirement: real, m: nat)
    requires monthlyExpensesInRetirement >= 0.0 && realReturnRate >= -1200.0
    requires Projection(retirementBalance, -monthlyExpensesInRetirement, realReturnRate, yearsInRetirement).finalBalance > 0.0
    requires m <= MonthCount(yearsInRetirement * 12.0)
    ensures BalanceAfter(retirementBalance, -monthlyExpensesInRetirement, MonthlyRate(realReturnRate), m) > 0.0
  {
    var rate := MonthlyRate(realReturnRate);
    var n := MonthCount(yearsInRetirement * 12.0);
    Round2PositiveIff(BalanceAfter(retirementBalance, -monthlyExpensesInRetirement, rate, n));
    if BalanceAfter(retirementBalance, -monthlyExpensesInRetirement, rate, m) <= 0.0 {
      DepletionPersists(retirementBalance, monthlyExpensesInRetirement, rate, m, n);
    }
  }

  /** When the return exactly matches inflation, each month simply removes
      the expenses: the balance is the start less `m` withdrawals, and it goes
      negative rather than stopping at zero. */
  lemma {:induction false} ZeroRealReturnIsLinear(start: real, withdrawal: real, m: nat)
    ensures BalanceAfter(start, -withdrawal, 0.0, m) == start - withdrawal * (m as real)
  {
    if m > 0 {
      ZeroRealReturnIsLinear(start, withdrawal, m - 1);
      MonthStep(start, -withdrawal, 0.0, m);
      ScaleStep(withdrawal, m);
    }
  }

  /** The reported drawdown balance is positive exactly when the exact one
      is at least half a cent. */
  lemma ReportedPositiveIff(retirementBalance: real, monthlyExpensesInRetirement: real,
                            realReturnRate: real, yearsInRetirement: real)
    ensures Projection(retirementBalance, -monthlyExpensesInRetirement, realReturnRate, yearsInRetirement).finalBalance > 0.0
            <==> DrawdownBalance(retirementBalance, monthlyExpensesInRetirement, realReturnRate, yearsInRetirement) >= 0.005
  {
    var balance := DrawdownBalance(retirementBalance, monthlyExpensesInRetirement, realReturnRate, yearsInRetirement);
    ProjectionFields(retirementBalance, -monthlyExpensesInRetirement, realReturnRate, yearsInRetirement, balance);
    Round2PositiveIff(balance);
  }

  /** With a zero real return the plan is sustainable exactly when the
      savings cover every withdrawal with at least half a cent to spare. */
  lemma ZeroRealReturnSustainable(retirementBalance: real, monthlyExpensesInRetirement: real,
                                  annualReturnRate: real, inflationRate: real, yearsInRetirement: real)
    requires annualReturnRate == inflationRate
    ensures var months := MonthCount(yearsInRetirement * 12.0);
            Projection(retirementBalance, -monthlyExpensesInRetirement, annualReturnRate - inflationRate,
                       yearsInRetirement).finalBalance > 0.0
            <==> retirementBalance - monthlyExpensesInRetirement * (months as real) >= 0.005
  {
    var months := MonthCount(yearsInRetirement * 12.0);
    assert MonthlyRate(annualReturnRate - inflationRate) == 0.0;
    ReportedPositiveIff(retirementBalance, monthlyExpensesInRetirement, annualReturnRate - inflationRate,
                        yearsInRetirement);
    ZeroRealReturnIsLinear(retirementBalance, monthlyExpensesInRetirement, months);
  }
}
