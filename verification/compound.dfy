/** `calculateCompoundInterest` and the `/investment-growth` handler that wraps it.

    The helper steps a balance month by month: it adds the monthly contribution
    first and then applies one month of interest, `annualRate / 100 / 12`, to
    the new balance. It keeps a sparse list of sample points and reports the
    final balance and the total interest, both rounded to cents. */
module Compound {
  import opened Common
  import opened Rounding

  /** Monthly interest rate of an annual percentage rate. */
  function MonthlyRate(annualRate: real): (rate: real)
    ensures rate * 1200.0 == annualRate
  {
    annualRate / 100.0 / 12.0
  }

  /** How many times `for (month = 1; month <= totalMonths; month++)` runs. */
  function MonthCount(totalMonths: real): (n: nat)
    ensures n == 0 <==> totalMonths < 1.0
    ensures n > 0 ==> n as real <= totalMonths < n as real + 1.0
  {
    if totalMonths < 1.0 then 0 else totalMonths.Floor
  }

  /** The interest one month credits: the rate applied to the balance after
      the month's contribution. */
  function Credit(balance: real, contribution: real, rate: real): real
  {
    (balance + contribution) * rate
  }

  /** One month of growth: the contribution is added, then interest accrues on
      the new balance. */
  function GrowthStep(balance: real, contribution: real, rate: real): real
  {
    (balance + contribution) + Credit(balance, contribution, rate)
  }

  /** The running balance after `m` months. */
  function BalanceAfter(principal: real, contribution: real, rate: real, m: nat): real
  {
    if m == 0 then principal
    else GrowthStep(BalanceAfter(principal, contribution, rate, m - 1), contribution, rate)
  }

  /** The interest credited in month `m` (counted from 1). */
  function MonthInterest(principal: real, contribution: real, rate: real, m: nat): real
    requires m >= 1
  {
    Credit(BalanceAfter(principal, contribution, rate, m - 1), contribution, rate)
  }

  /** The interest credited over the first `n` months. */
  function InterestEarned(principal: real, contribution: real, rate: real, n: nat): real
  {
    if n == 0 then 0.0
    else InterestEarned(principal, contribution, rate, n - 1) + MonthInterest(principal, contribution, rate, n)
  }

  /** `Math.ceil(month / 12)`: the year a month falls in. */
  function YearOf(month: nat): (year: nat)
    ensures month <= 12 * year
    ensures month >= 1 ==> 12 * (year - 1) < month
  {
    (month + 11) / 12
  }

  /** One sample point of the growth series. */
  datatype DataPoint = DataPoint(month: nat, year: nat, balance: real, interest: real)

  /** The helper's result: `finalBalance`, `totalInterest`, `monthlyData`. */
  datatype Growth = Growth(finalBalance: real, totalInterest: real, monthlyData: seq<DataPoint>)

  /** The months that are recorded: the first, every twelfth, and the month
      equal to `totalMonths` (which exists only when `years * 12` is whole). */
  predicate IsSampled(month: nat, totalMonths: real)
  {
    month % 12 == 0 || month == 1 || month as real == totalMonths
  }

  /** The months recorded during the first `n` months, oldest first. */
  function SampleMonths(totalMonths: real, n: nat): (months: seq<nat>)
    ensures forall i :: 0 <= i < |months| ==> 1 <= months[i] <= n && IsSampled(months[i], totalMonths)
  {
    if n == 0 then []
    else SampleMonths(totalMonths, n - 1) + (if IsSampled(n, totalMonths) then [n] else [])
  }

  /** The sample point written for month `m`. */
  function PointAt(principal: real, contribution: real, rate: real, m: nat): DataPoint
    requires m >= 1
  {
    DataPoint(m, YearOf(m),
              Round2(BalanceAfter(principal, contribution, rate, m)),
              Round2(MonthInterest(principal, contribution, rate, m)))
  }

  /** The sample points written for a list of months. */
  function PointsAt(principal: real, contribution: real, rate: real, months: seq<nat>): (points: seq<DataPoint>)
    requires forall i :: 0 <= i < |months| ==> months[i] >= 1
    ensures |points| == |months|
    ensures forall i :: 0 <= i < |months| ==> points[i] == PointAt(principal, contribution, rate, months[i])
  {
    if |months| == 0 then []
    else PointsAt(principal, contribution, rate, months[..|months| - 1])
         + [PointAt(principal, contribution, rate, months[|months| - 1])]
  }

  /** The helper's `totalInterest` before rounding: the final balance less the
      principal less the contribution times `years * 12`. */
  function InterestReported(balance: real, principal: real, contribution: real, totalMonths: real): real
  {
    balance - principal - contribution * totalMonths
  }

  /** The result the helper computes: the balance after the loop's months,
      the interest as final balance less principal less
      `contribution * years * 12`, and the recorded samples. */
  function Projection(principal: real, contribution: real, annualRate: real, years: real): Growth
  {
    var rate := MonthlyRate(annualRate);
    var totalMonths := years * 12.0;
    var n := MonthCount(totalMonths);
    var balance := BalanceAfter(principal, contribution, rate, n);
    Growth(Round2(balance),
           Round2(InterestReported(balance, principal, contribution, totalMonths)),
           PointsAt(principal, contribution, rate, SampleMonths(totalMonths, n)))
  }

  /** The fields of `Projection` in terms of the balance after the loop. */
  lemma ProjectionFields(principal: real, contribution: real, annualRate: real, years: real, balance: real)
    requires balance == BalanceAfter(principal, contribution, MonthlyRate(annualRate), MonthCount(years * 12.0))
    ensures Projection(principal, contribution, annualRate, years)
            == Growth(Round2(balance), Round2(InterestReported(balance, principal, contribution, years * 12.0)),
                      PointsAt(principal, contribution, MonthlyRate(annualRate),
                               SampleMonths(years * 12.0, MonthCount(years * 12.0))))
  {
  }

  /** One more month adds that month to the recorded months exactly when it
      is sampled. */
  lemma SampleStep(totalMonths: real, n: nat)
    requires n >= 1
    ensures SampleMonths(totalMonths, n)
            == SampleMonths(totalMonths, n - 1) + (if IsSampled(n, totalMonths) then [n] else [])
  {
  }

  /** Recording one more month appends its point. */
  lemma PointsAtSnoc(principal: real, contribution: real, rate: real, months: seq<nat>, m: nat)
    requires forall i :: 0 <= i < |months| ==> months[i] >= 1
    requires m >= 1
    ensures PointsAt(principal, contribution, rate, months + [m])
            == PointsAt(principal, contribution, rate, months) + [PointAt(principal, contribution, rate, m)]
  {
    assert (months + [m])[..|months|] == months;
  }

  /** Month `m` in terms of month `m - 1`: the contribution and that month's
      interest are added. */
  lemma MonthStep(principal: real, contribution: real, rate: real, m: nat)
    requires m >= 1
    ensures MonthInterest(principal, contribution, rate, m)
            == Credit(BalanceAfter(principal, contribution, rate, m - 1), contribution, rate)
    ensures BalanceAfter(principal, contribution, rate, m)
            == BalanceAfter(principal, contribution, rate, m - 1) + contribution
               + MonthInterest(principal, contribution, rate, m)
  {
  }

  /** The sample point for month `m` in terms of the balance before it. */
  lemma PointStep(principal: real, contribution: real, rate: real, m: nat, before: real)
    requires m >= 1
    requires before == BalanceAfter(principal, contribution, rate, m - 1)
    ensures PointAt(principal, contribution, rate, m)
            == DataPoint(m, YearOf(m), Round2(GrowthStep(before, contribution, rate)),
                         Round2(Credit(before, contribution, rate)))
  {
  }

  /** The arithmetic of one month: `balance += contribution`, then
      `interest = balance * monthlyRate`, then `balance += interest`. */
  method AccrueMonth(balance: real, contribution: real, rate: real) returns (interest: real, next: real)
    ensures next == (balance + contribution) * (1.0 + rate)
    ensures next - balance == contribution + interest
  {
    var funded := balance + contribution;
    interest := funded * rate;
    next := funded + interest;
  }

  /** What `AccrueMonth` promises pins the month down: the interest is the
      month's credit and the balance is one month of growth. */
  lemma AccrueIsGrowthStep(balance: real, contribution: real, rate: real, interest: real, next: real)
    requires next == (balance + contribution) * (1.0 + rate)
    requires next - balance == contribution + interest
    ensures interest == Credit(balance, contribution, rate)
    ensures next == GrowthStep(balance, contribution, rate)
  {
  }

  /** One pass of the helper's loop body: add the contribution, credit the
      interest, and record the point when the month is sampled. */
  method GrowthMonth(principal: real, contribution: real, rate: real, totalMonths: real,
                     month: nat, balance: real, monthlyData: seq<DataPoint>)
    returns (balance': real, monthlyData': seq<DataPoint>)
    requires month >= 1
    requires balance == BalanceAfter(principal, contribution, rate, month - 1)
    requires monthlyData == PointsAt(principal, contribution, rate, SampleMonths(totalMonths, month - 1))
    ensures balance' == BalanceAfter(principal, contribution, rate, month)
    ensures monthlyData' == PointsAt(principal, contribution, rate, SampleMonths(totalMonths, month))
  {
    SampleStep(totalMonths, month);
    var interest;
    interest, balance' := AccrueMonth(balance, contribution, rate);
    AccrueIsGrowthStep(balance, contribution, rate, interest, balance');
    if month % 12 == 0 || month == 1 || month as real == totalMonths {
      PointStep(principal, contribution, rate, month, balance);
      PointsAtSnoc(principal, contribution, rate, SampleMonths(totalMonths, month - 1), month);
      assert SampleMonths(totalMonths, month) == SampleMonths(totalMonths, month - 1) + [month];
      monthlyData' := monthlyData + [DataPoint(month, YearOf(month), Round2(balance'), Round2(interest))];
    } else {
      assert SampleMonths(totalMonths, month) == SampleMonths(totalMonths, month - 1);
      monthlyData' := monthlyData;
    }
  }

  /** `calculateCompoundInterest`, as the loop the source runs. */
  method CompoundInterest(principal: real, monthlyContribution: real, annualRate: real, years: real)
    returns (g: Growth)
    ensures g == Projection(principal, monthlyContribution, annualRate, years)
  {
    var monthlyRate := annualRate / 100.0 / 12.0;
    assert monthlyRate == MonthlyRate(annualRate);
    var totalMonths := years * 12.0;
    var balance := principal;
    var monthlyData: seq<DataPoint> := [];
    var month: nat := 1;
    while month as real <= totalMonths
      invariant 1 <= month <= MonthCount(totalMonths) + 1
      invariant balance == BalanceAfter(principal, monthlyContribution, monthlyRate, month - 1)
      invariant monthlyData == PointsAt(principal, monthlyContribution, monthlyRate, SampleMonths(totalMonths, month - 1))
      decreases MonthCount(totalMonths) + 1 - month
    {
      balance, monthlyData := GrowthMonth(principal, monthlyContribution, monthlyRate, totalMonths,
                                          month, balance, monthlyData);
      month := month + 1;
    }
    ProjectionFields(principal, monthlyContribution, annualRate, years, balance);
    g := Growth(Round2(balance), Round2(InterestReported(balance, principal, monthlyContribution, totalMonths)),
                monthlyData);
  }

  /** The `/investment-growth` handler: four numbers in, the helper's result
      out; anything that is not a number is rejected with a 400. */
  datatype GrowthError = InvalidInput

  method InvestmentGrowth(initialAmount: Field, monthlyContribution: Field, annualReturnRate: Field, years: Field)
    returns (r: Result<Growth, GrowthError>)
    ensures r.Ok? <==> initialAmount.Num? && monthlyContribution.Num? && annualReturnRate.Num? && years.Num?
    ensures r.Err? ==> r.error == InvalidInput
    ensures r.Ok? ==> r.value == Projection(initialAmount.value, monthlyContribution.value,
                                            annualReturnRate.value, years.value)
  {
    if !initialAmount.Num? || !monthlyContribution.Num? || !annualReturnRate.Num? || !years.Num? {
      return Err(InvalidInput);
    }
    var g := CompoundInterest(initialAmount.value, monthlyContribution.value, annualReturnRate.value, years.value);
    return Ok(g);
  }

  // ---------------------------------------------------------------------------
  // Properties of the helper

  /** Each month multiplies the balance plus the contribution by one plus
      the monthly rate: the contribution is added before interest accrues. */
  lemma MonthStepFactored(principal: real, contribution: real, annualRate: real, m: nat)
    requires m >= 1
    ensures BalanceAfter(principal, contribution, MonthlyRate(annualRate), m)
            == (BalanceAfter(principal, contribution, MonthlyRate(annualRate), m - 1) + contribution)
               * (1.0 + annualRate / 100.0 / 12.0)
  {
    MonthStep(principal, contribution, MonthlyRate(annualRate), m);
  }

  /** With fewer than one month to run, the loop body never executes: the
      balance is the principal, rounded, and no sample is recorded. */
  lemma NoMonthsNoChange(principal: real, contribution: real, annualRate: real, years: real)
    requires years * 12.0 < 1.0
    ensures Projection(principal, contribution, annualRate, years).finalBalance == Round2(principal)
    ensures Projection(principal, contribution, annualRate, years).monthlyData == []
    ensures Projection(principal, contribution, annualRate, years).totalInterest == Round2(-contribution * years * 12.0)
  {
  }

  /** Feeding a reported final balance back in as the principal of a
      zero-year projection returns that same value. */
  lemma ZeroYearRoundTrip(principal: real, contribution: real, annualRate: real, years: real,
                          contribution': real, annualRate': real)
    ensures var g := Projection(principal, contribution, annualRate, years);
            Projection(g.finalBalance, contribution', annualRate', 0.0).finalBalance == g.finalBalance
  {
    var g := Projection(principal, contribution, annualRate, years);
    NoMonthsNoChange(g.finalBalance, contribution', annualRate', 0.0);
    Round2Idempotent(BalanceAfter(principal, contribution, MonthlyRate(annualRate), MonthCount(years * 12.0)));
  }

  /** Accounting identity: after `n` months the balance is the principal plus
      every contribution plus every month's interest. */
  lemma {:induction false} BalanceDecomposes(principal: real, contribution: real, rate: real, n: nat)
    ensures BalanceAfter(principal, contribution, rate, n)
            == principal + contribution * (n as real) + InterestEarned(principal, contribution, rate, n)
  {
    if n > 0 {
      BalanceDecomposes(principal, contribution, rate, n - 1);
      MonthStep(principal, contribution, rate, n);
      ScaleStep(contribution, n);
    }
  }

  /** When `years * 12` is a whole number of months, the reported
      `totalInterest` is the sum of the monthly interest amounts, rounded. */
  lemma TotalInterestIsInterestEarned(principal: real, contribution: real, annualRate: real, years: real)
    requires years * 12.0 == MonthCount(years * 12.0) as real
    ensures Projection(principal, contribution, annualRate, years).totalInterest
            == Round2(InterestEarned(principal, contribution, MonthlyRate(annualRate), MonthCount(years * 12.0)))
  {
    ProjectionFields(principal, contribution, annualRate, years,
                     BalanceAfter(principal, contribution, MonthlyRate(annualRate), MonthCount(years * 12.0)));
    ReportedIsEarned(principal, contribution, MonthlyRate(annualRate), MonthCount(years * 12.0), years * 12.0);
  }

  /** Over a whole number of months the helper's interest is exactly the
      interest earned. */
  lemma ReportedIsEarned(principal: real, contribution: real, rate: real, n: nat, totalMonths: real)
    requires totalMonths == n as real
    ensures InterestReported(BalanceAfter(principal, contribution, rate, n), principal, contribution, totalMonths)
            == InterestEarned(principal, contribution, rate, n)
  {
    BalanceDecomposes(principal, contribution, rate, n);
  }

  /** With a non-negative principal, contribution and rate, the balance never
      falls below the principal and never decreases from one month to a later one. */
  lemma {:induction false} GrowthMonotone(principal: real, contribution: real, rate: real, m: nat, m': nat)
    requires principal >= 0.0 && contribution >= 0.0 && rate >= 0.0
    requires m <= m'
    ensures principal <= BalanceAfter(principal, contribution, rate, m)
    ensures BalanceAfter(principal, contribution, rate, m) <= BalanceAfter(principal, contribution, rate, m')
    decreases m'
  {
    if m' > 0 {
      GrowthMonotone(principal, contribution, rate, if m == m' then m' - 1 else m, m' - 1);
      MonthStep(principal, contribution, rate, m');
      CreditNonNegative(BalanceAfter(principal, contribution, rate, m' - 1), contribution, rate);
    }
  }

  /** No balance, contribution or rate below zero, no interest below zero. */
  lemma CreditNonNegative(balance: real, contribution: real, rate: real)
    requires balance >= 0.0 && contribution >= 0.0 && rate >= 0.0
    ensures Credit(balance, contribution, rate) >= 0.0
  {
  }

  /** The recorded months are strictly increasing. */
  lemma {:induction false} SampleMonthsIncreasing(totalMonths: real, n: nat)
    ensures forall i, j :: 0 <= i < j < |SampleMonths(totalMonths, n)| ==>
              SampleMonths(totalMonths, n)[i] < SampleMonths(totalMonths, n)[j]
  {
    if n > 0 {
      SampleMonthsIncreasing(totalMonths, n - 1);
    }
  }

  /** Every sampled month among the first `n` is recorded. */
  lemma {:induction false} SampleMonthsComplete(totalMonths: real, n: nat, m: nat)
    requires 1 <= m <= n && IsSampled(m, totalMonths)
    ensures m in SampleMonths(totalMonths, n)
  {
    if m < n {
      SampleMonthsComplete(totalMonths, n - 1, m);
    }
  }

  /** Each reported sample is a sampled month the loop ran, carrying that
      month's rounded balance and interest. */
  lemma SamplesValid(principal: real, contribution: real, annualRate: real, years: real)
    ensures var s := Projection(principal, contribution, annualRate, years).monthlyData;
            forall i :: 0 <= i < |s| ==>
              1 <= s[i].month <= MonthCount(years * 12.0) && IsSampled(s[i].month, years * 12.0)
              && s[i] == PointAt(principal, contribution, MonthlyRate(annualRate), s[i].month)
  {
    var rate := MonthlyRate(annualRate);
    var ms := SampleMonths(years * 12.0, MonthCount(years * 12.0));
    var s := PointsAt(principal, contribution, rate, ms);
    assert s == Projection(principal, contribution, annualRate, years).monthlyData;
  }

  /** The reported samples are in strictly increasing month order. */
  lemma SamplesIncreasing(principal: real, contribution: real, annualRate: real, years: real)
    ensures var s := Projection(principal, contribution, annualRate, years).monthlyData;
            forall i, j :: 0 <= i < j < |s| ==> s[i].month < s[j].month
  {
    var rate := MonthlyRate(annualRate);
    var ms := SampleMonths(years * 12.0, MonthCount(years * 12.0));
    var s := PointsAt(principal, contribution, rate, ms);
    assert s == Projection(principal, contribution, annualRate, years).monthlyData;
    SampleMonthsIncreasing(years * 12.0, MonthCount(years * 12.0));
  }

  /** A recorded month has its point among the points. */
  lemma PointsCover(principal: real, contribution: real, rate: real, months: seq<nat>, m: nat)
    requires forall i :: 0 <= i < |months| ==> months[i] >= 1
    requires m in months
    ensures var points := PointsAt(principal, contribution, rate, months);
            exists i :: 0 <= i < |points| && points[i].month == m
  {
    var i :| 0 <= i < |months| && months[i] == m;
    assert PointsAt(principal, contribution, rate, months)[i].month == m;
  }

  /** Every sampled month the loop ran has a reported sample. */
  lemma SamplesComplete(principal: real, contribution: real, annualRate: real, years: real)
    ensures var s := Projection(principal, contribution, annualRate, years).monthlyData;
            forall m: nat {:trigger IsSampled(m, years * 12.0)} ::
              1 <= m <= MonthCount(years * 12.0) && IsSampled(m, years * 12.0) ==>
                exists i :: 0 <= i < |s| && s[i].month == m
  {
    var rate := MonthlyRate(annualRate);
    var totalMonths := years * 12.0;
    var n := MonthCount(totalMonths);
    var ms := SampleMonths(totalMonths, n);
    ProjectionFields(principal, contribution, annualRate, years, BalanceAfter(principal, contribution, rate, n));
    forall m: nat | 1 <= m <= n && IsSampled(m, totalMonths)
      ensures var points := PointsAt(principal, contribution, rate, ms);
              exists i :: 0 <= i < |points| && points[i].month == m
    {
      SampleMonthsComplete(totalMonths, n, m);
      PointsCover(principal, contribution, rate, ms, m);
    }
  }

  /** The reported samples are exactly month 1, every twelfth month and the
      month equal to `years * 12`, among the months the loop ran, in strictly
      increasing order, each carrying that month's rounded balance and
      interest. */
  lemma ProjectionSamples(principal: real, contribution: real, annualRate: real, years: real)
    ensures var s := Projection(principal, contribution, annualRate, years).monthlyData;
            var n := MonthCount(years * 12.0);
            && (forall i :: 0 <= i < |s| ==>
                  1 <= s[i].month <= n && IsSampled(s[i].month, years * 12.0)
                  && s[i] == PointAt(principal, contribution, MonthlyRate(annualRate), s[i].month))
            && (forall i, j :: 0 <= i < j < |s| ==> s[i].month < s[j].month)
            && (forall m: nat {:trigger IsSampled(m, years * 12.0)} :: 1 <= m <= n && IsSampled(m, years * 12.0) ==>
                  exists i :: 0 <= i < |s| && s[i].month == m)
  {
    SamplesValid(principal, contribution, annualRate, years);
    SamplesIncreasing(principal, contribution, annualRate, years);
    SamplesComplete(principal, contribution, annualRate, years);
  }

  /** When `years * 12` is a whole, positive number of months, the last month
      is among the samples. */
  lemma LastMonthSampled(principal: real, contribution: real, annualRate: real, years: real)
    requires years * 12.0 >= 1.0 && years * 12.0 == MonthCount(years * 12.0) as real
    ensures var s := Projection(principal, contribution, annualRate, years).monthlyData;
            |s| > 0 && s[|s| - 1].month == MonthCount(years * 12.0)
  {
    var n := MonthCount(years * 12.0);
    var rate := MonthlyRate(annualRate);
    assert IsSampled(n, years * 12.0);
    SampleStep(years * 12.0, n);
  }

  /** In a growth scenario the sampled balances are non-decreasing. */
  lemma SampledBalancesMonotone(principal: real, contribution: real, annualRate: real, years: real)
    requires principal >= 0.0 && contribution >= 0.0 && annualRate >= 0.0
    ensures var s := Projection(principal, contribution, annualRate, years).monthlyData;
            forall i, j :: 0 <= i < j < |s| ==> s[i].balance <= s[j].balance
  {
    var rate := MonthlyRate(annualRate);
    var s := Projection(principal, contribution, annualRate, years).monthlyData;
    ProjectionSamples(principal, contribution, annualRate, years);
    forall i, j | 0 <= i < j < |s|
      ensures s[i].balance <= s[j].balance
    {
      GrowthMonotone(principal, contribution, rate, s[i].month, s[j].month);
      Round2Monotone(BalanceAfter(principal, contribution, rate, s[i].month),
                     BalanceAfter(principal, contribution, rate, s[j].month));
    }
  }
}
