/** The `/debt-payoff` handler.

    A payment that does not exceed the first month's interest is rejected up
    front (when the rate is positive). Otherwise the debt is amortised month
    by month: interest accrues on the balance first, then the payment is the
    fixed monthly payment or, in the last month, whatever is left owing. The
    loop stops when the balance is paid off or after 1200 months; reaching
    month 1200 is reported as an error. A second simulation with the payment
    raised by 10% (rounded to cents) is reported as a strategy only when it
    finishes sooner. */
module DebtPayoff {
  import opened Common
  import opened Rounding
  import Compound

  /** The safety bound on the number of simulated months (100 years). */
  const Cap: nat := 1200

  /** The payment made in a month that starts at `balance`: the fixed payment,
      unless less than that is owing once interest is added. */
  function PaymentDue(balance: real, rate: real, payment: real): real
  {
    Min(payment, balance + balance * rate)
  }

  /** One month of amortisation: interest first, then the payment. The result
      is never negative, since the payment never exceeds what is owing. */
  function PayStep(balance: real, rate: real, payment: real): (next: real)
    ensures next >= 0.0
  {
    balance + balance * rate - PaymentDue(balance, rate, payment)
  }

  /** The balance after `k` months, had the loop not stopped. */
  function DebtAfter(debt: real, rate: real, payment: real, k: nat): real
  {
    if k == 0 then debt else PayStep(DebtAfter(debt, rate, payment, k - 1), rate, payment)
  }

  /** Interest accrued over the first `k` months. */
  function InterestAccrued(debt: real, rate: real, payment: real, k: nat): real
  {
    if k == 0 then 0.0
    else InterestAccrued(debt, rate, payment, k - 1) + DebtAfter(debt, rate, payment, k - 1) * rate
  }

  /** Payments made over the first `k` months. */
  function PaidAfter(debt: real, rate: real, payment: real, k: nat): real
  {
    if k == 0 then 0.0
    else PaidAfter(debt, rate, payment, k - 1) + PaymentDue(DebtAfter(debt, rate, payment, k - 1), rate, payment)
  }

  /** The month the loop stops at when it has reached month `k` still running:
      the first month from `k` on whose balance is paid off, or the cap. */
  function ExitMonthFrom(debt: real, rate: real, payment: real, k: nat): (m: nat)
    requires k <= Cap
    ensures k <= m <= Cap
    decreases Cap - k
  {
    if DebtAfter(debt, rate, payment, k) <= 0.0 || k >= Cap then k
    else ExitMonthFrom(debt, rate, payment, k + 1)
  }

  /** The month the payoff loop stops at. */
  function PayoffMonth(debt: real, rate: real, payment: real): nat
  {
    ExitMonthFrom(debt, rate, payment, 0)
  }

  /** From month `k` on, the loop stops at the first month whose balance is
      paid off, or at the cap when there is none before it. */
  lemma {:induction false} ExitMonthFromIsFirst(debt: real, rate: real, payment: real, k: nat)
    requires k <= Cap
    ensures ExitMonthFrom(debt, rate, payment, k) < Cap
            ==> DebtAfter(debt, rate, payment, ExitMonthFrom(debt, rate, payment, k)) <= 0.0
    ensures forall j :: k <= j < ExitMonthFrom(debt, rate, payment, k) ==> DebtAfter(debt, rate, payment, j) > 0.0
    decreases Cap - k
  {
    if DebtAfter(debt, rate, payment, k) > 0.0 && k < Cap {
      ExitMonthFromIsFirst(debt, rate, payment, k + 1);
    }
  }

  /** The loop stops at the first month whose balance is paid off, or at the
      cap when there is none before it. */
  lemma PayoffMonthIsFirst(debt: real, rate: real, payment: real)
    ensures PayoffMonth(debt, rate, payment) < Cap
            ==> DebtAfter(debt, rate, payment, PayoffMonth(debt, rate, payment)) <= 0.0
    ensures forall j :: 0 <= j < PayoffMonth(debt, rate, payment) ==> DebtAfter(debt, rate, payment, j) > 0.0
  {
    ExitMonthFromIsFirst(debt, rate, payment, 0);
  }

  /** One point of the payoff series. */
  datatype PayoffPoint = PayoffPoint(month: nat, year: real, balance: real, interest: real,
                                     payment: real, totalInterestToDate: real)

  /** The months that are recorded: the first, every third (which includes
      every twelfth), and the month the balance is paid off. */
  predicate IsRecorded(debt: real, rate: real, payment: real, month: nat)
  {
    month % 12 == 0 || month == 1 || DebtAfter(debt, rate, payment, month) <= 0.0 || month % 3 == 0
  }

  /** The point written for month `m`. */
  function PayoffPointAt(debt: real, rate: real, payment: real, m: nat): PayoffPoint
    requires m >= 1
  {
    PayoffPoint(m, Round1(m as real / 12.0),
                Round2(Max(0.0, DebtAfter(debt, rate, payment, m))),
                Round2(DebtAfter(debt, rate, payment, m - 1) * rate),
                Round2(PaymentDue(DebtAfter(debt, rate, payment, m - 1), rate, payment)),
                Round2(InterestAccrued(debt, rate, payment, m)))
  }

  /** The interest accrued until the loop stops. */
  function TotalInterest(debt: real, rate: real, payment: real): real
  {
    InterestAccrued(debt, rate, payment, PayoffMonth(debt, rate, payment))
  }

  /** The series written during the first `k` months: one point for each
      recorded month, oldest first. */
  function PayoffSeries(debt: real, rate: real, payment: real, k: nat): seq<PayoffPoint>
  {
    if k == 0 then []
    else PayoffSeries(debt, rate, payment, k - 1)
         + (if IsRecorded(debt, rate, payment, k) then [PayoffPointAt(debt, rate, payment, k)] else [])
  }

  /** Month `m` in terms of month `m - 1`, as the loop computes it. */
  lemma PayoffStep(debt: real, rate: real, payment: real, m: nat, before: real)
    requires m >= 1 && before == DebtAfter(debt, rate, payment, m - 1)
    ensures DebtAfter(debt, rate, payment, m) == PayStep(before, rate, payment)
    ensures InterestAccrued(debt, rate, payment, m) == InterestAccrued(debt, rate, payment, m - 1) + before * rate
    ensures PaidAfter(debt, rate, payment, m) == PaidAfter(debt, rate, payment, m - 1) + PaymentDue(before, rate, payment)
  {
  }

  /** The point written for month `m`, from the balance the month started at. */
  lemma PointStep(debt: real, rate: real, payment: real, m: nat, before: real)
    requires m >= 1 && before == DebtAfter(debt, rate, payment, m - 1)
    ensures PayoffPointAt(debt, rate, payment, m)
            == PayoffPoint(m, Round1(m as real / 12.0), Round2(Max(0.0, PayStep(before, rate, payment))),
                           Round2(before * rate), Round2(PaymentDue(before, rate, payment)),
                           Round2(InterestAccrued(debt, rate, payment, m)))
  {
    PayoffStep(debt, rate, payment, m, before);
  }

  /** The arithmetic of one month: the month's interest, the payment made,
      and the balance left. The payment settles part of what is owing and
      never overpays: either the full monthly payment is made, or less is
      made and the debt is cleared. */
  method AmortiseMonth(balance: real, rate: real, monthlyPayment: real)
    returns (interest: real, payment: real, next: real)
    ensures interest == balance * rate
    ensures payment + next == balance + interest
    ensures next >= 0.0 && payment <= monthlyPayment
    ensures payment < monthlyPayment ==> next == 0.0
  {
    interest := balance * rate;
    payment := Min(monthlyPayment, balance + interest);
    next := balance + interest - payment;
  }

  /** What `AmortiseMonth` promises pins the month down: the payment is the
      one due and the balance left is one month of amortisation. */
  lemma AmortiseIsPayStep(balance: real, rate: real, monthlyPayment: real, interest: real, payment: real, next: real)
    requires interest == balance * rate
    requires payment + next == balance + interest
    requires next >= 0.0 && payment <= monthlyPayment
    requires payment < monthlyPayment ==> next == 0.0
    ensures payment == PaymentDue(balance, rate, monthlyPayment)
    ensures next == PayStep(balance, rate, monthlyPayment)
  {
  }

  /** One pass of the payoff loop: month `month + 1` is simulated, its
      interest and payment applied, and its point recorded when the month is
      recorded. */
  method PayoffMonthStep(debtAmount: real, monthlyRate: real, monthlyPayment: real,
                         month: nat, balance: real, totalInterest: real, payoffData: seq<PayoffPoint>)
    returns (month': nat, balance': real, totalInterest': real, payoffData': seq<PayoffPoint>)
    requires balance == DebtAfter(debtAmount, monthlyRate, monthlyPayment, month)
    requires totalInterest == InterestAccrued(debtAmount, monthlyRate, monthlyPayment, month)
    requires payoffData == PayoffSeries(debtAmount, monthlyRate, monthlyPayment, month)
    ensures month' == month + 1
    ensures balance' == DebtAfter(debtAmount, monthlyRate, monthlyPayment, month')
    ensures totalInterest' == InterestAccrued(debtAmount, monthlyRate, monthlyPayment, month')
    ensures payoffData' == PayoffSeries(debtAmount, monthlyRate, monthlyPayment, month')
  {
    month' := month + 1;
    PayoffStep(debtAmount, monthlyRate, monthlyPayment, month', balance);
    var interest, payment;
    interest, payment, balance' := AmortiseMonth(balance, monthlyRate, monthlyPayment);
    AmortiseIsPayStep(balance, monthlyRate, monthlyPayment, interest, payment, balance');
    totalInterest' := totalInterest + interest;
    payoffData' := payoffData;
    if month' % 12 == 0 || month' == 1 || balance' <= 0.0 || month' % 3 == 0 {
      PointStep(debtAmount, monthlyRate, monthlyPayment, month', balance);
      payoffData' := payoffData + [PayoffPoint(month', Round1(month' as real / 12.0), Round2(Max(0.0, balance')),
                                               Round2(interest), Round2(payment), Round2(totalInterest'))];
    }
  }

  /** The payoff loop of the handler. */
  method SimulatePayoff(debtAmount: real, monthlyRate: real, monthlyPayment: real)
    returns (month: nat, totalInterest: real, payoffData: seq<PayoffPoint>)
    ensures month == PayoffMonth(debtAmount, monthlyRate, monthlyPayment)
    ensures totalInterest == TotalInterest(debtAmount, monthlyRate, monthlyPayment)
    ensures payoffData == PayoffSeries(debtAmount, monthlyRate, monthlyPayment, month)
  {
    var balance := debtAmount;
    month := 0;
    totalInterest := 0.0;
    payoffData := [];
    while balance > 0.0 && month < Cap
      invariant month <= Cap
      invariant balance == DebtAfter(debtAmount, monthlyRate, monthlyPayment, month)
      invariant totalInterest == InterestAccrued(debtAmount, monthlyRate, monthlyPayment, month)
      invariant ExitMonthFrom(debtAmount, monthlyRate, monthlyPayment, month)
                == PayoffMonth(debtAmount, monthlyRate, monthlyPayment)
      invariant payoffData == PayoffSeries(debtAmount, monthlyRate, monthlyPayment, month)
      decreases Cap - month
    {
      month, balance, totalInterest, payoffData :=
        PayoffMonthStep(debtAmount, monthlyRate, monthlyPayment, month, balance, totalInterest, payoffData);
    }
  }

  /** The loop of the strategy re-run: the same amortisation, without a
      series. */
  method RunPayoff(debtAmount: real, monthlyRate: real, monthlyPayment: real)
    returns (month: nat, totalInterest: real)
    ensures month == PayoffMonth(debtAmount, monthlyRate, monthlyPayment)
    ensures totalInterest == InterestAccrued(debtAmount, monthlyRate, monthlyPayment, month)
  {
    var balance := debtAmount;
    month := 0;
    totalInterest := 0.0;
    while balance > 0.0 && month < Cap
      invariant month <= Cap
      invariant balance == DebtAfter(debtAmount, monthlyRate, monthlyPayment, month)
      invariant totalInterest == InterestAccrued(debtAmount, monthlyRate, monthlyPayment, month)
      invariant ExitMonthFrom(debtAmount, monthlyRate, monthlyPayment, month)
                == PayoffMonth(debtAmount, monthlyRate, monthlyPayment)
      decreases Cap - month
    {
      month := month + 1;
      PayoffStep(debtAmount, monthlyRate, monthlyPayment, month, balance);
      var interest, payment, next := AmortiseMonth(balance, monthlyRate, monthlyPayment);
      AmortiseIsPayStep(balance, monthlyRate, monthlyPayment, interest, payment, next);
      balance := next;
      totalInterest := totalInterest + interest;
    }
  }

  // ---------------------------------------------------------------------------
  // The handler

  datatype DebtError =
    | InvalidInput
    | PaymentBelowMinimum(minimumPayment: real)
    | TooLong

  /** A reported strategy; the description text names `additionalPayment`. */
  datatype Strategy = Strategy(additionalPayment: real, monthsSaved: nat, interestSaved: real)

  datatype PayoffReport = PayoffReport(monthsToPayoff: nat, yearsToPayoff: real, totalInterestPaid: real,
                                       totalPaid: real, payoffData: seq<PayoffPoint>, strategies: seq<Strategy>)

  /** The first month's interest on the whole debt, which a payment must
      exceed. */
  function MinimumPayment(debtAmount: real, interestRate: real): real
  {
    debtAmount * Compound.MonthlyRate(interestRate)
  }

  /** The minimum-payment guard: the payment does not exceed the first month's
      interest, and the rate is positive. */
  predicate BelowMinimum(debtAmount: real, interestRate: real, monthlyPayment: real)
  {
    monthlyPayment <= MinimumPayment(debtAmount, interestRate) && interestRate > 0.0
  }

  /** The condition under which the +10% strategy is evaluated; over exact
      arithmetic it holds exactly for payments below 10000. */
  predicate StrategyGuard(monthlyPayment: real)
    ensures StrategyGuard(monthlyPayment) <==> monthlyPayment < 10000.0
  {
    monthlyPayment * 1.1 < monthlyPayment + 1000.0
  }

  /** The extra payment of the strategy: 10% of the payment, rounded to cents. */
  function ExtraPayment(monthlyPayment: real): (extra: real)
    ensures monthlyPayment >= 0.0 ==> extra >= 0.0
  {
    Round2(monthlyPayment * 0.1)
  }

  /** When the loop stops before the cap, the debt is settled exactly: the
      loop ran at least once exactly when there was a debt, the balance is
      then zero, and everything paid is the debt plus the interest. */
  lemma PayoffSettles(debt: real, rate: real, payment: real)
    requires PayoffMonth(debt, rate, payment) < Cap
    ensures debt > 0.0 <==> PayoffMonth(debt, rate, payment) >= 1
    ensures PayoffMonth(debt, rate, payment) >= 1 ==> DebtAfter(debt, rate, payment, PayoffMonth(debt, rate, payment)) == 0.0
    ensures debt > 0.0 ==> PaidAfter(debt, rate, payment, PayoffMonth(debt, rate, payment)) == debt + TotalInterest(debt, rate, payment)
  {
    var m := PayoffMonth(debt, rate, payment);
    PayoffMonthIsFirst(debt, rate, payment);
    PaidPlusOwed(debt, rate, payment, m);
    if m >= 1 {
      assert DebtAfter(debt, rate, payment, m) == PayStep(DebtAfter(debt, rate, payment, m - 1), rate, payment);
    }
  }

  /** The payment of the +10% strategy. */
  function StrategyPayment(monthlyPayment: real): (newPayment: real)
    ensures monthlyPayment >= 0.0 ==> newPayment >= monthlyPayment
  {
    monthlyPayment + ExtraPayment(monthlyPayment)
  }

  /** The month the +10% strategy pays the debt off. */
  function StrategyMonth(debt: real, rate: real, payment: real): nat
  {
    PayoffMonth(debt, rate, StrategyPayment(payment))
  }

  /** The strategy section of the report, as a definition: the +10% strategy
      is listed when the guard holds and it finishes sooner, with the months
      and the interest it saves. */
  function StrategiesFor(debt: real, rate: real, payment: real): seq<Strategy>
  {
    if StrategyGuard(payment) && StrategyMonth(debt, rate, payment) < PayoffMonth(debt, rate, payment) then
      [Strategy(ExtraPayment(payment), PayoffMonth(debt, rate, payment) - StrategyMonth(debt, rate, payment),
                Round2(TotalInterest(debt, rate, payment) - TotalInterest(debt, rate, StrategyPayment(payment))))]
    else []
  }

  /** The strategy section of the handler: the +10% payment is simulated when
      the guard holds, and reported only when it finishes sooner. */
  method PlanStrategies(debtAmount: real, monthlyRate: real, monthlyPayment: real,
                        month: nat, totalInterest: real)
    returns (strategies: seq<Strategy>)
    requires month == PayoffMonth(debtAmount, monthlyRate, monthlyPayment)
    requires totalInterest == InterestAccrued(debtAmount, monthlyRate, monthlyPayment, month)
    ensures strategies == StrategiesFor(debtAmount, monthlyRate, monthlyPayment)
  {
    strategies := [];
    assert StrategyGuard(monthlyPayment) == (monthlyPayment * 1.1 < monthlyPayment + 1000.0);
    if monthlyPayment * 1.1 < monthlyPayment + 1000.0 {
      var additionalPayment := Round2(monthlyPayment * 0.1);
      var newPayment := monthlyPayment + additionalPayment;
      assert additionalPayment == ExtraPayment(monthlyPayment);
      assert newPayment == StrategyPayment(monthlyPayment);
      var newMonth, newTotalInterest := RunPayoff(debtAmount, monthlyRate, newPayment);
      assert newMonth == StrategyMonth(debtAmount, monthlyRate, monthlyPayment);
      assert newTotalInterest == TotalInterest(debtAmount, monthlyRate, StrategyPayment(monthlyPayment));
      assert totalInterest == TotalInterest(debtAmount, monthlyRate, monthlyPayment);
      if newMonth < month {
        strategies := [Strategy(additionalPayment, month - newMonth, Round2(totalInterest - newTotalInterest))];
      }
    }
  }

  /** The simulation and the report, once the payment has passed the
      minimum-payment guard. */
  method ReportPayoff(debtAmount: real, monthlyRate: real, monthlyPayment: real)
    returns (r: Result<PayoffReport, DebtError>)
    ensures r.Err? <==> PayoffMonth(debtAmount, monthlyRate, monthlyPayment) >= Cap
    ensures r.Err? ==> r.error == TooLong
    ensures r.Ok? ==> r.value.monthsToPayoff == PayoffMonth(debtAmount, monthlyRate, monthlyPayment)
    ensures r.Ok? ==> r.value.yearsToPayoff == Round2(r.value.monthsToPayoff as real / 12.0)
    ensures r.Ok? ==> r.value.totalInterestPaid == Round2(TotalInterest(debtAmount, monthlyRate, monthlyPayment))
    ensures r.Ok? ==> r.value.totalPaid == Round2(debtAmount + TotalInterest(debtAmount, monthlyRate, monthlyPayment))
    ensures r.Ok? ==> r.value.payoffData == PayoffSeries(debtAmount, monthlyRate, monthlyPayment, r.value.monthsToPayoff)
    ensures r.Ok? ==> r.value.strategies == StrategiesFor(debtAmount, monthlyRate, monthlyPayment)
  {
    var month, totalInterest, payoffData := SimulatePayoff(debtAmount, monthlyRate, monthlyPayment);
    if month >= Cap {
      return Err(TooLong);
    }
    var strategies := PlanStrategies(debtAmount, monthlyRate, monthlyPayment, month, totalInterest);
    return Ok(PayoffReport(month, Round2(month as real / 12.0), Round2(totalInterest),
                           Round2(debtAmount + totalInterest), payoffData, strategies));
  }

  /** The handler's body once the three fields are known to be numbers. */
  method PlanPayoff(debtAmount: real, interestRate: real, monthlyPayment: real)
    returns (r: Result<PayoffReport, DebtError>)
    ensures (r.Err? && r.error.PaymentBelowMinimum?) <==> BelowMinimum(debtAmount, interestRate, monthlyPayment)
    ensures BelowMinimum(debtAmount, interestRate, monthlyPayment)
            ==> r == Err(PaymentBelowMinimum(Round2(MinimumPayment(debtAmount, interestRate))))
    ensures r == Err(TooLong)
            <==> !BelowMinimum(debtAmount, interestRate, monthlyPayment)
                 && PayoffMonth(debtAmount, Compound.MonthlyRate(interestRate), monthlyPayment) >= Cap
    ensures r != Err(InvalidInput)
    ensures r.Ok? ==> r.value.monthsToPayoff == PayoffMonth(debtAmount, Compound.MonthlyRate(interestRate), monthlyPayment)
    ensures r.Ok? ==> r.value.yearsToPayoff == Round2(r.value.monthsToPayoff as real / 12.0)
    ensures r.Ok? ==> r.value.totalInterestPaid
                      == Round2(TotalInterest(debtAmount, Compound.MonthlyRate(interestRate), monthlyPayment))
    ensures r.Ok? ==> r.value.totalPaid
                      == Round2(debtAmount + TotalInterest(debtAmount, Compound.MonthlyRate(interestRate), monthlyPayment))
    ensures r.Ok? ==> r.value.payoffData
                      == PayoffSeries(debtAmount, Compound.MonthlyRate(interestRate), monthlyPayment, r.value.monthsToPayoff)
    ensures r.Ok? ==> r.value.strategies == StrategiesFor(debtAmount, Compound.MonthlyRate(interestRate), monthlyPayment)
  {
    var monthlyRate := interestRate / 100.0 / 12.0;
    assert monthlyRate == Compound.MonthlyRate(interestRate);
    var minimumPayment := debtAmount * monthlyRate;
    assert minimumPayment == MinimumPayment(debtAmount, interestRate);
    if monthlyPayment <= minimumPayment && interestRate > 0.0 {
      return Err(PaymentBelowMinimum(Round2(minimumPayment)));
    }
    r := ReportPayoff(debtAmount, monthlyRate, monthlyPayment);
  }

  /** The `/debt-payoff` handler: three numbers in; anything that is not a
      number is rejected with a 400. */
  method DebtPayoffHandler(debtAmount: Field, interestRate: Field, monthlyPayment: Field)
    returns (r: Result<PayoffReport, DebtError>)
    ensures r == Err(InvalidInput) <==> !(debtAmount.Num? && interestRate.Num? && monthlyPayment.Num?)
    ensures debtAmount.Num? && interestRate.Num? && monthlyPayment.Num? ==>
              (r == Err(TooLong) <==>
                 !BelowMinimum(debtAmount.value, interestRate.value, monthlyPayment.value)
                 && PayoffMonth(debtAmount.value, Compound.MonthlyRate(interestRate.value), monthlyPayment.value) >= Cap)
    ensures debtAmount.Num? && interestRate.Num? && monthlyPayment.Num? ==>
              (r.Err? && r.error.PaymentBelowMinimum? <==>
                 BelowMinimum(debtAmount.value, interestRate.value, monthlyPayment.value))
    ensures debtAmount.Num? && interestRate.Num? && monthlyPayment.Num?
            && BelowMinimum(debtAmount.value, interestRate.value, monthlyPayment.value)
            ==> r == Err(PaymentBelowMinimum(Round2(MinimumPayment(debtAmount.value, interestRate.value))))
    ensures r.Ok? ==> debtAmount.Num? && interestRate.Num? && monthlyPayment.Num?
    ensures r.Ok? ==> r.value.monthsToPayoff
                      == PayoffMonth(debtAmount.value, Compound.MonthlyRate(interestRate.value), monthlyPayment.value)
    ensures r.Ok? ==> r.value.yearsToPayoff == Round2(r.value.monthsToPayoff as real / 12.0)
    ensures r.Ok? ==> r.value.totalInterestPaid
                      == Round2(TotalInterest(debtAmount.value, Compound.MonthlyRate(interestRate.value),
                                              monthlyPayment.value))
    ensures r.Ok? ==> r.value.totalPaid
                      == Round2(debtAmount.value + TotalInterest(debtAmount.value, Compound.MonthlyRate(interestRate.value),
                                                                 monthlyPayment.value))
    ensures r.Ok? ==> r.value.payoffData
                      == PayoffSeries(debtAmount.value, Compound.MonthlyRate(interestRate.value), monthlyPayment.value,
                                      r.value.monthsToPayoff)
    ensures r.Ok? ==> r.value.strategies
                      == StrategiesFor(debtAmount.value, Compound.MonthlyRate(interestRate.value), monthlyPayment.value)
  {
    if !debtAmount.Num? || !interestRate.Num? || !monthlyPayment.Num? {
      return Err(InvalidInput);
    }
    r := PlanPayoff(debtAmount.value, interestRate.value, monthlyPayment.value);
  }

  // ---------------------------------------------------------------------------
  // Properties of the payoff loop

  /** Accounting identity: what has been paid plus what is still owing is the
      debt plus the interest accrued. */
  lemma {:induction false} PaidPlusOwed(debt: real, rate: real, payment: real, k: nat)
    ensures PaidAfter(debt, rate, payment, k) + DebtAfter(debt, rate, payment, k)
            == debt + InterestAccrued(debt, rate, payment, k)
  {
    if k > 0 {
      PaidPlusOwed(debt, rate, payment, k - 1);
      PayoffStep(debt, rate, payment, k, DebtAfter(debt, rate, payment, k - 1));
    }
  }

  /** With a monthly rate no worse than -100%, a larger payment never leaves
      more owing after any number of months. */
  lemma {:induction false} LargerPaymentOwesLess(debt: real, rate: real, payment: real, payment': real, k: nat)
    requires rate >= -1.0 && payment <= payment'
    ensures DebtAfter(debt, rate, payment', k) <= DebtAfter(debt, rate, payment, k)
  {
    if k > 0 {
      LargerPaymentOwesLess(debt, rate, payment, payment', k - 1);
      var b := DebtAfter(debt, rate, payment, k - 1);
      var b' := DebtAfter(debt, rate, payment', k - 1);
      PayoffStep(debt, rate, payment, k, b);
      PayoffStep(debt, rate, payment', k, b');
      PayStepMonotone(b', b, rate, payment', payment);
    }
  }

  /** Adding a month's interest (at a rate no worse than -100%) keeps the
      order of two balances. */
  lemma GrowMonotone(balance: real, balance': real, rate: real)
    requires balance <= balance' && rate >= -1.0
    ensures balance + balance * rate <= balance' + balance' * rate
  {
    assert (balance' + balance' * rate) - (balance + balance * rate) == (balance' - balance) * (1.0 + rate);
  }

  /** Settling a smaller amount owing with a larger payment leaves less. */
  lemma SettleMonotone(owing: real, owing': real, payment: real, payment': real)
    requires owing <= owing' && payment >= payment'
    ensures owing - Min(payment, owing) <= owing' - Min(payment', owing')
  {
  }

  /** One month of amortisation leaves less owing from a smaller balance with
      a larger payment. */
  lemma PayStepMonotone(balance: real, balance': real, rate: real, payment: real, payment': real)
    requires balance <= balance' && rate >= -1.0 && payment >= payment'
    ensures PayStep(balance, rate, payment) <= PayStep(balance', rate, payment')
  {
    GrowMonotone(balance, balance', rate);
    SettleMonotone(balance + balance * rate, balance' + balance' * rate, payment, payment');
  }

  /** The loop stops no later than any month at which the balance is paid off. */
  lemma {:induction false} ExitNoLaterThan(debt: real, rate: real, payment: real, j: nat, k: nat)
    requires j <= k <= Cap
    requires DebtAfter(debt, rate, payment, k) <= 0.0
    ensures ExitMonthFrom(debt, rate, payment, j) <= k
    decreases k - j
  {
    if j < k && DebtAfter(debt, rate, payment, j) > 0.0 {
      ExitNoLaterThan(debt, rate, payment, j + 1, k);
    }
  }

  /** A larger payment never takes longer to pay the debt off. */
  lemma LargerPaymentNeverSlower(debt: real, rate: real, payment: real, payment': real)
    requires rate >= -1.0 && payment <= payment'
    ensures PayoffMonth(debt, rate, payment') <= PayoffMonth(debt, rate, payment)
  {
    var m := PayoffMonth(debt, rate, payment);
    if m < Cap {
      PayoffMonthIsFirst(debt, rate, payment);
      LargerPaymentOwesLess(debt, rate, payment, payment', m);
      ExitNoLaterThan(debt, rate, payment', 0, m);
    }
  }

  /** For a non-negative payment and a monthly rate no worse than -100%, the
      +10% strategy never finishes later. */
  lemma StrategyNeverSlower(debt: real, rate: real, payment: real)
    requires payment >= 0.0 && rate >= -1.0
    ensures StrategyMonth(debt, rate, payment) <= PayoffMonth(debt, rate, payment)
  {
    LargerPaymentNeverSlower(debt, rate, payment, StrategyPayment(payment));
  }

  /** Under the same conditions the report lists at most one strategy, saving
      at least a month; it lists none exactly when the payment is 10000 or
      more or the larger payment finishes in the same month. */
  lemma StrategiesShape(debt: real, rate: real, payment: real)
    requires payment >= 0.0 && rate >= -1.0
    ensures |StrategiesFor(debt, rate, payment)| <= 1
    ensures StrategiesFor(debt, rate, payment) == []
            <==> payment >= 10000.0 || StrategyMonth(debt, rate, payment) == PayoffMonth(debt, rate, payment)
    ensures forall s :: s in StrategiesFor(debt, rate, payment) ==> s.monthsSaved > 0 && s.additionalPayment >= 0.0
  {
    StrategyNeverSlower(debt, rate, payment);
  }

  /** Interest on a balance no larger than the debt is no larger than the
      interest on the debt, at a non-negative rate. */
  lemma InterestBounded(balance: real, debt: real, rate: real)
    requires 0.0 <= balance <= debt && rate >= 0.0
    ensures 0.0 <= balance * rate <= debt * rate
  {
    assert debt * rate - balance * rate == (debt - balance) * rate;
  }

  /** A payment above the first month's interest shrinks the debt every month
      by at least the margin `margin == payment - debt * rate`, until it is
      cleared: the balance never grows past the debt, and after `k` months it
      is either zero or at least `k` margins below the debt. */
  lemma {:induction false} Converges(debt: real, rate: real, payment: real, margin: real, k: nat)
    requires debt > 0.0 && rate >= 0.0 && margin == payment - debt * rate && margin > 0.0
    ensures 0.0 <= DebtAfter(debt, rate, payment, k) <= debt
    ensures DebtAfter(debt, rate, payment, k) == 0.0
            || DebtAfter(debt, rate, payment, k) <= debt - Installments(margin, k)
  {
    if k > 0 {
      Converges(debt, rate, payment, margin, k - 1);
      var b := DebtAfter(debt, rate, payment, k - 1);
      PayoffStep(debt, rate, payment, k, b);
      ConvergeStep(b, debt, rate, payment, margin, Installments(margin, k - 1));
    }
  }

  /** One month of `Converges`: from a balance between zero and the debt,
      either the month clears it or it falls by at least the margin. */
  lemma ConvergeStep(balance: real, debt: real, rate: real, payment: real, margin: real, shrunk: real)
    requires 0.0 <= balance <= debt && rate >= 0.0
    requires margin == payment - debt * rate && margin > 0.0
    requires balance == 0.0 || balance <= debt - shrunk
    ensures PayStep(balance, rate, payment) <= debt
    ensures PayStep(balance, rate, payment) == 0.0
            || PayStep(balance, rate, payment) <= debt - (shrunk + margin)
  {
    InterestBounded(balance, debt, rate);
    if balance == 0.0 {
      assert balance * rate == 0.0;
    }
  }

  /** A payment that clears the minimum-payment guard strictly (at a positive
      rate this is exactly passing the guard) finishes within any `k` months
      whose margins add up to the debt, so the handler does not report the
      plan as too long when such a `k` is below 1200. */
  lemma PassingGuardFinishes(debt: real, interestRate: real, payment: real, k: nat)
    requires debt > 0.0 && interestRate >= 0.0 && payment > MinimumPayment(debt, interestRate)
    requires k <= Cap && (k as real) * (payment - MinimumPayment(debt, interestRate)) >= debt
    ensures PayoffMonth(debt, Compound.MonthlyRate(interestRate), payment) <= k
  {
    var rate := Compound.MonthlyRate(interestRate);
    var margin := payment - MinimumPayment(debt, interestRate);
    Converges(debt, rate, payment, margin, k);
    InstallmentsIsProduct(margin, k);
    ExitNoLaterThan(debt, rate, payment, 0, k);
  }

  /** A debt of 1000 at 12% a year, paid at 100 a month, passes the guard and
      is paid off within a year. */
  lemma ThousandAtTwelvePercent()
    ensures !BelowMinimum(1000.0, 12.0, 100.0)
    ensures PayoffMonth(1000.0, Compound.MonthlyRate(12.0), 100.0) <= 12
  {
    assert Compound.MonthlyRate(12.0) == 0.01;
    PassingGuardFinishes(1000.0, 12.0, 100.0, 12);
  }

  /** `n` payments of `payment`, added up one month at a time. */
  function Installments(payment: real, n: nat): real
  {
    if n == 0 then 0.0 else Installments(payment, n - 1) + payment
  }

  /** Adding up `n` payments is multiplying by `n`. */
  lemma {:induction false} InstallmentsIsProduct(payment: real, n: nat)
    ensures Installments(payment, n) == payment * (n as real)
  {
    if n > 0 {
      InstallmentsIsProduct(payment, n - 1);
      ScaleStep(payment, n);
    }
  }

  /** With a positive payment, `n` payments exceed `k < n` payments by at
      least one payment. */
  lemma {:induction false} InstallmentsGap(payment: real, k: nat, n: nat)
    requires payment > 0.0 && k < n
    ensures Installments(payment, n) - Installments(payment, k) >= payment
  {
    if k < n - 1 {
      InstallmentsGap(payment, k, n - 1);
    }
  }

  /** At a zero rate a month with at least a payment owing removes exactly
      one payment. */
  lemma ZeroRateStep(balance: real, payment: real)
    requires balance >= payment
    ensures PayStep(balance, 0.0, payment) == balance - payment
  {
  }

  /** At a zero rate each month removes exactly one payment while at least a
      payment is owing. */
  lemma {:induction false} ZeroRateLinear(debt: real, payment: real, k: nat)
    requires payment >= 0.0 && debt >= Installments(payment, k)
    ensures DebtAfter(debt, 0.0, payment, k) == debt - Installments(payment, k)
  {
    if k > 0 {
      ZeroRateLinear(debt, payment, k - 1);
      PayoffStep(debt, 0.0, payment, k, debt - Installments(payment, k - 1));
      ZeroRateStep(debt - Installments(payment, k - 1), payment);
    }
  }

  /** A debt that is paid off in exactly month 1200 (at a zero rate, 1200
      payments) is still reported as taking too long: the loop stops at the
      cap, and the handler tests the month, not the balance. */
  lemma ExactCapPayoffIsTooLong(debt: real, payment: real)
    requires payment > 0.0 && debt == payment * (Cap as real)
    ensures DebtAfter(debt, 0.0, payment, Cap) == 0.0
    ensures PayoffMonth(debt, 0.0, payment) == Cap
    ensures !BelowMinimum(debt, 0.0, payment)
  {
    InstallmentsIsProduct(payment, Cap);
    ZeroRateLinear(debt, payment, Cap);
    PayoffMonthIsFirst(debt, 0.0, payment);
    var m := PayoffMonth(debt, 0.0, payment);
    if m < Cap {
      InstallmentsGap(payment, m, Cap);
      ZeroRateLinear(debt, payment, m);
      assert false;
    }
  }
}
