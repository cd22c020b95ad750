// One financing scenario of a buy-to-let property: a loan term in years and a
// downpayment percentage give the loan, its fees, the monthly installment, the
// cash flow and three ROI figures.  All arithmetic is exact (real numbers).
module Permutation {

  // ---------------------------------------------------------------------------
  // Constants of the scenario engine
  // ---------------------------------------------------------------------------

  // Months per year (MONTHS = 12) appears as the literal 12 throughout, so
  // that divisions by it stay linear for the verifier.
  /** A downpayment above this amount rejects the scenario. */
  const MaxDownpayment: real := 30000.0

  /** Nominal annual interest rate of the bank, in percent. */
  const BankInterestRate: real := 7.50
  const BankLoanGivingFee: real := 0.01
  const BankMortgageFee: real := 1.20 * 0.01
  const BankLoanStamps: real := 0.003

  const InterestRateDecimal: real := BankInterestRate / 100.0
  /** 0.075 / 12 = 0.00625 */
  const MonthlyInterestRate: real := InterestRateDecimal / 12.0

  const MonthlyOperatingExpenses: real := 30.0
  const AnnualMaintenance: real := 100.0
  const MonthlyMaintenance: real := AnnualMaintenance / 12.0

  /** The horizon `calculate` passes to the blended x-years ROI. */
  const HorizonYears: int := 10

  // ---------------------------------------------------------------------------
  // Data
  // ---------------------------------------------------------------------------

  /** What a scenario reads of its parent property. */
  datatype Listing = Listing(price: real, rent: real, annualRent: real)

  /** Recurring monthly costs as the scenario engine recomputes them. */
  datatype Expenses = Expenses(
    annualGovtTax: real,
    monthlyGovtTax: real,
    annualReletting: real,
    monthlyReletting: real,
    totalMonthly: real)

  datatype LoanFees = LoanFees(givingFee: real, mortgageFee: real, stampsFee: real, total: real)

  /** Income and ROI once the loan is paid off. */
  datatype AfterLoan = AfterLoan(
    monthlyIncome: real,
    annualIncome: real,
    equityWithLoan: real,
    annualRoi: real)

  /** The ROI averaged over a fixed horizon of years. */
  datatype Horizon = Horizon(equity: real, totalIncome: real, avgAnnualRoi: real)

  /** Every figure a successful scenario computes. */
  datatype Figures = Figures(
    numYears: int,
    downpaymentPercent: int,
    downpayment: real,
    loanPrincipal: real,
    numPayments: int,
    expenses: Expenses,
    fees: LoanFees,
    monthlyInstallments: real,
    totalMonthlyOutcome: real,
    totalMonthlyIncome: real,
    totalAnnualIncome: real,
    equity: real,
    monthlyRoi: real,
    annualRoi: real,
    afterLoan: AfterLoan,
    horizon: Horizon)

  /**
   * The outcome of one scenario: its figures, or the financing constraint it
   * violates.  The scenario engine modelled here only ever rejects on the
   * downpayment cap; the property sweep also knows the installment-cap and
   * minimum-principal rejections of other engine versions.
   */
  datatype Outcome =
    | Success(fig: Figures)
    | RejectedDownpayment
    | RejectedInstallment
    | RejectedMinPrincipal

  // ---------------------------------------------------------------------------
  // Integer power and the amortising loan
  // ---------------------------------------------------------------------------

  function Pow(x: real, n: nat): (r: real)
    ensures x > 0.0 ==> r > 0.0
    ensures x >= 1.0 ==> r >= 1.0
    ensures x > 1.0 && n >= 1 ==> r > 1.0
  {
    if n == 0 then 1.0 else x * Pow(x, n - 1)
  }

  lemma {:induction false} PowStrictlyIncreasing(x: real, m: nat, n: nat)
    requires x > 1.0 && m < n
    ensures Pow(x, m) < Pow(x, n)
  {
    if m < n - 1 {
      PowStrictlyIncreasing(x, m, n - 1);
    }
    PowStep(x, n);
  }

  /** One more factor above one makes the power strictly larger. */
  lemma PowStep(x: real, n: nat)
    requires x > 1.0 && n >= 1
    ensures Pow(x, n) > Pow(x, n - 1)
  {
    Grows(x, Pow(x, n - 1), Pow(x, n));
  }

  /** Multiplying a positive real by a factor above one makes it larger. */
  lemma Grows(x: real, p: real, q: real)
    requires x > 1.0 && p > 0.0 && q == x * p
    ensures q > p
  {
    assert q - p == (x - 1.0) * p;
  }

  /**
   * The standard amortising-loan payment: `principal * (r * t) / (t - 1)` with
   * `r` the monthly rate and `t = (1 + r)^numPayments`.
   */
  function Installment(principal: real, numPayments: nat): (m: real)
    requires numPayments >= 1
    ensures principal == 0.0 ==> m == 0.0
    ensures principal > 0.0 ==> m > 0.0
    ensures principal < 0.0 ==> m < 0.0
  {
    var t := Pow(1.0 + MonthlyInterestRate, numPayments);
    principal * ((MonthlyInterestRate * t) / (t - 1.0))
  }

  /** Outstanding debt after `k` monthly payments of `m` on a loan of `principal`. */
  function Balance(principal: real, m: real, k: nat): real
  {
    if k == 0 then principal else Balance(principal, m, k - 1) * (1.0 + MonthlyInterestRate) - m
  }

  /** One month of the balance recurrence, as an identity over the reals. */
  lemma BalanceStep(b: real, r: real, m: real, principal: real, t: real)
    requires b * r == principal * r * t - m * (t - 1.0)
    ensures (b * (1.0 + r) - m) * r == principal * r * ((1.0 + r) * t) - m * ((1.0 + r) * t - 1.0)
  {
    calc {
      (b * (1.0 + r) - m) * r;
      (b * r) * (1.0 + r) - m * r;
      (principal * r * t - m * (t - 1.0)) * (1.0 + r) - m * r;
      principal * r * t * (1.0 + r) - m * (t - 1.0) * (1.0 + r) - m * r;
      principal * r * ((1.0 + r) * t) - m * ((1.0 + r) * t - 1.0);
    }
  }

  lemma {:induction false} BalanceClosedForm(principal: real, m: real, k: nat)
    ensures var t := Pow(1.0 + MonthlyInterestRate, k);
      Balance(principal, m, k) * MonthlyInterestRate
        == principal * MonthlyInterestRate * t - m * (t - 1.0)
  {
    if k > 0 {
      BalanceClosedForm(principal, m, k - 1);
      BalanceStep(Balance(principal, m, k - 1), MonthlyInterestRate, m, principal,
                  Pow(1.0 + MonthlyInterestRate, k - 1));
    }
  }

  /** Paying the installment every month clears the loan after exactly `numPayments` months. */
  lemma InstallmentRepaysLoan(principal: real, numPayments: nat)
    requires numPayments >= 1
    ensures Balance(principal, Installment(principal, numPayments), numPayments) == 0.0
  {
    var r := MonthlyInterestRate;
    var t := Pow(1.0 + r, numPayments);
    var m := Installment(principal, numPayments);
    BalanceClosedForm(principal, m, numPayments);
    assert m * (t - 1.0) == principal * r * t;
  }

  /** For a fixed positive principal, a longer loan has a strictly lower installment. */
  lemma InstallmentDecreasesWithTerm(principal: real, shorter: nat, longer: nat)
    requires principal > 0.0 && 1 <= shorter < longer
    ensures Installment(principal, longer) < Installment(principal, shorter)
  {
    var r := MonthlyInterestRate;
    var t1 := Pow(1.0 + r, shorter);
    var t2 := Pow(1.0 + r, longer);
    PowStrictlyIncreasing(1.0 + r, shorter, longer);
    AnnuityFactorDecreasing(r, t1, t2);
    assert principal * (r * t2 / (t2 - 1.0)) < principal * (r * t1 / (t1 - 1.0));
  }

  /** `r * t / (t - 1)` falls as `t` grows past 1. */
  lemma AnnuityFactorDecreasing(r: real, t1: real, t2: real)
    requires r > 0.0 && 1.0 < t1 < t2
    ensures r * t2 / (t2 - 1.0) < r * t1 / (t1 - 1.0)
  {
    SplitFraction(r, t1);
    SplitFraction(r, t2);
    DivDecreasing(r, t1 - 1.0, t2 - 1.0);
  }

  lemma SplitFraction(r: real, t: real)
    requires t > 1.0
    ensures r * t / (t - 1.0) == r + r / (t - 1.0)
  {
    var d := t - 1.0;
    var q := r / d;
    assert q * d == r;
    assert (r + q) * d == r * t;
  }

  lemma DivDecreasing(r: real, a: real, b: real)
    requires r > 0.0 && 0.0 < a < b
    ensures r / b < r / a
  {
    var x := r / a;
    var y := r / b;
    assert x * a == r && y * b == r;
    assert x > 0.0;
    assert x * b - x * a == x * (b - a);
    assert x * (b - a) > 0.0;
    assert (y - x) * b == r - x * b;
  }

  /** For a fixed term, the installment is strictly increasing in the principal. */
  lemma InstallmentIncreasesWithPrincipal(smaller: real, larger: real, numPayments: nat)
    requires smaller < larger && numPayments >= 1
    ensures Installment(smaller, numPayments) < Installment(larger, numPayments)
  {
    var t := Pow(1.0 + MonthlyInterestRate, numPayments);
    var k := (MonthlyInterestRate * t) / (t - 1.0);
    assert k > 0.0;
    assert Installment(larger, numPayments) - Installment(smaller, numPayments) == (larger - smaller) * k;
  }

  // ---------------------------------------------------------------------------
  // The steps of a scenario
  // ---------------------------------------------------------------------------

  function Downpayment(price: real, percent: int): real
  {
    price * ((percent as real) / 100.0)
  }

  predicate ExceedsMaxDownpayment(price: real, percent: int)
  {
    Downpayment(price, percent) > MaxDownpayment
  }

  /**
   * The scenario can be computed without a division by zero: either it is
   * rejected before any division, or the equity is positive and a loan, if
   * any, runs for at least a year.
   */
  predicate Computable(price: real, numYears: int, percent: int)
  {
    ExceedsMaxDownpayment(price, percent)
    || (price > 0.0 && percent >= 0 && (numYears >= 1 || percent == 100))
  }

  /** A downpayment rejection stays a rejection when the percentage grows. */
  lemma RejectionIsMonotone(price: real, percent: int, higher: int)
    requires price > 0.0 && percent <= higher
    requires ExceedsMaxDownpayment(price, percent)
    ensures ExceedsMaxDownpayment(price, higher)
  {
    assert Downpayment(price, higher) - Downpayment(price, percent)
        == price * (((higher - percent) as real) / 100.0);
  }

  /** The loan term a scenario uses: a full-price downpayment is a cash purchase. */
  function InitYears(numYears: int, percent: int): int
  {
    if percent == 100 then 0 else numYears
  }

  /**
   * Recurring monthly expenses as the scenario engine computes them: a fixed
   * reletting factor of 3.0 and no government-tax discount.
   */
  function ScenarioExpenses(l: Listing): (e: Expenses)
    ensures l.annualRent == 12.0 * l.rent ==>
      e.totalMonthly == MonthlyOperatingExpenses + MonthlyMaintenance + l.rent * 0.37
  {
    var annualGovtTax := (l.annualRent * 0.80) * 0.15;
    var monthlyGovtTax := annualGovtTax / 12.0;
    var annualReletting := l.rent * 3.0;
    var monthlyReletting := annualReletting / 12.0;
    Expenses(annualGovtTax, monthlyGovtTax, annualReletting, monthlyReletting,
      MonthlyOperatingExpenses + monthlyGovtTax + monthlyReletting + MonthlyMaintenance)
  }

  /** The three bank fees on the loan principal: together 2.5% of it. */
  function CalcLoanFees(principal: real): (f: LoanFees)
    ensures f.total == 0.025 * principal
    ensures principal >= 0.0 ==> f.givingFee >= 0.0 && f.mortgageFee >= 0.0 && f.stampsFee >= 0.0
  {
    var givingFee := principal * BankLoanGivingFee;
    var mortgageFee := principal * BankMortgageFee;
    var stampsFee := principal * BankLoanStamps;
    LoanFees(givingFee, mortgageFee, stampsFee, givingFee + mortgageFee + stampsFee)
  }

  /** The monthly installment: none for a cash purchase, the amortising payment otherwise. */
  function CalcMonthlyInstallment(percent: int, principal: real, numPayments: int): (m: real)
    requires percent == 100 || numPayments >= 1
    ensures percent == 100 ==> m == 0.0
    ensures percent != 100 ==> (m > 0.0 <==> principal > 0.0) && (m == 0.0 <==> principal == 0.0)
  {
    if percent == 100 then 0.0 else Installment(principal, numPayments)
  }

  /**
   * The capital at risk over the loan years.  While the loan runs at a loss
   * the owner pays the shortfall, so the shortfall over the loan years is
   * added to the equity.
   */
  function EquityAtRisk(equity: real, totalAnnualIncome: real, numYears: int): (e: real)
    requires equity > 0.0 && numYears >= 0
    ensures e >= equity
    ensures totalAnnualIncome > 0.0 ==> e == equity
    ensures totalAnnualIncome <= 0.0 ==> e - equity == -totalAnnualIncome * (numYears as real)
  {
    if totalAnnualIncome <= 0.0 then
      assert -totalAnnualIncome * (numYears as real) >= 0.0;
      equity - totalAnnualIncome * (numYears as real)
    else equity
  }

  /** ROI once the loan is paid off, on the equity at risk. */
  function CalculateAfterloanRoi(rent: real, expenseTotalMonthly: real, equity: real,
                                 totalAnnualIncome: real, numYears: int): (a: AfterLoan)
    requires equity > 0.0 && numYears >= 0
    ensures a.annualIncome == 12.0 * (rent - expenseTotalMonthly)
    ensures a.equityWithLoan == EquityAtRisk(equity, totalAnnualIncome, numYears)
    ensures a.annualRoi * a.equityWithLoan == a.annualIncome
  {
    var monthlyIncome := rent - expenseTotalMonthly;
    var annualIncome := monthlyIncome * 12.0;
    var equityWithLoan := EquityAtRisk(equity, totalAnnualIncome, numYears);
    AfterLoan(monthlyIncome, annualIncome, equityWithLoan, Roi(annualIncome, equityWithLoan))
  }

  /** Income earned during the loan years: nothing when the loan runs at a loss. */
  function LoanPeriodIncome(totalAnnualIncome: real, numYears: int): (income: real)
    requires numYears >= 0
    ensures income >= 0.0
    ensures income > 0.0 <==> totalAnnualIncome > 0.0 && numYears > 0
  {
    if totalAnnualIncome <= 0.0 then 0.0 else totalAnnualIncome * (numYears as real)
  }

  /**
   * The ROI averaged over `periodYears`: loan-year income plus after-loan
   * income for the years of the horizon left after the loan.
   */
  function CalXYearsRoi(totalAnnualIncome: real, afterloanAnnualIncome: real, equity: real,
                        numYears: int, periodYears: int): (h: Horizon)
    requires equity > 0.0 && numYears >= 0 && periodYears >= 1
    ensures h.equity == EquityAtRisk(equity, totalAnnualIncome, numYears)
    ensures numYears < periodYears ==>
      h.totalIncome == LoanPeriodIncome(totalAnnualIncome, numYears)
                       + afterloanAnnualIncome * ((periodYears - numYears) as real)
    ensures numYears >= periodYears ==> h.totalIncome == LoanPeriodIncome(totalAnnualIncome, numYears)
    ensures h.avgAnnualRoi * (periodYears as real) * h.equity == h.totalIncome
  {
    var equityXYears := EquityAtRisk(equity, totalAnnualIncome, numYears);
    var loanPeriodIncome := LoanPeriodIncome(totalAnnualIncome, numYears);
    var totalIncome :=
      if numYears < periodYears
      then afterloanAnnualIncome * ((periodYears - numYears) as real) + loanPeriodIncome
      else loanPeriodIncome;
    Horizon(equityXYears, totalIncome, (totalIncome / (periodYears as real)) / equityXYears)
  }

  /**
   * The horizon average is not capped at the horizon: a profitable loan that
   * runs longer than the horizon credits every loan year to it, so the
   * averaged annual income exceeds the income of any one year.
   */
  lemma XYearsIncomeNotCappedAtHorizon(totalAnnualIncome: real, afterloanAnnualIncome: real,
                                       equity: real, numYears: int, periodYears: int)
    requires equity > 0.0 && periodYears >= 1 && numYears > periodYears
    requires totalAnnualIncome > 0.0
    ensures CalXYearsRoi(totalAnnualIncome, afterloanAnnualIncome, equity, numYears, periodYears).totalIncome
            / (periodYears as real) > totalAnnualIncome
  {
    var h := CalXYearsRoi(totalAnnualIncome, afterloanAnnualIncome, equity, numYears, periodYears);
    assert h.totalIncome == totalAnnualIncome * (numYears as real);
    assert totalAnnualIncome * (numYears as real) > totalAnnualIncome * (periodYears as real);
  }

  /** Return on the equity: income per unit of capital at risk. */
  function Roi(income: real, equity: real): (roi: real)
    requires equity > 0.0
    ensures roi * equity == income
  {
    income / equity
  }

  /** Twelve times the monthly income gives twelve times the monthly ROI. */
  lemma RoiScales(monthlyIncome: real, annualIncome: real, equity: real)
    requires equity > 0.0 && annualIncome == 12.0 * monthlyIncome
    ensures Roi(annualIncome, equity) == 12.0 * Roi(monthlyIncome, equity)
  {
  }

  // ---------------------------------------------------------------------------
  // The whole scenario
  // ---------------------------------------------------------------------------

  /**
   * Computes one scenario: rejected when the downpayment exceeds the cap,
   * otherwise all figures in the order the engine derives them.
   */
  function Calculate(l: Listing, numYears: int, percent: int): (o: Outcome)
    requires Computable(l.price, numYears, percent)
    ensures o.RejectedDownpayment? <==> ExceedsMaxDownpayment(l.price, percent)
    ensures o.Success? || o.RejectedDownpayment?
    ensures o.Success? ==>
      var f := o.fig;
      && f.downpaymentPercent == percent
      && f.downpayment == Downpayment(l.price, percent)
      && f.downpayment + f.loanPrincipal == l.price
      && f.fees.total == 0.025 * f.loanPrincipal
      && f.equity == f.downpayment + f.fees.total
      && f.equity > 0.0
      && f.totalAnnualIncome == 12.0 * (l.rent - f.expenses.totalMonthly - f.monthlyInstallments)
      && f.annualRoi == 12.0 * f.monthlyRoi
      && f.annualRoi == Roi(f.totalAnnualIncome, f.equity)
      && (percent == 100 ==>
            f.numYears == 0 && f.numPayments == 0 && f.monthlyInstallments == 0.0 && f.loanPrincipal == 0.0)
      && (percent != 100 ==> f.numYears == numYears && f.numPayments == 12 * numYears)
      && (f.monthlyInstallments > 0.0 <==> f.loanPrincipal > 0.0 && percent != 100)
      && f.afterLoan.annualIncome == 12.0 * (l.rent - f.expenses.totalMonthly)
      && f.afterLoan.equityWithLoan >= f.equity
      && f.horizon.equity == f.afterLoan.equityWithLoan
  {
    var downpayment := Downpayment(l.price, percent);
    if downpayment > MaxDownpayment then RejectedDownpayment
    else
      var years := InitYears(numYears, percent);
      var principal := l.price - downpayment;
      var numPayments := years * 12;
      var expenses := ScenarioExpenses(l);
      var fees := CalcLoanFees(principal);
      var installment := CalcMonthlyInstallment(percent, principal, numPayments);
      var totalMonthlyOutcome := expenses.totalMonthly + installment;
      var totalMonthlyIncome := l.rent - totalMonthlyOutcome;
      var totalAnnualIncome := totalMonthlyIncome * 12.0;
      var equity := downpayment + fees.total;
      assert equity > 0.0 by {
        assert downpayment >= 0.0;
        assert equity == 0.975 * downpayment + 0.025 * l.price;
      }
      RoiScales(totalMonthlyIncome, totalAnnualIncome, equity);
      var afterLoan := CalculateAfterloanRoi(l.rent, expenses.totalMonthly, equity, totalAnnualIncome, years);
      var horizon := CalXYearsRoi(totalAnnualIncome, afterLoan.annualIncome, equity, years, HorizonYears);
      Success(Figures(
        years, percent, downpayment, principal, numPayments, expenses, fees, installment,
        totalMonthlyOutcome, totalMonthlyIncome, totalAnnualIncome, equity,
        Roi(totalMonthlyIncome, equity), Roi(totalAnnualIncome, equity), afterLoan, horizon))
  }

  // ---------------------------------------------------------------------------
  // Scenario kinds and the factory
  // ---------------------------------------------------------------------------

  /** A plain scenario returns the immediate ROI; a short-term one the after-loan ROI. */
  datatype PermutationKind = Standard | ShortTerm

  /** The factory: loans of at most five years are short-term scenarios. */
  function Create(numYears: int): PermutationKind
  {
    if numYears <= 5 then ShortTerm else Standard
  }

  /** What `calculate` of a scenario of the given kind returns. */
  function Returned(kind: PermutationKind, fig: Figures): real
  {
    match kind
    case Standard => fig.annualRoi
    case ShortTerm => fig.afterLoan.annualRoi
  }

  /** The ROI a sweep sees for a scenario the factory created for `numYears`. */
  function ReportedRoi(numYears: int, fig: Figures): (roi: real)
    ensures numYears <= 5 ==> roi == fig.afterLoan.annualRoi
    ensures numYears > 5 ==> roi == fig.annualRoi
  {
    Returned(Create(numYears), fig)
  }
}
