# Buy-to-let calculator: scenario engine, property sweep, global winner

This project models the core of a buy-to-let investment calculator. Given a
property's price and rent, the calculator works out one financing scenario
for each loan term and downpayment percentage, and keeps the best of them.
It has three layers:

- `Permutation` (`permutation.dfy`, from `permutation.py`) computes one
  scenario, over exact reals. The figures are:
  - the downpayment, with its cap of 30000, and the loan principal;
  - the three bank fees, 2.5% of the principal in total;
  - the amortising monthly installment `P * (r * t) / (t - 1)`, where `t = (1 + r)^n`;
  - the cash flow, the equity and the immediate ROI;
  - the after-loan ROI, on the equity raised by loan-year shortfalls;
  - the ROI averaged over a 10-year horizon.

  A scenario is a pure function that returns an `Outcome`: the figures, or a
  downpayment rejection. The factory (`Create`) makes loans of at most five
  years short-term scenarios, and their `calculate` returns the after-loan
  ROI instead of the immediate one.
- `PropertySweep` (`property.dfy`, from `property.py`) holds the class
  `Property`. Its `Process` method computes the property's expenses, then
  sweeps loan terms in ascending order and, inside each term, downpayment
  percentages in ascending order. The sweep:
  - stores every computed outcome in a `year -> percent -> outcome` grid;
  - leaves a term at its first downpayment rejection;
  - keeps two independent winners, the immediate ROI and the 10-year ROI,
    each replaced only when a strictly higher ROI comes along.

  The cells the sweep computes are specified by the function `SweepVisits`.
  The grid and the winners are folds (`Record`, `Track`) over those cells.
  The lemmas characterise the folds: which cells the sweep reaches, what the
  grid holds afterwards, and the fact that each winner is the first maximum.
- `Landlord` (`landlord.dfy`, from `calc_loan.py`) holds the class
  `LandlordPropertyCalculator`. Its `Process` method builds one property per
  input row, sweeps each over terms 1..30 and percentages 20..100, and folds
  the property winners into a global winner, again with strict `>`. It
  reports nothing when there is no input.

Where the code departs from its evident intent (a cap at the horizon, a floor at zero, the immediate ROI as the only compared figure), the model follows the code:

- A short-term scenario (at most five years) returns the after-loan ROI, and
  the property sweep compares that value.
- The 10-year income is not capped at the horizon. A loan of ten or more
  years credits every loan year's income to the ten-year total. That total
  counts `num_years` years of loan income, not `min(horizon, num_years)`
  (`XYearsIncomeNotCappedAtHorizon`).
- The after-loan years' income is not floored at zero.

## Model

| member | source | states |
|---|---|---|
| Permutation.Pow | permutation.py:100 | `(1 + r)^n` is positive for a positive base, at least 1 for a base of at least 1, and above 1 for a base above 1 and `n >= 1` |
| Permutation.PowStrictlyIncreasing | permutation.py:100 | for a base above 1 the power is strictly increasing in the exponent |
| Permutation.Installment | permutation.py:100-101 | the amortising installment has the sign of the principal: zero for zero, positive for positive, negative for negative |
| Permutation.BalanceClosedForm | permutation.py:100-101 | the debt left after `k` monthly payments has the closed form `r * B_k = P * r * t_k - m * (t_k - 1)` |
| Permutation.InstallmentRepaysLoan | permutation.py:100-101 | paying the installment every month leaves exactly zero debt after `num_payments` months, which is what the formula is for |
| Permutation.InstallmentDecreasesWithTerm | permutation.py:100-101 | for a positive principal a longer term gives a strictly lower installment |
| Permutation.InstallmentIncreasesWithPrincipal | permutation.py:100-101 | for a fixed term the installment is strictly increasing in the principal |
| Permutation.RejectionIsMonotone | permutation.py:42-45 | once a percentage's downpayment exceeds the cap, every higher percentage's does too |
| Permutation.ScenarioExpenses | permutation.py:80-87 | the scenario's monthly expenses are operating + maintenance + 37% of the rent (tax 12%, reletting 3.0/12) when the annual rent is twelve monthly rents |
| Permutation.CalcLoanFees | permutation.py:89-93 | the three fees total 2.5% of the principal and none is negative for a non-negative principal |
| Permutation.CalcMonthlyInstallment | permutation.py:95-101 | no installment for a 100% downpayment; otherwise the installment is positive exactly when the principal is, and zero exactly when it is |
| Permutation.EquityAtRisk | permutation.py:72-75 | the equity at risk is at least the equity; it equals it when the loan years make money and adds the shortfall `-income * num_years` otherwise |
| Permutation.CalculateAfterloanRoi | permutation.py:68-78 | after-loan annual income is twelve times rent minus expenses; the after-loan ROI times the equity at risk is that income |
| Permutation.LoanPeriodIncome | permutation.py:106-111 | loan-period income is never negative and is positive exactly when the annual income and the term are |
| Permutation.CalXYearsRoi | permutation.py:103-118 | horizon equity is the equity at risk; the total adds after-loan income for the remaining years only when the term is shorter than the horizon; average ROI * horizon * equity = total |
| Permutation.XYearsIncomeNotCappedAtHorizon | permutation.py:113-116 | with a profitable term longer than the horizon, the horizon's average income exceeds one year's income, because every loan year is credited |
| Permutation.Roi | permutation.py:60-61 | the ROI times the equity is the income |
| Permutation.RoiScales | permutation.py:57-61 | the annual ROI is twelve times the monthly ROI |
| Permutation.Calculate | permutation.py:30-66 | rejected exactly when the downpayment exceeds the cap, otherwise a success whose figures satisfy: downpayment + principal = price, fees = 2.5% of principal, equity = downpayment + fees > 0, annual income = 12 * (rent - expenses - installment), annual ROI = 12 * monthly ROI = income / equity, a 100% downpayment means no term, no payments, no installment, no principal, an installment exactly when there is a loan, after-loan equity >= equity |
| Permutation.ReportedRoi | permutation.py:139-152 | what `calculate` returns for the factory's scenario: the after-loan ROI for terms of at most five years, the immediate ROI otherwise |
| PropertySweep.CalcPropertyExpenses | property.py:83-93 | monthly expenses = operating + maintenance + rent * (12% * (1 - tax discount) + reletting factor / 12); after-loan monthly income = rent - expenses; annual = 12 * monthly |
| PropertySweep.ScenarioExpensesIgnoreProperty | permutation.py:80-87 | a scenario's expenses are the property's computed with reletting factor 3.0 and no tax discount, whatever the property's own factor and discount |
| PropertySweep.Put | property.py:53 | storing an outcome sets that one cell and leaves every other cell unchanged |
| PropertySweep.RowShape | property.py:43-52 | a term's sweep visits consecutive percentages from the lower bound, each holding the scenario's outcome, at most up to the upper bound |
| PropertySweep.RowStops | property.py:63-69 | a term's sweep ends at the upper bound or at its first downpayment rejection, and no earlier cell is one |
| PropertySweep.RowVisitIsReached | property.py:43-69 | every cell a term's sweep visits is in bounds and every cell before it was computed and not rejected for its downpayment |
| PropertySweep.RowReachIsVisited | property.py:43-69 | every in-bounds cell whose earlier cells were not rejected for their downpayment is visited |
| PropertySweep.RowVisitedExactly | property.py:43-69 | a term's sweep visits a cell if and only if it is in bounds and no earlier cell of the term was rejected for its downpayment |
| PropertySweep.SweepCells | property.py:42-52 | every cell the whole sweep visits lies within its terms and holds the scenario's outcome for it |
| PropertySweep.SweepInOrder | property.py:42-43 | the sweep visits terms in ascending order and, within a term, percentages in ascending order |
| PropertySweep.SweepVisitedExactly | property.py:42-69 | the sweep visits `(y, p)` if and only if `y` and `p` are in bounds and term `y` was not cut off before `p`; the next term starts afresh after a rejection |
| PropertySweep.RecordLookup | property.py:53-68 | storing the visits in sweep order leaves each visited cell holding its outcome and every other cell unchanged |
| PropertySweep.SweepGrid | property.py:42-81 | after a sweep, each reached cell holds its scenario's outcome and every other cell is as before |
| PropertySweep.SweepDefinedWhenPriced | permutation.py:40-66 | for a positive price, terms from one year and non-negative percentages, every scenario the sweep computes is free of division by zero |
| PropertySweep.RowDefinedWhenPriced | permutation.py:40-66 | the same for the cells of one term |
| PropertySweep.SkippedCellsAreRejected | property.py:63-69 | leaving a term at its first rejection loses nothing: every skipped cell would have been rejected for its downpayment too |
| PropertySweep.TrackIsFirstMaximum | property.py:55-61 | a winner never falls below its start, is at least every successful scenario's ROI, and is either unchanged or the first successful scenario in sweep order to reach the highest ROI (ties keep the earlier one) |
| PropertySweep.Property.constructor | property.py:17-35 | the property keeps its figures, its annual rent is twelve monthly rents, its grid is empty and both winners are the sentinel with no figures |
| PropertySweep.Property.CalcExpenses | property.py:83-93 | the property's expenses become those of `CalcPropertyExpenses` on its own figures |
| PropertySweep.Property.Process | property.py:37-81 | expenses computed first; the grid becomes the old grid with every visited cell stored in sweep order; each winner is the strict-`>` fold of its ROI over the visited cells |
| PropertySweep.Property.ProcessTerm | property.py:43-81 | one term: cells stored and winners folded over the term's visits, stopping after the first downpayment rejection and going on past the other rejections |
| PropertySweep.Property.Consider | property.py:51-73 | the cell is stored in the grid under its term and percentage, whatever its outcome; a successful cell replaces each winner only with a strictly higher ROI, the immediate one with the ROI `calculate` returned and the x-years one with the 10-year average |
| Landlord.HighestIsFirstMaximum | calc_loan.py:60-62 | the global winner never falls below its start, is at least every property winner, and is either unchanged or the first property winner to reach the highest ROI |
| Landlord.GlobalMaxBoundsEveryScenario | calc_loan.py:52-62 | the global ROI is at least the ROI `calculate` returned for every successful scenario of every property |
| Landlord.GlobalWinnerIsAScenario | calc_loan.py:60-62 | unless it stays the initial winner, the global winner is the figures of a successful scenario of some property, with the ROI `calculate` returned for it |
| Landlord.LandlordPropertyCalculator.constructor | calc_loan.py:12-17 | the global winner starts at the sentinel with no figures; the grid is terms 1..30 and percentages 20..100 |
| Landlord.LandlordPropertyCalculator.ReadInput | calc_loan.py:37-41 | one fresh, distinct property per row, in input order, holding every column of its row (price, rent, reletting factor, tax discount, area, one-off expense, name, url), an empty grid and both sentinel winners |
| Landlord.LandlordPropertyCalculator.SweepProperty | calc_loan.py:54-62 | one property is processed over the grid: its expenses, its grid, its immediate-ROI winner and its 10-year winner; its immediate-ROI winner replaces the global one only with a strictly higher ROI |
| Landlord.LandlordPropertyCalculator.SweepAll | calc_loan.py:52-62 | every property is processed in input order, holding its expenses, grid, immediate-ROI winner and 10-year winner, and the global winner becomes the strict-`>` fold of the immediate-ROI property winners |
| Landlord.LandlordPropertyCalculator.Process | calc_loan.py:43-68 | no rows: no report and the global winner unchanged; otherwise a report of all properties in input order, distinct, each holding every column of its row and the calculator's constants, its expenses, its grid, its immediate-ROI winner and its 10-year winner, with the global winner folded over the property winners |

## Left out

- Reading the input file (`read_csv_input`, `read_input`, the `readers` table) is file I/O and parsing. `Process` takes the rows already parsed, and an unsupported file format, which makes the source return no properties, is not modelled.
- The spreadsheet writer (`XLSXWriter`, with `get_roi_color`) and the script entry point are presentation and I/O.
- The console messages of `process` are output only: "No input to process!" when there are no properties (calc_loan.py:46), and the number of properties read (calc_loan.py:49).
- The `__repr__` text of scenarios and properties is text formatting.
- Floating point: every figure is an exact real. IEEE rounding and `math.pow`'s float behaviour are not modelled.
- The constants module is not part of this model. `MINIMUM_DECIMAL` and the property-level monthly operating and maintenance costs are parameters (`SharedConstants`). `MONTHS` is the literal 12.
- `ROI_YEARS` and `VISUALIZING_ROI_YEARS` are unused by the core.
- The installment-cap and minimum-principal rejections: the scenario code here never raises them. The sweep handles them (store the marker, go on) but no modelled scenario produces them.
- Permutation.Calculate: requires a positive price, a non-negative percentage, and a term of at least one year unless the percentage is 100. A zero price or a zero-year loan makes the source divide by zero, and a negative term needs a negative exponent that the natural-number power does not model. The model also excludes negative prices and negative percentages. The source computes those normally, some of them with a non-positive equity. They lie outside the calculator's non-negative prices and its 20..100 percentage grid.
- Landlord.LandlordPropertyCalculator.Process: requires every row to have a positive price. A zero price makes the source divide by zero in its first scenario.
- Landlord.LandlordPropertyCalculator.constructor: takes the shared constants instead of an input path and file format, which only the file reading uses. The grid 1..30 by 20..100 that `process` passes to every property is held in a field set by the constructor.
- PropertySweep.Property.Process: the grid stores outcomes rather than scenario objects. A rejection cell holds the rejection itself rather than a marker object carrying its term and percentage.
