// A candidate property: its base figures, its recurring expenses, and the
// sweep that computes every financing scenario over a grid of loan terms and
// downpayment percentages while tracking the two best scenarios.
module PropertySweep {
  import opened Wrappers
  import opened Permutation

  // ---------------------------------------------------------------------------
  // Data
  // ---------------------------------------------------------------------------

  /**
   * Values the property reads from the shared constants module: the sentinel
   * every ROI is compared against first, and the fixed monthly costs.
   */
  datatype SharedConstants = SharedConstants(
    minimumDecimal: real,
    monthlyOperatingExpenses: real,
    monthlyMaintenance: real)

  /** Recurring expenses of a property, computed once before its sweep. */
  datatype PropertyExpenses = PropertyExpenses(
    annualGovtTax: real,
    monthlyGovtTax: real,
    annualReletting: real,
    monthlyReletting: real,
    totalMonthly: real,
    afterloanMonthlyIncome: real,
    afterloanAnnualIncome: real)

  /** The scenario grid: loan years to downpayment percentage to outcome. */
  type Grid = map<int, map<int, Outcome>>

  /** One cell the sweep computes, in the order it computes them. */
  datatype Visit = Visit(years: int, percent: int, outcome: Outcome)

  /** A tracked winner: its ROI and its figures (`None` before any winner). */
  datatype Best = Best(roi: real, stats: Option<Figures>)

  /** The two ROI definitions the sweep maximises independently. */
  datatype Criterion = Immediate | XYears

  // ---------------------------------------------------------------------------
  // Expenses
  // ---------------------------------------------------------------------------

  function CalcPropertyExpenses(rent: real, annualRent: real, relettingFactor: real,
                                govTaxDiscount: real, consts: SharedConstants): (e: PropertyExpenses)
    ensures annualRent == 12.0 * rent ==>
      e.totalMonthly == consts.monthlyOperatingExpenses + consts.monthlyMaintenance
                        + rent * (0.12 * (1.0 - govTaxDiscount) + relettingFactor / 12.0)
    ensures e.afterloanMonthlyIncome == rent - e.totalMonthly
    ensures e.afterloanAnnualIncome == 12.0 * e.afterloanMonthlyIncome
  {
    var annualGovtTax := (annualRent * 0.80) * 0.15 * (1.0 - govTaxDiscount);
    var monthlyGovtTax := annualGovtTax / 12.0;
    var annualReletting := rent * relettingFactor;
    var monthlyReletting := annualReletting / 12.0;
    var totalMonthly := consts.monthlyOperatingExpenses + monthlyGovtTax + monthlyReletting
                        + consts.monthlyMaintenance;
    var afterloanMonthlyIncome := rent - totalMonthly;
    PropertyExpenses(annualGovtTax, monthlyGovtTax, annualReletting, monthlyReletting, totalMonthly,
      afterloanMonthlyIncome, afterloanMonthlyIncome * 12.0)
  }

  /**
   * The scenario engine does not use these expenses: it recomputes its own,
   * which are the property's with a reletting factor of 3.0, no tax discount
   * and its own fixed monthly costs.
   */
  lemma ScenarioExpensesIgnoreProperty(l: Listing, consts: SharedConstants)
    requires consts.monthlyOperatingExpenses == MonthlyOperatingExpenses
    requires consts.monthlyMaintenance == MonthlyMaintenance
    ensures ScenarioExpenses(l).totalMonthly
            == CalcPropertyExpenses(l.rent, l.annualRent, 3.0, 0.0, consts).totalMonthly
  {
  }


  // ---------------------------------------------------------------------------
  // The sweep, as the sequence of cells it computes
  // ---------------------------------------------------------------------------

  /**
   * A scenario engine: the outcome of the scenario for a loan term and a
   * downpayment percentage, defined where it can be computed.
   */
  type Engine = (int, int) --> Outcome

  /** The engine a property sweeps: the scenario computation on its own figures. */
  function EngineOf(l: Listing): Engine
  {
    (years: int, percent: int) requires Computable(l.price, years, percent) => Calculate(l, years, percent)
  }

  /**
   * Every cell the row for `years` computes from `percent` on can be computed:
   * the row ends at `maxPercent` or right after its first downpayment rejection.
   */
  ghost predicate RowDefined(e: Engine, years: int, percent: int, maxPercent: int)
    decreases if percent <= maxPercent then maxPercent - percent + 1 else 0
  {
    percent > maxPercent
    || (e.requires(years, percent)
        && (e(years, percent).RejectedDownpayment? || RowDefined(e, years, percent + 1, maxPercent)))
  }

  /** Every row of the sweep from `years` to `maxYears` can be computed. */
  ghost predicate SweepDefined(e: Engine, years: int, maxYears: int, minPercent: int, maxPercent: int)
    decreases if years <= maxYears then maxYears - years + 1 else 0
  {
    years > maxYears
    || (RowDefined(e, years, minPercent, maxPercent)
        && SweepDefined(e, years + 1, maxYears, minPercent, maxPercent))
  }

  /**
   * The cells one year's row computes, from `percent` up to `maxPercent`: the
   * row stops right after a downpayment rejection and goes on past any other.
   */
  function RowVisits(e: Engine, years: int, percent: int, maxPercent: int): seq<Visit>
    requires RowDefined(e, years, percent, maxPercent)
    decreases if percent <= maxPercent then maxPercent - percent + 1 else 0
  {
    if percent > maxPercent then []
    else
      var o := e(years, percent);
      [Visit(years, percent, o)]
      + (if o.RejectedDownpayment? then [] else RowVisits(e, years, percent + 1, maxPercent))
  }

  /** The cells the whole sweep computes, row after row in ascending years. */
  function SweepVisits(e: Engine, years: int, maxYears: int, minPercent: int, maxPercent: int): seq<Visit>
    requires SweepDefined(e, years, maxYears, minPercent, maxPercent)
    decreases if years <= maxYears then maxYears - years + 1 else 0
  {
    if years > maxYears then []
    else RowVisits(e, years, minPercent, maxPercent) + SweepVisits(e, years + 1, maxYears, minPercent, maxPercent)
  }

  /** Every percentage of the row from `minPercent` up to (not including) `percent` was computed and not rejected for its downpayment. */
  ghost predicate Reached(e: Engine, years: int, minPercent: int, percent: int)
  {
    forall q :: minPercent <= q < percent ==> e.requires(years, q) && !e(years, q).RejectedDownpayment?
  }

  /** The visits include the cell `(years, percent)`. */
  predicate Visited(vs: seq<Visit>, years: int, percent: int)
  {
    exists i :: 0 <= i < |vs| && vs[i].years == years && vs[i].percent == percent
  }

  /** Sweep order: ascending years, then ascending percentage. */
  predicate Before(a: Visit, b: Visit)
  {
    a.years < b.years || (a.years == b.years && a.percent < b.percent)
  }

  predicate InSweepOrder(vs: seq<Visit>)
  {
    forall i, j :: 0 <= i < j < |vs| ==> Before(vs[i], vs[j])
  }

  // ---------------------------------------------------------------------------
  // The grid and the winners, as folds over the visited cells
  // ---------------------------------------------------------------------------

  /** The cell the grid holds at `(years, percent)`, if any. */
  function Lookup(g: Grid, years: int, percent: int): Option<Outcome>
  {
    if years in g && percent in g[years] then Some(g[years][percent]) else None
  }

  /** The grid after storing one outcome: that cell changes and no other. */
  function Put(g: Grid, v: Visit): (r: Grid)
    ensures Lookup(r, v.years, v.percent) == Some(v.outcome)
    ensures forall y, p :: (y != v.years || p != v.percent) ==> Lookup(r, y, p) == Lookup(g, y, p)
  {
    g[v.years := (if v.years in g then g[v.years] else map[])[v.percent := v.outcome]]
  }

  /** The grid after storing every visited outcome in order. */
  function Record(g: Grid, vs: seq<Visit>): Grid
  {
    if vs == [] then g else Put(Record(g, vs[..|vs| - 1]), vs[|vs| - 1])
  }

  /** The ROI a criterion compares: what `calculate` returned, or the x-years average. */
  function Score(c: Criterion, years: int, fig: Figures): real
  {
    match c
    case Immediate => ReportedRoi(years, fig)
    case XYears => fig.horizon.avgAnnualRoi
  }

  /** One winner update: a successful cell replaces the winner only with a strictly higher score. */
  function Step(c: Criterion, b: Best, v: Visit): Best
  {
    if v.outcome.Success? && Score(c, v.years, v.outcome.fig) > b.roi
    then Best(Score(c, v.years, v.outcome.fig), Some(v.outcome.fig))
    else b
  }

  /** The winner after every visited cell, in order. */
  function Track(c: Criterion, b: Best, vs: seq<Visit>): Best
  {
    if vs == [] then b else Step(c, Track(c, b, vs[..|vs| - 1]), vs[|vs| - 1])
  }

  /**
   * Cell `i` is the first successful cell to reach its score: it beats the
   * initial winner and every earlier successful cell scored strictly less.
   */
  predicate FirstBest(c: Criterion, b: Best, vs: seq<Visit>, i: int)
    requires 0 <= i < |vs|
  {
    && vs[i].outcome.Success?
    && Score(c, vs[i].years, vs[i].outcome.fig) > b.roi
    && forall j :: 0 <= j < i && vs[j].outcome.Success? ==>
         Score(c, vs[j].years, vs[j].outcome.fig) < Score(c, vs[i].years, vs[i].outcome.fig)
  }

  // ---------------------------------------------------------------------------
  // What the sweep visits
  // ---------------------------------------------------------------------------

  /** The visits are the consecutive cells of the row for `years` from `percent` on, each with the engine's outcome. */
  ghost predicate RowCells(e: Engine, vs: seq<Visit>, years: int, percent: int)
  {
    forall i :: 0 <= i < |vs| ==>
      && vs[i].years == years && vs[i].percent == percent + i
      && e.requires(years, vs[i].percent) && vs[i].outcome == e(years, vs[i].percent)
  }

  /** Only the last visit may be a downpayment rejection, and the visits end with one or at `maxPercent`. */
  predicate StopsAtRejection(vs: seq<Visit>, maxPercent: int)
  {
    && (forall i :: 0 <= i < |vs| - 1 ==> !vs[i].outcome.RejectedDownpayment?)
    && (|vs| > 0 ==> vs[|vs| - 1].outcome.RejectedDownpayment? || vs[|vs| - 1].percent == maxPercent)
  }

  /** The first visit of a row that goes on is its first cell; the rest is the row from the next percentage. */
  lemma RowUnfold(e: Engine, years: int, percent: int, maxPercent: int)
    requires percent <= maxPercent && RowDefined(e, years, percent, maxPercent)
    requires !e(years, percent).RejectedDownpayment?
    ensures RowDefined(e, years, percent + 1, maxPercent)
    ensures RowVisits(e, years, percent, maxPercent)
            == [Visit(years, percent, e(years, percent))] + RowVisits(e, years, percent + 1, maxPercent)
  {
  }

  /**
   * A row visits consecutive percentages from `percent` on, each with the
   * engine's outcome for it, and at most up to `maxPercent`.
   */
  lemma {:induction false} RowShape(e: Engine, years: int, percent: int, maxPercent: int)
    requires RowDefined(e, years, percent, maxPercent)
    ensures percent <= maxPercent ==> 1 <= |RowVisits(e, years, percent, maxPercent)| <= maxPercent - percent + 1
    ensures RowCells(e, RowVisits(e, years, percent, maxPercent), years, percent)
    decreases if percent <= maxPercent then maxPercent - percent + 1 else 0
  {
    if percent <= maxPercent && !e(years, percent).RejectedDownpayment? {
      RowUnfold(e, years, percent, maxPercent);
      RowShape(e, years, percent + 1, maxPercent);
      var vs := RowVisits(e, years, percent, maxPercent);
      var rest := RowVisits(e, years, percent + 1, maxPercent);
      forall i | 0 <= i < |vs|
        ensures && vs[i].years == years && vs[i].percent == percent + i
                && e.requires(years, vs[i].percent) && vs[i].outcome == e(years, vs[i].percent)
      {
        if i == 0 {
          assert vs[i] == Visit(years, percent, e(years, percent));
        } else {
          assert vs[i] == rest[i - 1];
        }
      }
    }
  }

  /**
   * A row ends at `maxPercent` or at its first downpayment rejection, and no
   * earlier cell is such a rejection.
   */
  lemma {:induction false} RowStops(e: Engine, years: int, percent: int, maxPercent: int)
    requires RowDefined(e, years, percent, maxPercent)
    ensures StopsAtRejection(RowVisits(e, years, percent, maxPercent), maxPercent)
    decreases if percent <= maxPercent then maxPercent - percent + 1 else 0
  {
    if percent <= maxPercent && !e(years, percent).RejectedDownpayment? {
      RowUnfold(e, years, percent, maxPercent);
      RowStops(e, years, percent + 1, maxPercent);
      RowShape(e, years, percent + 1, maxPercent);
      var vs := RowVisits(e, years, percent, maxPercent);
      var rest := RowVisits(e, years, percent + 1, maxPercent);
      forall i | 0 <= i < |vs| - 1
        ensures !vs[i].outcome.RejectedDownpayment?
      {
        if i > 0 {
          assert vs[i] == rest[i - 1];
        }
      }
      if |rest| > 0 {
        assert vs[|vs| - 1] == rest[|rest| - 1];
      }
    }
  }

  /**
   * A row visits `(y, q)` exactly when `y` is its year, `q` lies in its
   * percentage range, and every smaller percentage of the row was computed
   * without a downpayment rejection.
   */
  lemma RowVisitedExactly(e: Engine, years: int, percent: int, maxPercent: int)
    requires RowDefined(e, years, percent, maxPercent)
    ensures forall y, q :: Visited(RowVisits(e, years, percent, maxPercent), y, q)
                           <==> (y == years && percent <= q <= maxPercent && Reached(e, years, percent, q))
  {
    forall y, q
      ensures Visited(RowVisits(e, years, percent, maxPercent), y, q)
              <==> (y == years && percent <= q <= maxPercent && Reached(e, years, percent, q))
    {
      if Visited(RowVisits(e, years, percent, maxPercent), y, q) {
        RowVisitIsReached(e, years, percent, maxPercent, y, q);
      }
      if y == years && percent <= q <= maxPercent && Reached(e, years, percent, q) {
        RowReachIsVisited(e, years, percent, maxPercent, q);
      }
    }
  }

  /** A visited cell lies on the row, within its bounds, past only cells the sweep went on from. */
  lemma RowVisitIsReached(e: Engine, years: int, percent: int, maxPercent: int, y: int, q: int)
    requires RowDefined(e, years, percent, maxPercent)
    requires Visited(RowVisits(e, years, percent, maxPercent), y, q)
    ensures y == years && percent <= q <= maxPercent && Reached(e, years, percent, q)
  {
    RowShape(e, years, percent, maxPercent);
    RowStops(e, years, percent, maxPercent);
    var vs := RowVisits(e, years, percent, maxPercent);
    var i :| 0 <= i < |vs| && vs[i].years == y && vs[i].percent == q;
    assert q == percent + i;
    forall r | percent <= r < q
      ensures e.requires(years, r) && !e(years, r).RejectedDownpayment?
    {
      var j := r - percent;
      assert vs[j].percent == r && j < |vs| - 1;
    }
  }

  /** A cell of the row within its bounds that the sweep reached is visited. */
  lemma RowReachIsVisited(e: Engine, years: int, percent: int, maxPercent: int, q: int)
    requires RowDefined(e, years, percent, maxPercent)
    requires percent <= q <= maxPercent && Reached(e, years, percent, q)
    ensures Visited(RowVisits(e, years, percent, maxPercent), years, q)
  {
    RowShape(e, years, percent, maxPercent);
    RowStops(e, years, percent, maxPercent);
    var vs := RowVisits(e, years, percent, maxPercent);
    assert vs[|vs| - 1].percent >= q;
    assert vs[q - percent].years == years && vs[q - percent].percent == q;
  }

  /** A cell is visited by two runs of visits in turn exactly when one of them visits it. */
  lemma VisitedConcat(a: seq<Visit>, b: seq<Visit>, y: int, p: int)
    ensures Visited(a + b, y, p) <==> Visited(a, y, p) || Visited(b, y, p)
  {
    if Visited(a + b, y, p) {
      var i :| 0 <= i < |a + b| && (a + b)[i].years == y && (a + b)[i].percent == p;
      if i < |a| {
        assert a[i] == (a + b)[i];
      } else {
        assert b[i - |a|] == (a + b)[i];
      }
    }
    if Visited(a, y, p) {
      var i :| 0 <= i < |a| && a[i].years == y && a[i].percent == p;
      assert (a + b)[i] == a[i];
    }
    if Visited(b, y, p) {
      var i :| 0 <= i < |b| && b[i].years == y && b[i].percent == p;
      assert (a + b)[|a| + i] == b[i];
    }
  }

  /** Two runs of visits in sweep order, the first wholly before the second, make one run in sweep order. */
  lemma OrderedConcat(a: seq<Visit>, b: seq<Visit>)
    requires InSweepOrder(a) && InSweepOrder(b)
    requires forall i, j :: 0 <= i < |a| && 0 <= j < |b| ==> Before(a[i], b[j])
    ensures InSweepOrder(a + b)
  {
    forall i, j | 0 <= i < j < |a + b|
      ensures Before((a + b)[i], (a + b)[j])
    {
      if |a| <= i {
        assert (a + b)[i] == b[i - |a|] && (a + b)[j] == b[j - |a|];
      } else if |a| <= j {
        assert (a + b)[i] == a[i] && (a + b)[j] == b[j - |a|];
      } else {
        assert (a + b)[i] == a[i] && (a + b)[j] == a[j];
      }
    }
  }

  /** Every visit lies within the given years and holds the engine's outcome for its cell. */
  ghost predicate CellsComputed(e: Engine, vs: seq<Visit>, years: int, maxYears: int)
  {
    forall i :: 0 <= i < |vs| ==>
      && years <= vs[i].years <= maxYears
      && e.requires(vs[i].years, vs[i].percent) && vs[i].outcome == e(vs[i].years, vs[i].percent)
  }

  /** Every cell the sweep visits lies within its years and holds the engine's outcome for it. */
  lemma {:induction false} SweepCells(e: Engine, years: int, maxYears: int, minPercent: int, maxPercent: int)
    requires SweepDefined(e, years, maxYears, minPercent, maxPercent)
    ensures CellsComputed(e, SweepVisits(e, years, maxYears, minPercent, maxPercent), years, maxYears)
    decreases if years <= maxYears then maxYears - years + 1 else 0
  {
    if years <= maxYears {
      RowShape(e, years, minPercent, maxPercent);
      SweepCells(e, years + 1, maxYears, minPercent, maxPercent);
      var row := RowVisits(e, years, minPercent, maxPercent);
      var rest := SweepVisits(e, years + 1, maxYears, minPercent, maxPercent);
      var vs := row + rest;
      assert vs == SweepVisits(e, years, maxYears, minPercent, maxPercent);
      forall i | 0 <= i < |vs|
        ensures && years <= vs[i].years <= maxYears
                && e.requires(vs[i].years, vs[i].percent) && vs[i].outcome == e(vs[i].years, vs[i].percent)
      {
        if i >= |row| {
          assert vs[i] == rest[i - |row|];
        } else {
          assert vs[i] == row[i];
        }
      }
    }
  }

  /** The sweep visits its cells in ascending order of years, then of percentages. */
  lemma {:induction false} SweepInOrder(e: Engine, years: int, maxYears: int, minPercent: int, maxPercent: int)
    requires SweepDefined(e, years, maxYears, minPercent, maxPercent)
    ensures InSweepOrder(SweepVisits(e, years, maxYears, minPercent, maxPercent))
    decreases if years <= maxYears then maxYears - years + 1 else 0
  {
    if years <= maxYears {
      RowShape(e, years, minPercent, maxPercent);
      SweepCells(e, years + 1, maxYears, minPercent, maxPercent);
      SweepInOrder(e, years + 1, maxYears, minPercent, maxPercent);
      var row := RowVisits(e, years, minPercent, maxPercent);
      var rest := SweepVisits(e, years + 1, maxYears, minPercent, maxPercent);
      OrderedConcat(row, rest);
    }
  }

  /**
   * The sweep visits `(y, p)` exactly when `y` is one of its years, `p` one
   * of its percentages and the row for `y` was not cut off before `p`.
   */
  lemma {:induction false} SweepVisitedExactly(e: Engine, years: int, maxYears: int, minPercent: int, maxPercent: int)
    requires SweepDefined(e, years, maxYears, minPercent, maxPercent)
    ensures forall y, p :: Visited(SweepVisits(e, years, maxYears, minPercent, maxPercent), y, p)
                           <==> (years <= y <= maxYears && minPercent <= p <= maxPercent && Reached(e, y, minPercent, p))
    decreases if years <= maxYears then maxYears - years + 1 else 0
  {
    if years <= maxYears {
      RowVisitedExactly(e, years, minPercent, maxPercent);
      SweepVisitedExactly(e, years + 1, maxYears, minPercent, maxPercent);
      var row := RowVisits(e, years, minPercent, maxPercent);
      var rest := SweepVisits(e, years + 1, maxYears, minPercent, maxPercent);
      forall y, p
        ensures Visited(row + rest, y, p)
                <==> (years <= y <= maxYears && minPercent <= p <= maxPercent && Reached(e, y, minPercent, p))
      {
        VisitedConcat(row, rest, y, p);
      }
    }
  }

  /**
   * Recording visits in sweep order leaves each visited cell holding its
   * visit's outcome and every other cell as it was.
   */
  lemma {:induction false} RecordLookup(g: Grid, vs: seq<Visit>)
    requires InSweepOrder(vs)
    ensures forall i :: 0 <= i < |vs| ==> Lookup(Record(g, vs), vs[i].years, vs[i].percent) == Some(vs[i].outcome)
    ensures forall y, p :: !Visited(vs, y, p) ==> Lookup(Record(g, vs), y, p) == Lookup(g, y, p)
  {
    if vs != [] {
      var pre := vs[..|vs| - 1];
      var last := vs[|vs| - 1];
      assert InSweepOrder(pre) by {
        forall i, j | 0 <= i < j < |pre|
          ensures Before(pre[i], pre[j])
        {
          assert pre[i] == vs[i] && pre[j] == vs[j];
        }
      }
      RecordLookup(g, pre);
      assert Record(g, vs) == Put(Record(g, pre), last);
      forall i | 0 <= i < |vs| - 1
        ensures Lookup(Record(g, vs), vs[i].years, vs[i].percent) == Some(vs[i].outcome)
      {
        assert pre[i] == vs[i];
        assert Before(vs[i], last);
      }
      forall y, p | !Visited(vs, y, p)
        ensures Lookup(Record(g, vs), y, p) == Lookup(g, y, p)
      {
        forall i | 0 <= i < |pre|
          ensures !(pre[i].years == y && pre[i].percent == p)
        {
          assert pre[i] == vs[i];
        }
        assert !(last.years == y && last.percent == p);
      }
    }
  }

  /**
   * The grid after a sweep: every cell the sweep reaches holds the engine's
   * outcome for it, and every other cell is as it was before the sweep.
   */
  lemma SweepGrid(e: Engine, g: Grid, years: int, maxYears: int, minPercent: int, maxPercent: int)
    requires SweepDefined(e, years, maxYears, minPercent, maxPercent)
    ensures forall y, p :: years <= y <= maxYears && minPercent <= p <= maxPercent && Reached(e, y, minPercent, p) ==>
      && e.requires(y, p)
      && Lookup(Record(g, SweepVisits(e, years, maxYears, minPercent, maxPercent)), y, p) == Some(e(y, p))
    ensures forall y, p :: !(years <= y <= maxYears && minPercent <= p <= maxPercent && Reached(e, y, minPercent, p)) ==>
      Lookup(Record(g, SweepVisits(e, years, maxYears, minPercent, maxPercent)), y, p) == Lookup(g, y, p)
  {
    var vs := SweepVisits(e, years, maxYears, minPercent, maxPercent);
    SweepCells(e, years, maxYears, minPercent, maxPercent);
    SweepInOrder(e, years, maxYears, minPercent, maxPercent);
    SweepVisitedExactly(e, years, maxYears, minPercent, maxPercent);
    RecordLookup(g, vs);
    forall y, p | years <= y <= maxYears && minPercent <= p <= maxPercent && Reached(e, y, minPercent, p)
      ensures e.requires(y, p) && Lookup(Record(g, vs), y, p) == Some(e(y, p))
    {
      assert Visited(vs, y, p);
      var i :| 0 <= i < |vs| && vs[i].years == y && vs[i].percent == p;
    }
  }

  /**
   * The scenario engine of a property with a positive price is defined on
   * every sweep whose years start at one and whose percentages are not negative.
   */
  lemma {:induction false} SweepDefinedWhenPriced(l: Listing, years: int, maxYears: int, minPercent: int, maxPercent: int)
    requires l.price > 0.0 && years >= 1 && minPercent >= 0
    ensures SweepDefined(EngineOf(l), years, maxYears, minPercent, maxPercent)
    decreases if years <= maxYears then maxYears - years + 1 else 0
  {
    if years <= maxYears {
      RowDefinedWhenPriced(l, years, minPercent, maxPercent);
      SweepDefinedWhenPriced(l, years + 1, maxYears, minPercent, maxPercent);
    }
  }

  lemma {:induction false} RowDefinedWhenPriced(l: Listing, years: int, percent: int, maxPercent: int)
    requires l.price > 0.0 && years >= 1 && percent >= 0
    ensures RowDefined(EngineOf(l), years, percent, maxPercent)
    decreases if percent <= maxPercent then maxPercent - percent + 1 else 0
  {
    if percent <= maxPercent {
      RowDefinedWhenPriced(l, years, percent + 1, maxPercent);
    }
  }

  /**
   * Leaving a row at its first downpayment rejection skips only cells that
   * would have been rejected too: for a positive price, every cell the sweep
   * does not reach exceeds the maximum downpayment.
   */
  lemma SkippedCellsAreRejected(l: Listing, years: int, minPercent: int, percent: int)
    requires l.price > 0.0 && years >= 1 && 0 <= minPercent <= percent
    requires !Reached(EngineOf(l), years, minPercent, percent)
    ensures ExceedsMaxDownpayment(l.price, percent)
    ensures Calculate(l, years, percent).RejectedDownpayment?
  {
    var e := EngineOf(l);
    var q :| minPercent <= q < percent && !(e.requires(years, q) && !e(years, q).RejectedDownpayment?);
    assert Computable(l.price, years, q);
    assert Calculate(l, years, q).RejectedDownpayment?;
    RejectionIsMonotone(l.price, q, percent);
  }

  // ---------------------------------------------------------------------------
  // What the winners are
  // ---------------------------------------------------------------------------

  /**
   * The tracked winner never falls below where it started, is at least the
   * score of every successful visit, and is either the initial winner
   * (unchanged) or the first successful visit reaching the highest score.
   */
  lemma {:induction false} TrackIsFirstMaximum(c: Criterion, b: Best, vs: seq<Visit>)
    ensures Track(c, b, vs).roi >= b.roi
    ensures Track(c, b, vs).roi == b.roi ==> Track(c, b, vs) == b
    ensures forall i :: 0 <= i < |vs| && vs[i].outcome.Success? ==>
              Score(c, vs[i].years, vs[i].outcome.fig) <= Track(c, b, vs).roi
    ensures Track(c, b, vs) == b
            || exists i :: 0 <= i < |vs| && FirstBest(c, b, vs, i)
                           && Track(c, b, vs) == Best(Score(c, vs[i].years, vs[i].outcome.fig), Some(vs[i].outcome.fig))
  {
    if vs != [] {
      var pre := vs[..|vs| - 1];
      var last := vs[|vs| - 1];
      TrackIsFirstMaximum(c, b, pre);
      var r0 := Track(c, b, pre);
      forall i | 0 <= i < |pre|
        ensures pre[i] == vs[i]
      {
      }
      if last.outcome.Success? && Score(c, last.years, last.outcome.fig) > r0.roi {
        assert FirstBest(c, b, vs, |vs| - 1);
      } else if r0 != b {
        var i :| 0 <= i < |pre| && FirstBest(c, b, pre, i)
                 && r0 == Best(Score(c, pre[i].years, pre[i].outcome.fig), Some(pre[i].outcome.fig));
        assert FirstBest(c, b, vs, i);
      }
    }
  }

  /** Concatenation of visit runs is associative (a step the loops below need). */
  lemma ConcatAssoc(a: seq<Visit>, b: seq<Visit>, c: seq<Visit>)
    ensures (a + b) + c == a + (b + c)
  {
  }

  /** Recording two runs of visits in turn is recording their concatenation. */
  lemma {:induction false} RecordAppend(g: Grid, a: seq<Visit>, b: seq<Visit>)
    ensures Record(Record(g, a), b) == Record(g, a + b)
  {
    if b != [] {
      assert (a + b)[..|a + b| - 1] == a + b[..|b| - 1];
      RecordAppend(g, a, b[..|b| - 1]);
    } else {
      assert a + b == a;
    }
  }

  /** Tracking over two runs of visits in turn is tracking over their concatenation. */
  lemma {:induction false} TrackAppend(c: Criterion, w: Best, a: seq<Visit>, b: seq<Visit>)
    ensures Track(c, Track(c, w, a), b) == Track(c, w, a + b)
  {
    if b != [] {
      assert (a + b)[..|a + b| - 1] == a + b[..|b| - 1];
      TrackAppend(c, w, a, b[..|b| - 1]);
    } else {
      assert a + b == a;
    }
  }

  /** Recording one more visit stores it on top of the grid recorded so far. */
  lemma RecordSnoc(g: Grid, vs: seq<Visit>, v: Visit)
    ensures Record(g, vs + [v]) == Put(Record(g, vs), v)
  {
    assert (vs + [v])[..|vs|] == vs;
  }

  /** Tracking one more visit is one winner step after the visits so far. */
  lemma TrackSnoc(c: Criterion, b: Best, vs: seq<Visit>, v: Visit)
    ensures Track(c, b, vs + [v]) == Step(c, Track(c, b, vs), v)
  {
    assert (vs + [v])[..|vs|] == vs;
  }

  /**
   * One cell further along a row: when the cell is a downpayment rejection
   * the row is over, otherwise what remains is the row from the next
   * percentage.
   */
  lemma RowAdvance(e: Engine, years: int, percent: int, maxPercent: int, done: seq<Visit>)
    requires percent <= maxPercent && RowDefined(e, years, percent, maxPercent)
    ensures var cell := Visit(years, percent, e(years, percent));
      if cell.outcome.RejectedDownpayment?
      then done + RowVisits(e, years, percent, maxPercent) == done + [cell]
      else && RowDefined(e, years, percent + 1, maxPercent)
           && done + RowVisits(e, years, percent, maxPercent)
              == (done + [cell]) + RowVisits(e, years, percent + 1, maxPercent)
  {
    var cell := Visit(years, percent, e(years, percent));
    if !cell.outcome.RejectedDownpayment? {
      var rest := RowVisits(e, years, percent + 1, maxPercent);
      assert RowVisits(e, years, percent, maxPercent) == [cell] + rest;
      ConcatAssoc(done, [cell], rest);
    }
  }

  // ---------------------------------------------------------------------------
  // The property
  // ---------------------------------------------------------------------------

  /**
   * A candidate property. Its figures are fixed when it is built; its
   * expenses, its scenario grid and its two winners are filled in by `Process`.
   */
  class Property {
    const price: real
    const rent: real
    const relettingFactor: real
    const govTaxDiscount: real
    const area: real
    const extraOnetimeExpense: real
    const name: string
    const url: string
    const annualRent: real
    const consts: SharedConstants

    var expenses: Option<PropertyExpenses>
    var permutationStats: Grid
    var maxRoi: real
    var maxStats: Option<Figures>
    var maxRoiXYears: real
    var maxStatsXYears: Option<Figures>

    constructor (price: real, rent: real, relettingFactor: real, govTaxDiscount: real, area: real,
                 extraOnetimeExpense: real, name: string, url: string, consts: SharedConstants)
      ensures this.price == price && this.rent == rent && this.relettingFactor == relettingFactor
      ensures this.govTaxDiscount == govTaxDiscount && this.area == area
      ensures this.extraOnetimeExpense == extraOnetimeExpense && this.name == name && this.url == url
      ensures this.consts == consts
      ensures annualRent == 12.0 * rent
      ensures expenses == None && permutationStats == map[]
      ensures maxRoi == consts.minimumDecimal && maxStats == None
      ensures maxRoiXYears == consts.minimumDecimal && maxStatsXYears == None
    {
      this.price := price;
      this.rent := rent;
      this.relettingFactor := relettingFactor;
      this.govTaxDiscount := govTaxDiscount;
      this.area := area;
      this.extraOnetimeExpense := extraOnetimeExpense;
      this.name := name;
      this.url := url;
      this.consts := consts;
      annualRent := rent * 12.0;
      expenses := None;
      permutationStats := map[];
      maxRoi := consts.minimumDecimal;
      maxStats := None;
      maxRoiXYears := consts.minimumDecimal;
      maxStatsXYears := None;
    }

    /** The figures a scenario of this property reads. */
    function AsListing(): Listing
    {
      Listing(price, rent, annualRent)
    }

    /** The property's recurring expenses and the income left after them. */
    method CalcExpenses()
      modifies this`expenses
      ensures expenses == Some(CalcPropertyExpenses(rent, annualRent, relettingFactor, govTaxDiscount, consts))
    {
      expenses := Some(CalcPropertyExpenses(rent, annualRent, relettingFactor, govTaxDiscount, consts));
    }

    /**
     * Computes the expenses, then every scenario of the grid, loan terms
     * ascending, each term as `ProcessTerm` sweeps it. Afterwards the grid
     * holds every computed cell and each winner is the first successful
     * scenario to reach the highest score, or is unchanged.
     */
    method Process(minNumYears: int, maxNumYear: int, minDownpaymentPercent: int, maxDownpaymentPercent: int)
      requires SweepDefined(EngineOf(AsListing()), minNumYears, maxNumYear, minDownpaymentPercent, maxDownpaymentPercent)
      modifies this
      ensures expenses == Some(CalcPropertyExpenses(rent, annualRent, relettingFactor, govTaxDiscount, consts))
      ensures var vs := SweepVisits(EngineOf(AsListing()), minNumYears, maxNumYear,
                                    minDownpaymentPercent, maxDownpaymentPercent);
        && permutationStats == Record(old(permutationStats), vs)
        && Best(maxRoi, maxStats) == Track(Immediate, Best(old(maxRoi), old(maxStats)), vs)
        && Best(maxRoiXYears, maxStatsXYears) == Track(XYears, Best(old(maxRoiXYears), old(maxStatsXYears)), vs)
    {
      CalcExpenses();
      var scenario := EngineOf(AsListing());
      ghost var done: seq<Visit> := [];
      var numYears := minNumYears;
      while numYears <= maxNumYear
        invariant SweepDefined(scenario, numYears, maxNumYear, minDownpaymentPercent, maxDownpaymentPercent)
        invariant done + SweepVisits(scenario, numYears, maxNumYear, minDownpaymentPercent, maxDownpaymentPercent)
                  == SweepVisits(scenario, minNumYears, maxNumYear, minDownpaymentPercent, maxDownpaymentPercent)
        invariant expenses == Some(CalcPropertyExpenses(rent, annualRent, relettingFactor, govTaxDiscount, consts))
        invariant permutationStats == Record(old(permutationStats), done)
        invariant Best(maxRoi, maxStats) == Track(Immediate, Best(old(maxRoi), old(maxStats)), done)
        invariant Best(maxRoiXYears, maxStatsXYears) == Track(XYears, Best(old(maxRoiXYears), old(maxStatsXYears)), done)
        decreases maxNumYear - numYears
      {
        ghost var row := RowVisits(scenario, numYears, minDownpaymentPercent, maxDownpaymentPercent);
        ghost var rest := SweepVisits(scenario, numYears + 1, maxNumYear, minDownpaymentPercent, maxDownpaymentPercent);
        ConcatAssoc(done, row, rest);
        ProcessTerm(scenario, numYears, minDownpaymentPercent, maxDownpaymentPercent);
        RecordAppend(old(permutationStats), done, row);
        TrackAppend(Immediate, Best(old(maxRoi), old(maxStats)), done, row);
        TrackAppend(XYears, Best(old(maxRoiXYears), old(maxStatsXYears)), done, row);
        done := done + row;
        numYears := numYears + 1;
      }
      assert done + SweepVisits(scenario, numYears, maxNumYear, minDownpaymentPercent, maxDownpaymentPercent) == done + [];
      assert done + [] == done;
    }

    /**
     * Takes in one computed cell: it is stored in the grid, and a successful
     * scenario replaces a winner only when its ROI is strictly higher, so a
     * tie keeps the earlier scenario.
     */
    method Consider(cell: Visit)
      modifies this`permutationStats, this`maxRoi, this`maxStats, this`maxRoiXYears, this`maxStatsXYears
      ensures permutationStats == Put(old(permutationStats), cell)
      ensures Best(maxRoi, maxStats) == Step(Immediate, Best(old(maxRoi), old(maxStats)), cell)
      ensures Best(maxRoiXYears, maxStatsXYears) == Step(XYears, Best(old(maxRoiXYears), old(maxStatsXYears)), cell)
    {
      permutationStats := Put(permutationStats, cell);
      match cell.outcome {
        case Success(fig) =>
          var roi := Returned(Create(cell.years), fig);
          if roi > maxRoi {
            maxRoi := roi;
            maxStats := Some(fig);
          }
          if fig.horizon.avgAnnualRoi > maxRoiXYears {
            maxRoiXYears := fig.horizon.avgAnnualRoi;
            maxStatsXYears := Some(fig);
          }
        case _ =>
      }
    }

    /**
     * One loan term of the sweep: percentages ascending, every computed cell
     * stored in the grid, each winner replaced only by a successful scenario
     * scoring strictly higher, and the term left right after its first
     * downpayment rejection.
     */
    method ProcessTerm(scenario: Engine, numYears: int, minDownpaymentPercent: int, maxDownpaymentPercent: int)
      requires RowDefined(scenario, numYears, minDownpaymentPercent, maxDownpaymentPercent)
      modifies this`permutationStats, this`maxRoi, this`maxStats, this`maxRoiXYears, this`maxStatsXYears
      ensures var vs := RowVisits(scenario, numYears, minDownpaymentPercent, maxDownpaymentPercent);
        && permutationStats == Record(old(permutationStats), vs)
        && Best(maxRoi, maxStats) == Track(Immediate, Best(old(maxRoi), old(maxStats)), vs)
        && Best(maxRoiXYears, maxStatsXYears) == Track(XYears, Best(old(maxRoiXYears), old(maxStatsXYears)), vs)
    {
      ghost var grid0, best0, bestX0 := permutationStats, Best(maxRoi, maxStats), Best(maxRoiXYears, maxStatsXYears);
      ghost var done: seq<Visit> := [];
      var percent := minDownpaymentPercent;
      while percent <= maxDownpaymentPercent
        invariant RowDefined(scenario, numYears, percent, maxDownpaymentPercent)
        invariant done + RowVisits(scenario, numYears, percent, maxDownpaymentPercent)
                  == RowVisits(scenario, numYears, minDownpaymentPercent, maxDownpaymentPercent)
        invariant permutationStats == Record(grid0, done)
        invariant Best(maxRoi, maxStats) == Track(Immediate, best0, done)
        invariant Best(maxRoiXYears, maxStatsXYears) == Track(XYears, bestX0, done)
        decreases maxDownpaymentPercent - percent
      {
        var outcome := scenario(numYears, percent);
        var cell := Visit(numYears, percent, outcome);
        RowAdvance(scenario, numYears, percent, maxDownpaymentPercent, done);
        assert outcome.RejectedDownpayment? || RowDefined(scenario, numYears, percent + 1, maxDownpaymentPercent);
        RecordSnoc(grid0, done, cell);
        TrackSnoc(Immediate, best0, done, cell);
        TrackSnoc(XYears, bestX0, done, cell);
        Consider(cell);
        done := done + [cell];
        if outcome.RejectedDownpayment? {
          return;
        }
        percent := percent + 1;
      }
      assert done + RowVisits(scenario, numYears, percent, maxDownpaymentPercent) == done + [];
      assert done + [] == done;
    }
  }
}
