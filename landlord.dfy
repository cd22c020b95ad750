// The landlord calculator: builds a property per input row, sweeps each over
// the fixed grid of loan terms and downpayment percentages, and keeps the
// property winner with the highest ROI as the global winner.
module Landlord {
  import opened Wrappers
  import opened Permutation
  import opened PropertySweep

  /** The loan terms and downpayment percentages a sweep covers, bounds included. */
  datatype Bounds = Bounds(minNumYears: int, maxNumYear: int, minDownpaymentPercent: int, maxDownpaymentPercent: int)

  /** The grid every property is swept over: terms of 1 to 30 years, downpayments of 20% to 100%. */
  const FixedGrid := Bounds(1, 30, 20, 100)

  /** Bounds whose every scenario can be computed for a property with a positive price. */
  predicate Sweepable(b: Bounds)
  {
    b.minNumYears >= 1 && b.minDownpaymentPercent >= 0
  }

  /** One input row, its columns already read as numbers. */
  datatype PropertyRow = PropertyRow(
    price: real,
    rent: real,
    relettingFactor: real,
    govTaxDiscount: real,
    area: real,
    extraOnetimeExpense: real,
    name: string,
    url: string)

  /** What a run returns: the properties, the global winner's figures and its ROI. */
  datatype Report = Report(properties: seq<Property>, globalMaxStats: Option<Figures>, globalMaxRoi: real)

  predicate AllPriced(rows: seq<PropertyRow>)
  {
    forall i :: 0 <= i < |rows| ==> rows[i].price > 0.0
  }

  /** The figures a scenario reads for the property built from `r`. */
  function RowListing(r: PropertyRow): Listing
  {
    Listing(r.price, r.rent, 12.0 * r.rent)
  }

  /** The cells a sweep over `b` visits for a property with listing `l`. */
  function GridSweep(l: Listing, b: Bounds): seq<Visit>
    requires l.price > 0.0 && Sweepable(b)
  {
    SweepDefinedWhenPriced(l, b.minNumYears, b.maxNumYear, b.minDownpaymentPercent, b.maxDownpaymentPercent);
    SweepVisits(EngineOf(l), b.minNumYears, b.maxNumYear, b.minDownpaymentPercent, b.maxDownpaymentPercent)
  }

  /** The winner under criterion `c` a freshly built property ends its sweep over `b` with. */
  function PropertyWinner(c: Criterion, r: PropertyRow, consts: SharedConstants, b: Bounds): Best
    requires r.price > 0.0 && Sweepable(b)
  {
    Track(c, Best(consts.minimumDecimal, None), GridSweep(RowListing(r), b))
  }

  /** The immediate-ROI property winners, in input order. */
  function Winners(rows: seq<PropertyRow>, consts: SharedConstants, b: Bounds): (ws: seq<Best>)
    requires AllPriced(rows) && Sweepable(b)
    ensures |ws| == |rows|
    ensures forall i :: 0 <= i < |rows| ==> ws[i] == PropertyWinner(Immediate, rows[i], consts, b)
  {
    seq(|rows|, i requires 0 <= i < |rows| => PropertyWinner(Immediate, rows[i], consts, b))
  }

  /** One global update: a property winner replaces the global one only with a strictly higher ROI. */
  function Higher(g: Best, w: Best): Best
  {
    if w.roi > g.roi then w else g
  }

  /** The global winner after every property winner, in order. */
  function Highest(g: Best, ws: seq<Best>): Best
  {
    if ws == [] then g else Higher(Highest(g, ws[..|ws| - 1]), ws[|ws| - 1])
  }

  /** A property as it is built, before its sweep: empty grid, both winners the sentinel. */
  predicate Unswept(p: Property, consts: SharedConstants)
    reads p
  {
    && p.permutationStats == map[]
    && p.maxRoi == consts.minimumDecimal && p.maxStats == None
    && p.maxRoiXYears == consts.minimumDecimal && p.maxStatsXYears == None
  }

  /**
   * A property processed over `b` after being built from `r`: its expenses
   * computed, holding the grid of its sweep, the immediate-ROI winner and
   * the x-years winner of that sweep.
   */
  predicate Processed(p: Property, r: PropertyRow, consts: SharedConstants, b: Bounds)
    requires r.price > 0.0 && Sweepable(b)
    reads p
  {
    && p.expenses == Some(CalcPropertyExpenses(p.rent, p.annualRent, p.relettingFactor, p.govTaxDiscount, p.consts))
    && p.permutationStats == Record(map[], GridSweep(RowListing(r), b))
    && Best(p.maxRoi, p.maxStats) == PropertyWinner(Immediate, r, consts, b)
    && Best(p.maxRoiXYears, p.maxStatsXYears) == PropertyWinner(XYears, r, consts, b)
  }

  /** The property was built from `r`: it holds all of the row's columns. */
  predicate FromRow(p: Property, r: PropertyRow)
  {
    && p.AsListing() == RowListing(r)
    && p.relettingFactor == r.relettingFactor && p.govTaxDiscount == r.govTaxDiscount
    && p.area == r.area && p.extraOnetimeExpense == r.extraOnetimeExpense
    && p.name == r.name && p.url == r.url
  }

  /** Taking one more property winner is one global update after the ones before it. */
  lemma HighestSnoc(g: Best, ws: seq<Best>, k: int)
    requires 0 <= k < |ws|
    ensures Highest(g, ws[..k + 1]) == Higher(Highest(g, ws[..k]), ws[k])
  {
    assert ws[..k + 1][..k] == ws[..k];
  }

  /**
   * The global winner never falls below where it started, is at least every
   * property winner, and is either the initial one or the first property
   * winner reaching the highest ROI.
   */
  lemma {:induction false} HighestIsFirstMaximum(g: Best, ws: seq<Best>)
    ensures Highest(g, ws).roi >= g.roi
    ensures forall i :: 0 <= i < |ws| ==> ws[i].roi <= Highest(g, ws).roi
    ensures Highest(g, ws) == g
            || exists i :: 0 <= i < |ws| && Highest(g, ws) == ws[i] && ws[i].roi > g.roi
                           && forall j :: 0 <= j < i ==> ws[j].roi < ws[i].roi
  {
    if ws != [] {
      var pre := ws[..|ws| - 1];
      HighestIsFirstMaximum(g, pre);
      forall i | 0 <= i < |pre|
        ensures pre[i] == ws[i]
      {
      }
      var h := Highest(g, pre);
      if ws[|ws| - 1].roi <= h.roi && h != g {
        var i :| 0 <= i < |pre| && h == pre[i] && pre[i].roi > g.roi
                 && forall j :: 0 <= j < i ==> pre[j].roi < pre[i].roi;
        assert Highest(g, ws) == ws[i];
      }
    }
  }

  /**
   * The global ROI is at least the ROI `calculate` reported for every
   * successful scenario of every property.
   */
  lemma GlobalMaxBoundsEveryScenario(rows: seq<PropertyRow>, consts: SharedConstants, b: Bounds, g: Best)
    requires AllPriced(rows) && Sweepable(b)
    ensures forall i, k :: 0 <= i < |rows| && 0 <= k < |GridSweep(RowListing(rows[i]), b)|
                           && GridSweep(RowListing(rows[i]), b)[k].outcome.Success? ==>
              ReportedRoi(GridSweep(RowListing(rows[i]), b)[k].years, GridSweep(RowListing(rows[i]), b)[k].outcome.fig)
              <= Highest(g, Winners(rows, consts, b)).roi
  {
    var ws := Winners(rows, consts, b);
    HighestIsFirstMaximum(g, ws);
    forall i, k | 0 <= i < |rows| && 0 <= k < |GridSweep(RowListing(rows[i]), b)|
                  && GridSweep(RowListing(rows[i]), b)[k].outcome.Success?
      ensures ReportedRoi(GridSweep(RowListing(rows[i]), b)[k].years, GridSweep(RowListing(rows[i]), b)[k].outcome.fig)
              <= Highest(g, ws).roi
    {
      var vs := GridSweep(RowListing(rows[i]), b);
      var start := Best(consts.minimumDecimal, None);
      TrackIsFirstMaximum(Immediate, start, vs);
      assert ws[i] == Track(Immediate, start, vs);
      assert Score(Immediate, vs[k].years, vs[k].outcome.fig) <= ws[i].roi;
    }
  }

  /**
   * Unless it stays the initial one, the global winner is the winner of some
   * property: the figures of one of its successful scenarios, with the ROI
   * `calculate` reported for it.
   */
  lemma GlobalWinnerIsAScenario(rows: seq<PropertyRow>, consts: SharedConstants, b: Bounds, g: Best)
    requires AllPriced(rows) && Sweepable(b)
    requires g.roi >= consts.minimumDecimal
    ensures Highest(g, Winners(rows, consts, b)) == g
            || exists i, k :: 0 <= i < |rows| && 0 <= k < |GridSweep(RowListing(rows[i]), b)|
                              && GridSweep(RowListing(rows[i]), b)[k].outcome.Success?
                              && Highest(g, Winners(rows, consts, b))
                                 == Best(ReportedRoi(GridSweep(RowListing(rows[i]), b)[k].years,
                                                     GridSweep(RowListing(rows[i]), b)[k].outcome.fig),
                                         Some(GridSweep(RowListing(rows[i]), b)[k].outcome.fig))
  {
    var ws := Winners(rows, consts, b);
    HighestIsFirstMaximum(g, ws);
    var h := Highest(g, ws);
    if h != g {
      var i :| 0 <= i < |ws| && h == ws[i] && ws[i].roi > g.roi
               && forall j :: 0 <= j < i ==> ws[j].roi < ws[i].roi;
      var vs := GridSweep(RowListing(rows[i]), b);
      var start := Best(consts.minimumDecimal, None);
      TrackIsFirstMaximum(Immediate, start, vs);
      assert Track(Immediate, start, vs) != start;
      var k :| 0 <= k < |vs| && FirstBest(Immediate, start, vs, k)
               && Track(Immediate, start, vs) == Best(Score(Immediate, vs[k].years, vs[k].outcome.fig), Some(vs[k].outcome.fig));
      assert h == Best(ReportedRoi(vs[k].years, vs[k].outcome.fig), Some(vs[k].outcome.fig));
    }
  }

  /**
   * The calculator: its shared constants, the grid its properties are swept
   * over, and the global winner, which starts at the sentinel with no figures.
   */
  class LandlordPropertyCalculator {
    const consts: SharedConstants
    const grid: Bounds
    var globalMaxRoi: real
    var globalMaxStats: Option<Figures>

    constructor (consts: SharedConstants)
      ensures this.consts == consts && grid == FixedGrid
      ensures globalMaxRoi == consts.minimumDecimal && globalMaxStats == None
    {
      this.consts := consts;
      grid := FixedGrid;
      globalMaxRoi := consts.minimumDecimal;
      globalMaxStats := None;
    }

    /**
     * One freshly built property per row, in input order, each holding its
     * row's figures, an empty grid and the sentinel winners.
     */
    method ReadInput(rows: seq<PropertyRow>) returns (properties: seq<Property>)
      ensures |properties| == |rows|
      ensures forall i :: 0 <= i < |rows| ==> fresh(properties[i])
      ensures forall i, j :: 0 <= i < j < |rows| ==> properties[i] != properties[j]
      ensures forall i :: 0 <= i < |rows| ==>
                && FromRow(properties[i], rows[i])
                && properties[i].consts == consts
                && Unswept(properties[i], consts)
    {
      properties := [];
      var n := 0;
      while n < |rows|
        invariant 0 <= n <= |rows| && |properties| == n
        invariant forall i :: 0 <= i < n ==> fresh(properties[i])
        invariant forall i, j :: 0 <= i < j < n ==> properties[i] != properties[j]
        invariant forall i :: 0 <= i < n ==>
                    && FromRow(properties[i], rows[i])
                    && properties[i].consts == consts
                    && Unswept(properties[i], consts)
      {
        var r := rows[n];
        var p := new Property(r.price, r.rent, r.relettingFactor, r.govTaxDiscount, r.area,
                              r.extraOnetimeExpense, r.name, r.url, consts);
        properties := properties + [p];
        n := n + 1;
      }
    }

    /**
     * Sweeps one freshly read property over the grid, then lets its winner
     * replace the global one only when its ROI is strictly higher.
     */
    method SweepProperty(p: Property, ghost r: PropertyRow)
      requires r.price > 0.0 && Sweepable(grid)
      requires p.AsListing() == RowListing(r) && Unswept(p, consts)
      modifies p, this`globalMaxRoi, this`globalMaxStats
      ensures Processed(p, r, consts, grid)
      ensures Best(globalMaxRoi, globalMaxStats)
              == Higher(old(Best(globalMaxRoi, globalMaxStats)), PropertyWinner(Immediate, r, consts, grid))
    {
      SweepDefinedWhenPriced(p.AsListing(), grid.minNumYears, grid.maxNumYear,
                             grid.minDownpaymentPercent, grid.maxDownpaymentPercent);
      p.Process(grid.minNumYears, grid.maxNumYear, grid.minDownpaymentPercent, grid.maxDownpaymentPercent);
      if p.maxRoi > globalMaxRoi {
        globalMaxRoi := p.maxRoi;
        globalMaxStats := p.maxStats;
      }
    }

    /**
     * Sweeps the properties in input order, each one's winner replacing the
     * global winner only when its ROI is strictly higher.
     */
    method SweepAll(properties: seq<Property>, ghost rows: seq<PropertyRow>)
      requires AllPriced(rows) && Sweepable(grid) && |properties| == |rows|
      requires forall i, j :: 0 <= i < j < |rows| ==> properties[i] != properties[j]
      requires forall i :: 0 <= i < |rows| ==>
                 properties[i].AsListing() == RowListing(rows[i]) && Unswept(properties[i], consts)
      modifies set p | p in properties, this`globalMaxRoi, this`globalMaxStats
      ensures forall i :: 0 <= i < |rows| ==> Processed(properties[i], rows[i], consts, grid)
      ensures Best(globalMaxRoi, globalMaxStats)
              == Highest(old(Best(globalMaxRoi, globalMaxStats)), Winners(rows, consts, grid))
    {
      ghost var start := Best(globalMaxRoi, globalMaxStats);
      ghost var ws := Winners(rows, consts, grid);
      var k := 0;
      while k < |properties|
        invariant 0 <= k <= |properties|
        invariant forall i :: k <= i < |properties| ==> Unswept(properties[i], consts)
        invariant forall i :: 0 <= i < k ==> Processed(properties[i], rows[i], consts, grid)
        invariant Best(globalMaxRoi, globalMaxStats) == Highest(start, ws[..k])
      {
        SweepProperty(properties[k], rows[k]);
        HighestSnoc(start, ws, k);
        k := k + 1;
      }
      assert ws[..k] == ws;
    }

    /**
     * Builds one property per row; with no rows, reports nothing and leaves
     * the global winner alone. Otherwise sweeps every property over the grid
     * in input order and replaces the global winner by a property's winner
     * only when its ROI is strictly higher.
     */
    method Process(rows: seq<PropertyRow>) returns (report: Option<Report>)
      requires AllPriced(rows) && Sweepable(grid)
      modifies this
      ensures rows == [] ==> report == None
      ensures rows == [] ==> globalMaxRoi == old(globalMaxRoi) && globalMaxStats == old(globalMaxStats)
      ensures rows != [] ==>
        && report.Some?
        && Best(globalMaxRoi, globalMaxStats)
           == Highest(Best(old(globalMaxRoi), old(globalMaxStats)), Winners(rows, consts, grid))
        && report.value.globalMaxRoi == globalMaxRoi && report.value.globalMaxStats == globalMaxStats
        && |report.value.properties| == |rows|
        && (forall i, j :: 0 <= i < j < |rows| ==> report.value.properties[i] != report.value.properties[j])
        && (forall i :: 0 <= i < |rows| ==>
              && fresh(report.value.properties[i])
              && FromRow(report.value.properties[i], rows[i])
              && report.value.properties[i].consts == consts
              && Processed(report.value.properties[i], rows[i], consts, grid))
    {
      var properties := ReadInput(rows);
      if properties == [] {
        return None;
      }

      SweepAll(properties, rows);
      report := Some(Report(properties, globalMaxStats, globalMaxRoi));
    }
  }
}
