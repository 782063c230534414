/** The data steps of the three chart callbacks. Each callback re-reads the
    table for the chosen granularity (the `table` argument here), filters it
    to the user's window, and derives the series its chart plots. */
module Dashboard {
  import opened Wrappers
  import opened Series
  import opened Frame
  import opened Sunspot
  import opened Rolling
  import opened Yearly
  import opened Cycle

  /** The three range sliders. */
  datatype Window = Window(years: Range, months: Range, days: Range)

  /** A row of the smoothed copy: the filtered row with its Rolling_Avg column. */
  datatype SmoothRow = SmoothRow(row: Record, rollingAvg: Option<real>)

  /** The two series of the counts chart: the filtered table (first trace)
      and its smoothed copy (second trace). */
  datatype CountsChart = CountsChart(raw: seq<Record>, smooth: seq<SmoothRow>)

  /** The counts chart's data. The moving average is taken over a copy, so
      the filtered table plotted first is exactly the filter's output. With
      error bars the copy's Standard_Deviation column is overwritten by one
      scalar, the spread of the whole smoothed series (passed in as `spread`),
      so every smoothed row carries the same value. */
  function CountsView(table: seq<Record>, win: Window, periods: ObsPeriods, w: nat, errorBars: bool,
                      spread: real): (v: CountsChart)
    requires Conforms(Schema(periods), table)
    ensures v.raw == Clean(table, win.years, win.months, win.days, periods)
    ensures |v.smooth| == |v.raw|
    ensures forall i :: 0 <= i < |v.raw| ==>
              v.smooth[i].rollingAvg == RollingMean(ColumnOf(v.raw, MeanObsCol), w)[i]
    ensures forall i :: 0 <= i < |v.raw| ==> v.smooth[i].row.(stdDev := v.raw[i].stdDev) == v.raw[i]
    ensures !errorBars ==> forall i :: 0 <= i < |v.raw| ==> v.smooth[i].row == v.raw[i]
    ensures errorBars ==> forall i :: 0 <= i < |v.raw| ==> v.smooth[i].row.stdDev == spread
  {
    var raw := Clean(table, win.years, win.months, win.days, periods);
    var avg := RollingMean(ColumnOf(raw, MeanObsCol), w);
    var copy := if errorBars then seq(|raw|, i requires 0 <= i < |raw| => raw[i].(stdDev := spread)) else raw;
    CountsChart(raw, seq(|raw|, i requires 0 <= i < |raw| => SmoothRow(copy[i], avg[i])))
  }

  /** With a window of one observation the smoothed trace repeats the raw one. */
  lemma CountsUnitWindow(table: seq<Record>, win: Window, periods: ObsPeriods, errorBars: bool, spread: real)
    requires Conforms(Schema(periods), table)
    ensures var v := CountsView(table, win, periods, 1, errorBars, spread);
            forall i :: 0 <= i < |v.raw| ==> v.smooth[i].rollingAvg == Some(v.raw[i].meanObs)
  {
    var v := CountsView(table, win, periods, 1, errorBars, spread);
    RollingUnitWindow(ColumnOf(v.raw, MeanObsCol));
  }

  /** The bar chart's data: the yearly means of the filtered table. With
      error bars every bar's Standard_Deviation is one scalar, the spread of
      the yearly means (passed in as `spread`), not a per-year statistic. */
  function YearlyView(table: seq<Record>, win: Window, periods: ObsPeriods, errorBars: bool, spread: real)
    : (bars: seq<YearRow>)
    requires Conforms(Schema(periods), table)
    ensures var agg := YearlyMeans(Clean(table, win.years, win.months, win.days, periods));
            && |bars| == |agg|
            && (forall i :: 0 <= i < |bars| ==> bars[i].(stdDev := agg[i].stdDev) == agg[i])
            && (!errorBars ==> bars == agg)
            && (errorBars ==> forall i :: 0 <= i < |bars| ==> bars[i].stdDev == spread)
  {
    var agg := YearlyMeans(Clean(table, win.years, win.months, win.days, periods));
    if errorBars then seq(|agg|, i requires 0 <= i < |agg| => agg[i].(stdDev := spread)) else agg
  }

  /** The bars are in ascending year order, one per year that survives the
      filter, each within the year range; a year with no filtered rows has
      no bar. */
  lemma YearlyViewYears(table: seq<Record>, win: Window, periods: ObsPeriods, errorBars: bool, spread: real)
    requires Conforms(Schema(periods), table)
    ensures var bars := YearlyView(table, win, periods, errorBars, spread);
            var kept := Clean(table, win.years, win.months, win.days, periods);
            && (forall i, j :: 0 <= i < j < |bars| ==> bars[i].year < bars[j].year)
            && (forall i :: 0 <= i < |bars| ==> win.years.Contains(bars[i].year))
            && (forall y :: y in YearsIn(kept) <==> exists i :: 0 <= i < |bars| && bars[i].year == y)
  {
    var bars := YearlyView(table, win, periods, errorBars, spread);
    var kept := Clean(table, win.years, win.months, win.days, periods);
    var agg := YearlyMeans(kept);
    assert forall i :: 0 <= i < |bars| ==> bars[i].year == agg[i].year;
    forall i | 0 <= i < |bars| ensures win.years.Contains(bars[i].year) {
      assert IsGroupMean(kept, agg[i]);
      var k :| 0 <= k < |kept| && kept[k].year == agg[i].year;
      assert InWindow(kept[k], win.years, win.months, win.days, periods);
    }
    forall y | y in YearsIn(kept) ensures exists i :: 0 <= i < |bars| && bars[i].year == y {
      var i :| 0 <= i < |agg| && agg[i].year == y;
      assert bars[i].year == y;
    }
  }

  /** The scatter plot's data. The callback filters without passing the
      granularity, so the day range is never applied here; it then folds
      every decimal date modulo the cycle period and keeps the rows with a
      positive mean count, in table order. */
  function VariabilityView(table: seq<Record>, win: Window, periods: ObsPeriods,
                           years: int, months: int, days: int): (points: seq<Record>)
    requires Conforms(Schema(periods), table)
    requires CyclePeriod(years, months, days) != 0.0
    ensures var p := CyclePeriod(years, months, days);
            var folded := FoldDates(Clean(table, win.years, win.months, win.days, None), p);
            && IsSubsequence(points, folded)
            && (forall i :: 0 <= i < |points| ==> points[i].meanObs > 0.0)
            && (forall i :: 0 <= i < |folded| && folded[i].meanObs > 0.0 ==> folded[i] in points)
            && (forall r {:trigger multiset(points)[r]} ::
                  multiset(points)[r] == if r.meanObs > 0.0 then multiset(folded)[r] else 0)
  {
    var p := CyclePeriod(years, months, days);
    var folded := FoldDates(Clean(table, win.years, win.months, win.days, None), p);
    assert forall r: Record :: r.meanObs > 0.0 <==> AdmitsAll([MeanObsAbove(0.0)], r) by {
      forall r: Record ensures r.meanObs > 0.0 <==> AdmitsAll([MeanObsAbove(0.0)], r) {
        assert [MeanObsAbove(0.0)][0] == MeanObsAbove(0.0);
      }
    }
    var points := Select(folded, [MeanObsAbove(0.0)]);
    assert forall i :: 0 <= i < |points| ==> points[i].meanObs > 0.0 by {
      forall i | 0 <= i < |points| ensures points[i].meanObs > 0.0 {
        assert AdmitsAll([MeanObsAbove(0.0)], points[i]);
        assert Admits([MeanObsAbove(0.0)][0], points[i]);
      }
    }
    points
  }

  /** Every scatter point lies in the year and month ranges, has a positive
      mean count, and under the sliders' bounds has its folded date in
      [0, period). */
  lemma VariabilitySound(table: seq<Record>, win: Window, periods: ObsPeriods,
                         years: int, months: int, days: int)
    requires Conforms(Schema(periods), table)
    requires 8 <= years <= 14 && 0 <= months <= 11 && 0 <= days <= 30
    ensures var p := CyclePeriod(years, months, days);
            var points := VariabilityView(table, win, periods, years, months, days);
            forall i :: 0 <= i < |points| ==>
              && win.years.Contains(points[i].year) && win.months.Contains(points[i].month)
              && points[i].meanObs > 0.0 && 0.0 <= points[i].decimalDate < p
  {
    CyclePeriodInSliderRange(years, months, days);
    var p := CyclePeriod(years, months, days);
    var kept := Clean(table, win.years, win.months, win.days, None);
    var folded := FoldDates(kept, p);
    var points := VariabilityView(table, win, periods, years, months, days);
    SubsequenceMembers(points, folded);
    forall i | 0 <= i < |points|
      ensures win.years.Contains(points[i].year) && win.months.Contains(points[i].month)
      ensures 0.0 <= points[i].decimalDate < p
    {
      assert points[i] in folded;
      var k :| 0 <= k < |folded| && folded[k] == points[i];
      assert InWindow(kept[k], win.years, win.months, win.days, None);
    }
  }

  /** Every row of the table in the year and month ranges with a positive
      mean count appears in the scatter plot, with its date folded, whatever
      its day. */
  lemma VariabilityComplete(table: seq<Record>, win: Window, periods: ObsPeriods,
                            years: int, months: int, days: int)
    requires Conforms(Schema(periods), table)
    requires CyclePeriod(years, months, days) != 0.0
    ensures var p := CyclePeriod(years, months, days);
            var points := VariabilityView(table, win, periods, years, months, days);
            forall i :: 0 <= i < |table| ==>
              (win.years.Contains(table[i].year) && win.months.Contains(table[i].month)
               && table[i].meanObs > 0.0) ==>
              table[i].(decimalDate := PyMod(table[i].decimalDate, p)) in points
  {
    var p := CyclePeriod(years, months, days);
    var kept := Clean(table, win.years, win.months, win.days, None);
    var folded := FoldDates(kept, p);
    var points := VariabilityView(table, win, periods, years, months, days);
    forall i | 0 <= i < |table| && win.years.Contains(table[i].year)
                && win.months.Contains(table[i].month) && table[i].meanObs > 0.0
      ensures table[i].(decimalDate := PyMod(table[i].decimalDate, p)) in points
    {
      assert InWindow(table[i], win.years, win.months, win.days, None);
      assert table[i] in kept;
      var k :| 0 <= k < |kept| && kept[k] == table[i];
      assert folded[k] == table[i].(decimalDate := PyMod(table[i].decimalDate, p));
    }
  }

  /** The day slider has no effect on the scatter plot, whatever the granularity. */
  lemma VariabilityIgnoresDayRange(table: seq<Record>, win: Window, other: Range, periods: ObsPeriods,
                                   years: int, months: int, days: int)
    requires Conforms(Schema(periods), table)
    requires CyclePeriod(years, months, days) != 0.0
    ensures VariabilityView(table, win, periods, years, months, days)
            == VariabilityView(table, win.(days := other), periods, years, months, days)
  {
    CleanIgnoresDays(table, win.years, win.months, win.days, other, None);
  }

  /** A daily row whose day lies outside the day range is dropped from the
      counts chart but still plotted on the scatter plot. */
  lemma VariabilityKeepsOutOfRangeDay()
    ensures var row := Record(2000, 6, Some(20), 2000.46, 5.0, 1.0, 10, true);
            var win := Window(Range(1818, 2022), Range(1, 12), Range(1, 10));
            && CountsView([row], win, Some(Days), 0, false, 0.0).raw == []
            && VariabilityView([row], win, Some(Days), 11, 0, 0) != []
            && !win.days.Contains(VariabilityView([row], win, Some(Days), 11, 0, 0)[0].day.value)
  {
    var row := Record(2000, 6, Some(20), 2000.46, 5.0, 1.0, 10, true);
    var win := Window(Range(1818, 2022), Range(1, 12), Range(1, 10));
    CleanInvertedRange([row], Range(1818, 2022), Range(1, 12), Range(20, 10), Some(Days));
    assert !InWindow(row, win.years, win.months, win.days, Some(Days));
    VariabilityComplete([row], win, Some(Days), 11, 0, 0);
    var points := VariabilityView([row], win, Some(Days), 11, 0, 0);
    assert [row][0] == row;
    var folded := row.(decimalDate := PyMod(row.decimalDate, CyclePeriod(11, 0, 0)));
    assert folded in points;
    SubsequenceMembers(points, FoldDates(Clean([row], win.years, win.months, win.days, None), CyclePeriod(11, 0, 0)));
  }
}
