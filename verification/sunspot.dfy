/** `clean_sunspot_data`: restrict a sunspot table to the user's time window. */
module Sunspot {
  import opened Wrappers
  import opened Series
  import opened Frame

  /** A closed interval [lo, hi] picked on a range slider. lo > hi is allowed
      and contains nothing. */
  datatype Range = Range(lo: int, hi: int) {
    predicate Contains(x: int)
    {
      lo <= x <= hi
    }
  }

  /** The masks the filter applies, in the order of its statements: year
      lower and upper bound, month lower and upper bound, and, only when the
      daily granularity was passed, day lower and upper bound. */
  function Masks(years: Range, months: Range, days: Range, periods: ObsPeriods): (ms: seq<Mask>)
    ensures |ms| == (if DaysSelected(periods) then 6 else 4)
    ensures forall k :: 0 <= k < |ms| ==> (ms[k].ReadsDay() <==> k >= 4)
  {
    [YearAtLeast(years.lo), YearAtMost(years.hi), MonthAtLeast(months.lo), MonthAtMost(months.hi)]
    + (if DaysSelected(periods) then [DayAtLeast(days.lo), DayAtMost(days.hi)] else [])
  }

  /** The reference condition: a row lies in the year and month ranges and,
      when day filtering is active, has a day in the day range. */
  predicate InWindow(r: Record, years: Range, months: Range, days: Range, periods: ObsPeriods)
  {
    && years.Contains(r.year)
    && months.Contains(r.month)
    && (DaysSelected(periods) ==> r.day.Some? && days.Contains(r.day.value))
  }

  /** Every row carries a Day. */
  predicate HasDayColumn(rows: seq<Record>)
  {
    forall i :: 0 <= i < |rows| ==> rows[i].day.Some?
  }

  /** The filter as written: the masks applied statement by statement. A day
      filter on a table without a Day column is an attribute error in the
      program, so the day column must exist when the day filter is active. */
  function Clean(rows: seq<Record>, years: Range, months: Range, days: Range, periods: ObsPeriods)
    : (kept: seq<Record>)
    requires DaysSelected(periods) ==> HasDayColumn(rows)
    ensures IsSubsequence(kept, rows)
    ensures forall i :: 0 <= i < |kept| ==> InWindow(kept[i], years, months, days, periods)
    ensures forall i :: 0 <= i < |rows| && InWindow(rows[i], years, months, days, periods) ==> rows[i] in kept
    ensures forall r {:trigger multiset(kept)[r]} ::
              multiset(kept)[r] == if InWindow(r, years, months, days, periods) then multiset(rows)[r] else 0
  {
    var ms := Masks(years, months, days, periods);
    StagedIsSelect(rows, ms);
    WindowIsMasks(years, months, days, periods);
    Staged(rows, ms)
  }

  /** Passing the filter's masks is exactly lying in the window. */
  lemma WindowIsMasks(years: Range, months: Range, days: Range, periods: ObsPeriods)
    ensures forall r :: AdmitsAll(Masks(years, months, days, periods), r)
                    <==> InWindow(r, years, months, days, periods)
  {
    var ms := Masks(years, months, days, periods);
    forall r ensures AdmitsAll(ms, r) <==> InWindow(r, years, months, days, periods) {
      if AdmitsAll(ms, r) {
        assert Admits(ms[0], r) && Admits(ms[1], r) && Admits(ms[2], r) && Admits(ms[3], r);
        if DaysSelected(periods) {
          assert Admits(ms[4], r) && Admits(ms[5], r);
        }
      }
    }
  }

  /** The filter keeps exactly the rows of one conjunctive pass over the
      window condition, so it drops a row only if some active range excludes it. */
  lemma CleanIsOnePass(rows: seq<Record>, years: Range, months: Range, days: Range, periods: ObsPeriods)
    requires DaysSelected(periods) ==> HasDayColumn(rows)
    ensures Clean(rows, years, months, days, periods) == Select(rows, Masks(years, months, days, periods))
    ensures forall i :: 0 <= i < |rows| && rows[i] !in Clean(rows, years, months, days, periods) ==>
              !years.Contains(rows[i].year) || !months.Contains(rows[i].month)
              || (DaysSelected(periods) && !days.Contains(rows[i].day.value))
  {
    StagedIsSelect(rows, Masks(years, months, days, periods));
  }

  /** Filtering an already filtered table with the same ranges returns it unchanged. */
  lemma CleanIdempotent(rows: seq<Record>, years: Range, months: Range, days: Range, periods: ObsPeriods)
    requires DaysSelected(periods) ==> HasDayColumn(rows)
    ensures var once := Clean(rows, years, months, days, periods);
            (DaysSelected(periods) ==> HasDayColumn(once))
            && Clean(once, years, months, days, periods) == once
  {
    var ms := Masks(years, months, days, periods);
    var once := Clean(rows, years, months, days, periods);
    StagedIsSelect(rows, ms);
    StagedIsSelect(once, ms);
    SelectIdempotent(rows, ms);
  }

  /** Without the daily granularity the day range has no effect at all. */
  lemma CleanIgnoresDays(rows: seq<Record>, years: Range, months: Range, d1: Range, d2: Range,
                         periods: ObsPeriods)
    requires !DaysSelected(periods)
    ensures Clean(rows, years, months, d1, periods) == Clean(rows, years, months, d2, periods)
  {
  }

  /** An inverted range in any active dimension yields the empty table. */
  lemma CleanInvertedRange(rows: seq<Record>, years: Range, months: Range, days: Range, periods: ObsPeriods)
    requires DaysSelected(periods) ==> HasDayColumn(rows)
    requires years.lo > years.hi || months.lo > months.hi || (DaysSelected(periods) && days.lo > days.hi)
    ensures Clean(rows, years, months, days, periods) == []
  {
    assert forall r :: !InWindow(r, years, months, days, periods);
  }

  /** A table lying entirely inside the window comes back unchanged. */
  lemma CleanKeepsWindow(rows: seq<Record>, years: Range, months: Range, days: Range, periods: ObsPeriods)
    requires DaysSelected(periods) ==> HasDayColumn(rows)
    requires forall i :: 0 <= i < |rows| ==> InWindow(rows[i], years, months, days, periods)
    ensures Clean(rows, years, months, days, periods) == rows
  {
    var ms := Masks(years, months, days, periods);
    WindowIsMasks(years, months, days, periods);
    StagedIsSelect(rows, ms);
    SelectKeepsAll(rows, ms);
  }

  /** Filtering keeps the table's layout. */
  lemma CleanConforms(g: Granularity, rows: seq<Record>, years: Range, months: Range, days: Range,
                      periods: ObsPeriods)
    requires DaysSelected(periods) ==> HasDayColumn(rows)
    requires Conforms(g, rows)
    ensures Conforms(g, Clean(rows, years, months, days, periods))
  {
    var ms := Masks(years, months, days, periods);
    StagedIsSelect(rows, ms);
    SelectConforms(g, rows, ms);
  }
}
