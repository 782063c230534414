/** The sunspot table as the program sees it after reading one of the two
    SIDC files: a sequence of rows whose column layout depends on the chosen
    granularity, and the boolean row masks (`frame[frame.Col op bound]`) the
    program filters it with. */
module Frame {
  import opened Wrappers
  import opened Series

  /** Which file is read: daily totals (8 columns) or monthly means (7 columns). */
  datatype Granularity = Days | Months

  /** The column names assigned to the file read for `g`, in file order. */
  function Columns(g: Granularity): (cols: seq<string>)
    ensures |cols| == (if g == Days then 8 else 7)
    ensures "Day" in cols <==> g == Days
    ensures "Year" in cols && "Month" in cols && "Mean_Obs" in cols
  {
    if g == Days then
      ["Year", "Month", "Day", "Decimal_Date", "Mean_Obs", "Standard_Deviation", "Observations",
       "Definitive/provisional_indicator"]
    else
      ["Year", "Month", "Decimal_Date", "Mean_Obs", "Standard_Deviation", "Observations",
       "Definitive/provisional_indicator"]
  }

  /** The `obs_periods` argument: None when the caller leaves it out, otherwise
      the value picked in the dropdown. Only the exact value Days selects the
      daily file and the day filter; anything else falls through to monthly. */
  type ObsPeriods = Option<Granularity>

  predicate DaysSelected(periods: ObsPeriods)
  {
    periods == Some(Days)
  }

  /** The layout of the table read for `periods`. */
  function Schema(periods: ObsPeriods): (g: Granularity)
    ensures g == Days <==> DaysSelected(periods)
  {
    if DaysSelected(periods) then Days else Months
  }

  /** One observation row. `day` is present only in the daily layout. */
  datatype Record = Record(
    year: int,
    month: int,
    day: Option<int>,
    decimalDate: real,
    meanObs: real,
    stdDev: real,
    observations: int,
    definitive: bool)

  /** Every row has a Day exactly when the layout is daily. */
  predicate Conforms(g: Granularity, rows: seq<Record>)
  {
    forall i :: 0 <= i < |rows| ==> (rows[i].day.Some? <==> g == Days)
  }

  /** The numeric columns that are averaged and plotted. */
  datatype Column = MonthCol | DecimalDateCol | MeanObsCol | StdDevCol | ObservationsCol

  function Value(r: Record, c: Column): real
  {
    match c
    case MonthCol => r.month as real
    case DecimalDateCol => r.decimalDate
    case MeanObsCol => r.meanObs
    case StdDevCol => r.stdDev
    case ObservationsCol => r.observations as real
  }

  /** One column of a table, as a series. */
  function ColumnOf(rows: seq<Record>, c: Column): (xs: seq<real>)
    ensures |xs| == |rows|
    ensures forall i :: 0 <= i < |rows| ==> xs[i] == Value(rows[i], c)
  {
    seq(|rows|, i requires 0 <= i < |rows| => Value(rows[i], c))
  }

  /** A boolean row mask of the form `frame.Col >= bound`, `frame.Col <= bound`
      or `frame.Mean_Obs > bound`. */
  datatype Mask =
    | YearAtLeast(bound: int)
    | YearAtMost(bound: int)
    | MonthAtLeast(bound: int)
    | MonthAtMost(bound: int)
    | DayAtLeast(bound: int)
    | DayAtMost(bound: int)
    | MeanObsAbove(level: real)
  {
    predicate ReadsDay()
    {
      DayAtLeast? || DayAtMost?
    }
  }

  /** Whether a row passes a mask. A day mask never passes a row without a
      Day; callers only apply day masks to daily tables, where every row has one. */
  predicate Admits(m: Mask, r: Record)
  {
    match m
    case YearAtLeast(b) => r.year >= b
    case YearAtMost(b) => r.year <= b
    case MonthAtLeast(b) => r.month >= b
    case MonthAtMost(b) => r.month <= b
    case DayAtLeast(b) => r.day.Some? && r.day.value >= b
    case DayAtMost(b) => r.day.Some? && r.day.value <= b
    case MeanObsAbove(l) => r.meanObs > l
  }

  /** A row passes every mask of `ms` (the masks combined with `&`). */
  predicate AdmitsAll(ms: seq<Mask>, r: Record)
  {
    forall k :: 0 <= k < |ms| ==> Admits(ms[k], r)
  }

  /** `frame[m1 & m2 & ...]`: the rows passing every mask of `ms`, in order. */
  function Select(rows: seq<Record>, ms: seq<Mask>): (kept: seq<Record>)
    ensures IsSubsequence(kept, rows)
    ensures |kept| <= |rows|
    ensures forall i :: 0 <= i < |kept| ==> AdmitsAll(ms, kept[i])
    ensures forall i :: 0 <= i < |rows| && AdmitsAll(ms, rows[i]) ==> rows[i] in kept
    ensures forall r {:trigger multiset(kept)[r]} ::
              multiset(kept)[r] == if AdmitsAll(ms, r) then multiset(rows)[r] else 0
  {
    if |rows| == 0 then []
    else
      assert rows == [rows[0]] + rows[1..];
      if AdmitsAll(ms, rows[0]) then [rows[0]] + Select(rows[1..], ms)
      else Select(rows[1..], ms)
  }

  /** The masks applied one statement at a time, each re-indexing the
      previous result: `frame = frame[m1]; frame = frame[m2]; ...`. Every
      row passing all the masks survives as often as it occurs in the input,
      and no other row survives. */
  function Staged(rows: seq<Record>, ms: seq<Mask>): (staged: seq<Record>)
    ensures forall r {:trigger multiset(staged)[r]} ::
              multiset(staged)[r] == if AdmitsAll(ms, r) then multiset(rows)[r] else 0
  {
    if |ms| == 0 then rows
    else
      var init := ms[..|ms| - 1];
      var last := [ms[|ms| - 1]];
      assert ms == init + last;
      assert forall r :: AdmitsAll(ms, r) <==> AdmitsAll(init, r) && AdmitsAll(last, r) by {
        forall r ensures AdmitsAll(ms, r) <==> AdmitsAll(init, r) && AdmitsAll(last, r) {
          AdmitsAllConcat(init, last, r);
        }
      }
      Select(Staged(rows, init), last)
  }

  /** Selecting rows that all pass already returns them unchanged. */
  lemma {:induction false} SelectKeepsAll(rows: seq<Record>, ms: seq<Mask>)
    requires forall i :: 0 <= i < |rows| ==> AdmitsAll(ms, rows[i])
    ensures Select(rows, ms) == rows
    decreases |rows|
  {
    if |rows| > 0 {
      SelectKeepsAll(rows[1..], ms);
      assert [rows[0]] + rows[1..] == rows;
    }
  }

  /** Selecting twice with the same masks changes nothing the second time. */
  lemma SelectIdempotent(rows: seq<Record>, ms: seq<Mask>)
    ensures Select(Select(rows, ms), ms) == Select(rows, ms)
  {
    SelectKeepsAll(Select(rows, ms), ms);
  }

  /** Passing the masks a + b is passing a and passing b. */
  lemma AdmitsAllConcat(a: seq<Mask>, b: seq<Mask>, r: Record)
    ensures AdmitsAll(a + b, r) <==> AdmitsAll(a, r) && AdmitsAll(b, r)
  {
    if AdmitsAll(a, r) && AdmitsAll(b, r) {
      forall k | 0 <= k < |a + b| ensures Admits((a + b)[k], r) {
        if k < |a| { assert (a + b)[k] == a[k]; } else { assert (a + b)[k] == b[k - |a|]; }
      }
    }
    if AdmitsAll(a + b, r) {
      forall k | 0 <= k < |a| ensures Admits(a[k], r) { assert (a + b)[k] == a[k]; }
      forall k | 0 <= k < |b| ensures Admits(b[k], r) { assert (a + b)[|a| + k] == b[k]; }
    }
  }

  /** Selecting by a and then by b is one selection by the combined masks. */
  lemma {:induction false} SelectThenSelect(rows: seq<Record>, a: seq<Mask>, b: seq<Mask>)
    ensures Select(Select(rows, a), b) == Select(rows, a + b)
    decreases |rows|
  {
    if |rows| > 0 {
      SelectThenSelect(rows[1..], a, b);
      AdmitsAllConcat(a, b, rows[0]);
      if AdmitsAll(a, rows[0]) {
        var s := Select(rows, a);
        assert s[0] == rows[0] && s[1..] == Select(rows[1..], a);
      }
    }
  }

  /** Applying the masks one statement at a time keeps exactly the rows
      that pass all of them at once, in the same order. */
  lemma {:induction false} StagedIsSelect(rows: seq<Record>, ms: seq<Mask>)
    ensures Staged(rows, ms) == Select(rows, ms)
    decreases |ms|
  {
    if |ms| == 0 {
      SelectKeepsAll(rows, ms);
    } else {
      var init := ms[..|ms| - 1];
      StagedIsSelect(rows, init);
      SelectThenSelect(rows, init, [ms[|ms| - 1]]);
      assert init + [ms[|ms| - 1]] == ms;
    }
  }

  /** Removing rows keeps the table's layout. */
  lemma SelectConforms(g: Granularity, rows: seq<Record>, ms: seq<Mask>)
    requires Conforms(g, rows)
    ensures Conforms(g, Select(rows, ms))
  {
    var kept := Select(rows, ms);
    SubsequenceMembers(kept, rows);
    forall i | 0 <= i < |kept| ensures kept[i].day.Some? <==> g == Days {
      assert kept[i] in rows;
    }
  }
}
