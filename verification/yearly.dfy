/** `frame.groupby(['Year']).mean().reset_index('Year')`: one row per distinct
    year, in ascending year order, holding the mean of each numeric column
    over that year's rows. */
module Yearly {
  import opened Wrappers
  import opened Series
  import opened Frame

  /** One aggregated row. */
  datatype YearRow = YearRow(
    year: int,
    month: real,
    decimalDate: real,
    meanObs: real,
    stdDev: real,
    observations: real)

  /** The numeric value of a column in an aggregated row. */
  function YearValue(a: YearRow, c: Column): real
  {
    match c
    case MonthCol => a.month
    case DecimalDateCol => a.decimalDate
    case MeanObsCol => a.meanObs
    case StdDevCol => a.stdDev
    case ObservationsCol => a.observations
  }

  predicate StrictlyAscending(ys: seq<int>)
  {
    forall i, j :: 0 <= i < j < |ys| ==> ys[i] < ys[j]
  }

  /** The years occurring in a table. */
  function YearsIn(rows: seq<Record>): set<int>
  {
    set i | 0 <= i < |rows| :: rows[i].year
  }

  /** Adds a year to a strictly ascending list of distinct years. */
  function Insert(ys: seq<int>, y: int): (zs: seq<int>)
    requires StrictlyAscending(ys)
    ensures StrictlyAscending(zs)
    ensures forall x :: x in zs <==> x in ys || x == y
  {
    if |ys| == 0 then [y]
    else if y < ys[0] then [y] + ys
    else if y == ys[0] then ys
    else
      var rest := Insert(ys[1..], y);
      assert forall x :: x in rest ==> ys[0] < x by {
        forall x | x in rest ensures ys[0] < x {
          if x in ys[1..] {
            var k :| 0 <= k < |ys[1..]| && ys[1..][k] == x;
            assert ys[k + 1] == x;
          }
        }
      }
      var zs := [ys[0]] + rest;
      assert forall i, j :: 0 <= i < j < |zs| ==> zs[i] < zs[j] by {
        forall i, j | 0 <= i < j < |zs| ensures zs[i] < zs[j] {
          assert zs[j] == rest[j - 1];
          if i > 0 { assert zs[i] == rest[i - 1]; } else { assert rest[j - 1] in rest; }
        }
      }
      assert ys == [ys[0]] + ys[1..];
      zs
  }

  /** The group keys: each year of the table once, ascending. */
  function GroupKeys(rows: seq<Record>): (ys: seq<int>)
    ensures StrictlyAscending(ys)
    ensures forall y :: y in ys <==> y in YearsIn(rows)
  {
    if |rows| == 0 then []
    else
      var init := rows[..|rows| - 1];
      assert YearsIn(rows) == YearsIn(init) + {rows[|rows| - 1].year} by {
        forall y | y in YearsIn(rows) ensures y in YearsIn(init) + {rows[|rows| - 1].year} {
          var i :| 0 <= i < |rows| && rows[i].year == y;
          if i < |rows| - 1 { assert init[i] == rows[i]; }
        }
        forall y | y in YearsIn(init) ensures y in YearsIn(rows) {
          var i :| 0 <= i < |init| && init[i].year == y;
          assert rows[i] == init[i];
        }
      }
      Insert(GroupKeys(init), rows[|rows| - 1].year)
  }

  /** The rows of one group: those whose year equals y, in table order. */
  function Group(rows: seq<Record>, y: int): (g: seq<Record>)
    ensures IsSubsequence(g, rows)
    ensures forall i :: 0 <= i < |g| ==> g[i].year == y && g[i] in rows
    ensures forall i :: 0 <= i < |rows| && rows[i].year == y ==> rows[i] in g
    ensures forall r: Record {:trigger multiset(g)[r]} :: r.year == y ==> multiset(g)[r] == multiset(rows)[r]
    ensures y in YearsIn(rows) ==> |g| > 0
  {
    var g := Select(rows, [YearAtLeast(y), YearAtMost(y)]);
    assert forall i :: 0 <= i < |g| ==> Admits(YearAtLeast(y), g[i]) && Admits(YearAtMost(y), g[i]) by {
      forall i | 0 <= i < |g| ensures Admits(YearAtLeast(y), g[i]) && Admits(YearAtMost(y), g[i]) {
        assert AdmitsAll([YearAtLeast(y), YearAtMost(y)], g[i]);
        assert [YearAtLeast(y), YearAtMost(y)][0] == YearAtLeast(y);
        assert [YearAtLeast(y), YearAtMost(y)][1] == YearAtMost(y);
      }
    }
    assert forall r: Record :: r.year == y ==> AdmitsAll([YearAtLeast(y), YearAtMost(y)], r);
    SubsequenceMembers(g, rows);
    g
  }

  /** `a` is the aggregate of its year's group: the year occurs in the table
      and every column holds the arithmetic mean over that year's rows. */
  predicate IsGroupMean(rows: seq<Record>, a: YearRow)
  {
    && a.year in YearsIn(rows)
    && forall c :: YearValue(a, c) == Mean(ColumnOf(Group(rows, a.year), c))
  }

  /** The aggregated row for the group of year y. */
  function Aggregate(rows: seq<Record>, y: int): (a: YearRow)
    requires y in YearsIn(rows)
    ensures a.year == y
    ensures IsGroupMean(rows, a)
  {
    var g := Group(rows, y);
    assert |g| > 0;
    var a := YearRow(y, Mean(ColumnOf(g, MonthCol)), Mean(ColumnOf(g, DecimalDateCol)), Mean(ColumnOf(g, MeanObsCol)),
                     Mean(ColumnOf(g, StdDevCol)), Mean(ColumnOf(g, ObservationsCol)));
    assert forall c :: YearValue(a, c) == Mean(ColumnOf(g, c)) by {
      forall c ensures YearValue(a, c) == Mean(ColumnOf(g, c)) {
        assert c == MonthCol || c == DecimalDateCol || c == MeanObsCol || c == StdDevCol || c == ObservationsCol;
      }
    }
    a
  }

  /** The aggregated rows for the given group keys, in key order. */
  function AggregateEach(rows: seq<Record>, ys: seq<int>): (agg: seq<YearRow>)
    requires forall i :: 0 <= i < |ys| ==> ys[i] in YearsIn(rows)
    ensures |agg| == |ys|
    ensures forall i :: 0 <= i < |ys| ==> agg[i].year == ys[i] && IsGroupMean(rows, agg[i])
  {
    seq(|ys|, i requires 0 <= i < |ys| => Aggregate(rows, ys[i]))
  }

  /** The yearly table: one row per year present, ascending, each holding
      the arithmetic means of its year's rows; absent years have no row. */
  function YearlyMeans(rows: seq<Record>): (agg: seq<YearRow>)
    ensures forall i, j :: 0 <= i < j < |agg| ==> agg[i].year < agg[j].year
    ensures forall y :: y in YearsIn(rows) <==> exists i :: 0 <= i < |agg| && agg[i].year == y
    ensures forall i :: 0 <= i < |agg| ==> IsGroupMean(rows, agg[i])
  {
    var ys := GroupKeys(rows);
    var agg := AggregateEach(rows, ys);
    assert forall y :: y in YearsIn(rows) ==> exists i :: 0 <= i < |agg| && agg[i].year == y by {
      forall y | y in YearsIn(rows) ensures exists i :: 0 <= i < |agg| && agg[i].year == y {
        var i :| 0 <= i < |ys| && ys[i] == y;
        assert agg[i].year == y;
      }
    }
    assert forall y :: (exists i :: 0 <= i < |agg| && agg[i].year == y) ==> y in YearsIn(rows) by {
      forall y | exists i :: 0 <= i < |agg| && agg[i].year == y ensures y in YearsIn(rows) {
        var i :| 0 <= i < |agg| && agg[i].year == y;
        assert IsGroupMean(rows, agg[i]);
      }
    }
    agg
  }

  /** Each yearly mean lies within any bounds that hold of that year's rows:
      never below its smallest or above its largest observation. */
  lemma YearlyMeanWithin(rows: seq<Record>, y: int, c: Column, lo: real, hi: real)
    requires y in YearsIn(rows)
    requires forall i :: 0 <= i < |rows| && rows[i].year == y ==> lo <= Value(rows[i], c) <= hi
    ensures forall i :: 0 <= i < |YearlyMeans(rows)| && YearlyMeans(rows)[i].year == y ==>
              lo <= YearValue(YearlyMeans(rows)[i], c) <= hi
  {
    var g := Group(rows, y);
    var xs := ColumnOf(g, c);
    assert Within(xs, lo, hi) by {
      forall k | 0 <= k < |xs| ensures lo <= xs[k] <= hi {
        var i :| 0 <= i < |rows| && rows[i] == g[k];
      }
    }
    MeanWithin(xs, lo, hi);
  }

  /** Three monthly rows: years 2000, 2000, 2001 with mean counts 1, 3, 5. */
  const ExampleRows: seq<Record> := [
    Record(2000, 1, None, 2000.04, 1.0, 0.5, 20, true),
    Record(2000, 2, None, 2000.12, 3.0, 0.5, 20, true),
    Record(2001, 1, None, 2001.04, 5.0, 0.5, 20, true)]

  /** The example rows aggregate to a 2000 bar of 2 and a 2001 bar of 5,
      and nothing else. */
  lemma YearlyExample()
    ensures var agg := YearlyMeans(ExampleRows);
            |agg| == 2 && agg[0].year == 2000 && agg[0].meanObs == 2.0
            && agg[1].year == 2001 && agg[1].meanObs == 5.0
  {
    var agg := YearlyMeans(ExampleRows);
    ExampleKeys();
    ExampleMeans();
    assert |agg| == 2 && agg[0].year == 2000 && agg[1].year == 2001;
    assert IsGroupMean(ExampleRows, agg[0]) && IsGroupMean(ExampleRows, agg[1]);
    assert YearValue(agg[0], MeanObsCol) == Mean(ColumnOf(Group(ExampleRows, 2000), MeanObsCol));
    assert YearValue(agg[1], MeanObsCol) == Mean(ColumnOf(Group(ExampleRows, 2001), MeanObsCol));
  }

  /** The example's per-year mean counts are 2 for 2000 and 5 for 2001. */
  lemma ExampleMeans()
    ensures Mean(ColumnOf(Group(ExampleRows, 2000), MeanObsCol)) == 2.0
    ensures Mean(ColumnOf(Group(ExampleRows, 2001), MeanObsCol)) == 5.0
  {
    ExampleGroups();
    assert ColumnOf(ExampleRows[..2], MeanObsCol) == [1.0, 3.0];
    assert ColumnOf(ExampleRows[2..], MeanObsCol) == [5.0];
    assert Sum([1.0, 3.0]) == 4.0 by { SumCons([1.0, 3.0]); SumCons([3.0]); }
    MeanOfOne(5.0);
  }

  /** The example's group keys are 2000 and 2001. */
  lemma ExampleKeys()
    ensures GroupKeys(ExampleRows) == [2000, 2001]
  {
    var rows := ExampleRows;
    assert rows[..2][..1] == rows[..1] && rows[..1][..0] == [] && rows[..3] == rows;
    assert GroupKeys(rows[..1]) == Insert([], 2000) == [2000];
    assert GroupKeys(rows[..2]) == Insert([2000], 2000) == [2000];
    assert GroupKeys(rows) == Insert([2000], 2001) == [2000, 2001];
  }

  /** The example's groups, in table order. */
  lemma ExampleGroups()
    ensures Group(ExampleRows, 2000) == ExampleRows[..2]
    ensures Group(ExampleRows, 2001) == ExampleRows[2..]
  {
    var rows := ExampleRows;
    var m0 := [YearAtLeast(2000), YearAtMost(2000)];
    var m1 := [YearAtLeast(2001), YearAtMost(2001)];
    assert rows[1..][1..] == rows[2..] && rows[2..][1..] == [];
    assert AdmitsAll(m0, rows[0]) && AdmitsAll(m0, rows[1]) && !Admits(m0[1], rows[2]);
    assert !Admits(m1[0], rows[0]) && !Admits(m1[0], rows[1]) && AdmitsAll(m1, rows[2]);
    assert Select(rows[2..], m0) == [];
    assert Select(rows[2..], m1) == [rows[2]];
  }
}
