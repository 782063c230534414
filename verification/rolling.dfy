/** `series.rolling(W).mean()`: the trailing moving average with the default
    minimum number of observations (the window size itself). An undefined
    entry (NaN) is None. */
module Rolling {
  import opened Wrappers
  import opened Series

  /** Entry i: the mean of the W entries ending at i, defined only once W
      entries are available. A window of size 0 holds no entries, so its mean
      is never defined. */
  function Entry(xs: seq<real>, w: nat, i: nat): Option<real>
    requires i < |xs|
  {
    if 0 < w <= i + 1 then Some(Mean(xs[i + 1 - w..i + 1])) else None
  }

  /** The moving average as a whole series, the reference definition: as
      long as the raw series, defined from position W-1 on, and each defined
      entry scaled by W gives the total of the W raw values ending there. */
  function RollingMean(xs: seq<real>, w: nat): (avg: seq<Option<real>>)
    ensures |avg| == |xs|
    ensures forall i :: 0 <= i < |xs| ==> (avg[i].Some? <==> 0 < w <= i + 1)
    ensures forall i :: 0 <= i < |xs| && avg[i].Some? ==> avg[i].value * w as real == Sum(xs[i + 1 - w..i + 1])
  {
    seq(|xs|, i requires 0 <= i < |xs| => Entry(xs, w, i))
  }

  /** The sliding-window computation: one running total, adding the entry
      that enters the window and subtracting the one that leaves it. */
  method RollingMeanOnline(xs: seq<real>, w: nat) returns (avg: seq<Option<real>>)
    ensures |avg| == |xs|
    ensures forall i :: 0 <= i < |xs| ==> avg[i] == Entry(xs, w, i)
  {
    avg := [];
    var total := 0.0;
    var i := 0;
    while i < |xs|
      invariant 0 <= i <= |xs|
      invariant |avg| == i
      invariant forall k :: 0 <= k < i ==> avg[k] == Entry(xs, w, k)
      invariant total == Sum(xs[Start(i, w)..i])
    {
      SlideTotal(xs, w, i, total);
      total := total + xs[i] - (if i >= w then xs[i - w] else 0.0);
      EntryOfTotal(xs, w, i, total);
      avg := avg + [if 0 < w <= i + 1 then Some(total / w as real) else None];
      i := i + 1;
    }
  }

  /** Sliding the window one position: add the entry that enters it and
      subtract the one that leaves it. */
  lemma SlideTotal(xs: seq<real>, w: nat, i: nat, total: real)
    requires i < |xs|
    requires total == Sum(xs[Start(i, w)..i])
    ensures total + xs[i] - (if i >= w then xs[i - w] else 0.0) == Sum(xs[Start(i + 1, w)..i + 1])
  {
    SumSliceExtend(xs, Start(i, w), i);
    if i >= w {
      SumSliceShrink(xs, i - w, i + 1);
    }
  }

  /** The running total over the window ending at i yields entry i. */
  lemma EntryOfTotal(xs: seq<real>, w: nat, i: nat, total: real)
    requires i < |xs|
    requires total == Sum(xs[Start(i + 1, w)..i + 1])
    ensures Entry(xs, w, i) == if 0 < w <= i + 1 then Some(total / w as real) else None
  {
    if 0 < w <= i + 1 {
      assert Start(i + 1, w) == i + 1 - w;
      assert |xs[i + 1 - w..i + 1]| == w;
    }
  }

  /** Where the window ending just before position i starts. */
  function Start(i: nat, w: nat): nat
  {
    if i >= w then i - w else 0
  }

  /** The smoothed series is exactly as long as the raw one; the first W-1
      entries are undefined and every later one is the mean of its window. */
  lemma RollingShape(xs: seq<real>, w: nat)
    requires w >= 1
    ensures |RollingMean(xs, w)| == |xs|
    ensures forall i :: 0 <= i < |xs| && i < w - 1 ==> RollingMean(xs, w)[i].None?
    ensures forall i :: w - 1 <= i < |xs| ==> RollingMean(xs, w)[i] == Some(Mean(xs[i - w + 1..i + 1]))
  {
  }

  /** A window of size 0 leaves every entry undefined. */
  lemma RollingZeroWindow(xs: seq<real>)
    ensures forall i :: 0 <= i < |xs| ==> RollingMean(xs, 0)[i].None?
  {
  }

  /** A window of size 1 reproduces the raw series. */
  lemma RollingUnitWindow(xs: seq<real>)
    ensures |RollingMean(xs, 1)| == |xs|
    ensures forall i :: 0 <= i < |xs| ==> RollingMean(xs, 1)[i] == Some(xs[i])
  {
    forall i | 0 <= i < |xs| ensures RollingMean(xs, 1)[i] == Some(xs[i]) {
      assert xs[i..i + 1] == [xs[i]];
      MeanOfOne(xs[i]);
    }
  }

  /** The average never looks ahead: appending later observations does not
      change any entry already computed. */
  lemma RollingNoLookAhead(xs: seq<real>, later: seq<real>, w: nat)
    ensures RollingMean(xs + later, w)[..|xs|] == RollingMean(xs, w)
  {
    forall i | 0 <= i < |xs| ensures RollingMean(xs + later, w)[i] == RollingMean(xs, w)[i] {
      if 0 < w <= i + 1 {
        assert (xs + later)[i + 1 - w..i + 1] == xs[i + 1 - w..i + 1];
      }
    }
  }

  /** Every defined entry lies within any bounds that hold of the raw series. */
  lemma RollingWithin(xs: seq<real>, w: nat, lo: real, hi: real)
    requires Within(xs, lo, hi)
    ensures forall i :: 0 <= i < |xs| && RollingMean(xs, w)[i].Some? ==>
              lo <= RollingMean(xs, w)[i].value <= hi
  {
    forall i | 0 <= i < |xs| && RollingMean(xs, w)[i].Some?
      ensures lo <= RollingMean(xs, w)[i].value <= hi
    {
      var win := xs[i + 1 - w..i + 1];
      assert Within(win, lo, hi) by {
        forall k | 0 <= k < |win| ensures lo <= win[k] <= hi { assert win[k] == xs[i + 1 - w + k]; }
      }
      MeanWithin(win, lo, hi);
    }
  }

  /** Raw series 1, 2, 3, 4, 5 with a window of 3 smooths to
      undefined, undefined, 2, 3, 4. */
  lemma RollingExample()
    ensures RollingMean([1.0, 2.0, 3.0, 4.0, 5.0], 3) == [None, None, Some(2.0), Some(3.0), Some(4.0)]
  {
    var xs := [1.0, 2.0, 3.0, 4.0, 5.0];
    var r := RollingMean(xs, 3);
    assert r[0] == None && r[1] == None;
    assert r[2] == Some(Mean(xs[0..3])) && r[3] == Some(Mean(xs[1..4])) && r[4] == Some(Mean(xs[2..5]));
    assert xs[0..3] == [1.0, 2.0, 3.0] && xs[1..4] == [2.0, 3.0, 4.0] && xs[2..5] == [3.0, 4.0, 5.0];
    MeanOfThree(1.0, 2.0, 3.0);
    MeanOfThree(2.0, 3.0, 4.0);
    MeanOfThree(3.0, 4.0, 5.0);
  }

  /** The mean of three values. */
  lemma MeanOfThree(a: real, b: real, c: real)
    ensures Mean([a, b, c]) == (a + b + c) / 3.0
  {
    SumCons([a, b, c]);
    SumCons([b, c]);
    SumCons([c]);
    assert [a, b, c][1..] == [b, c] && [b, c][1..] == [c] && [c][1..] == [];
  }
}
