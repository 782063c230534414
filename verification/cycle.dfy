/** The cycle fold behind the variability scatter plot: a cycle period built
    from the three sliders, and every decimal date reduced modulo that period
    with Python's `%` on floats (the result takes the sign of the divisor). */
module Cycle {
  import opened Frame

  /** years + months/12 + days/365.25, with true division. */
  /** In exact arithmetic, 5844 periods (the common denominator of 12 and
      365.25) are 5844 years, 487 months and 16 days each. */
  function CyclePeriod(years: int, months: int, days: int): (p: real)
    ensures p * 5844.0 == (5844 * years + 487 * months + 16 * days) as real
    ensures months >= 0 && days >= 0 ==> p >= years as real
  {
    years as real + months as real / 12.0 + days as real / 365.25
  }

  /** Under the sliders' bounds (8..14 years, 0..11 months, 0..30 days) the
      period is positive: at least 8 and below 15 years. */
  lemma CyclePeriodInSliderRange(years: int, months: int, days: int)
    requires 8 <= years <= 14 && 0 <= months <= 11 && 0 <= days <= 30
    ensures 8.0 <= CyclePeriod(years, months, days) < 15.0
  {
  }

  /** A real's floor is the one integer n with n <= r < n + 1. */
  lemma FloorUnique(r: real, n: int)
    requires n as real <= r < n as real + 1.0
    ensures r.Floor == n
  {
  }

  /** Python's `x % p` for a non-zero divisor: x - floor(x / p) * p. The result
      differs from x by a whole number of periods and lies in [0, p) for a
      positive divisor, in (p, 0] for a negative one. */
  function PyMod(x: real, p: real): (r: real)
    requires p != 0.0
    ensures (x - r) / p == ((x - r) / p).Floor as real
    ensures p > 0.0 ==> 0.0 <= r < p
    ensures p < 0.0 ==> p < r <= 0.0
  {
    var q := (x / p).Floor;
    var r := x - q as real * p;
    WholeQuotient(q, p);
    assert x - r == q as real * p;
    FloorRemainder(x, p);
    r
  }

  /** A whole number of periods divided by the period is that whole number. */
  lemma WholeQuotient(q: int, p: real)
    requires p != 0.0
    ensures (q as real * p) / p == q as real
    ensures ((q as real * p) / p).Floor as real == q as real
  {
  }

  /** The remainder left by the floor of the quotient lies between 0 and p. */
  lemma FloorRemainder(x: real, p: real)
    requires p != 0.0
    ensures var r := x - (x / p).Floor as real * p;
            (p > 0.0 ==> 0.0 <= r < p) && (p < 0.0 ==> p < r <= 0.0)
  {
    var q := (x / p).Floor as real;
    var t := x / p;
    var f := t - q;
    assert 0.0 <= f < 1.0;
    ScaleStrip(f, p);
    assert f * p == x - q * p;
    assert p > 0.0 ==> x - q * p < p;
    assert p < 0.0 ==> p < x - q * p;
  }

  /** A fraction in [0, 1) scaled by p lies between 0 and p. */
  lemma ScaleStrip(f: real, p: real)
    requires 0.0 <= f < 1.0
    ensures p > 0.0 ==> 0.0 <= f * p < p
    ensures p < 0.0 ==> p < f * p <= 0.0
  {
    assert p - f * p == (1.0 - f) * p;
  }

  /** Python's `%` is the unique value in [0, p) congruent to x modulo a positive p. */
  lemma PyModUnique(x: real, p: real, k: int, r: real)
    requires p > 0.0
    requires 0.0 <= r < p
    requires x == k as real * p + r
    ensures PyMod(x, p) == r
  {
    assert x / p == k as real + r / p;
    assert (r / p) * p == r;
    QuotientBelowOne(r, p);
    FloorUnique(x / p, k);
  }

  /** A value in [0, p) divided by p lies in [0, 1). */
  lemma QuotientBelowOne(r: real, p: real)
    requires 0.0 <= r < p
    ensures 0.0 <= r / p < 1.0
  {
    var f := r / p;
    assert f * p == r;
    assert (1.0 - f) * p == p - r;
  }

  /** Dates a whole number of cycles apart fold onto the same point. */
  lemma PyModPeriodic(x: real, p: real, k: int)
    requires p > 0.0
    ensures PyMod(x + k as real * p, p) == PyMod(x, p)
  {
    var r := PyMod(x, p);
    var q := (x / p).Floor;
    assert x == q as real * p + r;
    PyModUnique(x + k as real * p, p, q + k, r);
  }

  /** The folded decimal date of 13.5 with an 11-year cycle is 2.5. */
  lemma FoldExample()
    ensures PyMod(13.5, CyclePeriod(11, 0, 0)) == 2.5
  {
    PyModUnique(13.5, 11.0, 1, 2.5);
  }

  /** `frame['Decimal_Date'] % period` on every row; nothing else changes. */
  function FoldDates(rows: seq<Record>, period: real): (folded: seq<Record>)
    requires period != 0.0
    ensures |folded| == |rows|
    ensures forall i :: 0 <= i < |rows| ==> folded[i].(decimalDate := rows[i].decimalDate) == rows[i]
    ensures forall i :: 0 <= i < |rows| ==>
              var d := folded[i].decimalDate;
              (rows[i].decimalDate - d) / period == ((rows[i].decimalDate - d) / period).Floor as real
    ensures period > 0.0 ==> forall i :: 0 <= i < |rows| ==> 0.0 <= folded[i].decimalDate < period
  {
    seq(|rows|, i requires 0 <= i < |rows| => rows[i].(decimalDate := PyMod(rows[i].decimalDate, period)))
  }
}
