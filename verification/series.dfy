/** Exact arithmetic over numeric columns: sums, arithmetic means and the
    order-preserving subsequence relation between two row sequences. */
module Series {

  /** Sum of a column, accumulated from the front like a running total. */
  function Sum(xs: seq<real>): real
  {
    if |xs| == 0 then 0.0 else Sum(xs[..|xs| - 1]) + xs[|xs| - 1]
  }

  /** Arithmetic mean of a non-empty column. */
  function Mean(xs: seq<real>): real
    requires |xs| > 0
  {
    Sum(xs) / |xs| as real
  }

  /** Every entry of `xs` lies in the closed interval [lo, hi]. */
  predicate Within(xs: seq<real>, lo: real, hi: real)
  {
    forall i :: 0 <= i < |xs| ==> lo <= xs[i] <= hi
  }

  /** `a` is obtained from `b` by deleting entries, keeping the rest in order
      and unchanged. */
  ghost predicate IsSubsequence<T>(a: seq<T>, b: seq<T>)
    decreases |b|
  {
    if |a| == 0 then true
    else if |b| == 0 then false
    else (a[0] == b[0] && IsSubsequence(a[1..], b[1..])) || IsSubsequence(a, b[1..])
  }

  /** Extending a column at the back adds the new entry to the sum. */
  lemma SumSnoc(xs: seq<real>, x: real)
    ensures Sum(xs + [x]) == Sum(xs) + x
  {
    assert (xs + [x])[..|xs|] == xs;
  }

  /** Removing the first entry of a column subtracts it from the sum. */
  lemma {:induction false} SumCons(xs: seq<real>)
    requires |xs| > 0
    ensures Sum(xs) == xs[0] + Sum(xs[1..])
    decreases |xs|
  {
    if |xs| > 1 {
      var init := xs[..|xs| - 1];
      SumCons(init);
      assert init[1..] == xs[1..][..|xs[1..]| - 1];
    }
  }

  /** The sum over the slice [a, b+1) extends the sum over [a, b) by xs[b]. */
  lemma SumSliceExtend(xs: seq<real>, a: nat, b: nat)
    requires a <= b < |xs|
    ensures Sum(xs[a..b + 1]) == Sum(xs[a..b]) + xs[b]
  {
    assert xs[a..b + 1] == xs[a..b] + [xs[b]];
    SumSnoc(xs[a..b], xs[b]);
  }

  /** The sum over the slice [a+1, b) is the sum over [a, b) without xs[a]. */
  lemma SumSliceShrink(xs: seq<real>, a: nat, b: nat)
    requires a < b <= |xs|
    ensures Sum(xs[a + 1..b]) == Sum(xs[a..b]) - xs[a]
  {
    SumCons(xs[a..b]);
    assert xs[a..b][1..] == xs[a + 1..b];
  }

  /** A column whose entries lie in [lo, hi] sums to between |xs|*lo and |xs|*hi. */
  lemma {:induction false} SumWithin(xs: seq<real>, lo: real, hi: real)
    requires Within(xs, lo, hi)
    ensures |xs| as real * lo <= Sum(xs) <= |xs| as real * hi
    decreases |xs|
  {
    if |xs| > 0 {
      var init := xs[..|xs| - 1];
      assert Within(init, lo, hi) by {
        forall i | 0 <= i < |init| ensures lo <= init[i] <= hi {
          assert init[i] == xs[i];
        }
      }
      SumWithin(init, lo, hi);
      var n := |init| as real;
      var x := xs[|xs| - 1];
      assert lo <= x <= hi;
      assert Sum(xs) == Sum(init) + x;
      assert |xs| as real * lo == n * lo + lo;
      assert |xs| as real * hi == n * hi + hi;
    }
  }

  /** The mean of a column lies within any bounds that hold of all its
      entries: it is never below the smallest or above the largest entry. */
  lemma MeanWithin(xs: seq<real>, lo: real, hi: real)
    requires |xs| > 0
    requires Within(xs, lo, hi)
    ensures lo <= Mean(xs) <= hi
  {
    SumWithin(xs, lo, hi);
    var n := |xs| as real;
    assert Mean(xs) * n == Sum(xs);
    ScaledOrder(lo, Mean(xs), n);
    ScaledOrder(Mean(xs), hi, n);
  }

  /** Multiplying both sides by the same positive factor keeps their order. */
  lemma ScaledOrder(a: real, b: real, n: real)
    requires n > 0.0
    requires a * n <= b * n
    ensures a <= b
  {
    assert (b - a) * n == b * n - a * n;
  }

  /** The mean of a single entry is that entry. */
  lemma MeanOfOne(x: real)
    ensures Mean([x]) == x
  {
    assert [x][..0] == [];
    assert Sum([x]) == x;
  }

  /** Every entry of a subsequence is an entry of the sequence it was taken from. */
  lemma {:induction false} SubsequenceMembers<T>(a: seq<T>, b: seq<T>)
    requires IsSubsequence(a, b)
    ensures forall x :: x in a ==> x in b
    decreases |b|
  {
    if |a| > 0 {
      if a[0] == b[0] && IsSubsequence(a[1..], b[1..]) {
        SubsequenceMembers(a[1..], b[1..]);
        assert forall x :: x in a ==> x == a[0] || x in a[1..];
      } else {
        SubsequenceMembers(a, b[1..]);
      }
      assert forall x :: x in b[1..] ==> x in b;
    }
  }
}
