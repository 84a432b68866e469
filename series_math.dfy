// Sequence arithmetic shared by both chart engines: the capped FIFO that
// `push` followed by a conditional `shift` implements, and the minimum,
// maximum, sum and mean that the renderers compute over a window.
module SeriesMath {

  /** A `Math.random()` value lies in [0, 1). */
  predicate InUnit(r: real)
  {
    0.0 <= r < 1.0
  }

  /** The buffer after `push` has already happened: one `shift` (drop the
      oldest entry) when the length is over `cap`, nothing otherwise. */
  function Retain<T>(s: seq<T>, cap: nat): (r: seq<T>)
    ensures |r| == if |s| > cap then |s| - 1 else |s|
    ensures r == s[|s| - |r|..]
  {
    if |s| > cap then s[1..] else s
  }

  /** Pushing onto a buffer that respects its cap keeps it within the cap,
      puts the new entry last, and loses at most the single oldest entry. */
  lemma PushRetain<T>(s: seq<T>, x: T, cap: nat)
    requires 0 < cap && |s| <= cap
    ensures var r := Retain(s + [x], cap);
      |r| <= cap && |r| > 0 && r[|r| - 1] == x &&
      (|s| < cap ==> r == s + [x]) &&
      (|s| == cap ==> r == s[1..] + [x])
  {
    var t := s + [x];
    if |s| == cap {
      assert t[1..] == s[1..] + [x];
    }
  }

  /** The least element, scanned left to right keeping the smaller value. */
  function Min(xs: seq<real>): (m: real)
    requires |xs| > 0
    ensures forall i :: 0 <= i < |xs| ==> m <= xs[i]
    ensures exists i :: 0 <= i < |xs| && xs[i] == m
  {
    if |xs| == 1 then xs[0]
    else
      var p := Min(xs[..|xs| - 1]);
      assert forall i :: 0 <= i < |xs| - 1 ==> xs[..|xs| - 1][i] == xs[i];
      if xs[|xs| - 1] < p then xs[|xs| - 1] else p
  }

  /** The greatest element, scanned left to right keeping the larger value. */
  function Max(xs: seq<real>): (m: real)
    requires |xs| > 0
    ensures forall i :: 0 <= i < |xs| ==> xs[i] <= m
    ensures exists i :: 0 <= i < |xs| && xs[i] == m
  {
    if |xs| == 1 then xs[0]
    else
      var p := Max(xs[..|xs| - 1]);
      assert forall i :: 0 <= i < |xs| - 1 ==> xs[..|xs| - 1][i] == xs[i];
      if xs[|xs| - 1] > p then xs[|xs| - 1] else p
  }

  /** A value no greater than every element and equal to one of them is the
      minimum. */
  lemma MinUnique(xs: seq<real>, m: real)
    requires |xs| > 0
    requires forall i :: 0 <= i < |xs| ==> m <= xs[i]
    requires exists i :: 0 <= i < |xs| && xs[i] == m
    ensures m == Min(xs)
  {
  }

  /** A value no less than every element and equal to one of them is the
      maximum. */
  lemma MaxUnique(xs: seq<real>, m: real)
    requires |xs| > 0
    requires forall i :: 0 <= i < |xs| ==> xs[i] <= m
    requires exists i :: 0 <= i < |xs| && xs[i] == m
    ensures m == Max(xs)
  {
  }

  /** Left-to-right sum starting from 0, as `reduce((s, v) => s + v, 0)`. */
  function Sum(xs: seq<real>): real
  {
    if xs == [] then 0.0 else Sum(xs[..|xs| - 1]) + xs[|xs| - 1]
  }

  /** A sequence whose every element lies in [lo, hi] sums to between
      |xs|*lo and |xs|*hi. */
  lemma {:induction false} SumBounds(xs: seq<real>, lo: real, hi: real)
    requires forall i :: 0 <= i < |xs| ==> lo <= xs[i] <= hi
    ensures (|xs| as real) * lo <= Sum(xs) <= (|xs| as real) * hi
  {
    if xs != [] {
      var n := |xs|;
      assert forall i :: 0 <= i < n - 1 ==> xs[..n - 1][i] == xs[i];
      SumBounds(xs[..n - 1], lo, hi);
      assert (n as real) * lo == ((n - 1) as real) * lo + lo;
      assert (n as real) * hi == ((n - 1) as real) * hi + hi;
    }
  }

  /** The sum of `n` copies of `c` is `n*c`. */
  lemma {:induction false} SumConstant(xs: seq<real>, c: real)
    requires forall i :: 0 <= i < |xs| ==> xs[i] == c
    ensures Sum(xs) == (|xs| as real) * c
  {
    if xs != [] {
      var n := |xs|;
      assert forall i :: 0 <= i < n - 1 ==> xs[..n - 1][i] == xs[i];
      SumConstant(xs[..n - 1], c);
      assert (n as real) * c == ((n - 1) as real) * c + c;
    }
  }

  /** The arithmetic mean of a window of `period` values; it lies between
      the window's least and greatest value. */
  function Mean(xs: seq<real>): (m: real)
    requires |xs| > 0
    ensures Min(xs) <= m <= Max(xs)
  {
    AverageBounds(xs, Min(xs), Max(xs));
    Sum(xs) / (|xs| as real)
  }

  // The sum of a non-empty window of values in [lo, hi] divided by its
  // length lies in [lo, hi].
  lemma AverageBounds(xs: seq<real>, lo: real, hi: real)
    requires |xs| > 0
    requires forall i :: 0 <= i < |xs| ==> lo <= xs[i] <= hi
    ensures lo <= Sum(xs) / (|xs| as real) <= hi
  {
    SumBounds(xs, lo, hi);
    DivideBounds(|xs| as real, lo, Sum(xs), hi);
  }

  /** The mean of a non-empty window of values in [lo, hi] lies in [lo, hi]:
      a moving average never leaves the band of the data it averages. */
  lemma MeanWithin(xs: seq<real>, lo: real, hi: real)
    requires |xs| > 0
    requires forall i :: 0 <= i < |xs| ==> lo <= xs[i] <= hi
    ensures lo <= Mean(xs) <= hi
  {
    AverageBounds(xs, lo, hi);
  }

  // From n*lo <= total <= n*hi with n > 0, dividing by n.
  lemma DivideBounds(n: real, lo: real, total: real, hi: real)
    requires n > 0.0 && n * lo <= total <= n * hi
    ensures lo <= total / n <= hi
  {
    assert total / n - lo == (total - n * lo) / n;
    assert hi - total / n == (n * hi - total) / n;
  }

  /** The mean of a constant window is that constant. */
  lemma MeanConstant(xs: seq<real>, c: real)
    requires |xs| > 0
    requires forall i :: 0 <= i < |xs| ==> xs[i] == c
    ensures Mean(xs) == c
  {
    SumConstant(xs, c);
  }
}
