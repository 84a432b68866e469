// The synthetic area chart: a capped buffer of points with consecutive x
// indices, seeded by a smoothed random walk and extended one point per step,
// the trailing view window the renderer maps, and its moving average.
//
// Every `Math.random()` draw and every `Math.sin(...)` value is a parameter;
// values are reals. Painting on the canvas is not modelled.
module NeonArea {
  import opened SeriesMath

  const SeedCount: nat := 220       // points generated before the first frame
  const SeedValue: real := 100.0
  const SeedDrift: real := 0.002
  const Smoothing: real := 0.9      // momentum decay of the seeded walk
  const Noise: real := 0.02         // scale of a centred random draw
  const StepDrift: real := 0.0015
  const SineDrift: real := 0.001
  const Capacity: nat := 240        // points kept
  const ViewSize: nat := 140        // points drawn
  const Speed: real := 0.06         // time advance per frame
  const MinRange: real := 0.000001  // the 1e-6 floor of the value range
  const PadY: real := 60.0

  datatype Point = Point(x: int, y: real)

  /** x indices go up by one from each point to the next. */
  predicate Consecutive(ps: seq<Point>)
  {
    forall k :: 0 <= k < |ps| ==> ps[k].x == ps[0].x + k
  }

  function Ys(ps: seq<Point>): seq<real>
  {
    seq(|ps|, i requires 0 <= i < |ps| => ps[i].y)
  }

  /** The seeded walk's momentum after one more draw: the old momentum
      decays and a centred draw is added; it stays within [-0.1, 0.1]. */
  function NextMomentum(m: real, rnd: real): (m': real)
    ensures -0.1 <= m <= 0.1 && InUnit(rnd) ==> -0.1 <= m' <= 0.1
  {
    m * Smoothing + (rnd - 0.5) * Noise
  }

  /** The seeded walk's next value under momentum `m`; it stays positive
      while the momentum stays within [-0.1, 0.1]. */
  function NextValue(v: real, m: real): (v': real)
    ensures v > 0.0 && -0.1 <= m ==> v' > 0.0
  {
    v * (1.0 + SeedDrift + m)
  }

  /** The seeded walk from index `x`, value `v` and momentum `m`: each draw
      first updates the momentum, then the value, and the point is recorded. */
  function Series(x: int, v: real, m: real, draws: seq<real>): (ps: seq<Point>)
    ensures |ps| == |draws|
    ensures forall k :: 0 <= k < |ps| ==> ps[k].x == x + k
    decreases |draws|
  {
    if draws == [] then []
    else
      var m' := NextMomentum(m, draws[0]);
      var v' := NextValue(v, m');
      [Point(x, v')] + Series(x + 1, v', m', draws[1..])
  }

  /** The seeded walk stays positive: from a positive value and a momentum
      within [-0.1, 0.1], every point is positive for draws in [0, 1). */
  lemma {:induction false} SeriesPositive(x: int, v: real, m: real, draws: seq<real>)
    requires v > 0.0 && -0.1 <= m <= 0.1
    requires forall i :: 0 <= i < |draws| ==> InUnit(draws[i])
    ensures forall k :: 0 <= k < |draws| ==> Series(x, v, m, draws)[k].y > 0.0
    decreases |draws|
  {
    if draws != [] {
      var m' := NextMomentum(m, draws[0]);
      var v' := NextValue(v, m');
      SeriesPositive(x + 1, v', m', draws[1..]);
      assert Series(x, v, m, draws) == [Point(x, v')] + Series(x + 1, v', m', draws[1..]);
    }
  }

  function Pow(b: real, n: nat): real
  {
    if n == 0 then 1.0 else b * Pow(b, n - 1)
  }

  /** With every draw at 0.5 (no noise) and no momentum the seeded walk is a
      geometric progression: the k-th point is v * 1.002^(k+1). */
  lemma {:induction false} SeriesGeometric(x: int, v: real, draws: seq<real>)
    requires forall i :: 0 <= i < |draws| ==> draws[i] == 0.5
    ensures forall k :: 0 <= k < |draws| ==>
      Series(x, v, 0.0, draws)[k].y == v * Pow(1.0 + SeedDrift, k + 1)
    decreases |draws|
  {
    if draws != [] {
      var b := 1.0 + SeedDrift;
      assert NextMomentum(0.0, draws[0]) == 0.0;
      var v' := NextValue(v, 0.0);
      assert v' == v * b;
      SeriesGeometric(x + 1, v', draws[1..]);
      var rest := Series(x + 1, v', 0.0, draws[1..]);
      var ps := Series(x, v, 0.0, draws);
      assert ps == [Point(x, v')] + rest;
      forall k | 0 <= k < |draws|
        ensures ps[k].y == v * Pow(b, k + 1)
      {
        if k > 0 {
          assert ps[k] == rest[k - 1];
          assert (v * b) * Pow(b, k) == v * (b * Pow(b, k));
        }
      }
    }
  }

  /** The point one step appends after `last`, from a random draw `rnd` and
      the value `sine` of `Math.sin(time * 0.05)`. */
  function NextPoint(last: Point, rnd: real, sine: real): (p: Point)
    ensures p.x == last.x + 1
    ensures last.y > 0.0 && InUnit(rnd) && -1.0 <= sine <= 1.0 ==> p.y > 0.0
  {
    var drift := StepDrift + sine * SineDrift;
    var momentum := (rnd - 0.5) * Noise;
    var factor := 1.0 + drift + momentum;
    assert InUnit(rnd) && -1.0 <= sine <= 1.0 ==> factor > 0.0;
    Point(last.x + 1, last.y * factor)
  }

  /** One step on a buffer within its cap with consecutive x indices leaves a
      non-empty buffer within its cap with consecutive x indices, ending with
      the new point. */
  lemma StepKeepsShape(ps: seq<Point>, rnd: real, sine: real)
    requires 0 < |ps| <= Capacity && Consecutive(ps)
    ensures var q := Retain(ps + [NextPoint(ps[|ps| - 1], rnd, sine)], Capacity);
      0 < |q| <= Capacity && Consecutive(q) &&
      q[|q| - 1] == NextPoint(ps[|ps| - 1], rnd, sine)
  {
    var p := NextPoint(ps[|ps| - 1], rnd, sine);
    var all := ps + [p];
    assert Consecutive(all);
    PushRetain(ps, p, Capacity);
    var q := Retain(all, Capacity);
    assert q == all[|all| - |q|..];
  }

  /** The trailing window the renderer maps: the last ViewSize points, or
      all of them when there are fewer. */
  function View(ps: seq<Point>): (w: seq<Point>)
    ensures |w| == if |ps| < ViewSize then |ps| else ViewSize
    ensures w == ps[|ps| - |w|..]
  {
    var start := if |ps| - ViewSize > 0 then |ps| - ViewSize else 0;
    ps[start..]
  }

  /** The value range drawn: max - min, but never below MinRange. */
  function Range(lo: real, hi: real): (r: real)
    ensures r >= MinRange && r >= hi - lo
    ensures r == MinRange || r == hi - lo
  {
    if MinRange > hi - lo then MinRange else hi - lo
  }

  /** The pixel row of value `y`: the lowest value is drawn PadY above the
      bottom and, when the range is not clamped, the highest PadY below the
      top. */
  function AreaMapY(y: real, lo: real, hi: real, height: real): (row: real)
    ensures y == lo ==> row == height - PadY
    ensures y == hi && hi - lo >= MinRange ==> row == PadY
  {
    assert hi - lo >= MinRange ==> (hi - lo) / Range(lo, hi) == 1.0;
    height - PadY - ((y - lo) / Range(lo, hi)) * (height - 2.0 * PadY)
  }

  /** On a canvas taller than both paddings, higher values are drawn
      strictly higher up. */
  lemma AreaMapYDecreasing(p: real, q: real, lo: real, hi: real, height: real)
    requires p < q && height > 2.0 * PadY
    ensures AreaMapY(q, lo, hi, height) < AreaMapY(p, lo, hi, height)
  {
    var r, k := Range(lo, hi), height - 2.0 * PadY;
    var a, b, c := (p - lo) / r, (q - lo) / r, (q - p) / r;
    assert b - a == c;
    assert c > 0.0 && k > 0.0;
    assert c * k > 0.0;
    assert b * k - a * k == c * k;
    assert AreaMapY(p, lo, hi, height) == height - PadY - a * k;
    assert AreaMapY(q, lo, hi, height) == height - PadY - b * k;
  }

  /** The pixel column of the `i`-th of `n` drawn points. */
  function AreaMapX(i: nat, n: nat, width: real): (x: real)
    requires n >= 2
    ensures i == 0 ==> x == 0.0
    ensures i == n - 1 ==> x == width
    ensures i < n && width >= 0.0 ==> 0.0 <= x <= width
  {
    (i as real / (n - 1) as real) * width
  }

  /** Every moving-average value lies between the least and the greatest
      value of the data it is taken over, so the overlay stays inside the
      band the series is mapped to. */
  lemma AverageInBand(data: seq<Point>, k: nat, period: nat)
    requires 0 < period && k + period <= |data|
    ensures Min(Ys(data)) <= Mean(Ys(data[k..k + period])) <= Max(Ys(data))
  {
    var ys, window := Ys(data), Ys(data[k..k + period]);
    forall j | 0 <= j < |window|
      ensures Min(ys) <= window[j] <= Max(ys)
    {
      assert window[j] == ys[k + j];
    }
    MeanWithin(window, Min(ys), Max(ys));
  }

  /** The moving average of a constant series is that constant. */
  lemma AverageOfConstant(data: seq<Point>, k: nat, period: nat, c: real)
    requires 0 < period && k + period <= |data|
    requires forall i :: 0 <= i < |data| ==> data[i].y == c
    ensures Mean(Ys(data[k..k + period])) == c
  {
    var window := Ys(data[k..k + period]);
    assert forall j :: 0 <= j < |window| ==> window[j] == data[k + j].y;
    MeanConstant(window, c);
  }

  /** The values the moving-average overlay plots: nothing when there are
      fewer than `period` points, else one average per index i from
      period - 1 on, the mean of the `period` values ending at i. */
  method MovingAverage(data: seq<Point>, period: nat) returns (avgs: seq<real>)
    requires period > 0
    ensures |avgs| == if |data| < period then 0 else |data| - period + 1
    ensures forall k :: 0 <= k < |avgs| ==> avgs[k] == Mean(Ys(data[k..k + period]))
  {
    avgs := [];
    if |data| < period {
      return;
    }
    var i := period - 1;
    while i < |data|
      invariant period - 1 <= i <= |data|
      invariant |avgs| == i - period + 1
      invariant forall k :: 0 <= k < |avgs| ==> avgs[k] == Mean(Ys(data[k..k + period]))
    {
      var slice := data[i - period + 1..i + 1];
      var avg := Sum(Ys(slice)) / period as real;
      avgs := avgs + [avg];
      i := i + 1;
    }
  }

  class AreaChart {
    var points: seq<Point>
    var time: real

    /** The buffer is non-empty, within its cap, and its x indices are
        consecutive. */
    ghost predicate Valid()
      reads this
    {
      0 < |points| <= Capacity && Consecutive(points)
    }

    /** Field set-up followed by `init()`, given the draws of the seeded
        walk. */
    constructor (draws: seq<real>)
      requires |draws| == SeedCount
      ensures Valid()
      ensures points == Series(0, SeedValue, 0.0, draws) && time == 0.0
    {
      points := [];
      time := 0.0;
      new;
      GenerateSeries(draws);
    }

    /** Replaces the buffer by SeedCount points of the seeded walk with x
        indices 0, 1, ..., SeedCount - 1. */
    method GenerateSeries(draws: seq<real>)
      requires |draws| == SeedCount
      modifies this`points
      ensures points == Series(0, SeedValue, 0.0, draws)
      ensures |points| == SeedCount && forall k :: 0 <= k < SeedCount ==> points[k].x == k
    {
      var v := SeedValue;
      var momentum := 0.0;
      points := [];
      var i := 0;
      assert draws[0..] == draws;
      while i < SeedCount
        invariant 0 <= i <= SeedCount
        invariant points + Series(i, v, momentum, draws[i..]) == Series(0, SeedValue, 0.0, draws)
      {
        ghost var v0, m0 := v, momentum;
        momentum := NextMomentum(momentum, draws[i]);
        v := NextValue(v, momentum);
        assert draws[i..][1..] == draws[i + 1..];
        ghost var rest := Series(i + 1, v, momentum, draws[i + 1..]);
        assert Series(i, v0, m0, draws[i..]) == [Point(i, v)] + rest;
        assert points + [Point(i, v)] + rest == points + ([Point(i, v)] + rest);
        points := points + [Point(i, v)];
        i := i + 1;
      }
    }

    /** Appends the next point after the last one and drops the oldest when
        the buffer is over its cap. */
    method StepSeries(rnd: real, sine: real)
      requires |points| > 0
      modifies this`points
      ensures points == Retain(old(points) + [NextPoint(old(points)[|old(points)| - 1], rnd, sine)], Capacity)
    {
      var last := points[|points| - 1];
      var drift := StepDrift + sine * SineDrift;
      var momentum := (rnd - 0.5) * Noise;
      var next := last.y * (1.0 + drift + momentum);
      assert Point(last.x + 1, next) == NextPoint(last, rnd, sine);
      points := points + [Point(last.x + 1, next)];
      if |points| > Capacity {
        points := points[1..];
      }
    }

    /** One frame (drawing aside): two steps, both seeing the same `time`,
        then time advances by Speed. */
    method Animate(rnd1: real, rnd2: real, sine: real)
      requires Valid()
      modifies this
      ensures Valid()
      ensures var once := Retain(old(points) + [NextPoint(old(points)[|old(points)| - 1], rnd1, sine)], Capacity);
        points == Retain(once + [NextPoint(once[|once| - 1], rnd2, sine)], Capacity)
      ensures time == old(time) + Speed
    {
      StepKeepsShape(points, rnd1, sine);
      StepSeries(rnd1, sine);
      StepKeepsShape(points, rnd2, sine);
      StepSeries(rnd2, sine);
      time := time + Speed;
    }

    /** The least and greatest value over the trailing view window. */
    method GetMinMax() returns (lo: real, hi: real)
      requires |points| > 0
      ensures lo == Min(Ys(View(points))) && hi == Max(Ys(View(points)))
      ensures lo <= hi
    {
      var start := if |points| - ViewSize > 0 then |points| - ViewSize else 0;
      var slice := points[start..];
      assert slice == View(points);
      lo, hi := slice[0].y, slice[0].y;
      ghost var at, ah := 0, 0;  // where the current lo and hi were found
      var i := 1;
      while i < |slice|
        invariant 1 <= i <= |slice|
        invariant 0 <= at < i && lo == slice[at].y
        invariant 0 <= ah < i && hi == slice[ah].y
        invariant forall j :: 0 <= j < i ==> lo <= slice[j].y <= hi
      {
        var p := slice[i];
        lo := if p.y < lo then p.y else lo;
        if p.y < slice[at].y { at := i; }
        hi := if p.y > hi then p.y else hi;
        if p.y > slice[ah].y { ah := i; }
        i := i + 1;
      }
      ghost var ys := Ys(slice);
      assert ys[at] == lo && ys[ah] == hi;
      MinUnique(ys, lo);
      MaxUnique(ys, hi);
    }
  }
}
