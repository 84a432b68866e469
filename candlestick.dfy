// The synthetic candlestick engine: a bounded FIFO of finalized OHLC bars,
// one forming bar widened by intra-bar ticks, and a frame counter that
// drives a tick cadence and a slower finalize cadence.
//
// Every `Math.random()` draw and every `Math.sin(...)` value the engine
// uses is a parameter; prices are reals.
module Candlestick {
  import opened SeriesMath

  const WindowSize: nat := 100       // finalized bars kept
  const BasePrice: real := 100.0     // price the seeded history starts from
  const Volatility: real := 0.012    // per-bar move of the seeded history
  const WickSpread: real := 0.003    // largest relative wick of a seeded bar
  const PeriodFrames: nat := 240     // frames per finalized bar
  const TickEvery: nat := 2          // frames per intra-bar tick
  const TickVolatility: real := 0.0025
  const Drift: real := 0.0002

  datatype Candle = Candle(open: real, high: real, low: real, close: real)

  /** The OHLC ordering: the wick spans the body. */
  predicate WellFormed(c: Candle)
  {
    c.low <= c.open && c.low <= c.close && c.open <= c.high && c.close <= c.high
  }

  /** A bar opened at `p`: open, high, low and close all equal `p`. */
  function Flat(p: real): (c: Candle)
    ensures WellFormed(c) && c.low == c.high
    ensures c.open == p && c.close == p
  {
    Candle(p, p, p, p)
  }

  /** The relative move of one tick, from a random draw `rnd` and the value
      `sine` of `Math.sin(time * 0.05)`. */
  function TickChange(rnd: real, sine: real): (change: real)
    ensures InUnit(rnd) && -1.0 <= sine <= 1.0 ==> -0.00145 <= change < 0.00145
  {
    (rnd - 0.5) * TickVolatility + Drift * sine
  }

  /** The forming bar after one tick: the close moves by `change` relative to
      the previous close, the open stays, and high and low widen just enough
      to include the new close. */
  function TickBar(c: Candle, change: real): (r: Candle)
    ensures r.open == c.open && r.close == c.close * (1.0 + change)
    ensures c.high <= r.high && r.low <= c.low
    ensures r.high == c.high || r.high == r.close
    ensures r.low == c.low || r.low == r.close
    ensures r.low <= r.close <= r.high
    ensures WellFormed(c) ==> WellFormed(r)
  {
    var next := c.close * (1.0 + change);
    Candle(c.open,
           if next > c.high then next else c.high,
           if next < c.low then next else c.low,
           next)
  }

  /** The forming bar after a run of ticks, first to last. Any run keeps the
      open, only widens the range, keeps a well-formed bar well-formed, and
      after at least one tick the range brackets the close. */
  function Ticks(c: Candle, changes: seq<real>): (r: Candle)
    ensures r.open == c.open && c.high <= r.high && r.low <= c.low
    ensures WellFormed(c) ==> WellFormed(r)
    ensures changes != [] ==> r.low <= r.close <= r.high
    decreases |changes|
  {
    if changes == [] then c else Ticks(TickBar(c, changes[0]), changes[1..])
  }

  /** A bar opened flat at `p` satisfies low <= min(open, close) and
      high >= max(open, close) after any run of ticks, and its open is `p`. */
  lemma FormingBarWellFormed(p: real, changes: seq<real>)
    ensures WellFormed(Ticks(Flat(p), changes)) && Ticks(Flat(p), changes).open == p
  {
  }

  /** The three `Math.random()` draws of one seeded bar, in the order they are
      taken: the move, the upper wick, the lower wick. */
  datatype BarDraw = BarDraw(move: real, up: real, down: real)

  predicate DrawInUnit(d: BarDraw)
  {
    InUnit(d.move) && InUnit(d.up) && InUnit(d.down)
  }

  /** One seeded bar opening at `price`. At a positive price with draws in
      [0, 1) it closes at a positive price within 0.6% of its open, is
      well-formed, and its wicks reach at most WickSpread beyond the body. */
  function HistoryBar(price: real, d: BarDraw): (c: Candle)
    ensures c.open == price
    ensures price > 0.0 && DrawInUnit(d) ==>
      c.close > 0.0 && price * 0.994 <= c.close <= price * 1.006 &&
      WellFormed(c) &&
      c.high <= Top(c) * (1.0 + WickSpread) && c.low >= Bottom(c) * (1.0 - WickSpread)
  {
    var close := price * (1.0 + (d.move - 0.5) * Volatility);
    var top := if price > close then price else close;
    var bottom := if price < close then price else close;
    var high := top * (1.0 + d.up * WickSpread);
    var low := bottom * (1.0 - d.down * WickSpread);
    if price > 0.0 && DrawInUnit(d) then
      SeededBar(price, d, close, top, bottom, high, low);
      Candle(price, high, low, close)
    else
      Candle(price, high, low, close)
  }

  /** The upper and lower end of a bar's body. */
  function Top(c: Candle): real
  {
    if c.open > c.close then c.open else c.close
  }

  function Bottom(c: Candle): real
  {
    if c.open < c.close then c.open else c.close
  }

  // HistoryBar's contract, from its intermediate values.
  lemma SeededBar(price: real, d: BarDraw, close: real, top: real, bottom: real, high: real, low: real)
    requires price > 0.0 && DrawInUnit(d)
    requires close == price * (1.0 + (d.move - 0.5) * Volatility)
    requires top == (if price > close then price else close)
    requires bottom == (if price < close then price else close)
    requires high == top * (1.0 + d.up * WickSpread)
    requires low == bottom * (1.0 - d.down * WickSpread)
    ensures var c := Candle(price, high, low, close);
      c.close > 0.0 && price * 0.994 <= c.close <= price * 1.006 &&
      WellFormed(c) &&
      c.high <= Top(c) * (1.0 + WickSpread) && c.low >= Bottom(c) * (1.0 - WickSpread)
  {
    CloseBounds(price, d.move, close);
    UpperWick(top, d.up, high);
    LowerWick(bottom, d.down, low);
    var c := Candle(price, high, low, close);
    assert Top(c) == top && Bottom(c) == bottom;
  }

  // The arithmetic behind it, one factor at a time.
  lemma CloseBounds(price: real, move: real, close: real)
    requires price > 0.0 && InUnit(move)
    requires close == price * (1.0 + (move - 0.5) * Volatility)
    ensures close > 0.0 && price * 0.994 <= close <= price * 1.006
  {
    var k := 1.0 + (move - 0.5) * Volatility;
    assert 0.994 <= k <= 1.006;
    Scale(price, 0.994, k);
    Scale(price, k, 1.006);
  }

  lemma UpperWick(top: real, up: real, high: real)
    requires top > 0.0 && InUnit(up)
    requires high == top * (1.0 + up * WickSpread)
    ensures top <= high <= top * (1.0 + WickSpread)
  {
    var k := 1.0 + up * WickSpread;
    assert 1.0 <= k <= 1.0 + WickSpread;
    Scale(top, 1.0, k);
    Scale(top, k, 1.0 + WickSpread);
  }

  lemma LowerWick(bottom: real, down: real, low: real)
    requires bottom > 0.0 && InUnit(down)
    requires low == bottom * (1.0 - down * WickSpread)
    ensures bottom * (1.0 - WickSpread) <= low <= bottom
  {
    var k := 1.0 - down * WickSpread;
    assert 1.0 - WickSpread <= k <= 1.0;
    Scale(bottom, 1.0 - WickSpread, k);
    Scale(bottom, k, 1.0);
  }

  // Multiplying by a non-negative number keeps an order.
  lemma Scale(a: real, x: real, y: real)
    requires a >= 0.0 && x <= y
    ensures a * x <= a * y
  {
    assert a * y - a * x == a * (y - x);
  }

  /** The seeded history: one bar per draw, each opening at the previous
      bar's close, the first at `price`. */
  function History(price: real, draws: seq<BarDraw>): (h: seq<Candle>)
    ensures |h| == |draws|
    decreases |draws|
  {
    if draws == [] then []
    else
      var first := HistoryBar(price, draws[0]);
      [first] + History(first.close, draws[1..])
  }

  /** The seeded history is chained: it opens at `price`, each bar opens at
      the previous bar's close, and each bar is the seeded bar of its draw. */
  lemma {:induction false} HistoryShape(price: real, draws: seq<BarDraw>)
    ensures var h := History(price, draws);
      (|h| > 0 ==> h[0].open == price) &&
      (forall i :: 0 <= i < |h| - 1 ==> h[i + 1].open == h[i].close) &&
      (forall i :: 0 <= i < |h| ==> h[i] == HistoryBar(h[i].open, draws[i]))
    decreases |draws|
  {
    if draws != [] {
      var first := HistoryBar(price, draws[0]);
      var rest := History(first.close, draws[1..]);
      HistoryShape(first.close, draws[1..]);
      assert History(price, draws) == [first] + rest;
    }
  }

  /** From a positive price with draws in [0, 1), every seeded bar is
      well-formed and has a positive close. */
  lemma {:induction false} HistoryWellFormed(price: real, draws: seq<BarDraw>)
    requires price > 0.0
    requires forall i :: 0 <= i < |draws| ==> DrawInUnit(draws[i])
    ensures forall i :: 0 <= i < |draws| ==>
      WellFormed(History(price, draws)[i]) && History(price, draws)[i].close > 0.0
    decreases |draws|
  {
    if draws != [] {
      var first := HistoryBar(price, draws[0]);
      HistoryWellFormed(first.close, draws[1..]);
      assert History(price, draws) == [first] + History(first.close, draws[1..]);
    }
  }

  function Lows(cs: seq<Candle>): seq<real>
  {
    seq(|cs|, i requires 0 <= i < |cs| => cs[i].low)
  }

  function Highs(cs: seq<Candle>): seq<real>
  {
    seq(|cs|, i requires 0 <= i < |cs| => cs[i].high)
  }

  /** The price range the renderer maps: the least low and the greatest high
      of the finalized bars, widened by 1 on each side when they coincide. */
  function PriceRange(cs: seq<Candle>): (r: (real, real))
    requires |cs| > 0
    ensures forall i :: 0 <= i < |cs| ==> r.0 <= cs[i].low && cs[i].high <= r.1
    ensures WellFormed(cs[0]) ==> r.0 < r.1
    ensures Min(Lows(cs)) != Max(Highs(cs)) ==>
      (exists i :: 0 <= i < |cs| && cs[i].low == r.0) &&
      (exists i :: 0 <= i < |cs| && cs[i].high == r.1)
    ensures Min(Lows(cs)) == Max(Highs(cs)) ==>
      r.0 == Min(Lows(cs)) - 1.0 && r.1 == Max(Highs(cs)) + 1.0
  {
    assert forall i :: 0 <= i < |cs| ==> Lows(cs)[i] == cs[i].low && Highs(cs)[i] == cs[i].high;
    var m, M := Min(Lows(cs)), Max(Highs(cs));
    if m == M then (m - 1.0, M + 1.0) else (m, M)
  }

  /** Finalizing a well-formed bar into a buffer of well-formed bars within
      its cap leaves a buffer of well-formed bars within its cap. */
  lemma FinalizeKeepsBars(before: seq<Candle>, formed: Candle)
    requires |before| <= WindowSize && WellFormed(formed)
    requires forall i :: 0 <= i < |before| ==> WellFormed(before[i])
    ensures var after := Retain(before + [formed], WindowSize);
      |after| <= WindowSize && forall i :: 0 <= i < |after| ==> WellFormed(after[i])
  {
    var all := before + [formed];
    assert forall i :: 0 <= i < |all| ==> WellFormed(all[i]);
    PushRetain(before, formed, WindowSize);
  }

  /** The arithmetic behind the frame cadence: across one frame the tick and
      finalize counts go up exactly when the new frame number is a multiple
      of their period, every finalize frame is also a tick frame, and the
      bar finalized there has received PeriodFrames / TickEvery ticks. */
  lemma CadenceStep(f: nat)
    ensures (f + 1) / TickEvery == f / TickEvery + (if (f + 1) % TickEvery == 0 then 1 else 0)
    ensures (f + 1) / PeriodFrames == f / PeriodFrames + (if (f + 1) % PeriodFrames == 0 then 1 else 0)
    ensures (f + 1) % PeriodFrames == 0 ==>
      (f + 1) % TickEvery == 0 && (f % PeriodFrames) / TickEvery + 1 == PeriodFrames / TickEvery
    ensures (f + 1) % PeriodFrames != 0 ==>
      ((f + 1) % PeriodFrames) / TickEvery
        == (f % PeriodFrames) / TickEvery + (if (f + 1) % TickEvery == 0 then 1 else 0)
  {
    TickDivStep(f);
    PeriodDivStep(f);
    var r := f % PeriodFrames;
    if (f + 1) % PeriodFrames == 0 {
      assert r == PeriodFrames - 1;
      TickDividesPeriod(f + 1);
    } else {
      assert (f + 1) % PeriodFrames == r + 1;
      TickDivStep(r);
      PeriodKeepsParity(f);
    }
  }

  // Moving from `f` to `f + 1` raises `f / TickEvery` exactly when `f + 1`
  // is a multiple of TickEvery.
  lemma TickDivStep(f: nat)
    ensures (f + 1) / TickEvery == f / TickEvery + (if (f + 1) % TickEvery == 0 then 1 else 0)
    ensures (f + 1) % TickEvery == if f % TickEvery == TickEvery - 1 then 0 else f % TickEvery + 1
  {
    var q, r := f / TickEvery, f % TickEvery;
    assert f == TickEvery * q + r;
  }

  // The same for PeriodFrames.
  lemma PeriodDivStep(f: nat)
    ensures (f + 1) / PeriodFrames == f / PeriodFrames + (if (f + 1) % PeriodFrames == 0 then 1 else 0)
    ensures (f + 1) % PeriodFrames == if f % PeriodFrames == PeriodFrames - 1 then 0 else f % PeriodFrames + 1
  {
    var q, r := f / PeriodFrames, f % PeriodFrames;
    assert f == PeriodFrames * q + r;
  }

  // A multiple of PeriodFrames is a multiple of TickEvery.
  lemma TickDividesPeriod(n: nat)
    requires n % PeriodFrames == 0
    ensures n % TickEvery == 0
  {
    var q := n / PeriodFrames;
    assert n == TickEvery * (q * (PeriodFrames / TickEvery));
  }

  // Taking the frame number modulo PeriodFrames does not change whether the
  // next frame is a tick frame.
  lemma PeriodKeepsParity(f: nat)
    ensures ((f % PeriodFrames) + 1) % TickEvery == (f + 1) % TickEvery
  {
    var q, r := f / PeriodFrames, f % PeriodFrames;
    var a, b := (r + 1) / TickEvery, (r + 1) % TickEvery;
    assert r + 1 == TickEvery * a + b;
    assert f + 1 == TickEvery * (q * (PeriodFrames / TickEvery) + a) + b;
    ParityUnique(f + 1, q * (PeriodFrames / TickEvery) + a, b);
  }

  // The remainder modulo TickEvery is unique.
  lemma ParityUnique(n: nat, q: nat, r: nat)
    requires n == TickEvery * q + r && r < TickEvery
    ensures n % TickEvery == r
  {
  }

  /** The engine's state invariant on values: the buffer respects its cap,
      every bar is well-formed, the tick count equals the frames divided by
      TickEvery, the forming bar has received one tick per tick frame since
      the last finalize frame, and each finalize frame so far finalized a bar
      that had received PeriodFrames / TickEvery ticks. */
  ghost predicate Consistent(bars: seq<Candle>, forming: Candle, formingTicks: nat,
                             frames: nat, time: nat, finalized: seq<nat>)
  {
    |bars| <= WindowSize &&
    (forall i :: 0 <= i < |bars| ==> WellFormed(bars[i])) &&
    WellFormed(forming) &&
    time == frames / TickEvery &&
    formingTicks == (frames % PeriodFrames) / TickEvery &&
    |finalized| == frames / PeriodFrames &&
    (forall i :: 0 <= i < |finalized| ==> finalized[i] == PeriodFrames / TickEvery)
  }

  /** The engine's state as values: the finalized bars and the forming bar. */
  datatype Engine = Engine(bars: seq<Candle>, forming: Candle)

  /** One frame after `frames` earlier ones: tick when the new frame number
      is a multiple of TickEvery, then finalize when it is a multiple of
      PeriodFrames. A finalize pushes the ticked forming bar, keeping the
      older bars but the one shifted over the cap, and opens a flat bar at
      its close. Otherwise the buffer stays and the forming bar keeps its
      open. A frame that does neither changes nothing. */
  function FrameNext(e: Engine, frames: nat, change: real): (r: Engine)
    ensures (frames + 1) % PeriodFrames == 0 ==>
      |r.bars| > 0 && r.bars[|r.bars| - 1].open == e.forming.open &&
      r.forming == Flat(r.bars[|r.bars| - 1].close)
    ensures (frames + 1) % PeriodFrames == 0 ==> r.bars[|r.bars| - 1] == TickBar(e.forming, change)
    ensures (frames + 1) % PeriodFrames == 0 && |e.bars| <= WindowSize ==>
      |r.bars| <= WindowSize &&
      r.bars[..|r.bars| - 1] == (if |e.bars| < WindowSize then e.bars else e.bars[1..])
    ensures (frames + 1) % TickEvery == 0 && (frames + 1) % PeriodFrames != 0 ==>
      r.forming == TickBar(e.forming, change)
    ensures (frames + 1) % PeriodFrames != 0 ==>
      r.bars == e.bars && r.forming.open == e.forming.open
    ensures (frames + 1) % TickEvery != 0 && (frames + 1) % PeriodFrames != 0 ==> r == e
  {
    var f := frames + 1;
    var formed := if f % TickEvery == 0 then TickBar(e.forming, change) else e.forming;
    assert formed.open == e.forming.open;
    if f % PeriodFrames == 0 then
      TickDividesPeriod(f);
      var all := e.bars + [formed];
      var kept := Retain(all, WindowSize);
      assert kept == all[|all| - |kept|..] && |kept| > 0;
      assert kept[|kept| - 1] == all[|all| - 1] == formed;
      Engine(kept, Flat(formed.close))
    else
      Engine(e.bars, formed)
  }

  /** The state after one frame per draw, starting after `frames` frames. */
  function Run(e: Engine, frames: nat, draws: seq<TickDraw>): Engine
    decreases |draws|
  {
    if draws == [] then e
    else Run(FrameNext(e, frames, TickChange(draws[0].rnd, draws[0].sine)), frames + 1, draws[1..])
  }

  /** The forming bar opens at the close of the newest finalized bar. */
  predicate Chained(e: Engine)
  {
    |e.bars| > 0 ==> e.forming.open == e.bars[|e.bars| - 1].close
  }

  /** Any run of frames keeps the forming bar chained to the newest
      finalized bar, so the bars on screen form one continuous price path. */
  lemma {:induction false} RunChained(e: Engine, frames: nat, draws: seq<TickDraw>)
    requires Chained(e)
    ensures Chained(Run(e, frames, draws))
    decreases |draws|
  {
    if draws != [] {
      var next := FrameNext(e, frames, TickChange(draws[0].rnd, draws[0].sine));
      assert Chained(next);
      RunChained(next, frames + 1, draws[1..]);
    }
  }

  /** One frame keeps the invariant. */
  lemma FrameStep(bars: seq<Candle>, forming: Candle, formingTicks: nat,
                  frames: nat, time: nat, finalized: seq<nat>, change: real)
    requires Consistent(bars, forming, formingTicks, frames, time, finalized)
    ensures var f := frames + 1;
      var tick := f % TickEvery == 0;
      var r := FrameNext(Engine(bars, forming), frames, change);
      var ticks := if tick then formingTicks + 1 else formingTicks;
      var t := if tick then time + 1 else time;
      if f % PeriodFrames == 0 then
        Consistent(r.bars, r.forming, 0, f, t, finalized + [ticks])
      else
        Consistent(r.bars, r.forming, ticks, f, t, finalized)
  {
    CadenceStep(frames);
    var f := frames + 1;
    var formed := if f % TickEvery == 0 then TickBar(forming, change) else forming;
    if f % PeriodFrames == 0 {
      FinalizeKeepsBars(bars, formed);
    }
  }

  /** The single bar being formed; `tickCandle` updates its fields in place. */
  class FormingCandle {
    var open: real
    var high: real
    var low: real
    var close: real
    ghost var ticks: nat  // ticks received since it was opened

    constructor (price: real)
      ensures Snapshot() == Flat(price) && ticks == 0
    {
      open, high, low, close := price, price, price, price;
      ticks := 0;
    }

    /** The value `{ ...currentCandle }` copies. */
    function Snapshot(): Candle
      reads this
    {
      Candle(open, high, low, close)
    }
  }

  /** The values one intra-bar tick reads: a `Math.random()` draw and the
      value of `Math.sin(time * 0.05)`. */
  datatype TickDraw = TickDraw(rnd: real, sine: real)

  class CandlestickChart {
    var candles: seq<Candle>          // finalized bars, oldest first
    var current: FormingCandle?       // the forming bar
    var frameCount: nat
    var time: nat
    ghost var finalizedTicks: seq<nat>  // ticks each bar finalized by a frame received

    /** The engine's invariant: the buffer respects its cap, every bar is
        well-formed, a forming bar exists, and the counters agree with the
        number of frames run since construction. */
    ghost predicate Valid()
      reads this, current
    {
      current != null &&
      Consistent(candles, current.Snapshot(), current.ticks, frameCount, time, finalizedTicks)
    }

    /** Field set-up followed by `init()`, given the draws of the seeded
        history. */
    constructor (draws: seq<BarDraw>)
      requires |draws| == WindowSize
      requires forall i :: 0 <= i < |draws| ==> DrawInUnit(draws[i])
      ensures Valid()
      ensures candles == History(BasePrice, draws)
      ensures fresh(current) && current.Snapshot() == Flat(candles[|candles| - 1].close)
      ensures frameCount == 0 && finalizedTicks == []
    {
      candles := [];
      current := null;
      frameCount := 0;
      time := 0;
      finalizedTicks := [];
      new;
      Init(draws);
      HistoryWellFormed(BasePrice, draws);
    }

    /** Seeds the history and opens the forming bar flat at the last close.
        The source's fallback price of 100 for an empty buffer is kept in the
        body, but that branch cannot run: seeding always appends bars. */
    method Init(draws: seq<BarDraw>)
      requires |draws| == WindowSize
      modifies this
      ensures candles == old(candles) + History(BasePrice, draws)
      ensures fresh(current) && current.ticks == 0
      ensures current.Snapshot() == Flat(candles[|candles| - 1].close)
      ensures frameCount == old(frameCount) && time == old(time)
      ensures finalizedTicks == old(finalizedTicks)
    {
      GenerateInitialCandles(draws);
      var o := if |candles| > 0 then candles[|candles| - 1].close else 100.0;
      current := new FormingCandle(o);
    }

    /** Appends `WindowSize` seeded bars, each opening at the previous close. */
    method GenerateInitialCandles(draws: seq<BarDraw>)
      requires |draws| == WindowSize
      modifies this`candles
      ensures candles == old(candles) + History(BasePrice, draws)
    {
      var price := BasePrice;
      var i := 0;
      assert draws[0..] == draws;
      while i < WindowSize
        invariant 0 <= i <= WindowSize
        invariant candles + History(price, draws[i..]) == old(candles) + History(BasePrice, draws)
      {
        var bar := HistoryBar(price, draws[i]);
        assert draws[i..][1..] == draws[i + 1..];
        assert History(price, draws[i..]) == [bar] + History(bar.close, draws[i + 1..]);
        assert candles + [bar] + History(bar.close, draws[i + 1..])
            == candles + ([bar] + History(bar.close, draws[i + 1..]));
        candles := candles + [bar];
        price := bar.close;
        i := i + 1;
      }
    }

    /** Finalizes the forming bar: a copy of it is pushed, the oldest bar is
        dropped when the buffer is over its cap, and a new bar opens flat at
        the finalized close. Nothing happens without a forming bar. */
    method PushCandle()
      modifies this`candles, this`current, this`finalizedTicks
      ensures old(current) == null ==>
        candles == old(candles) && current == null && finalizedTicks == old(finalizedTicks)
      ensures old(current) != null ==>
        candles == Retain(old(candles) + [old(current.Snapshot())], WindowSize) &&
        fresh(current) && current.Snapshot() == Flat(old(current.close)) && current.ticks == 0 &&
        finalizedTicks == old(finalizedTicks) + [old(current.ticks)]
    {
      if current == null {
        return;
      }
      var finalized := current.Snapshot();
      candles := candles + [finalized];
      if |candles| > WindowSize {
        candles := candles[1..];
      }
      finalizedTicks := finalizedTicks + [current.ticks];
      var o := finalized.close;
      current := new FormingCandle(o);
    }

    /** One intra-bar tick on the forming bar, in place. Nothing happens
        without a forming bar. */
    method TickCandle(rnd: real, sine: real)
      modifies current
      ensures current != null ==>
        current.Snapshot() == TickBar(old(current.Snapshot()), TickChange(rnd, sine)) &&
        current.ticks == old(current.ticks) + 1
    {
      if current == null {
        return;
      }
      var change := (rnd - 0.5) * TickVolatility + Drift * sine;
      var prevClose := current.close;
      var nextClose := prevClose * (1.0 + change);
      current.close := nextClose;
      if nextClose > current.high {
        current.high := nextClose;
      }
      if nextClose < current.low {
        current.low := nextClose;
      }
      current.ticks := current.ticks + 1;
    }

    /** One frame of the animation loop (drawing aside): count the frame,
        tick on every TickEvery-th frame, then finalize on every
        PeriodFrames-th frame, so a bar finalized on a tick frame includes
        that tick. */
    method Animate(rnd: real, sine: real)
      requires Valid()
      modifies this, current
      ensures Valid()
      ensures frameCount == old(frameCount) + 1
      ensures time == old(time) + (if frameCount % TickEvery == 0 then 1 else 0)
      ensures |finalizedTicks| == |old(finalizedTicks)| + (if frameCount % PeriodFrames == 0 then 1 else 0)
      ensures Engine(candles, current.Snapshot())
        == FrameNext(Engine(old(candles), old(current.Snapshot())), old(frameCount), TickChange(rnd, sine))
      ensures if frameCount % PeriodFrames == 0 then fresh(current) else current == old(current)
    {
      FrameStep(candles, current.Snapshot(), current.ticks, frameCount, time, finalizedTicks,
                TickChange(rnd, sine));
      frameCount := frameCount + 1;
      if frameCount % TickEvery == 0 {
        TickCandle(rnd, sine);
        time := time + 1;
      }
      if frameCount % PeriodFrames == 0 {
        PushCandle();
      }
    }

    /** Runs one frame per element of `frames`, the way `requestAnimationFrame`
        chains `animate()` calls. */
    method RunFrames(frames: seq<TickDraw>)
      requires Valid()
      modifies this, current
      ensures Valid()
      ensures frameCount == old(frameCount) + |frames|
      ensures time == (old(frameCount) + |frames|) / TickEvery
      ensures |finalizedTicks| == (old(frameCount) + |frames|) / PeriodFrames
      ensures Chained(Engine(old(candles), old(current.Snapshot()))) ==>
        Chained(Engine(candles, current.Snapshot()))
    {
      ghost var chained := Chained(Engine(candles, current.Snapshot()));
      var i := 0;
      while i < |frames|
        invariant 0 <= i <= |frames|
        invariant Valid()
        invariant frameCount == old(frameCount) + i
        invariant current == old(current) || fresh(current)
        invariant chained ==> Chained(Engine(candles, current.Snapshot()))
      {
        Animate(frames[i].rnd, frames[i].sine);
        i := i + 1;
      }
    }

    /** The least low and greatest high of the finalized bars, widened by 1 on
        both sides for a flat range; the forming bar is not looked at. */
    method GetMinMax() returns (lo: real, hi: real)
      requires |candles| > 0
      ensures (lo, hi) == PriceRange(candles)
      ensures WellFormed(candles[0]) ==> lo < hi
    {
      lo, hi := candles[0].low, candles[0].high;
      ghost var at, ah := 0, 0;  // where the current lo and hi were found
      var i := 1;
      while i < |candles|
        invariant 1 <= i <= |candles|
        invariant 0 <= at < i && lo == candles[at].low
        invariant 0 <= ah < i && hi == candles[ah].high
        invariant forall j :: 0 <= j < i ==> lo <= candles[j].low && candles[j].high <= hi
      {
        var c := candles[i];
        if c.low < lo {
          lo := c.low;
          at := i;
        }
        if c.high > hi {
          hi := c.high;
          ah := i;
        }
        i := i + 1;
      }
      ghost var lows, highs := Lows(candles), Highs(candles);
      assert lows[at] == lo && highs[ah] == hi;
      MinUnique(lows, lo);
      MaxUnique(highs, hi);
      if lo == hi {
        lo, hi := lo - 1.0, hi + 1.0;
      }
    }
  }
}
