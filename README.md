# Neon chart engines

This project models the two synthetic chart engines behind the animated background of a portfolio landing page (`script.js`):

- **The fast candlestick chart.** It keeps a bounded FIFO of finalized OHLC bars, seeded with a chained random history of 100 bars, and a single forming bar. An intra-bar tick moves the forming bar's close and widens its high and low. A frame counter drives two cadences:
  - a tick every 2 frames;
  - a finalize every 240 frames, which pushes a copy of the forming bar, drops the oldest bar over the cap, and opens a new flat bar at the finalized close.

  The renderer maps prices to pixel rows through the least low and greatest high of the finalized bars. A flat range is widened by 1 on each side.
- **The neon area chart.** It keeps a point buffer capped at 240 with consecutive `x` indices. The buffer is seeded by a 220-point smoothed random walk and extended by two points per frame. The renderer maps the last 140 points and overlays a 12-point trailing moving average. The page's load handler only constructs the candlestick chart, but the area chart class is part of the same file and is modelled as written.

Every `Math.random()` draw and every `Math.sin(...)` value is a parameter of the operation that uses it. Prices and values are `real`.

Files:

- `series_math.dfy` (module `SeriesMath`): the push-then-shift-once buffer (`Retain`) and the minimum, maximum, sum and mean over a window.
- `candlestick.dfy` (module `Candlestick`):
  - the `Candle` value and the `FormingCandle` class, whose fields a tick updates in place;
  - the `CandlestickChart` class, with the state invariant `Valid()`;
  - specification functions for the seeded history, a tick and the price range.
- `candle_draw.dfy` (module `CandleDraw`): the candlestick renderer's coordinate arithmetic, covering the price-to-row map and its inverse, body top and height, bullishness, slot positions and body width.
- `area_chart.dfy` (module `NeonArea`):
  - the `Point` value and the seeded walk as a function;
  - the `AreaChart` class with its seeding, stepping and min/max methods;
  - the view window, the moving average, and the row and column maps.

`CandlestickChart.Valid()` carries the cadence invariant, kept on values by `Candlestick.Consistent`:

- after `frameCount` frames, `time` is `frameCount / 2` and `frameCount / 240` bars have been finalized by frames;
- each of those bars received exactly 120 ticks;
- the forming bar has received `(frameCount % 240) / 2` ticks;
- the buffer is within its cap and every bar is well-formed.

Two ghost counters record what the source does not store: `FormingCandle.ticks` and `CandlestickChart.finalizedTicks`.

## Model

| member | source | states |
|---|---|---|
| SeriesMath.Retain | script.js:159 | after a push, at most the single oldest entry is dropped, and only when the length is over the cap; the result is a suffix of the pushed buffer |
| SeriesMath.PushRetain | script.js:233-234 | a push onto a buffer within its cap leaves a non-empty buffer within the cap that ends with the new entry; nothing is dropped below the cap, and exactly the oldest entry is dropped at the cap |
| SeriesMath.Min | script.js:252-256 | the scanned minimum is no greater than every element and equals one of them |
| SeriesMath.Max | script.js:252-256 | the scanned maximum is no less than every element and equals one of them |
| SeriesMath.Sum | script.js:139 | the left-to-right sum from 0 of a window; what it promises is stated by SumBounds and SumConstant |
| SeriesMath.SumBounds | script.js:139 | a window whose values lie in [lo, hi] sums to between n*lo and n*hi |
| SeriesMath.SumConstant | script.js:139 | n copies of c sum to n*c |
| SeriesMath.Mean | script.js:139 | the mean of a non-empty window, its sum over its length, lies between the window's least and greatest value |
| SeriesMath.AverageBounds | script.js:139 | a non-empty window of values in [lo, hi] has its sum over its length in [lo, hi] |
| SeriesMath.MeanWithin | script.js:139 | the mean of a window of values in [lo, hi] lies in [lo, hi] |
| SeriesMath.MeanConstant | script.js:139 | the mean of a constant window is that constant |
| Candlestick.Flat | script.js:211 | a bar opened at p has all four prices equal to p and is well-formed |
| Candlestick.TickChange | script.js:242-243 | a tick's relative move, from a draw in [0, 1) and a sine in [-1, 1], lies in [-0.00145, 0.00145) |
| Candlestick.TickBar | script.js:244-248 | a tick keeps the open and sets the close to prevClose*(1+change); high never decreases, low never increases, each changes only to the new close; the bar brackets its close and stays well-formed |
| Candlestick.Ticks | script.js:239-249 | any run of ticks keeps the open, only widens [low, high], keeps a well-formed bar well-formed, and after at least one tick brackets the close |
| Candlestick.FormingBarWellFormed | script.js:246-248 | a bar opened flat at p keeps low <= min(open, close) and high >= max(open, close) after any run of ticks, with open p |
| Candlestick.HistoryBar | script.js:218-224 | a seeded bar opens at the running price; at a positive price with draws in [0, 1) it closes at a positive price within 0.6% of its open, is well-formed, and its wicks reach at most 0.3% beyond the body |
| Candlestick.History | script.js:217-226 | the seeded history has one bar per draw |
| Candlestick.HistoryShape | script.js:217-226 | the seeded history opens at the start price, each bar opens at the previous close, and each bar is the seeded bar of its draw |
| Candlestick.HistoryWellFormed | script.js:214-227 | from a positive price with draws in [0, 1), every seeded bar is well-formed with a positive close |
| Candlestick.PriceRange | script.js:251-259 | the range bounds every low from below and every high from above; both ends are attained when the least low differs from the greatest high, and otherwise the range is widened to (C-1, C+1); it is a proper interval when the first bar is well-formed |
| Candlestick.FinalizeKeepsBars | script.js:233-234 | finalizing a well-formed bar into a capped buffer of well-formed bars keeps it capped and well-formed |
| Candlestick.CadenceStep | script.js:351-358 | across one frame the tick and finalize counts rise exactly on multiples of 2 and 240; every finalize frame is a tick frame, and the bar finalized there has had 120 ticks |
| Candlestick.TickDividesPeriod | script.js:191-192 | every finalize frame number is also a tick frame number |
| Candlestick.FrameNext | script.js:349-358 | on a finalize frame the forming bar with this frame's tick applied becomes the newest bar, the older bars are kept with at most the oldest shifted away, and a flat bar opens at its close; on a tick-only frame the forming bar becomes its ticked bar; otherwise the buffer stays and the forming bar keeps its open; a frame that neither ticks nor finalizes changes nothing |
| Candlestick.Run | script.js:349-362 | the engine state after one `FrameNext` per draw, frame numbers counting up; what it promises is stated by RunChained |
| Candlestick.RunChained | script.js:349-362 | any run of frames keeps the forming bar opening at the close of the newest finalized bar |
| Candlestick.FrameStep | script.js:349-358 | one frame (tick on every 2nd frame, then finalize on every 240th) preserves the cadence and shape invariant |
| Candlestick.FormingCandle.constructor | script.js:211 | a new forming bar is flat at the given price and has no ticks |
| Candlestick.FormingCandle.Snapshot | script.js:232 | the `{ ...currentCandle }` copy of the forming bar's four prices |
| Candlestick.CandlestickChart.constructor | script.js:176-197 | after set-up and seeding, the invariant holds; the buffer is the seeded history and the forming bar is flat at its last close, with no frames run |
| Candlestick.CandlestickChart.Init | script.js:207-212 | seeding appends the history, and the forming bar opens flat at the last close |
| Candlestick.CandlestickChart.GenerateInitialCandles | script.js:214-227 | the loop appends exactly the seeded history from price 100 |
| Candlestick.CandlestickChart.PushCandle | script.js:229-237 | with a forming bar: a copy of it is pushed through the capped FIFO and a new flat bar opens at its close; without one, nothing changes |
| Candlestick.CandlestickChart.TickCandle | script.js:239-249 | with a forming bar, it becomes the ticked bar in place; without one, nothing changes |
| Candlestick.CandlestickChart.Animate | script.js:349-358 | one frame keeps the invariant and counts the frame, advancing time on tick frames; the new buffer and forming bar are FrameNext of the old ones, and the forming bar object is replaced exactly on finalize frames |
| Candlestick.CandlestickChart.RunFrames | script.js:362 | after N more frames, time is frames / 2 and frames / 240 bars have been finalized, the invariant is kept, and a forming bar chained to the newest bar stays chained |
| Candlestick.CandlestickChart.GetMinMax | script.js:251-259 | the loop computes the price range of the finalized bars only, and it is a proper interval for a well-formed buffer |
| CandleDraw.UsableHeight | script.js:286 | the usable height is the padded height, never below one pixel |
| CandleDraw.MapY | script.js:290 | the range minimum maps to height - padBottom and the maximum to height - padBottom - usableH |
| CandleDraw.MapYDecreasing | script.js:290 | higher prices map to strictly smaller rows |
| CandleDraw.MapYInBand | script.js:290 | prices inside the range map inside the usable band |
| CandleDraw.PriceAtMapY | script.js:290 | the price-to-row map is invertible: price, row, price is the identity |
| CandleDraw.MapYPriceAt | script.js:290 | the price-to-row map is invertible: row, price, row is the identity |
| CandleDraw.IsBull | script.js:298 | a bar whose close equals its open is bullish; a well-formed bullish bar orders low, open, close, high and a bearish one low, close, open, high |
| CandleDraw.BullDrawsUp | script.js:298 | a bar is bullish exactly when its close is drawn at or above its open |
| CandleDraw.BodyTop | script.js:313 | the body top is the upper of the open and close rows |
| CandleDraw.BodyHeight | script.js:314 | the body height is the open-close distance, at least 3 pixels |
| CandleDraw.BodyCoversOpenClose | script.js:313-314 | the body rectangle covers both the open and the close row |
| CandleDraw.WickCoversBody | script.js:306-314 | for a well-formed bar the wick spans the body vertically |
| CandleDraw.CandleX | script.js:297 | slot 0 is at the left edge, slot 99 at the right edge, and every slot lies inside the canvas |
| CandleDraw.CandleXIncreasing | script.js:297 | later bars are drawn strictly further right |
| CandleDraw.CandleWidth | script.js:288 | the body width is 95% of a slot, at least 4 pixels |
| NeonArea.NextMomentum | script.js:50 | the seeded walk's momentum stays within [-0.1, 0.1] for draws in [0, 1) |
| NeonArea.NextValue | script.js:51 | the seeded walk's value stays positive while the momentum is at least -0.1 |
| NeonArea.Series | script.js:49-53 | the seeded walk yields one point per draw with x indices counting up from the start |
| NeonArea.SeriesPositive | script.js:49-53 | all seeded values are positive for draws in [0, 1) |
| NeonArea.SeriesGeometric | script.js:44-53 | with noise-free draws and no momentum, seeded point k is v*1.002^(k+1) from start value v (100*1.002^(k+1) from the seed 100), because the value is multiplied before it is recorded |
| NeonArea.NextPoint | script.js:154-158 | a new point takes the next x index, and its value is positive after a positive one |
| NeonArea.StepKeepsShape | script.js:152-160 | a step keeps the buffer non-empty and within 240 points, with consecutive x indices, and the new point last |
| NeonArea.View | script.js:57-58 | the view is the last min(len, 140) points |
| NeonArea.Range | script.js:94 | the drawn range is max - min, floored at 1e-6 |
| NeonArea.AreaMapY | script.js:97 | the minimum maps 60 pixels above the bottom and, for an unclamped range, the maximum 60 pixels below the top |
| NeonArea.AreaMapYDecreasing | script.js:97 | on a canvas taller than 120 pixels, higher values map to strictly smaller rows |
| NeonArea.AreaMapX | script.js:96 | the first point is at the left edge, the last at the right edge, all in between |
| NeonArea.AverageInBand | script.js:137-139 | each moving-average value lies between the data's minimum and maximum |
| NeonArea.AverageOfConstant | script.js:139 | the moving average of a constant series is that constant |
| NeonArea.MovingAverage | script.js:134-143 | for a window of `period` points (the caller at script.js:129 passes 12): no averages below `period` points; otherwise len - period + 1 averages, the k-th the mean of the `period` values starting at index k |
| NeonArea.AreaChart.constructor | script.js:18-40 | after set-up and init the buffer is the seeded walk, the invariant holds and time is 0 |
| NeonArea.AreaChart.GenerateSeries | script.js:42-54 | the loop builds exactly the seeded walk: 220 points with x = 0..219 |
| NeonArea.AreaChart.StepSeries | script.js:152-160 | the next point after the last is pushed and the buffer is capped at 240 by one shift |
| NeonArea.AreaChart.Animate | script.js:162-171 | one frame makes two steps that see the same time, keeps the invariant, and advances time by 0.06 |
| NeonArea.AreaChart.GetMinMax | script.js:56-62 | the loop returns the minimum and maximum value of the view window, with min <= max |

## Left out

- Canvas painting: every `ctx` call, the gradients, the background grids, shadows and colours. Only the coordinate arithmetic is modelled.
- The `requestAnimationFrame` rescheduling and the resize listeners belong to the browser event loop. One frame is a method call, and `RunFrames` chains N of them.
- Floating point: prices are exact reals, so rounding, overflow to infinity and NaN are not modelled.
- `Math.random()` and `Math.sin(...)` are parameters. Nothing ties a `sine` argument to `Math.sin(time * 0.05)` of the current `time` field.
- The page parts outside the two chart classes are not modelled, because they are DOM and network glue:
  - navigation toggling, reveals, scrolling and cursor effects;
  - the stat counter;
  - the contact form's mail providers;
  - the commented-out particle renderer.
- Candlestick.CandlestickChart.constructor: the `animate()` call at the end of the source constructor is not part of it. The driver's first `Animate` call stands for it.
- NeonArea.AreaChart.constructor: the `animate()` call at the end of the source constructor is not part of it. The driver's first `Animate` call stands for it.
- Candlestick.CandlestickChart.GetMinMax: requires a non-empty buffer. For an empty buffer the source returns the `Infinity`/`-Infinity` sentinels, but its only caller returns early in that case.
- NeonArea.AreaChart.GetMinMax: requires a non-empty buffer. The source calls it from `drawSeries` without a guard; the buffer is never empty there, because construction seeds 220 points and a step pushes one point and shifts at most one, so the buffer never shrinks, as `AreaChart.Valid()` states.
- NeonArea.AreaChart.StepSeries: requires a non-empty buffer. On an empty one the source fails reading the missing last point's fields.
- NeonArea.AreaMapX: requires at least two drawn points. With one point the source divides 0 by 0, and the result is NaN.
- Candlestick.CandlestickChart.RunFrames: states the invariant, the counters and that the forming bar stays chained to the newest bar. It does not give the buffer and forming bar after N frames. `Animate` gives them frame by frame as `FrameNext`, and `Run` gives them on values, but connecting the loop to `Run` is beyond the verifier's budget.
- Candlestick.Run: carries no contract of its own. Its property is the lemma `RunChained`.
- SeriesMath.Sum: carries no contract of its own. Its properties are the lemmas `SumBounds` and `SumConstant`.
- Candlestick.FormingCandle.Snapshot: carries no contract of its own. It is the copy the other contracts are stated on.
