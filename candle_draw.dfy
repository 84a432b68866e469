// The coordinate arithmetic of the candlestick renderer: the price-to-pixel
// map, its inverse, the body rectangle and the horizontal slots. Painting on
// the canvas is not modelled.
module CandleDraw {
  import opened Candlestick

  const PadTop: real := 50.0
  const PadBottom: real := 70.0
  const MinBody: real := 3.0         // least body height, in pixels
  const MinCandleWidth: real := 4.0  // least body width, in pixels

  /** The drawing height between the paddings, never below one pixel. */
  function UsableHeight(height: real): (u: real)
    ensures u >= 1.0 && u >= height - PadTop - PadBottom
    ensures u == 1.0 || u == height - PadTop - PadBottom
  {
    if height - PadTop - PadBottom > 1.0 then height - PadTop - PadBottom else 1.0
  }

  /** The fraction of the range [lo, hi] that `price` lies at. */
  function Level(price: real, lo: real, hi: real): real
    requires lo < hi
  {
    (price - lo) / (hi - lo)
  }

  /** The pixel row of `price` when [lo, hi] is the range on screen: the
      bottom of the range lands on the lower padding and the top of the range
      on the upper edge of the usable band. */
  function MapY(price: real, lo: real, hi: real, height: real): (y: real)
    requires lo < hi
    ensures price == lo ==> y == height - PadBottom
    ensures price == hi ==> y == height - PadBottom - UsableHeight(height)
  {
    assert (hi - lo) / (hi - lo) == 1.0;
    assert price == lo ==> Level(price, lo, hi) == 0.0;
    height - PadBottom - Level(price, lo, hi) * UsableHeight(height)
  }

  /** The price drawn at pixel row `y`. */
  function PriceAt(y: real, lo: real, hi: real, height: real): real
    requires lo < hi
  {
    lo + (height - PadBottom - y) / UsableHeight(height) * (hi - lo)
  }

  /** Higher prices are drawn strictly higher up (at smaller rows). */
  lemma MapYDecreasing(p: real, q: real, lo: real, hi: real, height: real)
    requires lo < hi && p < q
    ensures MapY(q, lo, hi, height) < MapY(p, lo, hi, height)
  {
    var u := UsableHeight(height);
    assert Level(q, lo, hi) - Level(p, lo, hi) == (q - p) / (hi - lo);
    assert (Level(q, lo, hi) - Level(p, lo, hi)) * u > 0.0;
  }

  /** A price inside the range is drawn inside the usable band. */
  lemma MapYInBand(p: real, lo: real, hi: real, height: real)
    requires lo <= p <= hi && lo < hi
    ensures height - PadBottom - UsableHeight(height) <= MapY(p, lo, hi, height) <= height - PadBottom
  {
    if lo < p { MapYDecreasing(lo, p, lo, hi, height); }
    if p < hi { MapYDecreasing(p, hi, lo, hi, height); }
  }

  /** PriceAt undoes MapY. */
  lemma PriceAtMapY(p: real, lo: real, hi: real, height: real)
    requires lo < hi
    ensures PriceAt(MapY(p, lo, hi, height), lo, hi, height) == p
  {
    var u, l := UsableHeight(height), Level(p, lo, hi);
    assert height - PadBottom - MapY(p, lo, hi, height) == l * u;
    assert (l * u) / u == l;
    assert l * (hi - lo) == p - lo;
  }

  /** MapY undoes PriceAt. */
  lemma MapYPriceAt(y: real, lo: real, hi: real, height: real)
    requires lo < hi
    ensures MapY(PriceAt(y, lo, hi, height), lo, hi, height) == y
  {
    var u, d := UsableHeight(height), height - PadBottom - y;
    var p := PriceAt(y, lo, hi, height);
    assert p - lo == d / u * (hi - lo);
    assert Level(p, lo, hi) == d / u;
    assert d / u * u == d;
  }

  /** A bar is drawn bullish when it closed at or above its open, so a bar
      whose close did not move counts as bullish; a well-formed bullish bar
      orders its prices low, open, close, high and a bearish one low, close,
      open, high. */
  predicate IsBull(c: Candle)
    ensures c.close == c.open ==> IsBull(c)
    ensures WellFormed(c) && IsBull(c) ==> c.low <= c.open <= c.close <= c.high
    ensures WellFormed(c) && !IsBull(c) ==> c.low <= c.close < c.open <= c.high
  {
    c.close >= c.open
  }

  /** Bullish bars are exactly those whose close is drawn at or above their
      open. */
  lemma BullDrawsUp(c: Candle, lo: real, hi: real, height: real)
    requires lo < hi
    ensures IsBull(c) <==> MapY(c.close, lo, hi, height) <= MapY(c.open, lo, hi, height)
  {
    if c.open < c.close { MapYDecreasing(c.open, c.close, lo, hi, height); }
    if c.close < c.open { MapYDecreasing(c.close, c.open, lo, hi, height); }
  }

  /** The top row of a bar's body. */
  function BodyTop(yOpen: real, yClose: real): (top: real)
    ensures top <= yOpen && top <= yClose
    ensures top == yOpen || top == yClose
  {
    if yOpen < yClose then yOpen else yClose
  }

  /** The body's height: the distance between open and close, at least
      MinBody pixels. */
  function BodyHeight(yOpen: real, yClose: real): (h: real)
    ensures h >= MinBody
    ensures h >= yClose - yOpen && h >= yOpen - yClose
    ensures h == MinBody || h == yClose - yOpen || h == yOpen - yClose
  {
    var d := if yClose >= yOpen then yClose - yOpen else yOpen - yClose;
    if MinBody > d then MinBody else d
  }

  /** The body rectangle covers both the open row and the close row. */
  lemma BodyCoversOpenClose(yOpen: real, yClose: real)
    ensures var top, h := BodyTop(yOpen, yClose), BodyHeight(yOpen, yClose);
      top <= yOpen <= top + h && top <= yClose <= top + h
  {
  }

  /** For a well-formed bar the wick reaches from above the body's top to
      below the lower of the open and close rows. */
  lemma WickCoversBody(c: Candle, lo: real, hi: real, height: real)
    requires lo < hi && WellFormed(c)
    ensures var yO, yC := MapY(c.open, lo, hi, height), MapY(c.close, lo, hi, height);
      MapY(c.high, lo, hi, height) <= BodyTop(yO, yC) &&
      yO <= MapY(c.low, lo, hi, height) && yC <= MapY(c.low, lo, hi, height)
  {
    if c.open < c.high { MapYDecreasing(c.open, c.high, lo, hi, height); }
    if c.close < c.high { MapYDecreasing(c.close, c.high, lo, hi, height); }
    if c.low < c.open { MapYDecreasing(c.low, c.open, lo, hi, height); }
    if c.low < c.close { MapYDecreasing(c.low, c.close, lo, hi, height); }
  }

  /** The horizontal position of the `i`-th finalized bar: the WindowSize
      slots are spread from 0 to `width`. */
  function CandleX(i: nat, width: real): (x: real)
    ensures i == 0 ==> x == 0.0
    ensures i == WindowSize - 1 ==> x == width
    ensures i < WindowSize && width >= 0.0 ==> 0.0 <= x <= width
  {
    (i as real / (WindowSize - 1) as real) * width
  }

  /** Later bars are drawn strictly further right on a canvas of positive
      width. */
  lemma CandleXIncreasing(i: nat, j: nat, width: real)
    requires i < j && width > 0.0
    ensures CandleX(i, width) < CandleX(j, width)
  {
    var n := (WindowSize - 1) as real;
    assert CandleX(j, width) - CandleX(i, width) == ((j - i) as real / n) * width;
  }

  /** The body width: 95% of a slot, at least MinCandleWidth pixels. */
  function CandleWidth(width: real): (w: real)
    ensures w >= MinCandleWidth && w >= width / WindowSize as real * 0.95
    ensures w == MinCandleWidth || w == width / WindowSize as real * 0.95
  {
    var slot := width / WindowSize as real * 0.95;
    if MinCandleWidth > slot then MinCandleWidth else slot
  }
}
