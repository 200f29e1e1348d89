/** Indicators: real-valued series indexed backwards from the latest bar
    (index 0 is the newest, index `i + 1` the bar before `i`), the price
    series of a chart, and the windowed indicators built over them. */
module Indicators {
  import opened Prelude
  import opened Bars
  import opened BarCharts

  /** An indicator is its `valueAt`; every index has a value. */
  type Indicator = int -> real

  /** `get(index)`, the operator form of `valueAt`. */
  function ValueAt(ind: Indicator, index: int): real
  {
    ind(index)
  }

  /** `latestValue`: the value at the newest bar. */
  function LatestValue(ind: Indicator): real
  {
    ind(0)
  }

  /** `previousValue(bars)`: the indicator delayed by `bars` bars. */
  function PreviousValue(ind: Indicator, bars: int): (r: Indicator)
    ensures forall index :: r(index) == ind(index + bars)
  {
    index => ind(index + bars)
  }

  /** A delay of zero changes nothing, delays add up, and the latest value of
      a delayed indicator is the value that many bars back. */
  lemma PreviousValueLaws(ind: Indicator, a: int, b: int, index: int)
    ensures ValueAt(PreviousValue(ind, 0), index) == ValueAt(ind, index)
    ensures ValueAt(PreviousValue(PreviousValue(ind, a), b), index) == ValueAt(PreviousValue(ind, a + b), index)
    ensures LatestValue(PreviousValue(ind, a)) == ValueAt(ind, a)
  {
  }

  /** The same value at every index. */
  function Constant(v: real): (r: Indicator)
    ensures forall index :: r(index) == v
  {
    _ => v
  }

  // ---------------------------------------------------------------------
  // Price series of a chart
  // ---------------------------------------------------------------------

  function OpenPrice(c: BarChart): Indicator
  {
    index => Get(c, index).open
  }

  function HighPrice(c: BarChart): Indicator
  {
    index => Get(c, index).high
  }

  function LowPrice(c: BarChart): Indicator
  {
    index => Get(c, index).low
  }

  function ClosePrice(c: BarChart): Indicator
  {
    index => Get(c, index).close
  }

  function Volume(c: BarChart): Indicator
  {
    index => Get(c, index).volume
  }

  /** `typicalPrice`: mean of high, low and close. */
  function TypicalPrice(c: BarChart): Indicator
  {
    index => (Get(c, index).high + Get(c, index).low + Get(c, index).close) / 3.0
  }

  /** `hlc3Price` is another name for the typical price. */
  function Hlc3Price(c: BarChart): Indicator
  {
    TypicalPrice(c)
  }

  /** The price series read the bar at that index, newest first; beyond the
      stored bars they read the placeholder's zeros (not NaN). */
  lemma PriceSeriesReadTheBar(c: BarChart, index: int)
    ensures 0 <= index < |c.data| ==>
      var b := c.data[|c.data| - 1 - index];
      && OpenPrice(c)(index) == b.open && HighPrice(c)(index) == b.high
      && LowPrice(c)(index) == b.low && ClosePrice(c)(index) == b.close
      && Volume(c)(index) == b.volume
    ensures !(0 <= index < |c.data|) ==>
      && OpenPrice(c)(index) == 0.0 && HighPrice(c)(index) == 0.0
      && LowPrice(c)(index) == 0.0 && ClosePrice(c)(index) == 0.0
      && Volume(c)(index) == 0.0 && TypicalPrice(c)(index) == 0.0
  {
  }

  /** On a bar whose close lies between its low and high, the typical price
      does too. */
  lemma TypicalPriceWithinBar(c: BarChart, index: int)
    requires Get(c, index).low <= Get(c, index).close <= Get(c, index).high
    ensures LowPrice(c)(index) <= TypicalPrice(c)(index) <= HighPrice(c)(index)
    ensures Hlc3Price(c)(index) == TypicalPrice(c)(index)
  {
  }

  /** Two five-minute bars closing at 11 and 12, and a bar with high 30, low
      10 and close 20 whose typical price is 20. */
  lemma PriceSeriesExample(start: int)
    ensures var c := BarChart("TEST", TimeFrames.MIN_5, start, [
                       Bar(TimeFrames.MIN_5, start, 10.0, 11.0, 20.0, 5.0, 1.0, true),
                       Bar(TimeFrames.MIN_5, start + 300, 11.0, 12.0, 21.0, 6.0, 1.0, true)]);
            ClosePrice(c)(0) == 12.0 && ClosePrice(c)(1) == 11.0 && ClosePrice(c)(2) == 0.0
    ensures var c := BarChart("TEST", TimeFrames.MIN_5, start, [
                       Bar(TimeFrames.MIN_5, start, 10.0, 20.0, 30.0, 10.0, 1.0, true)]);
            Hlc3Price(c)(0) == 20.0 && Hlc3Price(c)(1) == 0.0
  {
  }

  // ---------------------------------------------------------------------
  // Windowed indicators
  // ---------------------------------------------------------------------

  /** The values at `index until index + length`, i.e. the bar at `index`
      and the `length - 1` bars before it. */
  function Window(ind: Indicator, index: int, length: nat): (w: seq<real>)
    ensures |w| == length
    ensures forall k :: 0 <= k < length ==> w[k] == ind(index + k)
  {
    seq(length, k => ind(index + k))
  }

  /** Delaying an indicator shifts every window by the delay. */
  lemma WindowOfPrevious(ind: Indicator, bars: int, index: int, length: nat)
    ensures Window(PreviousValue(ind, bars), index, length) == Window(ind, index + bars, length)
  {
    var w1 := Window(PreviousValue(ind, bars), index, length);
    var w2 := Window(ind, index + bars, length);
    assert forall k :: 0 <= k < length ==> w1[k] == w2[k];
  }

  /** `lowestValue(length)`: `minOf` over an empty range throws. */
  function LowestValue(ind: Indicator, length: int, index: int): (r: Result<real>)
    ensures r.Err? <==> length < 1
    ensures r.Err? ==> r.failure == NoSuchElement
    ensures r.Ok? ==> forall j :: index <= j < index + length ==> r.value <= ind(j)
    ensures r.Ok? ==> exists j :: index <= j < index + length && r.value == ind(j)
  {
    if length < 1 then Err(NoSuchElement)
    else
      var w := Window(ind, index, length);
      assert forall j :: index <= j < index + length ==> w[j - index] == ind(j);
      Ok(MinOf(w))
  }

  /** `highestValue(length)`. */
  function HighestValue(ind: Indicator, length: int, index: int): (r: Result<real>)
    ensures r.Err? <==> length < 1
    ensures r.Err? ==> r.failure == NoSuchElement
    ensures r.Ok? ==> forall j :: index <= j < index + length ==> ind(j) <= r.value
    ensures r.Ok? ==> exists j :: index <= j < index + length && r.value == ind(j)
  {
    if length < 1 then Err(NoSuchElement)
    else
      var w := Window(ind, index, length);
      assert forall j :: index <= j < index + length ==> w[j - index] == ind(j);
      Ok(MaxOf(w))
  }

  /** `simpleMovingAverage(length)`: the window mean; `average()` of an empty
      range is NaN. */
  function SimpleMovingAverage(ind: Indicator, length: int, index: int): (r: Result<real>)
    ensures r.Err? <==> length < 1
    ensures r.Err? ==> r.failure == NotFinite
    ensures r.Ok? ==> LowestValue(ind, length, index).value <= r.value
    ensures r.Ok? ==> r.value <= HighestValue(ind, length, index).value
  {
    if length < 1 then Err(NotFinite)
    else
      var w := Window(ind, index, length);
      AverageWithinExtremes(w);
      Ok(Average(w))
  }

  /** The moving average is the window mean: the value that, spread back
      over the window, gives the window's total. */
  lemma SimpleMovingAverageIsMean(ind: Indicator, length: int, index: int)
    requires length >= 1
    ensures SimpleMovingAverage(ind, length, index) == Ok(Average(Window(ind, index, length)))
    ensures Average(Window(ind, index, length)) * length as real == Sum(Window(ind, index, length))
  {
    SimpleMovingAverageUnfolds(ind, length, index);
    WindowAverageScales(ind, length, index);
  }

  lemma SimpleMovingAverageUnfolds(ind: Indicator, length: int, index: int)
    requires length >= 1
    ensures SimpleMovingAverage(ind, length, index) == Ok(Average(Window(ind, index, length)))
  {
  }

  lemma WindowAverageScales(ind: Indicator, length: int, index: int)
    requires length >= 1
    ensures Average(Window(ind, index, length)) * length as real == Sum(Window(ind, index, length))
  {
    var w := Window(ind, index, length);
    AverageTimesLength(w, Average(w), length);
  }

  /** The lowest value of a window never exceeds its highest, and both are
      the value itself on a window of one. */
  lemma LowestNotAboveHighest(ind: Indicator, length: int, index: int)
    requires length >= 1
    ensures LowestValue(ind, length, index).value <= HighestValue(ind, length, index).value
    ensures length == 1 ==> LowestValue(ind, 1, index) == HighestValue(ind, 1, index) == Ok(ind(index))
  {
    assert ind(index) == Window(ind, index, length)[0];
  }

  /** The windowed indicators of a delayed indicator are the same indicators
      read that many bars back. */
  lemma WindowedIndicatorsCommuteWithDelay(ind: Indicator, bars: int, length: int, index: int)
    ensures LowestValue(PreviousValue(ind, bars), length, index) == LowestValue(ind, length, index + bars)
    ensures HighestValue(PreviousValue(ind, bars), length, index) == HighestValue(ind, length, index + bars)
    ensures SimpleMovingAverage(PreviousValue(ind, bars), length, index)
         == SimpleMovingAverage(ind, length, index + bars)
  {
    if length >= 1 {
      WindowOfPrevious(ind, bars, index, length);
    }
  }

  /** Absolute deviations of a window from a centre value. */
  function Deviations(w: seq<real>, centre: real): (d: seq<real>)
    ensures |d| == |w|
    ensures forall k :: 0 <= k < |w| ==> d[k] == Abs(w[k] - centre)
  {
    seq(|w|, k requires 0 <= k < |w| => Abs(w[k] - centre))
  }

  /** `meanDeviation(length)`: the average absolute deviation of the window
      from its moving average. A zero length divides `0.0` by zero (NaN); a
      negative length sums an empty range and divides it, giving zero. */
  function MeanDeviation(ind: Indicator, length: int, index: int): (r: Result<real>)
    ensures r.Err? <==> length == 0
    ensures r.Err? ==> r.failure == NotFinite
    ensures r.Ok? ==> r.value >= 0.0
    ensures length < 0 ==> r == Ok(0.0)
  {
    if length == 0 then Err(NotFinite)
    else if length < 0 then Ok(0.0)
    else
      var w := Window(ind, index, length);
      var average := SimpleMovingAverage(ind, length, index).value;
      SumNonNegative(Deviations(w, average));
      Ok(Sum(Deviations(w, average)) / length as real)
  }

  /** For a positive length the mean deviation is the average absolute
      distance of the window's values from the window's own mean. */
  lemma MeanDeviationIsMeanAbsoluteDeviation(ind: Indicator, length: int, index: int)
    requires length >= 1
    ensures var w := Window(ind, index, length);
            MeanDeviation(ind, length, index) == Ok(Average(Deviations(w, Average(w))))
  {
    SimpleMovingAverageUnfolds(ind, length, index);
  }

  /** Over a window where the indicator does not move, the average is that
      value and the mean deviation is zero. */
  lemma {:induction false} ConstantWindow(ind: Indicator, length: int, index: int, v: real)
    requires length >= 1
    requires forall j :: index <= j < index + length ==> ind(j) == v
    ensures SimpleMovingAverage(ind, length, index) == Ok(v)
    ensures MeanDeviation(ind, length, index) == Ok(0.0)
  {
    var w := Window(ind, index, length);
    assert forall k :: 0 <= k < |w| ==> w[k] == ind(index + k) == v;
    AverageWithin(w, v, v);
    assert SimpleMovingAverage(ind, length, index).value == v;
    var d := Deviations(w, v);
    assert forall k :: 0 <= k < |d| ==> d[k] == 0.0;
    SumAtMost(d, 0.0);
    SumNonNegative(d);
    assert Sum(d) == 0.0;
  }

  // ---------------------------------------------------------------------
  // Chart indicators
  // ---------------------------------------------------------------------

  /** `trueRange`: the largest of the bar's own range and the distances from
      the close of the bar before it (index `index + 1`). */
  function TrueRange(c: BarChart, index: int): (r: real)
    ensures r >= Abs(Get(c, index).high - Get(c, index).low) >= 0.0
    ensures r >= Abs(Get(c, index).high - Get(c, index + 1).close)
    ensures r >= Abs(Get(c, index + 1).close - Get(c, index).low)
    ensures r == Abs(Get(c, index).high - Get(c, index).low)
         || r == Abs(Get(c, index).high - Get(c, index + 1).close)
         || r == Abs(Get(c, index + 1).close - Get(c, index).low)
  {
    var bar := Get(c, index);
    var close := Get(c, index + 1).close;
    Max(Abs(bar.high - bar.low), Max(Abs(bar.high - close), Abs(close - bar.low)))
  }

  /** When the previous close lies inside the bar, the true range is just the
      bar's range; a gap beyond the bar widens it to reach that close. */
  lemma TrueRangeOfContainedClose(c: BarChart, index: int)
    ensures Get(c, index).low <= Get(c, index + 1).close <= Get(c, index).high ==>
      TrueRange(c, index) == Get(c, index).high - Get(c, index).low
    ensures Get(c, index).low <= Get(c, index).high < Get(c, index + 1).close ==>
      TrueRange(c, index) == Get(c, index + 1).close - Get(c, index).low
  {
  }

  /** `stochastic(length)` as written: the distance of the close above the
      lowest low is divided by the distance of the close BELOW the highest
      high, then capped at 100; when the close is the highest high the result
      is exactly 100. Either window throws on a length below one. */
  function StochasticAsWritten(c: BarChart, length: int, index: int): (r: Result<real>)
    ensures r.Err? <==> length < 1
    ensures r.Ok? ==> r.value <= 100.0
    ensures r.Ok? && HighestValue(HighPrice(c), length, index).value == ClosePrice(c)(index) ==> r.value == 100.0
  {
    if length < 1 then Err(NoSuchElement)
    else
      var price := ClosePrice(c)(index);
      var highest := HighestValue(HighPrice(c), length, index).value;
      var lowest := LowestValue(LowPrice(c), length, index).value;
      if highest - price == 0.0 then Ok(100.0)
      else
        var k := 100.0 * (price - lowest) / (highest - price);
        Ok(if k > 100.0 then 100.0 else k)
  }

  /** The stochastic %K as its name promises: where the close sits in the
      window's low-high range, in percent; a flat range reads 100 as the
      guard in the original does. */
  function StochasticK(c: BarChart, length: int, index: int): (r: Result<real>)
    ensures r.Err? <==> length < 1
    ensures r.Err? ==> r.failure == NoSuchElement
  {
    if length < 1 then Err(NoSuchElement)
    else
      var price := ClosePrice(c)(index);
      var highest := HighestValue(HighPrice(c), length, index).value;
      var lowest := LowestValue(LowPrice(c), length, index).value;
      if highest - lowest == 0.0 then Ok(100.0)
      else Ok(100.0 * (price - lowest) / (highest - lowest))
  }

  lemma PercentOfRange(price: real, lowest: real, highest: real)
    requires lowest <= price <= highest && lowest < highest
    ensures 0.0 <= 100.0 * (price - lowest) / (highest - lowest) <= 100.0
    ensures 100.0 * (price - lowest) / (highest - lowest) == 100.0 <==> price == highest
    ensures 100.0 * (price - lowest) / (highest - lowest) == 0.0 <==> price == lowest
  {
    var q := 100.0 * (price - lowest) / (highest - lowest);
    assert q * (highest - lowest) == 100.0 * (price - lowest);
    if q == 0.0 {
      assert 100.0 * (price - lowest) == 0.0;
    }
  }

  /** On a bar whose close lies between its low and high, %K is a percentage:
      0 exactly at the lowest low, 100 exactly at the highest high. */
  lemma StochasticKIsPercentage(c: BarChart, length: int, index: int)
    requires length >= 1
    requires Get(c, index).low <= Get(c, index).close <= Get(c, index).high
    ensures 0.0 <= StochasticK(c, length, index).value <= 100.0
    ensures var highest := HighestValue(HighPrice(c), length, index).value;
            var lowest := LowestValue(LowPrice(c), length, index).value;
            lowest < highest ==>
              && (StochasticK(c, length, index).value == 100.0 <==> ClosePrice(c)(index) == highest)
              && (StochasticK(c, length, index).value == 0.0 <==> ClosePrice(c)(index) == lowest)
  {
    var highest := HighestValue(HighPrice(c), length, index).value;
    var lowest := LowestValue(LowPrice(c), length, index).value;
    var price := ClosePrice(c)(index);
    assert lowest <= LowPrice(c)(index + 0) && HighPrice(c)(index + 0) <= highest;
    if lowest < highest {
      PercentOfRange(price, lowest, highest);
    }
  }

  /** As written, every close in the upper half of the range reads 100: the
      ratio (close - lowest) / (highest - close) is at least one there. */
  lemma StochasticSaturatesInUpperHalf(c: BarChart, length: int, index: int)
    requires length >= 1
    requires var highest := HighestValue(HighPrice(c), length, index).value;
             var lowest := LowestValue(LowPrice(c), length, index).value;
             var price := ClosePrice(c)(index);
             price < highest && 2.0 * price >= highest + lowest
    ensures StochasticAsWritten(c, length, index) == Ok(100.0)
  {
    var highest := HighestValue(HighPrice(c), length, index).value;
    var lowest := LowestValue(LowPrice(c), length, index).value;
    var price := ClosePrice(c)(index);
    UpperHalfRatio(price, lowest, highest);
  }

  /** As written, a close from the lowest low up to below the midpoint of the
      range reads 100·(close − lowest)/(highest − close), uncapped. */
  lemma StochasticBelowMidpoint(c: BarChart, length: int, index: int)
    requires length >= 1
    requires var highest := HighestValue(HighPrice(c), length, index).value;
             var lowest := LowestValue(LowPrice(c), length, index).value;
             var price := ClosePrice(c)(index);
             lowest <= price && 2.0 * price < highest + lowest
    ensures var highest := HighestValue(HighPrice(c), length, index).value;
            var lowest := LowestValue(LowPrice(c), length, index).value;
            var price := ClosePrice(c)(index);
            StochasticAsWritten(c, length, index) == Ok(100.0 * (price - lowest) / (highest - price))
  {
    var highest := HighestValue(HighPrice(c), length, index).value;
    var lowest := LowestValue(LowPrice(c), length, index).value;
    var price := ClosePrice(c)(index);
    LowerHalfRatio(price, lowest, highest);
  }

  lemma LowerHalfRatio(price: real, lowest: real, highest: real)
    requires lowest <= price && 2.0 * price < highest + lowest
    ensures highest - price > 0.0
    ensures 100.0 * (price - lowest) / (highest - price) < 100.0
  {
    var k := 100.0 * (price - lowest) / (highest - price);
    assert k * (highest - price) == 100.0 * (price - lowest);
    assert 100.0 * (price - lowest) < 100.0 * (highest - price);
    assert (highest - price) * (100.0 - k) > 0.0;
    PositiveFactorKeepsSign(highest - price, 100.0 - k);
  }

  lemma UpperHalfRatio(price: real, lowest: real, highest: real)
    requires price < highest && 2.0 * price >= highest + lowest
    ensures 100.0 * (price - lowest) / (highest - price) >= 100.0
  {
    var k := 100.0 * (price - lowest) / (highest - price);
    assert k * (highest - price) == 100.0 * (price - lowest);
    assert 100.0 * (price - lowest) >= 100.0 * (highest - price);
  }

  /** One bar with low 0, high 10 and close 8: the close sits at 80% of the
      range, but the formula as written computes 400 and reports 100. */
  lemma StochasticCounterexample()
    ensures var c := BarChart("TEST", TimeFrames.MIN_1, 0, [Bar(TimeFrames.MIN_1, 0, 8.0, 8.0, 10.0, 0.0, 1.0, true)]);
            && StochasticAsWritten(c, 1, 0) == Ok(100.0)
            && StochasticK(c, 1, 0) == Ok(80.0)
  {
    var c := BarChart("TEST", TimeFrames.MIN_1, 0, [Bar(TimeFrames.MIN_1, 0, 8.0, 8.0, 10.0, 0.0, 1.0, true)]);
    assert Window(HighPrice(c), 0, 1) == [10.0];
    assert Window(LowPrice(c), 0, 1) == [0.0];
  }
}
